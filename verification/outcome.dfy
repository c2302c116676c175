/** The completion callback registered with each dispatch: it sorts the
    outcome of the call into exactly one log event. */
module Outcome {
  import opened Base

  /** A response entity; `Unreadable` is one whose `EntityUtils.toString` throws. */
  datatype Entity = Readable(text: string) | Unreadable

  datatype Response = Response(status: int, entity: Option<Entity>)

  /** The three callback methods: `completed`, `failed`, `cancelled`. */
  datatype Completion = Completed(response: Response) | Failed(detail: string) | Cancelled

  datatype Level = Debug | Info | Warn | Error

  /** One outcome event. `LevelOf` is the level of its summary line. After a
      completed call the callback logs the body that was sent (`message`) in
      a second line at `messageLevel`. */
  datatype Event =
    | Written(count: nat, message: string, messageLevel: Level)
    | Rejected(url: string, code: int, responseBody: string, message: string, messageLevel: Level)
    | TransportFailed(detail: string)
    | RequestCancelled

  /** The levels of every line the callback logs, in order. */
  function LoggedLevels(e: Event): seq<Level> {
    match e
    case Written(_, _, l) => [LevelOf(e), l]
    case Rejected(_, _, _, _, l) => [LevelOf(e), l]
    case _ => [LevelOf(e)]
  }

  function LevelOf(e: Event): Level {
    match e
    case Written(_, _, _) => Info
    case Rejected(_, _, _, _, _) => Error
    case TransportFailed(_) => Error
    case RequestCancelled => Warn
  }

  predicate HasReadableEntity(response: Option<Response>) {
    response.Some? && response.value.entity.Some? && response.value.entity.value.Readable?
  }

  /** `getBody`: best-effort text of the response; empty when the response or
      its entity is missing or reading it fails. Total, so it never throws. */
  function GetBody(response: Option<Response>): (body: string)
    ensures HasReadableEntity(response) ==> body == response.value.entity.value.text
    ensures !HasReadableEntity(response) ==> body == ""
  {
    match response
    case None => ""
    case Some(r) =>
      match r.entity
      case None => ""
      case Some(Unreadable) => ""
      case Some(Readable(t)) => t
  }

  /** The callback of a dispatch of `count` records with body `message` to
      `url`; `isSuccessCode` stands for `MetricUtils.isSuccessCode`. */
  function Classify(isSuccessCode: int -> bool, url: string, count: nat, message: string, c: Completion): (e: Event)
    ensures LevelOf(e) == Info <==> c.Completed? && isSuccessCode(c.response.status)
    ensures LevelOf(e) == Error <==> c.Failed? || (c.Completed? && !isSuccessCode(c.response.status))
    ensures LevelOf(e) == Warn <==> c.Cancelled?
    ensures LevelOf(e) != Debug
    ensures e.Written? ==> e.count == count && e.message == message
    ensures e.Rejected? ==> c.Completed? && e == Rejected(url, c.response.status, GetBody(Some(c.response)), message, Info)
    ensures c.Completed? ==> LoggedLevels(e) == [LevelOf(e), if isSuccessCode(c.response.status) then Debug else Info]
    ensures !c.Completed? ==> |LoggedLevels(e)| == 1
    ensures Info in LoggedLevels(e) <==> c.Completed?
    ensures c.Failed? ==> e == TransportFailed(c.detail)
  {
    match c
    case Completed(response) =>
      var code := response.status;
      if isSuccessCode(code) then Written(count, message, Debug)
      else Rejected(url, code, GetBody(Some(response)), message, Info)
    case Failed(detail) => TransportFailed(detail)
    case Cancelled => RequestCancelled
  }
}
