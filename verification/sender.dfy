/** `MintMetricSender` as a state machine. `addMetric` and
    `writeAndSendMetrics()` are both `synchronized`, so every run of producer
    and flush calls is some sequence of atomic steps, which `Run` replays. */
module Sender {
  import opened Base
  import opened Request
  import opened Message
  import opened Outcome

  /** The code the sender calls but does not define: `printMessage`, the
      `line.separator` property, `new URL` and `URL.toURI` succeeding. */
  datatype Env<!L> = Env(
    render: L -> string,
    lineSeparator: string,
    urlParses: string -> bool,
    uriParses: string -> bool)

  /** One `httpClient.execute`: the batch it carries, the body built from it
      (which the callback keeps for its log), and the request as sent. */
  datatype Dispatch<L> = Dispatch(batch: seq<L>, message: string, request: HttpPost)

  /** What became of one batch handed to `writeAndSendMetrics(List)`: sent, or
      dropped because the request could not be rebuilt. */
  datatype Handover<L> = Sent(dispatch: Dispatch<L>) | Abandoned(batch: seq<L>, error: UriSyntaxError)

  /** The fields of the sender; `history` is the log of every handover, in
      order, kept by the model so that no-loss can be stated. */
  datatype Sender<L> = Sender(
    url: string,
    token: Option<string>,
    metrics: seq<L>,
    httpRequest: Option<HttpPost>,
    lastRequest: Option<Dispatch<L>>,
    history: seq<Handover<L>>)

  datatype SetupError = MalformedUrl(input: string) | UriSyntax(cause: UriSyntaxError)

  function BatchOf<L>(h: Handover<L>): seq<L> {
    match h
    case Sent(d) => d.batch
    case Abandoned(b, _) => b
  }

  /** Every record handed over, batch after batch. */
  function Drained<L>(history: seq<Handover<L>>): seq<L> {
    if |history| == 0 then [] else Drained(history[..|history| - 1]) + BatchOf(history[|history| - 1])
  }

  /** The most recent dispatch in a history, if there is one. */
  function LastSent<L>(history: seq<Handover<L>>): Option<Dispatch<L>> {
    if |history| == 0 then None
    else if history[|history| - 1].Sent? then Some(history[|history| - 1].dispatch)
    else LastSent(history[..|history| - 1])
  }

  /** The reusable request targets the configured url and carries the header
      the token calls for. */
  predicate RequestMatches<L>(s: Sender<L>) {
    && s.httpRequest.Some?
    && s.httpRequest.value.uri == s.url
    && Authorization(s.httpRequest.value) == ExpectedAuthorization(s.token)
  }

  /** A dispatch went to the configured url, with the header the token calls
      for and the body of exactly its batch, which is also the message its
      callback logs. */
  ghost predicate SentCorrectly<L>(env: Env<L>, s: Sender<L>, h: Handover<L>) {
    && h.Sent?
    && h.dispatch.request.uri == s.url
    && Authorization(h.dispatch.request) == ExpectedAuthorization(s.token)
    && h.dispatch.message == Body(env.render, env.lineSeparator, h.dispatch.batch)
    && h.dispatch.request.entity == Some(h.dispatch.message)
  }

  /** The state reached by a successful setup and kept by every later call:
      the request exists, every batch so far was sent correctly, and
      `lastRequest` is the latest dispatch. */
  ghost predicate Ready<L>(env: Env<L>, s: Sender<L>) {
    && RequestMatches(s)
    && (forall i :: 0 <= i < |s.history| ==> SentCorrectly(env, s, s.history[i]))
    && s.lastRequest == LastSent(s.history)
  }

  /** `setup` on a fresh sender: parse the url, build the request. Either
      failure propagates to the caller. */
  function Setup<L>(env: Env<L>, urlText: string, token: Option<string>): (r: Result<Sender<L>, SetupError>)
    ensures r.Err? <==> !env.urlParses(urlText) || !env.uriParses(urlText)
    ensures r.Err? && !env.urlParses(urlText) ==> r.error == MalformedUrl(urlText)
    ensures r.Err? && env.urlParses(urlText) ==> r.error == UriSyntax(UriSyntaxError(urlText))
    ensures r.Ok? ==> r.value.url == urlText && r.value.token == token
    ensures r.Ok? ==> r.value.metrics == [] && r.value.history == [] && r.value.lastRequest.None?
    ensures r.Ok? ==> Ready(env, r.value)
  {
    if !env.urlParses(urlText) then Err(MalformedUrl(urlText))
    else
      match CreateRequest(env.uriParses, urlText, token)
      case Err(e) => Err(UriSyntax(e))
      case Ok(request) => Ok(Sender(urlText, token, [], Some(request), None, []))
  }

  /** `addMetric`: append the line; nothing else changes. */
  function AddMetric<L>(s: Sender<L>, line: L): (r: Sender<L>)
    ensures r.metrics == s.metrics + [line]
    ensures r == s.(metrics := r.metrics)
  {
    s.(metrics := s.metrics + [line])
  }

  /** `writeAndSendMetrics(List)` on an already-drained batch: rebuild the
      request if it is missing, set the body, dispatch. A rebuild failure is
      logged and the batch is dropped. */
  function SendBatch<L>(env: Env<L>, s: Sender<L>, batch: seq<L>): (r: Sender<L>)
    ensures r.url == s.url && r.token == s.token && r.metrics == s.metrics
    ensures |r.history| == |s.history| + 1 && r.history[..|s.history|] == s.history
    ensures BatchOf(r.history[|s.history|]) == batch
    ensures r.history[|s.history|].Abandoned? <==> s.httpRequest.None? && !env.uriParses(s.url)
    ensures r.history[|s.history|].Abandoned? ==> r.httpRequest.None? && r.lastRequest == s.lastRequest
    ensures r.history[|s.history|].Sent? ==>
      var d := r.history[|s.history|].dispatch;
      && r.lastRequest == Some(d)
      && r.httpRequest == Some(d.request)
      && d.message == Body(env.render, env.lineSeparator, batch)
      && d.request.entity == Some(d.message)
      && (s.httpRequest.Some? ==>
            d.request.uri == s.httpRequest.value.uri && Authorization(d.request) == Authorization(s.httpRequest.value))
      && (s.httpRequest.None? ==>
            d.request.uri == s.url && Authorization(d.request) == ExpectedAuthorization(s.token))
  {
    match s.httpRequest
    case Some(request) => Dispatched(env, s, batch, request)
    case None =>
      match CreateRequest(env.uriParses, s.url, s.token)
      case Err(e) => s.(history := s.history + [Abandoned(batch, e)])
      case Ok(request) => Dispatched(env, s, batch, request)
  }

  /** Set the body on `request` and hand it to the client; the returned
      future becomes `lastRequest`. */
  function Dispatched<L>(env: Env<L>, s: Sender<L>, batch: seq<L>, request: HttpPost): (r: Sender<L>)
    ensures r.url == s.url && r.token == s.token && r.metrics == s.metrics
    ensures r.lastRequest.Some? && r.lastRequest.value.batch == batch
    ensures r.history == s.history + [Sent(r.lastRequest.value)]
    ensures r.httpRequest == Some(r.lastRequest.value.request)
    ensures r.lastRequest.value.request.uri == request.uri
    ensures Authorization(r.lastRequest.value.request) == Authorization(request)
    ensures r.lastRequest.value.message == Body(env.render, env.lineSeparator, batch)
    ensures r.lastRequest.value.request.entity == Some(r.lastRequest.value.message)
  {
    var message := Body(env.render, env.lineSeparator, batch);
    var sent := WithEntity(request, message);
    var d := Dispatch(batch, message, sent);
    s.(httpRequest := Some(sent), lastRequest := Some(d), history := s.history + [Sent(d)])
  }

  /** `writeAndSendMetrics()`: an empty buffer is a no-op; otherwise the whole
      buffer becomes one batch, a fresh empty buffer takes its place, and the
      batch is handed over. */
  function WriteAndSendMetrics<L>(env: Env<L>, s: Sender<L>): (r: Sender<L>)
    ensures |s.metrics| == 0 ==> r == s
    ensures |s.metrics| > 0 ==>
      && r.metrics == []
      && |r.history| == |s.history| + 1
      && r.history[..|s.history|] == s.history
      && BatchOf(r.history[|s.history|]) == s.metrics
    ensures r.url == s.url && r.token == s.token
    ensures Drained(r.history) + r.metrics == Drained(s.history) + s.metrics
  {
    if |s.metrics| == 0 then s
    else
      var copyMetrics := s.metrics;
      var r := SendBatch(env, s.(metrics := []), copyMetrics);
      assert r.history == r.history[..|s.history|] + [r.history[|s.history|]];
      r
  }

  /** A second flush with no add in between sends nothing. */
  lemma FlushTwice<L>(env: Env<L>, s: Sender<L>)
    ensures WriteAndSendMetrics(env, WriteAndSendMetrics(env, s)) == WriteAndSendMetrics(env, s)
  {
  }

  /** One synchronized call on the sender. */
  datatype Call<L> = Add(line: L) | Flush

  function Step<L>(env: Env<L>, s: Sender<L>, c: Call<L>): Sender<L> {
    match c
    case Add(line) => AddMetric(s, line)
    case Flush => WriteAndSendMetrics(env, s)
  }

  /** The calls applied one after another, in the order the lock admitted them. */
  function Run<L>(env: Env<L>, s: Sender<L>, calls: seq<Call<L>>): Sender<L>
    decreases |calls|
  {
    if |calls| == 0 then s else Run(env, Step(env, s, calls[0]), calls[1..])
  }

  /** The lines added by a run, in call order. */
  function Added<L>(calls: seq<Call<L>>): seq<L>
    decreases |calls|
  {
    if |calls| == 0 then []
    else (if calls[0].Add? then [calls[0].line] else []) + Added(calls[1..])
  }

  /** No loss, no duplication, order kept: what was handed over plus what is
      still buffered is what was there before plus every added line. */
  lemma {:induction false} RunConserves<L>(env: Env<L>, s: Sender<L>, calls: seq<Call<L>>)
    ensures Drained(Run(env, s, calls).history) + Run(env, s, calls).metrics
         == Drained(s.history) + s.metrics + Added(calls)
    decreases |calls|
  {
    if |calls| > 0 {
      var s' := Step(env, s, calls[0]);
      RunConserves(env, s', calls[1..]);
      var first := if calls[0].Add? then [calls[0].line] else [];
      assert Drained(s'.history) + s'.metrics == Drained(s.history) + s.metrics + first;
      assert Added(calls) == first + Added(calls[1..]);
    }
  }

  /** Batches already handed over never change: a later add cannot leak into
      a batch that was drained before it. */
  lemma {:induction false} RunExtendsHistory<L>(env: Env<L>, s: Sender<L>, calls: seq<Call<L>>)
    ensures |s.history| <= |Run(env, s, calls).history|
    ensures Run(env, s, calls).history[..|s.history|] == s.history
    ensures Run(env, s, calls).url == s.url && Run(env, s, calls).token == s.token
    decreases |calls|
  {
    if |calls| > 0 {
      var s' := Step(env, s, calls[0]);
      RunExtendsHistory(env, s', calls[1..]);
      assert s'.history[..|s.history|] == s.history;
    }
  }

  lemma LastSentAppend<L>(history: seq<Handover<L>>, d: Dispatch<L>)
    ensures LastSent(history + [Sent(d)]) == Some(d)
  {
    assert (history + [Sent(d)])[|history|] == Sent(d);
  }

  /** Every call keeps a ready sender ready. */
  lemma StepKeepsReady<L>(env: Env<L>, s: Sender<L>, c: Call<L>)
    requires Ready(env, s)
    ensures Ready(env, Step(env, s, c))
  {
    var r := Step(env, s, c);
    if c.Flush? && |s.metrics| > 0 {
      var last := r.history[|s.history|];
      assert r.history == s.history + [last];
      assert last.Sent?;
      LastSentAppend(s.history, last.dispatch);
      forall i | 0 <= i < |r.history|
        ensures SentCorrectly(env, r, r.history[i])
      {
        if i < |s.history| {
          assert r.history[i] == s.history[i];
        }
      }
    }
  }

  lemma {:induction false} RunKeepsReady<L>(env: Env<L>, s: Sender<L>, calls: seq<Call<L>>)
    requires Ready(env, s)
    ensures Ready(env, Run(env, s, calls))
    decreases |calls|
  {
    if |calls| > 0 {
      StepKeepsReady(env, s, calls[0]);
      RunKeepsReady(env, Step(env, s, calls[0]), calls[1..]);
    }
  }

  /** After a successful setup, any run of adds and flushes hands over every
      added line exactly once and in order, every batch is sent to the
      configured url with the right header and body, nothing is abandoned, and
      `lastRequest` is the latest dispatch. */
  lemma SetupThenRun<L>(env: Env<L>, urlText: string, token: Option<string>, calls: seq<Call<L>>)
    requires Setup(env, urlText, token).Ok?
    ensures var f := Run(env, Setup(env, urlText, token).value, calls);
      && Drained(f.history) + f.metrics == Added(calls)
      && Ready(env, f)
      && f.url == urlText && f.token == token
  {
    var s := Setup(env, urlText, token).value;
    RunConserves(env, s, calls);
    RunKeepsReady(env, s, calls);
    RunExtendsHistory(env, s, calls);
  }

  /** A missing request whose url no longer converts to a URI: the error is
      logged, nothing is dispatched, and the drained batch is not put back. */
  lemma RebuildFailureDropsBatch<L>(env: Env<L>, s: Sender<L>)
    requires |s.metrics| > 0 && s.httpRequest.None? && !env.uriParses(s.url)
    ensures var r := WriteAndSendMetrics(env, s);
      && r.history == s.history + [Abandoned(s.metrics, UriSyntaxError(s.url))]
      && r.metrics == []
      && r.httpRequest.None?
      && r.lastRequest == s.lastRequest
  {
  }

  /** A missing request that can be rebuilt is rebuilt from the stored url and
      token, kept for later flushes, and used for this one. */
  lemma RebuildRestoresRequest<L>(env: Env<L>, s: Sender<L>)
    requires |s.metrics| > 0 && s.httpRequest.None? && env.uriParses(s.url)
    ensures var r := WriteAndSendMetrics(env, s);
      && RequestMatches(r)
      && r.lastRequest == Some(Dispatch(s.metrics, Body(env.render, env.lineSeparator, s.metrics), r.httpRequest.value))
      && r.history == s.history + [Sent(r.lastRequest.value)]
  {
  }

  /** The callback registered with dispatch `d`: it reports the size of the
      batch it captured and the body that was built for it. */
  function Callback<L>(isSuccessCode: int -> bool, s: Sender<L>, d: Dispatch<L>, c: Completion): (e: Event)
    ensures e.Written? ==> e.count == |d.batch| && e.message == d.message
    ensures e.Rejected? ==> e.url == s.url && e.message == d.message
    ensures e.Written? <==> c.Completed? && isSuccessCode(c.response.status)
    ensures e.Rejected? <==> c.Completed? && !isSuccessCode(c.response.status)
  {
    Classify(isSuccessCode, s.url, |d.batch|, d.message, c)
  }

  /** Every dispatch of a ready sender reports its own batch: a success code
      logs that batch's size and body, any other code logs the configured
      url, the status code and the response body, then the batch's body. */
  lemma CompletionReportsDispatch<L>(env: Env<L>, isSuccessCode: int -> bool, s: Sender<L>, i: nat, response: Response)
    requires Ready(env, s) && i < |s.history|
    ensures var d := s.history[i].dispatch;
      var body := Body(env.render, env.lineSeparator, d.batch);
      Callback(isSuccessCode, s, d, Completed(response))
        == if isSuccessCode(response.status) then Written(|d.batch|, body, Debug)
           else Rejected(s.url, response.status, GetBody(Some(response)), body, Info)
  {
  }

  /** The same for the tracked `lastRequest`, the dispatch `destroy()` waits on. */
  lemma LastRequestReportsItsBatch<L>(env: Env<L>, isSuccessCode: int -> bool, s: Sender<L>, response: Response)
    requires Ready(env, s) && s.lastRequest.Some?
    ensures var d := s.lastRequest.value;
      var body := Body(env.render, env.lineSeparator, d.batch);
      Callback(isSuccessCode, s, d, Completed(response))
        == if isSuccessCode(response.status) then Written(|d.batch|, body, Debug)
           else Rejected(s.url, response.status, GetBody(Some(response)), body, Info)
  {
  }
}
