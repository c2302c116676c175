/** `destroy()`: wait up to five seconds on the last dispatch, abort the
    reusable request, close the client. The wait itself is a parameter: how
    `Future.get` returned. */
module Shutdown {
  import opened Base
  import opened Sender

  /** How `lastRequest.get(5, SECONDS)` ended. `Cancelled` is a future that
      was cancelled: `get` then throws the unchecked `CancellationException`. */
  datatype Wait = Done | TimedOut | ExecutionFailed | Interrupted | Cancelled

  /** What teardown did: whether it logged a failed wait, aborted the request
      and closed the client. */
  datatype Teardown = Teardown(waitErrorLogged: bool, requestAborted: bool, clientClosed: bool)

  /** An exception that escapes `destroy()`. */
  datatype Escaped = NullPointer | Cancellation

  /** `destroy()` as written: only `ExecutionException`, `TimeoutException` and
      `InterruptedException` are caught around the wait. A sender that never
      dispatched (no `lastRequest`) throws a `NullPointerException`, and a
      cancelled last dispatch a `CancellationException`, before anything is
      aborted or closed. */
  function DestroyAsWritten<L>(s: Sender<L>, wait: Wait): (r: Result<Teardown, Escaped>)
    ensures r.Err? <==> s.lastRequest.None? || wait == Cancelled
    ensures r == Err(NullPointer) <==> s.lastRequest.None?
    ensures r.Ok? ==> r.value.clientClosed
    ensures r.Ok? ==> (r.value.requestAborted <==> s.httpRequest.Some?)
    ensures r.Ok? ==> (r.value.waitErrorLogged <==> wait != Done)
  {
    match s.lastRequest
    case None => Err(NullPointer)
    case Some(_) =>
      if wait == Cancelled then Err(Cancellation)
      else Ok(Teardown(wait != Done, s.httpRequest.Some?, true))
  }

  /** `destroy()` with the wait skipped when nothing was dispatched and every
      failure of the wait, cancellation included, logged: the client is
      always released. */
  function Destroy<L>(s: Sender<L>, wait: Wait): (r: Teardown)
    ensures r.clientClosed
    ensures r.requestAborted <==> s.httpRequest.Some?
    ensures r.waitErrorLogged <==> s.lastRequest.Some? && wait != Done
  {
    Teardown(s.lastRequest.Some? && wait != Done, s.httpRequest.Some?, true)
  }

  /** The two agree on every sender that has dispatched at least once, as long
      as its last dispatch was not cancelled. */
  lemma DestroyAgrees<L>(s: Sender<L>, wait: Wait)
    requires s.lastRequest.Some? && wait != Cancelled
    ensures DestroyAsWritten(s, wait) == Ok(Destroy(s, wait))
  {
  }

  /** Counterexample: a sender whose last dispatch was cancelled. As written
      `destroy()` throws and releases nothing; the corrected teardown logs the
      failed wait and closes the client. */
  lemma CancelledWaitThrows<L>(s: Sender<L>)
    requires s.lastRequest.Some?
    ensures DestroyAsWritten(s, Cancelled) == Err(Cancellation)
    ensures Destroy(s, Cancelled).clientClosed && Destroy(s, Cancelled).waitErrorLogged
  {
  }

  /** Counterexample: set up, never flush, destroy. As written the call throws
      and the connection pool is never closed; the corrected teardown closes it. */
  lemma NeverFlushedDestroyThrows<L>(env: Env<L>, urlText: string, token: Option<string>, wait: Wait)
    requires Setup(env, urlText, token).Ok?
    ensures DestroyAsWritten(Setup(env, urlText, token).value, wait) == Err(NullPointer)
    ensures Destroy(Setup(env, urlText, token).value, wait).clientClosed
    ensures Destroy(Setup(env, urlText, token).value, wait).requestAborted
  {
  }

  /** Adding lines dispatches nothing: a sender that was set up and only ever
      received lines still has no `lastRequest` when it is destroyed. */
  lemma {:induction false} AddsOnlyNeverDispatch<L>(env: Env<L>, s: Sender<L>, calls: seq<Call<L>>)
    requires forall i :: 0 <= i < |calls| ==> calls[i].Add?
    ensures Run(env, s, calls).lastRequest == s.lastRequest
    decreases |calls|
  {
    if |calls| > 0 {
      AddsOnlyNeverDispatch(env, Step(env, s, calls[0]), calls[1..]);
    }
  }
}
