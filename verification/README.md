# MintMetricSender, modelled in Dafny

A model of `MintMetricSender`, the part of the Dynatrace JMeter plugin that
buffers metric lines and posts them, batched, to a MINT ingest endpoint.
The sender keeps a pending buffer of metric lines, one reusable outbound
`HttpPost`, and a handle to the last dispatch. `addMetric` appends to the
buffer. `writeAndSendMetrics()` swaps the buffer for a fresh one and turns the
drained batch into one request body. `createRequest` decides the
`Authorization` header from the token. The completion callback turns each
outcome into one log event.

The sender is an immutable value (`Sender.Sender`) and every call is a pure
transition. `addMetric` and `writeAndSendMetrics()` are both `synchronized`,
so any interleaving of producer and flush calls is a sequence of atomic
steps. `Sender.Run` replays such a sequence. The model adds one field the
program does not keep: `history`, which records every batch handed over,
either as sent or as abandoned. That field is what lets no-loss and
no-duplication be stated.

Code the sender calls but does not define is passed in as parameters
(`Sender.Env`, and single parameters in the lower modules):
- `render` stands for `MintMetricsLine.printMessage`.
- `lineSeparator` stands for the `line.separator` system property.
- `urlParses` stands for `new URL` succeeding.
- `uriParses` stands for `URL.toURI` succeeding.
- `isSuccessCode` stands for `MetricUtils.isSuccessCode`.

Modules: `Base` (Option/Result), `Text` (whitespace and blank checks),
`Request` (the POST and its header rule), `Message` (the request body),
`Outcome` (the completion callback), `Sender` (the state machine) and
`Shutdown` (`destroy()`).

Points where the code's behaviour is easy to misread. The model follows
the code in each:
- The body has a separator after every line, the last one included. It is
  not the lines joined by separators. A batch of two lines `m1-line`,
  `m2-line` with separator `\n` gives `m1-line\nm2-line\n`.
- A bad url at setup is either a `MalformedURLException` (from `new URL`) or
  a `URISyntaxException` (from `toURI`). The model keeps both as separate
  errors rather than one configuration error.
- Success is whatever `MetricUtils.isSuccessCode` says. It is a parameter,
  not fixed to the 2xx family.
- After a successful setup, the request is never null again. The rebuild
  branch of `writeAndSendMetrics(List)` cannot be reached from such a state
  (`Sender.SetupThenRun` proves that no batch is ever abandoned). The branch
  is still modelled for states where the request is missing.

`Message.SplitLines` and `Message.Delimits` are not in the program. They
describe how a receiver reads the body back into lines, and they exist so that
the body format can be stated as a round trip.

## Model

| member | source | states |
|---|---|---|
| Text.AllWhitespace | src/main/java/com/dynatrace/jmeter/plugins/MintMetricSender.java:66 | the blank test behind `isNotBlank`: true exactly when every character is Java whitespace (so the empty string is blank) |
| Request.ExpectedAuthorization | src/main/java/com/dynatrace/jmeter/plugins/MintMetricSender.java:35-36 | the header value is present exactly when the token is not blank (null, empty or whitespace), and is then the `Api-token ` scheme followed by the token itself |
| Request.CreateRequest | src/main/java/com/dynatrace/jmeter/plugins/MintMetricSender.java:61-72 | fails with a URI syntax error exactly when the url does not convert to a URI; otherwise targets the url, has no body yet, and its `Authorization` header is exactly the expected one: present if and only if the token is not blank (null, empty or whitespace), with value `Api-token <token>` |
| Request.CredentialRoundTrip | src/main/java/com/dynatrace/jmeter/plugins/MintMetricSender.java:35-36 | stripping the `Api-token ` scheme from the built request's header gives back the token when it is not blank, and there is no credential when it is blank |
| Request.WithEntity | src/main/java/com/dynatrace/jmeter/plugins/MintMetricSender.java:105 | setting the body leaves the target and the `Authorization` header unchanged |
| Message.Body | src/main/java/com/dynatrace/jmeter/plugins/MintMetricSender.java:97-102 | a non-empty batch's body ends with the separator, and the body holds at least one separator's length per record |
| Message.BuildMessage | src/main/java/com/dynatrace/jmeter/plugins/MintMetricSender.java:97-102 | the append loop (line, then separator, per record in order) builds exactly the body the reference definition describes |
| Message.BodyAppend | src/main/java/com/dynatrace/jmeter/plugins/MintMetricSender.java:99-102 | the body of two batches run together is the two bodies run together, so each record contributes its own line and separator independently |
| Message.BodyLength | src/main/java/com/dynatrace/jmeter/plugins/MintMetricSender.java:99-102 | the body's length is the rendered lines' total length plus one separator per record, the last included |
| Message.SplitBody | src/main/java/com/dynatrace/jmeter/plugins/MintMetricSender.java:97-105 | round trip: when no rendered line hides a separator, splitting the body at separators gives back exactly the rendered lines, one per record, in batch order |
| Outcome.GetBody | src/main/java/com/dynatrace/jmeter/plugins/MintMetricSender.java:134-145 | a total function: the entity's text when the response and its entity exist and can be read, and `""` when the response is null, the entity is null or reading fails |
| Outcome.Classify | src/main/java/com/dynatrace/jmeter/plugins/MintMetricSender.java:106-127 | each completion gives exactly one event. A success code gives an info summary with the count it is given, then the sent body at debug level. Any other code gives an error summary with url, code and `getBody`, then the sent body at info level. A transport failure gives one error line and a cancellation one warning. Each summary level arises only from its own case, and an info line appears exactly when the call completed |
| Sender.Setup | src/main/java/com/dynatrace/jmeter/plugins/MintMetricSender.java:47-59 | fails exactly when the url does not parse (a malformed-url error) or parses but does not convert to a URI (a URI syntax error); otherwise gives an empty sender for that url and token whose request has the right header, with nothing dispatched |
| Sender.AddMetric | src/main/java/com/dynatrace/jmeter/plugins/MintMetricSender.java:74-77 | appends the line to the end of the pending buffer and changes nothing else |
| Sender.WriteAndSendMetrics | src/main/java/com/dynatrace/jmeter/plugins/MintMetricSender.java:79-89 | an empty buffer leaves the state unchanged. Otherwise the whole buffer becomes one new handover, the buffer is left empty, earlier handovers stay as they were, and handed-over records plus buffered ones are conserved |
| Sender.SendBatch | src/main/java/com/dynatrace/jmeter/plugins/MintMetricSender.java:91-131 | the batch is abandoned exactly when the request is missing and cannot be rebuilt, and then `lastRequest` is unchanged. Otherwise one dispatch carries the batch's body, keeps the existing request's target and header (or, when rebuilt, targets the stored url with the header the token calls for), and becomes `lastRequest` |
| Sender.Dispatched | src/main/java/com/dynatrace/jmeter/plugins/MintMetricSender.java:105-106 | the request is sent with the batch's body, which is also the message kept for the callback, and with its target and header unchanged; the dispatch is appended to the history and becomes the new `lastRequest` |
| Sender.FlushTwice | src/main/java/com/dynatrace/jmeter/plugins/MintMetricSender.java:79-86 | a second flush with no add in between changes nothing |
| Sender.RunConserves | src/main/java/com/dynatrace/jmeter/plugins/MintMetricSender.java:74-89 | over any sequence of adds and flushes, all handed-over batches in order followed by the buffer equal the previous ones plus every added line, in order, each exactly once |
| Sender.RunExtendsHistory | src/main/java/com/dynatrace/jmeter/plugins/MintMetricSender.java:79-89 | batches already handed over never change, so a line added after a flush never reaches that flush's batch; url and token never change |
| Sender.StepKeepsReady | src/main/java/com/dynatrace/jmeter/plugins/MintMetricSender.java:74-106 | every add or flush keeps a ready sender ready: the request exists with the right target and header, every batch so far went to the url with the right header and its own body, and `lastRequest` is the latest dispatch |
| Sender.RunKeepsReady | src/main/java/com/dynatrace/jmeter/plugins/MintMetricSender.java:74-106 | the same for any sequence of adds and flushes |
| Sender.SetupThenRun | src/main/java/com/dynatrace/jmeter/plugins/MintMetricSender.java:47-106 | after a successful setup, any run hands over every added line exactly once and in order, sends every batch correctly, abandons none, and keeps `lastRequest` the latest dispatch |
| Sender.RebuildFailureDropsBatch | src/main/java/com/dynatrace/jmeter/plugins/MintMetricSender.java:85-130 | if the missing request cannot be rebuilt, the error is recorded, nothing is dispatched, `lastRequest` is unchanged and the drained batch is not restored to the buffer |
| Sender.RebuildRestoresRequest | src/main/java/com/dynatrace/jmeter/plugins/MintMetricSender.java:93-95 | a missing request that can be rebuilt is rebuilt from the stored url and token (right header), is kept, and carries this batch |
| Sender.Callback | src/main/java/com/dynatrace/jmeter/plugins/MintMetricSender.java:106-116 | the callback registered for dispatch `d` classifies its completion with the configured url, the size of `d`'s batch and `d`'s message, the body built for that batch |
| Sender.CompletionReportsDispatch | src/main/java/com/dynatrace/jmeter/plugins/MintMetricSender.java:106-116 | the callback of any dispatch of a ready sender reports that dispatch's own batch: a success code logs its size and its body, any other code logs the configured url, the code, the response body and then its body |
| Sender.LastRequestReportsItsBatch | src/main/java/com/dynatrace/jmeter/plugins/MintMetricSender.java:106-116 | the same for the tracked `lastRequest` |
| Shutdown.DestroyAsWritten | src/main/java/com/dynatrace/jmeter/plugins/MintMetricSender.java:147-161 | `destroy()` as written: it throws exactly when there is no `lastRequest` (a `NullPointerException`) or the last dispatch was cancelled (a `CancellationException`). Otherwise it logs a failed wait exactly when the wait did not finish, aborts the request if one exists, and closes the client |
| Shutdown.Destroy | src/main/java/com/dynatrace/jmeter/plugins/MintMetricSender.java:147-161 | corrected teardown: it always closes the client and aborts the request if one exists. It logs a failed wait, cancellation included, only when there was a dispatch and the wait did not finish |
| Shutdown.DestroyAgrees | src/main/java/com/dynatrace/jmeter/plugins/MintMetricSender.java:150-160 | the two teardowns agree on every sender that has dispatched at least once, unless its last dispatch was cancelled |
| Shutdown.NeverFlushedDestroyThrows | src/main/java/com/dynatrace/jmeter/plugins/MintMetricSender.java:151-152 | for a sender just set up, `destroy()` as written throws a `NullPointerException` before releasing anything, while the corrected teardown closes the client and aborts the request |
| Shutdown.CancelledWaitThrows | src/main/java/com/dynatrace/jmeter/plugins/MintMetricSender.java:151-152 | when the last dispatch was cancelled, `destroy()` as written throws before releasing anything, while the corrected teardown logs the failed wait and closes the client |
| Shutdown.AddsOnlyNeverDispatch | src/main/java/com/dynatrace/jmeter/plugins/MintMetricSender.java:74-77 | adding lines never sets `lastRequest`, so a sender that only ever received lines still reaches the throwing path |

## Left out

- Construction of the async client, IO reactor, connection manager, user agent and the timeout constants (lines 51-58 and 62-65): library plumbing with no logic beyond constant settings.
- Asynchronous execution, the `Future` and callback threading: a dispatch is an entry appended to `history`, and the completion is an input to `Outcome.Classify`.
- The shared mutable request object: the model records each dispatch as an immutable snapshot of the request. In the program a later flush overwrites the entity of the same `HttpPost` while an earlier call may still be in flight. That is a race between threads, which this sequential model cannot express.
- Log lines outside the completion callback and the wait in `destroy()` are not modelled at all. These are the debug lines at lines 70, 75 and 104, the info line at line 148 and the error line at line 129; an `Abandoned` handover keeps the exception but no log level. The event kind, payload and level of each line are kept only for the callback's lines (lines 110-125) and for the wait-failure line of `destroy()` (line 153). The wording of any log line is not modelled.
- Sender.Setup: models `setup` on a fresh sender only, starting from an empty buffer. It does not model calling `setup` twice. Lines passed to `addMetric` before `setup` are not modelled either. In the program they go into the list created at line 42, which `setup` never clears, so the first flush after setup sends them. Calling `writeAndSendMetrics()` with a non-empty buffer before `setup` is not modelled; it reaches a null url and client.
- Request.CreateRequest: header names are compared exactly, whereas HTTP header lookup ignores case. This makes no difference here, since the only header set is `Authorization`.
- Text.AllWhitespace: follows `Character.isWhitespace` under the Unicode tables of Java 9 and later. Java 8 and older also count U+180E as whitespace, so on Java 8 a token made only of U+180E is blank in the program but not in the model.
- Sender.SendBatch: treats `printMessage` (`render`) and `httpClient.execute` as never throwing. In the program only `URISyntaxException` is caught (line 128). Any other exception after the swap at line 86 loses the drained batch and reaches the flush caller. Examples are a null line accepted by `addMetric`, or a client that is not running.
- Sender.SetupThenRun: its "abandons none, sends every batch" rests on that same assumption that rendering and dispatch never throw.
- `MintMetricsLine.printMessage`, `MetricUtils.isSuccessCode`, URL parsing and the `line.separator` property are not part of this model. They are parameters.

## Findings

| source | as written | input that shows it | evidently intended | confidence | as-written member | corrected member |
|---|---|---|---|---|---|---|
| src/main/java/com/dynatrace/jmeter/plugins/MintMetricSender.java:151-152 | `lastRequest.get` is called unconditionally. It is null until the first dispatch, and `NullPointerException` is not in the catch list, so `destroy()` throws before it aborts the request or closes the client | `setup` succeeds, then `destroy()` with no flush, or after only `addMetric` calls | shutdown skips the wait when nothing was dispatched and always releases the connection pool | high (not executed) | Shutdown.DestroyAsWritten, Shutdown.NeverFlushedDestroyThrows | Shutdown.Destroy |
| src/main/java/com/dynatrace/jmeter/plugins/MintMetricSender.java:151-152 | `Future.get` on a cancelled future throws the unchecked `CancellationException`, which is not in the catch list either, so `destroy()` throws before it aborts the request or closes the client. Skipping the wait when nothing was dispatched does not by itself guarantee the pool is released | the last dispatch was cancelled before `destroy()` | every failure of the wait is logged and the connection pool is always released | medium (not executed) | Shutdown.DestroyAsWritten, Shutdown.CancelledWaitThrows | Shutdown.Destroy |
