/** The request body of one flush: every record's rendered line followed by
    the platform line separator, in batch order. The separator follows the
    last line as well. */
module Message {
  import opened Base
  import opened Text

  /** Reference definition of the body: `render` stands for
      `MintMetricsLine.printMessage`, `sep` for the `line.separator` property. */
  function Body<L>(render: L -> string, sep: string, batch: seq<L>): (b: string)
    ensures |b| >= |batch| * |sep|
    ensures |batch| > 0 ==> EndsWith(b, sep)
  {
    if |batch| == 0 then ""
    else render(batch[0]) + sep + Body(render, sep, batch[1..])
  }

  /** The body of two batches run together is the two bodies run together. */
  lemma {:induction false} BodyAppend<L>(render: L -> string, sep: string, a: seq<L>, b: seq<L>)
    ensures Body(render, sep, a + b) == Body(render, sep, a) + Body(render, sep, b)
  {
    if |a| == 0 {
      assert a + b == b;
    } else {
      assert (a + b)[1..] == a[1..] + b;
      BodyAppend(render, sep, a[1..], b);
    }
  }

  lemma BodySnoc<L>(render: L -> string, sep: string, batch: seq<L>, i: nat)
    requires i < |batch|
    ensures Body(render, sep, batch[..i + 1]) == Body(render, sep, batch[..i]) + render(batch[i]) + sep
  {
    assert batch[..i + 1] == batch[..i] + [batch[i]];
    BodyAppend(render, sep, batch[..i], [batch[i]]);
    assert Body(render, sep, [batch[i]]) == render(batch[i]) + sep + Body(render, sep, []);
  }

  /** The `StringBuilder` loop: append the rendered line, then the separator,
      for each record in order. */
  method BuildMessage<L>(render: L -> string, sep: string, batch: seq<L>) returns (message: string)
    ensures message == Body(render, sep, batch)
  {
    message := "";
    var i := 0;
    while i < |batch|
      invariant 0 <= i <= |batch|
      invariant message == Body(render, sep, batch[..i])
    {
      BodySnoc(render, sep, batch, i);
      message := message + render(batch[i]);
      message := message + sep;
      i := i + 1;
    }
    assert batch[..i] == batch;
  }

  function RenderedLength<L>(render: L -> string, batch: seq<L>): nat {
    if |batch| == 0 then 0 else |render(batch[0])| + RenderedLength(render, batch[1..])
  }

  /** The body holds every rendered line plus one separator per record. */
  lemma {:induction false} BodyLength<L>(render: L -> string, sep: string, batch: seq<L>)
    ensures |Body(render, sep, batch)| == RenderedLength(render, batch) + |batch| * |sep|
  {
    if |batch| > 0 {
      BodyLength(render, sep, batch[1..]);
      assert |batch| * |sep| == (|batch| - 1) * |sep| + |sep|;
    }
  }

  /** The rendered lines of a batch, one per record. */
  function Rendered<L>(render: L -> string, batch: seq<L>): (lines: seq<string>)
    ensures |lines| == |batch|
    ensures forall i :: 0 <= i < |batch| ==> lines[i] == render(batch[i])
  {
    seq(|batch|, i requires 0 <= i < |batch| => render(batch[i]))
  }

  /** `sep` cannot be found in `line + sep` before the separator itself, so a
      reader can split the body back into lines. */
  predicate Delimits(sep: string, line: string) {
    forall k :: 0 <= k < |line| ==> !StartsWith((line + sep)[k..], sep)
  }

  /** First position at or after `from` where `sep` starts in `s`. */
  function FindSep(s: string, sep: string, from: nat): (r: Option<nat>)
    requires from <= |s|
    ensures r.Some? ==> from <= r.value <= |s| && StartsWith(s[r.value..], sep)
    ensures r.Some? ==> forall k :: from <= k < r.value ==> !StartsWith(s[k..], sep)
    ensures r.None? ==> forall k :: from <= k <= |s| ==> !StartsWith(s[k..], sep)
    decreases |s| - from
  {
    if StartsWith(s[from..], sep) then Some(from)
    else if from == |s| then None
    else FindSep(s, sep, from + 1)
  }

  /** How a reader splits a body into lines: each line ends at the next
      separator; trailing text without a separator is a last line. */
  function SplitLines(s: string, sep: string): seq<string>
    requires |sep| > 0
    decreases |s|
  {
    match FindSep(s, sep, 0)
    case None => if |s| == 0 then [] else [s]
    case Some(j) => [s[..j]] + SplitLines(s[j + |sep|..], sep)
  }

  lemma LineEndsAtSeparator(line: string, sep: string, rest: string)
    requires Delimits(sep, line)
    ensures FindSep(line + sep + rest, sep, 0) == Some(|line|)
  {
    var s := line + sep + rest;
    assert s[|line|..] == sep + rest;
    forall k | 0 <= k < |line|
      ensures !StartsWith(s[k..], sep)
    {
      assert (line + sep)[k..] == s[k..][..|line + sep| - k];
      if StartsWith(s[k..], sep) {
        assert StartsWith((line + sep)[k..], sep);
      }
    }
  }

  /** A delimited line followed by the separator is split off as one line. */
  lemma SplitFirstLine(line: string, sep: string, rest: string)
    requires |sep| > 0
    requires Delimits(sep, line)
    ensures SplitLines(line + sep + rest, sep) == [line] + SplitLines(rest, sep)
  {
    var s := line + sep + rest;
    LineEndsAtSeparator(line, sep, rest);
    assert s[..|line|] == line;
    assert s[|line| + |sep|..] == rest;
  }

  /** Round trip: splitting the body at the separator gives back the rendered
      lines, one per record, in batch order. */
  lemma {:induction false} SplitBody<L>(render: L -> string, sep: string, batch: seq<L>)
    requires |sep| > 0
    requires forall i :: 0 <= i < |batch| ==> Delimits(sep, render(batch[i]))
    ensures SplitLines(Body(render, sep, batch), sep) == Rendered(render, batch)
  {
    if |batch| > 0 {
      var line := render(batch[0]);
      var tail := batch[1..];
      var rest := Body(render, sep, tail);
      assert forall i :: 0 <= i < |tail| ==> Delimits(sep, render(tail[i])) by {
        forall i | 0 <= i < |tail|
          ensures Delimits(sep, render(tail[i]))
        {
          assert tail[i] == batch[i + 1];
        }
      }
      calc {
        SplitLines(Body(render, sep, batch), sep);
        SplitLines(line + sep + rest, sep);
        { SplitFirstLine(line, sep, rest); }
        [line] + SplitLines(rest, sep);
        { SplitBody(render, sep, tail); }
        [line] + Rendered(render, tail);
      }
      assert Rendered(render, batch) == [line] + Rendered(render, tail);
    }
  }
}
