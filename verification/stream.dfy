/** Assembly of one streamed reply: the chunks the completion service delivers,
    the filter that keeps their non-empty text, the accumulator that joins that
    text, and the apology that replaces it when the request fails. */
module Stream {
  import opened Wrappers
  import Config

  /** The `delta.content` of one streamed chunk: absent or a string. */
  type Chunk = Option<string>

  /** What the streamed request came to. `Completed` carries every chunk up to
      the end of the stream; `Failed` carries the chunks processed before an
      exception (none when the request itself could not be made). */
  datatype Completion = Completed(chunks: seq<Chunk>) | Failed(received: seq<Chunk>)
  {
    /** The chunks the accumulation loop gets to see. */
    function Seen(): seq<Chunk> {
      match this
      case Completed(cs) => cs
      case Failed(cs) => cs
    }
  }

  /** The text fragments the generator yields: the truthy delta contents, in
      arrival order. */
  function Deltas(cs: seq<Chunk>): (r: seq<string>)
    ensures |r| <= |cs|
    ensures forall k :: 0 <= k < |r| ==> r[k] != ""
  {
    if |cs| == 0 then []
    else if Truthy(cs[0]) then [cs[0].value] + Deltas(cs[1..])
    else Deltas(cs[1..])
  }

  /** Number of chunks whose content is truthy. */
  function CountTruthy(cs: seq<Chunk>): (n: nat)
    ensures n <= |cs|
  {
    if |cs| == 0 then 0
    else CountTruthy(cs[..|cs| - 1]) + (if Truthy(cs[|cs| - 1]) then 1 else 0)
  }

  /** The strings of `xs` joined end to end. */
  function Concat(xs: seq<string>): (r: string)
  {
    if |xs| == 0 then "" else xs[0] + Concat(xs[1..])
  }

  /** The generator is a homomorphism: filtering two consecutive stretches of
      the stream is filtering each and joining the results. */
  lemma {:induction false} DeltasAppend(a: seq<Chunk>, b: seq<Chunk>)
    ensures Deltas(a + b) == Deltas(a) + Deltas(b)
  {
    if |a| == 0 {
      assert a + b == b;
    } else {
      assert (a + b)[1..] == a[1..] + b;
      DeltasAppend(a[1..], b);
    }
  }

  /** Joining two lists of fragments is joining each and concatenating. */
  lemma {:induction false} ConcatAppend(a: seq<string>, b: seq<string>)
    ensures Concat(a + b) == Concat(a) + Concat(b)
  {
    if |a| == 0 {
      assert a + b == b;
    } else {
      assert (a + b)[1..] == a[1..] + b;
      ConcatAppend(a[1..], b);
    }
  }

  /** The generator yields exactly the truthy delta contents: as many fragments
      as there are truthy chunks, and the truthy chunk at position `i` becomes
      the fragment whose index is the number of truthy chunks before it. Ranks
      of distinct truthy chunks differ and cover every fragment index, so no
      content is dropped, reordered or invented. */
  lemma {:induction false} DeltasExact(cs: seq<Chunk>)
    ensures |Deltas(cs)| == CountTruthy(cs)
    ensures forall i :: 0 <= i < |cs| && Truthy(cs[i]) ==>
              CountTruthy(cs[..i]) < |Deltas(cs)| && Deltas(cs)[CountTruthy(cs[..i])] == cs[i].value
  {
    if |cs| == 0 {
    } else {
      var init := cs[..|cs| - 1];
      var last := cs[|cs| - 1];
      assert cs == init + [last];
      DeltasAppend(init, [last]);
      DeltasExact(init);
      assert Deltas([last]) == (if Truthy(last) then [last.value] else []) by {
        assert [last][1..] == [];
      }
      forall i | 0 <= i < |cs| && Truthy(cs[i])
        ensures CountTruthy(cs[..i]) < |Deltas(cs)| && Deltas(cs)[CountTruthy(cs[..i])] == cs[i].value
      {
        if i < |cs| - 1 {
          assert cs[..i] == init[..i];
          assert cs[i] == init[i];
        } else {
          assert cs[..i] == init;
        }
      }
    }
  }

  /** The content stored for the assistant turn, `full_response` after the
      request: the joined fragments on success, the fixed apology on any failure. */
  function Reply(c: Completion): (r: string)
  {
    match c
    case Completed(cs) => Concat(Deltas(cs))
    case Failed(_) => Config.Apology
  }

  /** The accumulation loop of the submit handler, chunk by chunk as the
      generator is consumed, followed by the apology substitution on failure. */
  method Accumulate(c: Completion) returns (full: string)
    ensures c.Completed? ==> full == Concat(Deltas(c.chunks))
    ensures c.Failed? ==> full == Config.Apology
    ensures full == Reply(c)
  {
    var cs := c.Seen();
    full := "";
    var i := 0;
    while i < |cs|
      invariant 0 <= i <= |cs|
      invariant full == Concat(Deltas(cs[..i]))
    {
      assert cs[..i + 1] == cs[..i] + [cs[i]];
      DeltasAppend(cs[..i], [cs[i]]);
      DeltasSingle(cs[i]);
      if Truthy(cs[i]) {
        ConcatAppend(Deltas(cs[..i]), [cs[i].value]);
        ConcatSingle(cs[i].value);
        full := full + cs[i].value;
      } else {
        assert Deltas(cs[..i + 1]) == Deltas(cs[..i]);
      }
      i := i + 1;
    }
    assert cs[..i] == cs;
    if c.Failed? {
      full := Config.Apology;
    }
  }

  /** One chunk yields its content exactly when that content is truthy. */
  lemma DeltasSingle(x: Chunk)
    ensures Deltas([x]) == if Truthy(x) then [x.value] else []
  {
  }

  /** Joining a single fragment gives that fragment. */
  lemma ConcatSingle(x: string)
    ensures Concat([x]) == x
  {
  }

  /** Whatever was received before a failure, the stored reply is the apology. */
  lemma FailureDiscardsPartial(a: seq<Chunk>, b: seq<Chunk>)
    ensures Reply(Failed(a)) == Reply(Failed(b)) == Config.Apology
  {
  }

  /** A stream that yields no fragment finishes with the empty reply, not an error. */
  lemma {:induction false} EmptyStreamEmptyReply(cs: seq<Chunk>)
    requires forall i :: 0 <= i < |cs| ==> !Truthy(cs[i])
    ensures Reply(Completed(cs)) == ""
  {
    if |cs| > 0 {
      EmptyStreamEmptyReply(cs[1..]);
    }
  }

  /** The accumulator values the placeholder republishes, one per fragment
      (the trailing cursor glyph is not part of them). */
  function Frames(cs: seq<Chunk>): (fs: seq<string>)
    ensures |fs| == |Deltas(cs)|
  {
    var d := Deltas(cs);
    seq(|d|, k requires 0 <= k < |d| => Concat(d[..k + 1]))
  }

  /** `p` is a prefix of `s`. */
  predicate IsPrefix(p: string, s: string) {
    |p| <= |s| && s[..|p|] == p
  }

  /** Each republished partial text strictly extends the previous one and is a
      prefix of the joined reply; the last one is the joined reply itself. */
  lemma FramesGrow(cs: seq<Chunk>)
    ensures forall k :: 0 <= k < |Frames(cs)| ==> IsPrefix(Frames(cs)[k], Concat(Deltas(cs)))
    ensures forall k :: 0 < k < |Frames(cs)| ==>
              IsPrefix(Frames(cs)[k - 1], Frames(cs)[k]) && |Frames(cs)[k - 1]| < |Frames(cs)[k]|
    ensures |Frames(cs)| > 0 ==> Frames(cs)[|Frames(cs)| - 1] == Concat(Deltas(cs))
  {
    var d := Deltas(cs);
    var fs := Frames(cs);
    forall k | 0 <= k < |fs|
      ensures IsPrefix(fs[k], Concat(d))
    {
      assert d == d[..k + 1] + d[k + 1..];
      ConcatAppend(d[..k + 1], d[k + 1..]);
    }
    forall k | 0 < k < |fs|
      ensures IsPrefix(fs[k - 1], fs[k]) && |fs[k - 1]| < |fs[k]|
    {
      assert d[..k + 1] == d[..k] + [d[k]];
      ConcatAppend(d[..k], [d[k]]);
      assert Concat([d[k]]) == d[k] by {
        assert [d[k]][1..] == [];
      }
    }
    if |fs| > 0 {
      assert d[..|d|] == d;
    }
  }

  /** Everything the reply placeholder shows during one exchange: the chosen
      loading message, then each partial text, then (when the stream ended
      normally) the final text once more. */
  function Display(loading: nat, c: Completion): (shown: seq<string>)
    requires loading < |Config.LoadingMessages|
    ensures |shown| >= 1 && shown[0] in Config.LoadingMessages
  {
    [Config.LoadingMessages[loading]] + Frames(c.Seen())
      + (if c.Completed? then [Concat(Deltas(c.chunks))] else [])
  }

  /** After a normal end of stream the placeholder's last text is exactly the
      content stored for the assistant turn. When some fragment arrived, that
      final repaint repeats the last partial text; when none did, the loading
      message is replaced directly by the empty reply. */
  lemma DisplayEndsWithReply(loading: nat, cs: seq<Chunk>)
    requires loading < |Config.LoadingMessages|
    ensures var shown := Display(loading, Completed(cs));
      && shown[|shown| - 1] == Reply(Completed(cs))
      && (|Deltas(cs)| > 0 ==> shown[|shown| - 1] == shown[|shown| - 2] == Frames(cs)[|Frames(cs)| - 1])
      && (|Deltas(cs)| == 0 ==> shown == [Config.LoadingMessages[loading], ""])
  {
    FramesGrow(cs);
  }

  /** A stream whose every chunk carries text `f1, ..., fk` is stored as exactly
      `f1 + ... + fk`, with no character added or removed. */
  lemma {:induction false} FragmentsJoinExactly(fs: seq<string>)
    requires forall k :: 0 <= k < |fs| ==> fs[k] != ""
    ensures Reply(Completed(seq(|fs|, k requires 0 <= k < |fs| => Some(fs[k])))) == Concat(fs)
  {
    var cs := seq(|fs|, k requires 0 <= k < |fs| => Some(fs[k]));
    if |fs| > 0 {
      var rest := seq(|fs| - 1, k requires 0 <= k < |fs| - 1 => Some(fs[1..][k]));
      assert cs[1..] == rest;
      FragmentsJoinExactly(fs[1..]);
    }
  }
}
