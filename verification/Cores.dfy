/** The packing loop and the recursion (app/ingest/chunker.py) keep every piece tied to its core. */
module Cores {
  import opened Numbers
  import opened Sequences
  import opened Text
  import opened Chunker
  import opened Spans
  import opened PartsInPage

  ghost predicate PackInv(text: string, parts: seq<string>, out: seq<string>, buf: string, e: int, cores: seq<Span>,
                          size: nat, overlap: int, sep: string, rest: seq<string>) {
    && Remaining(text, parts, sep, e)
    && BufferAt(text, buf, e, size)
    && Held(text, out, cores, size, overlap, [sep] + rest, Start(buf, sep, e))
  }

  /** The emitted pieces answer for the page up to `at`. */
  ghost predicate Held(text: string, out: seq<string>, cores: seq<Span>, size: nat, overlap: int, seps: seq<string>,
                       at: int) {
    Cored(text, out, cores, size, overlap) && EndBy(cores, at) && (overlap >= 0 ==> Accounted(text, cores, seps, at))
  }

  /** What stands between a part and the next, or the end of the page, needs no piece. */
  lemma HeldPast(text: string, later: seq<string>, out: seq<string>, cores: seq<Span>,
                 size: nat, overlap: int, sep: string, rest: seq<string>, e: nat)
    requires Held(text, out, cores, size, overlap, [sep] + rest, e) && Remaining(text, later, sep, e)
    ensures Held(text, out, cores, size, overlap, [sep] + rest, e + |sep|)
  {
    PartEnds(text, later, sep, e);
    if overlap >= 0 { AccountedPast(text, cores, sep, rest, e); }
  }

  lemma AccountedPast(text: string, cores: seq<Span>, sep: string, rest: seq<string>, e: nat)
    requires Accounted(text, cores, [sep] + rest, e) && (At(text, sep, e) || e == |text|)
    ensures Accounted(text, cores, [sep] + rest, e + |sep|)
  {
    forall k | 0 <= k < e + |sep| && k < |text| ensures Covered(cores, k) || InSeparator(text, [sep] + rest, k) {
      if k >= e { SeparatorAt(text, sep, rest, e, k); }
    }
  }

  lemma SeparatorAt(text: string, sep: string, rest: seq<string>, e: int, k: int)
    requires At(text, sep, e) && e <= k < e + |sep|
    ensures InSeparator(text, [sep] + rest, k)
  {
    assert Inside(text, ([sep] + rest)[0], e, k);
  }

  /** Emitting the buffer: its core is the stretch of page it holds. */
  lemma FlushInv(text: string, parts: seq<string>, out: seq<string>, buf: string, e: int, cores: seq<Span>,
                 size: nat, overlap: int, sep: string, rest: seq<string>)
    requires sep != "" && PackInv(text, parts, out, buf, e, cores, size, overlap, sep, rest)
    ensures PackInv(text, parts, out + Flush(buf), "", e, cores + FlushSpan(buf, e), size, overlap, sep, rest)
  {
    var flushed := cores + FlushSpan(buf, e);
    if buf == "" {
      assert out + Flush(buf) == out && flushed == cores;
    } else {
      FlushHeld(text, out, buf, e, cores, size, overlap, [sep] + rest);
      HeldPast(text, parts, out + [buf], flushed, size, overlap, sep, rest, e);
    }
  }

  lemma FlushHeld(text: string, out: seq<string>, buf: string, e: nat, cores: seq<Span>, size: nat, overlap: int,
                  seps: seq<string>)
    requires buf != "" && BufferAt(text, buf, e, size) && Held(text, out, cores, size, overlap, seps, e - |buf|)
    ensures Held(text, out + [buf], cores + [Span(e - |buf|, e)], size, overlap, seps, e)
  {
    var c := [Span(e - |buf|, e)];
    BufferIs(text, buf, e);
    CoredAppend(text, out, cores, [buf], c, e - |buf|, size, overlap);
    if overlap >= 0 {
      forall k | 0 <= k < e ensures Covered(cores + c, k) || InSeparator(text, seps, k) {
        if k >= e - |buf| {
          assert (cores + c)[|cores|] == c[0];
        } else if Covered(cores, k) {
          CoveredStill(cores, c, k);
        }
      }
    }
  }

  /** A part that fits joins the buffer. */
  lemma GrowInv(text: string, parts: seq<string>, out: seq<string>, buf: string, e: int, cores: seq<Span>,
                size: nat, overlap: int, sep: string, rest: seq<string>)
    requires sep != "" && parts != [] && PackInv(text, parts, out, buf, e, cores, size, overlap, sep, rest)
    requires |Candidate(buf, sep, parts[0])| <= size
    ensures PackInv(text, parts[1..], out, Candidate(buf, sep, parts[0]), e + |sep| + |parts[0]|,
                    cores, size, overlap, sep, rest)
  {
    NextRemains(text, parts, sep, e);
    GrowText(text, parts, buf, e, sep, size);
    GrowHeld(text, parts[1..], out, buf, e, cores, size, overlap, sep, rest, parts[0]);
  }

  lemma GrowHeld(text: string, later: seq<string>, out: seq<string>, buf: string, e: int, cores: seq<Span>,
                 size: nat, overlap: int, sep: string, rest: seq<string>, part: string)
    requires Held(text, out, cores, size, overlap, [sep] + rest, Start(buf, sep, e))
    requires 0 <= e + |sep| && Remaining(text, later, sep, e + |sep| + |part|)
    ensures Held(text, out, cores, size, overlap, [sep] + rest,
                 Start(Candidate(buf, sep, part), sep, e + |sep| + |part|))
  {
    GrowStart(buf, sep, part, e);
    if buf == "" && part == "" {
      HeldPast(text, later, out, cores, size, overlap, sep, rest, e + |sep|);
    }
  }

  /** An oversized part is split on its own and its pieces follow. */
  lemma RecurseInv(text: string, parts: seq<string>, out: seq<string>, e: int, cores: seq<Span>,
                   pieces: seq<string>, sub: seq<Span>,
                   size: nat, overlap: int, sep: string, rest: seq<string>)
    requires sep != "" && parts != [] && PackInv(text, parts, out, "", e, cores, size, overlap, sep, rest)
    requires Cored(parts[0], pieces, sub, size, overlap)
    requires overlap >= 0 ==> Accounted(parts[0], sub, rest, |parts[0]|)
    ensures PackInv(text, parts[1..], out + pieces, "", e + |sep| + |parts[0]|, cores + Shift(sub, e + |sep|),
                    size, overlap, sep, rest)
  {
    NextPart(text, parts, sep, e);
    RecursePast(text, e + |sep|, parts[0], parts[1..], out, cores, pieces, sub, size, overlap, sep, rest);
  }

  lemma RecursePast(text: string, from: nat, part: string, later: seq<string>, out: seq<string>, cores: seq<Span>,
                    pieces: seq<string>, sub: seq<Span>, size: nat, overlap: int, sep: string, rest: seq<string>)
    requires At(text, part, from) && Remaining(text, later, sep, from + |part|)
    requires Held(text, out, cores, size, overlap, [sep] + rest, from)
    requires Cored(part, pieces, sub, size, overlap) && (overlap >= 0 ==> Accounted(part, sub, rest, |part|))
    ensures Held(text, out + pieces, cores + Shift(sub, from), size, overlap, [sep] + rest, from + |part| + |sep|)
  {
    RecurseHeld(text, from, part, out, cores, pieces, sub, size, overlap, sep, rest);
    HeldPast(text, later, out + pieces, cores + Shift(sub, from), size, overlap, sep, rest, from + |part|);
  }

  lemma RecurseHeld(text: string, from: nat, part: string, out: seq<string>, cores: seq<Span>,
                    pieces: seq<string>, sub: seq<Span>, size: nat, overlap: int, sep: string, rest: seq<string>)
    requires At(text, part, from) && Held(text, out, cores, size, overlap, [sep] + rest, from)
    requires Cored(part, pieces, sub, size, overlap) && (overlap >= 0 ==> Accounted(part, sub, rest, |part|))
    ensures Held(text, out + pieces, cores + Shift(sub, from), size, overlap, [sep] + rest, from + |part|)
  {
    CoredShift(text, from, part, pieces, sub, size, overlap);
    CoredAppend(text, out, cores, pieces, Shift(sub, from), from, size, overlap);
    RecurseEnd(part, pieces, sub, cores, from, size, overlap);
    if overlap >= 0 { RecurseAccounted(text, from, part, cores, sub, sep, rest); }
  }

  lemma RecurseEnd(part: string, pieces: seq<string>, sub: seq<Span>, cores: seq<Span>, from: nat, size: nat,
                   overlap: int)
    requires Cored(part, pieces, sub, size, overlap) && EndBy(cores, from)
    ensures EndBy(cores + Shift(sub, from), from + |part|)
  {
    forall k | 0 <= k < |cores| + |sub| ensures (cores + Shift(sub, from))[k].hi <= from + |part| {
      if k >= |cores| { assert CoreOf(part, pieces[k - |cores|], sub[k - |cores|], size, overlap); }
    }
  }

  lemma RecurseAccounted(text: string, from: nat, part: string, cores: seq<Span>, sub: seq<Span>, sep: string,
                         rest: seq<string>)
    requires from + |part| <= |text| && text[from..from + |part|] == part
    requires Accounted(text, cores, [sep] + rest, from) && Accounted(part, sub, rest, |part|)
    ensures Accounted(text, cores + Shift(sub, from), [sep] + rest, from + |part|)
  {
    forall k | 0 <= k < from + |part|
      ensures Covered(cores + Shift(sub, from), k) || InSeparator(text, [sep] + rest, k)
    {
      if k >= from {
        AccountedShift(text, from, part, sub, rest, sep, k - from);
        if Covered(Shift(sub, from), k) { CoveredMore(Shift(sub, from), cores, k); }
      } else if Covered(cores, k) {
        CoveredStill(cores, Shift(sub, from), k);
      }
    }
  }

  /** The pieces answer for the whole page, each by its core. */
  ghost predicate Answers(text: string, pieces: seq<string>, cores: seq<Span>, size: nat, overlap: int,
                          seps: seq<string>) {
    Cored(text, pieces, cores, size, overlap) && (overlap >= 0 ==> Accounted(text, cores, seps, |text|))
  }

  lemma {:induction false} PackCores(text: string, parts: seq<string>, out: seq<string>, buf: string, e: int,
                                     cores: seq<Span>, size: nat, overlap: int, sep: string, rest: seq<string>)
    requires size >= 1 && sep != "" && PackInv(text, parts, out, buf, e, cores, size, overlap, sep, rest)
    ensures Answers(text, Pack(parts, out, buf, size, overlap, sep, rest),
                    cores + PackSpans(parts, buf, e, size, overlap, sep, rest), size, overlap, [sep] + rest)
    decreases |rest|, 1 + |parts|
  {
    var flushed := cores + FlushSpan(buf, e);
    if parts == [] {
      PackEnd(text, out, buf, e, cores, size, overlap, sep, rest);
    } else if |Candidate(buf, sep, parts[0])| <= size {
      PackGrown(text, parts, out, buf, e, cores, size, overlap, sep, rest);
    } else {
      assert PackInv(text, parts, out + Flush(buf), "", e, flushed, size, overlap, sep, rest) by {
        FlushInv(text, parts, out, buf, e, cores, size, overlap, sep, rest);
      }
      if |parts[0]| > size {
        PackOversized(text, parts, out + Flush(buf), e, flushed, size, overlap, sep, rest);
        var pieces := SplitText(parts[0], size, overlap, rest);
        AnswersAssoc(text, Pack(parts[1..], out + Flush(buf) + pieces, "", size, overlap, sep, rest), cores,
                     FlushSpan(buf, e), OversizedSpans(parts, e, size, overlap, sep, rest),
                     size, overlap, [sep] + rest);
      } else {
        PackFresh(text, parts, out + Flush(buf), e, flushed, size, overlap, sep, rest);
        AnswersAssoc(text, Pack(parts[1..], out + Flush(buf), parts[0], size, overlap, sep, rest), cores,
                     FlushSpan(buf, e), FreshSpans(parts, e, size, overlap, sep, rest), size, overlap, [sep] + rest);
      }
    }
  }

  lemma PackEnd(text: string, out: seq<string>, buf: string, e: int, cores: seq<Span>, size: nat, overlap: int,
                sep: string, rest: seq<string>)
    requires sep != "" && PackInv(text, [], out, buf, e, cores, size, overlap, sep, rest)
    ensures Answers(text, out + Flush(buf), cores + FlushSpan(buf, e), size, overlap, [sep] + rest)
  {
    FlushInv(text, [], out, buf, e, cores, size, overlap, sep, rest);
    RestIs(text, e);
  }

  lemma {:induction false} PackGrown(text: string, parts: seq<string>, out: seq<string>, buf: string, e: int,
                                     cores: seq<Span>, size: nat, overlap: int, sep: string, rest: seq<string>)
    requires size >= 1 && sep != "" && PackInv(text, parts, out, buf, e, cores, size, overlap, sep, rest)
    requires parts != [] && |Candidate(buf, sep, parts[0])| <= size
    ensures var grown := Candidate(buf, sep, parts[0]);
            Answers(text, Pack(parts[1..], out, grown, size, overlap, sep, rest),
                    cores + PackSpans(parts[1..], grown, e + |sep| + |parts[0]|, size, overlap, sep, rest),
                    size, overlap, [sep] + rest)
    decreases |rest|, 1 + |parts|, 0
  {
    var later, grown, next := parts[1..], Candidate(buf, sep, parts[0]), e + |sep| + |parts[0]|;
    assert PackInv(text, later, out, grown, next, cores, size, overlap, sep, rest) by {
      GrowInv(text, parts, out, buf, e, cores, size, overlap, sep, rest);
    }
    PackCores(text, later, out, grown, next, cores, size, overlap, sep, rest);
  }

  function OversizedSpans(parts: seq<string>, e: int, size: nat, overlap: int, sep: string, rest: seq<string>)
    : seq<Span>
    requires parts != []
  {
    Shift(SplitSpans(parts[0], size, overlap, rest), Max(0, e + |sep|))
    + PackSpans(parts[1..], "", e + |sep| + |parts[0]|, size, overlap, sep, rest)
  }

  function FreshSpans(parts: seq<string>, e: int, size: nat, overlap: int, sep: string, rest: seq<string>)
    : seq<Span>
    requires parts != []
  {
    PackSpans(parts[1..], parts[0], e + |sep| + |parts[0]|, size, overlap, sep, rest)
  }

  lemma {:induction false} PackFresh(text: string, parts: seq<string>, out: seq<string>, e: int,
                                     cores: seq<Span>, size: nat, overlap: int, sep: string, rest: seq<string>)
    requires size >= 1 && sep != "" && PackInv(text, parts, out, "", e, cores, size, overlap, sep, rest)
    requires parts != [] && |parts[0]| <= size
    ensures Answers(text, Pack(parts[1..], out, parts[0], size, overlap, sep, rest),
                    cores + FreshSpans(parts, e, size, overlap, sep, rest), size, overlap, [sep] + rest)
    decreases |rest|, 1 + |parts|, 0
  {
    var later, part, next := parts[1..], parts[0], e + |sep| + |parts[0]|;
    assert PackInv(text, later, out, part, next, cores, size, overlap, sep, rest) by {
      GrowInv(text, parts, out, "", e, cores, size, overlap, sep, rest);
    }
    PackCores(text, later, out, part, next, cores, size, overlap, sep, rest);
  }

  lemma {:induction false} PackOversized(text: string, parts: seq<string>, out: seq<string>, e: int,
                                         cores: seq<Span>, size: nat, overlap: int, sep: string, rest: seq<string>)
    requires size >= 1 && sep != "" && PackInv(text, parts, out, "", e, cores, size, overlap, sep, rest)
    requires parts != [] && |parts[0]| > size
    ensures Answers(text,
                    Pack(parts[1..], out + SplitText(parts[0], size, overlap, rest), "", size, overlap, sep, rest),
                    cores + OversizedSpans(parts, e, size, overlap, sep, rest), size, overlap, [sep] + rest)
    decreases |rest|, 1 + |parts|, 1
  {
    var pieces, sub := SplitText(parts[0], size, overlap, rest), SplitSpans(parts[0], size, overlap, rest);
    SpansAnswer(parts[0], size, overlap, rest);
    PackAfter(text, parts, out, e, cores, pieces, sub, size, overlap, sep, rest);
    AnswersAssoc(text, Pack(parts[1..], out + pieces, "", size, overlap, sep, rest),
                 cores, Shift(sub, Max(0, e + |sep|)),
                 PackSpans(parts[1..], "", e + |sep| + |parts[0]|, size, overlap, sep, rest),
                 size, overlap, [sep] + rest);
  }

  lemma AfterInv(text: string, parts: seq<string>, out: seq<string>, e: int, cores: seq<Span>,
                 pieces: seq<string>, sub: seq<Span>, size: nat, overlap: int, sep: string, rest: seq<string>)
    requires sep != "" && parts != [] && PackInv(text, parts, out, "", e, cores, size, overlap, sep, rest)
    requires Answers(parts[0], pieces, sub, size, overlap, rest)
    ensures PackInv(text, parts[1..], out + pieces, "", e + |sep| + |parts[0]|,
                    cores + Shift(sub, Max(0, e + |sep|)), size, overlap, sep, rest)
  {
    NextRemains(text, parts, sep, e);
    RecurseInv(text, parts, out, e, cores, pieces, sub, size, overlap, sep, rest);
  }

  lemma {:induction false} PackAfter(text: string, parts: seq<string>, out: seq<string>, e: int, cores: seq<Span>,
                                     pieces: seq<string>, sub: seq<Span>,
                                     size: nat, overlap: int, sep: string, rest: seq<string>)
    requires size >= 1 && sep != "" && parts != []
    requires PackInv(text, parts, out, "", e, cores, size, overlap, sep, rest)
    requires Answers(parts[0], pieces, sub, size, overlap, rest)
    ensures Answers(text, Pack(parts[1..], out + pieces, "", size, overlap, sep, rest),
                    cores + Shift(sub, Max(0, e + |sep|))
                    + PackSpans(parts[1..], "", e + |sep| + |parts[0]|, size, overlap, sep, rest),
                    size, overlap, [sep] + rest)
    decreases |rest|, 1 + |parts|, 0
  {
    var later, out', next := parts[1..], out + pieces, e + |sep| + |parts[0]|;
    var cores' := cores + Shift(sub, Max(0, e + |sep|));
    assert PackInv(text, later, out', "", next, cores', size, overlap, sep, rest) by {
      AfterInv(text, parts, out, e, cores, pieces, sub, size, overlap, sep, rest);
    }
    PackCores(text, later, out', "", next, cores', size, overlap, sep, rest);
  }

  lemma AnswersAssoc(text: string, pieces: seq<string>, a: seq<Span>, b: seq<Span>, c: seq<Span>, size: nat,
                     overlap: int, seps: seq<string>)
    requires Answers(text, pieces, a + b + c, size, overlap, seps)
    ensures Answers(text, pieces, a + (b + c), size, overlap, seps)
  {
    Assoc(a, b, c);
  }

  lemma StitchCored(text: string, out: seq<string>, cores: seq<Span>, size: nat, overlap: int, sep: string)
    requires Cored(text, out, cores, size, overlap)
    ensures Cored(text, Stitch(out, overlap, sep), cores, size, overlap)
  {
    var stitched := Stitch(out, overlap, sep);
    forall k | 0 <= k < |cores| ensures CoreOf(text, stitched[k], cores[k], size, overlap) {
      assert CoreOf(text, out[k], cores[k], size, overlap);
      if stitched[k] != out[k] {
        var core := text[cores[k].lo..cores[k].hi];
        var front := Tail(out[k - 1], overlap) + sep;
        assert stitched[k] == front + out[k];
        assert stitched[k][|stitched[k]| - |core|..] == out[k][|out[k]| - |core|..];
      }
    }
  }

  lemma {:induction false} SpansAnswer(text: string, size: nat, overlap: int, seps: seq<string>)
    requires text != "" && size >= 1
    ensures Answers(text, SplitText(text, size, overlap, seps), SplitSpans(text, size, overlap, seps),
                    size, overlap, seps)
    decreases |seps|, 0
  {
    if |text| <= size {
      var cores := [Span(0, |text|)];
      forall k | 0 <= k < |text| ensures Covered(cores, k) {
        assert cores[0].lo <= k < cores[0].hi;
      }
    } else if seps == [] || seps[0] == "" {
      var cores := WindowCores(text, size, overlap, Max(1, size - overlap), 0);
    } else {
      var sep, rest := seps[0], seps[1..];
      assert [sep] + rest == seps;
      PackCores(text, Split(text, sep), [], "", -|sep|, [], size, overlap, sep, rest);
      var cores := PackSpans(Split(text, sep), "", -|sep|, size, overlap, sep, rest);
      assert [] + cores == cores;
      StitchCored(text, Pack(Split(text, sep), [], "", size, overlap, sep, rest), cores, size, overlap, sep);
    }
  }

  /** Main result: cores exist, in page order, and leave nothing out but separators. */
  lemma SplitCores(text: string, size: nat, overlap: int, seps: seq<string>) returns (cores: seq<Span>)
    requires text != "" && size >= 1
    ensures Cored(text, SplitText(text, size, overlap, seps), cores, size, overlap)
    ensures overlap >= 0 ==> Accounted(text, cores, seps, |text|)
    ensures cores == SplitSpans(text, size, overlap, seps)
  {
    SpansAnswer(text, size, overlap, seps);
    cores := SplitSpans(text, size, overlap, seps);
  }
}
