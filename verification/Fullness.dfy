/**
 * The packing loop puts into a piece all that fits (app/ingest/chunker.py): any two neighbouring cores span more
 * than `size`, but for the ends of stretches that had to be split further and for windows.
 */
module Fullness {
  import opened Numbers
  import opened Sequences
  import opened Text
  import opened Chunker
  import opened Spans
  import opened PartsInPage
  import opened Packing
  import opened Cores

  ghost predicate Proper(cores: seq<Span>, at: int) { EachNonEmpty(cores) && EndBy(cores, at) }

  lemma CoredProper(text: string, pieces: seq<string>, cores: seq<Span>, size: nat, overlap: int)
    requires Cored(text, pieces, cores, size, overlap)
    ensures Proper(cores, |text|)
  {
    forall k | 0 <= k < |cores| ensures cores[k].lo < cores[k].hi <= |text| {
      assert CoreOf(text, pieces[k], cores[k], size, overlap);
    }
  }

  /**
   * The cores so far are full, and so is the next one if it reaches `first`, where the first part of the open
   * buffer ends.
   */
  ghost predicate TightInv(text: string, parts: seq<string>, buf: string, e: int, cores: seq<Span>, size: nat,
                           sep: string, rest: seq<string>, first: int) {
    && AllFree(parts, sep) && first <= e && (buf != "" ==> |buf| <= e)
    && Proper(cores, Start(buf, sep, e))
    && Tight(text, size, [sep] + rest, cores, Start(buf, sep, e), first)
  }

  /** Emitting the buffer gives a full core. */
  lemma FlushTight(text: string, parts: seq<string>, buf: string, e: int, cores: seq<Span>,
                   size: nat, sep: string, rest: seq<string>, first: int)
    requires TightInv(text, parts, buf, e, cores, size, sep, rest, first)
    ensures Full(text, size, [sep] + rest, cores + FlushSpan(buf, e))
    ensures Proper(cores + FlushSpan(buf, e), if buf == "" then e + |sep| else e)
  {
    if buf == "" {
      assert cores + FlushSpan(buf, e) == cores;
    } else {
      TightAppend(text, size, [sep] + rest, cores, e - |buf|, first, Span(e - |buf|, e));
    }
  }

  /** The part that no longer fits is the reason. */
  lemma FreshTight(text: string, parts: seq<string>, buf: string, e: int, cores: seq<Span>,
                   size: nat, sep: string, rest: seq<string>)
    requires parts != [] && |parts[0]| <= size < |Candidate(buf, sep, parts[0])| && AllFree(parts, sep)
    requires e >= |buf| && Full(text, size, [sep] + rest, cores + FlushSpan(buf, e))
    requires Proper(cores + FlushSpan(buf, e), e)
    ensures var next := e + |sep| + |parts[0]|;
            TightInv(text, parts[1..], parts[0], next, cores + FlushSpan(buf, e), size, sep, rest, next)
  {
    var next := e + |sep| + |parts[0]|;
    TightAfter(text, size, [sep] + rest, cores, Span(e - |buf|, e), Start(parts[0], sep, next), next);
  }

  lemma GrowTight(text: string, parts: seq<string>, buf: string, e: int, cores: seq<Span>,
                  size: nat, sep: string, rest: seq<string>, first: int)
    requires parts != [] && 0 <= e + |sep| && TightInv(text, parts, buf, e, cores, size, sep, rest, first)
    ensures TightInv(text, parts[1..], Candidate(buf, sep, parts[0]), e + |sep| + |parts[0]|, cores,
                     size, sep, rest, first)
  {
    var next := e + |sep| + |parts[0]|;
    GrowStart(buf, sep, parts[0], e);
    TightLater(text, size, [sep] + rest, cores, Start(buf, sep, e), first,
               Start(Candidate(buf, sep, parts[0]), sep, next), first);
  }

  lemma PartStarts(text: string, parts: seq<string>, sep: string, e: int)
    requires parts != [] && sep != "" && Remaining(text, parts, sep, e)
    ensures 0 <= e + |sep| && (e + |sep| == 0 || At(text, sep, e))
  {
    if e >= 0 {
      RestIs(text, e);
      DropPrefix(text, e, sep, Join(parts, sep));
    }
  }

  lemma PartStops(text: string, parts: seq<string>, sep: string, e: int)
    requires parts != [] && sep != "" && Remaining(text, parts, sep, e)
    ensures var b := e + |sep| + |parts[0]|; b == |text| || At(text, sep, b)
  {
    NextRemains(text, parts, sep, e);
    PartEnds(text, parts[1..], sep, e + |sep| + |parts[0]|);
  }

  lemma OversizedHere(text: string, parts: seq<string>, e: int, size: nat, sep: string)
    requires sep != "" && parts != [] && Remaining(text, parts, sep, e) && Free(parts[0], sep) && |parts[0]| > size
    ensures 0 <= e + |sep| && Oversized(text, size, sep, e + |sep|, e + |sep| + |parts[0]|)
    ensures text[e + |sep|..e + |sep| + |parts[0]|] == parts[0]
  {
    PartStarts(text, parts, sep, e);
    PartStops(text, parts, sep, e);
    NextAt(text, parts, sep, e);
    OversizedPart(text, size, sep, parts[0], e + |sep|);
  }

  lemma OversizedTight(text: string, parts: seq<string>, a: nat, cores: seq<Span>, sub: seq<Span>,
                       size: nat, sep: string, rest: seq<string>)
    requires parts != [] && AllFree(parts, sep) && Oversized(text, size, sep, a, a + |parts[0]|)
    requires text[a..a + |parts[0]|] == parts[0]
    requires Full(text, size, [sep] + rest, cores) && Proper(cores, a)
    requires Full(parts[0], size, rest, sub) && Proper(sub, |parts[0]|)
    ensures TightInv(text, parts[1..], "", a + |parts[0]|, cores + Shift(sub, a), size, sep, rest, a + |parts[0]|)
  {
    var b := a + |parts[0]|;
    ProperMore(cores, sub, a, |parts[0]|);
    OversizedTightCores(text, size, sep, rest, cores, sub, a, b);
  }

  lemma ProperMore(cores: seq<Span>, sub: seq<Span>, a: nat, n: nat)
    requires Proper(cores, a) && Proper(sub, n)
    ensures Proper(cores + Shift(sub, a), a + n)
  {
  }

  lemma OversizedTightCores(text: string, size: nat, sep: string, rest: seq<string>, cores: seq<Span>,
                            sub: seq<Span>, a: nat, b: nat)
    requires Oversized(text, size, sep, a, b) && Full(text, size, [sep] + rest, cores) && Proper(cores, a)
    requires Full(text[a..b], size, rest, sub) && Proper(sub, b - a)
    ensures Tight(text, size, [sep] + rest, cores + Shift(sub, a), b + |sep|, b)
  {
    assert ([sep] + rest)[1..] == rest && ([sep] + rest)[0] == sep;
    TightOversized(text, size, [sep] + rest, cores, sub, a, b);
    TightLater(text, size, [sep] + rest, cores + Shift(sub, a), b, b, b + |sep|, b);
  }

  lemma FullAssoc(text: string, size: nat, seps: seq<string>, a: seq<Span>, b: seq<Span>, c: seq<Span>)
    requires Full(text, size, seps, a + b + c)
    ensures Full(text, size, seps, a + (b + c))
  {
    Assoc(a, b, c);
  }

  lemma {:induction false} PackFull(text: string, parts: seq<string>, buf: string, e: int, cores: seq<Span>,
                                    size: nat, overlap: int, sep: string, rest: seq<string>, first: int)
    requires size >= 1 && sep != "" && Remaining(text, parts, sep, e)
    requires TightInv(text, parts, buf, e, cores, size, sep, rest, first)
    ensures Full(text, size, [sep] + rest, cores + PackSpans(parts, buf, e, size, overlap, sep, rest))
    decreases |rest|, 1 + |parts|
  {
    if parts == [] {
      FlushTight(text, parts, buf, e, cores, size, sep, rest, first);
    } else if |Candidate(buf, sep, parts[0])| <= size {
      GrownFull(text, parts, buf, e, cores, size, overlap, sep, rest, first);
    } else if |parts[0]| > size {
      FlushedOversizedFull(text, parts, buf, e, cores, size, overlap, sep, rest, first);
    } else {
      FlushedFreshFull(text, parts, buf, e, cores, size, overlap, sep, rest, first);
    }
  }

  lemma {:induction false} FlushedOversizedFull(text: string, parts: seq<string>, buf: string, e: int,
                                                cores: seq<Span>, size: nat, overlap: int, sep: string,
                                                rest: seq<string>, first: int)
    requires size >= 1 && sep != "" && parts != [] && Remaining(text, parts, sep, e) && |parts[0]| > size
    requires TightInv(text, parts, buf, e, cores, size, sep, rest, first)
    ensures Full(text, size, [sep] + rest,
                 cores + (FlushSpan(buf, e) + OversizedSpans(parts, e, size, overlap, sep, rest)))
    decreases |rest|, 1 + |parts|, 2
  {
    var flushed := cores + FlushSpan(buf, e);
    FlushTight(text, parts, buf, e, cores, size, sep, rest, first);
    OversizedFull(text, parts, e, flushed, size, overlap, sep, rest);
    FullAssoc(text, size, [sep] + rest, cores, FlushSpan(buf, e),
              OversizedSpans(parts, e, size, overlap, sep, rest));
  }

  lemma {:induction false} FlushedFreshFull(text: string, parts: seq<string>, buf: string, e: int, cores: seq<Span>,
                                            size: nat, overlap: int, sep: string, rest: seq<string>, first: int)
    requires size >= 1 && sep != "" && parts != [] && Remaining(text, parts, sep, e)
    requires |parts[0]| <= size < |Candidate(buf, sep, parts[0])|
    requires TightInv(text, parts, buf, e, cores, size, sep, rest, first)
    ensures Full(text, size, [sep] + rest,
                 cores + (FlushSpan(buf, e) + FreshSpans(parts, e, size, overlap, sep, rest)))
    decreases |rest|, 1 + |parts|, 1
  {
    var flushed := cores + FlushSpan(buf, e);
    assert buf != "";
    FlushTight(text, parts, buf, e, cores, size, sep, rest, first);
    FreshTight(text, parts, buf, e, cores, size, sep, rest);
    FreshFull(text, parts, e, flushed, size, overlap, sep, rest);
    FullAssoc(text, size, [sep] + rest, cores, FlushSpan(buf, e), FreshSpans(parts, e, size, overlap, sep, rest));
  }

  lemma {:induction false} GrownFull(text: string, parts: seq<string>, buf: string, e: int, cores: seq<Span>,
                                     size: nat, overlap: int, sep: string, rest: seq<string>, first: int)
    requires size >= 1 && sep != "" && parts != [] && Remaining(text, parts, sep, e)
    requires TightInv(text, parts, buf, e, cores, size, sep, rest, first)
    ensures Full(text, size, [sep] + rest,
                 cores + PackSpans(parts[1..], Candidate(buf, sep, parts[0]), e + |sep| + |parts[0]|,
                                   size, overlap, sep, rest))
    decreases |rest|, 1 + |parts|, 0
  {
    var later, grown, next := parts[1..], Candidate(buf, sep, parts[0]), e + |sep| + |parts[0]|;
    assert Remaining(text, later, sep, next) by { NextRemains(text, parts, sep, e); }
    assert TightInv(text, later, grown, next, cores, size, sep, rest, first) by {
      NextRemains(text, parts, sep, e);
      GrowTight(text, parts, buf, e, cores, size, sep, rest, first);
    }
    PackFull(text, later, grown, next, cores, size, overlap, sep, rest, first);
  }

  lemma {:induction false} FreshFull(text: string, parts: seq<string>, e: int, cores: seq<Span>,
                                     size: nat, overlap: int, sep: string, rest: seq<string>)
    requires size >= 1 && sep != "" && parts != [] && Remaining(text, parts, sep, e)
    requires var next := e + |sep| + |parts[0]|;
             TightInv(text, parts[1..], parts[0], next, cores, size, sep, rest, next)
    ensures Full(text, size, [sep] + rest, cores + FreshSpans(parts, e, size, overlap, sep, rest))
    decreases |rest|, 1 + |parts|, 0
  {
    var later, part, next := parts[1..], parts[0], e + |sep| + |parts[0]|;
    assert Remaining(text, later, sep, next) by { NextRemains(text, parts, sep, e); }
    PackFull(text, later, part, next, cores, size, overlap, sep, rest, next);
  }

  lemma {:induction false} OversizedFull(text: string, parts: seq<string>, e: int, cores: seq<Span>,
                                         size: nat, overlap: int, sep: string, rest: seq<string>)
    requires size >= 1 && sep != "" && parts != [] && Remaining(text, parts, sep, e) && AllFree(parts, sep)
    requires |parts[0]| > size && Full(text, size, [sep] + rest, cores) && Proper(cores, e + |sep|)
    ensures Full(text, size, [sep] + rest, cores + OversizedSpans(parts, e, size, overlap, sep, rest))
    decreases |rest|, 1 + |parts|, 1
  {
    var sub := SplitSpans(parts[0], size, overlap, rest);
    SpansFull(parts[0], size, overlap, rest);
    AfterOversizedFull(text, parts, e, cores, sub, size, overlap, sep, rest);
    FullAssoc(text, size, [sep] + rest, cores, Shift(sub, Max(0, e + |sep|)),
              PackSpans(parts[1..], "", e + |sep| + |parts[0]|, size, overlap, sep, rest));
  }

  lemma AfterOversizedTight(text: string, parts: seq<string>, e: int, cores: seq<Span>, sub: seq<Span>,
                            size: nat, sep: string, rest: seq<string>)
    requires sep != "" && parts != [] && Remaining(text, parts, sep, e) && AllFree(parts, sep)
    requires |parts[0]| > size && Full(text, size, [sep] + rest, cores) && Proper(cores, e + |sep|)
    requires Full(parts[0], size, rest, sub) && Proper(sub, |parts[0]|)
    ensures var next := e + |sep| + |parts[0]|;
            TightInv(text, parts[1..], "", next, cores + Shift(sub, Max(0, e + |sep|)), size, sep, rest, next)
  {
    OversizedHere(text, parts, e, size, sep);
    OversizedTight(text, parts, e + |sep|, cores, sub, size, sep, rest);
  }

  lemma {:induction false} AfterOversizedFull(text: string, parts: seq<string>, e: int, cores: seq<Span>,
                                              sub: seq<Span>, size: nat, overlap: int, sep: string,
                                              rest: seq<string>)
    requires size >= 1 && sep != "" && parts != [] && Remaining(text, parts, sep, e) && AllFree(parts, sep)
    requires |parts[0]| > size && Full(text, size, [sep] + rest, cores) && Proper(cores, e + |sep|)
    requires Full(parts[0], size, rest, sub) && Proper(sub, |parts[0]|)
    ensures Full(text, size, [sep] + rest,
                 cores + Shift(sub, Max(0, e + |sep|))
                 + PackSpans(parts[1..], "", e + |sep| + |parts[0]|, size, overlap, sep, rest))
    decreases |rest|, 1 + |parts|, 0
  {
    var later, next, after := parts[1..], e + |sep| + |parts[0]|, cores + Shift(sub, Max(0, e + |sep|));
    assert Remaining(text, later, sep, next) by { NextRemains(text, parts, sep, e); }
    assert TightInv(text, later, "", next, after, size, sep, rest, next) by {
      AfterOversizedTight(text, parts, e, cores, sub, size, sep, rest);
    }
    PackFull(text, later, "", next, after, size, overlap, sep, rest, next);
  }

  lemma {:induction false} SpansFull(text: string, size: nat, overlap: int, seps: seq<string>)
    requires text != "" && size >= 1
    ensures Full(text, size, seps, SplitSpans(text, size, overlap, seps))
    ensures Proper(SplitSpans(text, size, overlap, seps), |text|)
    decreases |seps|, 0
  {
    SpansAnswer(text, size, overlap, seps);
    CoredProper(text, SplitText(text, size, overlap, seps), SplitSpans(text, size, overlap, seps), size, overlap);
    if |text| > size && seps != [] && seps[0] != "" {
      assert [seps[0]] + seps[1..] == seps;
      PageFull(text, size, overlap, seps[0], seps[1..]);
    } else if |text| > size {
      AllExcused(text, size, seps, SplitSpans(text, size, overlap, seps));
    }
  }

  lemma AllExcused(text: string, size: nat, seps: seq<string>, cores: seq<Span>)
    requires seps == [] || seps[0] == ""
    ensures Full(text, size, seps, cores)
  {
    forall k | 1 <= k < |cores| ensures Good(text, size, seps, cores[k - 1], cores[k]) {
      assert Excused(text, size, seps, cores[k - 1], cores[k]);
    }
  }

  lemma {:induction false} PageFull(text: string, size: nat, overlap: int, sep: string, rest: seq<string>)
    requires size >= 1 && sep != ""
    ensures Full(text, size, [sep] + rest,
                 PackSpans(Split(text, sep), "", -|sep|, size, overlap, sep, rest))
    decreases |rest|
  {
    SplitFree(text, sep);
    PackFull(text, Split(text, sep), "", -|sep|, [], size, overlap, sep, rest, -|sep|);
    NothingBefore(PackSpans(Split(text, sep), "", -|sep|, size, overlap, sep, rest));
  }

  lemma NothingBefore(cores: seq<Span>)
    ensures [] + cores == cores
  {
  }

  /** Main result: with the core before it, each core exceeds a piece, or the two are excused. */
  lemma FullCores(text: string, size: nat, overlap: int, seps: seq<string>) returns (cores: seq<Span>)
    requires text != "" && size >= 1
    ensures Cored(text, SplitText(text, size, overlap, seps), cores, size, overlap)
    ensures overlap >= 0 ==> Accounted(text, cores, seps, |text|)
    ensures forall k :: 1 <= k < |cores| ==>
              cores[k].hi - cores[k - 1].lo > size || Excused(text, size, seps, cores[k - 1], cores[k])
  {
    cores := SplitCores(text, size, overlap, seps);
    SpansFull(text, size, overlap, seps);
    forall k | 1 <= k < |cores|
      ensures cores[k].hi - cores[k - 1].lo > size || Excused(text, size, seps, cores[k - 1], cores[k])
    {
      assert Good(text, size, seps, cores[k - 1], cores[k]);
    }
  }

  /**
   * Where no stretch between two of the first separators is oversized, nothing is excused: any two neighbouring
   * cores span more than `size`.
   */
  lemma PiecesAreFull(text: string, size: nat, overlap: int, seps: seq<string>) returns (cores: seq<Span>)
    requires text != "" && size >= 1 && seps != [] && seps[0] != ""
    requires forall a: nat, b: nat :: !Oversized(text, size, seps[0], a, b)
    ensures Cored(text, SplitText(text, size, overlap, seps), cores, size, overlap)
    ensures overlap >= 0 ==> Accounted(text, cores, seps, |text|)
    ensures forall k :: 1 <= k < |cores| ==> cores[k].hi - cores[k - 1].lo > size
  {
    cores := FullCores(text, size, overlap, seps);
  }
}
