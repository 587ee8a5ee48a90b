/** How full pieces are (app/ingest/chunker.py): a piece ends only where the next part no longer fits. */
module Packing {
  import opened Text
  import opened Spans

  /** `sep` does not occur within `a..b`. */
  predicate NoneWithin(text: string, sep: string, a: int, b: int) {
    forall i :: a <= i <= b - |sep| ==> !At(text, sep, i)
  }

  /** A stretch between separators, with none inside, that is too long for one piece. */
  predicate Oversized(text: string, size: nat, sep: string, a: nat, b: nat) {
    && a <= b <= |text| && b - a > size && NoneWithin(text, sep, a, b)
    && (a == 0 || At(text, sep, a - |sep|)) && (b == |text| || At(text, sep, b))
  }

  predicate Within(c: Span, a: nat, b: nat) { a <= c.lo && c.hi <= b }

  /**
   * Why two neighbouring cores may be short together: they are windows, or an oversized stretch holds one
   * but not the other, or it holds both and they are excused there, at the next separator.
   */
  ghost predicate Excused(text: string, size: nat, seps: seq<string>, c: Span, d: Span)
    decreases |seps|, 1
  {
    seps == [] || seps[0] == ""
    || exists a: nat, b: nat :: Oversized(text, size, seps[0], a, b) && ExcusedBy(text, size, seps, c, d, a, b)
  }

  ghost predicate ExcusedBy(text: string, size: nat, seps: seq<string>, c: Span, d: Span, a: nat, b: nat)
    requires seps != [] && a <= b <= |text|
    decreases |seps|, 0
  {
    || Within(c, a, b) != Within(d, a, b)
    || (Within(c, a, b) && Excused(text[a..b], size, seps[1..], MovedBack(c, a), MovedBack(d, a)))
  }

  function MovedBack(d: Span, a: nat): Span {
    if a <= d.lo <= d.hi then Span(d.lo - a, d.hi - a) else d
  }

  /** Together with what separates them, two neighbouring cores do not fit in one piece, or they are excused. */
  ghost predicate Good(text: string, size: nat, seps: seq<string>, c: Span, d: Span) {
    d.hi - c.lo > size || Excused(text, size, seps, c, d)
  }

  ghost predicate Full(text: string, size: nat, seps: seq<string>, cores: seq<Span>) {
    forall k :: 1 <= k < |cores| ==> Good(text, size, seps, cores[k - 1], cores[k])
  }

  /** Whatever core comes next, from `lo` on and reaching `hi`, will do. */
  ghost predicate Awaits(text: string, size: nat, seps: seq<string>, c: Span, lo: int, hi: int) {
    forall d: Span :: lo <= d.lo < d.hi && hi <= d.hi ==> Good(text, size, seps, c, d)
  }

  ghost predicate Tight(text: string, size: nat, seps: seq<string>, cores: seq<Span>, lo: int, hi: int) {
    && Full(text, size, seps, cores)
    && (cores != [] ==> Awaits(text, size, seps, cores[|cores| - 1], lo, hi))
  }

  lemma TightLater(text: string, size: nat, seps: seq<string>, cores: seq<Span>, lo: int, hi: int, lo': int, hi': int)
    requires Tight(text, size, seps, cores, lo, hi) && lo <= lo' && hi <= hi'
    ensures Tight(text, size, seps, cores, lo', hi')
  {
  }

  /** One more core. */
  lemma TightAppend(text: string, size: nat, seps: seq<string>, cores: seq<Span>, lo: int, hi: int, d: Span)
    requires Tight(text, size, seps, cores, lo, hi) && lo <= d.lo < d.hi && hi <= d.hi
    ensures Full(text, size, seps, cores + [d])
  {
    var all := cores + [d];
    forall k | 1 <= k < |all| ensures Good(text, size, seps, all[k - 1], all[k]) {
      if k < |cores| { assert all[k - 1] == cores[k - 1] && all[k] == cores[k]; }
    }
  }

  /** The part that did not fit any more ends at `hi`. */
  lemma TightAfter(text: string, size: nat, seps: seq<string>, cores: seq<Span>, d: Span, lo: int, hi: int)
    requires Full(text, size, seps, cores + [d]) && hi - d.lo > size
    ensures Tight(text, size, seps, cores + [d], lo, hi)
  {
  }

  ghost predicate EachNonEmpty(cores: seq<Span>) {
    forall k :: 0 <= k < |cores| ==> cores[k].lo < cores[k].hi
  }

  lemma ExcusedIn(text: string, size: nat, seps: seq<string>, c: Span, d: Span, a: nat, b: nat)
    requires seps != [] && Oversized(text, size, seps[0], a, b) && ExcusedBy(text, size, seps, c, d, a, b)
    ensures Good(text, size, seps, c, d)
  {
  }

  lemma GoodInside(text: string, size: nat, seps: seq<string>, c: Span, d: Span, a: nat, b: nat)
    requires seps != [] && Oversized(text, size, seps[0], a, b)
    requires c.lo <= c.hi <= b - a && d.lo <= d.hi <= b - a && Good(text[a..b], size, seps[1..], c, d)
    ensures Good(text, size, seps, Span(c.lo + a, c.hi + a), Span(d.lo + a, d.hi + a))
  {
    var c', d' := Span(c.lo + a, c.hi + a), Span(d.lo + a, d.hi + a);
    if d.hi - c.lo <= size {
      assert MovedBack(c', a) == c && MovedBack(d', a) == d;
      ExcusedIn(text, size, seps, c', d', a, b);
    }
  }

  /** The cores of an oversized stretch follow: inside they are as full as they are there, and its ends are excused. */
  lemma TightOversized(text: string, size: nat, seps: seq<string>, cores: seq<Span>, sub: seq<Span>, a: nat, b: nat)
    requires seps != [] && Oversized(text, size, seps[0], a, b) && Full(text, size, seps, cores)
    requires EndBy(cores, a) && EachNonEmpty(cores) && Full(text[a..b], size, seps[1..], sub)
    requires EndBy(sub, b - a) && EachNonEmpty(sub)
    ensures Tight(text, size, seps, cores + Shift(sub, a), b, b)
  {
    var n, all := |cores|, cores + Shift(sub, a);
    forall k | 1 <= k < |all| ensures Good(text, size, seps, all[k - 1], all[k]) {
      if k < n {
        assert all[k - 1] == cores[k - 1] && all[k] == cores[k];
      } else if k > n {
        GoodInside(text, size, seps, sub[k - 1 - n], sub[k - n], a, b);
      } else {
        assert all[k - 1] == cores[n - 1] && all[k] == Shift(sub, a)[0];
        ExcusedIn(text, size, seps, all[k - 1], all[k], a, b);
      }
    }
    if all != [] { AwaitsAfter(text, size, seps, all[|all| - 1], a, b, |sub| > 0); }
  }

  lemma AwaitsAfter(text: string, size: nat, seps: seq<string>, c: Span, a: nat, b: nat, inside: bool)
    requires seps != [] && Oversized(text, size, seps[0], a, b) && c.lo < c.hi
    requires if inside then Within(c, a, b) else c.hi <= a
    ensures Awaits(text, size, seps, c, b, b)
  {
    forall d: Span | b <= d.lo < d.hi && b <= d.hi ensures Good(text, size, seps, c, d) {
      if inside { ExcusedIn(text, size, seps, c, d, a, b); }
    }
  }

  // ---------------------------------------------------------------- the parts of a split

  lemma AtInside(text: string, a: nat, part: string, sep: string, i: nat)
    requires At(text, part, a) && i + |sep| <= |part|
    ensures At(part, sep, i) <==> At(text, sep, a + i)
  {
    SliceOfSlice(text, a, part, i, i + |sep|);
  }

  predicate Free(part: string, sep: string) { NoneWithin(part, sep, 0, |part|) }

  ghost predicate AllFree(parts: seq<string>, sep: string) {
    forall k :: 0 <= k < |parts| ==> Free(parts[k], sep)
  }

  lemma {:induction false} SplitFree(text: string, sep: string)
    requires sep != ""
    ensures AllFree(Split(text, sep), sep)
    decreases |text|
  {
    var i := Find(text, sep, 0);
    if i == |text| {
      WholeFree(text, sep);
    } else {
      HeadFree(text, sep, i);
      SplitFree(text[i + |sep|..], sep);
    }
  }

  lemma WholeFree(text: string, sep: string)
    requires sep != "" && Find(text, sep, 0) == |text|
    ensures Free(text, sep)
  {
  }

  lemma HeadFree(text: string, sep: string, i: nat)
    requires sep != "" && i == Find(text, sep, 0) && i <= |text|
    ensures Free(text[..i], sep)
  {
    forall k | 0 <= k <= i - |sep| ensures !At(text[..i], sep, k) {
      AtInside(text, 0, text[..i], sep, k);
    }
  }

  /** A part at its place in the page, too long for one piece. */
  lemma OversizedPart(text: string, size: nat, sep: string, part: string, a: nat)
    requires At(text, part, a) && Free(part, sep) && |part| > size
    requires a == 0 || At(text, sep, a - |sep|)
    requires a + |part| == |text| || At(text, sep, a + |part|)
    ensures Oversized(text, size, sep, a, a + |part|)
  {
    forall i | a <= i <= a + |part| - |sep| ensures !At(text, sep, i) {
      AtInside(text, a, part, sep, i - a);
    }
  }
}
