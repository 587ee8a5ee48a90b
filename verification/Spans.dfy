/**
 * Where pieces come from (app/ingest/chunker.py).
 *
 * Each piece carries a *core*, the part of the page it is responsible for. Whatever the
 * levels of recursion stitch in front of it, the piece still ends with its core.
 */
module Spans {
  import opened Numbers
  import opened Text
  import opened Chunker

  datatype Span = Span(lo: nat, hi: nat)

  predicate CoreOf(text: string, piece: string, c: Span, size: nat, overlap: int) {
    && c.lo < c.hi <= |text| && c.hi - c.lo <= size
    && EndsWith(piece, text[c.lo..c.hi])
    && (overlap <= 0 ==> piece == text[c.lo..c.hi])
  }

  /** Cores fit in `size`, start strictly later one after the other, and are disjoint without overlap. */
  ghost predicate Cored(text: string, pieces: seq<string>, cores: seq<Span>, size: nat, overlap: int) {
    && |cores| == |pieces|
    && (forall k :: 0 <= k < |cores| ==> CoreOf(text, pieces[k], cores[k], size, overlap))
    && Ordered(cores, overlap)
  }

  predicate Covered(cores: seq<Span>, k: int) {
    exists i :: 0 <= i < |cores| && cores[i].lo <= k < cores[i].hi
  }

  predicate Inside(text: string, sep: string, p: int, k: int) {
    p <= k < p + |sep| && At(text, sep, p)
  }

  ghost predicate InSeparator(text: string, seps: seq<string>, k: int) {
    exists s, p :: 0 <= s < |seps| && Inside(text, seps[s], p, k)
  }

  ghost predicate Accounted(text: string, cores: seq<Span>, seps: seq<string>, upTo: int) {
    forall k :: 0 <= k < upTo && k < |text| ==> Covered(cores, k) || InSeparator(text, seps, k)
  }

  ghost predicate EndBy(cores: seq<Span>, limit: int) {
    forall k :: 0 <= k < |cores| ==> cores[k].hi <= limit
  }

  lemma {:induction false} WindowCores(text: string, size: nat, overlap: int, step: nat, i: nat)
    returns (cores: seq<Span>)
    requires size >= 1 && step == Max(1, size - overlap)
    ensures Cored(text, Windows(text, size, step, i), cores, size, overlap)
    ensures cores == WindowSpans(|text|, size, step, i)
    ensures forall k :: 0 <= k < |cores| ==> i <= cores[k].lo
    ensures overlap >= 0 ==> forall k :: i <= k < |text| ==> Covered(cores, k)
    decreases |text| - i
  {
    if i >= |text| {
      cores := [];
    } else {
      var first := Span(i, Min(i + size, |text|));
      var later := WindowCores(text, size, overlap, step, i + step);
      cores := [first] + later;
      WindowFirst(text, Windows(text, size, step, i + step), first, later, size, overlap, i + step);
      if overlap >= 0 {
        forall k | i <= k < |text| ensures Covered(cores, k) {
          if k >= first.hi { CoveredMore(later, [first], k); } else { assert cores[0] == first; }
        }
      }
    }
  }

  lemma WindowFirst(text: string, pieces: seq<string>, first: Span, later: seq<Span>, size: nat, overlap: int,
                    next: nat)
    requires first.lo < first.hi <= |text| && first.hi - first.lo <= size && first.lo < next
    requires overlap <= 0 ==> first.hi <= next
    requires Cored(text, pieces, later, size, overlap) && forall k :: 0 <= k < |later| ==> next <= later[k].lo
    ensures Cored(text, [text[first.lo..first.hi]] + pieces, [first] + later, size, overlap)
  {
    OwnCore(text, first, size, overlap);
    CoredPrepend(text, text[first.lo..first.hi], first, pieces, later, size, overlap, next);
  }

  lemma OwnCore(text: string, c: Span, size: nat, overlap: int)
    requires c.lo < c.hi <= |text| && c.hi - c.lo <= size
    ensures CoreOf(text, text[c.lo..c.hi], c, size, overlap)
  {
  }

  lemma CoredPrepend(text: string, piece: string, first: Span, pieces: seq<string>, later: seq<Span>,
                     size: nat, overlap: int, next: nat)
    requires CoreOf(text, piece, first, size, overlap) && first.lo < next && (overlap <= 0 ==> first.hi <= next)
    requires Cored(text, pieces, later, size, overlap) && forall k :: 0 <= k < |later| ==> next <= later[k].lo
    ensures Cored(text, [piece] + pieces, [first] + later, size, overlap)
  {
    var all, cores := [piece] + pieces, [first] + later;
    forall k | 0 <= k < |cores| ensures CoreOf(text, all[k], cores[k], size, overlap) {
      if k > 0 { assert CoreOf(text, pieces[k - 1], later[k - 1], size, overlap); }
    }
    forall j, k | 0 <= j < k < |cores|
      ensures cores[j].lo < cores[k].lo && (overlap <= 0 ==> cores[j].hi <= cores[k].lo)
    {
      assert cores[k] == later[k - 1];
      if j > 0 { assert cores[j] == later[j - 1]; }
    }
  }

  lemma CoveredMore(cores: seq<Span>, before: seq<Span>, k: int)
    requires Covered(cores, k)
    ensures Covered(before + cores, k)
  {
    var i :| 0 <= i < |cores| && cores[i].lo <= k < cores[i].hi;
    assert (before + cores)[|before| + i] == cores[i];
  }

  lemma CoveredStill(cores: seq<Span>, more: seq<Span>, k: int)
    requires Covered(cores, k)
    ensures Covered(cores + more, k)
  {
    var i :| 0 <= i < |cores| && cores[i].lo <= k < cores[i].hi;
    assert (cores + more)[i] == cores[i];
  }

  /** Two cored runs of pieces, the second starting after the first ends. */
  lemma CoredAppend(text: string, out: seq<string>, cores: seq<Span>, more: seq<string>, moreCores: seq<Span>,
                    at: int, size: nat, overlap: int)
    requires Cored(text, out, cores, size, overlap) && EndBy(cores, at)
    requires Cored(text, more, moreCores, size, overlap)
    requires forall k :: 0 <= k < |moreCores| ==> at <= moreCores[k].lo
    ensures Cored(text, out + more, cores + moreCores, size, overlap)
  {
    var n, all := |cores|, cores + moreCores;
    forall k | 0 <= k < |all| ensures CoreOf(text, (out + more)[k], all[k], size, overlap) {
      if k < n { assert all[k] == cores[k]; } else { assert all[k] == moreCores[k - n]; }
    }
    forall k | 0 <= k < n ensures cores[k].lo < at { assert CoreOf(text, out[k], cores[k], size, overlap); }
    OrderedAppend(cores, moreCores, at, overlap);
  }

  predicate Ordered(cores: seq<Span>, overlap: int) {
    forall j, k :: 0 <= j < k < |cores| ==> cores[j].lo < cores[k].lo && (overlap <= 0 ==> cores[j].hi <= cores[k].lo)
  }

  lemma OrderedAppend(cores: seq<Span>, moreCores: seq<Span>, at: int, overlap: int)
    requires Ordered(cores, overlap) && Ordered(moreCores, overlap) && EndBy(cores, at)
    requires forall k :: 0 <= k < |cores| ==> cores[k].lo < at
    requires forall k :: 0 <= k < |moreCores| ==> at <= moreCores[k].lo
    ensures Ordered(cores + moreCores, overlap)
  {
    var n, all := |cores|, cores + moreCores;
    forall j, k | 0 <= j < k < |all| ensures all[j].lo < all[k].lo && (overlap <= 0 ==> all[j].hi <= all[k].lo) {
      if j >= n { assert all[j] == moreCores[j - n] && all[k] == moreCores[k - n]; }
    }
  }

  function Shift(cores: seq<Span>, d: nat): seq<Span> {
    seq(|cores|, k requires 0 <= k < |cores| => Span(cores[k].lo + d, cores[k].hi + d))
  }

  lemma SliceOfSlice(text: string, from: nat, part: string, a: nat, b: nat)
    requires from + |part| <= |text| && text[from..from + |part|] == part && a <= b <= |part|
    ensures part[a..b] == text[from + a..from + b]
  {
    assert forall i :: 0 <= i < b - a ==> part[a..b][i] == part[a + i] == text[from + a..from + b][i];
  }

  /** A part of the page read as a page of its own: its cores, moved to their place in the page. */
  lemma CoredShift(text: string, from: nat, part: string, pieces: seq<string>, cores: seq<Span>, size: nat,
                   overlap: int)
    requires from + |part| <= |text| && text[from..from + |part|] == part
    requires Cored(part, pieces, cores, size, overlap)
    ensures Cored(text, pieces, Shift(cores, from), size, overlap)
  {
    forall k | 0 <= k < |cores| ensures CoreOf(text, pieces[k], Shift(cores, from)[k], size, overlap) {
      var c := cores[k];
      assert CoreOf(part, pieces[k], c, size, overlap);
      SliceOfSlice(text, from, part, c.lo, c.hi);
    }
  }

  lemma AccountedShift(text: string, from: nat, part: string, cores: seq<Span>, rest: seq<string>, sep: string, k: nat)
    requires from + |part| <= |text| && text[from..from + |part|] == part
    requires k < |part| && (Covered(cores, k) || InSeparator(part, rest, k))
    ensures Covered(Shift(cores, from), from + k) || InSeparator(text, [sep] + rest, from + k)
  {
    if Covered(cores, k) {
      var i :| 0 <= i < |cores| && cores[i].lo <= k < cores[i].hi;
      assert Shift(cores, from)[i].lo <= from + k < Shift(cores, from)[i].hi;
    } else {
      var s, p :| 0 <= s < |rest| && Inside(part, rest[s], p, k);
      SliceOfSlice(text, from, part, p, p + |rest[s]|);
      assert ([sep] + rest)[s + 1] == rest[s] && Inside(text, ([sep] + rest)[s + 1], from + p, from + k);
    }
  }

  // ---------------------------------------------------------------- where the cores are

  function WindowSpans(n: nat, size: nat, step: nat, i: nat): seq<Span>
    requires step >= 1
    decreases n - i
  {
    if i >= n then [] else [Span(i, Min(i + size, n))] + WindowSpans(n, size, step, i + step)
  }

  function FlushSpan(buf: string, e: int): seq<Span> {
    if buf == "" || e < |buf| then [] else [Span(e - |buf|, e)]
  }

  /** The cores of a page: the packing and its recursion, followed by position only. */
  function SplitSpans(text: string, size: nat, overlap: int, seps: seq<string>): seq<Span>
    decreases |seps|, 0
  {
    if |text| <= size then [Span(0, |text|)]
    else if seps == [] || seps[0] == "" then WindowSpans(|text|, size, Max(1, size - overlap), 0)
    else PackSpans(Split(text, seps[0]), "", -|seps[0]|, size, overlap, seps[0], seps[1..])
  }

  function PackSpans(parts: seq<string>, buf: string, e: int, size: nat, overlap: int, sep: string, rest: seq<string>)
    : seq<Span>
    decreases |rest|, 1 + |parts|
  {
    if parts == [] then FlushSpan(buf, e)
    else
      var part, next := parts[0], e + |sep| + |parts[0]|;
      if |Candidate(buf, sep, part)| <= size then
        PackSpans(parts[1..], Candidate(buf, sep, part), next, size, overlap, sep, rest)
      else if |part| > size then
        FlushSpan(buf, e) + (Shift(SplitSpans(part, size, overlap, rest), Max(0, e + |sep|))
                             + PackSpans(parts[1..], "", next, size, overlap, sep, rest))
      else FlushSpan(buf, e) + PackSpans(parts[1..], part, next, size, overlap, sep, rest)
  }
}
