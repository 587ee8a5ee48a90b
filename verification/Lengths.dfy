/** How long a piece can get (app/ingest/chunker.py). */
module Lengths {
  import opened Numbers
  import opened Text
  import opened Chunker

  /**
   * `size`, and for every separator the recursion can use as much again as stitching can add: the separator
   * and the overlap, but no more of the piece before than there is.
   */
  function Bound(size: nat, overlap: int, seps: seq<string>): nat {
    if seps == [] || seps[0] == "" then size
    else
      var inner := Bound(size, overlap, seps[1..]);
      if overlap <= 0 then inner else Min(overlap, inner) + |seps[0]| + inner
  }

  predicate AllWithin(pieces: seq<string>, limit: nat) {
    forall k :: 0 <= k < |pieces| ==> |pieces[k]| <= limit
  }

  lemma {:induction false} BoundAtLeastSize(size: nat, overlap: int, seps: seq<string>)
    ensures size <= Bound(size, overlap, seps)
  {
    if seps != [] && seps[0] != "" { BoundAtLeastSize(size, overlap, seps[1..]); }
  }

  lemma {:induction false} WindowsWithin(text: string, size: nat, step: nat, i: nat)
    requires step >= 1
    ensures AllWithin(Windows(text, size, step, i), size)
    decreases |text| - i
  {
    if i < |text| { WindowsWithin(text, size, step, i + step); }
  }

  lemma {:induction false} LengthBound(text: string, size: nat, overlap: int, seps: seq<string>)
    ensures AllWithin(SplitText(text, size, overlap, seps), Bound(size, overlap, seps))
    decreases |seps|, 0
  {
    if |text| <= size {
      BoundAtLeastSize(size, overlap, seps);
    } else if seps == [] || seps[0] == "" {
      WindowsWithin(text, size, Max(1, size - overlap), 0);
    } else {
      PackWithin(Split(text, seps[0]), [], "", size, overlap, seps[0], seps[1..]);
      StitchWithin(Pack(Split(text, seps[0]), [], "", size, overlap, seps[0], seps[1..]), overlap, seps[0],
                   Bound(size, overlap, seps[1..]));
    }
  }

  lemma StitchWithin(out: seq<string>, overlap: int, sep: string, limit: nat)
    requires AllWithin(out, limit)
    ensures AllWithin(Stitch(out, overlap, sep), if overlap <= 0 then limit else Min(overlap, limit) + |sep| + limit)
  {
    if overlap > 0 && |out| > 1 {
      StitchFirst(out, overlap, sep);
      forall k | 1 <= k < |out| ensures |Stitch(out, overlap, sep)[k]| <= Min(overlap, limit) + |sep| + limit {
        StitchAt(out, overlap, sep, k);
      }
    }
  }

  lemma {:induction false} PackWithin(parts: seq<string>, out: seq<string>, buf: string,
                                      size: nat, overlap: int, sep: string, rest: seq<string>)
    requires AllWithin(out, Bound(size, overlap, rest)) && |buf| <= size
    ensures AllWithin(Pack(parts, out, buf, size, overlap, sep, rest), Bound(size, overlap, rest))
    decreases |rest|, 1 + |parts|
  {
    BoundAtLeastSize(size, overlap, rest);
    if parts != [] {
      var part := parts[0];
      var candidate := Candidate(buf, sep, part);
      if |candidate| <= size {
        PackWithin(parts[1..], out, candidate, size, overlap, sep, rest);
      } else if |part| > size {
        LengthBound(part, size, overlap, rest);
        PackWithin(parts[1..], out + Flush(buf) + SplitText(part, size, overlap, rest), "", size, overlap, sep, rest);
      } else {
        PackWithin(parts[1..], out + Flush(buf), part, size, overlap, sep, rest);
      }
    }
  }

  // ---------------------------------------------------------------- the bound is attained

  predicate Absent(text: string, seps: seq<string>) {
    forall s, i :: 0 <= s < |seps| && 0 <= i < |text| ==> !At(text, seps[s], i)
  }

  /** A level whose separator does not occur only adds its stitching. */
  lemma Unbroken(text: string, size: nat, overlap: int, seps: seq<string>)
    requires |text| > size && seps != [] && seps[0] != "" && Absent(text, seps[..Used(seps)])
    ensures Absent(text, seps[1..][..Used(seps[1..])])
    ensures SplitText(text, size, overlap, seps) == Stitch(SplitText(text, size, overlap, seps[1..]), overlap, seps[0])
  {
    var sep, rest := seps[0], seps[1..];
    assert forall i :: 0 <= i < |text| ==> !At(text, seps[..Used(seps)][0], i);
    assert Split(text, sep) == [text];
    forall s, i | 0 <= s < Used(rest) && 0 <= i < |text| ensures !At(text, rest[..Used(rest)][s], i) {
      assert rest[s] == seps[..Used(seps)][s + 1];
    }
    var inner := SplitText(text, size, overlap, rest);
    calc {
      Pack([text], [], "", size, overlap, sep, rest);
      { assert [text][1..] == []; }
      Pack([], [] + Flush("") + inner, "", size, overlap, sep, rest);
      inner;
    }
  }

  /** The first `j + 1` windows of the text are full ones. */
  predicate FullWindows(text: string, size: nat, overlap: nat, j: nat) {
    size + j * Max(1, size - overlap) <= |text|
  }

  /** Window `j` starts `j` steps on and is `size` long, or as long as the text; there is one for every start. */
  lemma {:induction false} WindowIs(text: string, size: nat, step: nat, i: nat, j: nat)
    requires step >= 1
    ensures j < |Windows(text, size, step, i)| <==> i + j * step < |text|
    ensures i + j * step < |text| ==>
              Windows(text, size, step, i)[j] == text[i + j * step..Min(i + j * step + size, |text|)]
    decreases j
  {
    if j == 0 {
      assert j * step == 0;
    } else {
      assert j * step == (j - 1) * step + step;
      MulMonotone(0, j, step);
      if i < |text| { WindowIs(text, size, step, i + step, j - 1); }
    }
  }

  lemma FullWindowAt(text: string, size: nat, overlap: nat, j: nat, k: nat)
    requires size >= 1 && FullWindows(text, size, overlap, j) && k <= j
    ensures var step := Max(1, size - overlap);
            && k * step + size <= |text| && |Windows(text, size, step, 0)| > k
            && Windows(text, size, step, 0)[k] == text[k * step..k * step + size]
  {
    var step := Max(1, size - overlap);
    assert k * step <= j * step by { MulMonotone(k, j, step); }
    WindowIs(text, size, step, 0, k);
  }

  /**
   * The bound is attained, at every overlap: an unbroken run is stitched once per separator, and from the
   * piece on that has as many predecessors as there are separators, the full windows give exactly the bound.
   */
  lemma {:induction false} BoundAttained(text: string, size: nat, overlap: nat, seps: seq<string>, j: nat, k: nat)
    requires size >= 1 && FullWindows(text, size, overlap, j) && |text| > size
    requires Used(seps) <= k <= j && Absent(text, seps[..Used(seps)])
    ensures var out := SplitText(text, size, overlap, seps); |out| > k && |out[k]| == Bound(size, overlap, seps)
    decreases |seps|
  {
    if seps == [] || seps[0] == "" {
      FullWindowAt(text, size, overlap, j, k);
    } else {
      var rest := seps[1..];
      Unbroken(text, size, overlap, seps);
      BoundAttained(text, size, overlap, rest, j, k - 1);
      BoundAttained(text, size, overlap, rest, j, k);
      if overlap > 0 { StitchAt(SplitText(text, size, overlap, rest), overlap, seps[0], k); }
    }
  }

  /** Separators the recursion reaches: those before the first empty one. */
  function Used(seps: seq<string>): (n: nat)
    ensures n <= |seps|
  {
    if seps == [] || seps[0] == "" then 0 else 1 + Used(seps[1..])
  }
}
