/** What neighbouring pieces share (app/ingest/chunker.py). */
module Overlap {
  import opened Numbers
  import opened Text
  import opened Chunker
  import opened Spans

  predicate SharedTail(p: string, q: string, n: nat) {
    n <= |p| && n <= |q| && q[..n] == p[|p| - n..]
  }

  /** At a separator level every later piece opens with the end of the piece before it. */
  lemma OverlapCarried(text: string, size: nat, overlap: nat, seps: seq<string>, cores: seq<Span>, k: nat)
    returns (n: nat)
    requires |text| > size && seps != [] && seps[0] != ""
    requires var pre := Pack(Split(text, seps[0]), [], "", size, overlap, seps[0], seps[1..]);
             Cored(text, pre, cores, size, overlap)
    requires 1 <= k < |cores|
    ensures var out := SplitText(text, size, overlap, seps);
            && |out| == |cores| && SharedTail(out[k - 1], out[k], n)
            && Min(overlap, cores[k - 1].hi - cores[k - 1].lo) <= n <= overlap
  {
    var pre := Pack(Split(text, seps[0]), [], "", size, overlap, seps[0], seps[1..]);
    assert CoreOf(text, pre[k - 1], cores[k - 1], size, overlap);
    n := StitchShares(pre, overlap, seps[0], k);
  }

  /** It is the end of the piece as it was before stitching. */
  lemma StitchOpens(pre: seq<string>, overlap: nat, sep: string, k: nat)
    requires 1 <= k < |pre|
    ensures SharedTail(pre[k - 1], Stitch(pre, overlap, sep)[k], Min(overlap, |pre[k - 1]|))
  {
    if overlap > 0 {
      assert Stitch(pre, overlap, sep)[k] == StitchedPiece(pre, k, overlap, sep);
      OpensWithTail(pre, overlap, sep, k, Min(overlap, |pre[k - 1]|));
    }
  }

  lemma StitchShares(pre: seq<string>, overlap: nat, sep: string, k: nat) returns (n: nat)
    requires 1 <= k < |pre|
    ensures n == Min(overlap, |pre[k - 1]|)
    ensures SharedTail(Stitch(pre, overlap, sep)[k - 1], Stitch(pre, overlap, sep)[k], n)
  {
    n := Min(overlap, |pre[k - 1]|);
    if overlap > 0 {
      var p, q := StitchedPiece(pre, k - 1, overlap, sep), StitchedPiece(pre, k, overlap, sep);
      assert Stitch(pre, overlap, sep)[k - 1] == p && Stitch(pre, overlap, sep)[k] == q;
      PiecesShare(pre, overlap, sep, k, n);
    }
  }

  lemma TailIs(prev: string, overlap: nat)
    ensures Tail(prev, overlap) == prev[|prev| - Min(overlap, |prev|)..]
  {
  }

  lemma PiecesShare(pre: seq<string>, overlap: nat, sep: string, k: nat, n: nat)
    requires 1 <= k < |pre| && n == Min(overlap, |pre[k - 1]|) && overlap > 0
    ensures SharedTail(StitchedPiece(pre, k - 1, overlap, sep), StitchedPiece(pre, k, overlap, sep), n)
  {
    EndsWithPre(pre, overlap, sep, k - 1, n);
    OpensWithTail(pre, overlap, sep, k, n);
  }

  lemma OpensWithTail(pre: seq<string>, overlap: nat, sep: string, k: nat, n: nat)
    requires 1 <= k < |pre| && n == Min(overlap, |pre[k - 1]|) && overlap > 0
    ensures var q := StitchedPiece(pre, k, overlap, sep); n <= |q| && q[..n] == pre[k - 1][|pre[k - 1]| - n..]
  {
    TailIs(pre[k - 1], overlap);
    PrefixOf(Tail(pre[k - 1], overlap), sep, pre[k]);
  }

  lemma EndsWithPre(pre: seq<string>, overlap: nat, sep: string, k: nat, n: nat)
    requires k < |pre| && n <= |pre[k]|
    ensures var p := StitchedPiece(pre, k, overlap, sep); |p| >= n && p[|p| - n..] == pre[k][|pre[k]| - n..]
  {
    if k > 0 {
      SuffixOf(Tail(pre[k - 1], overlap) + sep, pre[k], n);
    }
  }

  lemma PrefixOf(a: string, b: string, c: string)
    ensures (a + b + c)[..|a|] == a
  {
  }

  lemma SuffixOf(a: string, b: string, n: nat)
    requires n <= |b|
    ensures (a + b)[|a + b| - n..] == b[|b| - n..]
  {
  }
}
