/**
 * When the chunker loses characters: a negative overlap leaves gaps between the windows, and it
 * does so exactly on pages whose splitting reaches the windows.
 */
module Coverage {
  import opened Numbers
  import opened Sets
  import opened Text
  import opened Chunker
  import opened Lengths
  import opened Spans
  import opened Cores

  // ---------------------------------------------------------------- counting characters

  function TotalLength(pieces: seq<string>): nat {
    if pieces == [] then 0 else |pieces[0]| + TotalLength(pieces[1..])
  }

  lemma {:induction false} TotalAppend(a: seq<string>, b: seq<string>)
    ensures TotalLength(a + b) == TotalLength(a) + TotalLength(b)
  {
    if a == [] {
      assert a + b == b;
    } else {
      TotalAppend(a[1..], b);
      assert (a + b)[1..] == a[1..] + b;
    }
  }

  ghost function CoveredSet(cores: seq<Span>, n: nat): set<int> {
    set k | 0 <= k < n && Covered(cores, k)
  }

  function Range(lo: nat, hi: nat): (r: set<int>)
    requires lo <= hi
    ensures |r| == hi - lo && forall k :: k in r <==> lo <= k < hi
  {
    if lo == hi then {} else Range(lo, hi - 1) + {hi - 1}
  }

  lemma CoveredFirst(cores: seq<Span>, n: nat)
    requires cores != [] && cores[0].lo <= cores[0].hi <= n
    ensures CoveredSet(cores, n) == Range(cores[0].lo, cores[0].hi) + CoveredSet(cores[1..], n)
  {
    forall k | 0 <= k < n
      ensures Covered(cores, k) <==> k in Range(cores[0].lo, cores[0].hi) || Covered(cores[1..], k)
    {
      if Covered(cores[1..], k) {
        CoveredMore(cores[1..], [cores[0]], k);
        assert [cores[0]] + cores[1..] == cores;
      }
      if Covered(cores, k) {
        var i :| 0 <= i < |cores| && cores[i].lo <= k < cores[i].hi;
        if i > 0 { assert cores[1..][i - 1] == cores[i]; }
      }
      if k in Range(cores[0].lo, cores[0].hi) { assert cores[0].lo <= k < cores[0].hi; }
    }
  }

  lemma CoredTail(text: string, pieces: seq<string>, cores: seq<Span>, size: nat, overlap: int)
    requires Cored(text, pieces, cores, size, overlap) && pieces != []
    ensures Cored(text, pieces[1..], cores[1..], size, overlap)
  {
    forall k | 0 <= k < |cores| - 1 ensures CoreOf(text, pieces[1..][k], cores[1..][k], size, overlap) {
      assert CoreOf(text, pieces[k + 1], cores[k + 1], size, overlap);
    }
  }

  /** Without overlap the pieces are disjoint stretches: their total length is the number of characters kept. */
  lemma {:induction false} CoveredCount(text: string, pieces: seq<string>, cores: seq<Span>, size: nat, overlap: int)
    requires overlap <= 0 && Cored(text, pieces, cores, size, overlap)
    ensures |CoveredSet(cores, |text|)| == TotalLength(pieces)
  {
    if pieces == [] {
      assert CoveredSet(cores, |text|) == {};
    } else {
      var c := cores[0];
      assert CoreOf(text, pieces[0], c, size, overlap);
      CoredTail(text, pieces, cores, size, overlap);
      CoveredCount(text, pieces[1..], cores[1..], size, overlap);
      CoveredFirst(cores, |text|);
      FirstApart(cores, |text|, overlap);
    }
  }

  lemma FirstApart(cores: seq<Span>, n: nat, overlap: int)
    requires overlap <= 0 && cores != [] && cores[0].lo <= cores[0].hi && Ordered(cores, overlap)
    ensures Range(cores[0].lo, cores[0].hi) !! CoveredSet(cores[1..], n)
  {
    forall k | Covered(cores[1..], k) ensures cores[0].hi <= k {
      var i :| 0 <= i < |cores[1..]| && cores[1..][i].lo <= k < cores[1..][i].hi;
      assert cores[1..][i] == cores[i + 1];
    }
  }

  /** Fewer characters in all: some character is lost, wherever the pieces are placed. */
  lemma FewerLose(text: string, fewer: seq<string>, cores: seq<Span>, overlap: int,
                  more: seq<string>, moreCores: seq<Span>, size: nat)
    returns (k: nat)
    requires overlap <= 0 && TotalLength(fewer) < TotalLength(more)
    requires Cored(text, fewer, cores, size, overlap) && Cored(text, more, moreCores, size, 0)
    ensures k < |text| && Covered(moreCores, k) && !Covered(cores, k)
  {
    CoveredCount(text, fewer, cores, size, overlap);
    CoveredCount(text, more, moreCores, size, 0);
    var few, many := CoveredSet(cores, |text|), CoveredSet(moreCores, |text|);
    if many <= few { SubsetSize(many, few); }
    k :| k in many && k !in few;
  }

  // ---------------------------------------------------------------- pages that reach the windows

  /** Splitting comes down to the windows on something longer than `size`. */
  predicate ReachesWindows(text: string, size: nat, seps: seq<string>)
    decreases |seps|, 0
  {
    |text| > size && (seps == [] || seps[0] == "" || SomeReaches(Split(text, seps[0]), size, seps[1..]))
  }

  predicate SomeReaches(parts: seq<string>, size: nat, rest: seq<string>)
    decreases |rest|, 1 + |parts|
  {
    parts != [] && (ReachesWindows(parts[0], size, rest) || SomeReaches(parts[1..], size, rest))
  }

  lemma {:induction false} GappedWindows(text: string, size: nat, step: nat, i: nat)
    requires step > size && i <= |text|
    ensures TotalLength(Windows(text, size, step, i)) <= |text| - i
    ensures |text| - i > size ==> TotalLength(Windows(text, size, step, i)) < |text| - i
    decreases |text| - i
  {
    if i < |text| {
      var next := Windows(text, size, step, i + step);
      assert ([text[i..Min(i + size, |text|)]] + next)[1..] == next;
      if i + step <= |text| { GappedWindows(text, size, step, i + step); }
    }
  }

  lemma {:induction false} WindowsTotal(text: string, size: nat, step: nat, i: nat)
    requires 1 <= step <= size && i <= |text|
    ensures TotalLength(Windows(text, size, step, i)) >= |text| - i
    decreases |text| - i
  {
    if i < |text| {
      var next := Windows(text, size, step, i + step);
      assert ([text[i..Min(i + size, |text|)]] + next)[1..] == next;
      if i + step <= |text| { WindowsTotal(text, size, step, i + step); }
    }
  }

  lemma {:induction false} SplitShrinks(text: string, size: nat, overlap: int, seps: seq<string>)
    requires size >= 1 && overlap < 0 && ReachesWindows(text, size, seps)
    ensures TotalLength(SplitText(text, size, overlap, seps)) < TotalLength(SplitText(text, size, 0, seps))
    decreases |seps|, 0
  {
    if seps == [] || seps[0] == "" {
      GappedWindows(text, size, size - overlap, 0);
      WindowsTotal(text, size, size, 0);
    } else {
      PackShrinks(Split(text, seps[0]), [], [], "", size, overlap, seps[0], seps[1..]);
    }
  }

  lemma {:induction false} SplitSame(text: string, size: nat, overlap: int, seps: seq<string>)
    requires overlap < 0 && !ReachesWindows(text, size, seps)
    ensures SplitText(text, size, overlap, seps) == SplitText(text, size, 0, seps)
    decreases |seps|, 0
  {
    if |text| > size {
      PackSame(Split(text, seps[0]), [], "", size, overlap, seps[0], seps[1..]);
    }
  }

  lemma {:induction false} PackSame(parts: seq<string>, out: seq<string>, buf: string,
                                    size: nat, overlap: int, sep: string, rest: seq<string>)
    requires overlap < 0 && !SomeReaches(parts, size, rest)
    ensures Pack(parts, out, buf, size, overlap, sep, rest) == Pack(parts, out, buf, size, 0, sep, rest)
    decreases |rest|, 1 + |parts|
  {
    if parts != [] {
      var part := parts[0];
      if |Candidate(buf, sep, part)| <= size {
        PackSame(parts[1..], out, Candidate(buf, sep, part), size, overlap, sep, rest);
      } else if |part| > size {
        SplitSame(part, size, overlap, rest);
        PackSame(parts[1..], out + Flush(buf) + SplitText(part, size, 0, rest), "", size, overlap, sep, rest);
      } else {
        PackSame(parts[1..], out + Flush(buf), part, size, overlap, sep, rest);
      }
    }
  }

  /** `less` and `out` are what has been emitted with the negative overlap and without. */
  lemma {:induction false} PackShrinks(parts: seq<string>, less: seq<string>, out: seq<string>, buf: string,
                                       size: nat, overlap: int, sep: string, rest: seq<string>)
    requires size >= 1 && overlap < 0 && TotalLength(less) <= TotalLength(out)
    ensures var few := TotalLength(Pack(parts, less, buf, size, overlap, sep, rest));
            var all := TotalLength(Pack(parts, out, buf, size, 0, sep, rest));
            few <= all && (TotalLength(less) < TotalLength(out) || SomeReaches(parts, size, rest) ==> few < all)
    decreases |rest|, 1 + |parts|
  {
    TotalAppend(less, Flush(buf));
    TotalAppend(out, Flush(buf));
    if parts != [] {
      var part := parts[0];
      if |part| <= size { ReachesFirst(parts, size, rest); }
      if |Candidate(buf, sep, part)| <= size {
        PackShrinks(parts[1..], less, out, Candidate(buf, sep, part), size, overlap, sep, rest);
      } else if |part| > size {
        PackShrinksOversized(parts, less + Flush(buf), out + Flush(buf), size, overlap, sep, rest);
      } else {
        PackShrinks(parts[1..], less + Flush(buf), out + Flush(buf), part, size, overlap, sep, rest);
      }
    }
  }

  lemma ReachesFirst(parts: seq<string>, size: nat, rest: seq<string>)
    requires parts != [] && |parts[0]| <= size
    ensures SomeReaches(parts, size, rest) == SomeReaches(parts[1..], size, rest)
  {
  }

  lemma {:induction false} PackShrinksOversized(parts: seq<string>, less: seq<string>, out: seq<string>,
                                                size: nat, overlap: int, sep: string, rest: seq<string>)
    requires size >= 1 && overlap < 0 && TotalLength(less) <= TotalLength(out) && parts != [] && |parts[0]| > size
    ensures var few := TotalLength(Pack(parts[1..], less + SplitText(parts[0], size, overlap, rest), "",
                                        size, overlap, sep, rest));
            var all := TotalLength(Pack(parts[1..], out + SplitText(parts[0], size, 0, rest), "", size, 0, sep, rest));
            few <= all && (TotalLength(less) < TotalLength(out) || SomeReaches(parts, size, rest) ==> few < all)
    decreases |rest|, 1 + |parts|, 0
  {
    var part := parts[0];
    var few, all := SplitText(part, size, overlap, rest), SplitText(part, size, 0, rest);
    if ReachesWindows(part, size, rest) {
      SplitShrinks(part, size, overlap, rest);
    } else {
      SplitSame(part, size, overlap, rest);
    }
    TotalAppend(less, few);
    TotalAppend(out, all);
    PackShrinks(parts[1..], less + few, out + all, "", size, overlap, sep, rest);
  }

  // ---------------------------------------------------------------- exactly when characters are lost

  /** Wherever the pieces stand in the page, some character that a zero overlap keeps is in none of them. */
  ghost predicate LosesCharacters(text: string, size: nat, overlap: int, seps: seq<string>) {
    forall cores, full ::
      Cored(text, SplitText(text, size, overlap, seps), cores, size, overlap) &&
      Cored(text, SplitText(text, size, 0, seps), full, size, 0) ==>
        exists k :: 0 <= k < |text| && Covered(full, k) && !Covered(cores, k)
  }

  /**
   * Main result: a negative overlap loses characters if and only if splitting the page reaches the windows.
   * Otherwise the pieces are those of a zero overlap, which loses nothing but separators (`SplitCores`).
   */
  lemma NegativeOverlapLosesIff(text: string, size: nat, overlap: int, seps: seq<string>)
    requires text != "" && size >= 1 && overlap < 0
    ensures LosesCharacters(text, size, overlap, seps) <==> ReachesWindows(text, size, seps)
    ensures !ReachesWindows(text, size, seps) ==>
              SplitText(text, size, overlap, seps) == SplitText(text, size, 0, seps)
  {
    var few, all := SplitText(text, size, overlap, seps), SplitText(text, size, 0, seps);
    if ReachesWindows(text, size, seps) {
      SplitShrinks(text, size, overlap, seps);
      forall cores, full | Cored(text, few, cores, size, overlap) && Cored(text, all, full, size, 0)
        ensures exists k :: 0 <= k < |text| && Covered(full, k) && !Covered(cores, k)
      {
        var k := FewerLose(text, few, cores, overlap, all, full, size);
      }
    } else {
      SplitSame(text, size, overlap, seps);
      var full := SplitCores(text, size, 0, seps);
      CoredAnyNegative(text, all, full, size, overlap);
    }
  }

  lemma CoredAnyNegative(text: string, pieces: seq<string>, cores: seq<Span>, size: nat, overlap: int)
    requires overlap < 0 && Cored(text, pieces, cores, size, 0)
    ensures Cored(text, pieces, cores, size, overlap)
  {
    forall k | 0 <= k < |cores| ensures CoreOf(text, pieces[k], cores[k], size, overlap) {
      assert CoreOf(text, pieces[k], cores[k], size, 0);
    }
  }

  // ---------------------------------------------------------------- long unbroken runs

  ghost predicate CoversAll(text: string, cores: seq<Span>) {
    forall k :: 0 <= k < |text| ==> Covered(cores, k)
  }

  ghost predicate KeepsEverything(text: string, size: nat, overlap: int, seps: seq<string>) {
    exists cores :: Cored(text, SplitText(text, size, overlap, seps), cores, size, overlap) && CoversAll(text, cores)
  }

  lemma {:induction false} UnbrokenCores(text: string, size: nat, overlap: nat, seps: seq<string>)
    returns (cores: seq<Span>)
    requires size >= 1 && |text| > size && Absent(text, seps[..Used(seps)])
    ensures Cored(text, SplitText(text, size, overlap, seps), cores, size, overlap) && CoversAll(text, cores)
  {
    if seps == [] || seps[0] == "" {
      cores := WindowCores(text, size, overlap, Max(1, size - overlap), 0);
    } else {
      Unbroken(text, size, overlap, seps);
      cores := UnbrokenCores(text, size, overlap, seps[1..]);
      StitchCored(text, SplitText(text, size, overlap, seps[1..]), cores, size, overlap, seps[0]);
    }
  }

  lemma {:induction false} UnbrokenReaches(text: string, size: nat, seps: seq<string>)
    requires |text| > size && Absent(text, seps[..Used(seps)])
    ensures ReachesWindows(text, size, seps)
  {
    if seps != [] && seps[0] != "" {
      Unbroken(text, size, 0, seps);
      UnbrokenReaches(text, size, seps[1..]);
      UnbrokenIsOnePart(text, seps);
      OneReaches(text, size, seps[1..]);
    }
  }

  lemma UnbrokenIsOnePart(text: string, seps: seq<string>)
    requires seps != [] && seps[0] != "" && Absent(text, seps[..Used(seps)])
    ensures Split(text, seps[0]) == [text]
  {
    assert seps[0] == seps[..Used(seps)][0];
    SplitAbsent(text, seps[0]);
  }

  lemma SplitAbsent(text: string, sep: string)
    requires sep != "" && forall i :: 0 <= i < |text| ==> !At(text, sep, i)
    ensures Split(text, sep) == [text]
  {
  }

  lemma OneReaches(text: string, size: nat, rest: seq<string>)
    requires ReachesWindows(text, size, rest)
    ensures SomeReaches([text], size, rest)
  {
  }

  /** A long unbroken run keeps every one of its characters if and only if the overlap is not negative. */
  lemma UnbrokenRunKeptIff(text: string, size: nat, overlap: int, seps: seq<string>)
    requires size >= 1 && |text| > size && Absent(text, seps[..Used(seps)])
    ensures KeepsEverything(text, size, overlap, seps) <==> overlap >= 0
  {
    if overlap >= 0 {
      var cores := UnbrokenCores(text, size, overlap, seps);
    } else {
      UnbrokenReaches(text, size, seps);
      NegativeOverlapLosesIff(text, size, overlap, seps);
      var full := SplitCores(text, size, 0, seps);
    }
  }
}
