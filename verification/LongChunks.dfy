/** Exactly when the extractor's cut (app/ingest/graph_extract.py) can shorten a chunk. */
module LongChunks {
  import opened Numbers
  import opened Text
  import opened Chunker
  import opened Extract
  import opened Lengths
  import opened Pages

  ghost predicate NeverCut(size: nat, overlap: nat, seps: seq<string>) {
    forall pages, c :: c in OfPages(pages, size, overlap, seps) ==> Extracted(c.text) == c.text
  }

  const LETTER := 'x'

  predicate AllLetters(s: string) {
    forall k :: 0 <= k < |s| ==> s[k] == LETTER
  }

  /** The last `n` characters are letters. */
  predicate LettersLast(s: string, n: nat) {
    |s| >= n && forall k :: |s| - n <= k < |s| ==> s[k] == LETTER
  }

  predicate LetterEnds(s: string) {
    s != "" && s[0] == LETTER && s[|s| - 1] == LETTER
  }

  // ---------------------------------------------------------------- the pieces of one long word

  lemma WindowLetters(text: string, size: nat, overlap: nat, j: nat, k: nat)
    requires size >= 1 && FullWindows(text, size, overlap, j) && k <= j && AllLetters(text)
    ensures var out := Windows(text, size, Max(1, size - overlap), 0);
            |out| > k && AllLetters(out[k]) && |out[k]| == size
  {
    FullWindowAt(text, size, overlap, j, k);
  }

  lemma JoinedLast(front: string, s: string, n: nat)
    requires LettersLast(s, n)
    ensures LettersLast(front + s, n)
  {
  }

  /** Every piece of a full window ends with that window. */
  lemma {:induction false} PieceLast(text: string, size: nat, overlap: nat, seps: seq<string>, j: nat, k: nat)
    requires size >= 1 && FullWindows(text, size, overlap, j) && |text| > size && k <= j
    requires Absent(text, seps[..Used(seps)]) && AllLetters(text)
    ensures var out := SplitText(text, size, overlap, seps); |out| > k && LettersLast(out[k], size)
    decreases |seps|
  {
    if seps == [] || seps[0] == "" {
      WindowLetters(text, size, overlap, j, k);
    } else {
      Unbroken(text, size, overlap, seps);
      PieceLast(text, size, overlap, seps[1..], j, k);
      var inner := SplitText(text, size, overlap, seps[1..]);
      if overlap > 0 && k > 0 {
        StitchAt(inner, overlap, seps[0], k);
        JoinedLast(Tail(inner[k - 1], overlap) + seps[0], inner[k], size);
      } else if overlap > 0 && |inner| > 1 {
        StitchFirst(inner, overlap, seps[0]);
      }
    }
  }

  lemma TailFirst(prev: string, overlap: nat, size: nat)
    requires 1 <= overlap && size >= 1 && LettersLast(prev, size)
    requires overlap <= size || (overlap >= |prev| && prev[0] == LETTER)
    ensures Tail(prev, overlap) != "" && Tail(prev, overlap)[0] == LETTER
  {
  }

  lemma EndsJoin(a: string, b: string, c: string, size: nat)
    requires a != "" && a[0] == LETTER && size >= 1 && LettersLast(c, size)
    ensures LetterEnds(a + b + c)
  {
    JoinedLast(a + b, c, size);
  }

  /** The overlap ends inside a window, or takes in the whole piece before. */
  predicate Clean(size: nat, overlap: nat, seps: seq<string>) {
    overlap <= size || seps == [] || seps[0] == "" || overlap >= Bound(size, overlap, seps[1..])
  }

  lemma CleanInside(size: nat, overlap: nat, seps: seq<string>)
    requires Clean(size, overlap, seps) && seps != [] && seps[0] != ""
    ensures Clean(size, overlap, seps[1..])
  {
  }

  lemma {:induction false} PieceEnds(text: string, size: nat, overlap: nat, seps: seq<string>, j: nat, k: nat)
    requires size >= 1 && FullWindows(text, size, overlap, j) && |text| > size && Used(seps) <= k <= j
    requires Absent(text, seps[..Used(seps)]) && AllLetters(text) && Clean(size, overlap, seps)
    ensures var out := SplitText(text, size, overlap, seps); |out| > k && LetterEnds(out[k])
    decreases |seps|
  {
    if seps == [] || seps[0] == "" {
      WindowLetters(text, size, overlap, j, k);
    } else {
      var rest := seps[1..];
      Unbroken(text, size, overlap, seps);
      CleanInside(size, overlap, seps);
      PieceEnds(text, size, overlap, rest, j, k - 1);
      PieceEnds(text, size, overlap, rest, j, k);
      if overlap > 0 {
        LengthBound(text, size, overlap, rest);
        PieceLast(text, size, overlap, rest, j, k - 1);
        PieceLast(text, size, overlap, rest, j, k);
        StitchedEnds(SplitText(text, size, overlap, rest), overlap, seps[0], k, size);
      }
    }
  }

  lemma StitchedEnds(inner: seq<string>, overlap: nat, sep: string, k: nat, size: nat)
    requires 1 <= k < |inner| && overlap >= 1 && size >= 1
    requires LettersLast(inner[k - 1], size) && LettersLast(inner[k], size)
    requires overlap <= size || (overlap >= |inner[k - 1]| && LetterEnds(inner[k - 1]))
    ensures LetterEnds(Stitch(inner, overlap, sep)[k])
  {
    StitchAt(inner, overlap, sep, k);
    TailFirst(inner[k - 1], overlap, size);
    EndsJoin(Tail(inner[k - 1], overlap), sep, inner[k], size);
  }

  lemma StripKeeps(s: string)
    requires LetterEnds(s)
    ensures Strip(s) == s
  {
  }

  /** A page that is one long word has a chunk of exactly the bound's length. */
  lemma LongestChunk(text: string, size: nat, overlap: nat, seps: seq<string>, j: nat) returns (c: Chunk)
    requires size >= 1 && FullWindows(text, size, overlap, j) && |text| > size && j == Used(seps)
    requires Absent(text, seps[..Used(seps)]) && AllLetters(text) && Clean(size, overlap, seps)
    ensures c in OfPages([Page(1, text)], size, overlap, seps) && |c.text| == Bound(size, overlap, seps)
  {
    var page := Page(1, text);
    BoundAttained(text, size, overlap, seps, j, j);
    PieceEnds(text, size, overlap, seps, j, j);
    StripKeeps(text);
    var pieces := SplitText(text, size, overlap, seps);
    StripKeeps(pieces[j]);
    c := Chunk(j, 1, pieces[j]);
    OnePage(page, size, overlap, seps);
    assert OfPage(page, size, overlap, seps, 0)[j] == c;
  }

  lemma OnePage(page: Page, size: nat, overlap: nat, seps: seq<string>)
    ensures OfPages([page], size, overlap, seps) == OfPage(page, size, overlap, seps, 0)
  {
    assert [page][..0] == [];
    assert OfPages([], size, overlap, seps) == [];
  }

  lemma LettersAbsent(text: string, seps: seq<string>)
    requires AllLetters(text) && forall s :: 0 <= s < |seps| ==> seps[s] != "" && seps[s][0] != LETTER
    ensures Absent(text, seps)
  {
    forall s, i | 0 <= s < |seps| && 0 <= i < |text| ensures !At(text, seps[s], i) {
      if i + |seps[s]| <= |text| { assert text[i..i + |seps[s]|][0] == text[i]; }
    }
  }

  // ---------------------------------------------------------------- the cut

  /** No separator starts with the letter. */
  predicate Foreign(seps: seq<string>) {
    forall s :: 0 <= s < Used(seps) ==> seps[s] != "" && seps[s][0] != LETTER
  }

  /**
   * The extractor reads every chunk of every document whole if and only if the bound stays below its cut,
   * at no overlap, at overlaps up to `size`, and at overlaps that take in whole pieces.
   */
  lemma ExtractorSeesAllIff(size: nat, overlap: nat, seps: seq<string>)
    requires size >= 1 && Clean(size, overlap, seps) && Foreign(seps)
    ensures NeverCut(size, overlap, seps) <==> Bound(size, overlap, seps) <= EXTRACT_CUT
  {
    if Bound(size, overlap, seps) <= EXTRACT_CUT {
      WithinNeverCut(size, overlap, seps);
    } else {
      var pages, c := CutSomewhere(size, overlap, seps);
    }
  }

  lemma WithinNeverCut(size: nat, overlap: nat, seps: seq<string>)
    requires Bound(size, overlap, seps) <= EXTRACT_CUT
    ensures NeverCut(size, overlap, seps)
  {
    forall pages, c | c in OfPages(pages, size, overlap, seps) ensures Extracted(c.text) == c.text {
      ExtractorSeesWholeChunk(pages, size, overlap, seps, c);
    }
  }

  lemma LongWord(size: nat, overlap: nat, j: nat) returns (text: string)
    ensures AllLetters(text) && FullWindows(text, size, overlap, j) && |text| > size
  {
    var more := j * Max(1, size - overlap);
    assert more >= 0;
    text := seq(size + 1 + more, _ => LETTER);
  }

  lemma CutSomewhere(size: nat, overlap: nat, seps: seq<string>) returns (pages: seq<Page>, c: Chunk)
    requires size >= 1 && Clean(size, overlap, seps) && Foreign(seps) && Bound(size, overlap, seps) > EXTRACT_CUT
    ensures c in OfPages(pages, size, overlap, seps) && Extracted(c.text) != c.text
  {
    var j := Used(seps);
    var text := LongWord(size, overlap, j);
    LettersAbsent(text, seps[..j]);
    c := LongestChunk(text, size, overlap, seps, j);
    pages := [Page(1, text)];
    assert |Extracted(c.text)| < |c.text|;
  }

  lemma DefaultForeign(seps: seq<string>)
    requires seps == DEFAULT_SEPARATORS
    ensures Foreign(seps)
  {
    forall s | 0 <= s < Used(seps) ensures seps[s] != "" && seps[s][0] != LETTER { UsedNotEmpty(seps, s); }
  }

  lemma {:induction false} UsedNotEmpty(seps: seq<string>, s: nat)
    requires s < Used(seps)
    ensures seps[s] != ""
  {
    if s > 0 { UsedNotEmpty(seps[1..], s - 1); }
  }

  /** The same with the shipped separators, in numbers. */
  lemma DefaultSeesAllIff(size: nat, overlap: nat, seps: seq<string>)
    requires size >= 1 && seps == DEFAULT_SEPARATORS
    ensures overlap == 0 ==> (NeverCut(size, overlap, seps) <==> size <= EXTRACT_CUT)
    ensures 1 <= overlap <= size ==> (NeverCut(size, overlap, seps) <==> size + 4 * overlap + 6 <= EXTRACT_CUT)
    ensures overlap >= 8 * size + 9 ==> (NeverCut(size, overlap, seps) <==> 16 * size + 20 <= EXTRACT_CUT)
    ensures Bound(size, overlap, seps) <= EXTRACT_CUT ==> NeverCut(size, overlap, seps)
  {
    DefaultBound(size, overlap, seps);
    DefaultForeign(seps);
    if Clean(size, overlap, seps) { ExtractorSeesAllIff(size, overlap, seps); }
    if Bound(size, overlap, seps) <= EXTRACT_CUT { WithinNeverCut(size, overlap, seps); }
  }
}
