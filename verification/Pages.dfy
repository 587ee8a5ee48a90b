/** Chunking of whole documents: `chunk_pages` (app/ingest/chunker.py). */
module Pages {
  import opened Numbers
  import opened Text
  import opened Chunker
  import opened Extract
  import opened Lengths
  import opened Spans
  import opened Cores

  datatype Chunk = Chunk(index: nat, pageNumber: int, text: string)
  datatype Page = Page(number: int, text: string)

  /** The chunks of one page, numbered from `idx`. A blank page has none. */
  function OfPage(page: Page, size: nat, overlap: int, seps: seq<string>, idx: nat): seq<Chunk> {
    if Strip(page.text) == "" then []
    else
      var pieces := SplitText(page.text, size, overlap, seps);
      seq(|pieces|, k requires 0 <= k < |pieces| => Chunk(idx + k, page.number, Strip(pieces[k])))
  }

  function OfPages(pages: seq<Page>, size: nat, overlap: int, seps: seq<string>): seq<Chunk> {
    if pages == [] then []
    else
      var before := OfPages(pages[..|pages| - 1], size, overlap, seps);
      before + OfPage(pages[|pages| - 1], size, overlap, seps, |before|)
  }

  method AddPieces(chunks: seq<Chunk>, page: Page, pieces: seq<string>) returns (extended: seq<Chunk>, idx: nat)
    ensures |extended| == |chunks| + |pieces| == idx && extended[..|chunks|] == chunks
    ensures forall k :: 0 <= k < |pieces| ==>
              extended[|chunks| + k] == Chunk(|chunks| + k, page.number, Strip(pieces[k]))
  {
    extended, idx := chunks, |chunks|;
    for k := 0 to |pieces|
      invariant |extended| == |chunks| + k == idx && extended[..|chunks|] == chunks
      invariant forall j :: 0 <= j < k ==> extended[|chunks| + j] == Chunk(|chunks| + j, page.number, Strip(pieces[j]))
    {
      extended := extended + [Chunk(idx, page.number, Strip(pieces[k]))];
      idx := idx + 1;
    }
  }

  /** One round of the loop over the pages. */
  method AddPage(chunks: seq<Chunk>, page: Page, size: nat, overlap: int, seps: seq<string>)
    returns (extended: seq<Chunk>, idx: nat)
    ensures extended == chunks + OfPage(page, size, overlap, seps, |chunks|) && idx == |extended|
  {
    if Strip(page.text) == "" { return chunks, |chunks|; }
    var pieces := RecursiveSplit(page.text, size, overlap, seps);
    extended, idx := AddPieces(chunks, page, pieces);
    assert extended[|chunks|..] == OfPage(page, size, overlap, seps, |chunks|);
  }

  lemma NextPage(pages: seq<Page>, size: nat, overlap: int, seps: seq<string>, p: nat)
    requires p < |pages|
    ensures var before := OfPages(pages[..p], size, overlap, seps);
            OfPages(pages[..p + 1], size, overlap, seps) == before + OfPage(pages[p], size, overlap, seps, |before|)
  {
    assert pages[..p + 1][..p] == pages[..p];
  }

  method ChunkPages(pages: seq<Page>, size: nat, overlap: int, seps: seq<string>) returns (chunks: seq<Chunk>)
    ensures chunks == OfPages(pages, size, overlap, seps)
  {
    chunks := [];
    var idx := 0;
    for p := 0 to |pages|
      invariant chunks == OfPages(pages[..p], size, overlap, seps) && idx == |chunks|
    {
      NextPage(pages, size, overlap, seps, p);
      chunks, idx := AddPage(chunks, pages[p], size, overlap, seps);
    }
    assert pages[..|pages|] == pages;
  }

  // ---------------------------------------------------------------- numbering and length

  predicate IsPageNumber(pages: seq<Page>, number: int) {
    exists p :: 0 <= p < |pages| && number == pages[p].number
  }

  predicate Numbered(pages: seq<Page>, chunks: seq<Chunk>) {
    forall k :: 0 <= k < |chunks| ==> chunks[k].index == k && IsPageNumber(pages, chunks[k].pageNumber)
  }

  /** Indexes run 0, 1, 2, ... over the whole document, and every chunk names one of its pages. */
  lemma {:induction false} Numbering(pages: seq<Page>, size: nat, overlap: int, seps: seq<string>)
    ensures Numbered(pages, OfPages(pages, size, overlap, seps))
  {
    if pages != [] {
      var init := pages[..|pages| - 1];
      Numbering(init, size, overlap, seps);
      var chunks, before := OfPages(pages, size, overlap, seps), OfPages(init, size, overlap, seps);
      forall k | 0 <= k < |chunks|
        ensures IsPageNumber(pages, chunks[k].pageNumber)
      {
        if k < |before| {
          assert chunks[k] == before[k];
          var p :| 0 <= p < |init| && before[k].pageNumber == init[p].number;
          assert chunks[k].pageNumber == pages[p].number;
        } else {
          assert chunks[k].pageNumber == pages[|pages| - 1].number;
        }
      }
    }
  }

  /** The pieces of the pages that are not blank. */
  ghost function PieceCount(pages: seq<Page>, size: nat, overlap: int, seps: seq<string>): nat {
    if pages == [] then 0
    else
      var last := pages[|pages| - 1];
      PieceCount(pages[..|pages| - 1], size, overlap, seps)
      + if Blank(last.text) then 0 else |SplitText(last.text, size, overlap, seps)|
  }

  lemma {:induction false} ChunkCount(pages: seq<Page>, size: nat, overlap: int, seps: seq<string>)
    ensures |OfPages(pages, size, overlap, seps)| == PieceCount(pages, size, overlap, seps)
  {
    if pages != [] {
      ChunkCount(pages[..|pages| - 1], size, overlap, seps);
      StripEmptyIff(pages[|pages| - 1].text);
    }
  }

  /** `text` is the piece without the white space at its ends. */
  ghost predicate Trims(piece: string, text: string) {
    exists lo: nat, hi: nat :: TrimsAt(piece, text, lo, hi)
  }

  ghost predicate TrimsAt(piece: string, text: string, lo: nat, hi: nat) {
    && lo <= hi <= |piece| && text == piece[lo..hi]
    && (forall k :: 0 <= k < lo || hi <= k < |piece| ==> IsSpace(piece[k]))
    && (lo < hi ==> !IsSpace(piece[lo]) && !IsSpace(piece[hi - 1]))
  }

  /** The chunk is piece `j` of the page, trimmed. */
  ghost predicate IsPiece(page: Page, size: nat, overlap: int, seps: seq<string>, chunk: Chunk, j: nat) {
    && !Blank(page.text) && chunk.pageNumber == page.number && j < |SplitText(page.text, size, overlap, seps)|
    && Trims(SplitText(page.text, size, overlap, seps)[j], chunk.text)
  }

  /** Each chunk is one piece of one page that is not blank, trimmed, in the order of pages and pieces. */
  lemma {:induction false} ChunkOrigin(pages: seq<Page>, size: nat, overlap: int, seps: seq<string>, k: nat)
    returns (p: nat, j: nat)
    requires k < |OfPages(pages, size, overlap, seps)|
    ensures p < |pages| && IsPiece(pages[p], size, overlap, seps, OfPages(pages, size, overlap, seps)[k], j)
    ensures k == PieceCount(pages[..p], size, overlap, seps) + j
  {
    var n := |pages| - 1;
    var init, last := pages[..n], pages[n];
    var before := OfPages(init, size, overlap, seps);
    if k < |before| {
      p, j := ChunkOrigin(init, size, overlap, seps, k);
      assert init[..p] == pages[..p];
    } else {
      ChunkCount(init, size, overlap, seps);
      p, j := n, k - |before|;
      PageOrigin(last, size, overlap, seps, |before|, j);
    }
  }

  lemma PageOrigin(page: Page, size: nat, overlap: int, seps: seq<string>, idx: nat, j: nat)
    requires j < |OfPage(page, size, overlap, seps, idx)|
    ensures IsPiece(page, size, overlap, seps, OfPage(page, size, overlap, seps, idx)[j], j)
  {
    StripEmptyIff(page.text);
    StripTrims(SplitText(page.text, size, overlap, seps)[j]);
  }

  lemma StripTrims(piece: string)
    ensures Trims(piece, Strip(piece))
  {
    var lo, hi := StripCut(piece);
    assert TrimsAt(piece, Strip(piece), lo, hi);
  }

  /** The bound for the shipped separators, and for those after the first. */
  lemma DefaultBound(size: nat, overlap: nat, seps: seq<string>)
    requires seps == DEFAULT_SEPARATORS
    ensures Bound(size, overlap, seps) <= size + 4 * overlap + 6
    ensures overlap == 0 ==> Bound(size, overlap, seps) == size
    ensures 1 <= overlap <= size ==> Bound(size, overlap, seps) == size + 4 * overlap + 6
    ensures overlap >= 8 * size + 9 ==>
              Bound(size, overlap, seps[1..]) == 8 * size + 9 && Bound(size, overlap, seps) == 16 * size + 20
  {
    var s1, s2, s3, s4 := DefaultTails(seps);
    assert Bound(size, overlap, s4) == size;
    BoundStep(size, overlap, s3);
    BoundStep(size, overlap, s2);
    BoundStep(size, overlap, s1);
    BoundStep(size, overlap, seps);
  }

  /** The lengths of the shipped separators, one after the other. */
  lemma DefaultTails(seps: seq<string>)
    returns (s1: seq<string>, s2: seq<string>, s3: seq<string>, s4: seq<string>)
    requires seps == DEFAULT_SEPARATORS
    ensures seps != [] && |seps[0]| == 2 && s1 == seps[1..]
    ensures s1 != [] && |s1[0]| == 1 && s2 == s1[1..]
    ensures s2 != [] && |s2[0]| == 2 && s3 == s2[1..]
    ensures s3 != [] && |s3[0]| == 1 && s4 == s3[1..]
    ensures s4 != [] && s4[0] == ""
  {
    s1 := seps[1..];
    s2 := s1[1..];
    s3 := s2[1..];
    s4 := s3[1..];
  }

  lemma BoundStep(size: nat, overlap: nat, seps: seq<string>)
    requires seps != [] && seps[0] != ""
    ensures var inner := Bound(size, overlap, seps[1..]);
            Bound(size, overlap, seps) == if overlap == 0 then inner else Min(overlap, inner) + |seps[0]| + inner
  {
  }

  predicate Short(chunks: seq<Chunk>, limit: nat) {
    forall k :: 0 <= k < |chunks| ==> |chunks[k].text| <= limit
  }

  lemma StripShorter(s: string)
    ensures |Strip(s)| <= |s|
  {
    var lo, hi := StripCut(s);
  }

  lemma OfPageShort(page: Page, size: nat, overlap: int, seps: seq<string>, idx: nat)
    ensures Short(OfPage(page, size, overlap, seps, idx), Bound(size, overlap, seps))
  {
    LengthBound(page.text, size, overlap, seps);
    var pieces := SplitText(page.text, size, overlap, seps);
    forall k | 0 <= k < |pieces| ensures |Strip(pieces[k])| <= Bound(size, overlap, seps) {
      StripShorter(pieces[k]);
    }
  }

  lemma {:induction false} ChunkLength(pages: seq<Page>, size: nat, overlap: int, seps: seq<string>)
    ensures Short(OfPages(pages, size, overlap, seps), Bound(size, overlap, seps))
  {
    if pages != [] {
      var init, page := pages[..|pages| - 1], pages[|pages| - 1];
      ChunkLength(init, size, overlap, seps);
      OfPageShort(page, size, overlap, seps, |OfPages(init, size, overlap, seps)|);
    }
  }

  /** Under the shipped separators no chunk exceeds `size + 4 * overlap + 6`. */
  lemma DefaultChunkLength(pages: seq<Page>, size: nat, overlap: nat, seps: seq<string>)
    requires seps == DEFAULT_SEPARATORS
    ensures Short(OfPages(pages, size, overlap, seps), size + 4 * overlap + 6)
  {
    ChunkLength(pages, size, overlap, seps);
    DefaultBound(size, overlap, seps);
  }

  /** While the bound stays below the cut, the extractor reads whole chunks. */
  lemma ExtractorSeesWholeChunk(pages: seq<Page>, size: nat, overlap: nat, seps: seq<string>, c: Chunk)
    requires c in OfPages(pages, size, overlap, seps) && Bound(size, overlap, seps) <= EXTRACT_CUT
    ensures Extracted(c.text) == c.text
  {
    ChunkLength(pages, size, overlap, seps);
  }

  /** It does at the configured 1000/200. */
  lemma ConfiguredBound(size: nat, overlap: nat, seps: seq<string>)
    requires size == 1000 && overlap == 200 && seps == DEFAULT_SEPARATORS
    ensures Bound(size, overlap, seps) == 1806 <= EXTRACT_CUT
  {
    DefaultBound(size, overlap, seps);
  }

  // ---------------------------------------------------------------- nothing is lost

  /** Characters a split may drop: white space, and the dot of a ". " break. */
  predicate Droppable(text: string, k: nat)
    requires k < |text|
  {
    IsSpace(text[k]) || (text[k] == '.' && k + 1 < |text| && text[k + 1] == ' ')
  }

  ghost predicate Kept(text: string, seps: seq<string>, k: nat) {
    k < |text| && !IsSpace(text[k]) && !InSeparator(text, seps, k)
  }

  /** Chunk `c` repeats the stretch `lo..hi` of the page, around position `k`. */
  ghost predicate Quotes(c: Chunk, page: Page, lo: nat, hi: nat, k: nat) {
    c.pageNumber == page.number && lo <= k < hi <= |page.text| && Contains(c.text, page.text[lo..hi])
  }

  lemma SeparatorsDroppable(text: string, k: nat)
    requires k < |text| && InSeparator(text, DEFAULT_SEPARATORS, k)
    ensures Droppable(text, k)
  {
    var s, p :| 0 <= s < |DEFAULT_SEPARATORS| && Inside(text, DEFAULT_SEPARATORS[s], p, k);
    var sep := DEFAULT_SEPARATORS[s];
    assert text[k] == text[p..p + |sep|][k - p] == sep[k - p];
    if sep == ". " && k == p {
      assert text[k + 1] == text[p..p + |sep|][1] == ' ';
    }
  }

  /** From `from` on, `s` reads like `text` from `lo` on. */
  predicate Mirrors(s: string, from: nat, text: string, lo: nat) {
    from <= |s| && lo + |s| - from <= |text| && forall k :: from <= k < |s| ==> s[k] == text[k - from + lo]
  }

  lemma SuffixByCharacter(s: string, text: string, lo: nat, hi: nat)
    requires lo <= hi <= |text| && EndsWith(s, text[lo..hi])
    ensures Mirrors(s, |s| - (hi - lo), text, lo)
  {
    var from := |s| - (hi - lo);
    forall k | from <= k < |s| ensures s[k] == text[k - from + lo] {
      assert s[k] == s[from..][k - from] == text[lo..hi][k - from];
    }
  }

  /** A slice `a..b` of the piece shows what its core has from the later start to `b`. */
  lemma SliceShows(s: string, a: nat, b: nat, from: nat, text: string, lo: nat)
    requires a <= b <= |s| && from < b && Mirrors(s, from, text, lo)
    ensures var m := Max(a, from); Contains(s[a..b], text[m - from + lo..b - from + lo])
  {
    var m := Max(a, from);
    AtByCharacter(s[a..b], text[m - from + lo..b - from + lo], m - a);
  }

  predicate BlankOutside(s: string, a: nat, b: nat) {
    forall k :: 0 <= k < |s| && (k < a || b <= k) ==> IsSpace(s[k])
  }

  lemma KeptInside(s: string, a: nat, b: nat, from: nat, text: string, lo: nat, k: nat)
    requires a <= b <= |s| && BlankOutside(s, a, b) && Mirrors(s, from, text, lo)
    requires lo <= k < lo + |s| - from && !IsSpace(text[k])
    ensures a <= from + k - lo < b
  {
    assert s[from + k - lo] == text[k];
  }

  /** A kept character of a core survives the final strip, together with its neighbourhood. */
  lemma CoreSurvivesStrip(text: string, piece: string, c: Span, k: nat) returns (lo: nat, hi: nat)
    requires c.lo <= k < c.hi <= |text| && EndsWith(piece, text[c.lo..c.hi]) && !IsSpace(text[k])
    ensures lo <= k < hi <= |text| && Contains(Strip(piece), text[lo..hi])
  {
    var a, b := StripCut(piece);
    var from := |piece| - (c.hi - c.lo);
    SuffixByCharacter(piece, text, c.lo, c.hi);
    KeptInside(piece, a, b, from, text, c.lo, k);
    SliceShows(piece, a, b, from, text, c.lo);
    lo, hi := Max(a, from) - from + c.lo, b - from + c.lo;
  }

  lemma PageNotLost(page: Page, size: nat, overlap: nat, seps: seq<string>, idx: nat, k: nat)
    returns (j: nat, lo: nat, hi: nat)
    requires size >= 1 && Kept(page.text, seps, k)
    ensures j < |OfPage(page, size, overlap, seps, idx)|
    ensures Quotes(OfPage(page, size, overlap, seps, idx)[j], page, lo, hi, k)
  {
    var text := page.text;
    var a, b := StripCut(text);
    var cores := SplitCores(text, size, overlap, seps);
    j, lo, hi := CoreQuoted(text, SplitText(text, size, overlap, seps), cores, size, overlap, k);
  }

  lemma CoreQuoted(text: string, pieces: seq<string>, cores: seq<Span>, size: nat, overlap: nat, k: nat)
    returns (j: nat, lo: nat, hi: nat)
    requires Cored(text, pieces, cores, size, overlap) && Covered(cores, k) && k < |text| && !IsSpace(text[k])
    ensures j < |pieces| && lo <= k < hi <= |text| && Contains(Strip(pieces[j]), text[lo..hi])
  {
    j :| 0 <= j < |cores| && cores[j].lo <= k < cores[j].hi;
    assert CoreOf(text, pieces[j], cores[j], size, overlap);
    lo, hi := CoreSurvivesStrip(text, pieces[j], cores[j], k);
  }

  /** Every character of every page that is neither white space nor part of a separator reaches a chunk of that page. */
  lemma {:induction false} NoContentLost(pages: seq<Page>, size: nat, overlap: nat, seps: seq<string>, p: nat, k: nat)
    returns (i: nat, lo: nat, hi: nat)
    requires size >= 1 && p < |pages| && Kept(pages[p].text, seps, k)
    ensures i < |OfPages(pages, size, overlap, seps)|
    ensures Quotes(OfPages(pages, size, overlap, seps)[i], pages[p], lo, hi, k)
  {
    var init := pages[..|pages| - 1];
    if p < |init| {
      i, lo, hi := NoContentLost(init, size, overlap, seps, p, k);
      EarlierChunk(pages, size, overlap, seps, i);
    } else {
      i, lo, hi := LastPageNotLost(pages, size, overlap, seps, k);
    }
  }

  lemma LastPageNotLost(pages: seq<Page>, size: nat, overlap: nat, seps: seq<string>, k: nat)
    returns (i: nat, lo: nat, hi: nat)
    requires size >= 1 && pages != [] && Kept(pages[|pages| - 1].text, seps, k)
    ensures i < |OfPages(pages, size, overlap, seps)|
    ensures Quotes(OfPages(pages, size, overlap, seps)[i], pages[|pages| - 1], lo, hi, k)
  {
    var idx := |OfPages(pages[..|pages| - 1], size, overlap, seps)|;
    var j: nat;
    j, lo, hi := PageNotLost(pages[|pages| - 1], size, overlap, seps, idx, k);
    LastPageChunk(pages, size, overlap, seps, j);
    i := idx + j;
  }

  /** Under the shipped separators only white space and the dot of a ". " break can go missing. */
  lemma DefaultSplitLosesNothing(pages: seq<Page>, size: nat, overlap: nat, p: nat, k: nat)
    returns (i: nat, lo: nat, hi: nat)
    requires size >= 1 && p < |pages| && k < |pages[p].text| && !Droppable(pages[p].text, k)
    ensures i < |OfPages(pages, size, overlap, DEFAULT_SEPARATORS)|
    ensures Quotes(OfPages(pages, size, overlap, DEFAULT_SEPARATORS)[i], pages[p], lo, hi, k)
  {
    if InSeparator(pages[p].text, DEFAULT_SEPARATORS, k) { SeparatorsDroppable(pages[p].text, k); }
    i, lo, hi := NoContentLost(pages, size, overlap, DEFAULT_SEPARATORS, p, k);
  }

  lemma EarlierChunk(pages: seq<Page>, size: nat, overlap: int, seps: seq<string>, i: nat)
    requires pages != [] && i < |OfPages(pages[..|pages| - 1], size, overlap, seps)|
    ensures i < |OfPages(pages, size, overlap, seps)|
    ensures OfPages(pages, size, overlap, seps)[i] == OfPages(pages[..|pages| - 1], size, overlap, seps)[i]
  {
  }

  lemma LastPageChunk(pages: seq<Page>, size: nat, overlap: int, seps: seq<string>, j: nat)
    requires pages != []
    requires var idx := |OfPages(pages[..|pages| - 1], size, overlap, seps)|;
             j < |OfPage(pages[|pages| - 1], size, overlap, seps, idx)|
    ensures var idx := |OfPages(pages[..|pages| - 1], size, overlap, seps)|;
            && idx + j < |OfPages(pages, size, overlap, seps)|
            && OfPages(pages, size, overlap, seps)[idx + j] == OfPage(pages[|pages| - 1], size, overlap, seps, idx)[j]
  {
  }
}
