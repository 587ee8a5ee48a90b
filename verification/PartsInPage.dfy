/** The parts of a split, and the buffer they grow into, at their place in the page. */
module PartsInPage {
  import opened Sequences
  import opened Text
  import opened Chunker

  /** What is left of the page when `parts` are still to come. */
  function Left(parts: seq<string>, sep: string): string {
    if parts == [] then "" else sep + Join(parts, sep)
  }

  /** `parts` are what follows position `e` of the page, where the last consumed part ended; `-|sep|` at the start. */
  predicate Remaining(text: string, parts: seq<string>, sep: string, e: int) {
    if e < 0 then e == -|sep| && parts != [] && text == Join(parts, sep)
    else e <= |text| && Rest(text, e) == Left(parts, sep)
  }

  /** `text[e..]`. */
  function Rest(text: string, e: nat): string {
    if e == 0 || text == "" then text else Rest(text[1..], e - 1)
  }

  lemma {:induction false} RestIs(text: string, e: nat)
    requires e <= |text|
    ensures Rest(text, e) == text[e..]
  {
    if e > 0 { RestIs(text[1..], e - 1); }
  }

  function Start(buf: string, sep: string, e: int): int {
    if buf != "" then e - |buf| else e + |sep|
  }

  predicate BufferAt(text: string, buf: string, e: int, size: nat) {
    buf != "" ==> 0 <= e - |buf| && e <= |text| && Rest(text[..e], e - |buf|) == buf && |buf| <= size
  }

  lemma BufferIs(text: string, buf: string, e: int)
    requires 0 <= e - |buf| && e <= |text|
    ensures Rest(text[..e], e - |buf|) == buf <==> At(text, buf, e - |buf|)
  {
    RestIs(text[..e], e - |buf|);
  }

  lemma LeftNext(parts: seq<string>, sep: string)
    requires parts != []
    ensures Join(parts, sep) == parts[0] + Left(parts[1..], sep)
    ensures Left(parts, sep) == (sep + parts[0]) + Left(parts[1..], sep)
  {
    if |parts| > 1 { Assoc(parts[0], sep, Join(parts[1..], sep)); }
    Assoc(sep, parts[0], Left(parts[1..], sep));
  }

  lemma DropPrefix(text: string, from: nat, a: string, b: string)
    requires from <= |text| && text[from..] == a + b
    ensures from + |a| <= |text| && text[from..from + |a|] == a && text[from + |a|..] == b
  {
    assert text[from..][..|a|] == a && text[from..][|a|..] == b;
  }

  /** The next part and what follows it. */
  lemma NextPart(text: string, parts: seq<string>, sep: string, e: int)
    requires sep != "" && parts != [] && Remaining(text, parts, sep, e)
    ensures 0 <= e + |sep| && At(text, parts[0], e + |sep|)
    ensures Remaining(text, parts[1..], sep, e + |sep| + |parts[0]|)
  {
    if e < 0 { FirstPart(text, parts, sep); } else { LaterPart(text, parts, sep, e); }
  }

  lemma FirstPart(text: string, parts: seq<string>, sep: string)
    requires parts != [] && text == Join(parts, sep)
    ensures At(text, parts[0], 0) && Remaining(text, parts[1..], sep, |parts[0]|)
  {
    LeftNext(parts, sep);
    assert text[0..] == text;
    PartThere(text, 0, parts[0], Left(parts[1..], sep));
  }

  lemma LaterPart(text: string, parts: seq<string>, sep: string, e: nat)
    requires parts != [] && Remaining(text, parts, sep, e)
    ensures At(text, parts[0], e + |sep|) && Remaining(text, parts[1..], sep, e + |sep| + |parts[0]|)
  {
    var joined, left := Join(parts, sep), Left(parts[1..], sep);
    LeftNext(parts, sep);
    RestIs(text, e);
    AfterPart(text, e, sep, joined);
    PartThere(text, e + |sep|, parts[0], left);
  }

  lemma AfterPart(text: string, from: nat, a: string, b: string)
    requires from <= |text| && text[from..] == a + b
    ensures from + |a| <= |text| && text[from + |a|..] == b
  {
    DropPrefix(text, from, a, b);
  }

  lemma PartThere(text: string, from: nat, a: string, b: string)
    requires from <= |text| && text[from..] == a + b
    ensures At(text, a, from) && from + |a| <= |text| && text[from + |a|..] == b && Rest(text, from + |a|) == b
  {
    DropPrefix(text, from, a, b);
    RestIs(text, from + |a|);
  }

  /** Where a part ended there is a separator, unless the page ended too. */
  lemma PartEnds(text: string, parts: seq<string>, sep: string, e: nat)
    requires Remaining(text, parts, sep, e)
    ensures At(text, sep, e) || e == |text|
  {
    RestIs(text, e);
    if parts != [] { DropPrefix(text, e, sep, Join(parts, sep)); }
  }

  /** The next part joins an open buffer. */
  lemma GrowOpen(text: string, parts: seq<string>, buf: string, e: int, sep: string, size: nat)
    requires buf != "" && parts != [] && Remaining(text, parts, sep, e) && BufferAt(text, buf, e, size)
    requires |Candidate(buf, sep, parts[0])| <= size
    ensures BufferAt(text, Candidate(buf, sep, parts[0]), e + |sep| + |parts[0]|, size)
  {
    NextWithSeparator(text, parts, sep, e);
    GrowBuffer(text, parts[0], buf, e, sep, size);
  }

  /** The next part opens a buffer. */
  lemma GrowFresh(text: string, parts: seq<string>, e: int, sep: string, size: nat)
    requires sep != "" && parts != [] && Remaining(text, parts, sep, e) && |parts[0]| <= size
    ensures BufferAt(text, parts[0], e + |sep| + |parts[0]|, size)
  {
    NextAt(text, parts, sep, e);
    BufferIs(text, parts[0], e + |sep| + |parts[0]|);
  }

  lemma GrowText(text: string, parts: seq<string>, buf: string, e: int, sep: string, size: nat)
    requires sep != "" && parts != [] && Remaining(text, parts, sep, e) && BufferAt(text, buf, e, size)
    requires |Candidate(buf, sep, parts[0])| <= size
    ensures BufferAt(text, Candidate(buf, sep, parts[0]), e + |sep| + |parts[0]|, size)
  {
    if buf != "" { GrowOpen(text, parts, buf, e, sep, size); } else { GrowFresh(text, parts, e, sep, size); }
  }

  lemma NextAt(text: string, parts: seq<string>, sep: string, e: int)
    requires sep != "" && parts != [] && Remaining(text, parts, sep, e)
    ensures At(text, parts[0], e + |sep|)
  {
    NextPart(text, parts, sep, e);
  }

  lemma NextRemains(text: string, parts: seq<string>, sep: string, e: int)
    requires sep != "" && parts != [] && Remaining(text, parts, sep, e)
    ensures 0 <= e + |sep| && Remaining(text, parts[1..], sep, e + |sep| + |parts[0]|)
  {
    NextPart(text, parts, sep, e);
  }

  lemma NextWithSeparator(text: string, parts: seq<string>, sep: string, e: nat)
    requires parts != [] && Remaining(text, parts, sep, e)
    ensures At(text, sep + parts[0], e)
  {
    LeftNext(parts, sep);
    RestIs(text, e);
    DropPrefix(text, e, sep + parts[0], Left(parts[1..], sep));
  }

  lemma GrowBuffer(text: string, part: string, buf: string, e: int, sep: string, size: nat)
    requires BufferAt(text, buf, e, size) && |Candidate(buf, sep, part)| <= size
    requires buf != "" && At(text, sep + part, e)
    ensures BufferAt(text, Candidate(buf, sep, part), e + |sep| + |part|, size)
  {
    var grown := Candidate(buf, sep, part);
    assert At(text, grown, e - |buf|) by {
      BufferIs(text, buf, e);
      GrowAt(text, buf, sep, part, e - |buf|);
    }
    BufferIs(text, grown, e + |sep| + |part|);
  }

  lemma GrowAt(text: string, buf: string, sep: string, part: string, i: int)
    requires At(text, buf, i) && At(text, sep + part, i + |buf|)
    ensures At(text, buf + sep + part, i)
  {
    Glue(text, buf, sep + part, i);
    Assoc(buf, sep, part);
  }

  lemma Glue(text: string, a: string, b: string, i: int)
    requires At(text, a, i) && At(text, b, i + |a|)
    ensures At(text, a + b, i)
  {
    assert text[i..i + |a| + |b|] == text[i..i + |a|] + text[i + |a|..i + |a| + |b|];
  }

  lemma GrowStart(buf: string, sep: string, part: string, e: int)
    ensures var next := e + |sep| + |part|;
            Start(Candidate(buf, sep, part), sep, next) ==
              if buf == "" && part == "" then next + |sep| else Start(buf, sep, e)
  {
  }
}
