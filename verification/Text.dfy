/** The Python string operations the service relies on. */
module Text {

  /** `sep` occurs in `text` at position `i`. */
  predicate At(text: string, sep: string, i: int) {
    0 <= i && i + |sep| <= |text| && text[i..i + |sep|] == sep
  }

  ghost predicate Contains(text: string, sub: string) {
    exists i :: At(text, sub, i)
  }

  lemma AtByCharacter(text: string, sep: string, i: nat)
    requires i + |sep| <= |text|
    requires forall k :: i <= k < i + |sep| ==> text[k] == sep[k - i]
    ensures At(text, sep, i)
  {
  }

  predicate EndsWith(s: string, suffix: string) {
    |suffix| <= |s| && s[|s| - |suffix|..] == suffix
  }

  /** First occurrence of `sep` at or after `from`; `|text|` stands for "none". */
  function Find(text: string, sep: string, from: nat): (r: nat)
    requires sep != "" && from <= |text|
    ensures from <= r <= |text|
    ensures r < |text| ==> At(text, sep, r)
    ensures forall i :: from <= i < r ==> !At(text, sep, i)
    decreases |text| - from
  {
    if from == |text| || At(text, sep, from) then from else Find(text, sep, from + 1)
  }

  /** `str.split(sep)`: cut at the leftmost occurrence, then split the remainder. */
  function Split(text: string, sep: string): (parts: seq<string>)
    requires sep != ""
    ensures parts != [] && Join(parts, sep) == text
  {
    var i := Find(text, sep, 0);
    if i == |text| then [text]
    else
      var rest := Split(text[i + |sep|..], sep);
      assert ([text[..i]] + rest)[1..] == rest && text[i..i + |sep|] == sep;
      [text[..i]] + rest
  }

  /** The first cut is at the first occurrence, and what follows it is split in the same way. */
  lemma SplitCutsLeftmost(text: string, sep: string)
    requires sep != ""
    ensures var head := Split(text, sep)[0];
            && (forall i :: 0 <= i < |head| ==> !At(text, sep, i))
            && if Contains(text, sep) then At(text, sep, |head|)
                  && Split(text, sep) == [head] + Split(text[|head| + |sep|..], sep)
               else Split(text, sep) == [text]
  {
    if Contains(text, sep) {
      var i :| At(text, sep, i);
    }
  }

  /** `sep.join(parts)`. */
  function Join(parts: seq<string>, sep: string): string
    requires parts != []
  {
    if |parts| == 1 then parts[0] else parts[0] + sep + Join(parts[1..], sep)
  }

  /** The characters `str.isspace` accepts. */
  predicate IsSpace(c: char) {
    || '\t' <= c <= '\r'
    || '\U{1C}' <= c <= ' '
    || c in {'\U{85}', '\U{A0}', '\U{1680}', '\U{2028}', '\U{2029}', '\U{202F}', '\U{205F}', '\U{3000}'}
    || '\U{2000}' <= c <= '\U{200A}'
  }

  function StripLeft(s: string): string {
    if s != "" && IsSpace(s[0]) then StripLeft(s[1..]) else s
  }

  function StripRight(s: string): string {
    if s != "" && IsSpace(s[|s| - 1]) then StripRight(s[..|s| - 1]) else s
  }

  /** `str.strip()`. */
  function Strip(s: string): string {
    StripRight(StripLeft(s))
  }

  /** How far `Strip` cuts on each side: it removes white space only, and all there is at the ends. */
  lemma {:induction false} StripCut(s: string) returns (lo: nat, hi: nat)
    ensures lo <= hi <= |s| && Strip(s) == s[lo..hi]
    ensures forall k :: 0 <= k < lo || hi <= k < |s| ==> IsSpace(s[k])
    ensures lo < hi ==> !IsSpace(s[lo]) && !IsSpace(s[hi - 1])
  {
    lo := StripLeftCut(s);
    hi := StripRightCut(s[lo..]);
    hi := lo + hi;
    assert s[lo..][..hi - lo] == s[lo..hi];
  }

  lemma {:induction false} StripLeftCut(s: string) returns (lo: nat)
    ensures lo <= |s| && StripLeft(s) == s[lo..]
    ensures lo < |s| ==> !IsSpace(s[lo])
    ensures forall k :: 0 <= k < lo ==> IsSpace(s[k])
  {
    if s != "" && IsSpace(s[0]) {
      lo := StripLeftCut(s[1..]);
      forall k | 0 <= k < lo + 1 ensures IsSpace(s[k]) {
        if k > 0 { assert s[k] == s[1..][k - 1]; }
      }
      assert s[1..][lo..] == s[lo + 1..];
      lo := lo + 1;
    } else {
      lo := 0;
    }
  }

  lemma {:induction false} StripRightCut(s: string) returns (hi: nat)
    ensures hi <= |s| && StripRight(s) == s[..hi]
    ensures hi > 0 ==> !IsSpace(s[hi - 1])
    ensures forall k :: hi <= k < |s| ==> IsSpace(s[k])
  {
    if s != "" && IsSpace(s[|s| - 1]) {
      var init := s[..|s| - 1];
      hi := StripRightCut(init);
      assert init[..hi] == s[..hi];
      forall k | hi <= k < |s| ensures IsSpace(s[k]) {
        if k < |s| - 1 { assert s[k] == init[k]; }
      }
    } else {
      hi := |s|;
    }
  }

  ghost predicate Blank(s: string) { forall k :: 0 <= k < |s| ==> IsSpace(s[k]) }

  lemma StripEmptyIff(s: string)
    ensures Strip(s) == "" <==> Blank(s)
  {
    var lo, hi := StripCut(s);
  }
}
