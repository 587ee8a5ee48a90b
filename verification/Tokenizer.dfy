/** Question tokens for token-boundary seeding (app/retrieve/tokenizer.py). */
module Tokenizer {
  import opened Lexicographic
  import opened Options
  import opened Text

  /** Particles, in the order the pattern lists them. */
  const JOSA: seq<string> := [
    "으로부터", "로부터", "으로서", "으로써", "에게서", "한테서", "에서", "에게", "한테", "으로", "부터", "까지", "보다", "처럼",
    "마다", "조차", "밖에", "이라", "라고", "이나",
    "은", "는", "이", "가", "을", "를", "의", "에", "도", "만", "와", "과", "로", "랑", "나", "며", "고", "라", "야"
  ]

  const PUNCTUATION: string := "()[]{}<>?.,!;:\"'`/\\~·…“”‘’《》〈〉「」『』，。！？、"

  /** The characters of `_SPLIT_RE`. The functions below take any such class as `delim`. */
  predicate IsDelimiter(c: char) { IsSpace(c) || c in PUNCTUATION }

  // ---------------------------------------------------------------- splitting

  /** End of the run of characters that are delimiters (or are not), starting at `i`. */
  function RunEnd(delim: char -> bool, text: string, i: nat, delimiters: bool): (e: nat)
    requires i <= |text|
    ensures i <= e <= |text|
    ensures forall k :: i <= k < e ==> delim(text[k]) == delimiters
    ensures e < |text| ==> delim(text[e]) != delimiters
    decreases |text| - i
  {
    if i < |text| && delim(text[i]) == delimiters then RunEnd(delim, text, i + 1, delimiters) else i
  }

  /** `_SPLIT_RE.split`: cut at every maximal run of delimiters; pieces at the ends may be empty. */
  function SplitRuns(delim: char -> bool, text: string): seq<string> {
    var e := RunEnd(delim, text, 0, false);
    if e == |text| then [text] else [text[..e]] + SplitRuns(delim, text[RunEnd(delim, text, e, true)..])
  }

  /** A run of the text: delimiter-free, and bounded by delimiters or the ends of the text. */
  predicate IsRun(delim: char -> bool, text: string, i: nat, j: nat) {
    && i < j <= |text| && (forall k :: i <= k < j ==> !delim(text[k]))
    && (i > 0 ==> delim(text[i - 1])) && (j < |text| ==> delim(text[j]))
  }

  /** Runs of the text after a delimiter are runs of the whole text. */
  lemma RunOfRest(delim: char -> bool, text: string, b: nat, i: nat, j: nat)
    requires 0 < b <= i < j <= |text| && delim(text[b - 1])
    ensures text[b..][i - b..j - b] == text[i..j]
    ensures IsRun(delim, text[b..], i - b, j - b) <==> IsRun(delim, text, i, j)
  {
    var rest := text[b..];
    assert i > b ==> rest[i - b - 1] == text[i - 1];
    assert j < |text| ==> rest[j - b] == text[j];
  }

  /** The first cut: a delimiter-free head, a maximal run of delimiters, the rest. */
  lemma FirstCut(delim: char -> bool, text: string) returns (e: nat, b: nat)
    requires RunEnd(delim, text, 0, false) < |text|
    ensures e == RunEnd(delim, text, 0, false) < b <= |text|
    ensures delim(text[e]) && delim(text[b - 1])
    ensures forall k :: e <= k < b ==> delim(text[k])
    ensures SplitRuns(delim, text) == [text[..e]] + SplitRuns(delim, text[b..])
  {
    e := RunEnd(delim, text, 0, false);
    b := RunEnd(delim, text, e, true);
  }

  lemma HeadIsRun(delim: char -> bool, text: string, e: nat)
    requires 0 < e == RunEnd(delim, text, 0, false)
    ensures IsRun(delim, text, 0, e)
  {
  }

  /** The pieces are exactly the runs, empty ones aside. */
  lemma {:induction false} PieceIsRun(delim: char -> bool, text: string, p: string) returns (i: nat, j: nat)
    requires p in SplitRuns(delim, text) && p != ""
    ensures IsRun(delim, text, i, j) && text[i..j] == p
    decreases |text|, 1
  {
    var n := RunEnd(delim, text, 0, false);
    if p == text[..n] {
      HeadIsRun(delim, text, n);
      i, j := 0, n;
    } else {
      var b := InTail(delim, text, p);
      i, j := RestPieceIsRun(delim, text, b, p);
    }
  }

  lemma InTail(delim: char -> bool, text: string, p: string) returns (b: nat)
    requires p in SplitRuns(delim, text) && p != text[..RunEnd(delim, text, 0, false)]
    ensures 0 < b <= |text| && delim(text[b - 1]) && p in SplitRuns(delim, text[b..])
  {
    var n := RunEnd(delim, text, 0, false);
    assert text[..n] == if n == |text| then text else text[..n];
    var e, c := FirstCut(delim, text);
    b := c;
  }

  lemma {:induction false} RestPieceIsRun(delim: char -> bool, text: string, b: nat, p: string) returns (i: nat, j: nat)
    requires 0 < b <= |text| && delim(text[b - 1]) && p in SplitRuns(delim, text[b..]) && p != ""
    ensures IsRun(delim, text, i, j) && text[i..j] == p
    decreases |text| - b, 2
  {
    var x, y := PieceIsRun(delim, text[b..], p);
    i, j := b + x, b + y;
    RunMoves(delim, text, b, x, y);
  }

  lemma RunMoves(delim: char -> bool, text: string, b: nat, x: nat, y: nat)
    requires 0 < b <= |text| && delim(text[b - 1]) && IsRun(delim, text[b..], x, y)
    ensures IsRun(delim, text, b + x, b + y) && text[b + x..b + y] == text[b..][x..y]
  {
    RunOfRest(delim, text, b, b + x, b + y);
  }

  lemma RunAfterCut(delim: char -> bool, text: string, i: nat, j: nat, e: nat, b: nat)
    requires 0 < i && IsRun(delim, text, i, j) && e == RunEnd(delim, text, 0, false) < b <= |text|
    requires forall k :: e <= k < b ==> delim(text[k])
    ensures b <= i
  {
    assert text[i..j][0] == text[i];
  }

  lemma {:induction false} RunIsPiece(delim: char -> bool, text: string, i: nat, j: nat, p: string)
    requires IsRun(delim, text, i, j) && p == text[i..j]
    ensures p in SplitRuns(delim, text)
    decreases |text|
  {
    if i == 0 {
      HeadOfSplit(delim, text, j);
    } else {
      RunSeen(delim, text, i, j);
      var e, b := FirstCut(delim, text);
      RunAfterCut(delim, text, i, j, e, b);
      RunOfRest(delim, text, b, i, j);
      RunIsPiece(delim, text[b..], i - b, j - b, p);
    }
  }

  /** A run that does not start the text lies behind a cut. */
  lemma RunSeen(delim: char -> bool, text: string, i: nat, j: nat)
    requires 0 < i && IsRun(delim, text, i, j)
    ensures RunEnd(delim, text, 0, false) < |text|
  {
    assert delim(text[i - 1]);
  }

  lemma HeadOfSplit(delim: char -> bool, text: string, j: nat)
    requires IsRun(delim, text, 0, j)
    ensures text[0..j] in SplitRuns(delim, text)
  {
    var e := RunEnd(delim, text, 0, false);
    forall k | 0 <= k < j ensures !delim(text[k]) { assert text[0..j][k] == text[k]; }
    assert e == j && SplitRuns(delim, text)[0] == text[..e] == text[0..j];
  }

  // ---------------------------------------------------------------- particles

  /** `p$` matches at `i`. A word holds no line break, so `$` is its end. */
  predicate MatchesAt(s: string, p: string, i: nat) {
    At(s, p, i) && i + |p| == |s|
  }

  /** `(?:p1|p2|...)$` tried at one start: the alternatives in their order, the first that matches. */
  function TryAt(s: string, particles: seq<string>, i: nat): (m: Option<string>)
    ensures m.Some? ==> m.value in particles && MatchesAt(s, m.value, i)
    ensures m.None? ==> forall p :: p in particles ==> !MatchesAt(s, p, i)
  {
    if particles == [] then None
    else if MatchesAt(s, particles[0], i) then Some(particles[0])
    else TryAt(s, particles[1..], i)
  }

  /** The search: the starts from left to right. `|s|` stands for "no match", an empty one changes nothing. */
  function MatchStart(s: string, particles: seq<string>, i: nat): (m: nat)
    requires i <= |s|
    ensures i <= m <= |s|
    ensures m < |s| ==> TryAt(s, particles, m).Some?
    ensures forall k :: i <= k < m ==> TryAt(s, particles, k).None?
    decreases |s| - i
  {
    if i == |s| || TryAt(s, particles, i).Some? then i else MatchStart(s, particles, i + 1)
  }

  /** The word with the stretch of `n` characters at `i` taken out. */
  function TakenOut(s: string, i: nat, n: nat): (r: string)
    requires i + n <= |s|
    ensures i + n == |s| ==> r == s[..i]
  {
    s[..i] + s[i + n..]
  }

  /** How much of the word matched at `i`. */
  function MatchLength(s: string, particles: seq<string>, i: nat): (n: nat)
    requires i <= |s|
    ensures i == |s| || TryAt(s, particles, i).Some? ==> i + n == |s|
    ensures i + n <= |s|
  {
    match TryAt(s, particles, i)
    case Some(p) => |p|
    case None => 0
  }

  /** `_JOSA_RE.sub("", s)`: what matched is taken out. It runs to the end, so a prefix is left. */
  function StripOnce(s: string, particles: seq<string>): (r: string)
    ensures r == s[..MatchStart(s, particles, 0)]
  {
    var m := MatchStart(s, particles, 0);
    TakenOut(s, m, MatchLength(s, particles, m))
  }

  lemma MatchIsSuffix(s: string, p: string, i: nat)
    requires i <= |s|
    ensures MatchesAt(s, p, i) <==> p == s[i..]
    ensures MatchesAt(s, p, i) <==> EndsWith(s, p) && i == |s| - |p|
  {
  }

  /** At one start only the rest of the word can match: some alternative does when that is a particle. */
  lemma {:induction false} TryAtIffParticle(s: string, particles: seq<string>, i: nat)
    requires i <= |s|
    ensures TryAt(s, particles, i) == if s[i..] in particles then Some(s[i..]) else None
  {
    if particles != [] {
      MatchIsSuffix(s, particles[0], i);
      TryAtIffParticle(s, particles[1..], i);
    }
  }

  /** One strip removes the longest particle the word ends in. */
  lemma StripOnceLongest(s: string, particles: seq<string>)
    ensures var r := StripOnce(s, particles);
            && r <= s
            && (r != s ==> s[|r|..] in particles)
            && (forall p :: p in particles && p != "" && EndsWith(s, p) ==> |p| <= |s| - |r|)
  {
    var m := MatchStart(s, particles, 0);
    TryAtIffParticle(s, particles, m);
    forall p | p in particles && p != "" && EndsWith(s, p) ensures |p| <= |s| - m {
      MatchIsSuffix(s, p, |s| - |p|);
      assert TryAt(s, particles, |s| - |p|).Some?;
    }
  }

  /** The order in which the alternatives are tried does not matter. */
  lemma OrderOfParticlesIrrelevant(s: string, a: seq<string>, b: seq<string>)
    requires forall p :: p in b <==> p in a
    ensures StripOnce(s, a) == StripOnce(s, b)
  {
    SameMatch(s, a, b, 0);
  }

  lemma {:induction false} SameMatch(s: string, a: seq<string>, b: seq<string>, i: nat)
    requires i <= |s| && forall p :: p in b <==> p in a
    ensures MatchStart(s, a, i) == MatchStart(s, b, i)
    decreases |s| - i
  {
    TryAtIffParticle(s, a, i);
    TryAtIffParticle(s, b, i);
    if i < |s| { SameMatch(s, a, b, i + 1); }
  }

  /** A word and its forms with trailing particles removed, one after the other. */
  function Forms(word: string, particles: seq<string>): set<string> {
    var stripped := StripOnce(word, particles);
    {word} + if stripped == "" || stripped == word then {} else Forms(stripped, particles)
  }

  function Concat(parts: seq<string>): string {
    if parts == [] then "" else parts[0] + Concat(parts[1..])
  }

  lemma {:induction false} FormsArePrefixes(word: string, particles: seq<string>, form: string)
    returns (removed: seq<string>)
    requires word != "" && form in Forms(word, particles)
    ensures form != "" && word == form + Concat(removed)
    ensures forall k :: 0 <= k < |removed| ==> removed[k] in particles
    decreases |word|
  {
    if form == word {
      removed := [];
    } else {
      var stripped, last := OneForm(word, particles, form);
      var before := FormsArePrefixes(stripped, particles, form);
      removed := before + [last];
      OneMoreRemoved(form, before, last);
    }
  }

  lemma OneMoreRemoved(form: string, removed: seq<string>, last: string)
    ensures (form + Concat(removed)) + last == form + Concat(removed + [last])
  {
    ConcatAppend(removed, last);
    assert form + (Concat(removed) + last) == form + Concat(removed) + last;
  }

  /** A form other than the word itself is a form of the word less one particle. */
  lemma OneForm(word: string, particles: seq<string>, form: string) returns (stripped: string, last: string)
    requires form in Forms(word, particles) && form != word
    ensures stripped != "" && form in Forms(stripped, particles) && |stripped| < |word|
    ensures last in particles && word == stripped + last
  {
    stripped := StripOnce(word, particles);
    last := OneStrip(word, particles);
  }

  lemma OneStrip(word: string, particles: seq<string>) returns (last: string)
    requires StripOnce(word, particles) != word
    ensures last in particles && word == StripOnce(word, particles) + last
  {
    StripOnceLongest(word, particles);
    last := word[|StripOnce(word, particles)|..];
  }

  lemma {:induction false} ConcatAppend(parts: seq<string>, last: string)
    ensures Concat(parts + [last]) == Concat(parts) + last
  {
    if parts == [] {
      assert [last][1..] == [];
    } else {
      assert (parts + [last])[1..] == parts[1..] + [last];
      ConcatAppend(parts[1..], last);
    }
  }

  // ---------------------------------------------------------------- tokens

  function FormsOf(pieces: seq<string>, particles: seq<string>): set<string> {
    if pieces == [] then {}
    else
      var before, p := FormsOf(pieces[..|pieces| - 1], particles), pieces[|pieces| - 1];
      if p == "" then before else before + Forms(p, particles)
  }

  /** Every form of every run, short ones dropped. */
  function Tokens(delim: char -> bool, normalized: string, particles: seq<string>, minLen: int): set<string> {
    set t | t in FormsOf(SplitRuns(delim, normalized), particles) && |t| >= minLen
  }

  lemma {:induction false} FormStems(pieces: seq<string>, particles: seq<string>, t: string) returns (p: string)
    requires t in FormsOf(pieces, particles)
    ensures p in pieces && p != "" && t in Forms(p, particles)
  {
    var init, last := pieces[..|pieces| - 1], pieces[|pieces| - 1];
    if t in FormsOf(init, particles) { p := FormStems(init, particles, t); } else { p := last; }
  }

  lemma {:induction false} FormsIncluded(pieces: seq<string>, particles: seq<string>, p: string)
    requires p in pieces && p != ""
    ensures Forms(p, particles) <= FormsOf(pieces, particles)
  {
    if p in pieces[..|pieces| - 1] { FormsIncluded(pieces[..|pieces| - 1], particles, p); }
  }

  method AddForms(tokens0: set<string>, raw: string, particles: seq<string>) returns (tokens: set<string>)
    requires raw != ""
    ensures tokens == tokens0 + Forms(raw, particles)
  {
    tokens := tokens0 + {raw};
    var cur := raw;
    while true
      invariant cur != ""
      invariant tokens + Forms(cur, particles) == tokens0 + Forms(raw, particles)
      invariant cur in tokens
      decreases |cur|
    {
      var stripped := StripOnce(cur, particles);
      if stripped == "" || stripped == cur {
        assert Forms(cur, particles) == {cur};
        return;
      }
      assert Forms(cur, particles) == {cur} + Forms(stripped, particles);
      tokens := tokens + {stripped};
      cur := stripped;
    }
  }

  method QuestionTokens(delim: char -> bool, normalized: string, particles: seq<string>, minLen: int)
    returns (sorted: seq<string>)
    ensures Ascending(sorted) && SameMembers(sorted, Tokens(delim, normalized, particles, minLen))
  {
    var pieces := SplitRuns(delim, normalized);
    var tokens: set<string> := {};
    for k := 0 to |pieces|
      invariant tokens == FormsOf(pieces[..k], particles)
    {
      assert pieces[..k + 1][..k] == pieces[..k];
      if pieces[k] == "" { continue; }
      tokens := AddForms(tokens, pieces[k], particles);
    }
    assert pieces[..|pieces|] == pieces;
    sorted := Sorted(set t | t in tokens && |t| >= minLen);
  }

  /** Every token is a run of the question with particles taken off its end. */
  lemma TokenStemsFromRun(delim: char -> bool, normalized: string, particles: seq<string>, minLen: int, t: string)
    returns (i: nat, j: nat, removed: seq<string>)
    requires t in Tokens(delim, normalized, particles, minLen)
    ensures IsRun(delim, normalized, i, j) && t != "" && normalized[i..j] == t + Concat(removed)
    ensures forall k :: 0 <= k < |removed| ==> removed[k] in particles
  {
    var p := FormStems(SplitRuns(delim, normalized), particles, t);
    i, j := PieceIsRun(delim, normalized, p);
    removed := FormsArePrefixes(p, particles, t);
  }

  /** With the delimiters and the particles the service ships. */
  function ShippedTokens(normalized: string, minLen: int): set<string> {
    Tokens(IsDelimiter, normalized, JOSA, minLen)
  }

  lemma ShippedTokenStemsFromRun(normalized: string, minLen: int, t: string)
    returns (i: nat, j: nat, removed: seq<string>)
    requires t in ShippedTokens(normalized, minLen)
    ensures IsRun(IsDelimiter, normalized, i, j) && t != "" && normalized[i..j] == t + Concat(removed)
    ensures forall k :: 0 <= k < |removed| ==> removed[k] in JOSA
  {
    i, j, removed := TokenStemsFromRun(IsDelimiter, normalized, JOSA, minLen, t);
  }

  /** And every run of enough characters is itself a token. */
  lemma RunIsToken(delim: char -> bool, normalized: string, particles: seq<string>, minLen: int, i: nat, j: nat)
    requires IsRun(delim, normalized, i, j) && j - i >= minLen
    ensures normalized[i..j] in Tokens(delim, normalized, particles, minLen)
  {
    RunIsPiece(delim, normalized, i, j, normalized[i..j]);
    FormsIncluded(SplitRuns(delim, normalized), particles, normalized[i..j]);
    assert normalized[i..j] in Forms(normalized[i..j], particles);
  }

  // ---------------------------------------------------------------- which tokens there are

  ghost predicate LongestParticle(word: string, particles: seq<string>, p: string) {
    && p in particles && p != "" && EndsWith(word, p)
    && forall q :: q in particles && EndsWith(word, q) ==> |q| <= |p|
  }

  /** `r` is the word less the longest particle it ends in, and is not empty. */
  ghost predicate Stripped(word: string, particles: seq<string>, r: string) {
    r != "" && exists p :: LongestParticle(word, particles, p) && word == r + p
  }

  lemma StrippedIsStripOnce(word: string, particles: seq<string>, r: string)
    ensures Stripped(word, particles, r) <==> r == StripOnce(word, particles) && r != "" && r != word
  {
    StripOnceLongest(word, particles);
    var once := StripOnce(word, particles);
    if Stripped(word, particles, r) {
      var p :| LongestParticle(word, particles, p) && word == r + p;
      assert |p| <= |word| - |once|;
      SuffixOf(word, |once|);
      assert once == word[..|once|] && r == word[..|r|];
    }
    if r == once && r != "" && r != word {
      SuffixOf(word, |once|);
      assert LongestParticle(word, particles, word[|once|..]) && word == r + word[|once|..];
    }
  }

  lemma SuffixOf(word: string, n: nat)
    requires n <= |word|
    ensures EndsWith(word, word[n..]) && |word[n..]| == |word| - n
  {
  }

  /** Forms are closed under taking off the longest particle. */
  lemma {:induction false} FormsClosed(word: string, particles: seq<string>, form: string, r: string)
    requires form in Forms(word, particles) && Stripped(form, particles, r)
    ensures r in Forms(word, particles)
    decreases |word|
  {
    StrippedIsStripOnce(form, particles, r);
    var next := StripOnce(word, particles);
    if form == word {
      assert next in Forms(next, particles);
    } else {
      FormsClosed(next, particles, form, r);
    }
  }

  /** From the first word to the last, each time the longest particle goes. */
  ghost predicate StripChain(chain: seq<string>, particles: seq<string>, word: string, t: string) {
    && chain != [] && chain[0] == word && chain[|chain| - 1] == t
    && forall k :: 1 <= k < |chain| ==> Stripped(chain[k - 1], particles, chain[k])
  }

  lemma {:induction false} ChainGivesForm(chain: seq<string>, particles: seq<string>, word: string, t: string)
    requires StripChain(chain, particles, word, t)
    ensures t in Forms(word, particles)
    decreases |chain|
  {
    var n := |chain| - 1;
    if n > 0 {
      var init := chain[..n];
      assert StripChain(init, particles, word, chain[n - 1]);
      ChainGivesForm(init, particles, word, chain[n - 1]);
      FormsClosed(word, particles, chain[n - 1], t);
    }
  }

  lemma {:induction false} FormHasChain(word: string, particles: seq<string>, t: string) returns (chain: seq<string>)
    requires t in Forms(word, particles)
    ensures StripChain(chain, particles, word, t)
    decreases |word|
  {
    if t == word {
      chain := [word];
    } else {
      var next := StripOnce(word, particles);
      StrippedIsStripOnce(word, particles, next);
      var later := FormHasChain(next, particles, t);
      ChainPrepend(word, next, later, particles, t);
      chain := [word] + later;
    }
  }

  lemma ChainPrepend(word: string, next: string, later: seq<string>, particles: seq<string>, t: string)
    requires Stripped(word, particles, next) && StripChain(later, particles, next, t)
    ensures StripChain([word] + later, particles, word, t)
  {
    var chain := [word] + later;
    forall k | 1 <= k < |chain| ensures Stripped(chain[k - 1], particles, chain[k]) {
      assert chain[k] == later[k - 1];
      if k >= 2 { assert chain[k - 1] == later[k - 2]; }
    }
  }

  /** A run of the question from which taking off particles leads to `t`. */
  ghost predicate StemsFrom(delim: char -> bool, normalized: string, particles: seq<string>, t: string,
                            i: nat, j: nat, chain: seq<string>) {
    IsRun(delim, normalized, i, j) && StripChain(chain, particles, normalized[i..j], t)
  }

  ghost predicate Stems(delim: char -> bool, normalized: string, particles: seq<string>, t: string) {
    exists i: nat, j: nat, chain: seq<string> :: StemsFrom(delim, normalized, particles, t, i, j, chain)
  }

  /**
   * Main result: the tokens are what is long enough among the runs of the question and all that is left of them
   * when the longest particle is taken off again and again, as long as something is left.
   */
  lemma TokensAreStrippedRuns(delim: char -> bool, normalized: string, particles: seq<string>, minLen: int, t: string)
    ensures t in Tokens(delim, normalized, particles, minLen) <==>
              |t| >= minLen && Stems(delim, normalized, particles, t)
  {
    if t in Tokens(delim, normalized, particles, minLen) {
      var p := FormStems(SplitRuns(delim, normalized), particles, t);
      var i, j := PieceIsRun(delim, normalized, p);
      var chain := FormHasChain(p, particles, t);
      assert StemsFrom(delim, normalized, particles, t, i, j, chain);
    }
    if |t| >= minLen && Stems(delim, normalized, particles, t) {
      var i: nat, j: nat, chain: seq<string> :| StemsFrom(delim, normalized, particles, t, i, j, chain);
      ChainGivesForm(chain, particles, normalized[i..j], t);
      RunIsPiece(delim, normalized, i, j, normalized[i..j]);
      FormsIncluded(SplitRuns(delim, normalized), particles, normalized[i..j]);
    }
  }

  /** What is left of a token is a token while it is long enough. */
  lemma TokensClosed(delim: char -> bool, normalized: string, particles: seq<string>, minLen: int, t: string, r: string)
    requires t in Tokens(delim, normalized, particles, minLen) && Stripped(t, particles, r) && |r| >= minLen
    ensures r in Tokens(delim, normalized, particles, minLen)
  {
    var p := FormStems(SplitRuns(delim, normalized), particles, t);
    FormsClosed(p, particles, t, r);
    FormsIncluded(SplitRuns(delim, normalized), particles, p);
  }

  /** Stacked particles: of 회사에서부터 first 회사에서 is left, then 회사. */
  lemma StackedParticles(word: string, once: string, twice: string)
    requires word == "회사에서부터" && once == "회사에서" && twice == "회사"
    ensures once in ShippedTokens(word, 2) && twice in ShippedTokens(word, 2)
  {
    NoDelimiters(word);
    FirstStrip(word, once);
    SecondStrip(once, twice);
    TwoStrips(word, once, twice);
  }

  lemma NoDelimiters(word: string)
    requires word == "회사에서부터"
    ensures forall k :: 0 <= k < |word| ==> !IsDelimiter(word[k])
  {
  }

  lemma FirstStrip(word: string, once: string)
    requires word == "회사에서부터" && once == "회사에서"
    ensures Stripped(word, JOSA, once)
  {
    var p := JOSA[10];
    assert p == "부터" && word == once + p && once[3] == '서';
    ShortStripped(word, once, p);
  }

  lemma SecondStrip(once: string, twice: string)
    requires once == "회사에서" && twice == "회사"
    ensures Stripped(once, JOSA, twice)
  {
    var p := JOSA[6];
    assert p == "에서" && once == twice + p && twice[1] == '사';
    ShortStripped(once, twice, p);
  }

  lemma TwoStrips(word: string, once: string, twice: string)
    requires |word| >= 2 && |once| >= 2 && |twice| >= 2 && forall k :: 0 <= k < |word| ==> !IsDelimiter(word[k])
    requires Stripped(word, JOSA, once) && Stripped(once, JOSA, twice)
    ensures once in ShippedTokens(word, 2) && twice in ShippedTokens(word, 2)
  {
    OneWord(word);
    TokensClosed(IsDelimiter, word, JOSA, 2, word, once);
    TokensClosed(IsDelimiter, word, JOSA, 2, once, twice);
  }

  /** A question of one run. */
  lemma OneWord(word: string)
    requires |word| >= 2 && forall k :: 0 <= k < |word| ==> !IsDelimiter(word[k])
    ensures word in ShippedTokens(word, 2)
  {
    RunIsToken(IsDelimiter, word, JOSA, 2, 0, |word|);
    assert word[0..|word|] == word;
  }

  /** The third last character of a word that ends in one of the longer particles. */
  lemma LongEnding(word: string, q: string)
    requires q in JOSA && |q| >= 3 && EndsWith(word, q)
    ensures word[|word| - 3] in {'으', '로', '에', '한'}
  {
    assert q[|q| - 3] in {'으', '로', '에', '한'};
    assert word[|word| - |q|..][|q| - 3] == word[|word| - 3];
  }

  /** A particle of two characters behind a character no longer one could have there. */
  lemma ShortStripped(word: string, r: string, p: string)
    requires word == r + p && r != "" && |p| == 2 && p in JOSA && r[|r| - 1] !in {'으', '로', '에', '한'}
    ensures Stripped(word, JOSA, r)
  {
    SuffixOf(word, |r|);
    assert word[|word| - 3] == r[|r| - 1];
    forall q | q in JOSA && EndsWith(word, q) ensures |q| <= |p| {
      if |q| >= 3 { LongEnding(word, q); }
    }
    assert LongestParticle(word, JOSA, p);
  }
}
