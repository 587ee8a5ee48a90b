/** Token-boundary seeding against substring seeding (app/retrieve/graph.py, app/retrieve/tokenizer.py). */
module Seeding {
  import opened Text
  import opened Sets
  import opened Tokenizer
  import opened Graph
  import opened GraphSearch

  /** `question CONTAINS toLower(name)`, the question stripped and lower-cased. */
  ghost predicate SubstringSeed(question: string, lower: string -> string, name: string) {
    Contains(lower(Strip(question)), lower(name))
  }

  /** `toLower(name) IN tokens AND size(name) >= min_len`. */
  predicate TokenSeed(tokens: set<string>, minLen: int, lower: string -> string, name: string) {
    lower(name) in tokens && |name| >= minLen
  }

  lemma TokenInsideStripped(delim: char -> bool, text: string, particles: seq<string>, minLen: int, t: string)
    requires forall c :: IsSpace(c) ==> delim(c)
    requires t in Tokens(delim, text, particles, minLen)
    ensures Contains(Strip(text), t)
  {
    var i, j, removed := TokenStemsFromRun(delim, text, particles, minLen, t);
    assert t == text[i..j][..|t|];
    var lo, hi := StripCut(text);
    RunKept(delim, text, i, j, lo, hi);
    PrefixInside(text, i, j, lo, hi, t);
  }

  /** What is stripped off a text holds no part of a run. */
  lemma RunKept(delim: char -> bool, text: string, i: nat, j: nat, lo: nat, hi: nat)
    requires IsRun(delim, text, i, j) && lo <= hi <= |text| && forall c :: IsSpace(c) ==> delim(c)
    requires forall k :: 0 <= k < lo || hi <= k < |text| ==> IsSpace(text[k])
    ensures lo <= i && j <= hi
  {
    assert !IsSpace(text[i]) && !IsSpace(text[j - 1]);
  }

  lemma PrefixInside(text: string, i: nat, j: nat, lo: nat, hi: nat, t: string)
    requires lo <= i < i + |t| <= hi <= |text| && i + |t| <= j <= |text| && t == text[i..j][..|t|]
    requires Strip(text) == text[lo..hi]
    ensures Contains(Strip(text), t)
  {
    var from := i - lo;
    forall k | 0 <= k < |t| ensures text[lo..hi][from..from + |t|][k] == t[k] {
      assert text[i..j][k] == text[i + k] == text[lo..hi][from + k];
    }
    assert At(Strip(text), t, i - lo);
  }

  /** Fewer seeds: no new row, no higher score. */
  lemma FewerSeedsFewerHits(g: Graph, tenant: Tenant, few: string -> bool, many: string -> bool)
    requires forall name :: few(name) ==> many(name)
    ensures forall p :: p in Hits(g, tenant, few) ==>
              p in Hits(g, tenant, many) && Hits(g, tenant, few)[p] <= Hits(g, tenant, many)[p]
  {
    forall p | p in Hits(g, tenant, few)
      ensures p in Hits(g, tenant, many) && Hits(g, tenant, few)[p] <= Hits(g, tenant, many)[p]
    {
      FewerSeedsLowerScore(g, tenant, few, many, p.0);
    }
  }

  lemma FewerSeedsLowerScore(g: Graph, tenant: Tenant, few: string -> bool, many: string -> bool, chunk: Id)
    requires forall name :: few(name) ==> many(name)
    ensures Score(g, tenant, few, chunk) <= Score(g, tenant, many, chunk)
  {
    forall e | InScope(g, tenant, few, e) ensures InScope(g, tenant, many, e) {
      if !few(e.name) {
        var s :| IsSeed(g, tenant, few, s) && Adjacent(g, s, e);
        assert IsSeed(g, tenant, many, s);
      }
    }
    SubsetSize(Matched(g, tenant, few, chunk), Matched(g, tenant, many, chunk));
  }

  /**
   * Main result: where normalising the question amounts to lower-casing it, token-boundary seeding only
   * ever narrows the substring search: its seeds, its rows and its scores are contained in the other's.
   */
  lemma TokenSeedingNarrows(g: Graph, tenant: Tenant, question: string, normalized: string, lower: string -> string,
                            delim: char -> bool, particles: seq<string>, minLen: int)
    requires forall c :: IsSpace(c) ==> delim(c)
    requires lower(Strip(question)) == Strip(normalized)
    ensures var tokens := Tokens(delim, normalized, particles, minLen);
            var few := (name: string) => TokenSeed(tokens, minLen, lower, name);
            var many := (name: string) => SubstringSeed(question, lower, name);
            && (forall name :: few(name) ==> many(name))
            && forall p :: p in Hits(g, tenant, few) ==>
                 p in Hits(g, tenant, many) && Hits(g, tenant, few)[p] <= Hits(g, tenant, many)[p]
  {
    var tokens := Tokens(delim, normalized, particles, minLen);
    var few := (name: string) => TokenSeed(tokens, minLen, lower, name);
    var many := (name: string) => SubstringSeed(question, lower, name);
    forall name | few(name) ensures many(name) {
      TokenInsideStripped(delim, normalized, particles, minLen, lower(name));
    }
    FewerSeedsFewerHits(g, tenant, few, many);
  }

  /** The delimiters of the tokenizer include all white space. */
  lemma SpacesDelimit()
    ensures forall c :: IsSpace(c) ==> IsDelimiter(c)
  {
  }

  /** The same for the delimiters and particles the service ships. */
  lemma ShippedSeedingNarrows(g: Graph, tenant: Tenant, question: string, normalized: string, lower: string -> string,
                              minLen: int)
    requires lower(Strip(question)) == Strip(normalized)
    ensures var tokens := ShippedTokens(normalized, minLen);
            var few := (name: string) => TokenSeed(tokens, minLen, lower, name);
            var many := (name: string) => SubstringSeed(question, lower, name);
            && (forall name :: few(name) ==> many(name))
            && forall p :: p in Hits(g, tenant, few) ==>
                 p in Hits(g, tenant, many) && Hits(g, tenant, few)[p] <= Hits(g, tenant, many)[p]
  {
    SpacesDelimit();
    TokenSeedingNarrows(g, tenant, question, normalized, lower, IsDelimiter, JOSA, minLen);
  }

  /** Token-boundary seeds are the names the question has as a word, particles aside. */
  lemma TokenSeedIff(normalized: string, lower: string -> string, delim: char -> bool, particles: seq<string>,
                     minLen: int, name: string)
    ensures TokenSeed(Tokens(delim, normalized, particles, minLen), minLen, lower, name) <==>
              |name| >= minLen && |lower(name)| >= minLen && Stems(delim, normalized, particles, lower(name))
  {
    TokensAreStrippedRuns(delim, normalized, particles, minLen, lower(name));
  }

  /** So a name inside a longer word is no seed, though the substring search takes it for one. */
  lemma InsideAWord(question: string, name: string)
    requires question == "부원장" && name == "원장"
    ensures SubstringSeed(question, (s: string) => s, name)
    ensures !TokenSeed(ShippedTokens(question, 2), 2, (s: string) => s, name)
  {
    OneWordOnly(question);
    assert At(question, name, 1);
    InsideIsContained(question, name, 1);
    InsideIsNoToken(question, name, 2);
  }

  lemma OneWordOnly(question: string)
    requires question == "부원장"
    ensures forall k :: 0 <= k < |question| ==> !IsDelimiter(question[k])
  {
  }

  lemma InsideIsContained(question: string, name: string, at: nat)
    requires forall k :: 0 <= k < |question| ==> !IsDelimiter(question[k])
    requires At(question, name, at) && question != ""
    ensures Contains(Strip(question), name)
  {
    var lo, hi := StripCut(question);
    assert !IsDelimiter(question[0]) && !IsDelimiter(question[|question| - 1]);
    assert question[lo..hi] == question;
  }

  /** The tokens of a question of one run start where it starts. */
  lemma TokenStarts(question: string, minLen: int, t: string)
    requires forall k :: 0 <= k < |question| ==> !IsDelimiter(question[k])
    requires t in ShippedTokens(question, minLen)
    ensures t != "" && question != "" && t[0] == question[0]
  {
    var i, j, removed := ShippedTokenStemsFromRun(question, minLen, t);
    assert i == 0 && question[i..j][0] == question[0];
  }

  lemma InsideIsNoToken(question: string, name: string, minLen: int)
    requires forall k :: 0 <= k < |question| ==> !IsDelimiter(question[k])
    requires question != "" && name != "" && name[0] != question[0]
    ensures name !in ShippedTokens(question, minLen)
  {
    if name in ShippedTokens(question, minLen) { TokenStarts(question, minLen, name); }
  }
}
