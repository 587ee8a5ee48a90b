/** Candidate pooling, reranking and assembly (app/retrieve/orchestrator.py, app/retrieve/reranker.py). */
module Retrieval {
  import opened Numbers
  import opened Options
  import opened Sets
  import opened Text

  /** Graph and vector hits have the same fields. */
  datatype Hit = Hit(filename: string, page: int, text: string, score: real, document: string, index: int)
  datatype Cited = Cited(filename: string, page: int, text: string)
  type Key = (string, int)

  function KeyOf(h: Hit): Key { (h.document, h.index) }
  function Cite(h: Hit): Cited { Cited(h.filename, h.page, h.text) }
  function CiteAll(hits: seq<Hit>): seq<Cited> { seq(|hits|, k requires 0 <= k < |hits| => Cite(hits[k])) }

  // ---------------------------------------------------------------- pooling

  function Keys(hits: seq<Hit>): set<Key> { set k | 0 <= k < |hits| :: KeyOf(hits[k]) }

  /** First hit of every key. */
  function Dedup(hits: seq<Hit>): seq<Hit> {
    if hits == [] then []
    else
      var before, h := Dedup(hits[..|hits| - 1]), hits[|hits| - 1];
      if KeyOf(h) in Keys(before) then before else before + [h]
  }

  lemma KeysAppend(hits: seq<Hit>, h: Hit)
    ensures Keys(hits + [h]) == Keys(hits) + {KeyOf(h)}
  {
    assert (hits + [h])[|hits|] == h;
    forall k | 0 <= k < |hits| ensures KeyOf(hits[k]) in Keys(hits + [h]) { assert (hits + [h])[k] == hits[k]; }
  }

  method AddHits(pool0: seq<Hit>, seen0: set<Key>, hits: seq<Hit>, ghost before: seq<Hit>)
    returns (pool: seq<Hit>, seen: set<Key>)
    requires pool0 == Dedup(before) && seen0 == Keys(pool0)
    ensures pool == Dedup(before + hits) && seen == Keys(pool)
  {
    pool, seen := pool0, seen0;
    assert before + hits[..0] == before;
    for k := 0 to |hits|
      invariant pool == Dedup(before + hits[..k]) && seen == Keys(pool)
    {
      assert (before + hits[..k + 1])[..|before| + k] == before + hits[..k];
      var key := KeyOf(hits[k]);
      if key in seen { continue; }
      KeysAppend(pool, hits[k]);
      seen := seen + {key};
      pool := pool + [hits[k]];
    }
    assert hits[..|hits|] == hits;
  }

  method BuildCandidatePool(graphHits: seq<Hit>, vectorHits: seq<Hit>) returns (pool: seq<Hit>)
    ensures pool == Dedup(graphHits + vectorHits)
  {
    var seen: set<Key>;
    pool, seen := AddHits([], {}, graphHits, []);
    assert [] + graphHits == graphHits;
    pool, seen := AddHits(pool, seen, vectorHits, graphHits);
  }

  method MergeHits(out0: seq<Cited>, seen0: set<Key>, hits: seq<Hit>, ghost before: seq<Hit>)
    returns (out: seq<Cited>, seen: set<Key>)
    requires out0 == CiteAll(Dedup(before)) && seen0 == Keys(Dedup(before))
    ensures out == CiteAll(Dedup(before + hits)) && seen == Keys(Dedup(before + hits))
  {
    out, seen := out0, seen0;
    assert before + hits[..0] == before;
    for k := 0 to |hits|
      invariant out == CiteAll(Dedup(before + hits[..k])) && seen == Keys(Dedup(before + hits[..k]))
    {
      assert (before + hits[..k + 1])[..|before| + k] == before + hits[..k];
      var key := KeyOf(hits[k]);
      if key in seen { continue; }
      KeysAppend(Dedup(before + hits[..k]), hits[k]);
      seen := seen + {key};
      out := out + [Cite(hits[k])];
    }
    assert hits[..|hits|] == hits;
  }

  /** Merging is pooling, then dropping everything but the citation. */
  method Merge(graphHits: seq<Hit>, vectorHits: seq<Hit>) returns (out: seq<Cited>)
    ensures out == CiteAll(Dedup(graphHits + vectorHits))
  {
    var seen: set<Key>;
    out, seen := MergeHits([], {}, graphHits, []);
    assert [] + graphHits == graphHits;
    out, seen := MergeHits(out, seen, vectorHits, graphHits);
  }

  /** The same chunk of the same document. */
  predicate SameChunk(a: Hit, b: Hit) { a.document == b.document && a.index == b.index }

  predicate DistinctKeys(hits: seq<Hit>) {
    forall j, k :: 0 <= j < k < |hits| ==> !SameChunk(hits[j], hits[k])
  }

  predicate FirstOfKey(hits: seq<Hit>, i: nat) {
    i < |hits| && forall j :: 0 <= j < i ==> !SameChunk(hits[j], hits[i])
  }

  ghost predicate Selects(ix: seq<nat>, hits: seq<Hit>, picked: seq<Hit>) {
    && |ix| == |picked|
    && (forall k :: 0 <= k < |ix| ==> FirstOfKey(hits, ix[k]) && picked[k] == hits[ix[k]])
    && (forall j, k :: 0 <= j < k < |ix| ==> ix[j] < ix[k])
    && (forall i: nat :: FirstOfKey(hits, i) ==> i in ix)
  }

  /** Deduplication keeps the first hit of every key, in order, and no key is left out. */
  lemma {:induction false} DedupKeepsFirsts(hits: seq<Hit>) returns (ix: seq<nat>)
    ensures Selects(ix, hits, Dedup(hits)) && DistinctKeys(Dedup(hits)) && Keys(Dedup(hits)) == Keys(hits)
    ensures |Dedup(hits)| <= |hits|
  {
    if hits == [] {
      ix := [];
    } else {
      var n := |hits| - 1;
      var init, h := hits[..n], hits[n];
      ix := DedupKeepsFirsts(init);
      var before := Dedup(init);
      assert hits == init + [h];
      KeysAppend(init, h);
      KeysAppend(before, h);
      FirstIff(init, h);
      if KeyOf(h) in Keys(before) {
        SelectsSkip(ix, init, h, before);
      } else {
        NewKey(before, h);
        SelectsTake(ix, init, h, before);
        ix := ix + [n];
      }
    }
  }

  lemma SelectsSkip(ix: seq<nat>, init: seq<Hit>, h: Hit, picked: seq<Hit>)
    requires Selects(ix, init, picked) && !FirstOfKey(init + [h], |init|)
    ensures Selects(ix, init + [h], picked)
  {
    FirstsOfInit(init, h);
  }

  lemma SelectsTake(ix: seq<nat>, init: seq<Hit>, h: Hit, picked: seq<Hit>)
    requires Selects(ix, init, picked) && FirstOfKey(init + [h], |init|)
    ensures Selects(ix + [|init|], init + [h], picked + [h])
  {
    FirstsOfInit(init, h);
    var more := ix + [|init|];
    assert more[|ix|] == |init|;
    forall i: nat | FirstOfKey(init + [h], i) ensures i in more {
      if i < |init| { assert i in ix; }
    }
  }

  lemma FirstsOfInit(init: seq<Hit>, h: Hit)
    ensures forall i: nat :: i < |init| ==> (FirstOfKey(init + [h], i) <==> FirstOfKey(init, i))
  {
    forall i: nat | i < |init| ensures FirstOfKey(init + [h], i) <==> FirstOfKey(init, i) {
      assert forall j :: 0 <= j <= i ==> (init + [h])[j] == init[j];
    }
  }

  lemma FirstIff(init: seq<Hit>, h: Hit)
    ensures FirstOfKey(init + [h], |init|) <==> KeyOf(h) !in Keys(init)
  {
    if KeyOf(h) !in Keys(init) {
      NewKey(init, h);
    } else {
      var k :| 0 <= k < |init| && KeyOf(init[k]) == KeyOf(h);
      assert SameChunk((init + [h])[k], (init + [h])[|init|]);
    }
  }

  lemma NewKey(init: seq<Hit>, h: Hit)
    requires KeyOf(h) !in Keys(init)
    ensures forall k :: 0 <= k < |init| ==> !SameChunk(init[k], h)
  {
    forall k | 0 <= k < |init| ensures !SameChunk(init[k], h) { assert KeyOf(init[k]) in Keys(init); }
  }

  // ---------------------------------------------------------------- reranking

  /** What the cross-encoder gives back; loading or scoring may fail. */
  datatype Scores = Unavailable | Scalar(score: real) | Scored(scores: seq<real>)

  /** `i` ranks before `j`: higher score, or the same score and earlier in the input. */
  predicate Before(scores: seq<real>, i: nat, j: nat)
    requires i < |scores| && j < |scores|
  {
    scores[i] > scores[j] || (scores[i] == scores[j] && i < j)
  }

  /** `order` lists every index once, by descending score, ties in input order. */
  ghost predicate StableOrder(order: seq<nat>, scores: seq<real>) {
    && |order| == |scores|
    && (forall k :: 0 <= k < |order| ==> order[k] < |scores|)
    && (forall j, k :: 0 <= j < k < |order| ==> Before(scores, order[j], order[k]))
  }

  /** Where index `i` goes in a ranking of earlier indices: after everything scoring at least as high. */
  function Place(scores: seq<real>, order: seq<nat>, i: nat): (p: nat)
    requires i < |scores| && forall k :: 0 <= k < |order| ==> order[k] < |scores|
    ensures p <= |order|
    ensures forall k :: 0 <= k < p ==> scores[order[k]] >= scores[i]
    ensures p < |order| ==> scores[order[p]] < scores[i]
  {
    if order == [] || scores[order[0]] < scores[i] then 0
    else
      var p := Place(scores, order[1..], i);
      assert forall k :: 1 <= k < p + 1 ==> order[k] == order[1..][k - 1];
      p + 1
  }

  /** `sort(key=score, reverse=True)`: Python's sort is stable, also in reverse. */
  function SortDescending(scores: seq<real>, n: nat): (order: seq<nat>)
    requires n <= |scores|
    ensures |order| == n && forall k :: 0 <= k < n ==> order[k] < n
  {
    if n == 0 then []
    else
      var before := SortDescending(scores, n - 1);
      var p := Place(scores, before, n - 1);
      before[..p] + [n - 1] + before[p..]
  }

  lemma {:induction false} SortIsStable(scores: seq<real>, n: nat)
    requires n <= |scores|
    ensures forall j, k :: 0 <= j < k < n ==> Before(scores, SortDescending(scores, n)[j], SortDescending(scores, n)[k])
  {
    if n > 0 {
      SortIsStable(scores, n - 1);
      var before := SortDescending(scores, n - 1);
      var p := Place(scores, before, n - 1);
      InsertKeepsOrder(scores, before, n - 1, p);
    }
  }

  lemma InsertKeepsOrder(scores: seq<real>, before: seq<nat>, i: nat, p: nat)
    requires i < |scores| && p <= |before|
    requires forall k :: 0 <= k < |before| ==> before[k] < i
    requires forall j, k :: 0 <= j < k < |before| ==> Before(scores, before[j], before[k])
    requires forall k :: 0 <= k < p ==> scores[before[k]] >= scores[i]
    requires p < |before| ==> scores[before[p]] < scores[i]
    ensures var order := before[..p] + [i] + before[p..];
            forall j, k :: 0 <= j < k < |order| ==>
                order[j] < |scores| && order[k] < |scores| && Before(scores, order[j], order[k])
  {
    forall k | p <= k < |before| ensures scores[before[k]] < scores[i] {
      if k > p { assert Before(scores, before[p], before[k]); }
    }
  }

  /** Where two stable orders may first differ, the second one's index comes no earlier in the first. */
  lemma NotEarlier(a: seq<nat>, b: seq<nat>, scores: seq<real>, k: nat)
    requires StableOrder(a, scores) && StableOrder(b, scores) && k < |scores| && a[..k] == b[..k]
    ensures a[k] == b[k] || Before(scores, a[k], b[k])
  {
    var j := Position(a, scores, b[k]);
    forall m | 0 <= m < k ensures a[m] != b[k] {
      assert a[m] == a[..k][m] == b[..k][m] == b[m] && Before(scores, b[m], b[k]);
    }
    if j > k { assert Before(scores, a[k], a[j]); }
  }

  /** Only one order is stable: the ranking does not depend on how the sort is written. */
  lemma {:induction false} StableOrderUnique(a: seq<nat>, b: seq<nat>, scores: seq<real>, k: nat)
    requires StableOrder(a, scores) && StableOrder(b, scores) && k <= |scores|
    ensures a[..k] == b[..k]
  {
    if k > 0 {
      StableOrderUnique(a, b, scores, k - 1);
      NotEarlier(a, b, scores, k - 1);
      NotEarlier(b, a, scores, k - 1);
      assert a[..k] == a[..k - 1] + [a[k - 1]] && b[..k] == b[..k - 1] + [b[k - 1]];
    }
  }

  /** A stable order leaves no index out. */
  lemma Position(order: seq<nat>, scores: seq<real>, i: nat) returns (k: nat)
    requires StableOrder(order, scores) && i < |scores|
    ensures k < |order| && order[k] == i
  {
    var listed := set m | 0 <= m < |order| :: order[m];
    SizeOfImage(order, scores, |order|);
    assert |listed| == |scores|;
    Below(listed, |scores|);
    assert i in listed;
    k :| 0 <= k < |order| && order[k] == i;
  }

  lemma {:induction false} SizeOfImage(order: seq<nat>, scores: seq<real>, n: nat)
    requires StableOrder(order, scores) && n <= |order|
    ensures |set m | 0 <= m < n :: order[m]| == n
  {
    if n > 0 {
      SizeOfImage(order, scores, n - 1);
      var init := set m | 0 <= m < n - 1 :: order[m];
      assert forall m :: 0 <= m < n - 1 ==> Before(scores, order[m], order[n - 1]);
      assert (set m | 0 <= m < n :: order[m]) == init + {order[n - 1]};
    }
  }

  function Limit(topK: int, n: nat): nat
    requires n > 0
    ensures 1 <= Limit(topK, n) <= n
  {
    Max(1, Min(topK, n))
  }

  /** The scores are used only when there is a question, more than one hit, and one score per hit. */
  predicate Usable(question: string, hits: seq<Hit>, scores: Scores) {
    |hits| > 1 && Strip(question) != "" && scores.Scored? && |scores.scores| == |hits|
  }

  function Reranked(question: string, hits: seq<Hit>, topK: int, scores: Scores): seq<Hit> {
    if hits == [] then []
    else if Usable(question, hits, scores) then
      var ss := scores.scores;
      var order := SortDescending(ss, |ss|);
      seq(Limit(topK, |hits|), k requires 0 <= k < Limit(topK, |hits|) => hits[order[k]].(score := ss[order[k]]))
    else hits[..Limit(topK, |hits|)]
  }

  method Rerank(question: string, hits: seq<Hit>, topK: int, scores: Scores) returns (out: seq<Hit>)
    ensures out == Reranked(question, hits, topK, scores)
  {
    if hits == [] { return []; }
    var limit := Limit(topK, |hits|);
    if |hits| == 1 { return [hits[0]]; }
    if Strip(question) == "" { return hits[..limit]; }
    if scores.Unavailable? { return hits[..limit]; }
    var list := if scores.Scalar? then [scores.score] else scores.scores;
    if |list| != |hits| { return hits[..limit]; }
    var paired := SortDescending(list, |list|);
    out := seq(limit, k requires 0 <= k < limit => hits[paired[k]].(score := list[paired[k]]));
  }

  /** `kept` are the top hits under the scores, ties in input order; nothing omitted ranks before anything kept. */
  ghost predicate StableTop(hits: seq<Hit>, scores: seq<real>, order: seq<nat>, kept: seq<Hit>)
    requires |scores| == |hits|
  {
    && StableOrder(order, scores) && |kept| <= |hits|
    && (forall k :: 0 <= k < |kept| ==> kept[k] == hits[order[k]].(score := scores[order[k]]))
  }

  lemma RerankedIsStableTop(question: string, hits: seq<Hit>, topK: int, scores: Scores)
    requires Usable(question, hits, scores)
    ensures var ss := scores.scores;
            && StableTop(hits, ss, SortDescending(ss, |ss|), Reranked(question, hits, topK, scores))
            && |Reranked(question, hits, topK, scores)| == Limit(topK, |hits|)
  {
    SortIsStable(scores.scores, |scores.scores|);
  }

  // ---------------------------------------------------------------- the result

  datatype Settings = Settings(rerankerEnabled: bool, graphRerankFusion: bool, rerankerOversample: int)

  datatype RetrievalResult = RetrievalResult(modeUsed: string, chunks: seq<Cited>, raw: seq<Hit>)

  function Finalized(intent: string, question: string, graphHits: seq<Hit>, vectorHits: seq<Hit>, settings: Settings,
                     k: int, score: seq<Hit> -> Scores): RetrievalResult {
    if settings.rerankerEnabled && settings.graphRerankFusion then
      var pool := Dedup(graphHits + vectorHits);
      var raw := Reranked(question, pool, k, score(pool));
      RetrievalResult(intent, CiteAll(raw), raw)
    else
      var kept := if settings.rerankerEnabled then Reranked(question, vectorHits, k, score(vectorHits)) else vectorHits;
      RetrievalResult(intent, CiteAll(Dedup(graphHits + kept)), kept)
  }

  method Finalize(intent: string, question: string, graphHits: seq<Hit>, vectorHits: seq<Hit>, settings: Settings,
                  k: int, score: seq<Hit> -> Scores) returns (result: RetrievalResult)
    ensures result == Finalized(intent, question, graphHits, vectorHits, settings, k, score)
  {
    if settings.rerankerEnabled && settings.graphRerankFusion {
      var pool := BuildCandidatePool(graphHits, vectorHits);
      var reranked := Rerank(question, pool, k, score(pool));
      return RetrievalResult(intent, CiteAll(reranked), reranked);
    }
    var kept := vectorHits;
    if settings.rerankerEnabled && vectorHits != [] {
      kept := Rerank(question, vectorHits, k, score(vectorHits));
    }
    var chunks := Merge(graphHits, kept);
    result := RetrievalResult(intent, chunks, kept);
  }

  /** Fusion, scores usable: the unique stable top of the deduplicated pool, graph hits first among equals. */
  lemma FusionIsStableTop(intent: string, question: string, graphHits: seq<Hit>, vectorHits: seq<Hit>,
                          settings: Settings, k: int, score: seq<Hit> -> Scores, order: seq<nat>)
    requires settings.rerankerEnabled && settings.graphRerankFusion
    requires var pool := Dedup(graphHits + vectorHits);
             Usable(question, pool, score(pool)) && StableOrder(order, score(pool).scores)
    ensures var pool := Dedup(graphHits + vectorHits);
            var raw := Finalized(intent, question, graphHits, vectorHits, settings, k, score).raw;
            && |raw| == Max(1, Min(k, |pool|)) && DistinctKeys(raw)
            && StableTop(pool, score(pool).scores, order, raw)
  {
    var pool := Dedup(graphHits + vectorHits);
    var ix := DedupKeepsFirsts(graphHits + vectorHits);
    var ss := score(pool).scores;
    RankingIs(question, pool, k, score(pool), order);
    TopDistinct(pool, ss, order, Reranked(question, pool, k, score(pool)));
  }

  lemma TopDistinct(pool: seq<Hit>, scores: seq<real>, order: seq<nat>, kept: seq<Hit>)
    requires DistinctKeys(pool) && |scores| == |pool| && StableTop(pool, scores, order, kept)
    ensures DistinctKeys(kept)
  {
    forall i, j | 0 <= i < j < |kept| ensures !SameChunk(kept[i], kept[j]) {
      assert Before(scores, order[i], order[j]);
      assert order[i] < order[j] || order[j] < order[i];
      assert !SameChunk(pool[order[i]], pool[order[j]]);
    }
  }

  /** Any stable order of the scores gives the same ranking as the program's sort. */
  lemma RankingIs(question: string, pool: seq<Hit>, k: int, scores: Scores, order: seq<nat>)
    requires Usable(question, pool, scores) && StableOrder(order, scores.scores)
    ensures StableTop(pool, scores.scores, order, Reranked(question, pool, k, scores))
    ensures |Reranked(question, pool, k, scores)| == Limit(k, |pool|)
  {
    var ss := scores.scores;
    RerankedIsStableTop(question, pool, k, scores);
    var sorted := SortDescending(ss, |ss|);
    StableOrderUnique(sorted, order, ss, |ss|);
    assert sorted[..|ss|] == sorted && order[..|ss|] == order;
  }

  /** Nothing left out ranks before anything kept. */
  lemma NothingBetterOmitted(hits: seq<Hit>, scores: seq<real>, order: seq<nat>, kept: seq<Hit>, k: nat, omitted: nat)
    requires |scores| == |hits| && StableTop(hits, scores, order, kept)
    requires k < |kept| && omitted < |hits| && forall m :: 0 <= m < |kept| ==> order[m] != omitted
    ensures scores[omitted] <= kept[k].score && Before(scores, order[k], omitted)
  {
    var p := Position(order, scores, omitted);
    assert Before(scores, order[k], order[p]);
  }

  /** Fusion, scores unusable for whatever reason: the head of the pool, untouched. */
  lemma FusionFallsBackToPool(intent: string, question: string, graphHits: seq<Hit>, vectorHits: seq<Hit>,
                              settings: Settings, k: int, score: seq<Hit> -> Scores)
    requires settings.rerankerEnabled && settings.graphRerankFusion
    requires var pool := Dedup(graphHits + vectorHits); !Usable(question, pool, score(pool))
    ensures var pool := Dedup(graphHits + vectorHits);
            var raw := Finalized(intent, question, graphHits, vectorHits, settings, k, score).raw;
            raw == pool[..Min(Max(1, k), |pool|)] && DistinctKeys(raw)
  {
    var ix := DedupKeepsFirsts(graphHits + vectorHits);
  }

  /** The citation of a hit. */
  predicate Quotes(c: Cited, h: Hit) { c.filename == h.filename && c.page == h.page && c.text == h.text }

  predicate QuotesAll(chunks: seq<Cited>, hits: seq<Hit>) {
    |chunks| == |hits| && forall k :: 0 <= k < |chunks| ==> Quotes(chunks[k], hits[k])
  }

  lemma CitationsQuote(hits: seq<Hit>)
    ensures QuotesAll(CiteAll(hits), hits)
  {
  }

  /** The model gave one score to each hit of a real choice, for a question with content. */
  ghost predicate WellScored(question: string, hits: seq<Hit>, scores: Scores) {
    |hits| >= 2 && !Blank(question) && scores.Scored? && |scores.scores| == |hits|
  }

  lemma UsableIff(question: string, hits: seq<Hit>, scores: Scores)
    ensures Usable(question, hits, scores) <==> WellScored(question, hits, scores)
  {
    StripEmptyIff(question);
  }

  /** What reranking means, however the sort is written. */
  ghost predicate RankedBy(question: string, hits: seq<Hit>, k: int, scores: Scores, kept: seq<Hit>) {
    if WellScored(question, hits, scores) then
      |kept| == Max(1, Min(k, |hits|))
      && forall order :: StableOrder(order, scores.scores) ==> StableTop(hits, scores.scores, order, kept)
    else kept == hits[..Min(Max(1, k), |hits|)]
  }

  lemma RerankedIsRanked(question: string, hits: seq<Hit>, k: int, scores: Scores)
    ensures RankedBy(question, hits, k, scores, Reranked(question, hits, k, scores))
  {
    UsableIff(question, hits, scores);
    if WellScored(question, hits, scores) {
      forall order | StableOrder(order, scores.scores)
        ensures StableTop(hits, scores.scores, order, Reranked(question, hits, k, scores))
      {
        RankingIs(question, hits, k, scores, order);
      }
      RerankedIsStableTop(question, hits, k, scores);
    }
  }

  /**
   * Fusion off, the default: only the vector hits are ranked, and only by a reranker; the answer cites the first
   * hit of every chunk among the graph hits and then those.
   */
  lemma WithoutFusion(intent: string, question: string, graphHits: seq<Hit>, vectorHits: seq<Hit>,
                      settings: Settings, k: int, score: seq<Hit> -> Scores) returns (ix: seq<nat>)
    requires !(settings.rerankerEnabled && settings.graphRerankFusion)
    ensures var r := Finalized(intent, question, graphHits, vectorHits, settings, k, score);
            && r.modeUsed == intent
            && (!settings.rerankerEnabled ==> r.raw == vectorHits)
            && (settings.rerankerEnabled ==> RankedBy(question, vectorHits, k, score(vectorHits), r.raw))
            && exists firsts :: Selects(ix, graphHits + r.raw, firsts) && QuotesAll(r.chunks, firsts)
  {
    RerankedIsRanked(question, vectorHits, k, score(vectorHits));
    var all := graphHits + Finalized(intent, question, graphHits, vectorHits, settings, k, score).raw;
    ix := DedupKeepsFirsts(all);
    CitationsQuote(Dedup(all));
  }

  /** Fusion on: the pooled hits, one for each chunk, are ranked together, and the answer cites them in that order. */
  lemma WithFusion(intent: string, question: string, graphHits: seq<Hit>, vectorHits: seq<Hit>,
                   settings: Settings, k: int, score: seq<Hit> -> Scores) returns (ix: seq<nat>, pool: seq<Hit>)
    requires settings.rerankerEnabled && settings.graphRerankFusion
    ensures var r := Finalized(intent, question, graphHits, vectorHits, settings, k, score);
            && r.modeUsed == intent
            && Selects(ix, graphHits + vectorHits, pool)
            && RankedBy(question, pool, k, score(pool), r.raw)
            && QuotesAll(r.chunks, r.raw)
  {
    pool := Dedup(graphHits + vectorHits);
    ix := DedupKeepsFirsts(graphHits + vectorHits);
    RerankedIsRanked(question, pool, k, score(pool));
    CitationsQuote(Reranked(question, pool, k, score(pool)));
  }

  /** The default settings, one of two hits wanted: the one the reranker prefers. */
  lemma RerankerCanReorder(question: string, a: Hit, b: Hit, settings: Settings, score: seq<Hit> -> Scores)
    requires settings.rerankerEnabled && !settings.graphRerankFusion && !Blank(question)
    requires score([a, b]) == Scored([0.1, 0.9])
    ensures Finalized("fact", question, [], [a, b], settings, 1, score).raw == [b.(score := 0.9)]
  {
    var order := [1, 0];
    assert StableOrder(order, [0.1, 0.9]);
    var ix := WithoutFusion("fact", question, [], [a, b], settings, 1, score);
    var raw := Finalized("fact", question, [], [a, b], settings, 1, score).raw;
    assert StableTop([a, b], [0.1, 0.9], order, raw);
  }

  // ---------------------------------------------------------------- retrieve

  function Intent(mode: string, classified: string): string {
    if mode == "auto" then classified
    else if mode in {"casual", "fact", "analysis"} then mode
    else "fact"
  }

  function EffectiveK(intent: string, topK: int): int { if intent == "analysis" then topK * 2 else topK }

  /** With a reranker the vector search fetches more than is wanted. */
  function FetchK(settings: Settings, k: int): int {
    if settings.rerankerEnabled then k * Max(1, settings.rerankerOversample) else k
  }

  /** What a question that is not casual gets, from the hits each search returned. */
  function Retrieved(question: string, intent: string, topK: int, settings: Settings,
                     vectorHits: seq<Hit>, graph: Option<int -> seq<Hit>>, score: seq<Hit> -> Scores): RetrievalResult {
    var k := EffectiveK(intent, topK);
    Finalized(intent, question, if graph.Some? then graph.value(k) else [], vectorHits, settings, k, score)
  }

  /**
   * `vector(n)` searches for n hits, `None` being an error, which propagates. `graph(n)` likewise; `graph`
   * is `None` without a driver or when the search failed, which is no error.
   */
  method Retrieve(question: string, mode: string, classified: string, topK: int, settings: Settings,
                  vector: int -> Option<seq<Hit>>, graph: Option<int -> seq<Hit>>, score: seq<Hit> -> Scores)
    returns (result: Option<RetrievalResult>)
    requires forall n :: vector(n).Some? ==> |vector(n).value| <= Max(0, n)
    requires graph.Some? ==> forall n :: |graph.value(n)| <= Max(1, n)
    ensures var intent := Intent(mode, classified);
            if intent == "casual" then result == Some(RetrievalResult("casual", [], []))
            else
              var found := vector(FetchK(settings, EffectiveK(intent, topK)));
              result == if found.None? then None
                        else Some(Retrieved(question, intent, topK, settings, found.value, graph, score))
    ensures result.Some? ==> result.value.modeUsed == (if mode == "auto" then classified
                                                       else if mode == "casual" || mode == "analysis" then mode
                                                       else "fact")
    ensures result.Some? && result.value.modeUsed != "casual" ==>
              var k := if result.value.modeUsed == "analysis" then topK + topK else topK;
              var found := vector(if settings.rerankerEnabled then k * Max(1, settings.rerankerOversample) else k);
              && found.Some?
              && result.value == Finalized(result.value.modeUsed, question,
                                           if graph.Some? then graph.value(k) else [], found.value,
                                           settings, k, score)
              && |result.value.chunks| <= 2 * Max(1, k)
              && (settings.rerankerEnabled && settings.graphRerankFusion ==> |result.value.chunks| <= Max(1, k))
  {
    var intent := Intent(mode, classified);
    if intent == "casual" { return Some(RetrievalResult("casual", [], [])); }
    var k := EffectiveK(intent, topK);
    var fetch := if settings.rerankerEnabled then k * Max(1, settings.rerankerOversample) else k;
    var found := vector(fetch);
    if found.None? { return None; }
    var graphHits := if graph.Some? then graph.value(k) else [];
    var final := Finalize(intent, question, graphHits, found.value, settings, k, score);
    SizeOfResult(intent, question, graphHits, found.value, settings, k, score);
    result := Some(final);
  }

  lemma {:induction false} DedupGrows(a: seq<Hit>, b: seq<Hit>)
    ensures Dedup(a) <= Dedup(a + b)
    decreases |b|
  {
    if b == [] {
      assert a + b == a;
    } else {
      var n := |b| - 1;
      assert (a + b)[..|a + b| - 1] == a + b[..n];
      DedupGrows(a, b[..n]);
    }
  }

  /** Fusion off: the graph hits keep the top of the list, in their order, whatever the scores. */
  lemma GraphHitsStayOnTop(intent: string, question: string, graphHits: seq<Hit>, vectorHits: seq<Hit>,
                           settings: Settings, k: int, score: seq<Hit> -> Scores)
    requires !(settings.rerankerEnabled && settings.graphRerankFusion)
    ensures CiteAll(Dedup(graphHits)) <= Finalized(intent, question, graphHits, vectorHits, settings, k, score).chunks
  {
    var kept := if settings.rerankerEnabled then Reranked(question, vectorHits, k, score(vectorHits)) else vectorHits;
    DedupGrows(graphHits, kept);
    CitePrefix(Dedup(graphHits), Dedup(graphHits + kept));
  }

  lemma CitePrefix(a: seq<Hit>, b: seq<Hit>)
    requires a <= b
    ensures CiteAll(a) <= CiteAll(b)
  {
  }

  lemma RerankedSize(question: string, hits: seq<Hit>, k: int, scores: Scores)
    ensures |Reranked(question, hits, k, scores)| == Min(Max(1, k), |hits|)
  {
  }

  lemma SizeOfResult(intent: string, question: string, graphHits: seq<Hit>, vectorHits: seq<Hit>, settings: Settings,
                     k: int, score: seq<Hit> -> Scores)
    requires |graphHits| <= Max(1, k) && (!settings.rerankerEnabled ==> |vectorHits| <= Max(0, k))
    ensures var chunks := Finalized(intent, question, graphHits, vectorHits, settings, k, score).chunks;
            && |chunks| <= 2 * Max(1, k)
            && (settings.rerankerEnabled && settings.graphRerankFusion ==> |chunks| <= Max(1, k))
  {
    if settings.rerankerEnabled && settings.graphRerankFusion {
      var pool := Dedup(graphHits + vectorHits);
      RerankedSize(question, pool, k, score(pool));
    } else {
      RerankedSize(question, vectorHits, k, score(vectorHits));
      var kept := if settings.rerankerEnabled then Reranked(question, vectorHits, k, score(vectorHits)) else vectorHits;
      var ix := DedupKeepsFirsts(graphHits + kept);
    }
  }
}
