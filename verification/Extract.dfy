/** Turning the decoded model reply into entities and relations: `_parse` (app/ingest/graph_extract.py). */
module Extract {
  import opened Numbers
  import opened Options
  import opened Text

  datatype ExtractedEntity = ExtractedEntity(name: string, kind: string, description: string)
  datatype ExtractedRelation = ExtractedRelation(source: string, target: string, kind: string, description: string)
  datatype ChunkExtraction = ChunkExtraction(entities: seq<ExtractedEntity>, relations: seq<ExtractedRelation>)

  const EMPTY_EXTRACTION := ChunkExtraction([], [])

  /** `_MAX_CHARS_PER_CHUNK`: where the text of a chunk is cut before the model sees it. */
  const EXTRACT_CUT := 4000

  /** The part of a chunk the model reads. */
  function Extracted(text: string): (seen: string)
    ensures seen <= text && |seen| == Min(4000, |text|)
  {
    text[..Min(EXTRACT_CUT, |text|)]
  }

  /** Elements of the decoded "entities" and "relations" arrays; anything but an object is skipped. */
  datatype RawEntity = NoEntity | RawEntity(name: string, kind: string, description: string)
  datatype RawRelation = NoRelation | RawRelation(source: string, target: string, kind: string, description: string)

  /** A field of the reply: something to loop over, nothing (`or []`), or a value no loop accepts, such as 5. */
  datatype Field<T> = Items(elements: seq<T>) | Falsy | NotIterable

  function Elements<T>(f: Field<T>): seq<T>
    requires !f.NotIterable?
  {
    if f.Falsy? then [] else f.elements
  }

  datatype Reply = Undecodable | NotAnObject | Object(entities: Field<RawEntity>, relations: Field<RawRelation>)

  const VALID_TYPES: set<string> := {
    "PERSON", "ORG", "LOCATION", "EVENT", "PRODUCT", "DATE", "MONEY", "POLICY", "CONCEPT", "OTHER"
  }

  // ---------------------------------------------------------------- specification

  function Names(entities: seq<ExtractedEntity>): set<string> {
    set k | 0 <= k < |entities| :: entities[k].name
  }

  lemma NamesAppend(es: seq<ExtractedEntity>, e: ExtractedEntity)
    ensures Names(es + [e]) == Names(es) + {e.name}
  {
    assert (es + [e])[|es|] == e;
    forall k | 0 <= k < |es| ensures es[k].name in Names(es + [e]) { assert (es + [e])[k] == es[k]; }
  }

  function Typed(raw: RawEntity, upper: string -> string): ExtractedEntity
    requires raw.RawEntity?
  {
    var kind := upper(Strip(raw.kind));
    ExtractedEntity(Strip(raw.name), if kind in VALID_TYPES then kind else "OTHER", raw.description)
  }

  function Entities(raws: seq<RawEntity>, upper: string -> string): seq<ExtractedEntity> {
    if raws == [] then []
    else
      var before, raw := Entities(raws[..|raws| - 1], upper), raws[|raws| - 1];
      if raw.NoEntity? || Strip(raw.name) == "" || Strip(raw.name) in Names(before) then before
      else before + [Typed(raw, upper)]
  }

  predicate Kept(raw: RawRelation, names: set<string>) {
    && raw.RawRelation?
    && Strip(raw.source) != "" && Strip(raw.target) != ""
    && Strip(raw.source) in names && Strip(raw.target) in names
  }

  function Named(raw: RawRelation): ExtractedRelation
    requires raw.RawRelation?
  {
    var kind := Strip(raw.kind);
    ExtractedRelation(Strip(raw.source), Strip(raw.target), if kind != "" then kind else "related", raw.description)
  }

  function Relations(raws: seq<RawRelation>, names: set<string>): seq<ExtractedRelation> {
    if raws == [] then []
    else
      var before, raw := Relations(raws[..|raws| - 1], names), raws[|raws| - 1];
      if Kept(raw, names) then before + [Named(raw)] else before
  }

  /** What the two arrays come to. */
  function Collected(rawEntities: seq<RawEntity>, rawRelations: seq<RawRelation>,
                     upper: string -> string): ChunkExtraction {
    var entities := Entities(rawEntities, upper);
    ChunkExtraction(entities, Relations(rawRelations, Names(entities)))
  }

  /** `_parse`; `None` when it raises. */
  function Parsed(reply: Reply, upper: string -> string): Option<ChunkExtraction> {
    match reply
    case Undecodable => Some(EMPTY_EXTRACTION)
    case NotAnObject => Some(EMPTY_EXTRACTION)
    case Object(entities, relations) =>
      if entities.NotIterable? || relations.NotIterable? then None
      else Some(Collected(Elements(entities), Elements(relations), upper))
  }

  /** `extract_entities_and_relations`; `model` answers a snippet, `None` when the call fails. */
  function ExtractionOf(text: string, model: string -> Option<Reply>,
                        upper: string -> string): Option<ChunkExtraction> {
    if Strip(text) == "" then Some(EMPTY_EXTRACTION)
    else
      match model(Extracted(text))
      case None => Some(EMPTY_EXTRACTION)
      case Some(reply) => Parsed(reply, upper)
  }

  // ---------------------------------------------------------------- the program

  method Parse(reply: Reply, upper: string -> string) returns (result: Option<ChunkExtraction>)
    ensures result == Parsed(reply, upper)
  {
    if !reply.Object? { return Some(EMPTY_EXTRACTION); }
    if reply.entities.NotIterable? { return None; }
    var entities, names := ParseEntities(Elements(reply.entities), upper);
    if reply.relations.NotIterable? { return None; }
    var relations := ParseRelations(Elements(reply.relations), names);
    result := Some(ChunkExtraction(entities, relations));
  }

  method ExtractEntitiesAndRelations(text: string, model: string -> Option<Reply>, upper: string -> string)
    returns (result: Option<ChunkExtraction>)
    ensures result == ExtractionOf(text, model, upper)
  {
    if Strip(text) == "" { return Some(EMPTY_EXTRACTION); }
    var reply := model(Extracted(text));
    if reply.None? { return Some(EMPTY_EXTRACTION); }
    result := Parse(reply.value, upper);
  }

  method ParseEntities(rawEntities: seq<RawEntity>, upper: string -> string)
    returns (entities: seq<ExtractedEntity>, seenNames: set<string>)
    ensures entities == Entities(rawEntities, upper) && seenNames == Names(entities)
  {
    entities, seenNames := [], {};
    for k := 0 to |rawEntities|
      invariant entities == Entities(rawEntities[..k], upper) && seenNames == Names(entities)
    {
      assert rawEntities[..k + 1][..k] == rawEntities[..k];
      var raw := rawEntities[k];
      if raw.NoEntity? { continue; }
      var name := Strip(raw.name);
      if name == "" || name in seenNames { continue; }
      var kind := upper(Strip(raw.kind));
      entities := entities + [ExtractedEntity(name, if kind in VALID_TYPES then kind else "OTHER", raw.description)];
      seenNames := seenNames + {name};
      NamesAppend(entities[..|entities| - 1], entities[|entities| - 1]);
    }
    assert rawEntities[..|rawEntities|] == rawEntities;
  }

  method ParseRelations(rawRelations: seq<RawRelation>, seenNames: set<string>)
    returns (relations: seq<ExtractedRelation>)
    ensures relations == Relations(rawRelations, seenNames)
  {
    relations := [];
    for k := 0 to |rawRelations|
      invariant relations == Relations(rawRelations[..k], seenNames)
    {
      assert rawRelations[..k + 1][..k] == rawRelations[..k];
      var raw := rawRelations[k];
      if raw.NoRelation? { continue; }
      var source, target := Strip(raw.source), Strip(raw.target);
      if source == "" || target == "" || source !in seenNames || target !in seenNames { continue; }
      var kind := Strip(raw.kind);
      relations := relations
        + [ExtractedRelation(source, target, if kind != "" then kind else "related", raw.description)];
    }
    assert rawRelations[..|rawRelations|] == rawRelations;
  }

  // ---------------------------------------------------------------- what an extraction guarantees

  predicate Distinct(es: seq<ExtractedEntity>) {
    && (forall k :: 0 <= k < |es| ==> es[k].name != "" && es[k].kind in VALID_TYPES)
    && (forall j, k :: 0 <= j < k < |es| ==> es[j].name != es[k].name)
  }

  predicate WellFormed(x: ChunkExtraction) {
    Distinct(x.entities) && AllClosed(x.relations, x.entities)
  }

  predicate AllClosed(rs: seq<ExtractedRelation>, entities: seq<ExtractedEntity>) {
    forall k :: 0 <= k < |rs| ==> rs[k].kind != "" && Closed(rs[k], entities)
  }

  predicate NoneDropped(raws: seq<RawRelation>, names: set<string>, rs: seq<ExtractedRelation>) {
    forall i :: 0 <= i < |raws| && Kept(raws[i], names) ==> Named(raws[i]) in rs
  }

  predicate Closed(r: ExtractedRelation, entities: seq<ExtractedEntity>) {
    r.source in Names(entities) && r.target in Names(entities)
  }

  /** Entity `k` of the result stems from the first raw entity of its name. */
  predicate FirstOfName(raws: seq<RawEntity>, i: nat) {
    && i < |raws| && raws[i].RawEntity?
    && forall j :: 0 <= j < i && raws[j].RawEntity? ==> Strip(raws[j].name) != Strip(raws[i].name)
  }

  lemma {:induction false} EntitiesDistinct(raws: seq<RawEntity>, upper: string -> string)
    ensures Distinct(Entities(raws, upper))
  {
    if raws != [] {
      var init := raws[..|raws| - 1];
      EntitiesDistinct(init, upper);
      var before := Entities(init, upper);
      forall k | 0 <= k < |before| ensures before[k].name in Names(before) {}
    }
  }

  /** A usable name is always kept, with the type and description of its first occurrence. */
  lemma {:induction false} FirstOfNameKept(raws: seq<RawEntity>, upper: string -> string, i: nat)
    requires i < |raws| && raws[i].RawEntity? && Strip(raws[i].name) != ""
    ensures Strip(raws[i].name) in Names(Entities(raws, upper))
    ensures FirstOfName(raws, i) ==> Typed(raws[i], upper) in Entities(raws, upper)
    decreases |raws|
  {
    var n := |raws| - 1;
    var before := Entities(raws[..n], upper);
    NamesGrow(before, Entities(raws, upper));
    if i < n {
      FirstOfNameKept(raws[..n], upper, i);
      assert FirstOfName(raws, i) ==> FirstOfName(raws[..n], i);
    } else {
      LastKept(raws, upper);
    }
  }

  lemma LastKept(raws: seq<RawEntity>, upper: string -> string)
    requires raws != [] && raws[|raws| - 1].RawEntity? && Strip(raws[|raws| - 1].name) != ""
    ensures var n := |raws| - 1;
            && (Strip(raws[n].name) in Names(Entities(raws[..n], upper)) ||
                Entities(raws, upper) == Entities(raws[..n], upper) + [Typed(raws[n], upper)])
            && Strip(raws[n].name) in Names(Entities(raws, upper))
            && (FirstOfName(raws, n) ==> Typed(raws[n], upper) in Entities(raws, upper))
  {
    var n := |raws| - 1;
    var before := Entities(raws[..n], upper);
    NamesGrow(before, Entities(raws, upper));
    if FirstOfName(raws, n) { FirstIsNew(raws, upper, n); }
    if Strip(raws[n].name) !in Names(before) {
      assert Entities(raws, upper)[|before|] == Typed(raws[n], upper);
    }
  }

  /** And nothing else is: every kept entity is the first occurrence of its name. */
  lemma {:induction false} KeptIsFirstOfName(raws: seq<RawEntity>, upper: string -> string, e: ExtractedEntity)
    returns (i: nat)
    requires e in Entities(raws, upper)
    ensures FirstOfName(raws, i) && Strip(raws[i].name) != "" && e == Typed(raws[i], upper)
  {
    var n := |raws| - 1;
    if e in Entities(raws[..n], upper) {
      i := KeptIsFirstOfName(raws[..n], upper, e);
      FirstStays(raws, n, i);
    } else {
      i := n;
      LastIsNew(raws, upper, e);
    }
  }

  lemma FirstStays(raws: seq<RawEntity>, n: nat, i: nat)
    requires n <= |raws| && FirstOfName(raws[..n], i)
    ensures FirstOfName(raws, i) && raws[i] == raws[..n][i]
  {
    assert forall j :: 0 <= j < n ==> raws[j] == raws[..n][j];
  }

  lemma LastIsNew(raws: seq<RawEntity>, upper: string -> string, e: ExtractedEntity)
    requires raws != [] && e in Entities(raws, upper) && e !in Entities(raws[..|raws| - 1], upper)
    ensures FirstOfName(raws, |raws| - 1) && Strip(raws[|raws| - 1].name) != "" && e == Typed(raws[|raws| - 1], upper)
  {
    NewIsFirst(raws, upper);
  }

  lemma NewIsFirst(raws: seq<RawEntity>, upper: string -> string)
    requires raws != [] && raws[|raws| - 1].RawEntity? && Strip(raws[|raws| - 1].name) != ""
    requires Strip(raws[|raws| - 1].name) !in Names(Entities(raws[..|raws| - 1], upper))
    ensures FirstOfName(raws, |raws| - 1)
  {
    var n := |raws| - 1;
    forall j | 0 <= j < n && raws[j].RawEntity? ensures Strip(raws[j].name) != Strip(raws[n].name) {
      if Strip(raws[j].name) == Strip(raws[n].name) { FirstOfNameKept(raws[..n], upper, j); }
    }
  }

  lemma NamesGrow(before: seq<ExtractedEntity>, after: seq<ExtractedEntity>)
    requires before <= after
    ensures Names(before) <= Names(after)
  {
    forall name | name in Names(before) ensures name in Names(after) {
      var k :| 0 <= k < |before| && before[k].name == name;
      assert after[k].name == name;
    }
  }

  lemma {:induction false} NameStems(raws: seq<RawEntity>, upper: string -> string, name: string) returns (j: nat)
    requires name in Names(Entities(raws, upper))
    ensures j < |raws| && raws[j].RawEntity? && Strip(raws[j].name) == name
  {
    var init := raws[..|raws| - 1];
    if name in Names(Entities(init, upper)) {
      j := NameStems(init, upper, name);
    } else {
      j := |raws| - 1;
    }
  }

  lemma FirstIsNew(raws: seq<RawEntity>, upper: string -> string, i: nat)
    requires FirstOfName(raws, i)
    ensures Strip(raws[i].name) !in Names(Entities(raws[..i], upper))
  {
    if Strip(raws[i].name) in Names(Entities(raws[..i], upper)) {
      var j := NameStems(raws[..i], upper, Strip(raws[i].name));
    }
  }

  lemma {:induction false} RelationsClosed(raws: seq<RawRelation>, entities: seq<ExtractedEntity>)
    ensures AllClosed(Relations(raws, Names(entities)), entities)
    ensures NoneDropped(raws, Names(entities), Relations(raws, Names(entities)))
  {
    if raws != [] {
      var init := raws[..|raws| - 1];
      RelationsClosed(init, entities);
      var rs := Relations(raws, Names(entities));
      forall i | 0 <= i < |raws| && Kept(raws[i], Names(entities)) ensures Named(raws[i]) in rs {
        if i < |init| { assert init[i] == raws[i]; } else { assert rs[|rs| - 1] == Named(raws[i]); }
      }
    }
  }

  lemma CollectedWellFormed(rawEntities: seq<RawEntity>, rawRelations: seq<RawRelation>, upper: string -> string)
    ensures var x := Collected(rawEntities, rawRelations, upper);
            WellFormed(x) && NoneDropped(rawRelations, Names(x.entities), x.relations)
  {
    EntitiesDistinct(rawEntities, upper);
    RelationsClosed(rawRelations, Entities(rawEntities, upper));
  }

  /** A reply that is parsed at all gives a well-formed extraction with every relation between kept entities. */
  lemma ParsedWellFormed(reply: Reply, upper: string -> string)
    requires Parsed(reply, upper).Some?
    ensures var x := Parsed(reply, upper).value;
            && WellFormed(x)
            && (reply.Object? ==> NoneDropped(Elements(reply.relations), Names(x.entities), x.relations))
  {
    if reply.Object? { CollectedWellFormed(Elements(reply.entities), Elements(reply.relations), upper); }
  }

  /** The model answered a text that is not blank with a field that no loop accepts. */
  predicate Raises(text: string, model: string -> Option<Reply>) {
    && Strip(text) != "" && model(Extracted(text)).Some?
    && var reply := model(Extracted(text)).value;
       reply.Object? && (reply.entities.NotIterable? || reply.relations.NotIterable?)
  }

  /** Extraction raises on such a reply and on nothing else; otherwise what it gives is well formed. */
  lemma ExtractionRaisesIff(text: string, model: string -> Option<Reply>, upper: string -> string)
    ensures ExtractionOf(text, model, upper).None? <==> Raises(text, model)
    ensures ExtractionOf(text, model, upper).Some? ==> WellFormed(ExtractionOf(text, model, upper).value)
  {
    if Strip(text) != "" && model(Extracted(text)).Some? && !Raises(text, model) {
      ParsedWellFormed(model(Extracted(text)).value, upper);
    }
  }

  // ---------------------------------------------------------------- which elements are kept, and how

  /** Name and type stripped, the type in upper case if it is a valid one; the description as it is. */
  predicate EntityFrom(e: ExtractedEntity, raw: RawEntity, upper: string -> string) {
    && raw.RawEntity? && e.name == Strip(raw.name) && e.description == raw.description
    && (upper(Strip(raw.kind)) in VALID_TYPES ==> e.kind == upper(Strip(raw.kind)))
    && (upper(Strip(raw.kind)) !in VALID_TYPES ==> e.kind == "OTHER")
  }

  /** From the stripped source to the stripped target, "related" when the reply names no kind. */
  predicate RelationFrom(r: ExtractedRelation, raw: RawRelation) {
    && raw.RawRelation? && r.source == Strip(raw.source) && r.target == Strip(raw.target)
    && r.description == raw.description
    && (Strip(raw.kind) != "" ==> r.kind == Strip(raw.kind)) && (Strip(raw.kind) == "" ==> r.kind == "related")
  }

  predicate Increasing(ix: seq<nat>, n: nat) {
    (forall k :: 0 <= k < |ix| ==> ix[k] < n) && forall j, k :: 0 <= j < k < |ix| ==> ix[j] < ix[k]
  }

  lemma IncreasingMore(ix: seq<nat>, n: nat)
    requires Increasing(ix, n)
    ensures Increasing(ix + [n], n + 1)
  {
  }

  /** The kept entities are the first usable ones of their names, in order, and no such one is left out. */
  ghost predicate EntitiesSelected(ix: seq<nat>, raws: seq<RawEntity>, es: seq<ExtractedEntity>,
                                   upper: string -> string) {
    && |ix| == |es| && Increasing(ix, |raws|)
    && (forall k :: 0 <= k < |ix| ==> FirstOfName(raws, ix[k]) && EntityFrom(es[k], raws[ix[k]], upper))
    && (forall i: nat :: FirstOfName(raws, i) && Strip(raws[i].name) != "" ==> i in ix)
  }

  lemma {:induction false} EntitiesAreFirsts(raws: seq<RawEntity>, upper: string -> string) returns (ix: seq<nat>)
    ensures EntitiesSelected(ix, raws, Entities(raws, upper), upper)
  {
    ix := [];
    if raws != [] {
      var n := |raws| - 1;
      var before := Entities(raws[..n], upper);
      ix := EntitiesAreFirsts(raws[..n], upper);
      if raws[n].RawEntity? && Strip(raws[n].name) != "" && Strip(raws[n].name) !in Names(before) {
        NewIsFirst(raws, upper);
        EntitiesTake(ix, raws, before, Typed(raws[n], upper), upper);
        ix := ix + [n];
      } else {
        if FirstOfName(raws, n) { FirstIsNew(raws, upper, n); }
        EntitiesSkip(ix, raws, before, upper);
      }
    }
  }

  lemma EntitiesTake(ix: seq<nat>, raws: seq<RawEntity>, es: seq<ExtractedEntity>, e: ExtractedEntity,
                     upper: string -> string)
    requires raws != [] && EntitiesSelected(ix, raws[..|raws| - 1], es, upper)
    requires FirstOfName(raws, |raws| - 1) && EntityFrom(e, raws[|raws| - 1], upper)
    ensures EntitiesSelected(ix + [|raws| - 1], raws, es + [e], upper)
  {
    var n := |raws| - 1;
    IncreasingMore(ix, n);
    FirstsOfInit(raws);
    var more := ix + [n];
    assert more[|ix|] == n;
    forall i: nat | FirstOfName(raws, i) && Strip(raws[i].name) != "" ensures i in more {
      if i < n { assert FirstOfName(raws[..n], i) && i in ix; }
    }
    forall k | 0 <= k < |more| ensures FirstOfName(raws, more[k]) && EntityFrom((es + [e])[k], raws[more[k]], upper) {
      if k < |ix| { assert FirstOfName(raws[..n], ix[k]); }
    }
  }

  lemma EntitiesSkip(ix: seq<nat>, raws: seq<RawEntity>, es: seq<ExtractedEntity>, upper: string -> string)
    requires raws != [] && EntitiesSelected(ix, raws[..|raws| - 1], es, upper)
    requires FirstOfName(raws, |raws| - 1) ==> Strip(raws[|raws| - 1].name) == ""
    ensures EntitiesSelected(ix, raws, es, upper)
  {
    var n := |raws| - 1;
    FirstsOfInit(raws);
    forall i: nat | FirstOfName(raws, i) && Strip(raws[i].name) != "" ensures i in ix {
      assert FirstOfName(raws[..n], i);
    }
    forall k | 0 <= k < |ix| ensures FirstOfName(raws, ix[k]) && EntityFrom(es[k], raws[ix[k]], upper) {
      assert FirstOfName(raws[..n], ix[k]);
    }
  }

  lemma FirstsOfInit(raws: seq<RawEntity>)
    requires raws != []
    ensures forall i: nat :: i < |raws| - 1 ==> (FirstOfName(raws[..|raws| - 1], i) <==> FirstOfName(raws, i))
  {
    forall i: nat | i < |raws| - 1 ensures FirstOfName(raws[..|raws| - 1], i) <==> FirstOfName(raws, i) {
      assert forall j :: 0 <= j <= i ==> raws[..|raws| - 1][j] == raws[j];
    }
  }

  predicate BetweenKept(raw: RawRelation, names: set<string>) {
    raw.RawRelation? && {Strip(raw.source), Strip(raw.target)} <= names
  }

  /** The kept relations are those between kept entities, in order, and no such one is left out. */
  ghost predicate RelationsSelected(ix: seq<nat>, raws: seq<RawRelation>, names: set<string>,
                                    rs: seq<ExtractedRelation>) {
    && |ix| == |rs| && Increasing(ix, |raws|)
    && (forall k :: 0 <= k < |ix| ==> BetweenKept(raws[ix[k]], names) && RelationFrom(rs[k], raws[ix[k]]))
    && (forall i: nat :: i < |raws| && BetweenKept(raws[i], names) ==> i in ix)
  }

  lemma {:induction false} RelationsAreKept(raws: seq<RawRelation>, names: set<string>) returns (ix: seq<nat>)
    requires "" !in names
    ensures RelationsSelected(ix, raws, names, Relations(raws, names))
  {
    ix := [];
    if raws != [] {
      var n := |raws| - 1;
      ix := RelationsAreKept(raws[..n], names);
      if Kept(raws[n], names) {
        RelationsTake(ix, raws, names, Relations(raws[..n], names), Named(raws[n]));
        ix := ix + [n];
      }
    }
  }

  lemma RelationsTake(ix: seq<nat>, raws: seq<RawRelation>, names: set<string>, rs: seq<ExtractedRelation>,
                      r: ExtractedRelation)
    requires raws != [] && RelationsSelected(ix, raws[..|raws| - 1], names, rs)
    requires BetweenKept(raws[|raws| - 1], names) && RelationFrom(r, raws[|raws| - 1])
    ensures RelationsSelected(ix + [|raws| - 1], raws, names, rs + [r])
  {
    var n := |raws| - 1;
    IncreasingMore(ix, n);
    var more := ix + [n];
    assert more[|ix|] == n;
    forall i: nat | i < |raws| && BetweenKept(raws[i], names) ensures i in more {
      if i < n { assert raws[..n][i] == raws[i] && i in ix; }
    }
  }

  lemma NamesNotEmpty(raws: seq<RawEntity>, upper: string -> string)
    ensures "" !in Names(Entities(raws, upper))
  {
    if "" in Names(Entities(raws, upper)) {
      var k :| 0 <= k < |Entities(raws, upper)| && Entities(raws, upper)[k].name == "";
      var i := KeptIsFirstOfName(raws, upper, Entities(raws, upper)[k]);
    }
  }

  /** Main result: what a reply comes to, element by element. */
  lemma ParsedElements(reply: Reply, upper: string -> string) returns (es: seq<nat>, rs: seq<nat>)
    requires reply.Object? && Parsed(reply, upper).Some?
    ensures var x := Parsed(reply, upper).value;
            && EntitiesSelected(es, Elements(reply.entities), x.entities, upper)
            && RelationsSelected(rs, Elements(reply.relations), Names(x.entities), x.relations)
  {
    es := EntitiesAreFirsts(Elements(reply.entities), upper);
    NamesNotEmpty(Elements(reply.entities), upper);
    rs := RelationsAreKept(Elements(reply.relations), Names(Entities(Elements(reply.entities), upper)));
  }
}
