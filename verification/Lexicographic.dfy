/** Python's `sorted` on strings. */
module Lexicographic {

  /** `a < b`, code point by code point. */
  predicate Less(a: string, b: string) {
    b != "" && (a == "" || a[0] < b[0] || (a[0] == b[0] && Less(a[1..], b[1..])))
  }

  lemma {:induction false} LessTrichotomy(a: string, b: string)
    ensures a == b || Less(a, b) || Less(b, a)
    ensures !(Less(a, b) && Less(b, a)) && !Less(a, a)
  {
    if a != "" && b != "" {
      LessTrichotomy(a[1..], b[1..]);
      assert a == [a[0]] + a[1..] && b == [b[0]] + b[1..];
    }
    if a != "" { LessTrichotomy(a[1..], a[1..]); }
  }

  lemma {:induction false} LessTransitive(a: string, b: string, c: string)
    requires Less(a, b) && Less(b, c)
    ensures Less(a, c)
  {
    if a != "" && a[0] == b[0] && b[0] == c[0] { LessTransitive(a[1..], b[1..], c[1..]); }
  }

  predicate Ascending(ts: seq<string>) {
    forall j, k :: 0 <= j < k < |ts| ==> Less(ts[j], ts[k])
  }

  predicate SameMembers(ts: seq<string>, tokens: set<string>) {
    (forall t :: t in ts ==> t in tokens) && (forall t :: t in tokens ==> t in ts)
  }

  lemma InsertAscending(ts: seq<string>, p: nat, t: string)
    requires Ascending(ts) && p <= |ts| && t !in ts
    requires forall k :: 0 <= k < p ==> Less(ts[k], t)
    requires p < |ts| ==> !Less(ts[p], t)
    ensures Ascending(ts[..p] + [t] + ts[p..])
  {
    forall k | p <= k < |ts| ensures Less(t, ts[k]) {
      LessTrichotomy(ts[p], t);
      if k > p { LessTransitive(t, ts[p], ts[k]); }
    }
  }

  method Insert(ts: seq<string>, t: string) returns (longer: seq<string>)
    requires Ascending(ts) && t !in ts
    ensures Ascending(longer) && forall u :: u in longer <==> u in ts || u == t
  {
    var p := 0;
    while p < |ts| && Less(ts[p], t)
      invariant p <= |ts| && forall k :: 0 <= k < p ==> Less(ts[k], t)
    {
      p := p + 1;
    }
    InsertAscending(ts, p, t);
    longer := ts[..p] + [t] + ts[p..];
    assert ts == ts[..p] + ts[p..];
  }

  method Sorted(tokens: set<string>) returns (ts: seq<string>)
    ensures Ascending(ts) && SameMembers(ts, tokens)
  {
    ts := [];
    var left := tokens;
    while left != {}
      invariant left <= tokens && Ascending(ts) && SameMembers(ts, tokens - left)
      decreases left
    {
      var t :| t in left;
      ts := Insert(ts, t);
      left := left - {t};
    }
    assert tokens - left == tokens;
  }

  lemma FirstIsLeast(ts: seq<string>, t: string)
    requires Ascending(ts) && t in ts
    ensures t == ts[0] || Less(ts[0], t)
  {
  }

  /** There is only one such list. */
  lemma {:induction false} SortedUnique(a: seq<string>, b: seq<string>)
    requires Ascending(a) && Ascending(b) && forall t :: t in a <==> t in b
    ensures a == b
  {
    assert b != [] ==> b[0] in b;
    if a != [] {
      assert a[0] in b && b != [];
      assert b[0] in a;
      FirstIsLeast(a, b[0]);
      FirstIsLeast(b, a[0]);
      LessTrichotomy(a[0], b[0]);
      TailMembers(a);
      TailMembers(b);
      SortedUnique(a[1..], b[1..]);
      assert a == [a[0]] + a[1..] && b == [b[0]] + b[1..];
    }
  }

  lemma TailMembers(a: seq<string>)
    requires a != [] && Ascending(a)
    ensures Ascending(a[1..]) && forall t :: t in a[1..] <==> t in a && t != a[0]
  {
    forall t | t in a[1..] ensures t in a && t != a[0] {
      var k :| 0 <= k < |a[1..]| && a[1..][k] == t;
      LessTrichotomy(a[0], a[0]);
      assert Less(a[0], a[k + 1]);
    }
  }
}
