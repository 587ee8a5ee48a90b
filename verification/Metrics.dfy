/** Evaluation metrics over exact reals (app/evaluate/metrics.py). */
module Metrics {
  import opened Options

  // ---------------------------------------------------------------- average precision

  /** Useful passages among the first `n`. */
  function Seen(useful: seq<bool>, n: nat): nat
    requires n <= |useful|
  {
    if n == 0 then 0 else Seen(useful, n - 1) + if useful[n - 1] then 1 else 0
  }

  function Precision(useful: seq<bool>, n: nat): real
    requires 0 < n <= |useful|
  {
    Seen(useful, n) as real / n as real
  }

  /** Sum of the precisions at the useful ranks among the first `n`. */
  function PrecisionSum(useful: seq<bool>, n: nat): real
    requires n <= |useful|
  {
    if n == 0 then 0.0 else PrecisionSum(useful, n - 1) + if useful[n - 1] then Precision(useful, n) else 0.0
  }

  function AveragePrecision(useful: seq<bool>): real {
    var total := Seen(useful, |useful|);
    if total == 0 then 0.0 else PrecisionSum(useful, |useful|) / total as real
  }

  /** `None` without passages; otherwise the judged usefulness, passage by passage. */
  method ContextPrecision(useful: seq<bool>) returns (result: Option<real>)
    ensures result == if useful == [] then None else Some(AveragePrecision(useful))
  {
    if useful == [] { return None; }
    var total := 0;
    for k := 0 to |useful|
      invariant total == Seen(useful, k)
    {
      if useful[k] { total := total + 1; }
    }
    if total == 0 { return Some(0.0); }
    var seen, ap := 0, 0.0;
    for k := 0 to |useful|
      invariant seen == Seen(useful, k) && ap == PrecisionSum(useful, k)
    {
      if useful[k] {
        seen := seen + 1;
        ap := ap + seen as real / (k + 1) as real;
      }
    }
    return Some(ap / total as real);
  }

  lemma {:induction false} SeenAtMost(useful: seq<bool>, n: nat)
    requires n <= |useful|
    ensures Seen(useful, n) <= n
    ensures Seen(useful, n) == n <==> forall k :: 0 <= k < n ==> useful[k]
  {
    if n > 0 { SeenAtMost(useful, n - 1); }
  }

  lemma RatioAtMostOne(a: nat, b: nat)
    requires a <= b && 0 < b
    ensures 0.0 <= a as real / b as real <= 1.0
    ensures a as real / b as real == 1.0 <==> a == b
    ensures a > 0 ==> a as real / b as real > 0.0
  {
  }

  /** All useful passages of the first `n` come before all others. */
  predicate UsefulFirst(useful: seq<bool>, n: nat)
    requires n <= |useful|
  {
    forall j, k :: 0 <= j < k < n && useful[k] ==> useful[j]
  }

  lemma {:induction false} SumAtMostSeen(useful: seq<bool>, n: nat)
    requires n <= |useful|
    ensures 0.0 <= PrecisionSum(useful, n) <= Seen(useful, n) as real
    ensures Seen(useful, n) > 0 ==> PrecisionSum(useful, n) > 0.0
    ensures PrecisionSum(useful, n) == Seen(useful, n) as real <==> UsefulFirst(useful, n)
  {
    if n > 0 {
      SumAtMostSeen(useful, n - 1);
      if useful[n - 1] {
        SeenAtMost(useful, n);
        RatioAtMostOne(Seen(useful, n), n);
      }
    }
  }

  lemma Quotient(a: real, b: real)
    requires 0.0 < a <= b
    ensures 0.0 < a / b <= 1.0 && (a / b == 1.0 <==> a == b)
  {
  }

  /** With a useful passage the score lies in (0, 1], and is 1 exactly when the useful ones come first. */
  lemma AveragePrecisionRange(useful: seq<bool>)
    requires Seen(useful, |useful|) > 0
    ensures 0.0 < AveragePrecision(useful) <= 1.0
    ensures AveragePrecision(useful) == 1.0 <==> UsefulFirst(useful, |useful|)
  {
    SumAtMostSeen(useful, |useful|);
    Quotient(PrecisionSum(useful, |useful|), Seen(useful, |useful|) as real);
  }

  /** Ranks `i` and `i + 1` exchanged. */
  function Swapped(useful: seq<bool>, i: nat): seq<bool>
    requires i + 1 < |useful|
  {
    useful[i := useful[i + 1]][i + 1 := useful[i]]
  }

  lemma {:induction false} SwapSeen(useful: seq<bool>, i: nat, n: nat)
    requires i + 1 < |useful| && n <= |useful| && !useful[i] && useful[i + 1]
    ensures Seen(Swapped(useful, i), n) == Seen(useful, n) + if n == i + 1 then 1 else 0
  {
    if n > 0 { SwapSeen(useful, i, n - 1); }
  }

  lemma {:induction false} SwapSum(useful: seq<bool>, i: nat, n: nat)
    requires i + 1 < |useful| && n <= |useful| && !useful[i] && useful[i + 1]
    ensures n <= i ==> PrecisionSum(Swapped(useful, i), n) == PrecisionSum(useful, n)
    ensures n >= i + 2 ==> PrecisionSum(Swapped(useful, i), n) > PrecisionSum(useful, n)
  {
    var better := Swapped(useful, i);
    if n == i + 2 {
      SwapSum(useful, i, i);
      SwapSeen(useful, i, i);
      var s := Seen(useful, i);
      assert Seen(better, i + 1) == s + 1 == Seen(useful, i + 2) && Seen(useful, i + 1) == s;
      assert PrecisionSum(better, i + 1) == PrecisionSum(better, i) + (s + 1) as real / (i + 1) as real;
      assert PrecisionSum(better, i + 2) == PrecisionSum(better, i + 1);
      assert PrecisionSum(useful, i + 1) == PrecisionSum(useful, i);
      assert PrecisionSum(useful, i + 2) == PrecisionSum(useful, i + 1) + (s + 1) as real / (i + 2) as real;
      EarlierIsMore(s + 1, i + 1);
    } else if n > 0 && n != i + 1 {
      SwapSum(useful, i, n - 1);
      SwapSeen(useful, i, n);
    }
  }

  lemma EarlierIsMore(a: nat, b: nat)
    requires a > 0 && b > 0
    ensures a as real / b as real > a as real / (b + 1) as real
  {
  }

  /** Moving a useful passage ahead of an adjacent useless one strictly raises the score. */
  lemma SwapRaisesPrecision(useful: seq<bool>, i: nat)
    requires i + 1 < |useful| && !useful[i] && useful[i + 1]
    ensures AveragePrecision(Swapped(useful, i)) > AveragePrecision(useful)
  {
    var n := |useful|;
    SwapSeen(useful, i, n);
    SwapSum(useful, i, n);
    SeenSome(useful, n, i + 1);
    var total := Seen(useful, n);
    DivideKeepsOrder(PrecisionSum(useful, n), PrecisionSum(Swapped(useful, i), n), total as real);
  }

  lemma {:induction false} SeenSome(useful: seq<bool>, n: nat, k: nat)
    requires k < n <= |useful| && useful[k]
    ensures Seen(useful, n) > 0
  {
    if k < n - 1 { SeenSome(useful, n - 1, k); }
  }

  lemma DivideKeepsOrder(a: real, b: real, c: real)
    requires a < b && c > 0.0
    ensures a / c < b / c
  {
  }

  /** A passage at the end does not change what the ranks before it count. */
  lemma {:induction false} EarlierRanks(useful: seq<bool>, more: seq<bool>, n: nat)
    requires n <= |useful|
    ensures Seen(useful + more, n) == Seen(useful, n) && PrecisionSum(useful + more, n) == PrecisionSum(useful, n)
  {
    if n > 0 { EarlierRanks(useful, more, n - 1); }
  }

  /** Useless passages at the end cost nothing. */
  lemma {:induction false} UselessAtTheEnd(useful: seq<bool>, more: seq<bool>)
    requires forall k :: 0 <= k < |more| ==> !more[k]
    ensures AveragePrecision(useful + more) == AveragePrecision(useful)
    decreases |more|
  {
    if more == [] {
      assert useful + more == useful;
    } else {
      var init, n := more[..|more| - 1], |useful + more| - 1;
      assert useful + more == (useful + init) + [more[|more| - 1]];
      EarlierRanks(useful + init, [more[|more| - 1]], n);
      UselessAtTheEnd(useful, init);
    }
  }

  lemma {:induction false} NoneSeen(useful: seq<bool>, n: nat)
    requires n <= |useful| && forall k :: 0 <= k < n ==> !useful[k]
    ensures Seen(useful, n) == 0 && PrecisionSum(useful, n) == 0.0
  {
    if n > 0 { NoneSeen(useful, n - 1); }
  }

  /** One useful passage scores the reciprocal of its rank. */
  lemma OneUseful(useful: seq<bool>, r: nat)
    requires r < |useful| && forall k :: 0 <= k < |useful| ==> (useful[k] <==> k == r)
    ensures AveragePrecision(useful) == 1.0 / (r + 1) as real
  {
    var head, rest := useful[..r + 1], useful[r + 1..];
    assert useful == head + rest;
    UselessAtTheEnd(head, rest);
    NoneSeen(head, r);
    assert Seen(head, r + 1) == 1 && PrecisionSum(head, r + 1) == 1.0 / (r + 1) as real;
  }

  /** A useful passage at the end adds its own precision to the sum. */
  lemma OneMoreUseful(useful: seq<bool>)
    ensures var t := Seen(useful, |useful|);
            Mul(AveragePrecision(useful + [true]), (t + 1) as real)
            == Mul(AveragePrecision(useful), t as real) + (t + 1) as real / (|useful| + 1) as real
  {
    var n := |useful|;
    EarlierRanks(useful, [true], n);
    assert (useful + [true])[n];
    SumAtMostSeen(useful, n);
    TimesQuotient(PrecisionSum(useful + [true], n + 1), (Seen(useful, n) + 1) as real);
    if Seen(useful, n) > 0 { TimesQuotient(PrecisionSum(useful, n), Seen(useful, n) as real); }
  }

  lemma TimesQuotient(a: real, b: real)
    requires b > 0.0
    ensures Mul(a / b, b) == a
  {
  }

  // ---------------------------------------------------------------- cosine

  function Mul(x: real, y: real): real { x * y }
  function Square(x: real): real { Mul(x, x) }

  lemma MulSign(x: real, y: real)
    ensures (x > 0.0 && y > 0.0) || (x < 0.0 && y < 0.0) ==> Mul(x, y) > 0.0
    ensures x == 0.0 || y == 0.0 ==> Mul(x, y) == 0.0
  {
  }

  lemma SquareSign(x: real)
    ensures Square(x) >= 0.0 && (x == 0.0 || Square(x) > 0.0)
  {
    MulSign(x, x);
  }

  /** `sum(x * y for x, y in zip(a, b))`: the longer vector is cut. */
  function Dot(a: seq<real>, b: seq<real>): real {
    if a == [] || b == [] then 0.0 else Mul(a[0], b[0]) + Dot(a[1..], b[1..])
  }

  function Squares(a: seq<real>): real {
    if a == [] then 0.0 else Square(a[0]) + Squares(a[1..])
  }

  /** The squared length of `t * a + b`, the shorter vector padded with zeros. */
  function Combined(t: real, a: seq<real>, b: seq<real>): real {
    if a == [] then Squares(b)
    else if b == [] then Square(t) * Squares(a)
    else Square(t * a[0] + b[0]) + Combined(t, a[1..], b[1..])
  }

  lemma {:induction false} SquaresNonNegative(a: seq<real>)
    ensures Squares(a) >= 0.0
  {
    if a != [] {
      SquareSign(a[0]);
      SquaresNonNegative(a[1..]);
    }
  }

  lemma {:induction false} CombinedNonNegative(t: real, a: seq<real>, b: seq<real>)
    ensures Combined(t, a, b) >= 0.0
  {
    if a == [] {
      SquaresNonNegative(b);
    } else if b == [] {
      SquaresNonNegative(a);
      SquareSign(t);
      ProductNonNegative(Square(t), Squares(a));
    } else {
      SquareSign(t * a[0] + b[0]);
      CombinedNonNegative(t, a[1..], b[1..]);
    }
  }

  lemma ProductNonNegative(x: real, y: real)
    requires x >= 0.0 && y >= 0.0
    ensures x * y >= 0.0
  {
  }

  function Quadratic(t: real, p: real, q: real, r: real): real {
    Square(t) * p + 2.0 * t * q + r
  }

  lemma {:induction false} CombinedExpands(t: real, a: seq<real>, b: seq<real>)
    ensures Combined(t, a, b) == Quadratic(t, Squares(a), Dot(a, b), Squares(b))
  {
    if a != [] && b != [] {
      CombinedExpands(t, a[1..], b[1..]);
      Expand(t, a[0], b[0], Squares(a[1..]), Dot(a[1..], b[1..]), Squares(b[1..]));
    } else {
      NoLinearTerm(t, Squares(a), Squares(b));
    }
  }

  lemma NoLinearTerm(t: real, p: real, r: real)
    ensures Quadratic(t, p, 0.0, r) == Square(t) * p + r
    ensures Quadratic(t, 0.0, 0.0, r) == r
  {
  }

  lemma Expand(t: real, x: real, y: real, p: real, q: real, r: real)
    ensures Square(t * x + y) + Quadratic(t, p, q, r) == Quadratic(t, Square(x) + p, Mul(x, y) + q, Square(y) + r)
  {
    assert (t * x + y) * (t * x + y) == t * t * (x * x) + 2.0 * t * (x * y) + y * y;
  }

  /** A non-negative quadratic has no positive discriminant. */
  lemma Discriminant(p: real, q: real, r: real)
    requires p > 0.0 && Quadratic(-q / p, p, q, r) >= 0.0
    ensures Square(q) <= Mul(p, r)
  {
    var t := -q / p;
    assert t * p == -q;
    assert Square(t) * p == t * (t * p) == -(t * q);
    assert t * q + r >= 0.0;
    ProductNonNegative(p, t * q + r);
    assert p * (t * q + r) == (t * p) * q + p * r == p * r - q * q;
  }

  lemma {:induction false} ZeroVector(a: seq<real>, b: seq<real>)
    requires Squares(a) <= 0.0
    ensures Squares(a) == 0.0 && Dot(a, b) == 0.0
  {
    SquaresNonNegative(a);
    if a != [] && b != [] {
      SquareSign(a[0]);
      SquaresNonNegative(a[1..]);
      MulSign(a[0], b[0]);
      ZeroVector(a[1..], b[1..]);
    }
  }

  /** Cauchy-Schwarz for the truncated product and the full norms, whatever the lengths. */
  lemma DotBound(a: seq<real>, b: seq<real>)
    ensures Square(Dot(a, b)) <= Mul(Squares(a), Squares(b))
  {
    if Squares(a) <= 0.0 {
      ZeroVector(a, b);
      MulSign(Squares(a), Squares(b));
      MulSign(Dot(a, b), Dot(a, b));
    } else {
      var t := -Dot(a, b) / Squares(a);
      CombinedExpands(t, a, b);
      CombinedNonNegative(t, a, b);
      Discriminant(Squares(a), Dot(a, b), Squares(b));
    }
  }

  /** `normA` and `normB` are the square roots of the sums of squares. */
  ghost predicate IsNorm(norm: real, a: seq<real>) { norm >= 0.0 && Square(norm) == Squares(a) }

  function Cosine(a: seq<real>, b: seq<real>, normA: real, normB: real): real {
    if a == [] || b == [] then 0.0
    else if normA == 0.0 || normB == 0.0 then 0.0
    else Dot(a, b) / Mul(normA, normB)
  }

  method DotLoop(a: seq<real>, b: seq<real>) returns (dot: real)
    ensures dot == Dot(a, b)
  {
    dot := 0.0;
    var k := 0;
    while k < |a| && k < |b|
      invariant k <= |a| && k <= |b|
      invariant dot + Dot(a[k..], b[k..]) == Dot(a, b)
    {
      assert a[k..][1..] == a[k + 1..] && b[k..][1..] == b[k + 1..];
      dot := dot + Mul(a[k], b[k]);
      k := k + 1;
    }
  }

  lemma CosineRange(a: seq<real>, b: seq<real>, normA: real, normB: real)
    requires IsNorm(normA, a) && IsNorm(normB, b)
    ensures -1.0 <= Cosine(a, b, normA, normB) <= 1.0
    ensures Cosine(a, b, normA, normB) >= 0.0 <==> Dot(a, b) >= 0.0
  {
    DotBound(a, b);
    if normA == 0.0 {
      MulSign(normA, normA);
      ZeroVector(a, b);
    } else if normB == 0.0 {
      MulSign(normB, normB);
      ZeroVector(b, a);
      DotSymmetric(a, b);
    } else if a != [] && b != [] {
      var d, m := Dot(a, b), Mul(normA, normB);
      MulSign(normA, normB);
      SquareOfProduct(normA, normB);
      SquareBound(d, m);
      DivideBound(d, m);
    }
  }

  lemma SquareOfProduct(x: real, y: real)
    ensures Square(Mul(x, y)) == Mul(Square(x), Square(y))
  {
    assert (x * y) * (x * y) == (x * x) * (y * y);
  }

  lemma {:induction false} DotSymmetric(a: seq<real>, b: seq<real>)
    ensures Dot(a, b) == Dot(b, a)
  {
    if a != [] && b != [] { DotSymmetric(a[1..], b[1..]); }
  }

  lemma SquareBound(d: real, m: real)
    requires m > 0.0 && Square(d) <= Square(m)
    ensures -m <= d <= m
  {
    LargerSquare(d, m);
    LargerSquare(-d, m);
    assert Square(-d) == Square(d);
  }

  lemma LargerSquare(x: real, y: real)
    ensures x > y > 0.0 ==> Square(x) > Square(y)
  {
    MulSign(x - y, x + y);
    assert Mul(x - y, x + y) == Square(x) - Square(y);
  }

  lemma DivideBound(d: real, m: real)
    requires m > 0.0 && -m <= d <= m
    ensures -1.0 <= d / m <= 1.0 && (d / m >= 0.0 <==> d >= 0.0)
  {
  }

  function Sum(xs: seq<real>): real {
    if xs == [] then 0.0 else xs[0] + Sum(xs[1..])
  }

  lemma {:induction false} SumRange(xs: seq<real>)
    requires forall k :: 0 <= k < |xs| ==> -1.0 <= xs[k] <= 1.0
    ensures -(|xs| as real) <= Sum(xs) <= |xs| as real
  {
    if xs != [] { SumRange(xs[1..]); }
  }

  datatype Embedded = Embedded(vector: seq<real>, norm: real)

  ghost predicate IsEmbedded(e: Embedded) { IsNorm(e.norm, e.vector) }

  function Similarities(question: Embedded, generated: seq<Embedded>): seq<real> {
    seq(|generated|, k requires 0 <= k < |generated| =>
      Cosine(question.vector, generated[k].vector, question.norm, generated[k].norm))
  }

  /** The average over the generated questions; `None` when there is none. */
  function AnswerRelevancy(question: Embedded, generated: seq<Embedded>): Option<real> {
    if generated == [] then None
    else Some(Sum(Similarities(question, generated)) / |generated| as real)
  }

  lemma AnswerRelevancyRange(question: Embedded, generated: seq<Embedded>)
    requires generated != [] && IsEmbedded(question)
    requires forall k :: 0 <= k < |generated| ==> IsEmbedded(generated[k])
    ensures -1.0 <= AnswerRelevancy(question, generated).value <= 1.0
  {
    var sims := Similarities(question, generated);
    forall k | 0 <= k < |sims| ensures -1.0 <= sims[k] <= 1.0 {
      CosineRange(question.vector, generated[k].vector, question.norm, generated[k].norm);
    }
    SumRange(sims);
    DivideBound(Sum(sims), |generated| as real);
  }

  // ---------------------------------------------------------------- when the documented range is kept

  /** Componentwise sum, the shorter vector padded with zeros. */
  function AddVectors(a: seq<real>, b: seq<real>): seq<real> {
    if a == [] then b
    else if b == [] then a
    else [a[0] + b[0]] + AddVectors(a[1..], b[1..])
  }

  function Scaled(c: real, a: seq<real>): seq<real> {
    if a == [] then [] else [Mul(c, a[0])] + Scaled(c, a[1..])
  }

  /** The embedding scaled to length one; nothing when it is the zero vector. */
  function Unit(e: Embedded): seq<real> {
    if e.norm == 0.0 then [] else Scaled(1.0 / e.norm, e.vector)
  }

  /** The sum of the generated questions' unit vectors. */
  function Resultant(generated: seq<Embedded>): seq<real> {
    if generated == [] then [] else AddVectors(Unit(generated[0]), Resultant(generated[1..]))
  }

  /** The truncated product is additive, whatever the lengths. */
  lemma {:induction false} DotAdd(q: seq<real>, a: seq<real>, b: seq<real>)
    ensures Dot(q, AddVectors(a, b)) == Dot(q, a) + Dot(q, b)
  {
    if q != [] && a != [] && b != [] {
      DotAdd(q[1..], a[1..], b[1..]);
      var sum := AddVectors(a, b);
      assert sum[0] == a[0] + b[0] && sum[1..] == AddVectors(a[1..], b[1..]);
      Distribute(a[0], b[0], q[0]);
    }
  }

  lemma Distribute(x: real, y: real, z: real)
    ensures Mul(x + y, z) == Mul(x, z) + Mul(y, z)
    ensures Mul(z, x + y) == Mul(z, x) + Mul(z, y)
  {
  }

  lemma {:induction false} DotScaled(q: seq<real>, c: real, a: seq<real>)
    ensures Dot(q, Scaled(c, a)) == Mul(c, Dot(q, a))
  {
    if q != [] && a != [] {
      DotScaled(q[1..], c, a[1..]);
      var scaled := Scaled(c, a);
      assert scaled[0] == Mul(c, a[0]) && scaled[1..] == Scaled(c, a[1..]);
      MoveFactor(q[0], c, a[0]);
      Distribute(Mul(q[0], a[0]), Dot(q[1..], a[1..]), c);
    } else {
      MulSign(c, 0.0);
    }
  }

  lemma MoveFactor(x: real, c: real, y: real)
    ensures Mul(x, Mul(c, y)) == Mul(c, Mul(x, y))
  {
  }

  lemma {:induction false} SumIsProjection(question: Embedded, generated: seq<Embedded>)
    requires IsEmbedded(question) && question.norm > 0.0
    requires forall k :: 0 <= k < |generated| ==> IsEmbedded(generated[k])
    ensures Mul(Sum(Similarities(question, generated)), question.norm) == Dot(question.vector, Resultant(generated))
  {
    var sims := Similarities(question, generated);
    if generated == [] {
      assert sims == [];
      MulSign(0.0, question.norm);
    } else {
      SumIsProjection(question, generated[1..]);
      assert sims[1..] == Similarities(question, generated[1..]);
      SimilarityIsProjection(question, generated[0]);
      Distribute(sims[0], Sum(sims[1..]), question.norm);
      DotAdd(question.vector, Unit(generated[0]), Resultant(generated[1..]));
    }
  }

  /** The score, times how many questions there are, is the length of their resultant along the question. */
  lemma AnswerRelevancyIsProjection(question: Embedded, generated: seq<Embedded>)
    requires generated != [] && IsEmbedded(question) && question.norm > 0.0
    requires forall k :: 0 <= k < |generated| ==> IsEmbedded(generated[k])
    ensures Mul(Mul(AnswerRelevancy(question, generated).value, |generated| as real), question.norm)
         == Dot(question.vector, Resultant(generated))
  {
    SumIsProjection(question, generated);
    TimesQuotient(Sum(Similarities(question, generated)), |generated| as real);
  }

  lemma {:induction false} DotSelf(a: seq<real>)
    ensures Dot(a, a) == Squares(a)
  {
    if a != [] { DotSelf(a[1..]); }
  }

  /** Questions that come back as asked score 1. */
  lemma SameQuestionScoresOne(question: Embedded, generated: seq<Embedded>)
    requires generated != [] && IsEmbedded(question) && question.norm > 0.0
    requires forall k :: 0 <= k < |generated| ==> generated[k] == question
    ensures AnswerRelevancy(question, generated) == Some(1.0)
  {
    var sims := Similarities(question, generated);
    SelfSimilarity(question);
    SumOfOnes(sims);
    DivideSelf(|generated| as real);
  }

  lemma SelfSimilarity(e: Embedded)
    requires IsEmbedded(e) && e.norm > 0.0
    ensures Cosine(e.vector, e.vector, e.norm, e.norm) == 1.0
  {
    DotSelf(e.vector);
    MulSign(e.norm, e.norm);
    if e.vector != [] { DivideSelf(Mul(e.norm, e.norm)); }
  }

  lemma DivideSelf(x: real)
    requires x > 0.0
    ensures x / x == 1.0
  {
  }

  lemma {:induction false} SumOfOnes(xs: seq<real>)
    requires forall k :: 0 <= k < |xs| ==> xs[k] == 1.0
    ensures Sum(xs) == |xs| as real
  {
    if xs != [] { SumOfOnes(xs[1..]); }
  }

  lemma SimilarityIsProjection(question: Embedded, e: Embedded)
    requires IsEmbedded(question) && question.norm > 0.0 && IsEmbedded(e)
    ensures Mul(Cosine(question.vector, e.vector, question.norm, e.norm), question.norm)
         == Dot(question.vector, Unit(e))
  {
    if e.norm == 0.0 || question.vector == [] || e.vector == [] {
      MulSign(0.0, question.norm);
    } else {
      DotScaled(question.vector, 1.0 / e.norm, e.vector);
      DivideByProduct(Dot(question.vector, e.vector), question.norm, e.norm);
    }
  }

  lemma DivideByProduct(d: real, m: real, n: real)
    requires m > 0.0 && n > 0.0
    ensures Mul(m, n) != 0.0 && Mul(d / Mul(m, n), m) == Mul(1.0 / n, d)
  {
    MulSign(m, n);
    var q := d / (m * n);
    assert (q * m) * n == q * (m * n) == d;
    assert (1.0 / n) * d * n == d;
  }

  lemma {:induction false} ZeroQuestion(question: Embedded, generated: seq<Embedded>)
    requires question.norm == 0.0
    ensures Sum(Similarities(question, generated)) == 0.0
  {
    var sims := Similarities(question, generated);
    if generated == [] {
      assert sims == [];
    } else {
      ZeroQuestion(question, generated[1..]);
      assert sims[1..] == Similarities(question, generated[1..]);
    }
  }

  /**
   * The documented lower end 0 is kept exactly when the question vector makes no obtuse angle with the
   * resultant of the generated questions.
   */
  lemma AnswerRelevancyDocumentedIff(question: Embedded, generated: seq<Embedded>)
    requires generated != [] && IsEmbedded(question)
    requires forall k :: 0 <= k < |generated| ==> IsEmbedded(generated[k])
    ensures 0.0 <= AnswerRelevancy(question, generated).value <= 1.0
            <==> Dot(question.vector, Resultant(generated)) >= 0.0
  {
    AnswerRelevancyRange(question, generated);
    SumSign(question, generated);
    SignOfQuotient(Sum(Similarities(question, generated)), |generated| as real);
  }

  lemma SumSign(question: Embedded, generated: seq<Embedded>)
    requires IsEmbedded(question)
    requires forall k :: 0 <= k < |generated| ==> IsEmbedded(generated[k])
    ensures Sum(Similarities(question, generated)) >= 0.0 <==> Dot(question.vector, Resultant(generated)) >= 0.0
  {
    if question.norm == 0.0 {
      ZeroQuestion(question, generated);
      MulSign(question.norm, question.norm);
      ZeroVector(question.vector, Resultant(generated));
    } else {
      SumIsProjection(question, generated);
      ScaleKeepsSign(Sum(Similarities(question, generated)), question.norm);
    }
  }

  /** In particular when no single generated question points away from the question. */
  lemma NoneObtuseKeepsDocumentedRange(question: Embedded, generated: seq<Embedded>)
    requires generated != [] && IsEmbedded(question)
    requires forall k :: 0 <= k < |generated| ==>
               IsEmbedded(generated[k]) && Dot(question.vector, generated[k].vector) >= 0.0
    ensures 0.0 <= AnswerRelevancy(question, generated).value <= 1.0
  {
    AnswerRelevancyRange(question, generated);
    var sims := Similarities(question, generated);
    forall k | 0 <= k < |sims| ensures sims[k] >= 0.0 {
      CosineRange(question.vector, generated[k].vector, question.norm, generated[k].norm);
    }
    SumNonNegative(sims);
    SignOfQuotient(Sum(sims), |generated| as real);
  }

  lemma {:induction false} SumNonNegative(xs: seq<real>)
    requires forall k :: 0 <= k < |xs| ==> xs[k] >= 0.0
    ensures Sum(xs) >= 0.0
  {
    if xs != [] { SumNonNegative(xs[1..]); }
  }

  lemma ScaleKeepsSign(x: real, n: real)
    requires n > 0.0
    ensures Mul(x, n) >= 0.0 <==> x >= 0.0
  {
    MulSign(x, n);
  }

  lemma SignOfQuotient(x: real, n: real)
    requires n > 0.0
    ensures x / n >= 0.0 <==> x >= 0.0
  {
  }

  /** The documented lower end 0 is not always kept: opposite embeddings average to -1. */
  lemma AnswerRelevancyCanBeNegative()
    ensures IsNorm(1.0, [1.0]) && IsNorm(1.0, [-1.0])
    ensures AnswerRelevancy(Embedded([1.0], 1.0), [Embedded([-1.0], 1.0)]) == Some(-1.0)
  {
    var e := Embedded([1.0], 1.0);
    var f := Embedded([-1.0], 1.0);
    assert [1.0][1..] == [] && [-1.0][1..] == [];
    assert Dot([1.0], [-1.0]) == -1.0;
    var sims := Similarities(e, [f]);
    assert sims == [-1.0] && sims[1..] == [];
    assert Sum(sims) == -1.0;
  }
}
