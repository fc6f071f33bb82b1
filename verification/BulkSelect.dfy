/** Splitting a total into uneven invoices and filling each from the catalogue
    (factus-bulk-select.util.ts). `Math.random` is any choice: weights are arbitrary positive
    reals, picks and swaps are nondeterministic. */
module BulkSelect {
  import opened Options

  function Max(x: int, y: int): int { if x < y then y else x }
  function Abs(x: int): nat { if x < 0 then -x else x }

  function Sum(s: seq<int>): int {
    if s == [] then 0 else Sum(s[..|s| - 1]) + s[|s| - 1]
  }

  lemma {:induction false} SumUpdate(s: seq<int>, i: nat, v: int)
    requires i < |s|
    ensures Sum(s[i := v]) == Sum(s) - s[i] + v
    decreases |s|
  {
    var n := |s| - 1;
    if i < n {
      SumUpdate(s[..n], i, v);
      assert s[i := v][..n] == s[..n][i := v];
    } else {
      assert s[i := v][..n] == s[..n];
    }
  }

  /** A bound on every element bounds the sum. */
  lemma {:induction false} SumAtMost(s: seq<int>, m: int)
    requires forall k :: 0 <= k < |s| ==> s[k] <= m
    ensures Sum(s) <= |s| * m
    decreases |s|
  {
    if s != [] {
      var n := |s| - 1;
      SumAtMost(s[..n], m);
      assert |s| * m == n * m + m;
    }
  }

  // ---------- splitUnevenTargets ----------

  function RealSum(w: seq<real>): real {
    if w == [] then 0.0 else RealSum(w[..|w| - 1]) + w[|w| - 1]
  }

  predicate Positive(w: seq<real>) {
    forall k :: 0 <= k < |w| ==> w[k] > 0.0
  }

  lemma {:induction false} RealSumPositive(w: seq<real>)
    requires Positive(w)
    ensures RealSum(w) >= 0.0 && (w != [] ==> RealSum(w) > 0.0)
    decreases |w|
  {
    if w != [] {
      RealSumPositive(w[..|w| - 1]);
    }
  }

  /** One share, floored to a hundred. */
  function Share(total: nat, w: real, wSum: real): int
    requires wSum > 0.0
  {
    (total as real * w / wSum / 100.0).Floor * 100
  }

  /** A share is covered by its part of the total. */
  predicate Covers(share: int, w: real, total: real, wSum: real) {
    share as real * wSum <= total * w
  }

  lemma ShareBounds(total: nat, w: real, wSum: real)
    requires 0.0 < w && 0.0 < wSum
    ensures 0 <= Share(total, w, wSum)
    ensures Covers(Share(total, w, wSum), w, total as real, wSum)
  {
    var x := total as real * w / wSum;
    assert x * wSum == total as real * w;
    assert total as real * w >= 0.0;
    assert x >= 0.0;
    assert Share(total, w, wSum) as real <= x;
    RealTimesMonotone(Share(total, w, wSum) as real, x, wSum);
  }

  /** A share is the one whole hundred within a hundred of its weight's part of the total. */
  lemma ShareFollowsWeight(total: nat, w: real, wSum: real, share: int)
    requires 0.0 < wSum
    ensures share == Share(total, w, wSum) <==>
            share % 100 == 0 && share as real * wSum <= total as real * w < (share + 100) as real * wSum
  {
    var x := total as real * w / wSum;
    var part := total as real * w;
    assert x * wSum == part;
    RealTimesOrder(share as real, x, wSum);
    RealTimesOrder((share + 100) as real, x, wSum);
    assert part < (share + 100) as real * wSum <==> !((share + 100) as real <= x);
    FlooredToHundred(x, share);
  }

  lemma FlooredToHundred(x: real, share: int)
    ensures share == (x / 100.0).Floor * 100 <==> share % 100 == 0 && share as real <= x < (share + 100) as real
  {
    var h := (x / 100.0).Floor;
    assert h as real * 100.0 <= x < (h + 1) as real * 100.0;
    if share % 100 == 0 && share as real <= x < (share + 100) as real {
      assert share == share / 100 * 100;
      assert (share / 100) as real * 100.0 == share as real;
    }
  }

  lemma RealTimesOrder(a: real, b: real, c: real)
    requires c > 0.0
    ensures a * c <= b * c <==> a <= b
  {
  }

  lemma RealTimesMonotone(a: real, b: real, c: real)
    requires a <= b && c >= 0.0
    ensures a * c <= b * c
  {
  }

  function MinEach(total: nat, n: nat): int
    requires n > 0
  {
    Max(5_000, total / (n * 10))
  }

  method IndexOfMax(a: array<int>) returns (k: nat)
    requires a.Length > 0
    ensures k < a.Length && forall j :: 0 <= j < a.Length ==> a[j] <= a[k]
  {
    k := 0;
    for j := 1 to a.Length
      invariant k < j && forall x :: 0 <= x < j ==> a[x] <= a[k]
    {
      if a[j] > a[k] { k := j; }
    }
  }

  method IndexOfMaxOther(a: array<int>, i: nat) returns (k: nat)
    requires a.Length >= 2 && i < a.Length
    ensures k < a.Length && k != i && forall j :: 0 <= j < a.Length && j != i ==> a[j] <= a[k]
  {
    k := if i == 0 then 1 else 0;
    for j := 0 to a.Length
      invariant k < a.Length && k != i && forall x :: 0 <= x < j && x != i ==> a[x] <= a[k]
    {
      if j != i && a[j] > a[k] { k := j; }
    }
  }

  /** When the total is large enough the richest amount can always give. */
  lemma RichestCanGive(s: seq<int>, total: nat, k: nat)
    requires k < |s| && Sum(s) == total && total >= 10_000 * |s|
    requires forall j :: 0 <= j < |s| ==> s[j] <= s[k]
    ensures s[k] >= 2 * MinEach(total, |s|)
  {
    var n, q := |s|, total / (|s| * 10);
    SumAtMost(s, s[k]);
    AverageBound(n, s[k], 10_000);
    assert n * 10 * q <= total;
    assert n * 10 * q == n * (10 * q);
    AverageBound(n, s[k], 10 * q);
  }

  lemma TimesMonotone(n: nat, a: int, b: int)
    requires a <= b
    ensures n * a <= n * b
  {
  }

  lemma AverageBound(n: nat, m: int, c: int)
    requires n > 0 && n * c <= n * m
    ensures c <= m
  {
    if m < c { TimesMonotone(n, m + 1, c); }
  }

  function Shares(total: nat, weights: seq<real>, wSum: real): (r: seq<int>)
    requires wSum > 0.0
    ensures |r| == |weights|
  {
    if weights == [] then []
    else Shares(total, weights[..|weights| - 1], wSum) + [Share(total, weights[|weights| - 1], wSum)]
  }

  /** Shares that are each covered by their weight are covered together. */
  lemma {:induction false} CoveredTogether(shares: seq<int>, weights: seq<real>, total: real, wSum: real)
    requires |shares| == |weights|
    requires forall k :: 0 <= k < |shares| ==> Covers(shares[k], weights[k], total, wSum)
    ensures Covers(Sum(shares), RealSum(weights), total, wSum)
    decreases |shares|
  {
    if shares != [] {
      var n := |shares| - 1;
      assert Covers(shares[n], weights[n], total, wSum);
      CoveredTogether(shares[..n], weights[..n], total, wSum);
      RealDistribute(Sum(shares[..n]) as real, shares[n] as real, wSum);
      RealDistribute(RealSum(weights[..n]), weights[n], total);
    }
  }

  lemma {:induction false} SharesAreShares(total: nat, weights: seq<real>, wSum: real, k: nat)
    requires wSum > 0.0 && k < |weights|
    ensures Shares(total, weights, wSum)[k] == Share(total, weights[k], wSum)
    decreases |weights|
  {
    if k < |weights| - 1 { SharesAreShares(total, weights[..|weights| - 1], wSum, k); }
  }

  lemma SharesFit(total: nat, weights: seq<real>, wSum: real)
    requires Positive(weights) && wSum > 0.0
    ensures forall k :: 0 <= k < |weights| ==> Shares(total, weights, wSum)[k] >= 0
    ensures Covers(Sum(Shares(total, weights, wSum)), RealSum(weights), total as real, wSum)
  {
    var shares := Shares(total, weights, wSum);
    forall k | 0 <= k < |weights| ensures shares[k] >= 0 && Covers(shares[k], weights[k], total as real, wSum) {
      SharesAreShares(total, weights, wSum, k);
      ShareBounds(total, weights[k], wSum);
    }
    CoveredTogether(shares, weights, total as real, wSum);
  }

  method FloorShares(total: nat, weights: seq<real>) returns (amounts: array<int>)
    requires |weights| > 0 && Positive(weights)
    ensures fresh(amounts) && amounts.Length == |weights|
    ensures RealSum(weights) > 0.0 && amounts[..] == Shares(total, weights, RealSum(weights))
    ensures forall k :: 0 <= k < amounts.Length ==> amounts[k] >= 0
    ensures Sum(amounts[..]) <= total
  {
    RealSumPositive(weights);
    var n, wSum := |weights|, RealSum(weights);
    amounts := new int[n];
    for k := 0 to n
      invariant amounts[..k] == Shares(total, weights[..k], wSum)
    {
      amounts[k] := Share(total, weights[k], wSum);
      assert weights[..k + 1][..k] == weights[..k];
      assert amounts[..k + 1] == amounts[..k] + [amounts[k]];
    }
    assert amounts[..n] == amounts[..] && weights[..n] == weights;
    SharesFit(total, weights, wSum);
    NoMoreThanTotal(Sum(amounts[..]), total, wSum);
    forall k | 0 <= k < n ensures amounts[k] >= 0 {
      assert amounts[k] == amounts[..][k];
    }
  }

  lemma RealDistribute(a: real, b: real, c: real)
    ensures (a + b) * c == a * c + b * c
  {
  }

  lemma NoMoreThanTotal(sum: int, total: nat, wSum: real)
    requires wSum > 0.0 && Covers(sum, wSum, total as real, wSum)
    ensures sum <= total
  {
    if sum > total {
      RealTimesMonotone(total as real + 1.0, sum as real, wSum);
    }
  }

  /** The richest of the others. */
  predicate IsDonor(s: seq<int>, donor: nat, i: nat) {
    donor < |s| && donor != i && forall j :: 0 <= j < |s| && j != i ==> s[j] <= s[donor]
  }

  function Moved(s: seq<int>, donor: nat, i: nat, need: int): seq<int>
    requires donor < |s| && i < |s|
  {
    s[donor := s[donor] - need][i := s[i] + need]
  }

  /** An amount below the minimum is raised to it by a richest other, if that one stays at the minimum. */
  ghost predicate Levelled(before: seq<int>, after: seq<int>, i: nat, minEach: int)
    requires i < |before|
  {
    if before[i] >= minEach then after == before
    else
      exists donor: nat :: IsDonor(before, donor, i)
                      && after == if before[donor] - (minEach - before[i]) >= minEach
                        then Moved(before, donor, i, minEach - before[i]) else before
  }

  /** One step of the levelling loop. */
  method LevelStep(amounts: array<int>, i: nat, minEach: int)
    requires amounts.Length >= 2 && i < amounts.Length
    modifies amounts
    ensures Levelled(old(amounts[..]), amounts[..], i, minEach)
  {
    if amounts[i] < minEach {
      var need := minEach - amounts[i];
      var donor := IndexOfMax(amounts);
      if donor == i {
        donor := IndexOfMaxOther(amounts, i);
      }
      ghost var s := amounts[..];
      assert IsDonor(s, donor, i);
      if amounts[donor] - need >= minEach {
        amounts[donor] := amounts[donor] - need;
        amounts[i] := amounts[i] + need;
        assert amounts[..] == Moved(s, donor, i, need);
      }
    }
  }

  /** Taking from one amount and giving the same to another keeps the sum. */
  lemma Transfer(s: seq<int>, taken: seq<int>, given: seq<int>, donor: nat, i: nat, need: int)
    requires donor < |s| && i < |s| && donor != i
    requires taken == s[donor := s[donor] - need] && given == taken[i := s[i] + need]
    ensures Sum(given) == Sum(s)
  {
    SumUpdate(s, donor, s[donor] - need);
    SumUpdate(taken, i, s[i] + need);
  }

  /** All amounts are non-negative and add up to the total. */
  ghost predicate Splits(s: seq<int>, total: nat) {
    Sum(s) == total && forall k :: 0 <= k < |s| ==> s[k] >= 0
  }

  lemma DonorCanGive(s: seq<int>, total: nat, donor: nat, i: nat)
    requires Splits(s, total) && i < |s| && IsDonor(s, donor, i) && total >= 10_000 * |s| && s[i] < MinEach(total, |s|)
    ensures s[donor] >= 2 * MinEach(total, |s|)
  {
    RichestCanGive(s, total, if s[i] > s[donor] then i else donor);
  }

  lemma MovedSplits(s: seq<int>, total: nat, donor: nat, i: nat, need: nat)
    requires Splits(s, total) && donor < |s| && i < |s| && donor != i && s[donor] >= need
    ensures Splits(Moved(s, donor, i, need), total)
  {
    Transfer(s, s[donor := s[donor] - need], Moved(s, donor, i, need), donor, i, need);
  }

  /** The step keeps the sum and what is already level, and succeeds when the total is large enough. */
  lemma LevelledKeeps(before: seq<int>, after: seq<int>, i: nat, total: nat)
    requires Splits(before, total) && i < |before| && Levelled(before, after, i, MinEach(total, |before|))
    ensures |after| == |before| && Splits(after, total)
    ensures forall k :: 0 <= k < |before| && before[k] >= MinEach(total, |before|) ==>
        after[k] >= MinEach(total, |before|)
    ensures total >= 10_000 * |before| ==> after[i] >= MinEach(total, |before|)
  {
    var minEach := MinEach(total, |before|);
    if before[i] < minEach {
      var need := minEach - before[i];
      var donor: nat :| IsDonor(before, donor, i) && after == if before[donor] - need >= minEach
        then Moved(before, donor, i, need) else before;
      if before[donor] - need >= minEach { MovedSplits(before, total, donor, i, need); }
      if total >= 10_000 * |before| { DonorCanGive(before, total, donor, i); }
    }
  }

  /** Any weights give n non-negative amounts adding up to exactly the total, and once the total
      reaches 10,000 per invoice no amount stays below the minimum. */
  method SplitUnevenTargets(total: int, quantity: int, weights: seq<real>) returns (amounts: array<int>)
    requires |weights| == Max(1, quantity) && Positive(weights)
    ensures fresh(amounts) && amounts.Length == Max(1, quantity)
    ensures Sum(amounts[..]) == Max(0, total)
    ensures forall k :: 0 <= k < amounts.Length ==> amounts[k] >= 0
    ensures amounts.Length > 1 && total >= 10_000 * amounts.Length ==>
              forall k :: 0 <= k < amounts.Length ==> amounts[k] >= MinEach(total, amounts.Length)
  {
    var n: nat, T: nat := Max(1, quantity), Max(0, total);
    if n == 1 {
      amounts := new int[1][T];
      assert amounts[..][..0] == [];
      return;
    }
    amounts := FloorShares(T, weights);
    GiveRest(amounts, T);
    LevelAll(amounts, T);
    GiveRest(amounts, T);
  }

  /** What the floors left over goes to the last amount. */
  method GiveRest(amounts: array<int>, total: nat)
    requires amounts.Length > 0 && Sum(amounts[..]) <= total
    modifies amounts
    ensures Sum(amounts[..]) == total
    ensures forall k :: 0 <= k < amounts.Length - 1 ==> amounts[k] == old(amounts[k])
    ensures amounts[amounts.Length - 1] == old(amounts[amounts.Length - 1]) + total - Sum(old(amounts[..]))
  {
    var n := amounts.Length;
    ghost var s := amounts[..];
    GiveLast(s, total);
    var handedOut := SumOf(amounts);
    amounts[n - 1] := amounts[n - 1] + total - handedOut;
    assert amounts[..] == s[n - 1 := s[n - 1] + total - Sum(s)];
  }

  method LevelAll(amounts: array<int>, total: nat)
    requires amounts.Length >= 2 && Splits(amounts[..], total)
    modifies amounts
    ensures Splits(amounts[..], total)
    ensures total >= 10_000 * amounts.Length ==> forall k :: 0 <= k < amounts.Length ==>
        amounts[k] >= MinEach(total, amounts.Length)
  {
    var n := amounts.Length;
    var minEach := MinEach(total, n);
    for i := 0 to n
      invariant Splits(amounts[..], total)
      invariant total >= 10_000 * n ==> forall k :: 0 <= k < i ==> amounts[k] >= minEach
    {
      ghost var before := amounts[..];
      LevelStep(amounts, i, minEach);
      ghost var after := amounts[..];
      LevelledKeeps(before, after, i, total);
      assert forall k :: 0 <= k < n ==> amounts[k] == after[k];
    }
  }

  lemma GiveLast(s: seq<int>, total: int)
    requires s != []
    ensures Sum(s[|s| - 1 := s[|s| - 1] + total - Sum(s)]) == total
  {
    SumUpdate(s, |s| - 1, s[|s| - 1] + total - Sum(s));
  }

  method SumOf(a: array<int>) returns (r: int)
    ensures r == Sum(a[..])
  {
    r := 0;
    for k := 0 to a.Length
      invariant r == Sum(a[..k])
    {
      assert a[..k + 1][..k] == a[..k];
      r := r + a[k];
    }
    assert a[..a.Length] == a[..];
  }

  // ---------- fillInvoiceFromCatalog ----------

  datatype Product = Product(id: int, name: string, code: int, price: int)
  datatype Line = Line(productId: int, name: string, code: int, unitPrice: int, quantity: nat, lineTotal: int)

  const MAX_PICKS: nat := 800

  function LineSum(lines: seq<Line>): int {
    if lines == [] then 0 else LineSum(lines[..|lines| - 1]) + lines[|lines| - 1].lineTotal
  }

  /** `maxOvershoot`: 3,000 or six percent of the target. */
  function Overshoot(target: int): int { Max(3_000, target * 6 / 100) }

  predicate UniqueIds(products: seq<Product>) {
    forall i, j :: 0 <= i < j < |products| ==> products[i].id != products[j].id
  }

  predicate Sellable(products: seq<Product>) {
    exists p <- products :: p.price > 0
  }

  /** The cheapest price the filler can use. */
  ghost predicate IsCheapest(c: int, products: seq<Product>) {
    && c > 0
    && (exists p <- products :: p.price == c)
    && forall p <- products :: p.price > 0 ==> p.price >= c
  }

  predicate IsLineOf(l: Line, p: Product) {
    l.productId == p.id && l.name == p.name && l.code == p.code && l.unitPrice == p.price
  }

  /** The line sells at least one unit of a catalogue product at its price. */
  predicate Sells(l: Line, products: seq<Product>) {
    && l.quantity >= 1 && l.lineTotal == l.quantity * l.unitPrice
    && exists p <- products :: p.price > 0 && IsLineOf(l, p)
  }

  /** One line per product, and each of them sells it. */
  predicate Consistent(lines: seq<Line>, products: seq<Product>) {
    && (forall i :: 0 <= i < |lines| ==> Sells(lines[i], products))
    && forall i, j :: 0 <= i < j < |lines| ==> lines[i].productId != lines[j].productId
  }

  /** How many units of a product an invoice sells. */
  function UnitsOf(lines: seq<Line>, id: int): nat {
    if lines == [] then 0
    else
      var last := lines[|lines| - 1];
      UnitsOf(lines[..|lines| - 1], id) + if last.productId == id then last.quantity else 0
  }

  lemma {:induction false} UnitsOfUpdate(lines: seq<Line>, k: nat, l: Line, id: int)
    requires k < |lines| && l.productId == lines[k].productId && l.quantity == lines[k].quantity + 1
    ensures UnitsOf(lines[k := l], id) == UnitsOf(lines, id) + if id == l.productId then 1 else 0
    decreases |lines|
  {
    var n := |lines| - 1;
    if k < n {
      UnitsOfUpdate(lines[..n], k, l, id);
      assert lines[k := l][..n] == lines[..n][k := l];
    } else {
      assert lines[k := l][..n] == lines[..n];
    }
  }

  lemma {:induction false} LineSumUpdate(lines: seq<Line>, k: nat, l: Line)
    requires k < |lines|
    ensures LineSum(lines[k := l]) == LineSum(lines) - lines[k].lineTotal + l.lineTotal
    decreases |lines|
  {
    var n := |lines| - 1;
    if k < n {
      LineSumUpdate(lines[..n], k, l);
      assert lines[k := l][..n] == lines[..n][k := l];
    } else {
      assert lines[k := l][..n] == lines[..n];
    }
  }

  /** The product of a line is the only one with its id. */
  lemma LinePrice(l: Line, p: Product, pool: seq<Product>)
    requires UniqueIds(pool) && p in pool && Sells(l, pool) && l.productId == p.id
    ensures IsLineOf(l, p)
  {
    var q :| q in pool && q.price > 0 && IsLineOf(l, q);
    var i, j :| 0 <= i < |pool| && 0 <= j < |pool| && pool[i] == p && pool[j] == q;
    assert i == j;
  }

  /** `after` sells one more unit of `p` than `lines`, and otherwise the same. */
  ghost predicate OneMore(lines: seq<Line>, after: seq<Line>, p: Product) {
    && LineSum(after) == LineSum(lines) + p.price
    && forall id :: UnitsOf(after, id) == UnitsOf(lines, id) + if id == p.id then 1 else 0
  }

  lemma LineGrows(lines: seq<Line>, k: nat, next: Line, p: Product, pool: seq<Product>)
    requires p in pool && p.price > 0 && UniqueIds(pool) && Consistent(lines, pool) && k < |lines|
        && lines[k].productId == p.id
    requires next == lines[k].(quantity := lines[k].quantity + 1,
        lineTotal := (lines[k].quantity + 1) * lines[k].unitPrice)
    ensures Consistent(lines[k := next], pool) && OneMore(lines, lines[k := next], p)
  {
    assert Sells(lines[k], pool);
    LinePrice(lines[k], p, pool);
    assert next.lineTotal == lines[k].lineTotal + p.price;
    LineSumUpdate(lines, k, next);
    forall id ensures UnitsOf(lines[k := next], id) == UnitsOf(lines, id) + if id == p.id then 1 else 0 {
      UnitsOfUpdate(lines, k, next, id);
    }
    assert IsLineOf(next, p) && Sells(next, pool);
  }

  lemma LineAdded(lines: seq<Line>, line: Line, p: Product, pool: seq<Product>)
    requires p in pool && p.price > 0 && Consistent(lines, pool) && forall i :: 0 <= i < |lines| ==>
        lines[i].productId != p.id
    requires line == Line(p.id, p.name, p.code, p.price, 1, p.price)
    ensures Consistent(lines + [line], pool) && OneMore(lines, lines + [line], p)
  {
    assert IsLineOf(line, p) && Sells(line, pool);
    assert (lines + [line])[..|lines|] == lines;
  }

  /** One more unit of `p`, and of nothing else: on its line if there is one, on a new line at the end otherwise. */
  method AddLine(lines: seq<Line>, p: Product, ghost pool: seq<Product>) returns (after: seq<Line>)
    requires p in pool && p.price > 0 && UniqueIds(pool) && Consistent(lines, pool)
    ensures Consistent(after, pool) && OneMore(lines, after, p)
    ensures lines == [] ==> after == [Line(p.id, p.name, p.code, p.price, 1, p.price)]
    ensures after != []
  {
    for k := 0 to |lines|
      invariant forall i :: 0 <= i < k ==> lines[i].productId != p.id
    {
      if lines[k].productId == p.id {
        var prev := lines[k];
        var next := prev.(quantity := prev.quantity + 1, lineTotal := (prev.quantity + 1) * prev.unitPrice);
        LineGrows(lines, k, next, p, pool);
        return lines[k := next];
      }
    }
    var line := Line(p.id, p.name, p.code, p.price, 1, p.price);
    LineAdded(lines, line, p, pool);
    after := lines + [line];
  }

  /** Positive prices only. */
  method Pool(products: seq<Product>) returns (pool: array<Product>)
    ensures fresh(pool)
    ensures forall p :: p in pool[..] <==> p in products && p.price > 0
    ensures UniqueIds(products) ==> UniqueIds(pool[..])
  {
    var kept: seq<Product> := [];
    for k := 0 to |products|
      invariant forall p :: p in kept <==> p in products[..k] && p.price > 0
      invariant UniqueIds(products) ==> UniqueIds(kept)
    {
      assert products[..k + 1] == products[..k] + [products[k]];
      if products[k].price > 0 {
        assert UniqueIds(products) ==> forall p <- kept :: p.id != products[k].id;
        kept := kept + [products[k]];
      }
    }
    assert products[..|products|] == products;
    pool := new Product[|kept|](i requires 0 <= i < |kept| => kept[i]);
    assert pool[..] == kept;
  }

  function Swap<T>(s: seq<T>, i: nat, j: nat): seq<T>
    requires i < |s| && j < |s|
  {
    s[i := s[j]][j := s[i]]
  }

  lemma SwapPermutes<T>(s: seq<T>, i: nat, j: nat)
    requires i < |s| && j < |s|
    ensures multiset(Swap(s, i, j)) == multiset(s)
  {
  }

  lemma SwapKeepsIds(s: seq<Product>, i: nat, j: nat)
    requires i < |s| && j < |s| && UniqueIds(s)
    ensures UniqueIds(Swap(s, i, j))
  {
  }

  /** The in-place shuffle: any sequence of swaps keeps the catalogue. */
  method Shuffle(pool: array<Product>)
    requires UniqueIds(pool[..])
    modifies pool
    ensures multiset(pool[..]) == multiset(old(pool[..])) && UniqueIds(pool[..])
  {
    var i := pool.Length - 1;
    while i > 0
      invariant i < pool.Length
      invariant multiset(pool[..]) == multiset(old(pool[..])) && UniqueIds(pool[..])
    {
      var j :| 0 <= j <= i;
      ghost var before := pool[..];
      pool[i], pool[j] := pool[j], pool[i];
      assert pool[..] == Swap(before, i, j);
      SwapPermutes(before, i, j);
      SwapKeepsIds(before, i, j);
      i := i - 1;
    }
  }

  method Cheapest(pool: seq<Product>) returns (c: Product)
    requires pool != []
    ensures c in pool && forall p <- pool :: c.price <= p.price
  {
    c := pool[0];
    for k := 1 to |pool|
      invariant c in pool && forall i :: 0 <= i < k ==> c.price <= pool[i].price
    {
      if pool[k].price < c.price { c := pool[k]; }
    }
  }

  /** The product whose price is nearest to the target. */
  method Nearest(pool: seq<Product>, target: int) returns (c: Product)
    requires pool != []
    ensures c in pool && forall p <- pool :: Abs(c.price - target) <= Abs(p.price - target)
  {
    c := pool[0];
    for k := 1 to |pool|
      invariant c in pool && forall i :: 0 <= i < k ==> Abs(c.price - target) <= Abs(pool[i].price - target)
    {
      if Abs(pool[k].price - target) < Abs(c.price - target) { c := pool[k]; }
    }
  }

  method Fitting(pool: seq<Product>, limit: int) returns (fitting: seq<Product>)
    ensures forall p :: p in fitting <==> p in pool && p.price <= limit
  {
    fitting := [];
    for k := 0 to |pool|
      invariant forall p :: p in fitting <==> p in pool[..k] && p.price <= limit
    {
      assert pool[..k + 1] == pool[..k] + [pool[k]];
      if pool[k].price <= limit { fitting := fitting + [pool[k]]; }
    }
    assert pool[..|pool|] == pool;
  }

  /** The unit leaves nothing, enough for another product, or little enough to overshoot. */
  predicate LeavesNoRemnant(p: Product, remaining: int, cheapest: int, maxOvershoot: int) {
    remaining - p.price == 0 || remaining - p.price >= cheapest || remaining - p.price <= maxOvershoot
  }

  /** A remainder is possible exactly when another product still fits, or what is missing is within the overshoot. */
  lemma RemnantExactlyWhen(p: Product, pool: seq<Product>, cheapest: Product, remaining: int, maxOvershoot: int)
    requires cheapest in pool && (forall q <- pool :: cheapest.price <= q.price) && maxOvershoot >= 0
    ensures LeavesNoRemnant(p, remaining, cheapest.price, maxOvershoot) <==>
            (exists q <- pool :: p.price + q.price <= remaining) || remaining <= p.price + maxOvershoot
  {
    if remaining - p.price >= cheapest.price { assert p.price + cheapest.price <= remaining; }
  }

  /** The overshoot is six percent of the target, in whole pesos, and 3,000 up to a target of 50,000. */
  lemma OvershootMeaning(target: nat)
    ensures target < 50_017 ==> Overshoot(target) == 3_000
    ensures target >= 50_000 ==> 100 * Overshoot(target) <= 6 * target < 100 * (Overshoot(target) + 1)
  {
  }

  /** Those that leave no impossible remainder, or all if there are none; one of them at random. */
  method PickOne(fitting: seq<Product>, remaining: int, cheapest: int, maxOvershoot: int) returns (pick: Product)
    requires fitting != []
    ensures pick in fitting
    ensures (exists p <- fitting :: LeavesNoRemnant(p, remaining, cheapest, maxOvershoot)) ==>
              LeavesNoRemnant(pick, remaining, cheapest, maxOvershoot)
  {
    var good: seq<Product> := [];
    for k := 0 to |fitting|
      invariant forall p :: p in good <==> p in fitting[..k] && LeavesNoRemnant(p, remaining, cheapest, maxOvershoot)
    {
      assert fitting[..k + 1] == fitting[..k] + [fitting[k]];
      if LeavesNoRemnant(fitting[k], remaining, cheapest, maxOvershoot) { good := good + [fitting[k]]; }
    }
    assert fitting[..|fitting|] == fitting;
    var bag := if |good| > 0 then good else fitting;
    var r :| 0 <= r < |bag|;
    pick := bag[r];
  }

  /** An invoice of a single unit at the cheapest price. */
  ghost predicate OneCheapestUnit(lines: seq<Line>, c: int) {
    |lines| == 1 && lines[0].quantity == 1 && lines[0].lineTotal == c
  }

  /** The amount an invoice may reach, given its target and the cheapest price. */
  ghost predicate Filled(lines: seq<Line>, target: int, c: int) {
    && (LineSum(lines) > target - c || LineSum(lines) >= MAX_PICKS * c)
    && (c <= target + Overshoot(target) ==> LineSum(lines) <= target + Overshoot(target))
    && (c > target + Overshoot(target) ==> OneCheapestUnit(lines, c))
  }

  /** The next product, or none when nothing fits the remainder of a started invoice. */
  method NextPick(pool: seq<Product>, cheapest: Product, sum: int, target: int) returns (r: Option<Product>)
    requires cheapest in pool && (forall p <- pool :: 0 < cheapest.price <= p.price) && 0 <= sum < target
    ensures r.None? ==> sum > 0 && sum > target - cheapest.price
    ensures r.Some? ==> r.value in pool && r.value.price >= cheapest.price
    ensures r.Some? && sum > 0 ==> sum + r.value.price <= target
    ensures r.Some? && sum == 0 ==> r.value.price <= target + Overshoot(target) || r.value.price == cheapest.price
  {
    var remaining := target - sum;
    var fitting := Fitting(pool, remaining + if sum == 0 then Overshoot(target) else 0);
    if |fitting| > 0 {
      var pick := PickOne(fitting, remaining, cheapest.price, Overshoot(target));
      return Some(pick);
    }
    assert cheapest !in fitting;
    if sum != 0 { return None; }
    var pick := Nearest(pool, target);
    NearestIsCheapest(pick, cheapest, target);
    return Some(pick);
  }

  method FillFrom(pool: seq<Product>, target: int) returns (lines: seq<Line>, ghost c: int)
    requires pool != [] && UniqueIds(pool) && target > 0 && forall p <- pool :: p.price > 0
    ensures IsCheapest(c, pool) && Filled(lines, target, c) && Consistent(lines, pool)
  {
    var cheapest := Cheapest(pool);
    c := cheapest.price;
    lines := [];
    var sum, guard := 0, 0;
    var limit := target + Overshoot(target);
    while sum < target && guard < MAX_PICKS
      invariant Consistent(lines, pool) && sum == LineSum(lines)
      invariant 0 <= guard <= MAX_PICKS && sum >= guard * c && (guard == 0 <==> lines == [])
      invariant guard == 0 <==> sum == 0
      invariant c <= limit ==> sum <= limit
      invariant c > limit && guard > 0 ==> OneCheapestUnit(lines, c) && sum >= target
      decreases MAX_PICKS - guard
    {
      var pick := NextPick(pool, cheapest, sum, target);
      if pick.None? { break; }
      if sum > 0 && sum + pick.value.price > limit { break; }
      lines := AddLine(lines, pick.value, pool);
      sum := sum + pick.value.price;
      assert (guard + 1) * c == guard * c + c;
      guard := guard + 1;
    }
    if sum < target && target - sum >= cheapest.price && sum + cheapest.price <= limit {
      lines := AddLine(lines, cheapest, pool);
      sum := sum + cheapest.price;
    }
  }

  lemma NearestIsCheapest(pick: Product, cheapest: Product, target: int)
    requires cheapest.price > target && cheapest.price <= pick.price
    requires Abs(pick.price - target) <= Abs(cheapest.price - target)
    ensures pick.price == cheapest.price
  {
  }

  lemma OneCheapest(c: int, d: int, pool: seq<Product>, products: seq<Product>)
    requires IsCheapest(c, pool) && IsCheapest(d, products)
    requires forall p :: p in pool <==> p in products && p.price > 0
    ensures c == d
  {
  }

  lemma ConsistentWith(lines: seq<Line>, pool: seq<Product>, products: seq<Product>)
    requires Consistent(lines, pool) && forall p <- pool :: p in products
    ensures Consistent(lines, products)
  {
    forall i | 0 <= i < |lines| ensures Sells(lines[i], products) {
      assert Sells(lines[i], pool);
    }
  }

  method FillInvoiceFromCatalog(target: int, products: seq<Product>) returns (lines: seq<Line>)
    requires UniqueIds(products)
    ensures target <= 0 || !Sellable(products) ==> lines == []
    ensures Consistent(lines, products)
    ensures target > 0 ==> forall c | IsCheapest(c, products) :: Filled(lines, target, c)
  {
    var shelf := Pool(products);
    if shelf.Length == 0 || target <= 0 {
      assert shelf.Length == 0 ==> forall p <- products :: p !in shelf[..];
      return [];
    }
    assert shelf[0] in shelf[..];
    Shuffle(shelf);
    var pool := shelf[..];
    forall p ensures p in pool <==> p in products && p.price > 0 {
      assert p in pool <==> p in multiset(pool);
    }
    ghost var c;
    lines, c := FillFrom(pool, target);
    ConsistentWith(lines, pool, products);
    forall d | IsCheapest(d, products) ensures d == c {
      OneCheapest(c, d, pool, products);
    }
  }

  // ---------- planBulkInvoicesFromCatalog ----------

  datatype Invoice = Invoice(index: nat, targetAmount: int, lines: seq<Line>, sum: int)

  function Planned(invoices: seq<Invoice>): int {
    if invoices == [] then 0 else Planned(invoices[..|invoices| - 1]) + invoices[|invoices| - 1].sum
  }

  function Targets(invoices: seq<Invoice>): seq<int> {
    seq(|invoices|, i requires 0 <= i < |invoices| => invoices[i].targetAmount)
  }

  function Overshoots(targets: seq<int>): int {
    if targets == [] then 0 else Overshoots(targets[..|targets| - 1]) + Overshoot(targets[|targets| - 1])
  }

  /** Within reach: 800 picks of the cheapest product cover the target, and one of them fits it. */
  ghost predicate Reachable(target: int, c: int) {
    target <= MAX_PICKS * c && c <= target + Overshoot(target)
  }

  ghost predicate Near(invoice: Invoice, c: int) {
    && invoice.sum == LineSum(invoice.lines)
    && (Reachable(invoice.targetAmount, c) ==>
          invoice.targetAmount - c < invoice.sum <= invoice.targetAmount + Overshoot(invoice.targetAmount))
  }

  lemma {:induction false} PlannedBounds(invoices: seq<Invoice>, c: int)
    requires forall i :: 0 <= i < |invoices| ==> Near(invoices[i], c) && Reachable(invoices[i].targetAmount, c)
    ensures Planned(invoices) <= Sum(Targets(invoices)) + Overshoots(Targets(invoices))
    ensures Sum(Targets(invoices)) - |invoices| * c + |invoices| <= Planned(invoices)
    decreases |invoices|
  {
    if invoices != [] {
      var n := |invoices| - 1;
      PlannedBounds(invoices[..n], c);
      TargetsSnoc(invoices);
      assert Near(invoices[n], c) && Reachable(invoices[n].targetAmount, c);
      assert (n + 1) * c == n * c + c;
    }
  }

  lemma TargetsSnoc(invoices: seq<Invoice>)
    requires invoices != []
    ensures var n := |invoices| - 1;
            && Sum(Targets(invoices)) == Sum(Targets(invoices[..n])) + invoices[n].targetAmount
            && Overshoots(Targets(invoices)) == Overshoots(Targets(invoices[..n])) + Overshoot(invoices[n].targetAmount)
  {
    assert Targets(invoices)[..|invoices| - 1] == Targets(invoices[..|invoices| - 1]);
  }

  method LineSumOf(lines: seq<Line>) returns (r: int)
    ensures r == LineSum(lines)
  {
    r := 0;
    for k := 0 to |lines|
      invariant r == LineSum(lines[..k])
    {
      assert lines[..k + 1][..k] == lines[..k];
      r := r + lines[k].lineTotal;
    }
    assert lines[..|lines|] == lines;
  }

  /** The invoice planned for a target: its position, lines from the catalogue, and a sum near the target. */
  ghost predicate PlanOf(invoice: Invoice, index: nat, target: int, products: seq<Product>) {
    && invoice.index == index && invoice.targetAmount == target && Consistent(invoice.lines, products)
    && forall c | IsCheapest(c, products) :: Near(invoice, c)
  }

  ghost predicate AllPlanned(invoices: seq<Invoice>, targets: seq<int>, products: seq<Product>) {
    |invoices| <= |targets| && forall i :: 0 <= i < |invoices| ==> PlanOf(invoices[i], i + 1, targets[i], products)
  }

  method FillOne(index: nat, target: int, products: seq<Product>) returns (invoice: Invoice)
    requires UniqueIds(products) && target >= 0
    ensures PlanOf(invoice, index, target, products)
  {
    var lines := FillInvoiceFromCatalog(target, products);
    var sum := LineSumOf(lines);
    invoice := Invoice(index, target, lines, sum);
    forall c | IsCheapest(c, products) ensures Near(invoice, c) {
      if target > 0 { assert Filled(lines, target, c); }
    }
  }

  lemma PlannedTargets(invoices: seq<Invoice>, targets: seq<int>, products: seq<Product>)
    requires AllPlanned(invoices, targets, products) && |invoices| == |targets|
    ensures Targets(invoices) == targets
  {
    forall i | 0 <= i < |invoices| ensures Targets(invoices)[i] == targets[i] {
      assert PlanOf(invoices[i], i + 1, targets[i], products);
    }
  }

  lemma PlanBound(invoices: seq<Invoice>, targets: seq<int>, products: seq<Product>, c: int)
    requires AllPlanned(invoices, targets, products) && |invoices| == |targets| > 0 && IsCheapest(c, products)
    requires forall t <- targets :: Reachable(t, c)
    ensures Sum(targets) - |targets| * c < Planned(invoices) <= Sum(targets) + Overshoots(targets)
  {
    PlannedTargets(invoices, targets, products);
    forall i | 0 <= i < |invoices| ensures Near(invoices[i], c) && Reachable(invoices[i].targetAmount, c) {
      assert PlanOf(invoices[i], i + 1, targets[i], products) && targets[i] in targets;
    }
    PlannedBounds(invoices, c);
  }

  /** One invoice per target, with `plannedSum` adding up their sums. */
  method PlanTargets(targets: seq<int>, products: seq<Product>) returns (invoices: seq<Invoice>, plannedSum: int)
    requires UniqueIds(products) && forall k :: 0 <= k < |targets| ==> targets[k] >= 0
    ensures |invoices| == |targets| && AllPlanned(invoices, targets, products) && plannedSum == Planned(invoices)
  {
    invoices, plannedSum := [], 0;
    for k := 0 to |targets|
      invariant |invoices| == k && plannedSum == Planned(invoices) && AllPlanned(invoices, targets, products)
    {
      var invoice := FillOne(k + 1, targets[k], products);
      assert (invoices + [invoice])[..k] == invoices;
      invoices := invoices + [invoice];
      plannedSum := plannedSum + invoice.sum;
    }
  }

  /** The plan adds up to the total to within the cheapest price per invoice below and the overshoots above. */
  method PlanBulkInvoices(targetTotal: int, quantity: int, products: seq<Product>, weights: seq<real>)
    returns (invoices: seq<Invoice>, plannedSum: int)
    requires UniqueIds(products) && |weights| == Max(1, quantity) && Positive(weights)
    ensures |invoices| == Max(1, quantity) && plannedSum == Planned(invoices)
    ensures Sum(Targets(invoices)) == Max(0, targetTotal) && AllPlanned(invoices, Targets(invoices), products)
    ensures forall c | IsCheapest(c, products) && (forall t <- Targets(invoices) :: Reachable(t, c)) ::
              Max(0, targetTotal) - |invoices| * c < plannedSum <= Max(0, targetTotal) + Overshoots(Targets(invoices))
  {
    var amounts := SplitUnevenTargets(targetTotal, quantity, weights);
    var targets := amounts[..];
    invoices, plannedSum := PlanTargets(targets, products);
    PlannedTargets(invoices, targets, products);
    forall c | IsCheapest(c, products) && (forall t <- targets :: Reachable(t, c))
      ensures Max(0, targetTotal) - |invoices| * c < plannedSum <= Max(0, targetTotal) + Overshoots(targets)
    {
      PlanBound(invoices, targets, products, c);
    }
  }
}
