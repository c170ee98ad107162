/** Percentages that add up to exactly 100 at a given precision: the largest-remainder (Hamilton) method. */
module Percent {
  import opened Numbers

  // ---------------------------------------------------------------- quotas

  function Clamp(f: Number): real {
    if f.Finite? && f.value > 0.0 then f.value else 0.0
  }

  function Clamped(fractions: seq<Number>): seq<real> {
    seq(|fractions|, i requires 0 <= i < |fractions| => Clamp(fractions[i]))
  }

  function RealSum(xs: seq<real>): real
    decreases |xs|
  {
    if xs == [] then 0.0 else RealSum(xs[..|xs| - 1]) + xs[|xs| - 1]
  }

  function IntSum(xs: seq<int>): int
    decreases |xs|
  {
    if xs == [] then 0 else IntSum(xs[..|xs| - 1]) + xs[|xs| - 1]
  }

  function Pow10(n: nat): nat {
    if n == 0 then 1 else 10 * Pow10(n - 1)
  }

  /** A number that counts: finite and above zero. */
  predicate IsPositive(f: Number) {
    match f
    case Finite(v) => v > 0.0
    case _ => false
  }

  ghost predicate AnyPositive(fractions: seq<Number>) {
    exists i | 0 <= i < |fractions| :: IsPositive(fractions[i])
  }

  /** The sum of the positive fractions. */
  function PositiveSum(fractions: seq<Number>): real
    decreases |fractions|
  {
    if fractions == [] then 0.0
    else
      var front := PositiveSum(fractions[..|fractions| - 1]);
      if IsPositive(fractions[|fractions| - 1]) then front + fractions[|fractions| - 1].value else front
  }

  lemma {:induction false} PositiveSumIs(fractions: seq<Number>)
    ensures RealSum(Clamped(fractions)) == PositiveSum(fractions) >= 0.0
    ensures PositiveSum(fractions) == 0.0 <==> !AnyPositive(fractions)
    decreases |fractions|
  {
    if fractions != [] {
      var n := |fractions| - 1;
      PositiveSumIs(fractions[..n]);
      assert Clamped(fractions)[..n] == Clamped(fractions[..n]);
      assert AnyPositive(fractions) <==> AnyPositive(fractions[..n]) || IsPositive(fractions[n]) by {
        if i :| 0 <= i < n && IsPositive(fractions[i]) { assert fractions[..n][i] == fractions[i]; }
      }
    }
  }

  /** How many units of the last decimal place make up 100 percent. */
  function Target(decimals: nat): nat {
    100 * Pow10(decimals)
  }

  function Quotas(shares: seq<real>, target: nat): seq<real>
    requires RealSum(shares) != 0.0
  {
    seq(|shares|, i requires 0 <= i < |shares| => shares[i] / RealSum(shares) * target as real)
  }

  function Floors(quotas: seq<real>): seq<int> {
    seq(|quotas|, i requires 0 <= i < |quotas| => quotas[i].Floor)
  }

  function Remainders(quotas: seq<real>): seq<real> {
    seq(|quotas|, i requires 0 <= i < |quotas| => quotas[i] - quotas[i].Floor as real)
  }

  lemma {:induction false} ClampedSum(xs: seq<real>)
    requires forall i | 0 <= i < |xs| :: xs[i] >= 0.0
    ensures RealSum(xs) >= 0.0
    ensures forall i | 0 <= i < |xs| :: xs[i] <= RealSum(xs)
    decreases |xs|
  {
    if xs != [] {
      ClampedSum(xs[..|xs| - 1]);
      assert forall i | 0 <= i < |xs| - 1 :: xs[..|xs| - 1][i] == xs[i];
    }
  }

  lemma ScaledStep(s: real, x: real, total: real, target: real)
    requires total != 0.0
    ensures (s + x) / total * target == s / total * target + x / total * target
  {
  }

  lemma {:induction false} ScaledSum(xs: seq<real>, qs: seq<real>, total: real, target: real)
    requires total != 0.0 && |xs| == |qs|
    requires forall i | 0 <= i < |xs| :: qs[i] == xs[i] / total * target
    ensures RealSum(qs) == RealSum(xs) / total * target
    decreases |xs|
  {
    if xs != [] {
      var n := |xs| - 1;
      ScaledSum(xs[..n], qs[..n], total, target);
      ScaledStep(RealSum(xs[..n]), xs[n], total, target);
    }
  }

  lemma WholeShare(total: real, target: real)
    requires total != 0.0
    ensures total / total * target == target
  {
  }

  lemma QuotasSum(shares: seq<real>, target: nat)
    requires RealSum(shares) != 0.0
    ensures RealSum(Quotas(shares, target)) == target as real
  {
    ScaledSum(shares, Quotas(shares, target), RealSum(shares), target as real);
    WholeShare(RealSum(shares), target as real);
  }

  /** Integers that bound reals from above have the larger sum, strictly if one of them is strictly larger. */
  lemma {:induction false} SumAbove(qs: seq<real>, us: seq<int>)
    requires |qs| == |us| && forall i | 0 <= i < |qs| :: qs[i] <= us[i] as real
    ensures RealSum(qs) <= IntSum(us) as real
    ensures (exists i | 0 <= i < |qs| :: qs[i] < us[i] as real) ==> RealSum(qs) < IntSum(us) as real
    decreases |qs|
  {
    if qs != [] {
      var n := |qs| - 1;
      SumAbove(qs[..n], us[..n]);
      if i :| 0 <= i < n && qs[i] < us[i] as real { assert qs[..n][i] < us[..n][i] as real; }
    }
  }

  lemma {:induction false} SumBelow(us: seq<int>, qs: seq<real>)
    requires |qs| == |us| && forall i | 0 <= i < |qs| :: us[i] as real <= qs[i]
    ensures IntSum(us) as real <= RealSum(qs)
    decreases |qs|
  {
    if qs != [] { SumBelow(us[..|us| - 1], qs[..|us| - 1]); }
  }

  lemma {:induction false} SumOfUpdate(us: seq<int>, k: nat, v: int)
    requires k < |us|
    ensures IntSum(us[k := v]) == IntSum(us) - us[k] + v
    decreases |us|
  {
    var n := |us| - 1;
    if k == n {
      assert us[k := v][..n] == us[..n];
    } else {
      SumOfUpdate(us[..n], k, v);
      assert us[k := v][..n] == us[..n][k := v];
    }
  }

  // ---------------------------------------------------------------- the order of the remainders

  /** Larger remainders come first; ties go to the lower index. */
  predicate Before(rs: seq<real>, i: nat, j: nat)
    requires i < |rs| && j < |rs|
  {
    rs[i] > rs[j] || (rs[i] == rs[j] && i < j)
  }

  predicate Indices(rs: seq<real>, order: seq<nat>) {
    forall k | 0 <= k < |order| :: order[k] < |rs|
  }

  predicate Ordered(rs: seq<real>, order: seq<nat>) {
    && Indices(rs, order)
    && forall a, b | 0 <= a < b < |order| :: Before(rs, order[a], order[b])
  }

  function Insert(rs: seq<real>, i: nat, order: seq<nat>): seq<nat>
    requires i < |rs| && Indices(rs, order)
  {
    if order == [] then [i]
    else if Before(rs, i, order[0]) then [i] + order
    else [order[0]] + Insert(rs, i, order[1..])
  }

  /** The first n indices, sorted. */
  function OrderOf(rs: seq<real>, n: nat): (order: seq<nat>)
    requires n <= |rs|
    ensures Indices(rs, order)
  {
    if n == 0 then []
    else
      InsertMembers(rs, n - 1, OrderOf(rs, n - 1));
      Insert(rs, n - 1, OrderOf(rs, n - 1))
  }

  lemma {:induction false} InsertMembers(rs: seq<real>, i: nat, order: seq<nat>)
    requires i < |rs| && Indices(rs, order)
    ensures |Insert(rs, i, order)| == |order| + 1
    ensures forall k | k in Insert(rs, i, order) :: k == i || k in order
    ensures i in Insert(rs, i, order) && forall k | k in order :: k in Insert(rs, i, order)
    ensures Indices(rs, Insert(rs, i, order))
    decreases |order|
  {
    if order != [] && !Before(rs, i, order[0]) {
      InsertMembers(rs, i, order[1..]);
      assert order == [order[0]] + order[1..];
    }
    forall k | 0 <= k < |Insert(rs, i, order)| ensures Insert(rs, i, order)[k] < |rs| {
      assert Insert(rs, i, order)[k] in Insert(rs, i, order);
    }
  }

  lemma {:induction false} InsertOrdered(rs: seq<real>, i: nat, order: seq<nat>)
    requires i < |rs| && Ordered(rs, order) && i !in order
    ensures Ordered(rs, Insert(rs, i, order))
    decreases |order|
  {
    InsertMembers(rs, i, order);
    if order != [] && !Before(rs, i, order[0]) {
      InsertOrdered(rs, i, order[1..]);
      InsertMembers(rs, i, order[1..]);
      var rest := Insert(rs, i, order[1..]);
      forall b | 0 <= b < |rest| ensures Before(rs, order[0], rest[b]) {
        assert rest[b] in rest;
      }
    }
  }

  lemma {:induction false} OrderOfMembers(rs: seq<real>, n: nat)
    requires n <= |rs|
    ensures |OrderOf(rs, n)| == n
    ensures forall k: nat | k < n :: k in OrderOf(rs, n)
    ensures forall k | k in OrderOf(rs, n) :: k < n
  {
    if n != 0 {
      OrderOfMembers(rs, n - 1);
      InsertMembers(rs, n - 1, OrderOf(rs, n - 1));
    }
  }

  lemma {:induction false} OrderOfOrdered(rs: seq<real>, n: nat)
    requires n <= |rs|
    ensures Ordered(rs, OrderOf(rs, n))
  {
    if n != 0 {
      var front := OrderOf(rs, n - 1);
      OrderOfOrdered(rs, n - 1);
      OrderOfMembers(rs, n - 1);
      assert n - 1 !in front;
      InsertOrdered(rs, n - 1, front);
      assert OrderOf(rs, n) == Insert(rs, n - 1, front);
    }
  }

  lemma OrderOfSorts(rs: seq<real>, n: nat)
    requires n <= |rs|
    ensures Ordered(rs, OrderOf(rs, n)) && |OrderOf(rs, n)| == n
    ensures forall k: nat | k < n :: k in OrderOf(rs, n)
    ensures forall k | k in OrderOf(rs, n) :: k < n
  {
    OrderOfOrdered(rs, n);
    OrderOfMembers(rs, n);
  }

  // ---------------------------------------------------------------- Hamilton's shares

  /** An entry that got one unit more than the floor of its quota. */
  predicate Bumped(quotas: seq<real>, units: seq<int>, i: nat)
    requires |units| == |quotas| && i < |quotas|
  {
    units[i] == quotas[i].Floor + 1
  }

  /** The entry with the floor or one more, the larger remainders served first. */
  ghost predicate RemaindersServed(quotas: seq<real>, units: seq<int>) {
    && |units| == |quotas|
    && (forall i | 0 <= i < |quotas| :: units[i] == quotas[i].Floor || Bumped(quotas, units, i))
    && forall i, j | 0 <= i < |quotas| && 0 <= j < |quotas| ::
         Bumped(quotas, units, i) && !Bumped(quotas, units, j) ==> Before(Remainders(quotas), i, j)
  }

  /** The shares by largest remainder: exact in total. */
  ghost predicate Hamilton(quotas: seq<real>, units: seq<int>, target: nat) {
    RemaindersServed(quotas, units) && IntSum(units) == target
  }

  lemma {:induction false} SameSumSame(us: seq<int>, vs: seq<int>)
    requires |us| == |vs| && forall i | 0 <= i < |us| :: us[i] <= vs[i]
    ensures IntSum(us) <= IntSum(vs)
    ensures IntSum(us) == IntSum(vs) ==> us == vs
    decreases |us|
  {
    if us != [] {
      var n := |us| - 1;
      SameSumSame(us[..n], vs[..n]);
      assert us == us[..n] + [us[n]] && vs == vs[..n] + [vs[n]];
    }
  }

  /** There is only one way to serve the remainders with a given total. */
  lemma HamiltonUnique(quotas: seq<real>, us: seq<int>, vs: seq<int>, target: nat)
    requires Hamilton(quotas, us, target) && Hamilton(quotas, vs, target)
    ensures us == vs
  {
    if j :| 0 <= j < |quotas| && us[j] > vs[j] {
      forall i | 0 <= i < |quotas| ensures vs[i] <= us[i] {
        assert Bumped(quotas, us, j) && !Bumped(quotas, vs, j);
        assert Bumped(quotas, vs, i) && !Bumped(quotas, us, i) ==>
            Before(Remainders(quotas), i, j) && Before(Remainders(quotas), j, i);
      }
      SameSumSame(vs, us);
    } else {
      SameSumSame(us, vs);
    }
  }

  /** A larger share never gets fewer units, and of two equal shares the first never gets fewer. */
  lemma LargerGetsNoFewer(quotas: seq<real>, units: seq<int>, i: nat, j: nat)
    requires RemaindersServed(quotas, units) && i < |quotas| && j < |quotas|
    requires quotas[i] > quotas[j] || (quotas[i] == quotas[j] && i < j)
    ensures units[i] >= units[j]
  {
    if quotas[i].Floor == quotas[j].Floor {
      assert Before(Remainders(quotas), i, j);
      assert !Before(Remainders(quotas), j, i);
    }
  }

  /** An entry without a remainder keeps exactly its quota. */
  lemma WholeQuotaKept(quotas: seq<real>, units: seq<int>, target: nat, i: nat)
    requires Hamilton(quotas, units, target) && RealSum(quotas) == target as real
    requires i < |quotas| && quotas[i] == quotas[i].Floor as real
    ensures units[i] as real == quotas[i]
  {
    if Bumped(quotas, units, i) {
      forall j | 0 <= j < |quotas| ensures quotas[j] <= units[j] as real {
        assert !Bumped(quotas, units, j) ==> Before(Remainders(quotas), i, j);
      }
      assert quotas[i] < units[i] as real;
      SumAbove(quotas, units);
      assert false;
    }
  }

  // ---------------------------------------------------------------- the distribution

  /** The floors with one unit more for the first entries of the order. */
  ghost predicate Served(quotas: seq<real>, order: seq<nat>, cursor: nat, units: seq<int>) {
    && |units| == |quotas| && cursor <= |order|
    && forall i: nat | i < |quotas| :: units[i] == quotas[i].Floor + (if i in order[..cursor] then 1 else 0)
  }

  lemma ServeNext(quotas: seq<real>, order: seq<nat>, cursor: nat, units: seq<int>)
    requires Ordered(Remainders(quotas), order) && cursor < |order| && Served(quotas, order, cursor, units)
    ensures order[cursor] < |units|
    ensures Served(quotas, order, cursor + 1, units[order[cursor] := units[order[cursor]] + 1])
    ensures IntSum(units[order[cursor] := units[order[cursor]] + 1]) == IntSum(units) + 1
  {
    var k := order[cursor];
    assert order[..cursor + 1] == order[..cursor] + [k];
    forall a | 0 <= a < cursor ensures order[a] != k {
      assert Before(Remainders(quotas), order[a], order[cursor]);
    }
    SumOfUpdate(units, k, units[k] + 1);
  }

  lemma ServedAreServed(quotas: seq<real>, order: seq<nat>, cursor: nat, units: seq<int>)
    requires Ordered(Remainders(quotas), order) && Served(quotas, order, cursor, units)
    requires forall k: nat | k < |quotas| :: k in order
    ensures RemaindersServed(quotas, units)
  {
    forall i, j | 0 <= i < |quotas| && 0 <= j < |quotas| && Bumped(quotas, units, i) && !Bumped(quotas, units, j)
      ensures Before(Remainders(quotas), i, j)
    {
      assert i in order[..cursor] && j in order;
      var a :| 0 <= a < cursor && order[..cursor][a] == i;
      var b :| 0 <= b < |order| && order[b] == j;
      forall c | 0 <= c < cursor ensures order[c] != j {
        assert order[..cursor][c] in order[..cursor];
      }
    }
  }

  /** When every entry has been served, more than the whole has been given out. */
  lemma AllServed(quotas: seq<real>, order: seq<nat>, units: seq<int>)
    requires Served(quotas, order, |order|, units) && |quotas| > 0
    requires forall k: nat | k < |quotas| :: k in order
    ensures RealSum(quotas) < IntSum(units) as real
  {
    assert order[..|order|] == order;
    forall i | 0 <= i < |quotas| ensures quotas[i] < units[i] as real {
      assert i in order[..|order|];
    }
    assert quotas[0] < units[0] as real;
    SumAbove(quotas, units);
  }

  lemma ScaledDifference(x: real, y: real, k: real)
    requires x >= y && k > 0.0
    ensures x * k >= y * k && (x > y ==> x * k > y * k)
  {
  }

  lemma SharedDifference(x: real, y: real, k: real)
    requires x >= y && k > 0.0
    ensures x / k >= y / k && (x > y ==> x / k > y / k)
  {
    ScaledDifference(x / k, y / k, k);
  }

  lemma QuotasNonNegative(shares: seq<real>, target: nat, i: nat)
    requires RealSum(shares) > 0.0 && i < |shares| && shares[i] >= 0.0
    ensures Quotas(shares, target)[i] >= 0.0
  {
    SharedDifference(shares[i], 0.0, RealSum(shares));
    assert 0.0 / RealSum(shares) == 0.0;
    assert shares[i] / RealSum(shares) * target as real >= 0.0;
  }

  /** Hamilton's shares of the fractions. */
  ghost predicate IsDistribution(fractions: seq<Number>, decimals: nat, units: seq<int>) {
    && RealSum(Clamped(fractions)) != 0.0
    && Hamilton(Quotas(Clamped(fractions), Target(decimals)), units, Target(decimals))
  }

  /** The units of the last decimal place that each fraction is shown with. */
  method DistributeUnits(fractions: seq<Number>, decimals: nat) returns (units: seq<int>)
    ensures |units| == |fractions| && forall i | 0 <= i < |units| :: units[i] >= 0
    ensures !AnyPositive(fractions) ==> forall i | 0 <= i < |units| :: units[i] == 0
    ensures AnyPositive(fractions) ==> IsDistribution(fractions, decimals, units)
  {
    if |fractions| == 0 { return []; }
    var clamped := Clamped(fractions);
    var sum := RealSum(clamped);
    PositiveSumIs(fractions);
    if sum == 0.0 {
      return seq(|clamped|, i => 0);
    }
    var target := Target(decimals);
    var scaled := Quotas(clamped, target);
    var floors := Floors(scaled);
    var floorSum := IntSum(floors);
    QuotasSum(clamped, target);
    SumBelow(floors, scaled);
    var residue := target - floorSum;
    var order := OrderOf(Remainders(scaled), |scaled|);
    OrderOfSorts(Remainders(scaled), |scaled|);
    units := floors;
    var cursor := 0;
    while residue > 0 && cursor < |order|
      invariant residue >= 0 && IntSum(units) + residue == target
      invariant Served(scaled, order, cursor, units)
    {
      ServeNext(scaled, order, cursor, units);
      units := units[order[cursor] := units[order[cursor]] + 1];
      residue := residue - 1;
      cursor := cursor + 1;
    }
    if cursor == |order| { AllServed(scaled, order, units); }
    ServedAreServed(scaled, order, cursor, units);
    ClampedSum(clamped);
    forall i | 0 <= i < |units| ensures units[i] >= 0 {
      QuotasNonNegative(clamped, target, i);
    }
  }

  // ---------------------------------------------------------------- the texts

  function Digit(n: nat): char
    requires n < 10
  {
    ('0' as int + n) as char
  }

  function Decimal(n: nat): string {
    if n < 10 then [Digit(n)] else Decimal(n / 10) + [Digit(n % 10)]
  }

  /** The last `width` digits. */
  function Padded(n: nat, width: nat): string {
    if width == 0 then "" else Padded(n / 10, width - 1) + [Digit(n % 10)]
  }

  /** The whole percents among a number of units of the last decimal place. */
  function Whole(units: nat, decimals: nat): nat {
    if decimals == 0 then units else Whole(units / 10, decimals - 1)
  }

  /** A number of units of the last decimal place, as `toFixed` shows it, with a percent sign. */
  function PercentText(units: nat, decimals: nat): string {
    Decimal(Whole(units, decimals)) + (if decimals == 0 then "" else "." + Padded(units, decimals)) + "%"
  }

  /** The digits of a text read as one number: the units it shows. */
  function ReadUnits(text: string): nat
    decreases |text|
  {
    if text == "" then 0
    else
      var front, c := ReadUnits(text[..|text| - 1]), text[|text| - 1];
      if '0' <= c <= '9' then 10 * front + (c as int - '0' as int) else front
  }

  lemma {:induction false} TenPowPositive(decimals: nat)
    ensures Pow10(decimals) > 0
  {
    if decimals != 0 { TenPowPositive(decimals - 1); }
  }

  lemma ReadsDigit(text: string, n: nat)
    requires n < 10
    ensures ReadUnits(text + [Digit(n)]) == 10 * ReadUnits(text) + n
  {
    assert (text + [Digit(n)])[..|text|] == text;
  }

  lemma ReadsSign(text: string, c: char)
    requires !('0' <= c <= '9')
    ensures ReadUnits(text + [c]) == ReadUnits(text)
  {
    assert (text + [c])[..|text|] == text;
  }

  lemma {:induction false} ReadsDecimal(n: nat)
    ensures ReadUnits(Decimal(n)) == n
  {
    if n < 10 {
      assert "" + [Digit(n)] == [Digit(n)];
      ReadsDigit("", n);
    } else {
      ReadsDecimal(n / 10);
      ReadsDigit(Decimal(n / 10), n % 10);
    }
  }

  lemma WholeStep(units: nat, whole: nat, k: nat)
    requires whole * k <= units / 10 < (whole + 1) * k
    ensures whole * (10 * k) <= units < (whole + 1) * (10 * k)
  {
    assert whole * (10 * k) == 10 * (whole * k) && (whole + 1) * (10 * k) == 10 * ((whole + 1) * k);
  }

  /** The whole percents are the units divided by 10^decimals, rounded down. */
  lemma {:induction false} WholeIsQuotient(units: nat, decimals: nat)
    ensures Whole(units, decimals) * Pow10(decimals) <= units < (Whole(units, decimals) + 1) * Pow10(decimals)
    decreases decimals
  {
    if decimals != 0 {
      WholeIsQuotient(units / 10, decimals - 1);
      WholeStep(units, Whole(units, decimals), Pow10(decimals - 1));
    }
  }

  lemma {:induction false} ReadsPadded(text: string, units: nat, width: nat)
    requires ReadUnits(text) == Whole(units, width)
    ensures ReadUnits(text + Padded(units, width)) == units
    decreases width
  {
    if width == 0 {
      assert text + Padded(units, 0) == text;
    } else {
      ReadsPadded(text, units / 10, width - 1);
      ReadsDigit(text + Padded(units / 10, width - 1), units % 10);
      assert text + Padded(units, width) == text + Padded(units / 10, width - 1) + [Digit(units % 10)];
    }
  }

  /** A text shows exactly its units. */
  lemma ReadsPercent(units: nat, decimals: nat)
    ensures ReadUnits(PercentText(units, decimals)) == units
  {
    var whole := Decimal(Whole(units, decimals));
    ReadsDecimal(Whole(units, decimals));
    if decimals == 0 {
      ReadsSign(whole, '%');
      assert PercentText(units, 0) == whole + ['%'];
    } else {
      ReadsSign(whole, '.');
      ReadsPadded(whole + ['.'], units, decimals);
      ReadsSign(whole + ['.'] + Padded(units, decimals), '%');
      assert PercentText(units, decimals) == whole + ['.'] + Padded(units, decimals) + ['%'];
    }
  }

  predicate AllDigits(text: string) {
    forall i | 0 <= i < |text| :: '0' <= text[i] <= '9'
  }

  lemma {:induction false} PaddedDigits(n: nat, width: nat)
    ensures |Padded(n, width)| == width && AllDigits(Padded(n, width))
    decreases width
  {
    if width != 0 { PaddedDigits(n / 10, width - 1); }
  }

  lemma {:induction false} DecimalDigits(n: nat)
    ensures Decimal(n) != "" && AllDigits(Decimal(n)) && (Decimal(n)[0] == '0' ==> n == 0 && |Decimal(n)| == 1)
  {
    if n >= 10 { DecimalDigits(n / 10); }
  }

  /** A text is the whole percents without leading zeros, a point and exactly the given number of decimals if there are
      any, and a percent sign. */
  lemma TextIsFixed(units: nat, decimals: nat) returns (whole: string, fraction: string)
    ensures PercentText(units, decimals) == whole + (if decimals == 0 then "" else "." + fraction) + "%"
    ensures whole != "" && AllDigits(whole) && (whole[0] == '0' ==> |whole| == 1)
    ensures |fraction| == decimals && AllDigits(fraction)
    ensures ReadUnits(whole) * Pow10(decimals) <= units < (ReadUnits(whole) + 1) * Pow10(decimals)
  {
    whole, fraction := Decimal(Whole(units, decimals)), Padded(units, decimals);
    DecimalDigits(Whole(units, decimals));
    PaddedDigits(units, decimals);
    ReadsDecimal(Whole(units, decimals));
    WholeIsQuotient(units, decimals);
  }

  /** The units that the texts show. */
  function UnitsOf(percents: seq<string>): seq<int> {
    seq(|percents|, i requires 0 <= i < |percents| => ReadUnits(percents[i]))
  }

  /** One text a fraction, each written out to the given number of decimals, showing Hamilton's shares. */
  method DistributePercents(fractions: seq<Number>, decimals: nat) returns (percents: seq<string>)
    ensures |percents| == |fractions|
    ensures forall i | 0 <= i < |percents| :: percents[i] == PercentText(ReadUnits(percents[i]), decimals)
    ensures !AnyPositive(fractions) ==> forall i | 0 <= i < |percents| :: ReadUnits(percents[i]) == 0
    ensures AnyPositive(fractions) ==> IsDistribution(fractions, decimals, UnitsOf(percents))
  {
    var units := DistributeUnits(fractions, decimals);
    percents := seq(|units|, i requires 0 <= i < |units| && units[i] >= 0 => PercentText(units[i], decimals));
    forall i | 0 <= i < |percents| ensures ReadUnits(percents[i]) == units[i] {
      ReadsPercent(units[i], decimals);
    }
    assert UnitsOf(percents) == units;
  }

  // ---------------------------------------------------------------- what the rows promise

  lemma QuotaOrder(f: real, g: real, total: real, target: real)
    requires f >= g && total > 0.0 && target > 0.0
    ensures f / total * target >= g / total * target
    ensures f > g ==> f / total * target > g / total * target
  {
    SharedDifference(f, g, total);
    ScaledDifference(f / total, g / total, target);
  }

  lemma ZeroQuota(total: real, target: real)
    requires total != 0.0
    ensures 0.0 / total * target == 0.0
  {
  }

  /** A zero share keeps zero units. */
  lemma ZeroKeepsZero(shares: seq<real>, units: seq<int>, target: nat, i: nat)
    requires RealSum(shares) != 0.0 && Hamilton(Quotas(shares, target), units, target)
    requires i < |shares| && shares[i] == 0.0
    ensures units[i] == 0
  {
    ZeroQuota(RealSum(shares), target as real);
    assert Quotas(shares, target)[i] == 0.0;
    QuotasSum(shares, target);
    WholeQuotaKept(Quotas(shares, target), units, target, i);
  }

  lemma QuotasOrdered(shares: seq<real>, target: nat, i: nat, j: nat)
    requires RealSum(shares) > 0.0 && target > 0 && i < |shares| && j < |shares| && shares[i] >= shares[j]
    ensures Quotas(shares, target)[i] >= Quotas(shares, target)[j]
    ensures shares[i] > shares[j] ==> Quotas(shares, target)[i] > Quotas(shares, target)[j]
  {
    var f, g, total := shares[i], shares[j], RealSum(shares);
    QuotaOrder(f, g, total, target as real);
  }

  lemma NoFewer(shares: seq<real>, units: seq<int>, target: nat, i: nat, j: nat)
    requires RealSum(shares) > 0.0 && target > 0 && Hamilton(Quotas(shares, target), units, target)
    requires i < |shares| && j < |shares| && (shares[i] > shares[j] || (shares[i] == shares[j] && i < j))
    ensures units[i] >= units[j]
  {
    QuotasOrdered(shares, target, i, j);
    if shares[i] == shares[j] { QuotasOrdered(shares, target, j, i); }
    LargerGetsNoFewer(Quotas(shares, target), units, i, j);
  }

  /** The quota is the part of the target that the share is of the total. */
  predicate IsQuota(quota: real, share: real, total: real, target: real) {
    quota * total == share * target
  }

  lemma QuotientIsQuota(share: real, total: real, target: real)
    requires total > 0.0
    ensures IsQuota(share / total * target, share, total, target)
  {
    var q := share / total;
    assert q * total == share;
    assert q * target * total == q * total * target;
  }

  /** The units are at most one away from the part of the target that the share is of the total. */
  predicate Proportional(units: int, share: real, total: real, target: real) {
    (units - 1) as real * total <= share * target < (units + 1) as real * total
  }

  lemma ScaledBounds(low: real, quota: real, high: real, total: real, product: real)
    requires total > 0.0 && low <= quota < high && quota * total == product
    ensures low * total <= product < high * total
  {
    ScaledDifference(quota, low, total);
    ScaledDifference(high, quota, total);
  }

  lemma NearQuotaIsProportional(quota: real, units: int, share: real, total: real, target: real)
    requires total > 0.0 && IsQuota(quota, share, total, target)
    requires (units - 1) as real <= quota < (units + 1) as real
    ensures Proportional(units, share, total, target)
  {
    ScaledBounds((units - 1) as real, quota, (units + 1) as real, total, share * target);
  }

  lemma UnitsNearQuota(quotas: seq<real>, units: seq<int>, target: nat, i: nat)
    requires Hamilton(quotas, units, target) && i < |quotas|
    ensures (units[i] - 1) as real <= quotas[i] < (units[i] + 1) as real
  {
    assert units[i] == quotas[i].Floor || Bumped(quotas, units, i);
  }

  lemma QuotaAt(shares: seq<real>, target: nat, i: nat)
    requires RealSum(shares) > 0.0 && i < |shares|
    ensures IsQuota(Quotas(shares, target)[i], shares[i], RealSum(shares), target as real)
  {
    QuotientIsQuota(shares[i], RealSum(shares), target as real);
  }

  lemma NearQuota(quotas: seq<real>, units: seq<int>, i: nat, share: real, total: real, target: nat)
    requires Hamilton(quotas, units, target) && i < |quotas|
    requires total > 0.0 && IsQuota(quotas[i], share, total, target as real)
    ensures Proportional(units[i], share, total, target as real)
  {
    UnitsNearQuota(quotas, units, target, i);
    NearQuotaIsProportional(quotas[i], units[i], share, total, target as real);
  }

  lemma UnitsAreProportional(shares: seq<real>, units: seq<int>, target: nat, i: nat)
    requires RealSum(shares) > 0.0 && Hamilton(Quotas(shares, target), units, target) && i < |shares|
    ensures Proportional(units[i], shares[i], RealSum(shares), target as real)
  {
    QuotaAt(shares, target, i);
    NearQuota(Quotas(shares, target), units, i, shares[i], RealSum(shares), target);
  }

  /** Hamilton's shares are at most one unit away from the exact share. */
  lemma SharesAreProportional(fractions: seq<Number>, decimals: nat, units: seq<int>, i: nat)
    requires IsDistribution(fractions, decimals, units) && i < |fractions| && IsPositive(fractions[i])
    ensures i < |units|
    ensures Proportional(units[i], fractions[i].value, PositiveSum(fractions), (100 * Pow10(decimals)) as real)
  {
    PositiveSumIs(fractions);
    UnitsAreProportional(Clamped(fractions), units, Target(decimals), i);
    ClampedIs(fractions, i);
  }

  lemma ClampedIs(fractions: seq<Number>, i: nat)
    requires i < |fractions|
    ensures Clamped(fractions)[i] == if IsPositive(fractions[i]) then fractions[i].value else 0.0
  {
  }

  lemma SharesNonNegative(fractions: seq<Number>, decimals: nat, units: seq<int>, i: nat)
    requires IsDistribution(fractions, decimals, units) && i < |units|
    ensures units[i] >= 0
  {
    var shares, target := Clamped(fractions), Target(decimals);
    ClampedSum(shares);
    QuotasNonNegative(shares, target, i);
    assert units[i] == Quotas(shares, target)[i].Floor || Bumped(Quotas(shares, target), units, i);
  }

  /**
   * What the rows promise a reader: the units add up to exactly 100 percent, an entry that is zero, negative or not a
   * number shows zero, and a larger fraction, or the first of two equal ones, never shows less.
   */
  lemma DistributionIsFair(fractions: seq<Number>, decimals: nat, units: seq<int>, i: nat, j: nat)
    requires IsDistribution(fractions, decimals, units) && i < |fractions| && j < |fractions|
    ensures |units| == |fractions| && IntSum(units) == 100 * Pow10(decimals)
    ensures units[i] >= 0 && (!IsPositive(fractions[i]) ==> units[i] == 0)
    ensures IsPositive(fractions[i]) && IsPositive(fractions[j])
            && (fractions[i].value > fractions[j].value || (fractions[i].value == fractions[j].value && i < j)) ==>
              units[i] >= units[j]
  {
    var shares, target := Clamped(fractions), Target(decimals);
    ClampedSum(shares);
    TenPowPositive(decimals);
    ClampedIs(fractions, i);
    ClampedIs(fractions, j);
    SharesNonNegative(fractions, decimals, units, i);
    if !IsPositive(fractions[i]) { ZeroKeepsZero(shares, units, target, i); }
    if shares[i] > shares[j] || (shares[i] == shares[j] && i < j) { NoFewer(shares, units, target, i, j); }
  }
}
