/** The utilization-to-multiplier curve of a reward distribution. */
module Utilization {
  import opened MachineInts

  datatype MultiplierPoint = MultiplierPoint(utilizationBps: U32, multiplierBps: U32)

  const BPS := 10_000

  /** The point a utilization falls on: the first one at or above it, else the last one. */
  function Select(curve: seq<MultiplierPoint>, utilization: int): MultiplierPoint
    requires curve != []
  {
    if utilization <= curve[0].utilizationBps || |curve| == 1 then curve[0]
    else Select(curve[1..], utilization)
  }

  predicate Sorted(curve: seq<MultiplierPoint>) {
    forall i, j :: 0 <= i < j < |curve| ==> curve[i].utilizationBps <= curve[j].utilizationBps
  }

  /** The multiplier in basis points, with the truncating `as u32` of the code. */
  function Multiplier(totalDeposits: int, targetDeposits: int, curve: seq<MultiplierPoint>): Result<int> {
    if targetDeposits <= 0 || curve == [] then Ok(BPS)
    else
      var scaled :- CheckedMul(totalDeposits, BPS);
      var utilization :- CheckedDiv(scaled, targetDeposits);
      Ok(Select(curve, AsU32(utilization)).multiplierBps)
  }

  /** The amount a distribution credits: `amount * multiplier / 10000` in u128, cast back to i128. */
  function EffectiveAmount(amount: int, multiplierBps: int): Result<int> {
    var product := AsU128(amount) * AsU128(multiplierBps);
    if U128_SIZE <= product then Err(MathOverflow) else Ok(AsI128(product / BPS))
  }

  /** With this configuration no total of deposits, and so no distribution, meets a multiplier above 1.0x.
      Points that no utilization selects do not matter, and without a target the curve does not. */
  ghost predicate NeverAboveOne(targetDeposits: int, curve: seq<MultiplierPoint>) {
    forall total :: 0 < total <= I128_MAX && Multiplier(total, targetDeposits, curve).Ok? ==>
      Multiplier(total, targetDeposits, curve).value <= BPS
  }

  /** `calculate_utilization_multiplier`: a search loop that stops at the first matching point. */
  method CalculateUtilizationMultiplier(totalDeposits: int, targetDeposits: int, curve: seq<MultiplierPoint>)
    returns (r: Result<int>)
    ensures r == Multiplier(totalDeposits, targetDeposits, curve)
    ensures r.Ok? ==> r.value == BPS || exists p :: p in curve && r.value == p.multiplierBps
    ensures 0 <= totalDeposits && 0 < targetDeposits && curve != []
            && UtilizationFits(totalDeposits, targetDeposits) ==>
              exists i: nat :: i < |curve| && Applies(curve, i, totalDeposits, targetDeposits)
                               && r == Ok(curve[i].multiplierBps)
  {
    if 0 <= totalDeposits && 0 < targetDeposits && curve != [] {
      ghost var k := MultiplierMeaning(totalDeposits, targetDeposits, curve);
    }
    if targetDeposits <= 0 || curve == [] {
      return Ok(BPS);
    }
    var scaled := CheckedMul(totalDeposits, BPS);
    if scaled.Err? {
      return scaled;
    }
    var ratio := CheckedDiv(scaled.value, targetDeposits);
    if ratio.Err? {
      return ratio;
    }
    var utilization := AsU32(ratio.value);
    var selected := curve[|curve| - 1].multiplierBps;
    var i := 0;
    while i < |curve|
      invariant 0 <= i <= |curve|
      invariant selected == curve[|curve| - 1].multiplierBps
      invariant i < |curve| ==> Select(curve, utilization) == Select(curve[i..], utilization)
      invariant i == |curve| ==> Select(curve, utilization) == curve[|curve| - 1]
    {
      if utilization <= curve[i].utilizationBps {
        selected := curve[i].multiplierBps;
        assert curve[i] in curve;
        return Ok(selected);
      }
      assert i + 1 < |curve| ==> curve[i..][1..] == curve[i + 1..];
      i := i + 1;
    }
    assert curve[|curve| - 1] in curve;
    return Ok(selected);
  }

  /** `validate_utilization_multipliers`: one pass with a running last value accepts exactly the
      sorted curves. */
  method ValidateUtilizationMultipliers(curve: seq<MultiplierPoint>) returns (r: Result<()>)
    ensures r == if Sorted(curve) then Ok(()) else Err(InvalidUtilizationParameters)
  {
    if curve == [] {
      return Ok(());
    }
    var last := 0;
    for i := 0 to |curve|
      invariant Sorted(curve[..i])
      invariant forall k :: 0 <= k < i ==> curve[k].utilizationBps <= last
      invariant i == 0 ==> last == 0
      invariant 0 < i ==> last == curve[i - 1].utilizationBps
    {
      if curve[i].utilizationBps < last {
        return Err(InvalidUtilizationParameters);
      }
      last := curve[i].utilizationBps;
    }
    assert curve[..|curve|] == curve;
    return Ok(());
  }

  /** On a sorted curve the selected point is the lowest one that reaches the utilization, and the
      last one only if none does. */
  lemma {:induction false} SelectIsFirstReached(curve: seq<MultiplierPoint>, utilization: int)
    requires curve != [] && Sorted(curve)
    ensures Select(curve, utilization) in curve
    ensures var p := Select(curve, utilization);
            if exists q :: q in curve && utilization <= q.utilizationBps then
              utilization <= p.utilizationBps
              && forall q :: q in curve && utilization <= q.utilizationBps ==> p.utilizationBps <= q.utilizationBps
            else p == curve[|curve| - 1]
  {
    if utilization <= curve[0].utilizationBps || |curve| == 1 {
      assert curve[0] in curve;
    } else {
      SelectIsFirstReached(curve[1..], utilization);
      forall q | q in curve && utilization <= q.utilizationBps
        ensures q in curve[1..]
      {
        var i :| 0 <= i < |curve| && curve[i] == q;
        assert q == curve[1..][i - 1];
      }
    }
  }

  lemma {:induction false} SelectedPosition(curve: seq<MultiplierPoint>, utilization: int) returns (i: nat)
    requires curve != []
    ensures i < |curve| && Select(curve, utilization) == curve[i]
    ensures utilization <= curve[i].utilizationBps || i == |curve| - 1
    ensures forall j :: 0 <= j < i ==> curve[j].utilizationBps < utilization
  {
    if utilization <= curve[0].utilizationBps || |curve| == 1 {
      i := 0;
    } else {
      var rest := SelectedPosition(curve[1..], utilization);
      i := rest + 1;
      assert forall j :: 0 < j < i ==> curve[j] == curve[1..][j - 1];
    }
  }

  /** Point `q` is not below the utilization: deposits over target, in whole basis points. */
  predicate Reaches(q: MultiplierPoint, totalDeposits: int, targetDeposits: int) {
    totalDeposits * 10_000 < (q.utilizationBps + 1) * targetDeposits
  }

  /** Point `i` is the first one that is not below the utilization, or the last one if all are. */
  predicate Applies(curve: seq<MultiplierPoint>, i: nat, totalDeposits: int, targetDeposits: int)
    requires i < |curve|
  {
    && (Reaches(curve[i], totalDeposits, targetDeposits) || i == |curve| - 1)
    && forall j :: 0 <= j < i ==> !Reaches(curve[j], totalDeposits, targetDeposits)
  }

  /** The utilization is computed in i128 and is below 2^32 basis points. */
  predicate UtilizationFits(totalDeposits: int, targetDeposits: int) {
    totalDeposits * 10_000 <= I128_MAX && totalDeposits * 10_000 < 0x1_0000_0000 * targetDeposits
  }

  lemma {:induction false} FloorAtMostIff(x: int, d: int, q: int)
    requires 0 < d
    ensures x / d <= q <==> x < (q + 1) * d
  {
    var excess := q - x / d;
    assert (q + 1) * d - x == excess * d + (d - x % d);
    if 0 <= excess {
      ProductNonNegative(excess, d);
    } else {
      ProductNonNegative(-1 - excess, d);
    }
  }

  /** The multiplier from total, target and curve alone. It is computed exactly when `total * 10000` fits in i128; and
      below 2^32 basis points of utilization it is the one of the first listed point that is not below the
      utilization, or of the last point if all are. On a sorted curve no other such point is lower. */
  lemma {:induction false} MultiplierMeaning(totalDeposits: int, targetDeposits: int, curve: seq<MultiplierPoint>)
    returns (i: nat)
    requires 0 <= totalDeposits && 0 < targetDeposits && curve != []
    ensures Multiplier(totalDeposits, targetDeposits, curve).Ok? <==> totalDeposits * 10_000 <= I128_MAX
    ensures UtilizationFits(totalDeposits, targetDeposits) ==>
              && i < |curve| && Multiplier(totalDeposits, targetDeposits, curve) == Ok(curve[i].multiplierBps)
              && Applies(curve, i, totalDeposits, targetDeposits)
              && (Sorted(curve) ==> forall j :: 0 <= j < |curve| && Reaches(curve[j], totalDeposits, targetDeposits) ==>
                                      curve[i].utilizationBps <= curve[j].utilizationBps)
  {
    hide Reaches, Multiplier, Select, UtilizationFits, Sorted;
    i := 0;
    MultiplierComputed(totalDeposits, targetDeposits, curve);
    if UtilizationFits(totalDeposits, targetDeposits) {
      var utilization := totalDeposits * 10_000 / targetDeposits;
      i := SelectedPosition(curve, utilization);
      forall j | 0 <= j < |curve|
        ensures Reaches(curve[j], totalDeposits, targetDeposits) <==> utilization <= curve[j].utilizationBps
      {
        ReachesIff(curve[j], totalDeposits, targetDeposits);
      }
      if Sorted(curve) {
        LowestReached(curve, utilization, i);
      }
    }
  }

  lemma {:induction false} LowestReached(curve: seq<MultiplierPoint>, utilization: int, i: nat)
    requires Sorted(curve) && i < |curve| && forall j :: 0 <= j < i ==> curve[j].utilizationBps < utilization
    ensures forall j :: 0 <= j < |curve| && utilization <= curve[j].utilizationBps ==>
              curve[i].utilizationBps <= curve[j].utilizationBps
  {
  }

  lemma {:induction false} ReachesIff(q: MultiplierPoint, totalDeposits: int, targetDeposits: int)
    requires 0 < targetDeposits
    ensures Reaches(q, totalDeposits, targetDeposits) <==> totalDeposits * 10_000 / targetDeposits <= q.utilizationBps
  {
    FloorAtMostIff(totalDeposits * 10_000, targetDeposits, q.utilizationBps);
  }

  lemma {:induction false} MultiplierComputed(totalDeposits: int, targetDeposits: int, curve: seq<MultiplierPoint>)
    requires 0 <= totalDeposits && 0 < targetDeposits && curve != []
    ensures Multiplier(totalDeposits, targetDeposits, curve).Ok? <==> totalDeposits * 10_000 <= I128_MAX
    ensures UtilizationFits(totalDeposits, targetDeposits) ==>
              Multiplier(totalDeposits, targetDeposits, curve)
              == Ok(Select(curve, totalDeposits * 10_000 / targetDeposits).multiplierBps)
  {
    hide Select;
    var scaled := totalDeposits * 10_000;
    QuotientWithin(scaled, targetDeposits);
    FloorAtMostIff(scaled, targetDeposits, U32_SIZE - 1);
  }

  lemma {:induction false} QuotientWithin(x: int, d: int)
    requires 0 <= x && 0 < d
    ensures 0 <= x / d <= x
  {
    ProductNonNegative(x, d - 1);
    FloorAtMostIff(x, d, x);
    assert (x + 1) * d == x * d + d && x * d == x * (d - 1) + x;
  }

  /** Without a target or without a curve rewards are credited as they are paid in. */
  lemma {:induction false} NoCurveNoMultiplier(totalDeposits: int, targetDeposits: int, curve: seq<MultiplierPoint>)
    requires targetDeposits <= 0 || curve == []
    ensures forall amount :: 100_000 <= amount && amount * 10_000 < U128_SIZE ==>
              && Multiplier(totalDeposits, targetDeposits, curve) == Ok(10_000)
              && EffectiveAmount(amount, 10_000) == Ok(amount)
  {
    forall amount | 100_000 <= amount && amount * 10_000 < U128_SIZE
      ensures EffectiveAmount(amount, 10_000) == Ok(amount)
    {
      EffectiveAmountMeaning(amount, 10_000);
      assert amount * 10_000 / 10_000 == amount;
    }
  }

  /** The cast to u32 is harmless for every curve exactly while the utilization is below 2^32 basis
      points; from there on it can pick a low-utilization multiplier for a very full vault. */
  lemma {:induction false} TruncationHarmlessIffUtilizationFits(utilization: nat)
    ensures (forall curve: seq<MultiplierPoint> :: curve != [] && Sorted(curve)
                ==> Select(curve, AsU32(utilization)) == Select(curve, utilization))
       <==> utilization < U32_SIZE
  {
    if U32_SIZE <= utilization {
      var curve := [MultiplierPoint(AsU32(utilization), 0), MultiplierPoint(U32_SIZE - 1, 1)];
      assert Sorted(curve);
      assert Select(curve, AsU32(utilization)) == curve[0];
      assert curve[1..] == [curve[1]];
      assert Select(curve, utilization) == Select(curve[1..], utilization) == curve[1];
    }
  }

  /** For an amount that passed validation the two casts lose nothing: the result is the plain
      quotient, and it exceeds the amount exactly when the multiplier is above 1.0x (100000 is the
      minimum a distribution accepts). */
  lemma {:induction false} EffectiveAmountMeaning(amount: int, multiplierBps: int)
    requires 100_000 <= amount <= I128_MAX && 0 <= multiplierBps < U32_SIZE
    ensures EffectiveAmount(amount, multiplierBps).Ok? <==> amount * multiplierBps < U128_SIZE
    ensures var r := EffectiveAmount(amount, multiplierBps);
            r.Ok? ==> (&& r.value == amount * multiplierBps / BPS
                       && 0 <= r.value
                       && (r.value <= amount <==> multiplierBps <= BPS))
  {
    hide AsU128, AsI128;
    WithinU128(amount);
    WithinU128(multiplierBps);
    var product := amount * multiplierBps;
    ProductAgainst(amount, multiplierBps);
    if product < U128_SIZE {
      assert product / BPS <= I128_MAX;
      CastIsIdentity(product / BPS);
    }
  }

  lemma {:induction false} WithinU128(x: int)
    requires 0 <= x < U128_SIZE
    ensures AsU128(x) == x
  {
  }

  lemma {:induction false} ProductAgainst(amount: int, multiplierBps: int)
    requires BPS <= amount && 0 <= multiplierBps
    ensures 0 <= amount * multiplierBps
    ensures multiplierBps <= BPS ==> amount * multiplierBps <= amount * BPS
    ensures BPS < multiplierBps ==> (amount + 1) * BPS <= amount * multiplierBps
  {
    ProductNonNegative(amount, multiplierBps);
    if multiplierBps <= BPS {
      ProductNonNegative(amount, BPS - multiplierBps);
    } else {
      ProductNonNegative(amount, multiplierBps - BPS - 1);
      assert amount * multiplierBps == amount * (multiplierBps - BPS - 1) + amount * BPS + amount;
    }
  }

  lemma {:induction false} SelectInCurve(curve: seq<MultiplierPoint>, utilization: int)
    requires curve != []
    ensures Select(curve, utilization) in curve
  {
    if !(utilization <= curve[0].utilizationBps || |curve| == 1) {
      SelectInCurve(curve[1..], utilization);
    }
  }

  /** Two simple ways to stay at or below 1.0x: no target, or no point above it. */
  lemma {:induction false} NeverAboveOneIf(targetDeposits: int, curve: seq<MultiplierPoint>)
    requires targetDeposits <= 0 || forall p :: p in curve ==> p.multiplierBps <= BPS
    ensures NeverAboveOne(targetDeposits, curve)
  {
    forall total | 0 < total <= I128_MAX && Multiplier(total, targetDeposits, curve).Ok?
      ensures Multiplier(total, targetDeposits, curve).value <= BPS
    {
      if 0 < targetDeposits && curve != [] {
        SelectInCurve(curve, AsU32(CheckedDiv(CheckedMul(total, BPS).value, targetDeposits).value));
      }
    }
  }

  /** A total that meets a multiplier above 1.0x leaves room for the arithmetic of a distribution. */
  lemma {:induction false} AboveOneIsSmall(total: int, targetDeposits: int, curve: seq<MultiplierPoint>)
    requires 0 < total && Multiplier(total, targetDeposits, curve).Ok?
    requires BPS < Multiplier(total, targetDeposits, curve).value
    ensures total * BPS <= I128_MAX && Multiplier(total, targetDeposits, curve).value < U32_SIZE
  {
    SelectInCurve(curve, AsU32(CheckedDiv(CheckedMul(total, BPS).value, targetDeposits).value));
  }
}
