/** Machine integers, checked arithmetic and the vault's error values.

    Dafny's integers are unbounded, so every width of the contract is written out here: the
    `checked_*` operations fail outside `i128`, `as` casts keep the low bits, and the unchecked sum
    of a lock list wraps (the release profile does not enable overflow checks). */
module MachineInts {

  const I128_MAX: int := 170_141_183_460_469_231_731_687_303_715_884_105_727
  const I128_MIN: int := -170_141_183_460_469_231_731_687_303_715_884_105_728
  const U128_SIZE: int := 340_282_366_920_938_463_463_374_607_431_768_211_456
  const U64_MAX: int := 18_446_744_073_709_551_615
  const U32_SIZE: int := 4_294_967_296

  predicate FitsI128(x: int) { I128_MIN <= x <= I128_MAX }

  type I128 = x: int | FitsI128(x)
  type U64 = x: int | 0 <= x <= U64_MAX
  type U32 = x: int | 0 <= x < U32_SIZE

  /** The error codes the modelled entry points can return; `HostTrap` stands for a panic inside a
      token contract, which aborts the transaction just as an error does. */
  datatype VaultError =
    | AlreadyInitialized
    | NotInitialized
    | Unauthorized
    | InvalidAmount
    | NegativeAmount
    | InsufficientBalance
    | MathOverflow
    | NoDeposits
    | InvalidTokenConfiguration
    | InsufficientContractBalance
    | InvalidAddress
    | RewardCalculationFailed
    | ReentrancyDetected
    | ZeroRewardIncrement
    | NoPendingAdmin
    | InsufficientRewardAmount
    | InvalidLockDuration
    | OperationLimitExceeded
    | InvalidUtilizationParameters
    | HostTrap

  datatype Option<+T> = None | Some(value: T)

  datatype Result<+T> = Ok(value: T) | Err(error: VaultError) {
    predicate IsFailure() { Err? }
    function PropagateFailure<U>(): Result<U> requires Err? { Err(error) }
    function Extract(): T requires Ok? { value }
  }

  function Checked(x: int): Result<int> { if FitsI128(x) then Ok(x) else Err(MathOverflow) }

  function CheckedAdd(a: int, b: int): Result<int> { Checked(a + b) }

  function CheckedSub(a: int, b: int): Result<int> { Checked(a - b) }

  function CheckedMul(a: int, b: int): Result<int> { Checked(a * b) }

  /** Rust's integer division: truncation towards zero. */
  function TruncDiv(a: int, b: int): int
    requires b != 0
  {
    if a >= 0 then a / b else -((-a) / b)
  }

  /** `checked_div`: fails on a zero divisor and on MIN / -1. */
  function CheckedDiv(a: int, b: int): Result<int> {
    if b == 0 || !FitsI128(TruncDiv(a, b)) then Err(RewardCalculationFailed) else Ok(TruncDiv(a, b))
  }

  /** `x as u128`, `x as i128` and `x as u32`: the low bits, reinterpreted. */
  function AsU128(x: int): int { x % U128_SIZE }

  function AsI128(x: int): int {
    var low := x % U128_SIZE;
    if low <= I128_MAX then low else low - U128_SIZE
  }

  function AsU32(x: int): int { x % U32_SIZE }

  lemma {:induction false} CastIsIdentity(x: int)
    requires 0 <= x <= I128_MAX
    ensures AsI128(x) == x
  {
  }

  lemma {:induction false} ProductNonNegative(a: int, b: int)
    requires 0 <= a && 0 <= b
    ensures 0 <= a * b
  {
  }
}

/** Finite sums over the values of a map, used to add up user positions and ledgers. */
module Totals {

  ghost function Total<K>(m: map<K, int>): int
    decreases |m|
  {
    if m == map[] then 0 else var k :| k in m; m[k] + Total(m - {k})
  }

  /** The sum does not depend on which key is taken out first. */
  lemma {:induction false} TotalRemove<K>(m: map<K, int>, k: K)
    requires k in m
    ensures Total(m) == m[k] + Total(m - {k})
    decreases |m|
  {
    var first :| first in m && Total(m) == m[first] + Total(m - {first});
    if first != k {
      TotalRemove(m - {first}, k);
      TotalRemove(m - {k}, first);
      assert (m - {first}) - {k} == (m - {k}) - {first};
    }
  }

  function Lookup<K>(m: map<K, int>, k: K): int { if k in m then m[k] else 0 }

  /** Writing one entry moves the sum by the difference of the two values. */
  lemma {:induction false} TotalUpdate<K>(m: map<K, int>, k: K, v: int)
    ensures Total(m[k := v]) == Total(m) - Lookup(m, k) + v
  {
    TotalRemove(m[k := v], k);
    assert m[k := v] - {k} == m - {k};
    if k in m {
      TotalRemove(m, k);
    } else {
      assert m - {k} == m;
    }
  }

  lemma {:induction false} TotalNonNegative<K>(m: map<K, int>)
    requires forall k :: k in m ==> 0 <= m[k]
    ensures 0 <= Total(m)
    decreases |m|
  {
    if m != map[] {
      var k :| k in m;
      TotalRemove(m, k);
      TotalNonNegative(m - {k});
    }
  }

  lemma {:induction false} TotalBoundsEntry<K>(m: map<K, int>, k: K)
    requires forall j :: j in m ==> 0 <= m[j]
    ensures 0 <= Lookup(m, k) <= Total(m)
  {
    if k in m {
      TotalRemove(m, k);
      TotalNonNegative(m - {k});
    } else {
      TotalNonNegative(m);
    }
  }

  lemma {:induction false} TotalAdd<K>(a: map<K, int>, b: map<K, int>, r: map<K, int>)
    requires a.Keys == b.Keys == r.Keys
    requires forall k :: k in r ==> r[k] == a[k] + b[k]
    ensures Total(r) == Total(a) + Total(b)
    decreases |r|
  {
    if r == map[] {
      assert a == map[] && b == map[];
    } else {
      var k :| k in r;
      TotalRemove(r, k);
      TotalRemove(a, k);
      TotalRemove(b, k);
      TotalAdd(a - {k}, b - {k}, r - {k});
    }
  }

  function Times(c: int, x: int): int { c * x }

  lemma {:induction false} TotalScale<K>(b: map<K, int>, c: int, r: map<K, int>)
    requires b.Keys == r.Keys
    requires forall k :: k in r ==> r[k] == Times(c, b[k])
    ensures Total(r) == Times(c, Total(b))
    decreases |r|
  {
    if r == map[] {
      assert b == map[];
    } else {
      var k :| k in r;
      TotalRemove(r, k);
      TotalRemove(b, k);
      TotalScale(b - {k}, c, r - {k});
      assert Times(c, b[k] + Total(b - {k})) == Times(c, b[k]) + Times(c, Total(b - {k}));
    }
  }

  lemma {:induction false} TotalMonotone<K>(a: map<K, int>, b: map<K, int>)
    requires a.Keys == b.Keys
    requires forall k :: k in a ==> a[k] <= b[k]
    ensures Total(a) <= Total(b)
    decreases |a|
  {
    if a == map[] {
      assert b == map[];
    } else {
      var k :| k in a;
      TotalRemove(a, k);
      TotalRemove(b, k);
      TotalMonotone(a - {k}, b - {k});
    }
  }
}
