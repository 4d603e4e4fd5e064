/** When promised rewards are always paid. The index is credited with the effective amount while only the plain
    amount of reward tokens arrives, so the promise holds exactly for the configurations that never meet a
    multiplier above 1.0x: any other one has a run, built here, after which tokens are missing. */
module FundingExactness {
  import opened MachineInts
  import opened TimeLocks
  import opened RewardPool
  import opened Solvency
  import opened LedgerTheorems
  import opened Utilization
  import opened VaultWorld
  import opened VaultTheorems
  import opened VaultCalls

  // ---- The promises ----

  /** A vault with this configuration that is reachable, or, if only `steady` runs count, reachable by `now` with
      a clock that never falls and without callbacks. */
  ghost predicate Configured(steady: bool, w: World, now: U64, vestingPeriod: U64, target: I128,
                             curve: seq<MultiplierPoint>) {
    && (if steady then ReachableBy(w, now) else Reachable(w))
    && w.vault.initialized
    && w.vault.vestingPeriod == vestingPeriod && w.vault.targetDeposits == target && w.vault.curve == curve
  }

  /** The checks and the ledger accept the claim; all that is left is to pay it. */
  ghost predicate ClaimAccepted(w: World, id: LedgerId, user: Address, auth: set<Address>, now: U64) {
    CheckUserCall(w.vault, id, user, 1, auth).Ok? && Claim(w.vault.pools[id], user, w.vault.vestingPeriod, now).Ok?
  }

  ghost predicate WithdrawalAccepted(w: World, id: LedgerId, user: Address, amount: I128, auth: set<Address>,
                                     now: U64) {
    CheckUserCall(w.vault, id, user, amount, auth).Ok? && Withdraw(w.vault.pools[id], user, amount, now).Ok?
  }

  /** Every accepted claim finds its tokens. */
  ghost predicate ClaimsFunded(steady: bool, vestingPeriod: U64, target: I128, curve: seq<MultiplierPoint>) {
    forall w: World, id: LedgerId, user: Address, auth: set<Address>, now: U64 ::
      Configured(steady, w, now, vestingPeriod, target, curve) && ClaimAccepted(w, id, user, auth, now) ==>
        BeginClaim(w, id, user, auth, now).Ok?
  }

  /** Every accepted withdrawal finds its tokens. */
  ghost predicate WithdrawalsFunded(steady: bool, vestingPeriod: U64, target: I128, curve: seq<MultiplierPoint>) {
    forall w: World, id: LedgerId, user: Address, amount: I128, auth: set<Address>, now: U64 ::
      Configured(steady, w, now, vestingPeriod, target, curve) && WithdrawalAccepted(w, id, user, amount, auth, now) ==>
        BeginWithdraw(w, id, user, amount, auth, now).Ok?
  }

  /** The vault's balance of every token covers the deposits and, for the reward token, all rewards owed. */
  ghost predicate HoldingsCover(steady: bool, vestingPeriod: U64, target: I128, curve: seq<MultiplierPoint>) {
    forall w: World, token: Address, now: U64 ::
      Configured(steady, w, now, vestingPeriod, target, curve) ==> CoversLiabilities(w, token)
  }

  // ---- The amount to distribute ----

  /** Large enough that rounding does not matter, small enough that nothing overflows. */
  const PLENTY := 100_000_000_000_000_000_000_000

  /** The index increment aimed at. */
  function Aim(total: int): int
    requires 0 < total
  {
    PLENTY / total + 1
  }

  /** What the only depositor gains at least from that increment. */
  function Goal(total: int): int
    requires 0 < total
  {
    Aim(total) * total / SCALE
  }

  /** The smallest amount, up to one unit, whose effective amount reaches the aim. */
  function Paid(total: int, m: int): int
    requires 0 < total && 0 < m
  {
    (Goal(total) + 1) * BPS / m + 1
  }

  function Credited(total: int, m: int): int
    requires 0 < total && 0 < m
  {
    Paid(total, m) * m / BPS
  }

  function Increment(total: int, m: int): int
    requires 0 < total && 0 < m
  {
    Credited(total, m) * SCALE / total
  }

  /** What the only depositor gains. */
  function Gained(total: int, m: int): int
    requires 0 < total && 0 < m
  {
    total * Increment(total, m) / SCALE
  }

  lemma {:induction false} FloorBounds(n: int, d: int)
    requires 0 < d
    ensures n / d * d <= n < n / d * d + d
  {
    assert n == n / d * d + n % d;
  }

  lemma {:induction false} FloorAtLeast(n: int, q: int, d: int)
    requires 0 < d && q * d <= n
    ensures q <= n / d
  {
    FloorBounds(n, d);
    var gap := q - n / d;
    assert gap * d == q * d - n / d * d;
    if 0 < gap {
      ProductNonNegative(gap - 1, d);
    }
  }

  lemma {:induction false} GoalBounds(total: int)
    requires 0 < total && total * BPS <= I128_MAX
    ensures 1 <= Aim(total)
    ensures PLENTY < Aim(total) * total <= PLENTY + total
    ensures 100_000_000_000_000 <= Goal(total)
    ensures Goal(total) * SCALE <= Aim(total) * total < (Goal(total) + 1) * SCALE
  {
    FloorBounds(PLENTY, total);
    FloorAtLeast(PLENTY, 0, total);
    assert Aim(total) * total == PLENTY / total * total + total;
  }

  /** The depositor gains more than was paid in. */
  lemma {:induction false} PaidBounds(total: int, m: int)
    requires 0 < total && total * BPS <= I128_MAX && BPS < m < U32_SIZE
    ensures MIN_REWARD_DISTRIBUTION <= Paid(total, m) <= Goal(total) - 2
    ensures (Goal(total) + 1) * BPS <= Paid(total, m) * m <= (Goal(total) + 1) * BPS + m
  {
    GoalBounds(total);
    var goal, paid := Goal(total), Paid(total, m);
    FloorBounds((goal + 1) * BPS, m);
    FloorAtLeast((goal + 1) * BPS, 0, m);
    assert (paid - 1) * m == paid * m - m;
    ProductNonNegative(paid - 1, m - BPS - 1);
    assert (paid - 1) * (m - BPS - 1) == (paid - 1) * m - (paid - 1) * (BPS + 1);
    ProductNonNegative(paid, U32_SIZE - m);
    assert paid * (U32_SIZE - m) == paid * U32_SIZE - paid * m;
  }

  lemma {:induction false} CreditedBounds(total: int, m: int)
    requires 0 < total && total * BPS <= I128_MAX && BPS < m < U32_SIZE
    ensures Goal(total) + 1 <= Credited(total, m) <= Goal(total) + 1 + m
    ensures Credited(total, m) * SCALE <= I128_MAX
    ensures Paid(total, m) * m < U128_SIZE && Paid(total, m) <= I128_MAX
  {
    GoalBounds(total);
    PaidBounds(total, m);
  }

  lemma {:induction false} GainedBounds(total: int, m: int)
    requires 0 < total && total * BPS <= I128_MAX && BPS < m < U32_SIZE
    ensures 1 <= Aim(total) <= Increment(total, m) && total * Increment(total, m) <= I128_MAX
    ensures Increment(total, m) <= I128_MAX
    ensures Goal(total) <= Gained(total, m) <= I128_MAX
  {
    GoalBounds(total);
    CreditedBounds(total, m);
    var scaled, inc := Credited(total, m) * SCALE, Increment(total, m);
    FloorAtLeast(scaled, Aim(total), total);
    FloorBounds(scaled, total);
    assert scaled / total * total == total * inc;
    ProductNonNegative(inc - Aim(total), total);
    assert (inc - Aim(total)) * total == total * inc - Aim(total) * total;
    ProductNonNegative(inc, total - 1);
    assert inc * (total - 1) == total * inc - inc;
  }

  // ---- The run ----

  /** Somebody deposits `total`, which meets the multiplier `m`; somebody else administers. */
  datatype Cast = Cast(user: Address, admin: Address, depositToken: Address, rewardToken: Address,
                       vestingPeriod: U64, target: I128, curve: seq<MultiplierPoint>, total: I128, m: int)

  ghost predicate Offending(k: Cast) {
    && k.user != SELF && k.admin != SELF && k.user != k.admin && k.depositToken != k.rewardToken
    && Sorted(k.curve) && 0 < k.total && k.total * BPS <= I128_MAX
    && Multiplier(k.total, k.target, k.curve) == Ok(k.m) && BPS < k.m < U32_SIZE
  }

  ghost predicate Set(w: World, k: Cast, t: int) {
    && ReachableBy(w, t) && Open(w.vault)
    && w.vault.admin == k.admin && w.vault.depositToken == k.depositToken && w.vault.rewardToken == k.rewardToken
    && w.vault.vestingPeriod == k.vestingPeriod && w.vault.targetDeposits == k.target && w.vault.curve == k.curve
    && w.vault.pools.Keys == {Main}
  }

  lemma {:induction false} Prepared(k: Cast) returns (w: World)
    requires Offending(k)
    ensures Set(w, k, 1) && w.vault.pools == map[Main := Pool(0, 0, map[])]
    ensures Held(w.tokens, k.depositToken, k.user) == k.total
    ensures Held(w.tokens, k.rewardToken, k.admin) == Paid(k.total, k.m)
    ensures Held(w.tokens, k.rewardToken, SELF) == 0
  {
    hide ReachableBy;
    PaidBounds(k.total, k.m);
    GenesisReachableBy(1);
    var w0 := Genesis(map[]);
    var s1 := TokenIssue(k.depositToken, k.user, k.total);
    ReachableByNext(w0, 1, s1);
    var w1 := Next(w0, s1);
    var s2 := TokenIssue(k.rewardToken, k.admin, Paid(k.total, k.m));
    ReachableByNext(w1, 1, s2);
    var w2 := Next(w1, s2);
    var op := Initialize(k.admin, k.depositToken, k.rewardToken, k.vestingPeriod, k.target, k.curve);
    ReachableByNext(w2, 1, Invoke(Alone(op, k.admin, 1)));
    InitializeCall(w2, op, 1);
    w := Next(w2, Invoke(Alone(op, k.admin, 1)));
  }

  function Deposited(k: Cast): Pool {
    Put(Pool(0, 0, map[]), k.user, EmptyAccount(k.user).(liquid := k.total), k.total)
  }

  lemma {:induction false} FirstDeposit(u: Address, amount: int, now: int)
    requires 0 < amount <= I128_MAX
    ensures Deposit(Pool(0, 0, map[]), u, amount, now)
         == Ok(Put(Pool(0, 0, map[]), u, EmptyAccount(u).(liquid := amount), amount))
  {
    SettleMeaning(EmptyAccount(u), 0, now);
    ReadMeaning(EmptyAccount(u), 0);
  }

  lemma {:induction false} AfterDeposit(k: Cast) returns (w: World)
    requires Offending(k)
    ensures Set(w, k, 1) && w.vault.pools == map[Main := Deposited(k)]
    ensures Held(w.tokens, k.rewardToken, k.admin) == Paid(k.total, k.m)
    ensures Held(w.tokens, k.rewardToken, SELF) == 0
  {
    hide ReachableBy, Deposit, Transfer, Multiplier;
    var w0 := Prepared(k);
    FirstDeposit(k.user, k.total, 1);
    var s := Invoke(Alone(DepositInto(Main, k.user, k.total), k.user, 1));
    DepositCall(w0, Main, k.user, k.total, 1);
    TransferFunded(w0.tokens, k.depositToken, k.user, SELF, k.total);
    ReachableByNext(w0, 1, s);
    w := Next(w0, s);
  }

  function Distributed(k: Cast): Pool
    requires 0 < k.total && 0 < k.m
  {
    Deposited(k).(rewardIndex := Increment(k.total, k.m))
  }

  lemma {:induction false} CreditedExactly(k: Cast)
    requires Offending(k)
    ensures EffectiveAmount(Paid(k.total, k.m), k.m) == Ok(Credited(k.total, k.m))
    ensures Distribute(Deposited(k), Credited(k.total, k.m)) == Ok(Distributed(k))
  {
    PaidBounds(k.total, k.m);
    CreditedBounds(k.total, k.m);
    GainedBounds(k.total, k.m);
    EffectiveAmountMeaning(Paid(k.total, k.m), k.m);
    hide Paid, EffectiveAmount, Multiplier;
    var scaled := Credited(k.total, k.m) * SCALE;
    assert CheckedMul(Credited(k.total, k.m), SCALE) == Ok(scaled);
    assert CheckedDiv(scaled, k.total) == Ok(Increment(k.total, k.m));
  }

  lemma {:induction false} AfterDistributing(k: Cast) returns (w: World)
    requires Offending(k)
    ensures Set(w, k, 1) && w.vault.pools == map[Main := Distributed(k)]
    ensures Held(w.tokens, k.rewardToken, SELF) == Paid(k.total, k.m)
  {
    hide ReachableBy, Distribute, Transfer, Multiplier, EffectiveAmount, Increment;
    var w0 := AfterDeposit(k);
    PaidBounds(k.total, k.m);
    CreditedBounds(k.total, k.m);
    CreditedExactly(k);
    hide Paid, Credited, Goal;
    var amount: I128 := Paid(k.total, k.m);
    assert Effective(w0.vault, Main, amount) == Ok(Credited(k.total, k.m));
    var s := Invoke(Alone(DistributeTo(Main, k.admin, amount), k.admin, 1));
    DistributeCall(w0, amount, Credited(k.total, k.m), 1);
    TransferFunded(w0.tokens, k.rewardToken, k.admin, SELF, amount);
    ReachableByNext(w0, 1, s);
    w := Next(w0, s);
  }

  // ---- On the brink: an accepted claim exceeds the tokens held ----

  ghost predicate Brink(w: World, k: Cast, due: int, now: int) {
    && Set(w, k, now) && 0 <= now <= U64_MAX
    && Main in w.vault.pools
    && var r := Claim(w.vault.pools[Main], k.user, k.vestingPeriod, now);
    && r.Ok? && r.value.1 == due && 0 <= Held(w.tokens, k.rewardToken, SELF) < due <= I128_MAX
  }

  /** The depositor's account once the vesting clock has started. */
  function Vesting(k: Cast, index: int, accrued: int): Pool {
    Put(Pool(0, index, map[]), k.user, Started(k, index, accrued), k.total)
  }

  /** The account after the first claim. */
  function Started(k: Cast, index: int, accrued: int): Account {
    EmptyAccount(k.user).(liquid := k.total, rewardIndex := index, accrued := accrued, lastReward := 1)
  }

  lemma {:induction false} SettleStarts(k: Cast)
    requires Offending(k)
    ensures Settle(EmptyAccount(k.user).(liquid := k.total), Increment(k.total, k.m), 1)
         == Ok(Started(k, Increment(k.total, k.m), Gained(k.total, k.m)))
    ensures 0 < Gained(k.total, k.m) <= I128_MAX
  {
    GainedBounds(k.total, k.m);
    GoalBounds(k.total);
    hide Increment, Multiplier, Goal, Settle;
    SettleMeaning(EmptyAccount(k.user).(liquid := k.total), Increment(k.total, k.m), 1);
  }

  lemma {:induction false} NothingVestedYet(accrued: int, vestingPeriod: nat)
    requires 0 <= accrued <= I128_MAX && 0 < vestingPeriod
    ensures Vested(1, accrued, 1, vestingPeriod) == Ok(0)
  {
    VestedMeaning(1, accrued, 1, vestingPeriod);
    assert accrued * 0 / vestingPeriod == 0;
  }

  lemma {:induction false} DueNow(k: Cast)
    requires Offending(k) && k.vestingPeriod == 0
    ensures var r := Claim(Distributed(k), k.user, 0, 1); r.Ok? && r.value.1 == Gained(k.total, k.m)
  {
    hide Increment, Multiplier, Gained, Settle, Claim;
    SettleStarts(k);
    var s := Started(k, Increment(k.total, k.m), Gained(k.total, k.m));
    ClaimForm(Distributed(k), k.user, 0, 1, s, s.accrued);
  }

  /** A first claim under a vesting period pays nothing and starts the clock. */
  lemma {:induction false} ClockStarts(k: Cast)
    requires Offending(k) && 0 < k.vestingPeriod
    ensures Claim(Distributed(k), k.user, k.vestingPeriod, 1)
         == Ok((Vesting(k, Increment(k.total, k.m), Gained(k.total, k.m)), 0))
  {
    hide Increment, Multiplier, Gained, Settle, Vested, Claim;
    var p := Distributed(k);
    var s := Started(k, Increment(k.total, k.m), Gained(k.total, k.m));
    SettleStarts(k);
    NothingVestedYet(s.accrued, k.vestingPeriod);
    ClaimForm(p, k.user, k.vestingPeriod, 1, s, 0);
    assert Put(p, k.user, s, k.total) == Vesting(k, s.rewardIndex, s.accrued);
  }

  lemma {:induction false} SettleStays(k: Cast, index: int, accrued: int, now: int)
    requires 0 < k.total && 0 <= index <= I128_MAX && 0 <= accrued <= I128_MAX
    ensures Settle(Started(k, index, accrued), index, now) == Ok(Started(k, index, accrued))
  {
    hide Settle;
    var a := Started(k, index, accrued);
    assert FitsI128(k.total);
    SettleMeaning(a, index, now);
    assert Balance(a) * (index - a.rewardIndex) == 0;
  }

  /** From then on a claim pays the vested part of what is left; the clock does not start again. */
  lemma {:induction false} ClaimWhileVesting(k: Cast, index: int, accrued: int, now: int, due: int)
    requires 0 < k.total && 0 <= index <= I128_MAX && 0 <= due <= accrued <= I128_MAX && 0 <= now
    requires Vested(now, accrued, 1, k.vestingPeriod) == Ok(due)
    ensures Claim(Vesting(k, index, accrued), k.user, k.vestingPeriod, now)
         == Ok((Vesting(k, index, accrued - due), due))
  {
    hide Settle, Vested, Claim;
    var p := Vesting(k, index, accrued);
    var s := Started(k, index, accrued);
    assert AccountOf(p, k.user) == s;
    SettleStays(k, index, accrued, now);
    ClaimForm(p, k.user, k.vestingPeriod, now, s, due);
    assert Put(p, k.user, s.(accrued := accrued - due), k.total) == Vesting(k, index, accrued - due);
  }

  /** A moment at which a further part is due, however long the vesting period is. */
  function PayDay(accrued: int, vestingPeriod: U64): U64 {
    if vestingPeriod < U64_MAX then 1 + vestingPeriod else if accrued <= U64_MAX then U64_MAX else 2
  }

  lemma {:induction false} PayDayPays(accrued: int, vestingPeriod: U64) returns (due: int)
    requires 2 <= accrued <= I128_MAX && 0 < vestingPeriod
    ensures Vested(PayDay(accrued, vestingPeriod), accrued, 1, vestingPeriod) == Ok(due) && 1 <= due <= accrued
  {
    if vestingPeriod < U64_MAX {
      due := accrued;
    } else if accrued <= U64_MAX {
      due := accrued - 1;
      assert accrued * (U64_MAX - 1) == (accrued - 1) * U64_MAX + (U64_MAX - accrued);
      assert accrued * (U64_MAX - 1) / U64_MAX == accrued - 1;
    } else {
      due := accrued / U64_MAX;
    }
    VestedMeaning(PayDay(accrued, vestingPeriod), accrued, 1, vestingPeriod);
  }

  ghost predicate Draining(w: World, k: Cast, index: int, accrued: int, t: int) {
    && Set(w, k, t) && t <= PayDay(accrued, k.vestingPeriod) && w.vault.pools == map[Main := Vesting(k, index, accrued)]
    && 0 <= index <= I128_MAX
    && 0 <= Held(w.tokens, k.rewardToken, SELF) <= accrued - 2 && accrued <= I128_MAX
  }

  /** Claim after claim is paid until one of them exceeds the tokens that are left. */
  lemma {:induction false} Drain(w: World, k: Cast, index: int, accrued: int, t: int)
    returns (w': World, due: int, now: U64)
    requires Offending(k) && 0 < k.vestingPeriod && Draining(w, k, index, accrued, t)
    ensures Brink(w', k, due, now)
    decreases Held(w.tokens, k.rewardToken, SELF)
  {
    hide ReachableBy, Claim, Multiplier, Vested, Transfer;
    now := PayDay(accrued, k.vestingPeriod);
    due := PayDayPays(accrued, k.vestingPeriod);
    ClaimWhileVesting(k, index, accrued, now, due);
    hide Vesting;
    if Held(w.tokens, k.rewardToken, SELF) < due {
      w' := w;
      ReachableByLater(w, t, now);
    } else {
      var s := Invoke(Alone(ClaimFrom(Main, k.user), k.user, now));
      ClaimCall(w, k.user, now);
      TransferFunded(w.tokens, k.rewardToken, SELF, k.user, due);
      ReachableByNext(w, t, s);
      w', due, now := Drain(Next(w, s), k, index, accrued - due, now);
    }
  }

  lemma {:induction false} ReachBrink(k: Cast) returns (w: World, due: int, now: U64)
    requires Offending(k)
    ensures Brink(w, k, due, now)
  {
    hide ReachableBy, Claim, Multiplier;
    PaidBounds(k.total, k.m);
    GainedBounds(k.total, k.m);
    hide Paid, Goal, Gained, Distributed, Vesting;
    w := AfterDistributing(k);
    if k.vestingPeriod == 0 {
      DueNow(k);
      due, now := Gained(k.total, k.m), 1;
    } else {
      ClockStarts(k);
      var s := Invoke(Alone(ClaimFrom(Main, k.user), k.user, 1));
      ClaimCall(w, k.user, 1);
      ReachableByNext(w, 1, s);
      w, due, now := Drain(Next(w, s), k, Increment(k.total, k.m), Gained(k.total, k.m), 1);
    }
  }

  lemma {:induction false} BrinkClaimFails(steady: bool, w: World, k: Cast, due: int, now: U64)
    requires Offending(k) && Brink(w, k, due, now)
    ensures !ClaimsFunded(steady, k.vestingPeriod, k.target, k.curve)
  {
    hide ReachableBy, Claim, Multiplier;
    ByIsReachable(w, now);
    assert Configured(steady, w, now, k.vestingPeriod, k.target, k.curve);
    assert ClaimAccepted(w, Main, k.user, {k.user}, now);
    assert BeginClaim(w, Main, k.user, {k.user}, now) == Err(InsufficientContractBalance);
  }

  /** From the brink on: savings in the reward token are added, the claim is paid out of them, and the saver
      cannot withdraw them any more. */
  lemma {:induction false} SavingsAdded(w: World, k: Cast, due: I128, now: U64) returns (w': World)
    requires Offending(k) && Set(w, k, now) && 0 < due
    ensures ReachableBy(w', now) && Open(w'.vault)
    ensures var savings := Put(Pool(0, 0, map[]), k.user, EmptyAccount(k.user).(liquid := due), due);
            w'.vault == w.vault.(pools := w.vault.pools[Asset(k.rewardToken) := savings])
    ensures Held(w'.tokens, k.rewardToken, SELF) == Held(w.tokens, k.rewardToken, SELF) + due
  {
    hide ReachableBy, Deposit, Transfer, Multiplier;
    var id := Asset(k.rewardToken);
    AddAssetCall(w, k.rewardToken, now);
    var s1 := Invoke(Alone(AddAsset(k.admin, k.rewardToken), k.admin, now));
    ReachableByNext(w, now, s1);
    var w1 := Next(w, s1);
    var s2 := TokenTopUp(w1, k, due);
    ReachableByNext(w1, now, s2);
    var w2 := Next(w1, s2);
    assert FitsI128(due);
    FirstDeposit(k.user, due, now);
    var s3 := Invoke(Alone(DepositInto(id, k.user, due), k.user, now));
    DepositCall(w2, id, k.user, due, now);
    TransferFunded(w2.tokens, k.rewardToken, k.user, SELF, due);
    ReachableByNext(w2, now, s3);
    w' := Next(w2, s3);
  }

  /** Tokens are issued so that the user holds at least `due`. */
  lemma {:induction false} TokenTopUp(w: World, k: Cast, due: int) returns (s: Step)
    requires k.user != SELF && 0 < due
    ensures s.TokenIssue? && Next(w, s).vault == w.vault && Next(w, s).books == w.books
    ensures due <= Held(Next(w, s).tokens, k.rewardToken, k.user)
    ensures Held(Next(w, s).tokens, k.rewardToken, SELF) == Held(w.tokens, k.rewardToken, SELF)
  {
    var has := Held(w.tokens, k.rewardToken, k.user);
    s := TokenIssue(k.rewardToken, k.user, if has < 0 then due - has else due);
  }

  lemma {:induction false} BrinkWithdrawalFails(steady: bool, w: World, k: Cast, due: I128, now: U64)
    requires Offending(k) && Brink(w, k, due, now)
    ensures !WithdrawalsFunded(steady, k.vestingPeriod, k.target, k.curve)
  {
    hide ReachableBy, Claim, Multiplier, Withdraw, Transfer;
    var id := Asset(k.rewardToken);
    var w1 := SavingsAdded(w, k, due, now);
    assert w1.vault.pools[Main] == w.vault.pools[Main];
    var s := Invoke(Alone(ClaimFrom(Main, k.user), k.user, now));
    ClaimCall(w1, k.user, now);
    TransferFunded(w1.tokens, k.rewardToken, SELF, k.user, due);
    ReachableByNext(w1, now, s);
    var w2 := Next(w1, s);
    ByIsReachable(w2, now);
    assert Configured(steady, w2, now, k.vestingPeriod, k.target, k.curve);
    assert w2.vault.pools[id] == w1.vault.pools[id];
    SavingsCanGo(k.user, due, now);
    assert WithdrawalAccepted(w2, id, k.user, due, {k.user}, now);
    TransferLacks(w2.tokens, k.rewardToken, SELF, k.user, due);
    assert BeginWithdraw(w2, id, k.user, due, {k.user}, now) == Err(HostTrap);
  }

  lemma {:induction false} TransferLacks(tokens: Tokens, token: Address, from: Address, to: Address, amount: int)
    requires Held(tokens, token, from) < amount
    ensures Transfer(tokens, token, from, to, amount) == Err(HostTrap)
  {
  }

  /** The savings ledger accepts the withdrawal of everything. */
  lemma {:induction false} SavingsCanGo(u: Address, amount: I128, now: U64)
    requires 0 < amount
    ensures Withdraw(Put(Pool(0, 0, map[]), u, EmptyAccount(u).(liquid := amount), amount), u, amount, now).Ok?
  {
    var p0 := Pool(0, 0, map[]);
    var a := EmptyAccount(u).(liquid := amount);
    EmptyPoolSolvent();
    EmptyAccountOk(u, 0);
    assert FitsI128(amount);
    PutEffect(p0, u, a, amount);
    var p := Put(p0, u, a, amount);
    assert AccountOf(p, u) == a;
    WithdrawMeaning(p, u, amount, now);
    SplitConserves(a.locks, now, WITHDRAW_UNLOCK_LIMIT);
    assert Taken(a.locks, now, WITHDRAW_UNLOCK_LIMIT) == [];
  }

  // ---- The exact condition ----

  lemma {:induction false} OffendingCast(vestingPeriod: U64, target: I128,
                                         curve: seq<MultiplierPoint>) returns (k: Cast)
    requires Sorted(curve) && !NeverAboveOne(target, curve)
    ensures Offending(k) && k.vestingPeriod == vestingPeriod && k.target == target && k.curve == curve
  {
    hide Multiplier;
    var total :| 0 < total <= I128_MAX && Multiplier(total, target, curve).Ok?
                 && BPS < Multiplier(total, target, curve).value;
    AboveOneIsSmall(total, target, curve);
    assert FitsI128(total);
    k := Cast(Address(1), Address(2), Address(3), Address(4), vestingPeriod, target, curve, total,
              Multiplier(total, target, curve).value);
  }

  /** Claims are always paid, withdrawals always find their tokens and holdings always cover liabilities, each
      of them in every reachable world of a configuration, if and only if the configuration never meets a
      multiplier above 1.0x; and it makes no difference if only runs with a steady clock and without callbacks
      count. */
  lemma {:induction false} FundedIffNeverAboveOne(steady: bool, vestingPeriod: U64, target: I128,
                                                  curve: seq<MultiplierPoint>)
    requires Sorted(curve)
    ensures ClaimsFunded(steady, vestingPeriod, target, curve) <==> NeverAboveOne(target, curve)
    ensures WithdrawalsFunded(steady, vestingPeriod, target, curve) <==> NeverAboveOne(target, curve)
    ensures HoldingsCover(steady, vestingPeriod, target, curve) <==> NeverAboveOne(target, curve)
  {
    if NeverAboveOne(target, curve) {
      NeverAboveOneIsFunded(steady, vestingPeriod, target, curve);
    } else {
      hide NeverAboveOne, Offending, ClaimsFunded, WithdrawalsFunded, HoldingsCover;
      var k := OffendingCast(vestingPeriod, target, curve);
      var w, due, now := ReachBrink(k);
      assert FitsI128(due);
      BrinkClaimFails(steady, w, k, due, now);
      BrinkWithdrawalFails(steady, w, k, due, now);
      if HoldingsCover(steady, vestingPeriod, target, curve) {
        CoverFundsClaims(steady, vestingPeriod, target, curve);
      }
    }
  }

  /** A flat curve with a target: the exact condition is on its one multiplier. */
  lemma {:induction false} FlatCurveFundedIff(steady: bool, vestingPeriod: U64, target: I128, m: U32)
    requires 0 < target
    ensures ClaimsFunded(steady, vestingPeriod, target, [MultiplierPoint(0, m)]) <==> m <= BPS
  {
    hide ClaimsFunded;
    var curve := [MultiplierPoint(0, m)];
    FundedIffNeverAboveOne(steady, vestingPeriod, target, curve);
    assert Multiplier(1, target, curve) == Ok(m);
  }

  /** A point above 1.0x that no utilization selects does no harm. */
  lemma {:induction false} UnselectedPointIsHarmless(steady: bool, vestingPeriod: U64, target: I128)
    ensures ClaimsFunded(steady, vestingPeriod, target,
                         [MultiplierPoint(5, BPS), MultiplierPoint(5, 2 * BPS), MultiplierPoint(U32_SIZE - 1, BPS)])
  {
    hide ClaimsFunded;
    var curve := [MultiplierPoint(5, BPS), MultiplierPoint(5, 2 * BPS), MultiplierPoint(U32_SIZE - 1, BPS)];
    assert curve[1..] == [curve[1], curve[2]] && curve[1..][1..] == [curve[2]];
    forall total | 0 < total <= I128_MAX && Multiplier(total, target, curve).Ok?
      ensures Multiplier(total, target, curve).value <= BPS
    {
      if 0 < target {
        var u := AsU32(CheckedDiv(CheckedMul(total, BPS).value, target).value);
        assert u <= 5 || Select(curve, u) == Select(curve[1..], u) == Select([curve[2]], u) == curve[2];
      }
    }
    FundedIffNeverAboveOne(steady, vestingPeriod, target, curve);
  }

  lemma {:induction false} NeverAboveOneIsFunded(steady: bool, vestingPeriod: U64, target: I128,
                                                 curve: seq<MultiplierPoint>)
    requires NeverAboveOne(target, curve)
    ensures ClaimsFunded(steady, vestingPeriod, target, curve)
    ensures WithdrawalsFunded(steady, vestingPeriod, target, curve)
    ensures HoldingsCover(steady, vestingPeriod, target, curve)
  {
    hide NeverAboveOne, Reachable, Claim, Withdraw, BeginClaim, BeginWithdraw, CheckUserCall,
      CoversLiabilities;
    forall w: World, id: LedgerId, user: Address, auth: set<Address>, now: U64
      | Configured(steady, w, now, vestingPeriod, target, curve) && ClaimAccepted(w, id, user, auth, now)
      ensures BeginClaim(w, id, user, auth, now).Ok?
    {
      ConfiguredIsReachable(steady, w, now, vestingPeriod, target, curve);
      ClaimsAreAlwaysFunded(w, id, user, auth, now);
    }
    forall w: World, id: LedgerId, user: Address, amount: I128, auth: set<Address>, now: U64
      | Configured(steady, w, now, vestingPeriod, target, curve) && WithdrawalAccepted(w, id, user, amount, auth, now)
      ensures BeginWithdraw(w, id, user, amount, auth, now).Ok?
    {
      ConfiguredIsReachable(steady, w, now, vestingPeriod, target, curve);
      WithdrawalsAreAlwaysFunded(w, id, user, amount, auth, now);
    }
    forall w: World, token: Address, now: U64 | Configured(steady, w, now, vestingPeriod, target, curve)
      ensures CoversLiabilities(w, token)
    {
      ConfiguredIsReachable(steady, w, now, vestingPeriod, target, curve);
      HoldingsCoverLiabilities(w, token);
    }
  }

  lemma {:induction false} ConfiguredIsReachable(steady: bool, w: World, now: U64, vestingPeriod: U64, target: I128,
                                                 curve: seq<MultiplierPoint>)
    requires Configured(steady, w, now, vestingPeriod, target, curve)
    ensures Reachable(w)
  {
    hide Reachable, ReachableBy;
    if steady {
      ByIsReachable(w, now);
    }
  }

  /** Where holdings cover liabilities, an accepted claim is paid. */
  lemma {:induction false} CoverFundsClaims(steady: bool, vestingPeriod: U64, target: I128, curve: seq<MultiplierPoint>)
    requires HoldingsCover(steady, vestingPeriod, target, curve)
    ensures ClaimsFunded(steady, vestingPeriod, target, curve)
  {
    hide Reachable, ReachableBy, Claim, CoversLiabilities;
    forall w: World, id: LedgerId, user: Address, auth: set<Address>, now: U64
      | Configured(steady, w, now, vestingPeriod, target, curve) && ClaimAccepted(w, id, user, auth, now)
      ensures BeginClaim(w, id, user, auth, now).Ok?
    {
      ConfiguredIsReachable(steady, w, now, vestingPeriod, target, curve);
      CoveredClaim(w, id, user, auth, now);
    }
  }
}
