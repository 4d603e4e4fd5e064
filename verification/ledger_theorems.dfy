/** Consequences for the users of one ledger: when a withdrawal or a claim succeeds, what the views
    promise, and how lazy crediting compares with crediting at every distribution. */
module LedgerTheorems {
  import opened MachineInts
  import opened TimeLocks
  import opened RewardPool
  import opened Solvency

  // ---- Withdrawals ----

  /** Solvency bounds every product of the accrual: if SCALE times all credited rewards fits in i128
      then no user's accrual can overflow, whatever the interleaving was. */
  lemma {:induction false} NoAccrualOverflow(p: Pool, b: Books, u: Address)
    requires Solvent(p, b) && SCALE * b.effective <= I128_MAX
    ensures AccrualFits(AccountOf(p, u), p.rewardIndex)
  {
    var a := AccountOf(p, u);
    BalanceWithinTotal(p, u);
    OwedWithinPotential(p, u);
    OwedNonNegative(a, p.rewardIndex);
    SettleOwedFloor(a, p.rewardIndex);
  }

  lemma {:induction false} SettleOwedFloor(a: Account, index: int)
    requires AccountOk(a, index)
    ensures SCALE * (a.accrued + Gain(a, index)) <= Owed(a, index)
  {
    OwedNonNegative(a, index);
    var product := Balance(a) * (index - a.rewardIndex);
    assert product / SCALE * SCALE <= product;
  }

  ghost function Available(p: Pool, u: Address, now: int): int {
    AccountOf(p, u).liquid + Amount(Taken(AccountOf(p, u).locks, now, WITHDRAW_UNLOCK_LIMIT))
  }

  /** Within that budget a withdrawal succeeds exactly when the amount is covered by the liquid
      balance and the first five expired locks. */
  lemma {:induction false} WithdrawSucceedsIffAvailable(p: Pool, b: Books, u: Address, amount: int, now: int)
    requires Solvent(p, b) && SCALE * b.effective <= I128_MAX && 0 < amount && 0 <= now
    ensures Withdraw(p, u, amount, now).Ok? <==> amount <= Available(p, u, now)
  {
    NoAccrualOverflow(p, b, u);
    WithdrawMeaning(p, u, amount, now);
  }

  /** Without the budget the documented exit guarantee is exactly as strong as the accrual check: a
      covered withdrawal succeeds if and only if the user's accrual fits. */
  lemma {:induction false} ExitGuaranteeIffAccrualFits(p: Pool, u: Address, now: int)
    requires PoolOk(p) && 0 <= now && 0 < Available(p, u, now)
    ensures (forall amount :: 0 < amount <= Available(p, u, now) ==> Withdraw(p, u, amount, now).Ok?)
       <==> AccrualFits(AccountOf(p, u), p.rewardIndex)
  {
    forall amount | 0 < amount <= Available(p, u, now)
      ensures Withdraw(p, u, amount, now).Ok? <==> AccrualFits(AccountOf(p, u), p.rewardIndex)
    {
      WithdrawMeaning(p, u, amount, now);
    }
    assert 0 < 1 <= Available(p, u, now);
    WithdrawMeaning(p, u, 1, now);
  }

  /** The guarantee does fail: after one deposit and two large distributions, both accepted, the only
      depositor can no longer withdraw anything. */
  lemma {:induction false} ExitCanBeBlocked(u: Address)
    ensures var huge := 160_000_000_000_000_000_000_000_000_000;
            var p1 := Deposit(Pool(0, 0, map[]), u, 1000, 1);
            && p1.Ok?
            && var p2 := Distribute(p1.value, huge);
            && p2.Ok?
            && var p3 := Distribute(p2.value, huge);
            && p3.Ok?
            && 1000 <= Available(p3.value, u, 2)
            && Withdraw(p3.value, u, 1000, 2) == Err(MathOverflow)
  {
    var huge := 160_000_000_000_000_000_000_000_000_000;
    var p0 := Pool(0, 0, map[]);
    EmptyPoolSolvent();
    SettleMeaning(AccountOf(p0, u), 0, 1);
    var a := EmptyAccount(u).(liquid := 1000);
    var p1 := Deposit(p0, u, 1000, 1).value;
    assert p1 == Put(p0, u, a, 1000);
    DepositStep(p0, NEW_BOOKS, u, 1000, 1);
    DistributeStep(p1, AfterAccrual(NEW_BOOKS, p0, u), huge, huge);
    var p2 := Distribute(p1, huge).value;
    var b2 := AfterDistribution(AfterAccrual(NEW_BOOKS, p0, u), huge, huge, 1000);
    DistributeStep(p2, b2, huge, huge);
    var p3 := Distribute(p2, huge).value;
    assert p3.rewardIndex == 320_000_000_000_000_000_000_000_000_000_000_000;
    assert AccountOf(p3, u) == a;
    SplitConserves(a.locks, 2, WITHDRAW_UNLOCK_LIMIT);
    assert Taken(a.locks, 2, WITHDRAW_UNLOCK_LIMIT) == [];
    WithdrawMeaning(p3, u, 1000, 2);
  }

  // ---- Unlocking ----

  /** On the ledger: two batches at the same time are one batch of the summed size, and together
      they unlock the same amount. */
  lemma {:induction false} UnlockingIsPathIndependent(p: Pool, u: Address, first: nat, second: nat, now: int)
    requires PoolOk(p)
    ensures var r1 := UnlockExpired(p, u, first, now);
            && r1.Ok?
            && var r2 := UnlockExpired(r1.value.0, u, second, now);
            && var r := UnlockExpired(p, u, first + second, now);
            && r2.Ok? && r.Ok?
            && AccountOf(r2.value.0, u) == AccountOf(r.value.0, u)
            && (forall v :: v != u ==> AccountOf(r2.value.0, v) == AccountOf(r.value.0, v) == AccountOf(p, v))
            && r2.value.0.totalDeposits == r.value.0.totalDeposits == p.totalDeposits
            && r.value.1 == r1.value.1 + r2.value.1
  {
    hide Unlock, AccountOk, Amount, Taken, Kept, Balance;
    var a := AccountOf(p, u);
    BalanceWithinTotal(p, u);
    UnlockAccount(a, p.rewardIndex, now, first);
    var a1 := Unlock(a, now, first).value.0;
    UnlockAccount(a1, p.rewardIndex, now, second);
    UnlockAccount(a, p.rewardIndex, now, first + second);
    BatchesCompose(a.locks, now, first, second);
    AmountAppend(Taken(a.locks, now, first), Taken(a1.locks, now, second));
    assert AccountOf(UnlockExpired(p, u, first, now).value.0, u) == a1;
  }

  /** The account part of `UnlockMeaning`, plus: nothing unlocked leaves the account as it was. */
  lemma {:induction false} UnlockAccount(a: Account, index: int, now: int, limit: nat)
    requires AccountOk(a, index) && Balance(a) <= I128_MAX
    ensures Unlock(a, now, limit) == Ok((
              a.(liquid := a.liquid + Amount(Taken(a.locks, now, limit)), locks := Kept(a.locks, now, limit)),
              Amount(Taken(a.locks, now, limit))))
    ensures var (a', unlocked) := Unlock(a, now, limit).value;
            AccountOk(a', index) && Balance(a') == Balance(a) && (unlocked <= 0 ==> a' == a)
  {
    UnlockMeaning(a, index, now, limit);
    SplitConserves(a.locks, now, limit);
    assert AllPositive(Taken(a.locks, now, limit));
    AmountNonNegative(Taken(a.locks, now, limit));
    if Taken(a.locks, now, limit) == [] {
      NothingTaken(a.locks, now, limit);
    }
  }

  // ---- Claims, previews and vesting ----

  /** The read-only preview is exact: a claim at the same time fails if and only if the preview does,
      pays the previewed vested part, and leaves exactly the previewed remainder. */
  lemma {:induction false} PreviewMatchesClaim(p: Pool, u: Address, vestingPeriod: nat, now: int)
    requires PoolOk(p) && 0 <= now
    ensures Preview(p, u, vestingPeriod, now).Ok? <==> Claim(p, u, vestingPeriod, now).Ok?
    ensures Claim(p, u, vestingPeriod, now).Ok? ==>
              var (rewards, vested) := Preview(p, u, vestingPeriod, now).value;
              var (q, paid) := Claim(p, u, vestingPeriod, now).value;
              && paid == vested
              && AccountOf(q, u).accrued == rewards - vested
              && 0 <= vested <= rewards
  {
    if Settle(AccountOf(p, u), p.rewardIndex, now).Ok? {
      SettleInPool(p, u, now);
      var s := Settled(AccountOf(p, u), p.rewardIndex, now);
      VestedMeaning(now, s.accrued, s.lastReward, vestingPeriod);
    }
  }

  /** Exactly when a claim goes through: the accrual fits, and the partial vesting product, if one is
      formed, fits in u128. */
  lemma {:induction false} ClaimSucceedsIff(p: Pool, u: Address, vestingPeriod: nat, now: int)
    requires PoolOk(p) && 0 <= now
    ensures var a := AccountOf(p, u);
            var s := Settled(a, p.rewardIndex, now);
            Claim(p, u, vestingPeriod, now).Ok? <==>
              && AccrualFits(a, p.rewardIndex)
              && (vestingPeriod == 0 || s.lastReward == 0 || s.lastReward + vestingPeriod <= now
                  || now <= s.lastReward || s.accrued * (now - s.lastReward) < U128_SIZE)
  {
    BalanceWithinTotal(p, u);
    SettleMeaning(AccountOf(p, u), p.rewardIndex, now);
    if AccrualFits(AccountOf(p, u), p.rewardIndex) {
      SettleInPool(p, u, now);
      var s := Settled(AccountOf(p, u), p.rewardIndex, now);
      VestedMeaning(now, s.accrued, s.lastReward, vestingPeriod);
    }
  }

  /** The vesting clock starts when rewards are accrued, not when they are distributed: a view that
      finds something to accrue shows nothing vested, however long ago the distribution was, and a
      claim then stores the present as the new start. */
  lemma {:induction false} VestingClockRestartsOnAccrual(p: Pool, u: Address, vestingPeriod: nat, now: int)
    requires PoolOk(p) && 0 <= now && AccrualFits(AccountOf(p, u), p.rewardIndex)
    requires 0 < vestingPeriod && 0 < Gain(AccountOf(p, u), p.rewardIndex)
    ensures Preview(p, u, vestingPeriod, now)
         == Ok((AccountOf(p, u).accrued + Gain(AccountOf(p, u), p.rewardIndex), 0))
    ensures Claim(p, u, vestingPeriod, now).Ok?
    ensures AccountOf(Claim(p, u, vestingPeriod, now).value.0, u).lastReward == now
  {
    BalanceWithinTotal(p, u);
    SettleMeaning(AccountOf(p, u), p.rewardIndex, now);
    SettleInPool(p, u, now);
    var s := Settled(AccountOf(p, u), p.rewardIndex, now);
    VestedMeaning(now, s.accrued, s.lastReward, vestingPeriod);
    assert s.accrued * 0 / vestingPeriod == 0;
  }

  /** So rewards that have vested by the stored clock stay claimable if and only if the claim accrues
      nothing new (or nothing had vested): a fresh accrual takes vested rewards back into vesting. */
  lemma {:induction false} VestedStaysClaimableIffNothingAccrues(p: Pool, u: Address, vestingPeriod: nat, now: int)
    requires PoolOk(p) && 0 <= now && AccrualFits(AccountOf(p, u), p.rewardIndex) && 0 < vestingPeriod
    requires Vested(now, AccountOf(p, u).accrued, AccountOf(p, u).lastReward, vestingPeriod).Ok?
    ensures var a := AccountOf(p, u);
            var vestedByClock := Vested(now, a.accrued, a.lastReward, vestingPeriod).value;
            && Claim(p, u, vestingPeriod, now).Ok?
            && (vestedByClock <= Claim(p, u, vestingPeriod, now).value.1
                <==> Gain(a, p.rewardIndex) == 0 || vestedByClock == 0)
  {
    var a := AccountOf(p, u);
    BalanceWithinTotal(p, u);
    SettleMeaning(a, p.rewardIndex, now);
    SettleInPool(p, u, now);
    VestedMeaning(now, a.accrued, a.lastReward, vestingPeriod);
    if 0 < Gain(a, p.rewardIndex) {
      VestingClockRestartsOnAccrual(p, u, vestingPeriod, now);
      PreviewMatchesClaim(p, u, vestingPeriod, now);
    }
  }

  /** When nothing new accrues the view follows the stored clock: it never falls as time passes and
      reaches the full amount after the vesting period. */
  lemma {:induction false} VestingIsMonotone(accrued: int, lastReward: int, vestingPeriod: nat, t1: int, t2: int)
    requires 0 <= accrued <= I128_MAX && 0 < lastReward <= t1 <= t2
    requires Vested(t1, accrued, lastReward, vestingPeriod).Ok? && Vested(t2, accrued, lastReward, vestingPeriod).Ok?
    ensures Vested(t1, accrued, lastReward, vestingPeriod).value <= Vested(t2, accrued, lastReward, vestingPeriod).value
    ensures lastReward + vestingPeriod <= t2 ==> Vested(t2, accrued, lastReward, vestingPeriod).value == accrued
  {
    VestedMeaning(t1, accrued, lastReward, vestingPeriod);
    VestedMeaning(t2, accrued, lastReward, vestingPeriod);
    if 0 < vestingPeriod && t2 - lastReward < vestingPeriod {
      QuotientMonotone(accrued, t1 - lastReward, t2 - lastReward, vestingPeriod);
    }
  }

  /** An account with nothing to accrue, part of the way through its vesting period. */
  ghost predicate MidVesting(p: Pool, u: Address, vestingPeriod: nat, now: int) {
    var a := AccountOf(p, u);
    && PoolOk(p) && a.rewardIndex == p.rewardIndex && 0 < a.lastReward <= now < a.lastReward + vestingPeriod
    && a.accrued * (now - a.lastReward) < U128_SIZE
  }

  lemma {:induction false} ClaimForm(p: Pool, u: Address, vestingPeriod: nat, now: int, s: Account, due: int)
    requires Settle(AccountOf(p, u), p.rewardIndex, now) == Ok(s)
    requires Vested(now, s.accrued, s.lastReward, vestingPeriod) == Ok(due) && FitsI128(s.accrued - due)
    ensures Claim(p, u, vestingPeriod, now) == Ok((Put(p, u, s.(accrued := s.accrued - due), p.totalDeposits), due))
  {
    hide Settle, Vested;
  }

  lemma {:induction false} SettleQuiet(p: Pool, u: Address, now: int)
    requires PoolOk(p) && AccountOf(p, u).rewardIndex == p.rewardIndex
    ensures Settle(AccountOf(p, u), p.rewardIndex, now) == Ok(AccountOf(p, u))
    ensures 0 <= AccountOf(p, u).accrued <= I128_MAX
  {
    hide Settle;
    var a := AccountOf(p, u);
    BalanceWithinTotal(p, u);
    SettleMeaning(a, p.rewardIndex, now);
    assert Balance(a) * (p.rewardIndex - a.rewardIndex) == 0;
  }

  lemma {:induction false} LowerAccrued(p: Pool, u: Address, due: int)
    requires PoolOk(p) && 0 <= due <= AccountOf(p, u).accrued
    ensures PoolOk(Put(p, u, AccountOf(p, u).(accrued := AccountOf(p, u).accrued - due), p.totalDeposits))
  {
    BalanceWithinTotal(p, u);
    PutEffect(p, u, AccountOf(p, u).(accrued := AccountOf(p, u).accrued - due), p.totalDeposits);
  }

  /** A claim then pays the floor of the linear share of what is left, and does not touch the clock. */
  lemma {:induction false} ClaimMidVesting(p: Pool, u: Address, vestingPeriod: nat, now: int)
    requires MidVesting(p, u, vestingPeriod, now)
    ensures var a := AccountOf(p, u);
            var due := a.accrued * (now - a.lastReward) / vestingPeriod;
            var q := Put(p, u, a.(accrued := a.accrued - due), p.totalDeposits);
            && 0 <= due <= a.accrued
            && (0 < due <==> vestingPeriod <= a.accrued * (now - a.lastReward))
            && Claim(p, u, vestingPeriod, now) == Ok((q, due))
            && MidVesting(q, u, vestingPeriod, now)
  {
    hide Settle, Vested, Claim, PoolOk;
    var a := AccountOf(p, u);
    var elapsed := now - a.lastReward;
    var due := a.accrued * elapsed / vestingPeriod;
    SettleQuiet(p, u, now);
    VestedMeaning(now, a.accrued, a.lastReward, vestingPeriod);
    ClaimForm(p, u, vestingPeriod, now, a, due);
    ProductNonNegative(a.accrued, elapsed);
    PositiveShare(a.accrued * elapsed, vestingPeriod);
    LowerAccrued(p, u, due);
    ProductNonNegative(due, elapsed);
    assert (a.accrued - due) * elapsed == a.accrued * elapsed - due * elapsed;
  }

  /** Claiming twice at one moment pays more than the linear share of the whole exactly when the second share,
      of the remainder, is itself at least one unit. */
  lemma {:induction false} SecondClaimPaysIff(p: Pool, u: Address, vestingPeriod: nat, now: int)
    requires MidVesting(p, u, vestingPeriod, now)
    ensures var a := AccountOf(p, u);
            var elapsed := now - a.lastReward;
            && Claim(p, u, vestingPeriod, now).Ok?
            && var (q, first) := Claim(p, u, vestingPeriod, now).value;
            && first == a.accrued * elapsed / vestingPeriod
            && Claim(q, u, vestingPeriod, now).Ok?
            && var second := Claim(q, u, vestingPeriod, now).value.1;
            && second == (a.accrued - first) * elapsed / vestingPeriod
            && (first < first + second <==> vestingPeriod <= (a.accrued - first) * elapsed)
  {
    hide MidVesting, Claim;
    ClaimMidVesting(p, u, vestingPeriod, now);
    ClaimMidVesting(Claim(p, u, vestingPeriod, now).value.0, u, vestingPeriod, now);
  }

  /** The ledger after `times` claims at one moment. */
  function ClaimedTimes(p: Pool, u: Address, vestingPeriod: nat, now: int, times: nat): Pool
    decreases times
  {
    if times == 0 then p
    else
      var r := Claim(p, u, vestingPeriod, now);
      ClaimedTimes(if r.Ok? then r.value.0 else p, u, vestingPeriod, now, times - 1)
  }

  /** Repeated claims at one moment go on paying until the remainder's own share is less than one unit. */
  lemma {:induction false} ClaimsRunOut(p: Pool, u: Address, vestingPeriod: nat, now: int) returns (times: nat)
    requires MidVesting(p, u, vestingPeriod, now)
    ensures var b := AccountOf(ClaimedTimes(p, u, vestingPeriod, now, times), u);
            b.lastReward == AccountOf(p, u).lastReward && b.accrued * (now - b.lastReward) < vestingPeriod
    decreases AccountOf(p, u).accrued
  {
    hide MidVesting, Claim;
    var a := AccountOf(p, u);
    ClaimMidVesting(p, u, vestingPeriod, now);
    if a.accrued * (now - a.lastReward) < vestingPeriod {
      times := 0;
    } else {
      var rest := ClaimsRunOut(Claim(p, u, vestingPeriod, now).value.0, u, vestingPeriod, now);
      times := rest + 1;
    }
  }

  lemma {:induction false} QuotientMonotone(x: int, a: int, b: int, d: int)
    requires 0 <= x && 0 <= a <= b && 0 < d
    ensures x * a / d <= x * b / d
  {
    assert x * b - x * a == x * (b - a);
    ProductNonNegative(x, b - a);
    FloorMonotone(x * a, x * b, d);
  }

  // ---- Lazy crediting against eager crediting ----

  function SumOf(incs: seq<int>): int { if incs == [] then 0 else incs[0] + SumOf(incs[1..]) }

  /** What a user with a constant balance would get if credited at every distribution. */
  function EagerGain(balance: int, incs: seq<int>): int {
    if incs == [] then 0 else balance * incs[0] / SCALE + EagerGain(balance, incs[1..])
  }

  lemma {:induction false} FloorOfSum(x: int, y: int)
    ensures x / SCALE + y / SCALE <= (x + y) / SCALE <= x / SCALE + y / SCALE + 1
  {
  }

  /** Settling once after n >= 1 distributions is never worse for the user than being credited at
      each of them, and better by at most n - 1 units. */
  lemma {:induction false} LazyRefinesEager(balance: int, incs: seq<int>)
    requires incs != []
    ensures EagerGain(balance, incs)
         <= balance * SumOf(incs) / SCALE
         <= EagerGain(balance, incs) + |incs| - 1
  {
    var rest := incs[1..];
    if rest == [] {
      assert SumOf(incs) == incs[0];
    } else {
      LazyRefinesEager(balance, rest);
      FloorOfSum(balance * incs[0], balance * SumOf(rest));
      assert balance * SumOf(incs) == balance * incs[0] + balance * SumOf(rest);
    }
  }
}
