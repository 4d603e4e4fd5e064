/** What every ledger operation does to the well-formedness, the balance sum and the potential of a
    ledger, and the two-sided solvency bound that follows. */
module Solvency {
  import opened MachineInts
  import opened TimeLocks
  import opened Totals
  import opened RewardPool

  /** History of one ledger: rewards credited to the index, tokens received for them, rewards paid,
      and the rounding budget (total deposits - 1 for each distribution, SCALE - 1 for each accrual that
      divides). */
  datatype Books = Books(effective: int, received: int, claimed: int, slack: int)

  const NEW_BOOKS: Books := Books(0, 0, 0, 0)

  /** The next accrual of the user divides: the index has moved and there is a balance. */
  predicate Divides(p: Pool, u: Address) {
    AccountOf(p, u).rewardIndex != p.rewardIndex && Balance(AccountOf(p, u)) != 0
  }

  /** What that accrual can lose to rounding. */
  function Loss(p: Pool, u: Address): int { if Divides(p, u) then SCALE - 1 else 0 }

  /** The history of ledger `p` after an accrual of user `u`. */
  function AfterAccrual(b: Books, p: Pool, u: Address): Books { b.(slack := b.slack + Loss(p, u)) }

  function AfterClaim(b: Books, p: Pool, u: Address, paid: int): Books {
    AfterAccrual(b, p, u).(claimed := b.claimed + paid)
  }

  function AfterDistribution(b: Books, effective: int, received: int, totalDeposits: int): Books {
    Books(b.effective + effective, b.received + received, b.claimed, b.slack + totalDeposits - 1)
  }

  /** Credited rewards that are neither paid nor owed, scaled: the dust lost to floor division. */
  ghost function Dust(p: Pool, b: Books): int {
    SCALE * b.effective - SCALE * b.claimed - Potential(p)
  }

  /** The ledger owes and has paid at most what was credited, and the dust stays within the budget. */
  ghost predicate Solvent(p: Pool, b: Books) {
    && PoolOk(p)
    && 0 <= b.claimed
    && 0 <= Dust(p, b) <= b.slack
  }

  lemma {:induction false} EmptyPoolSolvent()
    ensures Solvent(Pool(0, 0, map[]), NEW_BOOKS)
  {
    var p := Pool(0, 0, map[]);
    assert Balances(p) == map[] && OwedMap(p) == map[];
  }

  lemma {:induction false} SettleInPool(p: Pool, u: Address, now: int)
    requires PoolOk(p) && 0 <= now && Settle(AccountOf(p, u), p.rewardIndex, now).Ok?
    ensures var a := AccountOf(p, u);
            var s := Settled(a, p.rewardIndex, now);
            && Settle(a, p.rewardIndex, now) == Ok(s)
            && AccrualFits(a, p.rewardIndex)
            && AccountOk(s, p.rewardIndex)
            && 0 <= Balance(s) == Balance(a) <= p.totalDeposits
            && s.liquid <= Balance(s)
            && Owed(s, p.rewardIndex) == SCALE * s.accrued
            && Owed(a, p.rewardIndex) - Loss(p, u) <= SCALE * s.accrued <= Owed(a, p.rewardIndex)
  {
    var a := AccountOf(p, u);
    BalanceWithinTotal(p, u);
    SettleMeaning(a, p.rewardIndex, now);
    SettleOwed(a, p.rewardIndex, now);
    BalanceNonNegative(a, p.rewardIndex);
    if !Divides(p, u) {
      assert Balance(a) * (p.rewardIndex - a.rewardIndex) == 0;
    }
  }

  /** Once an account is settled, its balance no longer matters for what it is owed. */
  lemma {:induction false} OwedWhenSettled(a: Account, index: int)
    requires a.rewardIndex == index
    ensures Owed(a, index) == SCALE * a.accrued
  {
    assert Balance(a) * (index - a.rewardIndex) == 0;
  }

  /** Writing back a settled account, with any new split of its balance, costs the potential at most
      one division remainder plus what is paid out. */
  lemma {:induction false} PutSettled(p: Pool, u: Address, now: int, a: Account, total: int)
    requires PoolOk(p) && 0 <= now && Settle(AccountOf(p, u), p.rewardIndex, now).Ok?
    requires AccountOk(a, p.rewardIndex) && a.rewardIndex == p.rewardIndex
    requires total == p.totalDeposits - Balance(AccountOf(p, u)) + Balance(a) <= I128_MAX
    ensures var paid := Settled(AccountOf(p, u), p.rewardIndex, now).accrued - a.accrued;
            && PoolOk(Put(p, u, a, total))
            && Potential(p) - Loss(p, u) <= Potential(Put(p, u, a, total)) + SCALE * paid <= Potential(p)
  {
    SettleInPool(p, u, now);
    PutEffect(p, u, a, total);
    OwedWhenSettled(a, p.rewardIndex);
  }

  /** The closed form of a deposit: it fails when the accrual or the new total leaves i128, and for no other
      reason. */
  lemma {:induction false} DepositMeaning(p: Pool, u: Address, amount: int, now: int)
    requires PoolOk(p) && 0 < amount && 0 <= now
    ensures var a := AccountOf(p, u);
            Deposit(p, u, amount, now) ==
              if !AccrualFits(a, p.rewardIndex) || I128_MAX < p.totalDeposits + amount then Err(MathOverflow)
              else Ok(Put(p, u, Settled(a, p.rewardIndex, now).(liquid := a.liquid + amount), p.totalDeposits + amount))
  {
    hide Settle, ReadPosition, AccrualFits;
    var a := AccountOf(p, u);
    BalanceWithinTotal(p, u);
    BalanceNonNegative(a, p.rewardIndex);
    PositionReadsBalance(p, u);
    SettleMeaning(a, p.rewardIndex, now);
  }

  lemma {:induction false} DepositStep(p: Pool, b: Books, u: Address, amount: int, now: int)
    requires Solvent(p, b) && 0 < amount && 0 <= now
    requires Deposit(p, u, amount, now).Ok?
    ensures var q := Deposit(p, u, amount, now).value;
            && Solvent(q, AfterAccrual(b, p, u))
            && q.totalDeposits == p.totalDeposits + amount
  {
    hide PoolOk, Potential, Settle, ReadPosition, AccrualFits, Owed;
    SettleInPool(p, u, now);
    var s := Settled(AccountOf(p, u), p.rewardIndex, now);
    PutSettled(p, u, now, s.(liquid := s.liquid + amount), p.totalDeposits + amount);
  }

  /** The closed form of a withdrawal: it fails on an accrual overflow or when the liquid balance
      plus the first five expired locks do not reach the amount, and for no other reason. */
  lemma {:induction false} WithdrawMeaning(p: Pool, u: Address, amount: int, now: int)
    requires PoolOk(p) && 0 < amount && 0 <= now
    ensures var a := AccountOf(p, u);
            var s := Settled(a, p.rewardIndex, now);
            var available := a.liquid + Amount(Taken(a.locks, now, WITHDRAW_UNLOCK_LIMIT));
            Withdraw(p, u, amount, now) ==
              if !AccrualFits(a, p.rewardIndex) then Err(MathOverflow)
              else if available < amount then Err(InsufficientBalance)
              else Ok(Put(p, u,
                          s.(liquid := available - amount, locks := Kept(a.locks, now, WITHDRAW_UNLOCK_LIMIT)),
                          p.totalDeposits - amount))
  {
    var a := AccountOf(p, u);
    BalanceWithinTotal(p, u);
    PositionReadsBalance(p, u);
    SettleMeaning(a, p.rewardIndex, now);
    if AccrualFits(a, p.rewardIndex) {
      SettleInPool(p, u, now);
      var s := Settled(a, p.rewardIndex, now);
      UnlockMeaning(s, p.rewardIndex, now, WITHDRAW_UNLOCK_LIMIT);
      BalanceNonNegative(Unlock(s, now, WITHDRAW_UNLOCK_LIMIT).value.0, p.rewardIndex);
    }
  }

  lemma {:induction false} WithdrawStep(p: Pool, b: Books, u: Address, amount: int, now: int)
    requires Solvent(p, b) && 0 < amount && 0 <= now
    requires Withdraw(p, u, amount, now).Ok?
    ensures var q := Withdraw(p, u, amount, now).value;
            && Solvent(q, AfterAccrual(b, p, u))
            && 0 <= q.totalDeposits == p.totalDeposits - amount
  {
    hide Potential, Settle, ReadPosition, AccrualFits, Owed, Unlock;
    WithdrawMeaning(p, u, amount, now);
    SettleInPool(p, u, now);
    var s := Settled(AccountOf(p, u), p.rewardIndex, now);
    UnlockMeaning(s, p.rewardIndex, now, WITHDRAW_UNLOCK_LIMIT);
    var a := Unlock(s, now, WITHDRAW_UNLOCK_LIMIT).value.0;
    BalanceNonNegative(a, p.rewardIndex);
    PutSettled(p, u, now, a.(liquid := a.liquid - amount), p.totalDeposits - amount);
  }

  /** The closed form of locking: it fails on an accrual overflow, when the liquid balance does not reach the amount,
      or when the end of the lock is no u64. Otherwise it appends one lock that holds exactly the amount, from now
      until the duration is over. */
  lemma {:induction false} LockMeaning(p: Pool, u: Address, amount: int, duration: int, now: int)
    requires PoolOk(p) && 0 < amount && 0 <= now
    ensures var a := AccountOf(p, u);
            var s := Settled(a, p.rewardIndex, now);
            LockFunds(p, u, amount, duration, now) ==
              if !AccrualFits(a, p.rewardIndex) then Err(MathOverflow)
              else if a.liquid < amount then Err(InsufficientBalance)
              else if U64_MAX < now + duration then Err(MathOverflow)
              else Ok(Put(p, u, s.(liquid := a.liquid - amount, locks := a.locks + [Lock(amount, now + duration)]),
                          p.totalDeposits))
    ensures var r := LockFunds(p, u, amount, duration, now);
            r.Ok? ==> forall t :: LockedNow(AccountOf(r.value, u).locks, t) ==
                                    LockedNow(AccountOf(p, u).locks, t) + if t < now + duration then amount else 0
  {
    hide Settle, AccrualFits, LockedNow;
    var a := AccountOf(p, u);
    BalanceWithinTotal(p, u);
    BalanceNonNegative(a, p.rewardIndex);
    SettleMeaning(a, p.rewardIndex, now);
    forall t
      ensures LockedNow(a.locks + [Lock(amount, now + duration)], t) ==
                LockedNow(a.locks, t) + if t < now + duration then amount else 0
    {
      LockedWithNew(a.locks, Lock(amount, now + duration), t);
    }
  }

  lemma {:induction false} LockStep(p: Pool, b: Books, u: Address, amount: int, duration: int, now: int)
    requires Solvent(p, b) && 0 < amount && 0 <= now
    requires LockFunds(p, u, amount, duration, now).Ok?
    ensures var q := LockFunds(p, u, amount, duration, now).value;
            && Solvent(q, AfterAccrual(b, p, u))
            && q.totalDeposits == p.totalDeposits
  {
    hide Potential, Settle, ReadPosition, AccrualFits, Owed, LockedNow, AccountOk, Balance, Amount;
    LockMeaning(p, u, amount, duration, now);
    SettleInPool(p, u, now);
    var s := Settled(AccountOf(p, u), p.rewardIndex, now);
    LockInAccount(s, amount, now + duration, p.rewardIndex);
    PutSettled(p, u, now, s.(liquid := s.liquid - amount, locks := s.locks + [Lock(amount, now + duration)]),
               p.totalDeposits);
  }

  lemma {:induction false} LockInAccount(a: Account, amount: int, end: int, index: int)
    requires AccountOk(a, index) && 0 < amount <= a.liquid
    ensures var b := a.(liquid := a.liquid - amount, locks := a.locks + [Lock(amount, end)]);
            AccountOk(b, index) && Balance(b) == Balance(a)
  {
    AmountAppend(a.locks, [Lock(amount, end)]);
    assert Amount([Lock(amount, end)]) == amount;
  }

  /** The closed form of unlocking: the first `limit` expired locks become liquid, everything else stays. */
  lemma {:induction false} UnlockExpiredMeaning(p: Pool, u: Address, limit: nat, now: int)
    requires PoolOk(p)
    ensures var a := AccountOf(p, u);
            var r := UnlockExpired(p, u, limit, now);
            && r.Ok? && r.value.1 == Amount(Taken(a.locks, now, limit))
            && AccountOf(r.value.0, u)
               == a.(liquid := a.liquid + Amount(Taken(a.locks, now, limit)), locks := Kept(a.locks, now, limit))
            && r.value.0 == p.(accounts := r.value.0.accounts)
            && forall v :: v != u ==> AccountOf(r.value.0, v) == AccountOf(p, v)
  {
    hide Unlock;
    var a := AccountOf(p, u);
    BalanceWithinTotal(p, u);
    UnlockMeaning(a, p.rewardIndex, now, limit);
    SplitConserves(a.locks, now, limit);
    assert AllPositive(Taken(a.locks, now, limit));
    AmountNonNegative(Taken(a.locks, now, limit));
    if Taken(a.locks, now, limit) == [] {
      NothingTaken(a.locks, now, limit);
    }
  }

  lemma {:induction false} UnlockStep(p: Pool, b: Books, u: Address, limit: nat, now: int)
    requires Solvent(p, b)
    ensures UnlockExpired(p, u, limit, now).Ok?
    ensures var q := UnlockExpired(p, u, limit, now).value.0;
            && Solvent(q, b)
            && q.totalDeposits == p.totalDeposits
  {
    var a := AccountOf(p, u);
    BalanceWithinTotal(p, u);
    UnlockMeaning(a, p.rewardIndex, now, limit);
    PutEffect(p, u, Unlock(a, now, limit).value.0, p.totalDeposits);
  }

  /** The closed form of a distribution on the ledger: the index rises by the floor of the scaled amount per unit
      deposited, and every reason to fail is listed. */
  lemma {:induction false} DistributeMeaning(p: Pool, effective: int)
    requires PoolOk(p) && 0 <= effective
    ensures Distribute(p, effective) ==
              if p.totalDeposits == 0 then Err(NoDeposits)
              else if I128_MAX < effective * 1_000_000_000 then Err(MathOverflow)
              else if effective * 1_000_000_000 < p.totalDeposits then Err(ZeroRewardIncrement)
              else if I128_MAX < p.rewardIndex + effective * 1_000_000_000 / p.totalDeposits then Err(MathOverflow)
              else Ok(p.(rewardIndex := p.rewardIndex + effective * 1_000_000_000 / p.totalDeposits))
  {
    DepositsNonNegative(p);
    if 0 < p.totalDeposits {
      var scaled := effective * 1_000_000_000;
      ProductNonNegative(scaled, p.totalDeposits - 1);
      QuotientAtMost(scaled, scaled, p.totalDeposits);
      PositiveShare(scaled, p.totalDeposits);
    }
  }

  lemma {:induction false} PositiveShare(x: int, d: int)
    requires 0 <= x && 0 < d
    ensures 0 < x / d <==> d <= x
  {
    if d <= x {
      FloorMonotone(d, x, d);
    }
  }

  lemma {:induction false} FloorMonotone(a: int, b: int, d: int)
    requires a <= b && 0 < d
    ensures a / d <= b / d
  {
    var q := b / d - a / d;
    assert q * d == (b - b % d) - (a - a % d);
    if q < 0 {
      ProductNonNegative(-1 - q, d);
    }
  }

  lemma {:induction false} IncrementBounds(effective: int, totalDeposits: int)
    requires 0 <= effective && IndexIncrement(effective, totalDeposits).Ok?
    ensures var inc := IndexIncrement(effective, totalDeposits).value;
            && 0 < inc
            && SCALE * effective - (totalDeposits - 1) <= Times(inc, totalDeposits) <= SCALE * effective
  {
    var inc := IndexIncrement(effective, totalDeposits).value;
    assert inc == effective * SCALE / totalDeposits;
    assert effective * SCALE == inc * totalDeposits + effective * SCALE % totalDeposits;
  }

  /** Raising the index by `inc` raises the potential by `inc` times the sum of the balances. */
  lemma {:induction false} RaiseIndex(p: Pool, inc: int)
    requires PoolOk(p) && 0 < inc && p.rewardIndex + inc <= I128_MAX
    ensures PoolOk(p.(rewardIndex := p.rewardIndex + inc))
    ensures Potential(p.(rewardIndex := p.rewardIndex + inc)) == Potential(p) + Times(inc, p.totalDeposits)
  {
    var q := p.(rewardIndex := p.rewardIndex + inc);
    assert Balances(q) == Balances(p);
    var shares := map u | u in p.accounts :: Times(inc, Balances(p)[u]);
    forall u | u in p.accounts
      ensures OwedMap(q)[u] == OwedMap(p)[u] + shares[u]
    {
      var a := p.accounts[u];
      assert Balance(a) * (p.rewardIndex + inc - a.rewardIndex)
          == Balance(a) * (p.rewardIndex - a.rewardIndex) + Times(inc, Balance(a));
    }
    TotalAdd(OwedMap(p), shares, OwedMap(q));
    TotalScale(Balances(p), inc, shares);
  }

  lemma {:induction false} DistributeStep(p: Pool, b: Books, effective: int, received: int)
    requires Solvent(p, b) && 0 <= effective
    requires Distribute(p, effective).Ok?
    ensures var q := Distribute(p, effective).value;
            && Solvent(q, AfterDistribution(b, effective, received, p.totalDeposits))
            && p.rewardIndex < q.rewardIndex
            && q.totalDeposits == p.totalDeposits && q.accounts == p.accounts
  {
    IncrementBounds(effective, p.totalDeposits);
    RaiseIndex(p, IndexIncrement(effective, p.totalDeposits).value);
  }

  /** The vested part never exceeds what has accrued; partial vesting is the floor of the linear
      share, and the only failure is the u128 product. */
  lemma {:induction false} VestedMeaning(now: int, accrued: int, lastReward: int, vestingPeriod: nat)
    requires 0 <= accrued <= I128_MAX && 0 <= now && 0 <= lastReward
    ensures var elapsed := if lastReward <= now then now - lastReward else 0;
            Vested(now, accrued, lastReward, vestingPeriod) ==
              if vestingPeriod == 0 then Ok(accrued)
              else if lastReward == 0 then Ok(0)
              else if vestingPeriod <= elapsed then Ok(accrued)
              else if U128_SIZE <= accrued * elapsed then Err(MathOverflow)
              else Ok(accrued * elapsed / vestingPeriod)
    ensures var r := Vested(now, accrued, lastReward, vestingPeriod);
            r.Ok? ==> 0 <= r.value <= accrued
  {
    var elapsed := if lastReward <= now then now - lastReward else 0;
    assert AsU128(accrued) == accrued;
    if 0 < vestingPeriod && elapsed < vestingPeriod {
      ShareWithin(accrued, elapsed, vestingPeriod);
      CastIsIdentity(accrued * elapsed / vestingPeriod);
    }
  }

  lemma {:induction false} QuotientAtMost(n: int, q: int, d: int)
    requires 0 <= n <= q * d && 0 < d
    ensures 0 <= n / d <= q
  {
    var excess := n / d - q;
    assert excess * d == n / d * d - q * d;
    assert n / d * d == n - n % d;
    if 0 < excess {
      ProductNonNegative(excess - 1, d);
    }
  }

  lemma {:induction false} ShareWithin(x: int, part: int, whole: int)
    requires 0 <= x && 0 <= part < whole
    ensures 0 <= x * part / whole <= x
  {
    ProductNonNegative(x, part);
    ProductNonNegative(x, whole - part);
    assert x * (whole - part) == x * whole - x * part;
    QuotientAtMost(x * part, x, whole);
  }

  /** The closed form of a claim on the ledger: the vested part is taken out of the settled rewards, and nothing else
      changes. */
  lemma {:induction false} ClaimMeaning(p: Pool, u: Address, vestingPeriod: nat, now: int)
    requires PoolOk(p) && 0 <= now
    ensures var a := AccountOf(p, u);
            var s := Settled(a, p.rewardIndex, now);
            var vested := Vested(now, s.accrued, s.lastReward, vestingPeriod);
            Claim(p, u, vestingPeriod, now) ==
              if !AccrualFits(a, p.rewardIndex) || vested.Err? then Err(MathOverflow)
              else Ok((Put(p, u, s.(accrued := s.accrued - vested.value), p.totalDeposits), vested.value))
  {
    hide Settle, AccrualFits, Vested;
    var a := AccountOf(p, u);
    BalanceWithinTotal(p, u);
    SettleMeaning(a, p.rewardIndex, now);
    if AccrualFits(a, p.rewardIndex) {
      SettleInPool(p, u, now);
      var s := Settled(a, p.rewardIndex, now);
      VestedMeaning(now, s.accrued, s.lastReward, vestingPeriod);
    }
  }

  lemma {:induction false} ClaimStep(p: Pool, b: Books, u: Address, vestingPeriod: nat, now: int)
    requires Solvent(p, b) && 0 <= now
    requires Claim(p, u, vestingPeriod, now).Ok?
    ensures var (q, paid) := Claim(p, u, vestingPeriod, now).value;
            && 0 <= paid && SCALE * paid <= Potential(p)
            && Solvent(q, AfterClaim(b, p, u, paid))
            && q.totalDeposits == p.totalDeposits
  {
    hide Potential, Settle, ReadPosition, AccrualFits, Owed, Vested;
    SettleInPool(p, u, now);
    var s := Settled(AccountOf(p, u), p.rewardIndex, now);
    VestedMeaning(now, s.accrued, s.lastReward, vestingPeriod);
    OwedWithinPotential(p, u);
    var (q, paid) := Claim(p, u, vestingPeriod, now).value;
    PutSettled(p, u, now, s.(accrued := s.accrued - paid), p.totalDeposits);
  }
}
