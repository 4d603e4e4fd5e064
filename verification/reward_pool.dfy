/** One reward ledger as a value: the main ledger, or the ledger of one added asset (whose accounts
    never hold locks). A distribution raises one index; a user's share is realised by `Settle`, with
    floor division, when that user next acts. */
module RewardPool {
  import opened MachineInts
  import opened TimeLocks
  import opened Totals

  const SCALE: int := 1_000_000_000
  const WITHDRAW_UNLOCK_LIMIT: nat := 5

  datatype Address = Address(id: nat)

  datatype Account = Account(liquid: int, locks: seq<Lock>, rewardIndex: int, accrued: int, lastReward: int)

  /** What storage yields for a user without any entry. */
  function EmptyAccount(u: Address): Account { Account(0, NoLocks(u.id), 0, 0, 0) }

  datatype Pool = Pool(totalDeposits: int, rewardIndex: int, accounts: map<Address, Account>)

  datatype Position = Position(balance: int, rewardIndex: int, accrued: int, lastReward: int)

  function AccountOf(p: Pool, u: Address): Account {
    if u in p.accounts then p.accounts[u] else EmptyAccount(u)
  }

  function Balance(a: Account): int { a.liquid + Amount(a.locks) }

  // ---- The operations, in the order of checks of the code ----

  /** `get_user_position_unchecked`: the lock sum is unchecked and wraps. */
  function ReadPosition(a: Account): Result<Position> {
    var balance :- CheckedAdd(a.liquid, AsI128(Amount(a.locks)));
    Ok(Position(balance, a.rewardIndex, a.accrued, a.lastReward))
  }

  /** `checked_accrued_rewards`. */
  function AccruedRewards(balance: int, delta: int): Result<int> {
    var scaled :- CheckedMul(balance, delta);
    CheckedDiv(scaled, SCALE)
  }

  /** `accrue_position_rewards` and its asset twin. */
  function Accrue(index: int, pos: Position, now: int): Result<Position> {
    if index == pos.rewardIndex || pos.balance <= 0 then Ok(pos.(rewardIndex := index))
    else
      var delta :- CheckedSub(index, pos.rewardIndex);
      var gained :- AccruedRewards(pos.balance, delta);
      if 0 < gained then
        var accrued :- CheckedAdd(pos.accrued, gained);
        Ok(Position(pos.balance, index, accrued, now))
      else Ok(pos.(rewardIndex := index))
  }

  /** Read the position, accrue, write the reward fields back. */
  function Settle(a: Account, index: int, now: int): Result<Account> {
    var before :- ReadPosition(a);
    var after :- Accrue(index, before, now);
    Ok(a.(rewardIndex := after.rewardIndex, accrued := after.accrued, lastReward := after.lastReward))
  }

  function Put(p: Pool, u: Address, a: Account, total: int): Pool {
    Pool(total, p.rewardIndex, p.accounts[u := a])
  }

  /** `store_deposit` and `store_asset_deposit`. */
  function Deposit(p: Pool, u: Address, amount: int, now: int): Result<Pool> {
    var position :- ReadPosition(AccountOf(p, u));
    var a :- Settle(AccountOf(p, u), p.rewardIndex, now);
    var balance :- CheckedAdd(position.balance, amount);
    var liquid :- CheckedAdd(a.liquid, amount);
    var total :- CheckedAdd(p.totalDeposits, amount);
    Ok(Put(p, u, a.(liquid := liquid), total))
  }

  /** `unlock_expired_locks`: the account after one batch, and the amount unlocked. */
  function Unlock(a: Account, now: int, limit: nat): Result<(Account, int)> {
    if limit == 0 then Ok((a, 0))
    else
      var unlocked :- CheckedSum(Taken(a.locks, now, limit), 0);
      if 0 < unlocked then
        var liquid :- CheckedAdd(a.liquid, unlocked);
        Ok((a.(liquid := liquid, locks := Kept(a.locks, now, limit)), unlocked))
      else Ok((a, unlocked))
  }

  /** `store_withdraw` and `store_asset_withdraw` (which has no locks to process). */
  function Withdraw(p: Pool, u: Address, amount: int, now: int): Result<Pool> {
    var position :- ReadPosition(AccountOf(p, u));
    var settled :- Settle(AccountOf(p, u), p.rewardIndex, now);
    var (a, _) :- Unlock(settled, now, WITHDRAW_UNLOCK_LIMIT);
    if a.liquid < amount then Err(InsufficientBalance)
    else
      var balance :- CheckedSub(position.balance, amount);
      var liquid :- CheckedSub(a.liquid, amount);
      var total :- CheckedSub(p.totalDeposits, amount);
      Ok(Put(p, u, a.(liquid := liquid), total))
  }

  /** `store_lock`. */
  function LockFunds(p: Pool, u: Address, amount: int, duration: int, now: int): Result<Pool> {
    var a :- Settle(AccountOf(p, u), p.rewardIndex, now);
    if a.liquid < amount then Err(InsufficientBalance)
    else
      var liquid :- CheckedSub(a.liquid, amount);
      if U64_MAX < now + duration then Err(MathOverflow)
      else Ok(Put(p, u, a.(liquid := liquid, locks := a.locks + [Lock(amount, now + duration)]), p.totalDeposits))
  }

  /** `unlock_expired` on the ledger; the user's reward fields are not touched. */
  function UnlockExpired(p: Pool, u: Address, limit: nat, now: int): Result<(Pool, int)> {
    var (a, unlocked) :- Unlock(AccountOf(p, u), now, limit);
    Ok((if 0 < unlocked then Put(p, u, a, p.totalDeposits) else p, unlocked))
  }

  /** `checked_reward_index_increment`. */
  function IndexIncrement(effective: int, totalDeposits: int): Result<int> {
    if totalDeposits <= 0 then Err(NoDeposits)
    else
      var scaled :- CheckedMul(effective, SCALE);
      var increment :- CheckedDiv(scaled, totalDeposits);
      if increment <= 0 then Err(ZeroRewardIncrement) else Ok(increment)
  }

  /** The ledger part of `store_reward_distribution` and `store_asset_reward_distribution`. */
  function Distribute(p: Pool, effective: int): Result<Pool> {
    var increment :- IndexIncrement(effective, p.totalDeposits);
    var index :- CheckedAdd(p.rewardIndex, increment);
    Ok(p.(rewardIndex := index))
  }

  /** `calculate_vested_rewards`. */
  function Vested(now: int, accrued: int, lastReward: int, vestingPeriod: nat): Result<int> {
    if vestingPeriod == 0 then Ok(accrued)
    else if lastReward == 0 then Ok(0)
    else
      var elapsed := if lastReward <= now then now - lastReward else 0;
      if vestingPeriod <= elapsed then Ok(accrued)
      else if U128_SIZE <= AsU128(accrued) * elapsed then Err(MathOverflow)
      else Ok(AsI128(AsU128(accrued) * elapsed / vestingPeriod))
  }

  /** `store_claimable_rewards` and its asset twin: the ledger afterwards and the amount to pay. */
  function Claim(p: Pool, u: Address, vestingPeriod: nat, now: int): Result<(Pool, int)> {
    var a :- Settle(AccountOf(p, u), p.rewardIndex, now);
    var vested :- Vested(now, a.accrued, a.lastReward, vestingPeriod);
    var rest :- CheckedSub(a.accrued, vested);
    Ok((Put(p, u, a.(accrued := rest), p.totalDeposits), vested))
  }

  /** `preview_user_rewards`: total rewards and the vested part. */
  function Preview(p: Pool, u: Address, vestingPeriod: nat, now: int): Result<(int, int)> {
    var a :- Settle(AccountOf(p, u), p.rewardIndex, now);
    var vested :- Vested(now, a.accrued, a.lastReward, vestingPeriod);
    Ok((a.accrued, vested))
  }

  // ---- Well-formed ledgers ----

  ghost predicate AccountOk(a: Account, index: int) {
    && 0 <= a.liquid
    && AllPositive(a.locks)
    && 0 <= a.rewardIndex <= index
    && 0 <= a.accrued <= I128_MAX
    && 0 <= a.lastReward
  }

  ghost function Balances(p: Pool): map<Address, int> {
    map u | u in p.accounts :: Balance(p.accounts[u])
  }

  ghost predicate PoolOk(p: Pool) {
    && 0 <= p.rewardIndex <= I128_MAX
    && p.totalDeposits == Total(Balances(p)) <= I128_MAX
    && forall u :: u in p.accounts ==> AccountOk(p.accounts[u], p.rewardIndex)
  }

  /** What one account is owed, scaled: realised rewards plus its share of the index since. */
  ghost function Owed(a: Account, index: int): int {
    a.accrued * SCALE + Balance(a) * (index - a.rewardIndex)
  }

  ghost function OwedMap(p: Pool): map<Address, int> {
    map u | u in p.accounts :: Owed(p.accounts[u], p.rewardIndex)
  }

  /** The scaled potential: everything the ledger owes to all its users. */
  ghost function Potential(p: Pool): int { Total(OwedMap(p)) }

  /** Rewards an account gains when it is settled at `index`. */
  function Gain(a: Account, index: int): int { Balance(a) * (index - a.rewardIndex) / SCALE }

  /** Settling at `index` stays inside i128. */
  predicate AccrualFits(a: Account, index: int) {
    && Balance(a) * (index - a.rewardIndex) <= I128_MAX
    && a.accrued + Gain(a, index) <= I128_MAX
  }

  function Settled(a: Account, index: int, now: int): Account {
    var gain := Gain(a, index);
    a.(rewardIndex := index, accrued := a.accrued + gain, lastReward := if 0 < gain then now else a.lastReward)
  }

  lemma {:induction false} BalanceNonNegative(a: Account, index: int)
    requires AccountOk(a, index)
    ensures 0 <= Balance(a) && 0 <= Amount(a.locks) && a.liquid <= Balance(a)
  {
    AmountNonNegative(a.locks);
  }

  lemma {:induction false} OwedNonNegative(a: Account, index: int)
    requires AccountOk(a, index)
    ensures 0 <= Balance(a) * (index - a.rewardIndex) <= Owed(a, index)
    ensures a.accrued * SCALE <= Owed(a, index)
  {
    BalanceNonNegative(a, index);
    ProductNonNegative(Balance(a), index - a.rewardIndex);
  }

  lemma {:induction false} EmptyAccountOk(u: Address, index: int)
    requires 0 <= index
    ensures AccountOk(EmptyAccount(u), index) && Balance(EmptyAccount(u)) == 0 && Owed(EmptyAccount(u), index) == 0
  {
  }

  lemma {:induction false} BalanceWithinTotal(p: Pool, u: Address)
    requires PoolOk(p)
    ensures AccountOk(AccountOf(p, u), p.rewardIndex)
    ensures 0 <= Balance(AccountOf(p, u)) <= p.totalDeposits
  {
    forall v | v in p.accounts
      ensures 0 <= Balances(p)[v]
    {
      BalanceNonNegative(p.accounts[v], p.rewardIndex);
    }
    TotalBoundsEntry(Balances(p), u);
    assert Lookup(Balances(p), u) == Balance(AccountOf(p, u));
  }

  lemma {:induction false} DepositsNonNegative(p: Pool)
    requires PoolOk(p)
    ensures 0 <= p.totalDeposits
  {
    forall u | u in p.accounts
      ensures 0 <= Balances(p)[u]
    {
      BalanceNonNegative(p.accounts[u], p.rewardIndex);
    }
    TotalNonNegative(Balances(p));
  }

  /** In a well-formed ledger every balance, every lock sum and so every read of a position is inside
      i128: the unchecked sum never wraps and the checked one never fails. */
  lemma {:induction false} PositionReadsBalance(p: Pool, u: Address)
    requires PoolOk(p)
    ensures var a := AccountOf(p, u);
            ReadPosition(a) == Ok(Position(Balance(a), a.rewardIndex, a.accrued, a.lastReward))
  {
    BalanceWithinTotal(p, u);
    ReadMeaning(AccountOf(p, u), p.rewardIndex);
  }

  lemma {:induction false} ReadMeaning(a: Account, index: int)
    requires AccountOk(a, index) && Balance(a) <= I128_MAX
    ensures ReadPosition(a) == Ok(Position(Balance(a), a.rewardIndex, a.accrued, a.lastReward))
  {
    BalanceNonNegative(a, index);
    CastIsIdentity(Amount(a.locks));
  }

  /** The product is checked, the quotient of a non-negative product is the floor. */
  lemma {:induction false} AccruedMeaning(balance: int, delta: int)
    requires 0 <= balance && 0 <= delta
    ensures AccruedRewards(balance, delta) ==
              if balance * delta <= I128_MAX then Ok(balance * delta / SCALE) else Err(MathOverflow)
    ensures 0 <= balance * delta && 0 <= balance * delta / SCALE
  {
    ProductNonNegative(balance, delta);
    assert balance * delta / SCALE <= balance * delta;
  }

  /** Settling succeeds exactly when the accrual fits, and then credits the floor of the share. */
  lemma {:induction false} SettleMeaning(a: Account, index: int, now: int)
    requires AccountOk(a, index) && Balance(a) <= I128_MAX && index <= I128_MAX
    ensures Settle(a, index, now) == if AccrualFits(a, index) then Ok(Settled(a, index, now)) else Err(MathOverflow)
    ensures 0 <= Gain(a, index)
  {
    hide AccruedRewards, ReadPosition, Amount;
    BalanceNonNegative(a, index);
    ReadMeaning(a, index);
    AccruedMeaning(Balance(a), index - a.rewardIndex);
    if index == a.rewardIndex || Balance(a) == 0 {
      assert Balance(a) * (index - a.rewardIndex) == 0;
    }
  }

  /** Settling turns the open share into realised rewards and loses only the division remainder. */
  lemma {:induction false} SettleOwed(a: Account, index: int, now: int)
    requires AccountOk(a, index) && AccrualFits(a, index) && 0 <= now
    ensures AccountOk(Settled(a, index, now), index)
    ensures Balance(Settled(a, index, now)) == Balance(a)
    ensures Owed(a, index) - (SCALE - 1) <= Owed(Settled(a, index, now), index) <= Owed(a, index)
    ensures Owed(Settled(a, index, now), index) == SCALE * Settled(a, index, now).accrued
  {
    OwedNonNegative(a, index);
    var product := Balance(a) * (index - a.rewardIndex);
    assert product == product / SCALE * SCALE + product % SCALE;
    var s := Settled(a, index, now);
    assert Balance(s) * (index - s.rewardIndex) == 0;
  }

  /** Writing one account moves the balance sum and the potential by that account's difference. */
  lemma {:induction false} PutEffect(p: Pool, u: Address, a: Account, total: int)
    requires PoolOk(p) && AccountOk(a, p.rewardIndex)
    requires total == p.totalDeposits - Balance(AccountOf(p, u)) + Balance(a) <= I128_MAX
    ensures PoolOk(Put(p, u, a, total))
    ensures Potential(Put(p, u, a, total))
         == Potential(p) - Owed(AccountOf(p, u), p.rewardIndex) + Owed(a, p.rewardIndex)
  {
    var q := Put(p, u, a, total);
    EmptyAccountOk(u, p.rewardIndex);
    assert Balances(q) == Balances(p)[u := Balance(a)];
    TotalUpdate(Balances(p), u, Balance(a));
    assert OwedMap(q) == OwedMap(p)[u := Owed(a, p.rewardIndex)];
    TotalUpdate(OwedMap(p), u, Owed(a, p.rewardIndex));
  }

  lemma {:induction false} PotentialNonNegative(p: Pool)
    requires PoolOk(p)
    ensures 0 <= Potential(p)
  {
    forall u | u in p.accounts
      ensures 0 <= OwedMap(p)[u]
    {
      OwedNonNegative(p.accounts[u], p.rewardIndex);
    }
    TotalNonNegative(OwedMap(p));
  }

  /** No user is owed more than the whole ledger owes. */
  lemma {:induction false} OwedWithinPotential(p: Pool, u: Address)
    requires PoolOk(p)
    ensures 0 <= Owed(AccountOf(p, u), p.rewardIndex) <= Potential(p)
  {
    forall v | v in p.accounts
      ensures 0 <= OwedMap(p)[v]
    {
      OwedNonNegative(p.accounts[v], p.rewardIndex);
    }
    TotalBoundsEntry(OwedMap(p), u);
    EmptyAccountOk(u, p.rewardIndex);
    assert Lookup(OwedMap(p), u) == Owed(AccountOf(p, u), p.rewardIndex);
  }

  /** One batch of unlocking in closed form: it never fails on a well-formed account, keeps the
      balance, and moves exactly the taken locks. */
  lemma {:induction false} UnlockMeaning(a: Account, index: int, now: int, limit: nat)
    requires AccountOk(a, index) && Balance(a) <= I128_MAX
    ensures Unlock(a, now, limit) == Ok((
              a.(liquid := a.liquid + Amount(Taken(a.locks, now, limit)), locks := Kept(a.locks, now, limit)),
              Amount(Taken(a.locks, now, limit))))
    ensures AccountOk(Unlock(a, now, limit).value.0, index)
    ensures Balance(Unlock(a, now, limit).value.0) == Balance(a)
  {
    var taken, kept := Taken(a.locks, now, limit), Kept(a.locks, now, limit);
    SplitConserves(a.locks, now, limit);
    assert AllPositive(taken) && AllPositive(kept);
    AmountNonNegative(taken);
    AmountNonNegative(kept);
    CheckedSumIsAmount(taken, 0);
    ZeroBatch(a.locks, now);
    if taken == [] {
      BatchSize(a.locks, now, limit);
      NothingTaken(a.locks, now, limit);
    }
  }

  lemma {:induction false} NothingTaken(ls: seq<Lock>, now: int, limit: nat)
    requires Taken(ls, now, limit) == []
    ensures Kept(ls, now, limit) == ls
  {
    if ls != [] {
      NothingTaken(ls[1..], now, limit);
    }
  }
}
