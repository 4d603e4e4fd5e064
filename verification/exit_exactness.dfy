/** A reachable vault whose only depositor cannot withdraw: the two distributions before were both accepted, and
    together they push the accrual of the user's rewards out of i128. */
module ExitExactness {
  import opened MachineInts
  import opened RewardPool
  import opened Solvency
  import opened LedgerTheorems
  import opened Utilization
  import opened VaultWorld
  import opened VaultTheorems
  import opened VaultCalls

  const HUGE := 160_000_000_000_000_000_000_000_000_000
  const STAKE := 1000

  datatype Cast = Cast(user: Address, admin: Address, depositToken: Address, rewardToken: Address)

  predicate Distinct(k: Cast) {
    k.user != SELF && k.admin != SELF && k.user != k.admin && k.depositToken != k.rewardToken
  }

  ghost predicate Set(w: World, k: Cast, p: Pool) {
    && Reachable(w) && Open(w.vault)
    && w.vault.admin == k.admin && w.vault.depositToken == k.depositToken && w.vault.rewardToken == k.rewardToken
    && w.vault.targetDeposits == 0 && w.vault.pools == map[Main := p]
  }

  lemma {:induction false} Prepared(k: Cast) returns (w: World)
    requires Distinct(k)
    ensures Set(w, k, Pool(0, 0, map[]))
    ensures Held(w.tokens, k.depositToken, k.user) == STAKE && Held(w.tokens, k.rewardToken, k.admin) == 2 * HUGE
  {
    hide Reachable;
    GenesisReachable();
    var w0 := Genesis(map[]);
    var s1 := TokenIssue(k.depositToken, k.user, STAKE);
    ReachableNext(w0, s1);
    var w1 := Next(w0, s1);
    var s2 := TokenIssue(k.rewardToken, k.admin, 2 * HUGE);
    ReachableNext(w1, s2);
    var w2 := Next(w1, s2);
    var op := Initialize(k.admin, k.depositToken, k.rewardToken, 0, 0, []);
    ReachableNext(w2, Invoke(Alone(op, k.admin, 1)));
    InitializeCall(w2, op, 1);
    w := Next(w2, Invoke(Alone(op, k.admin, 1)));
  }

  lemma {:induction false} Deposits(w0: World, k: Cast, p: Pool, q: Pool) returns (w: World)
    requires Distinct(k) && Set(w0, k, p) && Deposit(p, k.user, STAKE, 1) == Ok(q)
    requires Held(w0.tokens, k.depositToken, k.user) == STAKE
    ensures Set(w, k, q) && Held(w.tokens, k.rewardToken, k.admin) == Held(w0.tokens, k.rewardToken, k.admin)
  {
    hide Reachable, Deposit, Transfer;
    var s := Invoke(Alone(DepositInto(Main, k.user, STAKE), k.user, 1));
    DepositCall(w0, Main, k.user, STAKE, 1);
    TransferFunded(w0.tokens, k.depositToken, k.user, SELF, STAKE);
    ReachableNext(w0, s);
    w := Next(w0, s);
  }

  lemma {:induction false} Distributes(w0: World, k: Cast, p: Pool, q: Pool) returns (w: World)
    requires Distinct(k) && Set(w0, k, p) && Distribute(p, HUGE) == Ok(q)
    requires HUGE <= Held(w0.tokens, k.rewardToken, k.admin)
    ensures Set(w, k, q) && Held(w.tokens, k.rewardToken, k.admin) == Held(w0.tokens, k.rewardToken, k.admin) - HUGE
  {
    hide Reachable, Distribute, Transfer, EffectiveAmount;
    EffectiveAmountMeaning(HUGE, BPS);
    assert HUGE * BPS / BPS == HUGE;
    assert Effective(w0.vault, Main, HUGE) == Ok(HUGE);
    var s := Invoke(Alone(DistributeTo(Main, k.admin, HUGE), k.admin, 1));
    DistributeCall(w0, HUGE, HUGE, 1);
    TransferFunded(w0.tokens, k.rewardToken, k.admin, SELF, HUGE);
    ReachableNext(w0, s);
    w := Next(w0, s);
  }

  /** A reachable world in which a covered exit of the only depositor fails. */
  lemma {:induction false} BlockedExitIsReachable() returns (w: World, c: Call)
    ensures Reachable(w) && ExitCall(w, c) && Main in w.vault.pools
    ensures c.op.amount <= Available(w.vault.pools[Main], c.op.user, c.now) && Attempt(w, c).Err?
  {
    hide Reachable, Deposit, Distribute, Withdraw, Attempt;
    var k := Cast(Address(1), Address(2), Address(3), Address(4));
    ExitCanBeBlocked(k.user);
    var p1 := Deposit(Pool(0, 0, map[]), k.user, STAKE, 1).value;
    var p2 := Distribute(p1, HUGE).value;
    var p3 := Distribute(p2, HUGE).value;
    w := Prepared(k);
    w := Deposits(w, k, Pool(0, 0, map[]), p1);
    w := Distributes(w, k, p1, p2);
    w := Distributes(w, k, p2, p3);
    c := Alone(WithdrawFrom(Main, k.user, STAKE), k.user, 2);
    BlockedOnLedger(w, c);
  }

  /** What the ledger refuses although it is covered, the call refuses. */
  lemma {:induction false} BlockedOnLedger(w: World, c: Call)
    requires Reachable(w) && ExitCall(w, c) && Main in w.vault.pools
    requires Withdraw(w.vault.pools[Main], c.op.user, c.op.amount, c.now) == Err(MathOverflow)
    ensures Attempt(w, c).Err?
  {
    hide Withdraw, Attempt, Reachable;
    ReachableOk(w);
    WithdrawMeaning(w.vault.pools[Main], c.op.user, c.op.amount, c.now);
    ExitSucceedsIff(w, c);
  }
}
