/** What runs do to one user: other users cannot touch an account, lazy crediting compares with eager
    crediting over any interleaving, locked funds stay, and callbacks change nothing. */
module VaultRuns {
  import opened MachineInts
  import opened TimeLocks
  import opened RewardPool
  import opened LedgerTheorems
  import opened VaultWorld
  import opened VaultInvariant

  // ---- A transaction is one ledger operation ----

  /** `q` is `p` or the result of the one ledger operation that `op` performs on ledger `id`. */
  ghost predicate LedgerStep(v: Vault, p: Pool, q: Pool, id: LedgerId, op: Op, now: int)
    requires id in v.pools
  {
    q == p ||
    match op
    case DepositInto(i, u, amount) => i == id && Deposit(p, u, amount, now) == Ok(q)
    case WithdrawFrom(i, u, amount) => i == id && Withdraw(p, u, amount, now) == Ok(q)
    case DistributeTo(i, _, amount) =>
      i == id && Effective(v, id, amount).Ok? && Distribute(p, Effective(v, id, amount).value) == Ok(q)
    case ClaimFrom(i, u) =>
      i == id && Claim(p, u, v.vestingPeriod, now).Ok? && Claim(p, u, v.vestingPeriod, now).value.0 == q
    case LockDeposit(u, amount, duration) => id == Main && LockFunds(p, u, amount, duration, now) == Ok(q)
    case UnlockExpiredLocks(u, limit) =>
      id == Main && UnlockExpired(p, u, limit, now).Ok? && UnlockExpired(p, u, limit, now).value.0 == q
    case _ => false
  }

  lemma {:induction false} BeginIsLedgerStep(w: World, op: Op, auth: set<Address>, now: U64, id: LedgerId)
    requires id in w.vault.pools && w.vault.initialized
    ensures var r := Begin(w, op, auth, now);
            r.Ok? ==>
              && id in r.value.world.vault.pools
              && LedgerStep(w.vault, w.vault.pools[id], r.value.world.vault.pools[id], id, op, now)
              && (r.value.Transferring? && (op.DepositInto? || op.DistributeTo?) ==>
                    r.value.world.vault == Enter(w).vault)
  {
    hide Withdraw, Claim, LockFunds, UnlockExpired, Transfer, Deposit, Distribute, Effective;
  }

  lemma {:induction false} FinishIsLedgerStep(w: World, op: Op, now: U64, value: int, id: LedgerId)
    requires id in w.vault.pools
    ensures var r := Finish(w, op, now, value);
            r.Ok? ==>
              && id in r.value.0.vault.pools
              && (op.DepositInto? || op.DistributeTo? ==>
                    LedgerStep(w.vault, w.vault.pools[id], r.value.0.vault.pools[id], id, op, now))
              && (!op.DepositInto? && !op.DistributeTo? ==> r.value.0.vault.pools == w.vault.pools)
  {
    hide Withdraw, Claim, LockFunds, UnlockExpired, Deposit, Distribute, Effective;
  }

  /** The distribution amount depends only on parts of the vault that callbacks cannot change. */
  lemma {:induction false} SameLedgerStep(v: Vault, v': Vault, p: Pool, q: Pool, id: LedgerId, op: Op, now: int)
    requires id in v.pools && id in v'.pools && v'.pools[id] == v.pools[id]
    requires v'.targetDeposits == v.targetDeposits && v'.curve == v.curve && v'.vestingPeriod == v.vestingPeriod
    requires LedgerStep(v', p, q, id, op, now)
    ensures LedgerStep(v, p, q, id, op, now)
  {
  }

  /** Every transaction, with any callbacks, applies at most one ledger operation to a ledger, namely
      its own. */
  lemma {:induction false} TransactionIsLedgerStep(w: World, c: Call, id: LedgerId)
    requires WorldOk(w) && id in w.vault.pools && w.vault.initialized
    ensures var w' := Execute(w, c);
            id in w'.vault.pools && LedgerStep(w.vault, w.vault.pools[id], w'.vault.pools[id], id, c.op, c.now)
  {
    hide WorldOk, LedgerStep;
    var p := w.vault.pools[id];
    assert LedgerStep(w.vault, p, p, id, c.op, c.now) by { UnchangedIsLedgerStep(w.vault, p, id, c.op, c.now); }
    var r := Begin(w, c.op, c.auth, c.now);
    if r.Ok? {
      BeginOk(w, c.op, c.auth, c.now);
      BeginIsLedgerStep(w, c.op, c.auth, c.now, id);
      CompleteIsLedgerStep(w, r.value, c, id);
      assert Attempt(w, c) == Complete(r.value, c);
    }
  }

  lemma {:induction false} UnchangedIsLedgerStep(v: Vault, p: Pool, id: LedgerId, op: Op, now: int)
    requires id in v.pools
    ensures LedgerStep(v, p, p, id, op, now)
  {
  }

  lemma {:induction false} CompleteIsLedgerStep(w: World, ph: Phase, c: Call, id: LedgerId)
    requires id in w.vault.pools && id in ph.world.vault.pools && PhaseOk(ph, c.op)
    requires LedgerStep(w.vault, w.vault.pools[id], ph.world.vault.pools[id], id, c.op, c.now)
    requires ph.Transferring? && (c.op.DepositInto? || c.op.DistributeTo?) ==> ph.world.vault == Enter(w).vault
    ensures var r := Complete(ph, c);
            r.Ok? ==>
              && id in r.value.0.vault.pools
              && LedgerStep(w.vault, w.vault.pools[id], r.value.0.vault.pools[id], id, c.op, c.now)
  {
    hide WorldOk, LedgerStep;
    if ph.Transferring? {
      var mid := RunAll(ph.world, c.callbacks);
      CallbacksUnderGuard(ph.world, c.callbacks);
      assert mid.vault.pools[id] == ph.world.vault.pools[id];
      FinishIsLedgerStep(mid, c.op, c.now, ph.value, id);
      var r := Finish(mid, c.op, c.now, ph.value);
      if r.Ok? && (c.op.DepositInto? || c.op.DistributeTo?) {
        SameLedgerStep(w.vault, mid.vault, w.vault.pools[id], r.value.0.vault.pools[id], id, c.op, c.now);
      }
    }
  }

  // ---- Other users, and lazy against eager crediting ----

  /** `op` is an action of user `u` on ledger `id`. */
  predicate ActsOn(op: Op, id: LedgerId, u: Address) {
    match op
    case DepositInto(i, user, _) => i == id && user == u
    case WithdrawFrom(i, user, _) => i == id && user == u
    case ClaimFrom(i, user) => i == id && user == u
    case LockDeposit(user, _, _) => id == Main && user == u
    case UnlockExpiredLocks(user, _) => id == Main && user == u
    case _ => false
  }

  /** An action of `u` that may accrue rewards or change the balance: all but unlocking. */
  predicate Accrues(op: Op, id: LedgerId, u: Address) { ActsOn(op, id, u) && !op.UnlockExpiredLocks? }

  /** The parts of an account that count for rewards. */
  ghost predicate SameStake(a: Account, b: Account) {
    && Balance(a) == Balance(b) && a.rewardIndex == b.rewardIndex
    && a.accrued == b.accrued && a.lastReward == b.lastReward
  }

  lemma {:induction false} UnlockKeepsStake(p: Pool, u: Address, limit: nat, now: int)
    requires PoolOk(p)
    ensures var r := UnlockExpired(p, u, limit, now);
            r.Ok? && SameStake(AccountOf(r.value.0, u), AccountOf(p, u)) && r.value.0.rewardIndex == p.rewardIndex
  {
    hide Amount;
    BalanceWithinTotal(p, u);
    UnlockMeaning(AccountOf(p, u), p.rewardIndex, now, limit);
  }

  lemma {:induction false} OthersLeaveAccount(v: Vault, p: Pool, q: Pool, id: LedgerId, op: Op, now: int, u: Address)
    requires id in v.pools && LedgerStep(v, p, q, id, op, now) && !ActsOn(op, id, u)
    ensures AccountOf(q, u) == AccountOf(p, u)
    ensures q.rewardIndex == p.rewardIndex || (op.DistributeTo? && p.rewardIndex < q.rewardIndex)
  {
  }

  function IndexOf(w: World, id: LedgerId): int {
    if id in w.vault.pools then w.vault.pools[id].rewardIndex else 0
  }

  /** The index increments of a run, one for each distribution that reached ledger `id`. */
  function Increments(w: World, steps: seq<Step>, id: LedgerId): seq<int>
    decreases |steps|
  {
    if steps == [] then []
    else
      var w1 := Next(w, steps[0]);
      var rest := Increments(w1, steps[1..], id);
      if IndexOf(w1, id) == IndexOf(w, id) then rest else [IndexOf(w1, id) - IndexOf(w, id)] + rest
  }

  predicate NeverActs(steps: seq<Step>, id: LedgerId, u: Address) {
    forall s :: s in steps ==> s.Invoke? ==> !ActsOn(s.call.op, id, u)
  }

  predicate NeverAccrues(steps: seq<Step>, id: LedgerId, u: Address) {
    forall s :: s in steps ==> s.Invoke? ==> !Accrues(s.call.op, id, u)
  }

  lemma {:induction false} StepKeepsStake(w: World, s: Step, id: LedgerId, u: Address)
    requires WorldOk(w) && !w.vault.guard && w.vault.initialized && id in w.vault.pools
    requires s.Invoke? ==> !Accrues(s.call.op, id, u)
    ensures var w' := Next(w, s);
            && w'.vault.initialized && id in w'.vault.pools
            && SameStake(AccountOf(w'.vault.pools[id], u), AccountOf(w.vault.pools[id], u))
            && ((s.Invoke? ==> !ActsOn(s.call.op, id, u)) ==>
                  AccountOf(w'.vault.pools[id], u) == AccountOf(w.vault.pools[id], u))
            && w.vault.pools[id].rewardIndex <= w'.vault.pools[id].rewardIndex
  {
    hide WorldOk, Execute;
    StepOk(w, s);
    if s.Invoke? {
      TransactionIsLedgerStep(w, s.call, id);
      var w' := Execute(w, s.call);
      var p, q := w.vault.pools[id], w'.vault.pools[id];
      if ActsOn(s.call.op, id, u) {
        LedgerIsOk(w, id);
        UnlockKeepsStake(p, u, s.call.op.limit, s.call.now);
      } else {
        hide LedgerStep;
        OthersLeaveAccount(w.vault, p, q, id, s.call.op, s.call.now, u);
      }
      StaysInitialized(w', id);
    }
  }

  lemma {:induction false} LedgerIsOk(w: World, id: LedgerId)
    requires WorldOk(w) && id in w.vault.pools
    ensures PoolOk(w.vault.pools[id])
  {
  }

  lemma {:induction false} StaysInitialized(w: World, id: LedgerId)
    requires WorldOk(w) && id in w.vault.pools
    ensures w.vault.initialized
  {
  }

  /** Over any run in which `u` at most unlocks on the ledger, whatever everyone else does, the balance and the
      reward fields of `u` stay as they are and the index moves by the distributions alone; if `u` does not
      act at all, the whole account is untouched. */
  lemma {:induction false} UntouchedOverRuns(w: World, steps: seq<Step>, id: LedgerId, u: Address)
    requires WorldOk(w) && !w.vault.guard && w.vault.initialized && id in w.vault.pools && NeverAccrues(steps, id, u)
    ensures var w' := Run(w, steps);
            && id in w'.vault.pools
            && SameStake(AccountOf(w'.vault.pools[id], u), AccountOf(w.vault.pools[id], u))
            && (NeverActs(steps, id, u) ==> AccountOf(w'.vault.pools[id], u) == AccountOf(w.vault.pools[id], u))
            && w'.vault.pools[id].rewardIndex == w.vault.pools[id].rewardIndex + SumOf(Increments(w, steps, id))
    ensures forall d :: d in Increments(w, steps, id) ==> 0 < d
    decreases |steps|
  {
    hide WorldOk, Next, Balance;
    if steps != [] {
      assert steps[0] in steps;
      StepOk(w, steps[0]);
      StepKeepsStake(w, steps[0], id, u);
      UntouchedOverRuns(Next(w, steps[0]), steps[1..], id, u);
    }
  }

  /** Lazy refines eager, over every interleaving: a user settled at the start who then at most unlocks gains
      floor(balance * sum of increments / SCALE) at the end, which is never less than crediting that user at
      each of the n >= 1 distributions, and more by at most n - 1. */
  lemma {:induction false} PassiveUserGains(w: World, steps: seq<Step>, id: LedgerId, u: Address)
    requires WorldOk(w) && !w.vault.guard && w.vault.initialized && id in w.vault.pools && NeverAccrues(steps, id, u)
    requires AccountOf(w.vault.pools[id], u).rewardIndex == w.vault.pools[id].rewardIndex
    requires Increments(w, steps, id) != []
    ensures var w' := Run(w, steps);
            var incs := Increments(w, steps, id);
            var balance := Balance(AccountOf(w.vault.pools[id], u));
            && id in w'.vault.pools
            && Balance(AccountOf(w'.vault.pools[id], u)) == balance
            && var gain := Gain(AccountOf(w'.vault.pools[id], u), w'.vault.pools[id].rewardIndex);
            && gain == balance * SumOf(incs) / SCALE
            && EagerGain(balance, incs) <= gain <= EagerGain(balance, incs) + |incs| - 1
  {
    hide WorldOk, Balance;
    UntouchedOverRuns(w, steps, id, u);
    LazyRefinesEager(Balance(AccountOf(w.vault.pools[id], u)), Increments(w, steps, id));
  }

  // ---- Time locks ----

  /** Every lock that has not expired at `t` is listed in `after` at least as often as in `before`. */
  ghost predicate LocksPersist(before: seq<Lock>, after: seq<Lock>, t: int) {
    forall l :: !Expired(l, t) ==> multiset(before)[l] <= multiset(after)[l]
  }

  lemma {:induction false} BatchKeepsLocks(ls: seq<Lock>, now: int, limit: nat, t: int)
    requires now <= t
    ensures LocksPersist(ls, Kept(ls, now, limit), t)
  {
    forall l | !Expired(l, t)
      ensures multiset(ls)[l] <= multiset(Kept(ls, now, limit))[l]
    {
      UnexpiredSurvives(ls, now, limit, l);
    }
  }

  lemma {:induction false} UnlockKeepsLocks(a: Account, now: int, limit: nat, t: int)
    requires now <= t && Unlock(a, now, limit).Ok?
    ensures LocksPersist(a.locks, Unlock(a, now, limit).value.0.locks, t)
  {
    BatchKeepsLocks(a.locks, now, limit, t);
  }

  lemma {:induction false} WithdrawKeepsLocks(p: Pool, u: Address, amount: int, now: int, t: int)
    requires now <= t && Withdraw(p, u, amount, now).Ok?
    ensures LocksPersist(AccountOf(p, u).locks, AccountOf(Withdraw(p, u, amount, now).value, u).locks, t)
  {
    hide Unlock;
    hide LocksPersist;
    UnlockKeepsLocks(Settle(AccountOf(p, u), p.rewardIndex, now).value, now, WITHDRAW_UNLOCK_LIMIT, t);
  }

  lemma {:induction false} AppendKeepsLocks(ls: seq<Lock>, entry: Lock, t: int)
    ensures LocksPersist(ls, ls + [entry], t) && LocksPersist(ls, ls, t)
  {
    assert multiset(ls + [entry]) == multiset(ls) + multiset{entry};
  }

  lemma {:induction false} OwnStepKeepsLocks(v: Vault, p: Pool, q: Pool, id: LedgerId, op: Op, now: int, u: Address,
                                             t: int)
    requires id in v.pools && LedgerStep(v, p, q, id, op, now) && ActsOn(op, id, u) && now <= t
    ensures LocksPersist(AccountOf(p, u).locks, AccountOf(q, u).locks, t)
  {
    hide LocksPersist;
    hide Unlock;
    hide Withdraw;
    var ls := AccountOf(p, u).locks;
    AppendKeepsLocks(ls, Lock(0, 0), t);
    if q != p {
      match op
      case WithdrawFrom(_, _, amount) => WithdrawKeepsLocks(p, u, amount, now, t);
      case UnlockExpiredLocks(_, limit) => UnlockKeepsLocks(AccountOf(p, u), now, limit, t);
      case LockDeposit(_, amount, duration) => AppendKeepsLocks(ls, Lock(amount, now + duration), t);
      case _ =>
    }
  }

  lemma {:induction false} StepKeepsLocks(w: World, s: Step, u: Address, t: int)
    requires WorldOk(w) && !w.vault.guard && w.vault.initialized && Main in w.vault.pools
    requires s.Invoke? ==> s.call.now <= t
    ensures var w' := Next(w, s);
            && w'.vault.initialized && Main in w'.vault.pools
            && LocksPersist(AccountOf(w.vault.pools[Main], u).locks, AccountOf(w'.vault.pools[Main], u).locks, t)
  {
    hide WorldOk, LedgerStep;
    if s.Invoke? && ActsOn(s.call.op, Main, u) {
      TransactionIsLedgerStep(w, s.call, Main);
      StepOk(w, s);
      var w' := Execute(w, s.call);
      OwnStepKeepsLocks(w.vault, w.vault.pools[Main], w'.vault.pools[Main], Main, s.call.op, s.call.now, u, t);
      StaysInitialized(w', Main);
    } else {
      StepKeepsStake(w, s, Main, u);
    }
  }

  predicate ClockAtMost(steps: seq<Step>, t: int) {
    forall s :: s in steps ==> s.Invoke? ==> s.call.now <= t
  }

  lemma {:induction false} RunKeepsLocks(w: World, steps: seq<Step>, u: Address, t: int)
    requires WorldOk(w) && !w.vault.guard && w.vault.initialized && Main in w.vault.pools && ClockAtMost(steps, t)
    ensures var w' := Run(w, steps);
            && Main in w'.vault.pools
            && LocksPersist(AccountOf(w.vault.pools[Main], u).locks, AccountOf(w'.vault.pools[Main], u).locks, t)
    decreases |steps|
  {
    hide WorldOk;
    if steps != [] {
      assert steps[0] in steps;
      StepOk(w, steps[0]);
      StepKeepsLocks(w, steps[0], u, t);
      RunKeepsLocks(Next(w, steps[0]), steps[1..], u, t);
    }
  }

  /** Time-lock safety: whatever happens while the clock is at most `t`, every lock that runs beyond
      `t` is still listed, and the user's balance still covers all of them. */
  lemma {:induction false} LockedFundsStay(w: World, steps: seq<Step>, u: Address, t: int)
    requires WorldOk(w) && !w.vault.guard && w.vault.initialized && Main in w.vault.pools && ClockAtMost(steps, t)
    ensures var w' := Run(w, steps);
            && Main in w'.vault.pools
            && var before := AccountOf(w.vault.pools[Main], u);
            && var after := AccountOf(w'.vault.pools[Main], u);
            && LocksPersist(before.locks, after.locks, t)
            && LockedNow(before.locks, t) <= Balance(after)
            && LockedNow(after.locks, t) <= Balance(after)
  {
    hide WorldOk, Run;
    RunKeepsLocks(w, steps, u, t);
    RunOk(w, steps);
    var before, after := AccountOf(w.vault.pools[Main], u), AccountOf(Run(w, steps).vault.pools[Main], u);
    MainAccountOk(Run(w, steps), u);
    LockedAmountPersists(before.locks, after.locks, t);
    LockedAmountPersists(after.locks, after.locks, t);
  }

  lemma {:induction false} MainAccountOk(w: World, u: Address)
    requires WorldOk(w) && Main in w.vault.pools
    ensures var a := AccountOf(w.vault.pools[Main], u); 0 <= a.liquid && AllPositive(a.locks)
  {
    BalanceWithinTotal(w.vault.pools[Main], u);
  }

  // ---- Callbacks ----

  /** Two worlds that agree on everything the ledgers and the tokens say about `w`'s ledgers. */
  ghost predicate SameOutcome(ids: set<LedgerId>, a: World, b: World) {
    && a.tokens == b.tokens && a.vault.guard == b.vault.guard
    && forall id :: id in ids ==>
         && id in a.vault.pools && id in b.vault.pools && a.vault.pools[id] == b.vault.pools[id]
         && id in a.books && id in b.books && a.books[id] == b.books[id]
  }

  /** What `OnlyAdministration` leaves of a ledger for the rest of a call to see. */
  ghost predicate LedgersKept(w: World, mid: World) {
    && SameOutcome(w.vault.pools.Keys, w, mid)
    && mid.vault.initialized == w.vault.initialized
    && mid.vault.targetDeposits == w.vault.targetDeposits && mid.vault.curve == w.vault.curve
  }

  lemma {:induction false} FinishDepositIgnoresCallbacks(w: World, mid: World, op: Op, now: U64)
    requires op.DepositInto? && op.ledger in w.vault.pools && LedgersKept(w, mid)
    ensures var r := FinishDeposit(w, op.ledger, op.user, op.amount, now);
            var r' := FinishDeposit(mid, op.ledger, op.user, op.amount, now);
            && (r.Ok? <==> r'.Ok?)
            && (r.Ok? ==> r.value.1 == r'.value.1 && SameOutcome(w.vault.pools.Keys, r.value.0, r'.value.0))
  {
    hide Deposit;
  }

  lemma {:induction false} FinishDistributeIgnoresCallbacks(w: World, mid: World, op: Op)
    requires op.DistributeTo? && op.ledger in w.vault.pools && LedgersKept(w, mid)
    ensures var r, r' := FinishDistribute(w, op.ledger, op.amount), FinishDistribute(mid, op.ledger, op.amount);
            && (r.Ok? <==> r'.Ok?)
            && (r.Ok? ==> r.value.1 == r'.value.1 && SameOutcome(w.vault.pools.Keys, r.value.0, r'.value.0))
  {
    assert Effective(w.vault, op.ledger, op.amount) == Effective(mid.vault, op.ledger, op.amount);
    hide Effective;
    hide Distribute;
  }

  lemma {:induction false} FinishIgnoresCallbacks(w: World, mid: World, op: Op, now: U64, value: int)
    requires LedgersKept(w, mid) && (op.DepositInto? || op.DistributeTo? ==> op.ledger in w.vault.pools)
    ensures var r, r' := Finish(w, op, now, value), Finish(mid, op, now, value);
            && (r.Ok? <==> r'.Ok?)
            && (r.Ok? ==> r.value.1 == r'.value.1 && SameOutcome(w.vault.pools.Keys, r.value.0, r'.value.0))
  {
    hide FinishDeposit;
    hide FinishDistribute;
    match op
    case DepositInto(_, _, _) => FinishDepositIgnoresCallbacks(w, mid, op, now);
    case DistributeTo(_, _, _) => FinishDistributeIgnoresCallbacks(w, mid, op);
    case _ =>
  }

  /** For any tree of callbacks, made while a transfer is in progress: each guarded call among them
      fails, and the outer call has the same result, the same ledgers and the same token balances as if
      there had been no callbacks at all. */
  lemma {:induction false} CallbacksAreHarmless(w: World, c: Call)
    requires WorldOk(w) && !w.vault.guard
    ensures var r, r' := Attempt(w, c), Attempt(w, c.(callbacks := []));
            && (r.Ok? <==> r'.Ok?)
            && (r.Ok? ==> r.value.1 == r'.value.1 && SameOutcome(w.vault.pools.Keys, r.value.0, r'.value.0))
    ensures var ph := Begin(w, c.op, c.auth, c.now);
            ph.Ok? && ph.value.Transferring? ==>
              forall k :: 0 <= k < |c.callbacks| && IsGuarded(c.callbacks[k].op) ==>
                Attempt(RunAll(ph.value.world, c.callbacks[..k]), c.callbacks[k]).Err?
  {
    hide WorldOk, OnlyAdministration, Begin, Finish, LedgersKept;
    var begun := Begin(w, c.op, c.auth, c.now);
    if begun.Ok? {
      BeginOk(w, c.op, c.auth, c.now);
      BeginKeepsLedgers(w, c.op, c.auth, c.now);
      if begun.value.Transferring? {
        var inside := begun.value.world;
        CallbacksUnderGuard(inside, c.callbacks);
        CallbacksKeepLedgers(inside, RunAll(inside, c.callbacks));
        assert RunAll(inside, []) == inside;
        FinishIgnoresCallbacks(inside, RunAll(inside, c.callbacks), c.op, c.now, begun.value.value);
        forall k | 0 <= k < |c.callbacks| && IsGuarded(c.callbacks[k].op)
          ensures Attempt(RunAll(inside, c.callbacks[..k]), c.callbacks[k]).Err?
        {
          CallbacksUnderGuard(inside, c.callbacks[..k]);
          GuardStays(inside, RunAll(inside, c.callbacks[..k]));
          GuardedCallFails(RunAll(inside, c.callbacks[..k]), c.callbacks[k]);
        }
      } else {
        SameWorldSameOutcome(w, begun.value.world);
      }
    }
  }

  lemma {:induction false} GuardStays(w: World, w': World)
    requires OnlyAdministration(w, w')
    ensures w'.vault.guard
  {
  }

  lemma {:induction false} CallbacksKeepLedgers(w: World, w': World)
    requires WorldOk(w) && OnlyAdministration(w, w') && w.vault.guard
    ensures LedgersKept(w, w')
  {
  }

  lemma {:induction false} SameWorldSameOutcome(w: World, w': World)
    requires w.vault.pools.Keys <= w'.vault.pools.Keys && WorldOk(w')
    ensures SameOutcome(w.vault.pools.Keys, w', w')
  {
  }

  lemma {:induction false} BeginKeepsLedgers(w: World, op: Op, auth: set<Address>, now: U64)
    requires WorldOk(w)
    ensures var r := Begin(w, op, auth, now); r.Ok? ==> w.vault.pools.Keys <= r.value.world.vault.pools.Keys
  {
    hide WorldOk, Begin, LedgerStep;
    UninitializedIsEmpty(w);
    var r := Begin(w, op, auth, now);
    if r.Ok? {
      forall id | id in w.vault.pools
        ensures id in r.value.world.vault.pools
      {
        BeginIsLedgerStep(w, op, auth, now, id);
      }
    }
  }

  lemma {:induction false} UninitializedIsEmpty(w: World)
    requires WorldOk(w)
    ensures !w.vault.initialized ==> w.vault.pools == map[]
  {
  }
}
