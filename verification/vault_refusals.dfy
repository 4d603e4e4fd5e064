/** Which error a call is refused with, in every reachable world and with any callbacks: the first obstacle in a fixed
    order. */
module VaultRefusals {
  import opened MachineInts
  import opened TimeLocks
  import opened RewardPool
  import opened Solvency
  import opened Utilization
  import opened VaultWorld
  import opened VaultInvariant
  import opened VaultTheorems
  import opened VaultRuns
  import opened VaultEffects

  /** What stops a user before the ledger is looked at, if anything does. */
  function GateError(w: World, c: Call, id: LedgerId, user: Address, amount: int): Option<VaultError> {
    if w.vault.paused then Some(Unauthorized)
    else if !w.vault.initialized then Some(NotInitialized)
    else if amount < 0 then Some(NegativeAmount)
    else if amount == 0 then Some(InvalidAmount)
    else if c.op.LockDeposit? && c.op.duration == 0 then Some(InvalidLockDuration)
    else if user !in c.auth || user == SELF then Some(HostTrap)
    else if c.op.UnlockExpiredLocks? && 50 < c.op.limit then Some(OperationLimitExceeded)
    else if id !in w.vault.pools then Some(InvalidAddress)
    else None
  }

  /** What stops a distribution before tokens move. */
  function DistributionGate(w: World, c: Call): Option<VaultError>
    requires c.op.DistributeTo?
  {
    var v, id, amount := w.vault, c.op.ledger, c.op.amount;
    if !v.initialized then Some(NotInitialized)
    else if amount < 0 then Some(NegativeAmount)
    else if amount == 0 then Some(InvalidAmount)
    else if amount < 100_000 then Some(InsufficientRewardAmount)
    else if id !in v.pools then Some(InvalidAddress)
    else if id.Asset? && c.op.caller != v.admin then Some(Unauthorized)
    else if v.admin !in c.auth || v.admin == SELF then Some(HostTrap)
    else if Held(w.tokens, v.rewardToken, v.admin) < amount then Some(HostTrap)
    else None
  }

  /** What stops the booking of a distribution: a multiplier or an index that leaves its integers, no deposits, or an
      amount too small to raise the index. */
  function BookingError(w: World, id: LedgerId, amount: int): VaultError
    requires id in w.vault.pools
  {
    var p, credited := w.vault.pools[id], Credited(w.vault, id, amount);
    if credited.None? then MathOverflow
    else if p.totalDeposits == 0 then NoDeposits
    else if credited.value * 1_000_000_000 <= I128_MAX && credited.value * 1_000_000_000 < p.totalDeposits then
      ZeroRewardIncrement
    else MathOverflow
  }

  /** The error of a guarded call that is refused. */
  function Obstacle(w: World, c: Call): VaultError
    requires IsGuarded(c.op)
  {
    match c.op
    case DepositInto(id, user, amount) =>
      var gate := GateError(w, c, id, user, amount);
      if gate.Some? then gate.value
      else if Held(w.tokens, TokenOf(w.vault, id), user) < amount then HostTrap
      else MathOverflow
    case WithdrawFrom(id, user, amount) =>
      var gate := GateError(w, c, id, user, amount);
      if gate.Some? then gate.value
      else
        var p := w.vault.pools[id];
        var a := AccountOf(p, user);
        if !AccrualFits(a, p.rewardIndex) then MathOverflow
        else if a.liquid + Amount(Taken(a.locks, c.now, 5)) < amount then InsufficientBalance
        else HostTrap
    case ClaimFrom(id, user) =>
      var gate := GateError(w, c, id, user, 1);
      if gate.Some? then gate.value
      else
        var p := w.vault.pools[id];
        if AccrualFits(AccountOf(p, user), p.rewardIndex) && VestedDue(w, id, user, c.now).Ok? then
          InsufficientContractBalance
        else MathOverflow
    case LockDeposit(user, amount, duration) =>
      var gate := GateError(w, c, Main, user, amount);
      if gate.Some? then gate.value
      else
        var p := w.vault.pools[Main];
        if U64_MAX < c.now + duration || !AccrualFits(AccountOf(p, user), p.rewardIndex) then MathOverflow
        else InsufficientBalance
    case UnlockExpiredLocks(user, _) =>
      var gate := GateError(w, c, Main, user, 1);
      if gate.Some? then gate.value else MathOverflow
    case DistributeTo(id, _, amount) =>
      var gate := DistributionGate(w, c);
      if gate.Some? then gate.value else BookingError(w, id, amount)
  }

  ghost predicate RefusedBy(r: Result<(World, int)>, e: VaultError) { r.Err? ==> r.error == e }

  // ---- Without callbacks ----

  lemma {:induction false} UserGate(w: World, c: Call, id: LedgerId, user: Address, amount: int)
    requires !w.vault.guard && !c.op.LockDeposit? && !c.op.UnlockExpiredLocks?
    ensures var gate, check := GateError(w, c, id, user, amount), CheckUserCall(w.vault, id, user, amount, c.auth);
            check == if gate.Some? then Err(gate.value) else Ok(())
  {
  }

  lemma {:induction false} PlainWithdrawalRefused(w: World, c: Call)
    requires Reachable(w) && c.op.WithdrawFrom? && c.callbacks == []
    ensures RefusedBy(Attempt(w, c), Obstacle(w, c))
  {
    hide Withdraw, AccrualFits, Reachable, WorldOk, Held, GateError, CheckUserCall, Credit;
    ReachableOk(w);
    InTwoParts(w, c);
    var id, user, amount := c.op.ledger, c.op.user, c.op.amount;
    assert Begin(w, c.op, c.auth, c.now) == BeginWithdraw(w, id, user, amount, c.auth, c.now);
    UserGate(w, c, id, user, amount);
    if GateError(w, c, id, user, amount).None? {
      OpenGate(w, c, id, user, amount);
      LedgerOk(w, id);
      WithdrawMeaning(w.vault.pools[id], user, amount, c.now);
    }
  }

  lemma {:induction false} OpenGate(w: World, c: Call, id: LedgerId, user: Address, amount: int)
    requires GateError(w, c, id, user, amount).None?
    ensures 0 < amount && id in w.vault.pools && w.vault.initialized
  {
  }

  lemma {:induction false} PlainDepositRefused(w: World, c: Call)
    requires Reachable(w) && c.op.DepositInto? && c.callbacks == []
    ensures RefusedBy(Attempt(w, c), Obstacle(w, c))
  {
    hide Deposit, AccrualFits, Reachable, WorldOk, Held, GateError, CheckUserCall, Credit;
    ReachableOk(w);
    InTwoParts(w, c);
    var id, user, amount := c.op.ledger, c.op.user, c.op.amount;
    assert Begin(w, c.op, c.auth, c.now) == BeginDeposit(w, id, user, amount, c.auth);
    UserGate(w, c, id, user, amount);
    if GateError(w, c, id, user, amount).None? {
      OpenGate(w, c, id, user, amount);
      LedgerOk(w, id);
      DepositMeaning(w.vault.pools[id], user, amount, c.now);
    }
  }

  lemma {:induction false} PlainClaimRefused(w: World, c: Call)
    requires Reachable(w) && c.op.ClaimFrom? && c.callbacks == []
    ensures RefusedBy(Attempt(w, c), Obstacle(w, c))
  {
    hide Claim, AccrualFits, Reachable, WorldOk, Held, GateError, CheckUserCall, Credit, Vested;
    ReachableOk(w);
    InTwoParts(w, c);
    var id, user := c.op.ledger, c.op.user;
    assert Begin(w, c.op, c.auth, c.now) == BeginClaim(w, id, user, c.auth, c.now);
    UserGate(w, c, id, user, 1);
    if GateError(w, c, id, user, 1).None? {
      OpenGate(w, c, id, user, 1);
      LedgerOk(w, id);
      ClaimMeaning(w.vault.pools[id], user, w.vault.vestingPeriod, c.now);
    }
  }

  lemma {:induction false} PlainLockRefused(w: World, c: Call)
    requires Reachable(w) && c.op.LockDeposit? && c.callbacks == []
    ensures RefusedBy(Attempt(w, c), Obstacle(w, c))
  {
    hide LockFunds, AccrualFits, Reachable, WorldOk;
    ReachableOk(w);
    InTwoParts(w, c);
    var user, amount, duration := c.op.user, c.op.amount, c.op.duration;
    assert Begin(w, c.op, c.auth, c.now) == BeginLock(w, user, amount, duration, c.auth, c.now);
    if Main in w.vault.pools && 0 < amount {
      LedgerOk(w, Main);
      LockMeaning(w.vault.pools[Main], user, amount, duration, c.now);
    }
  }

  lemma {:induction false} PlainUnlockRefused(w: World, c: Call)
    requires Reachable(w) && c.op.UnlockExpiredLocks? && c.callbacks == []
    ensures RefusedBy(Attempt(w, c), Obstacle(w, c))
  {
    hide UnlockExpired, Reachable, WorldOk;
    ReachableOk(w);
    InTwoParts(w, c);
    assert Begin(w, c.op, c.auth, c.now) == BeginUnlock(w, c.op.user, c.op.limit, c.auth, c.now);
    if Main in w.vault.pools {
      LedgerOk(w, Main);
      UnlockExpiredMeaning(w.vault.pools[Main], c.op.user, c.op.limit, c.now);
    }
  }

  lemma {:induction false} EffectiveError(v: Vault, id: LedgerId, amount: I128)
    requires id in v.pools && 0 <= v.pools[id].totalDeposits && Effective(v, id, amount).Err?
    ensures Effective(v, id, amount).error == MathOverflow
  {
    var total := v.pools[id].totalDeposits;
    if 0 < v.targetDeposits && v.curve != [] && total * 10_000 <= I128_MAX {
      var i := MultiplierMeaning(total, v.targetDeposits, v.curve);
    }
  }

  lemma {:induction false} PlainDistributionRefused(w: World, c: Call)
    requires Reachable(w) && c.op.DistributeTo? && c.callbacks == []
    ensures RefusedBy(Attempt(w, c), Obstacle(w, c))
  {
    hide Distribute, Effective, Reachable, WorldOk, Credited, Held, Credit;
    ReachableOk(w);
    InTwoParts(w, c);
    var id, amount := c.op.ledger, c.op.amount;
    assert Begin(w, c.op, c.auth, c.now) == BeginDistribute(w, id, c.op.caller, amount, c.auth);
    if id in w.vault.pools && 100_000 <= amount {
      var p := w.vault.pools[id];
      LedgerOk(w, id);
      DepositsNonNegative(p);
      CreditedMeaning(w.vault, id, amount);
      SameEffective(w, id, amount);
      var effective := Effective(w.vault, id, amount);
      if effective.Ok? {
        DistributeMeaning(p, effective.value);
      } else {
        EffectiveError(w.vault, id, amount);
      }
    }
  }

  lemma {:induction false} PlainRefused(w: World, c: Call)
    requires Reachable(w) && IsGuarded(c.op) && c.callbacks == []
    ensures RefusedBy(Attempt(w, c), Obstacle(w, c))
  {
    hide Attempt, Reachable, Obstacle, RefusedBy;
    match c.op
    case WithdrawFrom(_, _, _) => PlainWithdrawalRefused(w, c);
    case DepositInto(_, _, _) => PlainDepositRefused(w, c);
    case ClaimFrom(_, _) => PlainClaimRefused(w, c);
    case DistributeTo(_, _, _) => PlainDistributionRefused(w, c);
    case LockDeposit(_, _, _) => PlainLockRefused(w, c);
    case UnlockExpiredLocks(_, _) => PlainUnlockRefused(w, c);
  }

  // ---- With callbacks ----

  lemma {:induction false} SameFinishError(w: World, mid: World, op: Op, now: U64, value: int)
    requires LedgersKept(w, mid) && (op.DepositInto? || op.DistributeTo? ==> op.ledger in w.vault.pools)
    ensures var r, r' := Finish(w, op, now, value), Finish(mid, op, now, value);
            r.Err? && r'.Err? ==> r.error == r'.error
  {
    hide Deposit, Distribute, Multiplier, EffectiveAmount;
  }

  lemma {:induction false} PendingLedger(ph: Phase, op: Op)
    requires PhaseOk(ph, op) && ph.Transferring?
    ensures op.DepositInto? || op.DistributeTo? ==> op.ledger in ph.world.vault.pools
  {
  }

  lemma {:induction false} SameError(w: World, c: Call)
    requires Reachable(w) && Attempt(w, c).Err?
    ensures Attempt(w, c) == Attempt(w, c.(callbacks := []))
  {
    hide WorldOk, Begin, Finish, Reachable, OnlyAdministration, LedgersKept, PhaseOk;
    ReachableOk(w);
    WithCallbacks(w, c);
    InTwoParts(w, c.(callbacks := []));
    var begun := Begin(w, c.op, c.auth, c.now);
    if begun.Ok? {
      assert Attempt(w, c) == Complete(begun.value, c);
      BeginOk(w, c.op, c.auth, c.now);
      if begun.value.Transferring? {
        TransferringOk(begun.value, c.op);
        var inside := begun.value.world;
        var mid := RunAll(inside, c.callbacks);
        CallbacksUnderGuard(inside, c.callbacks);
        CallbacksKeepLedgers(inside, mid);
        PendingLedger(begun.value, c.op);
        assert Complete(begun.value, c) == Finish(mid, c.op, c.now, begun.value.value);
        SameFinishError(inside, mid, c.op, c.now, begun.value.value);
      }
    }
  }

  lemma {:induction false} TransferringOk(ph: Phase, op: Op)
    requires PhaseOk(ph, op) && ph.Transferring?
    ensures WorldOk(ph.world) && ph.world.vault.guard && ph.world.vault.initialized
  {
  }

  /** A call that fails, in any reachable world and with any callbacks, fails with the error of the first obstacle. */
  lemma {:induction false} RefusalMeaning(w: World, c: Call)
    requires Reachable(w) && IsGuarded(c.op)
    ensures Attempt(w, c).Err? ==> Attempt(w, c).error == Obstacle(w, c)
  {
    hide Attempt, Reachable;
    if Attempt(w, c).Err? {
      SameError(w, c);
      var plain := c.(callbacks := []);
      PlainRefused(w, plain);
      SameObstacle(w, c);
    }
  }

  /** Callbacks play no part in it. */
  lemma {:induction false} SameObstacle(w: World, c: Call)
    requires IsGuarded(c.op)
    ensures Obstacle(w, c) == Obstacle(w, c.(callbacks := []))
  {
    hide AccrualFits, VestedDue, Amount, Taken, Held, BookingError, AccountOf, TokenOf, GateError, DistributionGate;
    match c.op
    case DepositInto(id, user, amount) => SameGate(w, c, id, user, amount);
    case WithdrawFrom(id, user, amount) => SameGate(w, c, id, user, amount); OpenGateLedger(w, c, id, user, amount);
    case ClaimFrom(id, user) => SameGate(w, c, id, user, 1); OpenGateLedger(w, c, id, user, 1);
    case LockDeposit(user, amount, _) => SameGate(w, c, Main, user, amount); OpenGateLedger(w, c, Main, user, amount);
    case UnlockExpiredLocks(user, _) => SameGate(w, c, Main, user, 1);
    case DistributeTo(_, _, _) => SameDistributionGate(w, c);
  }

  lemma {:induction false} SameGate(w: World, c: Call, id: LedgerId, user: Address, amount: int)
    ensures GateError(w, c, id, user, amount) == GateError(w, c.(callbacks := []), id, user, amount)
  {
  }

  lemma {:induction false} OpenGateLedger(w: World, c: Call, id: LedgerId, user: Address, amount: int)
    ensures GateError(w, c, id, user, amount).None? ==> id in w.vault.pools
  {
  }

  lemma {:induction false} SameDistributionGate(w: World, c: Call)
    requires c.op.DistributeTo?
    ensures DistributionGate(w, c) == DistributionGate(w, c.(callbacks := []))
    ensures DistributionGate(w, c).None? ==> c.op.ledger in w.vault.pools
  {
    hide Held;
  }
}
