/** The invariant of the vault over every run, with every tree of callbacks: each ledger is solvent,
    and the vault's token holdings cover its deposits and the rewards it has received but not paid. */
module VaultInvariant {
  import opened MachineInts
  import opened Totals
  import opened RewardPool
  import opened Solvency
  import opened Utilization
  import opened VaultWorld

  /** Deposits the vault owes in `token`: main deposits, and the deposits of the asset `token`. */
  ghost function DepositLiability(w: World, token: Address): int {
    (if Main in w.vault.pools && token == w.vault.depositToken then w.vault.pools[Main].totalDeposits else 0)
    + (if Asset(token) in w.vault.pools then w.vault.pools[Asset(token)].totalDeposits else 0)
  }

  ghost function Unpaid(books: map<LedgerId, Books>): map<LedgerId, int> {
    map id | id in books :: books[id].received - books[id].claimed
  }

  /** What the vault must hold of `token` beyond its free funds. */
  ghost function Liability(w: World, token: Address): int {
    DepositLiability(w, token)
    + (if w.vault.initialized && token == w.vault.rewardToken then Total(Unpaid(w.books)) else 0)
  }

  ghost function Surplus(w: World, token: Address): int { Held(w.tokens, token, SELF) - Liability(w, token) }

  /** No distribution can meet a multiplier above 1.0x. */
  ghost predicate Funded(v: Vault) { NeverAboveOne(v.targetDeposits, v.curve) }

  ghost predicate LedgersOk(w: World) {
    && w.vault.pools.Keys == w.books.Keys
    && (w.vault.initialized ==> Main in w.vault.pools && w.vault.depositToken != w.vault.rewardToken)
    && (!w.vault.initialized ==> w.vault.pools == map[] && !w.vault.guard)
    && forall id :: id in w.vault.pools ==> Solvent(w.vault.pools[id], w.books[id])
  }

  ghost predicate RewardsFunded(w: World) {
    Funded(w.vault) ==> forall id :: id in w.books ==> w.books[id].effective <= w.books[id].received
  }

  ghost predicate Covered(w: World) { forall token: Address :: 0 <= Surplus(w, token) }

  ghost predicate WorldOk(w: World) { LedgersOk(w) && RewardsFunded(w) && Covered(w) }

  // ---- One ledger changes ----

  lemma {:induction false} UnpaidAfter(w: World, id: LedgerId, b: Books)
    requires id in w.books
    ensures Total(Unpaid(w.books[id := b]))
         == Total(Unpaid(w.books)) + (b.received - b.claimed) - (w.books[id].received - w.books[id].claimed)
  {
    assert Unpaid(w.books[id := b]) == Unpaid(w.books)[id := b.received - b.claimed];
    TotalUpdate(Unpaid(w.books), id, b.received - b.claimed);
  }

  lemma {:induction false} UnpaidAdded(books: map<LedgerId, Books>, id: LedgerId, b: Books)
    requires id !in books && b.received == b.claimed
    ensures Total(Unpaid(books[id := b])) == Total(Unpaid(books))
  {
    assert Unpaid(books[id := b]) == Unpaid(books)[id := 0];
    TotalUpdate(Unpaid(books), id, 0);
  }

  /** Replacing one ledger changes the surplus of its deposit token by the change of its deposits and
      the surplus of the reward token by the change of its unpaid rewards. */
  lemma {:induction false} SurplusAfter(w: World, id: LedgerId, p: Pool, b: Books, tokens: Tokens, token: Address)
    requires LedgersOk(w) && w.vault.initialized && id in w.vault.pools
    ensures Surplus(SetLedger(w, id, p, b).(tokens := tokens), token)
         == Surplus(w, token)
            + (Held(tokens, token, SELF) - Held(w.tokens, token, SELF))
            - (if token == LedgerToken(w.vault, id) then p.totalDeposits - w.vault.pools[id].totalDeposits else 0)
            - (if token == w.vault.rewardToken
               then (b.received - b.claimed) - (w.books[id].received - w.books[id].claimed) else 0)
  {
    hide Solvent;
    UnpaidAfter(w, id, b);
  }

  lemma {:induction false} LedgerReplaced(w: World, id: LedgerId, p: Pool, b: Books, tokens: Tokens, guard: bool)
    requires WorldOk(w) && w.vault.initialized && id in w.vault.pools && Solvent(p, b)
    requires Funded(w.vault) ==> b.effective <= b.received
    requires forall token: Address ::
               0 <= Surplus(SetLedger(w, id, p, b).(tokens := tokens), token)
    ensures WorldOk(SetLedger(w.(vault := w.vault.(guard := guard), tokens := tokens), id, p, b))
  {
    hide Solvent;
    var w' := SetLedger(w.(vault := w.vault.(guard := guard), tokens := tokens), id, p, b);
    forall token: Address
      ensures 0 <= Surplus(w', token)
    {
      assert Surplus(w', token) == Surplus(SetLedger(w, id, p, b).(tokens := tokens), token);
    }
  }

  // ---- Entry points: up to the transfer ----

  /** What a pending transfer leaves to book: funds that have arrived but are not yet credited. */
  ghost predicate Pending(w: World, op: Op) {
    match op
    case DepositInto(id, user, amount) =>
      id in w.vault.pools && 0 < amount && amount <= Surplus(w, LedgerToken(w.vault, id))
    case DistributeTo(id, _, amount) =>
      id in w.vault.pools && MIN_REWARD_DISTRIBUTION <= amount <= Surplus(w, w.vault.rewardToken)
    case _ => true
  }

  ghost predicate PhaseOk(ph: Phase, op: Op) {
    && WorldOk(ph.world)
    && (ph.Done? ==> !ph.world.vault.guard || !IsGuarded(op))
    && (ph.Transferring? ==> ph.world.vault.guard && ph.world.vault.initialized && Pending(ph.world, op))
  }

  lemma {:induction false} IncomingTransfer(w: World, token: Address, from: Address, amount: int)
    requires WorldOk(w) && w.vault.initialized && from != SELF && 0 <= amount
    requires Transfer(w.tokens, token, from, SELF, amount).Ok?
    ensures var w' := Enter(w).(tokens := Transfer(w.tokens, token, from, SELF, amount).value);
            WorldOk(w') && amount <= Surplus(w', token)
  {
    hide Solvent;
    var w' := Enter(w).(tokens := Transfer(w.tokens, token, from, SELF, amount).value);
    forall t: Address
      ensures Surplus(w', t) == Surplus(w, t) + (if t == token then amount else 0)
    {
    }
  }

  lemma {:induction false} BeginDepositOk(w: World, op: Op, auth: set<Address>)
    requires WorldOk(w) && op.DepositInto?
    ensures var r := BeginDeposit(w, op.ledger, op.user, op.amount, auth); r.Ok? ==> PhaseOk(r.value, op)
  {
    if BeginDeposit(w, op.ledger, op.user, op.amount, auth).Ok? {
      IncomingTransfer(w, LedgerToken(w.vault, op.ledger), op.user, op.amount);
    }
  }

  lemma {:induction false} BeginDistributeOk(w: World, op: Op, auth: set<Address>)
    requires WorldOk(w) && op.DistributeTo?
    ensures var r := BeginDistribute(w, op.ledger, op.caller, op.amount, auth); r.Ok? ==> PhaseOk(r.value, op)
  {
    if BeginDistribute(w, op.ledger, op.caller, op.amount, auth).Ok? {
      IncomingTransfer(w, w.vault.rewardToken, w.vault.admin, op.amount);
    }
  }

  lemma {:induction false} BeginWithdrawOk(w: World, op: Op, auth: set<Address>, now: U64)
    requires WorldOk(w) && op.WithdrawFrom?
    ensures var r := BeginWithdraw(w, op.ledger, op.user, op.amount, auth, now); r.Ok? ==> PhaseOk(r.value, op)
  {
    hide Withdraw;
    hide Surplus;
    hide Funded;
    hide Solvent;
    if BeginWithdraw(w, op.ledger, op.user, op.amount, auth, now).Ok? {
      var id := op.ledger;
      var p := Withdraw(w.vault.pools[id], op.user, op.amount, now).value;
      var b := AfterAccrual(w.books[id], w.vault.pools[id], op.user);
      var tokens := Transfer(w.tokens, LedgerToken(w.vault, id), SELF, op.user, op.amount).value;
      WithdrawStep(w.vault.pools[id], w.books[id], op.user, op.amount, now);
      forall token: Address
        ensures Surplus(SetLedger(w, id, p, b).(tokens := tokens), token) == Surplus(w, token)
      {
        SurplusAfter(w, id, p, b, tokens, token);
      }
      LedgerReplaced(w, id, p, b, tokens, true);
    }
  }

  lemma {:induction false} BeginClaimOk(w: World, op: Op, auth: set<Address>, now: U64)
    requires WorldOk(w) && op.ClaimFrom?
    ensures var r := BeginClaim(w, op.ledger, op.user, auth, now); r.Ok? ==> PhaseOk(r.value, op)
  {
    hide Claim;
    hide Surplus;
    hide Funded;
    hide Solvent;
    if BeginClaim(w, op.ledger, op.user, auth, now).Ok? {
      var id := op.ledger;
      var (p, due) := Claim(w.vault.pools[id], op.user, w.vault.vestingPeriod, now).value;
      var b := AfterClaim(w.books[id], w.vault.pools[id], op.user, due);
      ClaimStep(w.vault.pools[id], w.books[id], op.user, w.vault.vestingPeriod, now);
      var tokens := if due <= 0 then w.tokens else Transfer(w.tokens, w.vault.rewardToken, SELF, op.user, due).value;
      forall token: Address
        ensures Surplus(SetLedger(w, id, p, b).(tokens := tokens), token) == Surplus(w, token)
      {
        SurplusAfter(w, id, p, b, tokens, token);
      }
      LedgerReplaced(w, id, p, b, tokens, 0 < due);
    }
  }

  lemma {:induction false} BeginLockOk(w: World, op: Op, auth: set<Address>, now: U64)
    requires WorldOk(w) && op.LockDeposit?
    ensures var r := BeginLock(w, op.user, op.amount, op.duration, auth, now); r.Ok? ==> PhaseOk(r.value, op)
  {
    hide LockFunds;
    hide Surplus;
    hide Funded;
    hide Solvent;
    if BeginLock(w, op.user, op.amount, op.duration, auth, now).Ok? {
      var p := LockFunds(w.vault.pools[Main], op.user, op.amount, op.duration, now).value;
      var b := AfterAccrual(w.books[Main], w.vault.pools[Main], op.user);
      LockStep(w.vault.pools[Main], w.books[Main], op.user, op.amount, op.duration, now);
      forall token: Address
        ensures Surplus(SetLedger(w, Main, p, b).(tokens := w.tokens), token) == Surplus(w, token)
      {
        SurplusAfter(w, Main, p, b, w.tokens, token);
      }
      LedgerReplaced(w, Main, p, b, w.tokens, false);
    }
  }

  lemma {:induction false} BeginUnlockOk(w: World, op: Op, auth: set<Address>, now: U64)
    requires WorldOk(w) && op.UnlockExpiredLocks?
    ensures var r := BeginUnlock(w, op.user, op.limit, auth, now); r.Ok? ==> PhaseOk(r.value, op)
  {
    hide UnlockExpired;
    hide Surplus;
    hide Funded;
    hide Solvent;
    if BeginUnlock(w, op.user, op.limit, auth, now).Ok? {
      var p := UnlockExpired(w.vault.pools[Main], op.user, op.limit, now).value.0;
      UnlockStep(w.vault.pools[Main], w.books[Main], op.user, op.limit, now);
      forall token: Address
        ensures Surplus(SetLedger(w, Main, p, w.books[Main]).(tokens := w.tokens), token) == Surplus(w, token)
      {
        SurplusAfter(w, Main, p, w.books[Main], w.tokens, token);
      }
      LedgerReplaced(w, Main, p, w.books[Main], w.tokens, false);
    }
  }

  /** A change of administration or of the pause flag touches nothing the invariant speaks of. */
  lemma {:induction false} AdminChangeOk(w: World, v: Vault)
    requires WorldOk(w)
    requires v == w.vault.(admin := v.admin, pendingAdmin := v.pendingAdmin, paused := v.paused)
    ensures WorldOk(w.(vault := v))
    ensures forall token: Address :: Surplus(w.(vault := v), token) == Surplus(w, token)
  {
    hide Solvent;
    forall token: Address
      ensures Surplus(w.(vault := v), token) == Surplus(w, token)
    {
    }
  }

  lemma {:induction false} SurplusWithNewLedger(w: World, asset: Address, p: Pool, b: Books, token: Address)
    requires Asset(asset) !in w.vault.pools && Asset(asset) !in w.books
    requires p.totalDeposits == 0 && b.received == b.claimed
    ensures Surplus(SetLedger(w, Asset(asset), p, b), token) == Surplus(w, token)
  {
    UnpaidAdded(w.books, Asset(asset), b);
  }

  lemma {:induction false} LedgerAdded(w: World, asset: Address, p: Pool, b: Books)
    requires WorldOk(w) && w.vault.initialized && Asset(asset) !in w.vault.pools
    requires Solvent(p, b) && p.totalDeposits == 0 && b.effective == b.received == b.claimed
    ensures WorldOk(SetLedger(w, Asset(asset), p, b))
    ensures forall token: Address :: Surplus(SetLedger(w, Asset(asset), p, b), token) == Surplus(w, token)
  {
    hide Solvent;
    forall token: Address
      ensures Surplus(SetLedger(w, Asset(asset), p, b), token) == Surplus(w, token)
    {
      SurplusWithNewLedger(w, asset, p, b, token);
    }
  }

  lemma {:induction false} InitializeOk(w: World, op: Op, auth: set<Address>)
    requires WorldOk(w) && op.Initialize?
    ensures var r := BeginInitialize(w, op, auth); r.Ok? ==> PhaseOk(r.value, op)
  {
    var r := BeginInitialize(w, op, auth);
    if r.Ok? {
      var w' := r.value.world;
      EmptyPoolSolvent();
      assert Unpaid(w'.books) == map[][Main := 0];
      TotalUpdate(map[], Main, 0);
      forall token: Address
        ensures 0 <= Surplus(w', token)
      {
        assert 0 <= Surplus(w, token);
      }
    }
  }

  lemma {:induction false} BeginOk(w: World, op: Op, auth: set<Address>, now: U64)
    requires WorldOk(w)
    ensures var r := Begin(w, op, auth, now); r.Ok? ==> PhaseOk(r.value, op)
  {
    hide WorldOk;
    match op
    case Initialize(_, _, _, _, _, _) => InitializeOk(w, op, auth);
    case ProposeNewAdmin(newAdmin) => AdminChangeOk(w, w.vault.(pendingAdmin := Some(newAdmin)));
    case AcceptAdmin(newAdmin) => AdminChangeOk(w, w.vault.(admin := newAdmin, pendingAdmin := None));
    case SetPaused(paused) => AdminChangeOk(w, w.vault.(paused := paused));
    case AddAsset(caller, asset) =>
      if w.vault.initialized && Asset(asset) !in w.vault.pools {
        EmptyPoolSolvent();
        LedgerAdded(w, asset, Pool(0, 0, map[]), NEW_BOOKS);
      }
    case DepositInto(_, _, _) => BeginDepositOk(w, op, auth);
    case WithdrawFrom(_, _, _) => BeginWithdrawOk(w, op, auth, now);
    case DistributeTo(_, _, _) => BeginDistributeOk(w, op, auth);
    case ClaimFrom(_, _) => BeginClaimOk(w, op, auth, now);
    case LockDeposit(_, _, _) => BeginLockOk(w, op, auth, now);
    case UnlockExpiredLocks(_, _) => BeginUnlockOk(w, op, auth, now);
  }

  // ---- Callbacks ----

  /** What calls made back from inside a transfer can do at most: change the administration, pause,
      and add empty ledgers. */
  ghost predicate OnlyAdministration(w: World, w': World) {
    && w'.vault.guard && w'.vault.initialized
    && w'.tokens == w.tokens
    && w'.vault == w.vault.(admin := w'.vault.admin, pendingAdmin := w'.vault.pendingAdmin,
                            paused := w'.vault.paused, pools := w'.vault.pools)
    && (forall id :: id in w.vault.pools ==> id in w'.vault.pools && w'.vault.pools[id] == w.vault.pools[id])
    && (forall id :: id in w.books ==> id in w'.books && w'.books[id] == w.books[id])
    && (forall id :: id in w'.vault.pools && id !in w.vault.pools ==>
          id.Asset? && w'.vault.pools[id] == Pool(0, 0, map[]))
    && (forall token: Address :: Surplus(w', token) == Surplus(w, token))
  }

  lemma {:induction false} GuardedBeginFails(w: World, op: Op, auth: set<Address>, now: U64)
    requires w.vault.guard && IsGuarded(op)
    ensures Begin(w, op, auth, now).Err?
  {
  }

  /** While the guard is set, every guarded entry point fails, whatever callbacks it would make. */
  lemma {:induction false} GuardedCallFails(w: World, c: Call)
    requires w.vault.guard && IsGuarded(c.op)
    ensures Attempt(w, c).Err? && Execute(w, c) == w
  {
    GuardedBeginFails(w, c.op, c.auth, c.now);
  }

  lemma {:induction false} AdministrationOnly(w: World, v: Vault)
    requires WorldOk(w) && w.vault.guard && w.vault.initialized
    requires v == w.vault.(admin := v.admin, pendingAdmin := v.pendingAdmin, paused := v.paused)
    ensures WorldOk(w.(vault := v)) && OnlyAdministration(w, w.(vault := v))
  {
    AdminChangeOk(w, v);
  }

  lemma {:induction false} AssetAddedOnly(w: World, asset: Address)
    requires WorldOk(w) && w.vault.guard && w.vault.initialized && Asset(asset) !in w.vault.pools
    ensures var w' := SetLedger(w, Asset(asset), Pool(0, 0, map[]), NEW_BOOKS);
            WorldOk(w') && OnlyAdministration(w, w')
  {
    EmptyPoolSolvent();
    LedgerAdded(w, asset, Pool(0, 0, map[]), NEW_BOOKS);
  }

  /** While the guard is set no call reaches a transfer, so nested callbacks never run. */
  lemma {:induction false} BeginUnderGuard(w: World, op: Op, auth: set<Address>, now: U64)
    requires WorldOk(w) && w.vault.guard && w.vault.initialized
    ensures var r := Begin(w, op, auth, now);
            r.Ok? ==> r.value.Done? && WorldOk(r.value.world) && OnlyAdministration(w, r.value.world)
  {
    hide WorldOk;
    hide OnlyAdministration;
    if IsGuarded(op) {
      GuardedBeginFails(w, op, auth, now);
      return;
    }
    match op
    case ProposeNewAdmin(newAdmin) => AdministrationOnly(w, w.vault.(pendingAdmin := Some(newAdmin)));
    case AcceptAdmin(newAdmin) => AdministrationOnly(w, w.vault.(admin := newAdmin, pendingAdmin := None));
    case SetPaused(paused) => AdministrationOnly(w, w.vault.(paused := paused));
    case AddAsset(_, asset) =>
      if Asset(asset) !in w.vault.pools {
        AssetAddedOnly(w, asset);
      } else {
        AdministrationOnly(w, w.vault);
      }
    case _ =>
  }

  lemma {:induction false} CallUnderGuard(w: World, c: Call)
    requires WorldOk(w) && w.vault.guard && w.vault.initialized
    ensures WorldOk(Execute(w, c)) && OnlyAdministration(w, Execute(w, c))
  {
    hide WorldOk;
    hide OnlyAdministration;
    BeginUnderGuard(w, c.op, c.auth, c.now);
    AdministrationOnly(w, w.vault);
    assert w.(vault := w.vault) == w;
    var r := Begin(w, c.op, c.auth, c.now);
    if r.Ok? {
      assert Complete(r.value, c) == Ok((r.value.world, r.value.value));
      assert Execute(w, c) == r.value.world;
    }
  }

  lemma {:induction false} OnlyAdministrationTransitive(w: World, w1: World, w2: World)
    requires OnlyAdministration(w, w1) && OnlyAdministration(w1, w2)
    ensures OnlyAdministration(w, w2)
  {
  }

  lemma {:induction false} CallbacksUnderGuard(w: World, cs: seq<Call>)
    requires WorldOk(w) && w.vault.guard && w.vault.initialized
    ensures WorldOk(RunAll(w, cs)) && OnlyAdministration(w, RunAll(w, cs))
    decreases |cs|
  {
    hide WorldOk;
    if cs == [] {
      AdministrationOnly(w, w.vault);
    } else {
      var w1 := Execute(w, cs[0]);
      CallUnderGuard(w, cs[0]);
      CallbacksUnderGuard(w1, cs[1..]);
      OnlyAdministrationTransitive(w, w1, RunAll(w1, cs[1..]));
    }
  }

  // ---- Entry points: after the transfer ----

  lemma {:induction false} FinishDepositOk(w: World, op: Op, now: U64)
    requires WorldOk(w) && w.vault.initialized && op.DepositInto? && Pending(w, op)
    ensures var r := FinishDeposit(w, op.ledger, op.user, op.amount, now);
            r.Ok? ==> WorldOk(r.value.0) && !r.value.0.vault.guard
  {
    hide Deposit;
    hide Surplus;
    hide Funded;
    hide Solvent;
    var id := op.ledger;
    if FinishDeposit(w, id, op.user, op.amount, now).Ok? {
      var p := Deposit(w.vault.pools[id], op.user, op.amount, now).value;
      var b := AfterAccrual(w.books[id], w.vault.pools[id], op.user);
      DepositStep(w.vault.pools[id], w.books[id], op.user, op.amount, now);
      forall token: Address
        ensures 0 <= Surplus(SetLedger(w, id, p, b).(tokens := w.tokens), token)
      {
        SurplusAfter(w, id, p, b, w.tokens, token);
      }
      LedgerReplaced(w, id, p, b, w.tokens, false);
    }
  }

  lemma {:induction false} MultiplierBounds(totalDeposits: int, targetDeposits: int, curve: seq<MultiplierPoint>)
    requires Multiplier(totalDeposits, targetDeposits, curve).Ok?
    ensures 0 <= Multiplier(totalDeposits, targetDeposits, curve).value < U32_SIZE
  {
    if 0 < targetDeposits && curve != [] {
      var scaled := CheckedMul(totalDeposits, BPS).value;
      SelectInCurve(curve, AsU32(CheckedDiv(scaled, targetDeposits).value));
    }
  }

  /** The credited amount is never negative, and never above what was paid in if and only if the
      multiplier at the present total is at most 1.0x. */
  lemma {:induction false} EffectiveFunded(v: Vault, id: LedgerId, amount: I128)
    requires id in v.pools && MIN_REWARD_DISTRIBUTION <= amount && Effective(v, id, amount).Ok?
    ensures var e := Effective(v, id, amount).value;
            && 0 <= e
            && (id.Main? ==>
                  (e <= amount <==> Multiplier(v.pools[id].totalDeposits, v.targetDeposits, v.curve).value <= BPS))
            && (id.Asset? ==> e == amount)
            && (Funded(v) && 0 < v.pools[id].totalDeposits <= I128_MAX ==> e <= amount)
  {
    if id.Main? {
      var multiplier := Multiplier(v.pools[id].totalDeposits, v.targetDeposits, v.curve);
      MultiplierBounds(v.pools[id].totalDeposits, v.targetDeposits, v.curve);
      assert FitsI128(amount);
      EffectiveAmountMeaning(amount, multiplier.value);
    }
  }

  lemma {:induction false} DistributeNeedsDeposits(p: Pool, b: Books, effective: int)
    requires Solvent(p, b) && Distribute(p, effective).Ok?
    ensures 0 < p.totalDeposits <= I128_MAX
  {
  }

  lemma {:induction false} FinishDistributeOk(w: World, op: Op)
    requires WorldOk(w) && w.vault.initialized && op.DistributeTo? && Pending(w, op)
    ensures var r := FinishDistribute(w, op.ledger, op.amount);
            r.Ok? ==> WorldOk(r.value.0) && !r.value.0.vault.guard
  {
    hide Effective;
    hide Distribute;
    hide Surplus;
    hide Funded;
    hide Solvent;
    var id := op.ledger;
    if FinishDistribute(w, id, op.amount).Ok? {
      var effective := Effective(w.vault, id, op.amount).value;
      EffectiveFunded(w.vault, id, op.amount);
      DistributeNeedsDeposits(w.vault.pools[id], w.books[id], effective);
      var p := Distribute(w.vault.pools[id], effective).value;
      var b := AfterDistribution(w.books[id], effective, op.amount, w.vault.pools[id].totalDeposits);
      DistributeStep(w.vault.pools[id], w.books[id], effective, op.amount);
      forall token: Address
        ensures 0 <= Surplus(SetLedger(w, id, p, b).(tokens := w.tokens), token)
      {
        SurplusAfter(w, id, p, b, w.tokens, token);
      }
      LedgerReplaced(w, id, p, b, w.tokens, false);
    }
  }

  lemma {:induction false} ExitOk(w: World)
    requires WorldOk(w) && w.vault.initialized
    ensures WorldOk(Exit(w)) && !Exit(w).vault.guard
  {
    hide Solvent;
    forall token: Address
      ensures Surplus(Exit(w), token) == Surplus(w, token)
    {
    }
  }

  lemma {:induction false} FinishOk(w: World, op: Op, now: U64, value: int)
    requires WorldOk(w) && w.vault.initialized && Pending(w, op)
    ensures var r := Finish(w, op, now, value); r.Ok? ==> WorldOk(r.value.0) && !r.value.0.vault.guard
  {
    hide WorldOk;
    match op
    case DepositInto(_, _, _) => FinishDepositOk(w, op, now);
    case DistributeTo(_, _, _) => FinishDistributeOk(w, op);
    case _ => ExitOk(w);
  }

  lemma {:induction false} CompleteOk(ph: Phase, c: Call)
    requires PhaseOk(ph, c.op)
    ensures var r := Complete(ph, c);
            r.Ok? ==> WorldOk(r.value.0) && (r.value.0.vault.guard ==> ph.Done? && ph.world.vault.guard)
  {
    hide WorldOk;
    if ph.Transferring? {
      CallbacksUnderGuard(ph.world, c.callbacks);
      FinishOk(RunAll(ph.world, c.callbacks), c.op, c.now, ph.value);
    }
  }

  lemma {:induction false} UnguardedKeepsGuard(w: World, op: Op, auth: set<Address>, now: U64)
    requires !IsGuarded(op) && !w.vault.guard
    ensures var r := Begin(w, op, auth, now); r.Ok? ==> !r.value.world.vault.guard
  {
  }

  /** One transaction with any tree of callbacks keeps the invariant and leaves the guard open. */
  lemma {:induction false} TransactionOk(w: World, c: Call)
    requires WorldOk(w) && !w.vault.guard
    ensures WorldOk(Execute(w, c)) && !Execute(w, c).vault.guard
  {
    hide WorldOk;
    var r := Begin(w, c.op, c.auth, c.now);
    BeginOk(w, c.op, c.auth, c.now);
    if !IsGuarded(c.op) {
      UnguardedKeepsGuard(w, c.op, c.auth, c.now);
    }
    if r.Ok? {
      CompleteOk(r.value, c);
    }
  }

  lemma {:induction false} TokenActivityOk(w: World, s: Step)
    requires WorldOk(w) && !s.Invoke?
    ensures WorldOk(Next(w, s)) && Next(w, s).vault == w.vault
  {
    hide Solvent;
    forall token: Address
      ensures Surplus(w, token) <= Surplus(Next(w, s), token)
    {
    }
  }

  lemma {:induction false} StepOk(w: World, s: Step)
    requires WorldOk(w) && !w.vault.guard
    ensures WorldOk(Next(w, s)) && !Next(w, s).vault.guard
  {
    hide WorldOk;
    match s
    case Invoke(c) => TransactionOk(w, c);
    case _ => TokenActivityOk(w, s);
  }

  /** The invariant holds in every reachable world: after any sequence of calls by anyone, with any
      callbacks, interleaved with any other token activity. */
  lemma {:induction false} RunOk(w: World, steps: seq<Step>)
    requires WorldOk(w) && !w.vault.guard
    ensures WorldOk(Run(w, steps)) && !Run(w, steps).vault.guard
    decreases |steps|
  {
    hide WorldOk;
    if steps != [] {
      StepOk(w, steps[0]);
      RunOk(Next(w, steps[0]), steps[1..]);
    }
  }

  lemma {:induction false} GenesisOk(tokens: Tokens)
    requires forall token: Address :: 0 <= Held(tokens, token, SELF)
    ensures WorldOk(Genesis(tokens)) && !Genesis(tokens).vault.guard
  {
    forall token: Address
      ensures 0 <= Surplus(Genesis(tokens), token)
    {
    }
  }
}
