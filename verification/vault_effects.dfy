/** What every call comes to, in every reachable world and with any callbacks: exactly when it succeeds, who pays
    whom, and what becomes of the ledger. */
module VaultEffects {
  import opened MachineInts
  import opened TimeLocks
  import opened RewardPool
  import opened Solvency
  import opened Utilization
  import opened VaultWorld
  import opened VaultInvariant
  import opened VaultTheorems
  import opened VaultRuns
  import opened VaultCalls

  /** `amount` of `token` went from `from` to `to`, and no other holding of any token changed. */
  ghost predicate Moved(before: Tokens, after: Tokens, token: Address, from: Address, to: Address, amount: int) {
    forall t: Address, h: Address ::
      Held(after, t, h) == Held(before, t, h) + (if t == token && h == to then amount else 0)
                                              - (if t == token && h == from then amount else 0)
  }

  /** Ledger `id` has become `q`, and the other ledgers are as they were. */
  ghost predicate OnlyLedger(w: World, w': World, id: LedgerId, q: Pool) {
    forall i :: i in w.vault.pools ==>
      i in w'.vault.pools && w'.vault.pools[i] == if i == id then q else w.vault.pools[i]
  }

  /** The vault is open for `user` on ledger `id`, and `user` has signed the call. */
  predicate MayAct(w: World, c: Call, id: LedgerId, user: Address) {
    w.vault.initialized && !w.vault.paused && id in w.vault.pools && user in c.auth && user != SELF
  }

  /** The token a ledger takes deposits in. */
  function TokenOf(v: Vault, id: LedgerId): Address {
    match id
    case Main => v.depositToken
    case Asset(asset) => asset
  }

  // ---- Without callbacks, and with them ----

  lemma {:induction false} TransferMoves(tokens: Tokens, token: Address, from: Address, to: Address, amount: int)
    ensures var r := Transfer(tokens, token, from, to, amount);
            && (r.Ok? <==> amount <= Held(tokens, token, from))
            && (r.Ok? ==> Moved(tokens, r.value, token, from, to, amount))
  {
  }

  lemma {:induction false} NothingMoves(tokens: Tokens, token: Address, from: Address, to: Address)
    ensures Moved(tokens, tokens, token, from, to, 0)
  {
  }

  /** Two results that agree on the tokens, on the ledgers of `w` with their books, and on the value. */
  ghost predicate Agree(w: World, r: Result<(World, int)>, r': Result<(World, int)>) {
    && (r.Ok? <==> r'.Ok?)
    && (r.Ok? ==>
          && r.value.1 == r'.value.1 && r.value.0.tokens == r'.value.0.tokens
          && forall id :: id in w.vault.pools ==>
               && id in r.value.0.vault.pools && id in r'.value.0.vault.pools
               && r.value.0.vault.pools[id] == r'.value.0.vault.pools[id]
               && BooksOf(r.value.0, id) == BooksOf(r'.value.0, id))
  }

  /** The call has this outcome whatever callbacks it carries. */
  lemma {:induction false} WithCallbacks(w: World, c: Call)
    requires Reachable(w)
    ensures Agree(w, Attempt(w, c), Attempt(w, c.(callbacks := [])))
  {
    hide WorldOk, Attempt;
    ReachableOk(w);
    CallbacksAreHarmless(w, c);
  }

  /** A call without callbacks, from its two parts. */
  lemma {:induction false} InTwoParts(w: World, c: Call)
    requires c.callbacks == []
    ensures var begun := Begin(w, c.op, c.auth, c.now);
            Attempt(w, c) ==
              if begun.Err? then Err(begun.error)
              else if begun.value.Done? then Ok((begun.value.world, begun.value.value))
              else Finish(begun.value.world, c.op, c.now, begun.value.value)
  {
    hide Begin, Finish;
    if Begin(w, c.op, c.auth, c.now).Ok? {
      CallDone(w, c);
    }
  }

  lemma {:induction false} LedgerOk(w: World, id: LedgerId)
    requires Reachable(w) && id in w.vault.pools
    ensures PoolOk(w.vault.pools[id])
  {
    ReachableOk(w);
  }

  // ---- What each call comes to ----

  ghost predicate WithdrawalFits(w: World, id: LedgerId, user: Address, amount: int, now: int)
    requires id in w.vault.pools
  {
    var p := w.vault.pools[id];
    var a := AccountOf(p, user);
    && AccrualFits(a, p.rewardIndex)
    && 0 < amount <= a.liquid + Amount(Taken(a.locks, now, 5))
    && amount <= Held(w.tokens, TokenOf(w.vault, id), SELF)
  }

  /** A withdrawal succeeds if and only if the vault is open, the user signed, the accrual fits, and the amount is
      covered by the liquid balance with the first five expired locks and by the vault's tokens. Then the user, and
      nobody else, receives it from the vault, and that user's account alone is charged. */
  ghost predicate Withdraws(w: World, c: Call, r: Result<(World, int)>)
    requires c.op.WithdrawFrom?
  {
    var id, user, amount := c.op.ledger, c.op.user, c.op.amount;
    && (r.Ok? <==> MayAct(w, c, id, user) && WithdrawalFits(w, id, user, amount, c.now))
    && (r.Ok? ==>
          var p := w.vault.pools[id];
          var a := AccountOf(p, user);
          && r.value.1 == 0
          && Moved(w.tokens, r.value.0.tokens, TokenOf(w.vault, id), SELF, user, amount)
          && OnlyLedger(w, r.value.0, id,
               Put(p, user,
                   Settled(a, p.rewardIndex, c.now).(
                     liquid := a.liquid + Amount(Taken(a.locks, c.now, 5)) - amount,
                     locks := Kept(a.locks, c.now, 5)),
                   p.totalDeposits - amount)))
  }

  ghost predicate DepositFits(w: World, id: LedgerId, user: Address, amount: int)
    requires id in w.vault.pools
  {
    var p := w.vault.pools[id];
    && AccrualFits(AccountOf(p, user), p.rewardIndex)
    && 0 < amount <= Held(w.tokens, TokenOf(w.vault, id), user)
    && p.totalDeposits + amount <= I128_MAX
  }

  /** A deposit moves the amount from the user to the vault and adds it to that user's liquid balance. */
  ghost predicate Deposits(w: World, c: Call, r: Result<(World, int)>)
    requires c.op.DepositInto?
  {
    var id, user, amount := c.op.ledger, c.op.user, c.op.amount;
    && (r.Ok? <==> MayAct(w, c, id, user) && DepositFits(w, id, user, amount))
    && (r.Ok? ==>
          var p := w.vault.pools[id];
          var a := AccountOf(p, user);
          && r.value.1 == 0
          && Moved(w.tokens, r.value.0.tokens, TokenOf(w.vault, id), user, SELF, amount)
          && OnlyLedger(w, r.value.0, id,
               Put(p, user, Settled(a, p.rewardIndex, c.now).(liquid := a.liquid + amount), p.totalDeposits + amount)))
  }

  /** What is vested for the user once the rewards are settled. */
  function VestedDue(w: World, id: LedgerId, user: Address, now: int): Result<int>
    requires id in w.vault.pools
  {
    var p := w.vault.pools[id];
    var s := Settled(AccountOf(p, user), p.rewardIndex, now);
    Vested(now, s.accrued, s.lastReward, w.vault.vestingPeriod)
  }

  ghost predicate ClaimFits(w: World, id: LedgerId, user: Address, now: int)
    requires id in w.vault.pools
  {
    var p := w.vault.pools[id];
    && AccrualFits(AccountOf(p, user), p.rewardIndex)
    && VestedDue(w, id, user, now).Ok?
    && var due := VestedDue(w, id, user, now).value;
    due == 0 || due <= Held(w.tokens, w.vault.rewardToken, SELF)
  }

  /** A claim on any ledger pays what is vested, in the reward token, to the user who asks. */
  ghost predicate Claims(w: World, c: Call, r: Result<(World, int)>)
    requires c.op.ClaimFrom?
  {
    var id, user := c.op.ledger, c.op.user;
    && (r.Ok? <==> MayAct(w, c, id, user) && ClaimFits(w, id, user, c.now))
    && (r.Ok? ==>
          var p := w.vault.pools[id];
          var s := Settled(AccountOf(p, user), p.rewardIndex, c.now);
          var due := VestedDue(w, id, user, c.now).value;
          && r.value.1 == due
          && Moved(w.tokens, r.value.0.tokens, w.vault.rewardToken, SELF, user, due)
          && OnlyLedger(w, r.value.0, id, Put(p, user, s.(accrued := s.accrued - due), p.totalDeposits)))
  }

  /** What a distribution credits: all of it on an asset ledger, and on the main ledger the multiplied amount. */
  function Credited(v: Vault, id: LedgerId, amount: int): Option<int>
    requires id in v.pools
  {
    if id.Asset? then Some(amount)
    else
      var m := Multiplier(v.pools[id].totalDeposits, v.targetDeposits, v.curve);
      if m.Ok? && amount * m.value < U128_SIZE then Some(amount * m.value / 10_000) else None
  }

  ghost predicate DistributionFits(w: World, id: LedgerId, amount: int)
    requires id in w.vault.pools
  {
    var p, credited := w.vault.pools[id], Credited(w.vault, id, amount);
    && 100_000 <= amount <= Held(w.tokens, w.vault.rewardToken, w.vault.admin)
    && credited.Some? && 0 < p.totalDeposits <= credited.value * 1_000_000_000 <= I128_MAX
    && p.rewardIndex + credited.value * 1_000_000_000 / p.totalDeposits <= I128_MAX
  }

  /** A distribution, paused or not, takes reward tokens from the admin, who has to sign, and raises the index; no
      account is touched. */
  ghost predicate Distributes(w: World, c: Call, r: Result<(World, int)>)
    requires c.op.DistributeTo?
  {
    var id, amount := c.op.ledger, c.op.amount;
    && (r.Ok? <==>
          && w.vault.initialized && id in w.vault.pools && w.vault.admin in c.auth && w.vault.admin != SELF
          && (id.Asset? ==> c.op.caller == w.vault.admin)
          && DistributionFits(w, id, amount))
    && (r.Ok? ==>
          var p := w.vault.pools[id];
          var index := p.rewardIndex + Credited(w.vault, id, amount).value * 1_000_000_000 / p.totalDeposits;
          && r.value.1 == index
          && Moved(w.tokens, r.value.0.tokens, w.vault.rewardToken, w.vault.admin, SELF, amount)
          && OnlyLedger(w, r.value.0, id, p.(rewardIndex := index)))
  }

  /** Locking turns liquid balance into one lock that runs for the whole duration. */
  ghost predicate Locks(w: World, c: Call, r: Result<(World, int)>)
    requires c.op.LockDeposit?
  {
    var user, amount, end := c.op.user, c.op.amount, c.now + c.op.duration;
    && (r.Ok? <==>
          && MayAct(w, c, Main, user)
          && var p := w.vault.pools[Main];
          && AccrualFits(AccountOf(p, user), p.rewardIndex)
          && 0 < amount <= AccountOf(p, user).liquid && 0 < c.op.duration && end <= U64_MAX)
    && (r.Ok? ==>
          var p := w.vault.pools[Main];
          var a := AccountOf(p, user);
          && r.value.1 == 0 && r.value.0.tokens == w.tokens
          && OnlyLedger(w, r.value.0, Main,
               Put(p, user,
                   Settled(a, p.rewardIndex, c.now).(
                     liquid := a.liquid - amount,
                     locks := a.locks + [Lock(amount, end)]),
                   p.totalDeposits)))
  }

  /** Unlocking makes the first expired locks of the user liquid, as many as asked for and at most fifty. */
  ghost predicate Unlocks(w: World, c: Call, r: Result<(World, int)>)
    requires c.op.UnlockExpiredLocks?
  {
    var user, limit := c.op.user, c.op.limit;
    && (r.Ok? <==> MayAct(w, c, Main, user) && limit <= 50)
    && (r.Ok? ==>
          var p := w.vault.pools[Main];
          var a := AccountOf(p, user);
          && Main in r.value.0.vault.pools
          && var q := r.value.0.vault.pools[Main];
          && r.value.1 == Amount(Taken(a.locks, c.now, limit)) && r.value.0.tokens == w.tokens
          && OnlyLedger(w, r.value.0, Main, p.(accounts := q.accounts))
          && AccountOf(q, user)
             == a.(liquid := a.liquid + Amount(Taken(a.locks, c.now, limit)), locks := Kept(a.locks, c.now, limit))
          && forall other :: other != user ==> AccountOf(q, other) == AccountOf(p, other))
  }

  /** The admin of an initialised vault has signed. */
  predicate ByAdmin(w: World, c: Call) { w.vault.initialized && w.vault.admin in c.auth && w.vault.admin != SELF }

  /** Administration changes what it names and nothing else; the admin changes only when the one who was proposed
      accepts. */
  ghost predicate Administers(w: World, c: Call, r: Result<(World, int)>)
    requires !IsGuarded(c.op)
  {
    var v := w.vault;
    match c.op
    case Initialize(admin, depositToken, rewardToken, vestingPeriod, target, curve) =>
      && (r.Ok? <==>
            && !v.initialized && !v.paused && admin in c.auth && admin != SELF && depositToken != rewardToken
            && forall i, j :: 0 <= i < j < |curve| ==> curve[i].utilizationBps <= curve[j].utilizationBps)
      && (r.Ok? ==>
            && r.value.0.tokens == w.tokens
            && r.value.0.vault == Vault(true, admin, None, depositToken, rewardToken, vestingPeriod, target, curve,
                                        false, false, map[Main := Pool(0, 0, map[])]))
    case ProposeNewAdmin(newAdmin) =>
      && (r.Ok? <==> ByAdmin(w, c))
      && (r.Ok? ==> r.value.0 == w.(vault := v.(pendingAdmin := Some(newAdmin))))
    case AcceptAdmin(newAdmin) =>
      && (r.Ok? <==> v.initialized && v.pendingAdmin == Some(newAdmin) && newAdmin in c.auth && newAdmin != SELF)
      && (r.Ok? ==> r.value.0 == w.(vault := v.(admin := newAdmin, pendingAdmin := None)))
    case SetPaused(paused) =>
      && (r.Ok? <==> ByAdmin(w, c))
      && (r.Ok? ==> r.value.0 == w.(vault := v.(paused := paused)))
    case AddAsset(caller, asset) =>
      && (r.Ok? <==> ByAdmin(w, c) && caller == v.admin)
      && (r.Ok? ==>
            && r.value.0.tokens == w.tokens
            && r.value.0.vault == v.(pools := if Asset(asset) in v.pools then v.pools
                                              else v.pools[Asset(asset) := Pool(0, 0, map[])]))
  }

  ghost predicate ComesTo(w: World, c: Call, r: Result<(World, int)>) {
    match c.op
    case WithdrawFrom(_, _, _) => Withdraws(w, c, r)
    case DepositInto(_, _, _) => Deposits(w, c, r)
    case ClaimFrom(_, _) => Claims(w, c, r)
    case DistributeTo(_, _, _) => Distributes(w, c, r)
    case LockDeposit(_, _, _) => Locks(w, c, r)
    case UnlockExpiredLocks(_, _) => Unlocks(w, c, r)
    case _ => Administers(w, c, r)
  }

  // ---- Without callbacks ----

  lemma {:induction false} PlainWithdrawal(w: World, c: Call)
    requires Reachable(w) && c.op.WithdrawFrom? && c.callbacks == []
    ensures Withdraws(w, c, Attempt(w, c))
  {
    hide Withdraw, Transfer, AccrualFits, Settled, Reachable, WorldOk, Moved, Held;
    ReachableOk(w);
    InTwoParts(w, c);
    var id, user, amount := c.op.ledger, c.op.user, c.op.amount;
    assert Begin(w, c.op, c.auth, c.now) == BeginWithdraw(w, id, user, amount, c.auth, c.now);
    TransferMoves(w.tokens, TokenOf(w.vault, id), SELF, user, amount);
    if id in w.vault.pools && 0 < amount {
      LedgerOk(w, id);
      WithdrawMeaning(w.vault.pools[id], user, amount, c.now);
    }
  }

  lemma {:induction false} BookedOnly(w: World, w1: World, id: LedgerId, q: Pool, b: Books)
    requires w1.vault.pools == w.vault.pools
    ensures OnlyLedger(w, SetLedger(w1, id, q, b), id, q) && OnlyLedger(w, Exit(SetLedger(w1, id, q, b)), id, q)
  {
  }

  lemma {:induction false} PlainDeposit(w: World, c: Call)
    requires Reachable(w) && c.op.DepositInto? && c.callbacks == []
    ensures Deposits(w, c, Attempt(w, c))
  {
    hide Deposit, Transfer, AccrualFits, Settled, Reachable, WorldOk, Moved, Held, OnlyLedger, Put;
    ReachableOk(w);
    InTwoParts(w, c);
    var id, user, amount := c.op.ledger, c.op.user, c.op.amount;
    assert Begin(w, c.op, c.auth, c.now) == BeginDeposit(w, id, user, amount, c.auth);
    var sent := Transfer(w.tokens, TokenOf(w.vault, id), user, SELF, amount);
    TransferMoves(w.tokens, TokenOf(w.vault, id), user, SELF, amount);
    if MayAct(w, c, id, user) && 0 < amount && sent.Ok? {
      var p := w.vault.pools[id];
      LedgerOk(w, id);
      DepositMeaning(p, user, amount, c.now);
      var inside := Enter(w).(tokens := sent.value);
      assert Attempt(w, c) == FinishDeposit(inside, id, user, amount, c.now);
      if Deposit(p, user, amount, c.now).Ok? {
        BookedOnly(w, inside, id, Deposit(p, user, amount, c.now).value, AfterAccrual(BooksOf(w, id), p, user));
      }
    }
  }

  lemma {:induction false} PlainClaim(w: World, c: Call)
    requires Reachable(w) && c.op.ClaimFrom? && c.callbacks == []
    ensures Claims(w, c, Attempt(w, c))
  {
    hide Claim, Transfer, AccrualFits, Settled, Reachable, WorldOk, Vested, Moved, Held, OnlyLedger, Put;
    ReachableOk(w);
    InTwoParts(w, c);
    var id, user := c.op.ledger, c.op.user;
    assert Begin(w, c.op, c.auth, c.now) == BeginClaim(w, id, user, c.auth, c.now);
    if MayAct(w, c, id, user) {
      var p := w.vault.pools[id];
      LedgerOk(w, id);
      ClaimMeaning(p, user, w.vault.vestingPeriod, c.now);
      DueNonNegative(w, id, user, c.now);
      var claim := Claim(p, user, w.vault.vestingPeriod, c.now);
      if claim.Ok? {
        var (q, due) := claim.value;
        TransferMoves(w.tokens, w.vault.rewardToken, SELF, user, due);
        NothingMoves(w.tokens, w.vault.rewardToken, SELF, user);
        BookedOnly(w, Enter(w), id, q, AfterClaim(BooksOf(w, id), p, user, due));
        TokensApart(w, SetLedger(Enter(w), id, q, AfterClaim(BooksOf(w, id), p, user, due)), id, q);
      }
    }
  }

  lemma {:induction false} TokensApart(w: World, w1: World, id: LedgerId, q: Pool)
    requires OnlyLedger(w, w1, id, q)
    ensures forall tokens: Tokens :: OnlyLedger(w, Exit(w1.(tokens := tokens)), id, q)
  {
  }

  lemma {:induction false} DueNonNegative(w: World, id: LedgerId, user: Address, now: U64)
    requires id in w.vault.pools && PoolOk(w.vault.pools[id])
    ensures var p, due := w.vault.pools[id], VestedDue(w, id, user, now);
            AccrualFits(AccountOf(p, user), p.rewardIndex) && due.Ok? ==> 0 <= due.value
  {
    var p := w.vault.pools[id];
    BalanceWithinTotal(p, user);
    if AccrualFits(AccountOf(p, user), p.rewardIndex) {
      SettleOwed(AccountOf(p, user), p.rewardIndex, now);
      var s := Settled(AccountOf(p, user), p.rewardIndex, now);
      VestedMeaning(now, s.accrued, s.lastReward, w.vault.vestingPeriod);
    }
  }

  lemma {:induction false} CreditedMeaning(v: Vault, id: LedgerId, amount: I128)
    requires id in v.pools && 100_000 <= amount
    ensures var e, credited := Effective(v, id, amount), Credited(v, id, amount);
            && (e.Ok? <==> credited.Some?)
            && (e.Ok? ==> e.value == credited.value && 0 <= e.value)
  {
    if id.Main? {
      var m := Multiplier(v.pools[id].totalDeposits, v.targetDeposits, v.curve);
      if m.Ok? {
        MultiplierBounds(v.pools[id].totalDeposits, v.targetDeposits, v.curve);
        assert FitsI128(amount);
        EffectiveAmountMeaning(amount, m.value);
      }
    }
  }

  lemma {:induction false} PlainDistribution(w: World, c: Call)
    requires Reachable(w) && c.op.DistributeTo? && c.callbacks == []
    ensures Distributes(w, c, Attempt(w, c))
  {
    hide Distribute, Transfer, Effective, Reachable, WorldOk, Credited;
    ReachableOk(w);
    InTwoParts(w, c);
    var id, amount := c.op.ledger, c.op.amount;
    assert Begin(w, c.op, c.auth, c.now) == BeginDistribute(w, id, c.op.caller, amount, c.auth);
    TransferMoves(w.tokens, w.vault.rewardToken, w.vault.admin, SELF, amount);
    if id in w.vault.pools && 100_000 <= amount {
      LedgerOk(w, id);
      CreditedMeaning(w.vault, id, amount);
      SameEffective(w, id, amount);
      DepositsNonNegative(w.vault.pools[id]);
      if Effective(w.vault, id, amount).Ok? {
        DistributeMeaning(w.vault.pools[id], Effective(w.vault, id, amount).value);
      }
    }
  }

  /** The guard does not matter for what is credited. */
  lemma {:induction false} SameEffective(w: World, id: LedgerId, amount: int)
    requires id in w.vault.pools
    ensures Effective(Enter(w).vault, id, amount) == Effective(w.vault, id, amount)
  {
    hide Multiplier, EffectiveAmount;
  }

  lemma {:induction false} PlainLock(w: World, c: Call)
    requires Reachable(w) && c.op.LockDeposit? && c.callbacks == []
    ensures Locks(w, c, Attempt(w, c))
  {
    hide LockFunds, AccrualFits, Settled, Reachable, WorldOk;
    ReachableOk(w);
    InTwoParts(w, c);
    var user, amount, duration := c.op.user, c.op.amount, c.op.duration;
    assert Begin(w, c.op, c.auth, c.now) == BeginLock(w, user, amount, duration, c.auth, c.now);
    if Main in w.vault.pools && 0 < amount {
      LedgerOk(w, Main);
      LockMeaning(w.vault.pools[Main], user, amount, duration, c.now);
    }
  }

  lemma {:induction false} PlainUnlock(w: World, c: Call)
    requires Reachable(w) && c.op.UnlockExpiredLocks? && c.callbacks == []
    ensures Unlocks(w, c, Attempt(w, c))
  {
    hide UnlockExpired, Reachable, WorldOk;
    ReachableOk(w);
    InTwoParts(w, c);
    var user, limit := c.op.user, c.op.limit;
    assert Begin(w, c.op, c.auth, c.now) == BeginUnlock(w, user, limit, c.auth, c.now);
    if Main in w.vault.pools {
      LedgerOk(w, Main);
      UnlockExpiredMeaning(w.vault.pools[Main], user, limit, c.now);
    }
  }

  // ---- Every call ----

  /** Calls that make no transfer have no callbacks to run. */
  lemma {:induction false} AdministrationMeaning(w: World, c: Call)
    requires !IsGuarded(c.op)
    ensures Administers(w, c, Attempt(w, c))
  {
    var begun := Begin(w, c.op, c.auth, c.now);
    if begun.Ok? {
      assert Complete(begun.value, c) == Ok((begun.value.world, begun.value.value));
    }
  }

  lemma {:induction false} PlainCall(w: World, c: Call)
    requires Reachable(w) && c.callbacks == []
    ensures ComesTo(w, c, Attempt(w, c))
  {
    hide Withdraws, Deposits, Claims, Distributes, Locks, Unlocks, Administers, Attempt, Reachable;
    match c.op
    case WithdrawFrom(_, _, _) => PlainWithdrawal(w, c);
    case DepositInto(_, _, _) => PlainDeposit(w, c);
    case ClaimFrom(_, _) => PlainClaim(w, c);
    case DistributeTo(_, _, _) => PlainDistribution(w, c);
    case LockDeposit(_, _, _) => PlainLock(w, c);
    case UnlockExpiredLocks(_, _) => PlainUnlock(w, c);
    case _ => AdministrationMeaning(w, c);
  }

  lemma {:induction false} SameMeaning(w: World, c: Call, r: Result<(World, int)>, r': Result<(World, int)>)
    requires IsGuarded(c.op) && Agree(w, r, r') && ComesTo(w, c.(callbacks := []), r')
    ensures ComesTo(w, c, r)
  {
    hide Moved, WithdrawalFits, DepositFits, ClaimFits, DistributionFits, Settled, VestedDue, Credited, AccrualFits;
    hide Put, AccountOf, Amount, Taken, Kept, BooksOf;
  }

  /** Every call in every reachable world, with any tree of callbacks: exactly when it succeeds, what it returns, who
      pays whom, and what becomes of each ledger. */
  lemma {:induction false} CallMeaning(w: World, c: Call)
    requires Reachable(w)
    ensures ComesTo(w, c, Attempt(w, c))
  {
    hide Attempt, ComesTo, Reachable;
    var plain := c.(callbacks := []);
    PlainCall(w, plain);
    if IsGuarded(c.op) {
      WithCallbacks(w, c);
      SameMeaning(w, c, Attempt(w, c), Attempt(w, plain));
    } else {
      AdministrationMeaning(w, c);
      AdministrationIsMeant(w, c);
    }
  }

  lemma {:induction false} AdministrationIsMeant(w: World, c: Call)
    requires !IsGuarded(c.op) && Administers(w, c, Attempt(w, c))
    ensures ComesTo(w, c, Attempt(w, c))
  {
    hide Administers;
  }

  // ---- Nobody pays or is changed without signing ----

  /** A call of the vault takes tokens from a holder only if that holder signed it, and only for a deposit of their
      own or, from the admin, for a distribution. */
  lemma {:induction false} OnlySignersPay(w: World, c: Call, token: Address, holder: Address)
    requires Reachable(w) && holder != SELF
    requires Held(Execute(w, c).tokens, token, holder) < Held(w.tokens, token, holder)
    ensures holder in c.auth
    ensures || (c.op.DepositInto? && c.op.user == holder && token == TokenOf(w.vault, c.op.ledger))
            || (c.op.DistributeTo? && w.vault.admin == holder && token == w.vault.rewardToken)
  {
    hide Attempt, Reachable, Settled, AccrualFits, OnlyLedger, Held, Vested, Credited, Taken;
    CallMeaning(w, c);
    if c.op.ClaimFrom? && Attempt(w, c).Ok? {
      LedgerOk(w, c.op.ledger);
      DueNonNegative(w, c.op.ledger, c.op.user, c.now);
    }
  }

  /** A call changes the account of a user, on any ledger, only if that user signed it. */
  lemma {:induction false} OnlySignersChange(w: World, c: Call, id: LedgerId, user: Address)
    requires Reachable(w) && id in w.vault.pools && user !in c.auth
    ensures id in Execute(w, c).vault.pools
    ensures AccountOf(Execute(w, c).vault.pools[id], user) == AccountOf(w.vault.pools[id], user)
  {
    hide Attempt, Reachable, ComesTo;
    CallMeaning(w, c);
    OnlyIfInitialized(w, id);
    if Attempt(w, c).Ok? {
      LeavesOthers(w, c, Attempt(w, c), id, user);
    }
  }

  lemma {:induction false} LeavesOthers(w: World, c: Call, r: Result<(World, int)>, id: LedgerId, user: Address)
    requires ComesTo(w, c, r) && r.Ok? && w.vault.initialized && id in w.vault.pools && user !in c.auth
    ensures id in r.value.0.vault.pools
    ensures AccountOf(r.value.0.vault.pools[id], user) == AccountOf(w.vault.pools[id], user)
  {
    hide Settled, WithdrawalFits, DepositFits, ClaimFits, DistributionFits, Moved, VestedDue, Credited, AccrualFits;
    hide Taken, Kept, Amount;
    match c.op {
      case WithdrawFrom(_, _, _) => hide Deposits, Claims, Distributes, Locks, Unlocks, Administers;
      case DepositInto(_, _, _) => hide Withdraws, Claims, Distributes, Locks, Unlocks, Administers;
      case ClaimFrom(_, _) => hide Withdraws, Deposits, Distributes, Locks, Unlocks, Administers;
      case DistributeTo(_, _, _) => hide Withdraws, Deposits, Claims, Locks, Unlocks, Administers;
      case LockDeposit(_, _, _) => hide Withdraws, Deposits, Claims, Distributes, Unlocks, Administers;
      case UnlockExpiredLocks(_, _) => hide Withdraws, Deposits, Claims, Distributes, Locks, Administers;
      case _ => hide Withdraws, Deposits, Claims, Distributes, Locks, Unlocks;
    }
  }

  lemma {:induction false} OnlyIfInitialized(w: World, id: LedgerId)
    requires Reachable(w) && id in w.vault.pools
    ensures w.vault.initialized
  {
    ReachableOk(w);
  }

  predicate SignsNothing(steps: seq<Step>, user: Address) {
    forall i :: 0 <= i < |steps| ==>
      match steps[i]
      case Invoke(c) => user !in c.auth
      case TokenIssue(_, _, _) => true
      case TokenTransfer(_, from, _, _) => from != user
  }

  /** Whatever everybody else does: over every run in which a user signs nothing, that user's accounts stay what they
      are and no token holding falls. */
  lemma {:induction false} UnsignedIsUntouched(w: World, steps: seq<Step>, id: LedgerId, user: Address, token: Address)
    requires Reachable(w) && id in w.vault.pools && user != SELF && SignsNothing(steps, user)
    ensures id in Run(w, steps).vault.pools
    ensures AccountOf(Run(w, steps).vault.pools[id], user) == AccountOf(w.vault.pools[id], user)
    ensures Held(w.tokens, token, user) <= Held(Run(w, steps).tokens, token, user)
    decreases |steps|
  {
    hide Reachable, Execute, Held;
    if steps != [] {
      var step := steps[0];
      match step {
        case Invoke(c) =>
          OnlySignersChange(w, c, id, user);
          if Held(Execute(w, c).tokens, token, user) < Held(w.tokens, token, user) {
            OnlySignersPay(w, c, token, user);
          }
        case TokenIssue(t, holder, amount) => IssueRaises(w.tokens, t, holder, amount, token, user);
        case TokenTransfer(t, from, to, amount) => TransferMoves(w.tokens, t, from, to, amount);
      }
      ReachableNext(w, step);
      UnsignedIsUntouched(Next(w, step), steps[1..], id, user, token);
    }
  }

  lemma {:induction false} IssueRaises(tokens: Tokens, t: Address, holder: Address, amount: nat, token: Address,
                                       user: Address)
    ensures Held(tokens, token, user) <= Held(Credit(tokens, t, holder, amount), token, user)
  {
  }

  // ---- A lock holds until its time has come ----

  /** After an accepted lock, whatever happens while the clock is at most `t` and the lock still runs at `t`: the
      amount under lock at `t` is larger by the locked amount than before, and no withdrawal by then gets at it. */
  lemma {:induction false} LockHolds(w: World, c: Call, steps: seq<Step>, t: U64)
    requires Reachable(w) && c.op.LockDeposit? && Attempt(w, c).Ok?
    requires ClockAtMost(steps, t) && t < c.now + c.op.duration
    ensures Main in w.vault.pools && Main in Run(Execute(w, c), steps).vault.pools
    ensures var w' := Run(Execute(w, c), steps);
            var before, after := AccountOf(w.vault.pools[Main], c.op.user), AccountOf(w'.vault.pools[Main], c.op.user);
            && LockedNow(before.locks, t) + c.op.amount <= LockedNow(after.locks, t)
            && forall exit: Call ::
                 exit.op.WithdrawFrom? && exit.op.ledger == Main && exit.op.user == c.op.user && exit.now <= t
                 && Attempt(w', exit).Ok? ==>
                   exit.op.amount + LockedNow(before.locks, t) + c.op.amount <= Balance(after)
  {
    hide Reachable, Run, Attempt, LockedNow, WorldOk;
    var user, w1 := c.op.user, Execute(w, c);
    var w' := Run(w1, steps);
    LockedAtOnce(w, c, t);
    ReachableOk(w1);
    OnlyIfInitialized(w1, Main);
    RunKeepsLocks(w1, steps, user, t);
    RunOk(w1, steps);
    MainAccountOk(w', user);
    var middle, after := AccountOf(w1.vault.pools[Main], user), AccountOf(w'.vault.pools[Main], user);
    LockedNowPersists(middle.locks, after.locks, t);
    ReachableRun(w1, steps);
    forall exit: Call | exit.op.WithdrawFrom? && exit.op.ledger == Main && exit.op.user == user && exit.now <= t
                        && Attempt(w', exit).Ok?
      ensures exit.op.amount + LockedNow(after.locks, t) <= Balance(after)
    {
      CallMeaning(w', exit);
      TakenIsNotLocked(after.locks, exit.now, 5, t);
    }
  }

  lemma {:induction false} LockedAtOnce(w: World, c: Call, t: int)
    requires Reachable(w) && c.op.LockDeposit? && Attempt(w, c).Ok?
    ensures Main in w.vault.pools && Main in Execute(w, c).vault.pools && Reachable(Execute(w, c))
    ensures var before := AccountOf(w.vault.pools[Main], c.op.user);
            var after := AccountOf(Execute(w, c).vault.pools[Main], c.op.user);
            LockedNow(after.locks, t) ==
              LockedNow(before.locks, t) + if t < c.now + c.op.duration then c.op.amount else 0
  {
    hide Reachable, Attempt, LockedNow, AccrualFits;
    CallMeaning(w, c);
    ReachableNext(w, Invoke(c));
    LockedWithNew(AccountOf(w.vault.pools[Main], c.op.user).locks, Lock(c.op.amount, c.now + c.op.duration), t);
  }

  lemma {:induction false} ReachableRun(w: World, steps: seq<Step>)
    requires Reachable(w)
    ensures Reachable(Run(w, steps))
    decreases |steps|
  {
    hide Reachable, Next;
    if steps != [] {
      ReachableNext(w, steps[0]);
      ReachableRun(Next(w, steps[0]), steps[1..]);
    }
  }

  // ---- Configuration and administration ----

  /** Nobody in this tree of calls signs as `who`. */
  predicate NeverSigns(c: Call, who: Address)
    decreases c
  {
    who !in c.auth && forall i :: 0 <= i < |c.callbacks| ==> NeverSigns(c.callbacks[i], who)
  }

  /** Neither the admin nor an admin-to-be signs anywhere in the tree. */
  predicate Quiet(v: Vault, c: Call) {
    NeverSigns(c, v.admin) && (v.pendingAdmin.Some? ==> NeverSigns(c, v.pendingAdmin.value))
  }

  /** What is fixed once the vault is initialised. */
  ghost predicate SameConfiguration(v: Vault, v': Vault) {
    && v'.initialized && v'.depositToken == v.depositToken && v'.rewardToken == v.rewardToken
    && v'.vestingPeriod == v.vestingPeriod && v'.targetDeposits == v.targetDeposits && v'.curve == v.curve
    && v.pools.Keys <= v'.pools.Keys
  }

  ghost predicate SameAdministration(v: Vault, v': Vault) {
    v'.admin == v.admin && v'.pendingAdmin == v.pendingAdmin && v'.paused == v.paused && v'.pools.Keys == v.pools.Keys
  }

  ghost predicate Keeps(v: Vault, v': Vault, quiet: bool) {
    SameConfiguration(v, v') && (quiet ==> SameAdministration(v, v'))
  }

  predicate QuietHere(v: Vault, auth: set<Address>) {
    v.admin !in auth && (v.pendingAdmin.Some? ==> v.pendingAdmin.value !in auth)
  }

  lemma {:induction false} BeginKeeps(w: World, op: Op, auth: set<Address>, now: U64)
    requires w.vault.initialized
    ensures var r := Begin(w, op, auth, now);
            r.Ok? ==> Keeps(w.vault, r.value.world.vault, QuietHere(w.vault, auth))
  {
    hide Withdraw, Claim, LockFunds, UnlockExpired, Transfer;
  }

  lemma {:induction false} FinishKeeps(w: World, op: Op, now: U64, value: int)
    requires w.vault.initialized
    ensures var r := Finish(w, op, now, value); r.Ok? ==> Keeps(w.vault, r.value.0.vault, true)
  {
    hide Deposit, Distribute, Effective;
  }

  lemma {:induction false} CallKeeps(w: World, c: Call)
    requires w.vault.initialized
    ensures Keeps(w.vault, Execute(w, c).vault, Quiet(w.vault, c))
    decreases c, 1
  {
    hide Begin, Finish;
    BeginKeeps(w, c.op, c.auth, c.now);
    var begun := Begin(w, c.op, c.auth, c.now);
    if begun.Ok? {
      assert Attempt(w, c) == Complete(begun.value, c);
      var inside := begun.value.world;
      if begun.value.Transferring? {
        CallsKeep(inside, c.callbacks);
        var mid := RunAll(inside, c.callbacks);
        FinishKeeps(mid, c.op, c.now, begun.value.value);
        assert Complete(begun.value, c) == Finish(mid, c.op, c.now, begun.value.value);
        assert Quiet(w.vault, c) ==> forall i :: 0 <= i < |c.callbacks| ==> Quiet(inside.vault, c.callbacks[i]);
      } else {
        assert Complete(begun.value, c) == Ok((inside, begun.value.value));
      }
    }
  }

  lemma {:induction false} CallsKeep(w: World, cs: seq<Call>)
    requires w.vault.initialized
    ensures Keeps(w.vault, RunAll(w, cs).vault, forall i :: 0 <= i < |cs| ==> Quiet(w.vault, cs[i]))
    decreases cs, 0
  {
    hide Execute;
    if cs != [] {
      CallKeeps(w, cs[0]);
      CallsKeep(Execute(w, cs[0]), cs[1..]);
    }
  }

  ghost predicate QuietSteps(v: Vault, steps: seq<Step>) {
    forall i :: 0 <= i < |steps| && steps[i].Invoke? ==> Quiet(v, steps[i].call)
  }

  /** Over every run of an initialised vault tokens, vesting period, target and curve stay as they are and no ledger
      disappears. And while neither the admin nor a proposed successor signs any call, callbacks included, nobody
      else becomes admin, nobody is proposed, the vault is not paused or unpaused, and no ledger is added. */
  lemma {:induction false} AdministrationOverRuns(w: World, steps: seq<Step>)
    requires w.vault.initialized
    ensures SameConfiguration(w.vault, Run(w, steps).vault)
    ensures QuietSteps(w.vault, steps) ==> SameAdministration(w.vault, Run(w, steps).vault)
    decreases |steps|
  {
    hide Execute;
    if steps != [] {
      var w1 := Next(w, steps[0]);
      if steps[0].Invoke? {
        CallKeeps(w, steps[0].call);
      }
      assert QuietSteps(w.vault, steps) ==> QuietSteps(w1.vault, steps[1..]);
      hide Next;
      AdministrationOverRuns(w1, steps[1..]);
    }
  }
}
