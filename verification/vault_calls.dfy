/** Single calls without callbacks in closed form, to build runs one call at a time. */
module VaultCalls {
  import opened MachineInts
  import opened RewardPool
  import opened Solvency
  import opened Utilization
  import opened VaultWorld
  import opened VaultTheorems

  // ---- Extending a run ----

  lemma {:induction false} RunAppend(w: World, steps: seq<Step>, s: Step)
    ensures Run(w, steps + [s]) == Next(Run(w, steps), s)
    decreases |steps|
  {
    hide Next;
    if steps == [] {
      assert Run(w, [s]) == Run(Next(w, s), []);
    } else {
      assert (steps + [s])[1..] == steps[1..] + [s];
      RunAppend(Next(w, steps[0]), steps[1..], s);
    }
  }

  lemma {:induction false} ReachableNext(w: World, s: Step)
    requires Reachable(w)
    ensures Reachable(Next(w, s))
  {
    hide Run, Next;
    var tokens: Tokens, steps: seq<Step> :|
      (forall token: Address :: 0 <= Held(tokens, token, SELF)) && w == Run(Genesis(tokens), steps);
    RunAppend(Genesis(tokens), steps, s);
  }

  lemma {:induction false} GenesisReachable()
    ensures Reachable(Genesis(map[]))
  {
    assert Run(Genesis(map[]), []) == Genesis(map[]);
  }

  /** A run as the host allows it: the clock never falls and stays at most `t`; and no token calls back. */
  ghost predicate Steady(steps: seq<Step>, t: int) {
    && (forall i :: 0 <= i < |steps| && steps[i].Invoke? ==> steps[i].call.callbacks == [] && steps[i].call.now <= t)
    && forall i, j :: 0 <= i < j < |steps| && steps[i].Invoke? && steps[j].Invoke? ==>
         steps[i].call.now <= steps[j].call.now
  }

  /** Reached by such a run. */
  ghost predicate ReachableBy(w: World, t: int) {
    exists tokens: Tokens, steps: seq<Step> ::
      (forall token: Address :: 0 <= Held(tokens, token, SELF)) && w == Run(Genesis(tokens), steps) && Steady(steps, t)
  }

  lemma {:induction false} ByIsReachable(w: World, t: int)
    requires ReachableBy(w, t)
    ensures Reachable(w)
  {
    hide Run;
  }

  lemma {:induction false} GenesisReachableBy(t: int)
    ensures ReachableBy(Genesis(map[]), t)
  {
    assert Run(Genesis(map[]), []) == Genesis(map[]) && Steady([], t);
  }

  lemma {:induction false} ReachableByNext(w: World, t: int, s: Step)
    requires ReachableBy(w, t) && (s.Invoke? ==> s.call.callbacks == [] && t <= s.call.now)
    ensures ReachableBy(Next(w, s), if s.Invoke? then s.call.now else t)
  {
    hide Run, Next;
    var tokens: Tokens, steps: seq<Step> :|
      (forall token: Address :: 0 <= Held(tokens, token, SELF)) && w == Run(Genesis(tokens), steps) && Steady(steps, t);
    RunAppend(Genesis(tokens), steps, s);
    assert Steady(steps + [s], if s.Invoke? then s.call.now else t);
  }

  lemma {:induction false} ReachableByLater(w: World, t: int, t': int)
    requires ReachableBy(w, t) && t <= t'
    ensures ReachableBy(w, t')
  {
    hide Run;
    var tokens: Tokens, steps: seq<Step> :|
      (forall token: Address :: 0 <= Held(tokens, token, SELF)) && w == Run(Genesis(tokens), steps) && Steady(steps, t);
    assert Steady(steps, t');
  }

  // ---- Calls ----

  ghost predicate Open(v: Vault) { v.initialized && !v.paused && !v.guard }

  function Alone(op: Op, signer: Address, now: U64): Call { Call(op, {signer}, now, []) }

  lemma {:induction false} CallDone(w: World, c: Call)
    requires c.callbacks == [] && Begin(w, c.op, c.auth, c.now).Ok?
    ensures var ph := Begin(w, c.op, c.auth, c.now).value;
            Attempt(w, c) == if ph.Done? then Ok((ph.world, ph.value)) else Finish(ph.world, c.op, c.now, ph.value)
    ensures Next(w, Invoke(c)) == if Attempt(w, c).Ok? then Attempt(w, c).value.0 else w
  {
    hide Begin, Finish;
    var ph := Begin(w, c.op, c.auth, c.now).value;
    assert RunAll(ph.world, []) == ph.world;
    assert Attempt(w, c) == Complete(ph, c);
  }

  lemma {:induction false} InitializeCall(w: World, op: Op, now: U64)
    requires op.Initialize? && !w.vault.paused && !w.vault.initialized
    requires op.depositToken != op.rewardToken && Sorted(op.curve) && op.admin != SELF
    ensures var w' := Next(w, Invoke(Alone(op, op.admin, now)));
            && Open(w'.vault) && w'.tokens == w.tokens
            && w'.vault.admin == op.admin && w'.vault.depositToken == op.depositToken
            && w'.vault.rewardToken == op.rewardToken && w'.vault.vestingPeriod == op.vestingPeriod
            && w'.vault.targetDeposits == op.targetDeposits && w'.vault.curve == op.curve
            && w'.vault.pools == map[Main := Pool(0, 0, map[])]
  {
    var c := Alone(op, op.admin, now);
    assert Begin(w, c.op, c.auth, c.now) == BeginInitialize(w, op, {op.admin});
    CallDone(w, c);
  }

  lemma {:induction false} AddAssetCall(w: World, asset: Address, now: U64)
    requires Open(w.vault) && w.vault.admin != SELF && Asset(asset) !in w.vault.pools
    ensures Next(w, Invoke(Alone(AddAsset(w.vault.admin, asset), w.vault.admin, now)))
         == SetLedger(w, Asset(asset), Pool(0, 0, map[]), NEW_BOOKS)
  {
    var c := Alone(AddAsset(w.vault.admin, asset), w.vault.admin, now);
    assert Begin(w, c.op, c.auth, c.now) == BeginAddAsset(w, w.vault.admin, asset, {w.vault.admin});
    CallDone(w, c);
  }

  lemma {:induction false} DepositCall(w: World, id: LedgerId, user: Address, amount: I128, now: U64)
    requires Open(w.vault) && id in w.vault.pools && user != SELF
    requires 0 < amount <= Held(w.tokens, LedgerToken(w.vault, id), user)
    requires Deposit(w.vault.pools[id], user, amount, now).Ok?
    ensures var t := Transfer(w.tokens, LedgerToken(w.vault, id), user, SELF, amount);
            && t.Ok?
            && Next(w, Invoke(Alone(DepositInto(id, user, amount), user, now)))
               == SetLedger(w.(tokens := t.value), id, Deposit(w.vault.pools[id], user, amount, now).value,
                            AfterAccrual(BooksOf(w, id), w.vault.pools[id], user))
  {
    hide Deposit, Transfer;
    var c := Alone(DepositInto(id, user, amount), user, now);
    assert Begin(w, c.op, c.auth, c.now) == BeginDeposit(w, id, user, amount, {user});
    TransferFunded(w.tokens, LedgerToken(w.vault, id), user, SELF, amount);
    CallDone(w, c);
  }

  lemma {:induction false} TransferFunded(tokens: Tokens, token: Address, from: Address, to: Address, amount: int)
    requires amount <= Held(tokens, token, from) && from != to
    ensures var t := Transfer(tokens, token, from, to, amount);
            && t.Ok?
            && Held(t.value, token, from) == Held(tokens, token, from) - amount
            && Held(t.value, token, to) == Held(tokens, token, to) + amount
            && forall other: Address, holder: Address ::
                 other != token || (holder != from && holder != to) ==>
                   Held(t.value, other, holder) == Held(tokens, other, holder)
  {
  }

  lemma {:induction false} DistributeCall(w: World, amount: I128, effective: int, now: U64)
    requires Open(w.vault) && Main in w.vault.pools && w.vault.admin != SELF
    requires MIN_REWARD_DISTRIBUTION <= amount <= Held(w.tokens, w.vault.rewardToken, w.vault.admin)
    requires Effective(w.vault, Main, amount) == Ok(effective) && Distribute(w.vault.pools[Main], effective).Ok?
    ensures var t := Transfer(w.tokens, w.vault.rewardToken, w.vault.admin, SELF, amount);
            && t.Ok?
            && Next(w, Invoke(Alone(DistributeTo(Main, w.vault.admin, amount), w.vault.admin, now)))
               == SetLedger(w.(tokens := t.value), Main, Distribute(w.vault.pools[Main], effective).value,
                            AfterDistribution(BooksOf(w, Main), effective, amount, w.vault.pools[Main].totalDeposits))
  {
    hide Distribute, Transfer;
    var c := Alone(DistributeTo(Main, w.vault.admin, amount), w.vault.admin, now);
    assert Begin(w, c.op, c.auth, c.now) == BeginDistribute(w, Main, w.vault.admin, amount, {w.vault.admin});
    TransferFunded(w.tokens, w.vault.rewardToken, w.vault.admin, SELF, amount);
    CallDone(w, c);
    EffectiveOfInside(w, amount);
  }

  /** The guard and the token balances do not matter for what is credited. */
  lemma {:induction false} EffectiveOfInside(w: World, amount: int)
    requires Main in w.vault.pools
    ensures Effective(Enter(w).vault, Main, amount) == Effective(w.vault, Main, amount)
  {
    hide Multiplier, EffectiveAmount;
  }

  lemma {:induction false} ClaimCall(w: World, user: Address, now: U64)
    requires Open(w.vault) && Main in w.vault.pools && user != SELF
    requires var r := Claim(w.vault.pools[Main], user, w.vault.vestingPeriod, now);
             r.Ok? && 0 <= r.value.1 <= Held(w.tokens, w.vault.rewardToken, SELF)
    ensures var (p, due) := Claim(w.vault.pools[Main], user, w.vault.vestingPeriod, now).value;
            var w' := Next(w, Invoke(Alone(ClaimFrom(Main, user), user, now)));
            var t := Transfer(w.tokens, w.vault.rewardToken, SELF, user, due);
            && t.Ok?
            && w' == SetLedger(w.(tokens := if due == 0 then w.tokens else t.value), Main, p,
                               AfterClaim(BooksOf(w, Main), w.vault.pools[Main], user, due))
  {
    hide Claim, Transfer;
    var (p, due) := Claim(w.vault.pools[Main], user, w.vault.vestingPeriod, now).value;
    var c := Alone(ClaimFrom(Main, user), user, now);
    assert Begin(w, c.op, c.auth, c.now) == BeginClaim(w, Main, user, {user}, now);
    TransferFunded(w.tokens, w.vault.rewardToken, SELF, user, due);
    CallDone(w, c);
  }
}
