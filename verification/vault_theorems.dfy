/** The main results about the vault over every run. */
module VaultTheorems {
  import opened MachineInts
  import opened TimeLocks
  import opened Totals
  import opened RewardPool
  import opened Solvency
  import opened LedgerTheorems
  import opened VaultWorld
  import opened VaultInvariant

  ghost predicate Reachable(w: World) {
    exists tokens: Tokens, steps: seq<Step> ::
      (forall token: Address :: 0 <= Held(tokens, token, SELF)) && w == Run(Genesis(tokens), steps)
  }

  lemma {:induction false} ReachableOk(w: World)
    requires Reachable(w)
    ensures WorldOk(w) && !w.vault.guard
  {
    hide WorldOk;
    var tokens: Tokens, steps: seq<Step> :|
      (forall token: Address :: 0 <= Held(tokens, token, SELF)) && w == Run(Genesis(tokens), steps);
    GenesisOk(tokens);
    RunOk(Genesis(tokens), steps);
  }

  // ---- Solvency ----

  /** In every reachable world and for every ledger: what users are owed plus what they were paid never
      exceeds what was credited, and falls short of it by at most the rounding budget; no user's index
      is ahead of the ledger's. */
  lemma {:induction false} EveryLedgerIsSolvent(w: World, id: LedgerId)
    requires Reachable(w) && id in w.vault.pools
    ensures var p := w.vault.pools[id];
            var b := BooksOf(w, id);
            && Potential(p) + SCALE * b.claimed <= SCALE * b.effective
            && SCALE * b.effective <= Potential(p) + SCALE * b.claimed + b.slack
            && forall u :: u in p.accounts ==> 0 <= p.accounts[u].rewardIndex <= p.rewardIndex
  {
    ReachableOk(w);
  }

  /** In every reachable world and for every ledger: total deposits are the sum of all balances, no
      liquid balance is negative and every lock is positive; so no unchecked lock sum can wrap. */
  lemma {:induction false} DepositsAreConserved(w: World, id: LedgerId, u: Address)
    requires Reachable(w) && id in w.vault.pools
    ensures var p := w.vault.pools[id];
            var a := AccountOf(p, u);
            && p.totalDeposits == Total(Balances(p)) <= I128_MAX
            && 0 <= a.liquid && AllPositive(a.locks)
            && AsI128(Amount(a.locks)) == Amount(a.locks)
            && ReadPosition(a).Ok? && ReadPosition(a).value.balance == Balance(a)
  {
    ReachableOk(w);
    LedgerReads(w.vault.pools[id], u);
  }

  lemma {:induction false} LedgerReads(p: Pool, u: Address)
    requires PoolOk(p)
    ensures var a := AccountOf(p, u);
            && 0 <= a.liquid && AllPositive(a.locks)
            && AsI128(Amount(a.locks)) == Amount(a.locks)
            && ReadPosition(a).Ok? && ReadPosition(a).value.balance == Balance(a)
  {
    BalanceWithinTotal(p, u);
    BalanceNonNegative(AccountOf(p, u), p.rewardIndex);
    CastIsIdentity(Amount(AccountOf(p, u).locks));
    PositionReadsBalance(p, u);
  }

  // ---- Holdings ----

  ghost function Potentials(w: World): map<LedgerId, int> {
    map id | id in w.vault.pools :: Potential(w.vault.pools[id])
  }

  lemma {:induction false} PotentialCovered(w: World, id: LedgerId)
    requires WorldOk(w) && Funded(w.vault) && id in w.vault.pools
    ensures 0 <= Potential(w.vault.pools[id]) <= SCALE * Unpaid(w.books)[id]
  {
    PotentialNonNegative(w.vault.pools[id]);
  }

  /** With no multiplier above 1.0x, the unpaid rewards of all ledgers together cover everything owed
      by any of them. */
  lemma {:induction false} UnpaidCoversPotentials(w: World)
    requires WorldOk(w) && Funded(w.vault)
    ensures Total(Potentials(w)) <= SCALE * Total(Unpaid(w.books))
    ensures forall id :: id in w.vault.pools ==> Potential(w.vault.pools[id]) <= SCALE * Total(Unpaid(w.books))
    ensures 0 <= Total(Unpaid(w.books))
  {
    var scaled := map id | id in w.books :: Times(SCALE, Unpaid(w.books)[id]);
    forall id | id in w.vault.pools
      ensures 0 <= Potentials(w)[id] <= scaled[id]
    {
      PotentialCovered(w, id);
    }
    TotalScale(Unpaid(w.books), SCALE, scaled);
    TotalMonotone(Potentials(w), scaled);
    TotalNonNegative(Potentials(w));
    forall id | id in w.vault.pools
      ensures Potential(w.vault.pools[id]) <= SCALE * Total(Unpaid(w.books))
    {
      TotalBoundsEntry(Potentials(w), id);
    }
  }

  /** The vault's balance of `token` covers the main deposits and the asset deposits in it and, for the reward
      token, all rewards owed by all ledgers; even when an added asset is the reward or the deposit token. */
  ghost predicate CoversLiabilities(w: World, token: Address) {
    SCALE * Held(w.tokens, token, SELF)
    >= SCALE * DepositLiability(w, token) + (if token == w.vault.rewardToken then Total(Potentials(w)) else 0)
  }

  /** If no distribution can meet a multiplier above 1.0x, the vault covers its liabilities in every token. */
  lemma {:induction false} HoldingsCoverLiabilities(w: World, token: Address)
    requires Reachable(w) && w.vault.initialized && Funded(w.vault)
    ensures CoversLiabilities(w, token)
  {
    ReachableOk(w);
    UnpaidCoversPotentials(w);
    assert 0 <= Surplus(w, token);
  }

  /** Where the reward token's liabilities are covered, a claim is paid if and only if the ledger accepts it. */
  lemma {:induction false} CoveredClaim(w: World, id: LedgerId, user: Address, auth: set<Address>, now: U64)
    requires Reachable(w) && CoversLiabilities(w, w.vault.rewardToken)
    requires CheckUserCall(w.vault, id, user, 1, auth).Ok?
    ensures BeginClaim(w, id, user, auth, now).Ok? <==> Claim(w.vault.pools[id], user, w.vault.vestingPeriod, now).Ok?
  {
    hide Solvent, Claim, Potential, PoolOk, Surplus;
    ReachableOk(w);
    LiabilityParts(w, w.vault.rewardToken);
    if Claim(w.vault.pools[id], user, w.vault.vestingPeriod, now).Ok? {
      ClaimStep(w.vault.pools[id], w.books[id], user, w.vault.vestingPeriod, now);
      PotentialWithinSum(w, id);
    }
  }

  lemma {:induction false} PotentialWithinSum(w: World, id: LedgerId)
    requires WorldOk(w) && id in w.vault.pools
    ensures Potential(w.vault.pools[id]) <= Total(Potentials(w))
  {
    forall id | id in w.vault.pools
      ensures 0 <= Potentials(w)[id]
    {
      PotentialNonNegative(w.vault.pools[id]);
    }
    TotalBoundsEntry(Potentials(w), id);
  }

  /** So a claim that the ledger accepts always finds the tokens: the balance check cannot fail. */
  lemma {:induction false} ClaimsAreAlwaysFunded(w: World, id: LedgerId, user: Address, auth: set<Address>, now: U64)
    requires Reachable(w) && Funded(w.vault)
    requires CheckUserCall(w.vault, id, user, 1, auth).Ok?
    ensures BeginClaim(w, id, user, auth, now).Ok? <==> Claim(w.vault.pools[id], user, w.vault.vestingPeriod, now).Ok?
  {
    HoldingsCoverLiabilities(w, w.vault.rewardToken);
    CoveredClaim(w, id, user, auth, now);
  }

  lemma {:induction false} LiabilityParts(w: World, token: Address)
    requires WorldOk(w)
    ensures 0 <= DepositLiability(w, token)
    ensures Main in w.vault.pools && token == w.vault.depositToken ==>
              w.vault.pools[Main].totalDeposits <= DepositLiability(w, token)
    ensures Asset(token) in w.vault.pools ==> w.vault.pools[Asset(token)].totalDeposits <= DepositLiability(w, token)
  {
    if Main in w.vault.pools {
      DepositsNonNegative(w.vault.pools[Main]);
    }
    if Asset(token) in w.vault.pools {
      DepositsNonNegative(w.vault.pools[Asset(token)]);
    }
  }

  /** A withdrawal that the ledger accepts always finds the tokens. For a ledger whose token is not the
      reward token, the main ledger among them, this needs nothing of the curve. */
  lemma {:induction false} WithdrawalsAreAlwaysFunded(w: World, id: LedgerId, user: Address, amount: I128,
                                                      auth: set<Address>, now: U64)
    requires Reachable(w) && (Funded(w.vault) || LedgerToken(w.vault, id) != w.vault.rewardToken)
    requires CheckUserCall(w.vault, id, user, amount, auth).Ok?
    ensures BeginWithdraw(w, id, user, amount, auth, now).Ok? <==> Withdraw(w.vault.pools[id], user, amount, now).Ok?
    ensures id.Main? ==> LedgerToken(w.vault, id) != w.vault.rewardToken
  {
    ReachableOk(w);
    var token := LedgerToken(w.vault, id);
    LiabilityParts(w, token);
    if Funded(w.vault) {
      UnpaidCoversPotentials(w);
    }
    if Withdraw(w.vault.pools[id], user, amount, now).Ok? {
      WithdrawStep(w.vault.pools[id], w.books[id], user, amount, now);
      assert 0 <= Surplus(w, token);
    }
  }

  /** A positive amount asked for by its owner on an initialised, unpaused vault. */
  ghost predicate ExitCall(w: World, c: Call) {
    && w.vault.initialized && !w.vault.paused
    && c.op.WithdrawFrom? && c.op.ledger == Main && 0 < c.op.amount && Authorised(c.op.user, c.auth)
  }

  ghost predicate CoveredExit(w: World, c: Call, user: Address, now: U64)
    requires Main in w.vault.pools
  {
    && ExitCall(w, c) && c.op.user == user && c.now == now
    && c.op.amount <= Available(w.vault.pools[Main], user, now)
  }

  /** Exactly when such a call succeeds, in every reachable world and with any callbacks: the accrual of the
      user's rewards fits, and the amount is at most the liquid balance plus the first five expired locks. */
  lemma {:induction false} ExitSucceedsIff(w: World, c: Call)
    requires Reachable(w) && ExitCall(w, c)
    ensures Main in w.vault.pools
    ensures var p := w.vault.pools[Main];
            Attempt(w, c).Ok? <==>
              AccrualFits(AccountOf(p, c.op.user), p.rewardIndex) && c.op.amount <= Available(p, c.op.user, c.now)
  {
    hide Withdraw;
    ReachableOk(w);
    WithdrawalsAreAlwaysFunded(w, Main, c.op.user, c.op.amount, c.auth, c.now);
    WithdrawMeaning(w.vault.pools[Main], c.op.user, c.op.amount, c.now);
    WithdrawOutcome(w, c);
  }

  /** So every covered exit of a user succeeds if and only if that user's accrual fits. */
  lemma {:induction false} ExitGuaranteeIffFits(w: World, user: Address, auth: set<Address>, now: U64)
    requires Reachable(w) && w.vault.initialized && !w.vault.paused && Authorised(user, auth)
    requires Main in w.vault.pools && 0 < Available(w.vault.pools[Main], user, now)
    ensures (forall c: Call :: CoveredExit(w, c, user, now) ==> Attempt(w, c).Ok?)
       <==> AccrualFits(AccountOf(w.vault.pools[Main], user), w.vault.pools[Main].rewardIndex)
  {
    hide AccrualFits, Attempt, Reachable;
    var p := w.vault.pools[Main];
    forall c: Call | CoveredExit(w, c, user, now)
      ensures Attempt(w, c).Ok? <==> AccrualFits(AccountOf(p, user), p.rewardIndex)
    {
      ExitSucceedsIff(w, c);
    }
    var one := Call(WithdrawFrom(Main, user, 1), auth, now, []);
    assert CoveredExit(w, one, user, now);
    ExitSucceedsIff(w, one);
  }

  /** If SCALE times all rewards ever credited fits in i128 the accrual always fits, and only the amount
      decides. */
  lemma {:induction false} ExitSucceedsIffAvailable(w: World, c: Call)
    requires Reachable(w) && ExitCall(w, c)
    requires SCALE * BooksOf(w, Main).effective <= I128_MAX
    ensures Main in w.vault.pools
    ensures Attempt(w, c).Ok? <==> c.op.amount <= Available(w.vault.pools[Main], c.op.user, c.now)
  {
    ReachableOk(w);
    ExitSucceedsIff(w, c);
    NoAccrualOverflow(w.vault.pools[Main], w.books[Main], c.op.user);
  }

  /** After the transfer a withdrawal has nothing left that could fail. */
  lemma {:induction false} WithdrawOutcome(w: World, c: Call)
    requires c.op.WithdrawFrom?
    ensures Attempt(w, c).Ok? <==> BeginWithdraw(w, c.op.ledger, c.op.user, c.op.amount, c.auth, c.now).Ok?
  {
    hide BeginWithdraw;
    var r := BeginWithdraw(w, c.op.ledger, c.op.user, c.op.amount, c.auth, c.now);
    assert Begin(w, c.op, c.auth, c.now) == r;
    if r.Ok? && r.value.Transferring? {
      var mid := RunAll(r.value.world, c.callbacks);
      assert Complete(r.value, c) == Finish(mid, c.op, c.now, r.value.value) == Ok((Exit(mid), r.value.value));
    }
  }
}
