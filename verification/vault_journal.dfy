/** The books of a ledger are what happened: the rewards credited, received and paid, and the rounding budget, added up
    over a run from the outcomes of its calls alone. */
module VaultJournal {
  import opened MachineInts
  import opened RewardPool
  import opened Solvency
  import opened VaultWorld
  import opened VaultTheorems
  import opened VaultCalls
  import opened VaultEffects

  function Plus(a: Books, b: Books): Books {
    Books(a.effective + b.effective, a.received + b.received, a.claimed + b.claimed, a.slack + b.slack)
  }

  /** One unit short of SCALE if the next accrual of `user` has a remainder to lose, that is if there is a balance and
      the index has moved since it was last settled. */
  function Remainder(p: Pool, user: Address): int {
    var a := AccountOf(p, user);
    if Balance(a) != 0 && a.rewardIndex != p.rewardIndex then 999_999_999 else 0
  }

  /** What a call that succeeded with `value` adds to the books of ledger `id`. */
  function EntryOf(w: World, op: Op, value: int, id: LedgerId): Books
    requires id in w.vault.pools
  {
    var p := w.vault.pools[id];
    match op
    case DepositInto(i, user, _) => if i == id then Books(0, 0, 0, Remainder(p, user)) else NEW_BOOKS
    case WithdrawFrom(i, user, _) => if i == id then Books(0, 0, 0, Remainder(p, user)) else NEW_BOOKS
    case ClaimFrom(i, user) => if i == id then Books(0, 0, value, Remainder(p, user)) else NEW_BOOKS
    case LockDeposit(user, _, _) => if id == Main then Books(0, 0, 0, Remainder(p, user)) else NEW_BOOKS
    case DistributeTo(i, _, amount) =>
      if i == id && Credited(w.vault, id, amount).Some? then
        Books(Credited(w.vault, id, amount).value, amount, 0, p.totalDeposits - 1)
      else NEW_BOOKS
    case _ => NEW_BOOKS
  }

  function Entry(w: World, s: Step, id: LedgerId): Books
    requires id in w.vault.pools
  {
    if s.Invoke? && Attempt(w, s.call).Ok? then EntryOf(w, s.call.op, Attempt(w, s.call).value.1, id) else NEW_BOOKS
  }

  /** The sum of all entries of a run. (A ledger does not disappear.) */
  function Journal(w: World, steps: seq<Step>, id: LedgerId): Books
    decreases |steps|
  {
    if steps == [] || id !in w.vault.pools then NEW_BOOKS
    else Plus(Entry(w, steps[0], id), Journal(Next(w, steps[0]), steps[1..], id))
  }

  // ---- One call ----

  /** The books of ledger `id` have grown by the entry of the call, if it succeeded. */
  ghost predicate Entered(w: World, c: Call, id: LedgerId, r: Result<(World, int)>)
    requires id in w.vault.pools
  {
    r.Ok? ==> BooksOf(r.value.0, id) == Plus(BooksOf(w, id), EntryOf(w, c.op, r.value.1, id))
  }

  lemma {:induction false} BooksAfter(w: World, w1: World, i: LedgerId, q: Pool, b: Books, id: LedgerId)
    requires w1.books == w.books
    ensures BooksOf(SetLedger(w1, i, q, b), id) == (if i == id then b else BooksOf(w, id))
    ensures BooksOf(Exit(SetLedger(w1, i, q, b)), id) == (if i == id then b else BooksOf(w, id))
    ensures forall tokens: Tokens ::
              BooksOf(Exit(SetLedger(w1, i, q, b).(tokens := tokens)), id) == (if i == id then b else BooksOf(w, id))
    ensures BooksOf(w1, i) == BooksOf(w, i) && BooksOf(w1, id) == BooksOf(w, id)
  {
  }

  lemma {:induction false} NothingAdded(b: Books)
    ensures Plus(b, NEW_BOOKS) == b
  {
  }

  lemma {:induction false} RemainderIsLoss(p: Pool, user: Address)
    ensures Remainder(p, user) == Loss(p, user)
  {
  }

  lemma {:induction false} WithdrawalEntered(w: World, c: Call, id: LedgerId)
    requires id in w.vault.pools && c.callbacks == [] && c.op.WithdrawFrom?
    ensures Entered(w, c, id, Attempt(w, c))
  {
    hide Withdraw, Transfer, SetLedger, Exit, BooksOf, Remainder, Loss;
    InTwoParts(w, c);
    var i, user := c.op.ledger, c.op.user;
    assert Begin(w, c.op, c.auth, c.now) == BeginWithdraw(w, i, user, c.op.amount, c.auth, c.now);
    if Attempt(w, c).Ok? {
      var p := w.vault.pools[i];
      var tokens := Transfer(w.tokens, LedgerToken(w.vault, i), SELF, user, c.op.amount).value;
      RemainderIsLoss(p, user);
      BooksAfter(w, Enter(w).(tokens := tokens), i, Withdraw(p, user, c.op.amount, c.now).value,
                 AfterAccrual(BooksOf(w, i), p, user), id);
    }
  }

  lemma {:induction false} DepositEntered(w: World, c: Call, id: LedgerId)
    requires id in w.vault.pools && c.callbacks == [] && c.op.DepositInto?
    ensures Entered(w, c, id, Attempt(w, c))
  {
    hide Deposit, Transfer, SetLedger, Exit, BooksOf, Remainder, Loss;
    InTwoParts(w, c);
    var i, user := c.op.ledger, c.op.user;
    assert Begin(w, c.op, c.auth, c.now) == BeginDeposit(w, i, user, c.op.amount, c.auth);
    if Attempt(w, c).Ok? {
      var p := w.vault.pools[i];
      var tokens := Transfer(w.tokens, LedgerToken(w.vault, i), user, SELF, c.op.amount).value;
      RemainderIsLoss(p, user);
      BooksAfter(w, Enter(w).(tokens := tokens), i, Deposit(p, user, c.op.amount, c.now).value,
                 AfterAccrual(BooksOf(w, i), p, user), id);
    }
  }

  lemma {:induction false} ClaimEntered(w: World, c: Call, id: LedgerId)
    requires Reachable(w) && id in w.vault.pools && c.callbacks == [] && c.op.ClaimFrom?
    ensures Entered(w, c, id, Attempt(w, c))
  {
    hide Claim, Transfer, SetLedger, Exit, BooksOf, Remainder, Loss, Reachable, Vested;
    InTwoParts(w, c);
    var i, user := c.op.ledger, c.op.user;
    assert Begin(w, c.op, c.auth, c.now) == BeginClaim(w, i, user, c.auth, c.now);
    if Attempt(w, c).Ok? {
      var p := w.vault.pools[i];
      LedgerOk(w, i);
      ClaimMeaning(p, user, w.vault.vestingPeriod, c.now);
      DueNonNegative(w, i, user, c.now);
      RemainderIsLoss(p, user);
      var (q, due) := Claim(p, user, w.vault.vestingPeriod, c.now).value;
      BooksAfter(w, Enter(w), i, q, AfterClaim(BooksOf(w, i), p, user, due), id);
    }
  }

  lemma {:induction false} DistributionEntered(w: World, c: Call, id: LedgerId)
    requires id in w.vault.pools && c.callbacks == [] && c.op.DistributeTo?
    ensures Entered(w, c, id, Attempt(w, c))
  {
    hide Distribute, Transfer, SetLedger, Exit, BooksOf, Effective, Credited, Remainder;
    InTwoParts(w, c);
    var i, amount := c.op.ledger, c.op.amount;
    assert Begin(w, c.op, c.auth, c.now) == BeginDistribute(w, i, c.op.caller, amount, c.auth);
    if Attempt(w, c).Ok? {
      var p := w.vault.pools[i];
      SameEffective(w, i, amount);
      CreditedMeaning(w.vault, i, amount);
      var effective := Effective(w.vault, i, amount).value;
      var tokens := Transfer(w.tokens, w.vault.rewardToken, w.vault.admin, SELF, amount).value;
      BooksAfter(w, Enter(w).(tokens := tokens), i, Distribute(p, effective).value,
                 AfterDistribution(BooksOf(w, i), effective, amount, p.totalDeposits), id);
    }
  }

  lemma {:induction false} LockEntered(w: World, c: Call, id: LedgerId)
    requires id in w.vault.pools && c.callbacks == [] && (c.op.LockDeposit? || c.op.UnlockExpiredLocks?)
    ensures Entered(w, c, id, Attempt(w, c))
  {
    hide LockFunds, UnlockExpired, SetLedger, Exit, BooksOf, Remainder, Loss;
    InTwoParts(w, c);
    var r := Attempt(w, c);
    if r.Ok? {
      var p, user := w.vault.pools[Main], c.op.user;
      RemainderIsLoss(p, user);
      if c.op.LockDeposit? {
        BooksAfter(w, w, Main, LockFunds(p, user, c.op.amount, c.op.duration, c.now).value,
                   AfterAccrual(BooksOf(w, Main), p, user), id);
      } else {
        BooksAfter(w, w, Main, UnlockExpired(p, user, c.op.limit, c.now).value.0, BooksOf(w, Main), id);
      }
    }
  }

  lemma {:induction false} AdministrationEntered(w: World, c: Call, id: LedgerId)
    requires Reachable(w) && id in w.vault.pools && c.callbacks == [] && !IsGuarded(c.op)
    ensures Entered(w, c, id, Attempt(w, c))
  {
    hide Reachable, SetLedger, BooksOf, Remainder;
    InTwoParts(w, c);
    OnlyIfInitialized(w, id);
    NothingAdded(BooksOf(w, id));
    var r := Attempt(w, c);
    if r.Ok? {
      if c.op.AddAsset? {
        BooksAfter(w, w, Asset(c.op.asset), Pool(0, 0, map[]), NEW_BOOKS, id);
      } else {
        BooksAfter(w, r.value.0, id, w.vault.pools[id], NEW_BOOKS, id);
      }
    }
  }

  lemma {:induction false} PlainEntered(w: World, c: Call, id: LedgerId)
    requires Reachable(w) && id in w.vault.pools && c.callbacks == []
    ensures Entered(w, c, id, Attempt(w, c))
  {
    hide Attempt, Reachable, Entered;
    match c.op
    case WithdrawFrom(_, _, _) => WithdrawalEntered(w, c, id);
    case DepositInto(_, _, _) => DepositEntered(w, c, id);
    case ClaimFrom(_, _) => ClaimEntered(w, c, id);
    case DistributeTo(_, _, _) => DistributionEntered(w, c, id);
    case LockDeposit(_, _, _) => LockEntered(w, c, id);
    case UnlockExpiredLocks(_, _) => LockEntered(w, c, id);
    case _ => AdministrationEntered(w, c, id);
  }

  lemma {:induction false} SameEntry(w: World, c: Call, id: LedgerId, r: Result<(World, int)>, r': Result<(World, int)>)
    requires id in w.vault.pools && Agree(w, r, r') && Entered(w, c.(callbacks := []), id, r')
    ensures Entered(w, c, id, r) && (r.Ok? ==> id in r.value.0.vault.pools)
  {
    hide EntryOf, BooksOf;
  }

  lemma {:induction false} StepIsEntered(w: World, s: Step, id: LedgerId)
    requires Reachable(w) && id in w.vault.pools
    ensures id in Next(w, s).vault.pools
    ensures BooksOf(Next(w, s), id) == Plus(BooksOf(w, id), Entry(w, s, id))
  {
    hide Attempt, Reachable, EntryOf, Agree, BooksOf;
    NothingAdded(BooksOf(w, id));
    if s.Invoke? {
      var c := s.call;
      WithCallbacks(w, c);
      PlainEntered(w, c.(callbacks := []), id);
      SameEntry(w, c, id, Attempt(w, c), Attempt(w, c.(callbacks := [])));
    } else {
      BooksAfter(w, Next(w, s), id, w.vault.pools[id], NEW_BOOKS, id);
    }
  }

  // ---- Runs ----

  lemma {:induction false} BooksAreJournal(w: World, steps: seq<Step>, id: LedgerId)
    requires Reachable(w) && id in w.vault.pools
    ensures id in Run(w, steps).vault.pools
    ensures BooksOf(Run(w, steps), id) == Plus(BooksOf(w, id), Journal(w, steps, id))
    decreases |steps|
  {
    hide Reachable, Next, Entry, BooksOf;
    if steps != [] {
      StepIsEntered(w, steps[0], id);
      ReachableNext(w, steps[0]);
      BooksAreJournal(Next(w, steps[0]), steps[1..], id);
    }
  }

  /** Solvency, from what happened: over every run since a ledger was opened, the claims paid and the rewards still owed
      are never more than the rewards credited, and less only by the rounding: total deposits less one for each
      distribution, SCALE less one for each accrual with a remainder. */
  lemma {:induction false} SolventOverRuns(w: World, steps: seq<Step>, id: LedgerId)
    requires Reachable(w) && id in w.vault.pools && BooksOf(w, id) == NEW_BOOKS
    ensures id in Run(w, steps).vault.pools
    ensures var j, owed := Journal(w, steps, id), Potential(Run(w, steps).vault.pools[id]);
            && owed + 1_000_000_000 * j.claimed <= 1_000_000_000 * j.effective
            && 1_000_000_000 * j.effective <= owed + 1_000_000_000 * j.claimed + j.slack
  {
    hide Reachable, Run, Journal, Potential;
    BooksAreJournal(w, steps, id);
    ReachableRun(w, steps);
    EveryLedgerIsSolvent(Run(w, steps), id);
  }
}
