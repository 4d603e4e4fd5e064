/** The vault contract's entry points as transactions on a world: the contract's state, the token
    balances of every holder, and the history of every ledger.

    A call that fails leaves the world as it was (the host rolls it back). A token contract may call
    back into the vault while a transfer is in progress; every call carries the tree of such calls. */
module VaultWorld {
  import opened MachineInts
  import opened Totals
  import opened RewardPool
  import opened Solvency
  import opened Utilization

  /** The vault contract's own address. It never authorises a call. */
  const SELF: Address := Address(0)

  const MIN_REWARD_DISTRIBUTION := 100_000
  const MAX_UNLOCK_LIMIT := 50

  datatype LedgerId = Main | Asset(asset: Address)

  datatype Vault = Vault(
    initialized: bool,
    admin: Address,
    pendingAdmin: Option<Address>,
    depositToken: Address,
    rewardToken: Address,
    vestingPeriod: U64,
    targetDeposits: I128,
    curve: seq<MultiplierPoint>,
    guard: bool,
    paused: bool,
    pools: map<LedgerId, Pool>)

  /** Token balances by (token, holder). */
  type Tokens = map<(Address, Address), int>

  datatype World = World(vault: Vault, tokens: Tokens, books: map<LedgerId, Books>)

  datatype Op =
    | Initialize(admin: Address, depositToken: Address, rewardToken: Address, vestingPeriod: U64,
                 targetDeposits: I128, curve: seq<MultiplierPoint>)
    | ProposeNewAdmin(newAdmin: Address)
    | AcceptAdmin(newAdmin: Address)
    | SetPaused(paused: bool)
    | AddAsset(caller: Address, asset: Address)
    | DepositInto(ledger: LedgerId, user: Address, amount: I128)
    | WithdrawFrom(ledger: LedgerId, user: Address, amount: I128)
    | DistributeTo(ledger: LedgerId, caller: Address, amount: I128)
    | ClaimFrom(ledger: LedgerId, user: Address)
    | LockDeposit(user: Address, amount: I128, duration: U64)
    | UnlockExpiredLocks(user: Address, limit: U32)

  datatype Call = Call(op: Op, auth: set<Address>, now: U64, callbacks: seq<Call>)

  /** Entry points that run inside `with_non_reentrant`. */
  predicate IsGuarded(op: Op) {
    || op.DepositInto? || op.WithdrawFrom? || op.DistributeTo? || op.ClaimFrom?
    || op.LockDeposit? || op.UnlockExpiredLocks?
  }

  // ---- Tokens ----

  function Held(tokens: Tokens, token: Address, holder: Address): int { Lookup(tokens, (token, holder)) }

  function Credit(tokens: Tokens, token: Address, holder: Address, amount: int): Tokens {
    tokens[(token, holder) := Held(tokens, token, holder) + amount]
  }

  /** `token.transfer`: traps when the sender lacks the funds. */
  function Transfer(tokens: Tokens, token: Address, from: Address, to: Address, amount: int): Result<Tokens> {
    if Held(tokens, token, from) < amount then Err(HostTrap)
    else Ok(Credit(Credit(tokens, token, from, -amount), token, to, amount))
  }

  // ---- Validators ----

  /** `require_auth`. */
  predicate Authorised(user: Address, auth: set<Address>) { user in auth && user != SELF }

  function ValidatePositiveAmount(amount: int): Result<()> {
    if amount < 0 then Err(NegativeAmount) else if amount == 0 then Err(InvalidAmount) else Ok(())
  }

  /** The checks of an entry point that moves a user's funds, in their order. */
  function CheckUserCall(v: Vault, id: LedgerId, user: Address, amount: int, auth: set<Address>): Result<()> {
    if v.paused then Err(Unauthorized)
    else if !v.initialized then Err(NotInitialized)
    else if ValidatePositiveAmount(amount).Err? then ValidatePositiveAmount(amount)
    else if !Authorised(user, auth) then Err(HostTrap)
    else if id !in v.pools then Err(InvalidAddress)
    else if v.guard then Err(ReentrancyDetected)
    else Ok(())
  }

  /** The checks of a distribution. The main ledger's entry point has no caller argument. */
  function CheckDistribution(v: Vault, id: LedgerId, caller: Address, amount: int, auth: set<Address>): Result<()> {
    if !v.initialized then Err(NotInitialized)
    else if ValidatePositiveAmount(amount).Err? then ValidatePositiveAmount(amount)
    else if amount < MIN_REWARD_DISTRIBUTION then Err(InsufficientRewardAmount)
    else if id !in v.pools then Err(InvalidAddress)
    else if id.Asset? && caller != v.admin then Err(Unauthorized)
    else if !Authorised(v.admin, auth) then Err(HostTrap)
    else if v.guard then Err(ReentrancyDetected)
    else Ok(())
  }

  function CheckAdminCall(v: Vault, auth: set<Address>): Result<()> {
    if !v.initialized then Err(NotInitialized)
    else if !Authorised(v.admin, auth) then Err(HostTrap)
    else Ok(())
  }

  function Enter(w: World): World { w.(vault := w.vault.(guard := true)) }

  function Exit(w: World): World { w.(vault := w.vault.(guard := false)) }

  function LedgerToken(v: Vault, id: LedgerId): Address {
    if id.Main? then v.depositToken else id.asset
  }

  function SetLedger(w: World, id: LedgerId, p: Pool, b: Books): World {
    w.(vault := w.vault.(pools := w.vault.pools[id := p]), books := w.books[id := b])
  }

  function BooksOf(w: World, id: LedgerId): Books { if id in w.books then w.books[id] else NEW_BOOKS }

  // ---- Entry points ----

  /** A call either completes, or is inside a token transfer with the guard set. */
  datatype Phase = Done(world: World, value: int) | Transferring(world: World, value: int)

  function BeginInitialize(w: World, op: Op, auth: set<Address>): Result<Phase>
    requires op.Initialize?
  {
    if w.vault.paused then Err(Unauthorized)
    else if w.vault.initialized then Err(AlreadyInitialized)
    else if op.depositToken == op.rewardToken then Err(InvalidTokenConfiguration)
    else if !Sorted(op.curve) then Err(InvalidUtilizationParameters)
    else if !Authorised(op.admin, auth) then Err(HostTrap)
    else
      var v := Vault(true, op.admin, None, op.depositToken, op.rewardToken, op.vestingPeriod, op.targetDeposits,
                     op.curve, false, false, map[Main := Pool(0, 0, map[])]);
      Ok(Done(World(v, w.tokens, map[Main := NEW_BOOKS]), 0))
  }

  function BeginAcceptAdmin(w: World, newAdmin: Address, auth: set<Address>): Result<Phase> {
    if !w.vault.initialized then Err(NotInitialized)
    else if !Authorised(newAdmin, auth) then Err(HostTrap)
    else if w.vault.pendingAdmin.None? then Err(NoPendingAdmin)
    else if w.vault.pendingAdmin.value != newAdmin then Err(Unauthorized)
    else Ok(Done(w.(vault := w.vault.(admin := newAdmin, pendingAdmin := None)), 0))
  }

  function BeginAddAsset(w: World, caller: Address, asset: Address, auth: set<Address>): Result<Phase> {
    if !w.vault.initialized then Err(NotInitialized)
    else if caller != w.vault.admin then Err(Unauthorized)
    else if !Authorised(caller, auth) then Err(HostTrap)
    else if Asset(asset) in w.vault.pools then Ok(Done(w, 0))
    else Ok(Done(SetLedger(w, Asset(asset), Pool(0, 0, map[]), NEW_BOOKS), 0))
  }

  function BeginDeposit(w: World, id: LedgerId, user: Address, amount: I128, auth: set<Address>): Result<Phase> {
    var _ :- CheckUserCall(w.vault, id, user, amount, auth);
    var tokens :- Transfer(w.tokens, LedgerToken(w.vault, id), user, SELF, amount);
    Ok(Transferring(Enter(w).(tokens := tokens), 0))
  }

  function BeginWithdraw(w: World, id: LedgerId, user: Address, amount: I128, auth: set<Address>,
                         now: U64): Result<Phase> {
    var _ :- CheckUserCall(w.vault, id, user, amount, auth);
    var p :- Withdraw(w.vault.pools[id], user, amount, now);
    var tokens :- Transfer(w.tokens, LedgerToken(w.vault, id), SELF, user, amount);
    var books := AfterAccrual(BooksOf(w, id), w.vault.pools[id], user);
    Ok(Transferring(SetLedger(Enter(w).(tokens := tokens), id, p, books), 0))
  }

  function BeginDistribute(w: World, id: LedgerId, caller: Address, amount: I128, auth: set<Address>): Result<Phase> {
    var _ :- CheckDistribution(w.vault, id, caller, amount, auth);
    var tokens :- Transfer(w.tokens, w.vault.rewardToken, w.vault.admin, SELF, amount);
    Ok(Transferring(Enter(w).(tokens := tokens), 0))
  }

  function BeginClaim(w: World, id: LedgerId, user: Address, auth: set<Address>, now: U64): Result<Phase> {
    var _ :- CheckUserCall(w.vault, id, user, 1, auth);
    var (p, due) :- Claim(w.vault.pools[id], user, w.vault.vestingPeriod, now);
    var w1 := SetLedger(Enter(w), id, p, AfterClaim(BooksOf(w, id), w.vault.pools[id], user, due));
    if due <= 0 then Ok(Done(Exit(w1), 0))
    else if Held(w.tokens, w.vault.rewardToken, SELF) < due then Err(InsufficientContractBalance)
    else
      var tokens :- Transfer(w.tokens, w.vault.rewardToken, SELF, user, due);
      Ok(Transferring(w1.(tokens := tokens), due))
  }

  function BeginLock(w: World, user: Address, amount: I128, duration: U64, auth: set<Address>,
                     now: U64): Result<Phase> {
    if !w.vault.paused && w.vault.initialized && 0 < amount && duration == 0 then Err(InvalidLockDuration)
    else
      var _ :- CheckUserCall(w.vault, Main, user, amount, auth);
      if U64_MAX < now + duration then Err(MathOverflow)
      else
        var p :- LockFunds(w.vault.pools[Main], user, amount, duration, now);
        Ok(Done(Exit(SetLedger(w, Main, p, AfterAccrual(BooksOf(w, Main), w.vault.pools[Main], user))), 0))
  }

  function BeginUnlock(w: World, user: Address, limit: U32, auth: set<Address>, now: U64): Result<Phase> {
    if !w.vault.paused && w.vault.initialized && Authorised(user, auth) && MAX_UNLOCK_LIMIT < limit then
      Err(OperationLimitExceeded)
    else
      var _ :- CheckUserCall(w.vault, Main, user, 1, auth);
      var (p, unlocked) :- UnlockExpired(w.vault.pools[Main], user, limit, now);
      Ok(Done(Exit(SetLedger(w, Main, p, BooksOf(w, Main))), unlocked))
  }

  /** The part of an entry point up to and including its token transfer, if it makes one. */
  function Begin(w: World, op: Op, auth: set<Address>, now: U64): Result<Phase> {
    match op
    case Initialize(_, _, _, _, _, _) => BeginInitialize(w, op, auth)
    case ProposeNewAdmin(newAdmin) =>
      var _ :- CheckAdminCall(w.vault, auth);
      Ok(Done(w.(vault := w.vault.(pendingAdmin := Some(newAdmin))), 0))
    case AcceptAdmin(newAdmin) => BeginAcceptAdmin(w, newAdmin, auth)
    case SetPaused(paused) =>
      var _ :- CheckAdminCall(w.vault, auth);
      Ok(Done(w.(vault := w.vault.(paused := paused)), 0))
    case AddAsset(caller, asset) => BeginAddAsset(w, caller, asset, auth)
    case DepositInto(id, user, amount) => BeginDeposit(w, id, user, amount, auth)
    case WithdrawFrom(id, user, amount) => BeginWithdraw(w, id, user, amount, auth, now)
    case DistributeTo(id, caller, amount) => BeginDistribute(w, id, caller, amount, auth)
    case ClaimFrom(id, user) => BeginClaim(w, id, user, auth, now)
    case LockDeposit(user, amount, duration) => BeginLock(w, user, amount, duration, auth, now)
    case UnlockExpiredLocks(user, limit) => BeginUnlock(w, user, limit, auth, now)
  }

  /** The effective amount a distribution credits: only the main ledger applies the curve. */
  function Effective(v: Vault, id: LedgerId, amount: int): Result<int>
    requires id in v.pools
  {
    if id.Asset? then Ok(amount)
    else
      var multiplier :- Multiplier(v.pools[id].totalDeposits, v.targetDeposits, v.curve);
      EffectiveAmount(amount, multiplier)
  }

  function FinishDeposit(w: World, id: LedgerId, user: Address, amount: I128, now: U64): Result<(World, int)> {
    if !w.vault.initialized then Err(NotInitialized)
    else if id !in w.vault.pools then Err(InvalidAddress)
    else
      var p :- Deposit(w.vault.pools[id], user, amount, now);
      Ok((Exit(SetLedger(w, id, p, AfterAccrual(BooksOf(w, id), w.vault.pools[id], user))), 0))
  }

  function FinishDistribute(w: World, id: LedgerId, amount: I128): Result<(World, int)> {
    if !w.vault.initialized then Err(NotInitialized)
    else if id !in w.vault.pools then Err(InvalidAddress)
    else
      var effective :- Effective(w.vault, id, amount);
      var p :- Distribute(w.vault.pools[id], effective);
      var b := AfterDistribution(BooksOf(w, id), effective, amount, w.vault.pools[id].totalDeposits);
      Ok((Exit(SetLedger(w, id, p, b)), p.rewardIndex))
  }

  /** The part after the token transfer. */
  function Finish(w: World, op: Op, now: U64, value: int): Result<(World, int)> {
    match op
    case DepositInto(id, user, amount) => FinishDeposit(w, id, user, amount, now)
    case DistributeTo(id, _, amount) => FinishDistribute(w, id, amount)
    case _ => Ok((Exit(w), value))
  }

  /** The rest of a call: the callbacks of its transfer, then the part after it. */
  function Complete(ph: Phase, c: Call): Result<(World, int)>
    decreases c, 1
  {
    if ph.Done? then Ok((ph.world, ph.value))
    else Finish(RunAll(ph.world, c.callbacks), c.op, c.now, ph.value)
  }

  /** One call with its callbacks: the new world and the returned value, or an error. */
  function Attempt(w: World, c: Call): Result<(World, int)>
    decreases c, 2
  {
    var ph :- Begin(w, c.op, c.auth, c.now);
    Complete(ph, c)
  }

  /** The world after a call: unchanged if it failed. */
  function Execute(w: World, c: Call): World
    decreases c, 3
  {
    var r := Attempt(w, c);
    if r.Ok? then r.value.0 else w
  }

  function RunAll(w: World, cs: seq<Call>): World
    decreases cs, 0
  {
    if cs == [] then w else RunAll(Execute(w, cs[0]), cs[1..])
  }

  // ---- Runs ----

  /** What can happen next: a vault call, or token activity that does not spend the vault's funds. */
  datatype Step =
    | Invoke(call: Call)
    | TokenIssue(token: Address, holder: Address, amount: nat)
    | TokenTransfer(token: Address, from: Address, to: Address, amount: nat)

  function Next(w: World, s: Step): World {
    match s
    case Invoke(c) => Execute(w, c)
    case TokenIssue(token, holder, amount) => w.(tokens := Credit(w.tokens, token, holder, amount))
    case TokenTransfer(token, from, to, amount) =>
      var r := Transfer(w.tokens, token, from, to, amount);
      if from != SELF && r.Ok? then w.(tokens := r.value) else w
  }

  function Run(w: World, steps: seq<Step>): World
    decreases |steps|
  {
    if steps == [] then w else Run(Next(w, steps[0]), steps[1..])
  }

  /** The world before `initialize`, with any token balances that are not negative for the vault. */
  function Genesis(tokens: Tokens): World {
    World(Vault(false, SELF, None, SELF, SELF, 0, 0, [], false, false, map[]), tokens, map[])
  }
}
