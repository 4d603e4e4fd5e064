/** The vault contract as an object: keyed storage and token balances that entry points change step by
    step, with the host's rollback when a call fails and the callbacks a token contract may make.
    `world` is the value the storage stands for; every entry point is proved to do what `VaultWorld`
    says. */
module SorobanVault {
  import opened MachineInts
  import opened TimeLocks
  import opened Totals
  import opened RewardPool
  import opened Solvency
  import opened Utilization
  import opened VaultWorld
  import opened VaultStorage
  import opened VaultTheorems
  import opened VaultCalls

  class VaultContract {
    var store: Storage
    var tokens: Tokens
    ghost var world: World

    ghost predicate Valid()
      reads this
    {
      Shows(store, world.vault) && tokens == world.tokens
    }

    /** A freshly deployed contract, with the balances its tokens have by then. */
    constructor (balances: Tokens)
      ensures Valid() && world == Genesis(balances)
      ensures (forall token: Address :: 0 <= Held(balances, token, SELF)) ==> Reachable(world)
    {
      store := EMPTY_STORAGE;
      tokens := balances;
      world := Genesis(balances);
      new;
      assert Run(Genesis(balances), []) == Genesis(balances);
    }

    // ---- storage.rs: writing keys ----

    method SetLiquidBalance(user: Address, amount: int)
      modifies this`store
      ensures OnlyMain(old(store), store, user) && store.totalDeposits == old(store).totalDeposits
      ensures StoredAccount(store, user) == StoredAccount(old(store), user).(liquid := amount)
    {
      store := store.(userLiquidBalance := PutOrRemove(store.userLiquidBalance, user, amount));
    }

    method SetUserLocks(user: Address, locks: seq<Lock>)
      modifies this`store
      ensures OnlyMain(old(store), store, user) && store.totalDeposits == old(store).totalDeposits
      ensures StoredAccount(store, user) == StoredAccount(old(store), user).(locks := locks)
    {
      store := store.(userLocks := store.userLocks[user := locks]);
    }

    method SetTotalDeposits(total: int, ghost user: Address)
      modifies this`store
      ensures OnlyMain(old(store), store, user) && store.totalDeposits == total
      ensures StoredAccount(store, user) == StoredAccount(old(store), user)
    {
      store := store.(totalDeposits := total);
    }

    /** The balance of a main-ledger position is not written: it is liquid balance plus locks. */
    method SetUserPosition(user: Address, position: Position)
      modifies this`store
      ensures OnlyMain(old(store), store, user) && store.totalDeposits == old(store).totalDeposits
      ensures StoredAccount(store, user) == StoredAccount(old(store), user).(
                rewardIndex := position.rewardIndex, accrued := position.accrued, lastReward := position.lastReward)
    {
      store := store.(userRewardIndex := PutOrRemove(store.userRewardIndex, user, position.rewardIndex));
      store := store.(userAccruedRewards := PutOrRemove(store.userAccruedRewards, user, position.accrued));
      store := store.(userLastRewardTimestamp := store.userLastRewardTimestamp[user := position.lastReward]);
    }

    method SetUserAssetPosition(user: Address, asset: Address, position: Position)
      modifies this`store
      ensures OnlyAsset(old(store), store, user, asset) && store.assetTotalDeposits == old(store).assetTotalDeposits
      ensures StoredAssetAccount(store, user, asset)
           == Account(position.balance, NoLocks(user.id), position.rewardIndex, position.accrued, position.lastReward)
    {
      store := store.(userAssetBalance := PutOrRemove(store.userAssetBalance, (user, asset), position.balance));
      store := store.(userAssetRewardIndex :=
        PutOrRemove(store.userAssetRewardIndex, (user, asset), position.rewardIndex));
      store := store.(userAssetAccruedRewards :=
        PutOrRemove(store.userAssetAccruedRewards, (user, asset), position.accrued));
      store := store.(userAssetLastRewardTimestamp :=
        store.userAssetLastRewardTimestamp[(user, asset) := position.lastReward]);
    }

    method SetAssetTotalDeposits(asset: Address, total: int, ghost user: Address)
      modifies this`store
      ensures OnlyAsset(old(store), store, user, asset) && Lookup(store.assetTotalDeposits, asset) == total
      ensures StoredAssetAccount(store, user, asset) == StoredAssetAccount(old(store), user, asset)
    {
      store := store.(assetTotalDeposits := store.assetTotalDeposits[asset := total]);
    }

    // ---- storage.rs: the main ledger ----

    /** `accrue_position_rewards` on the position read from storage. */
    method ReadAndAccrue(user: Address, now: int) returns (r: Result<Position>)
      ensures var a := StoredAccount(store, user);
              var s := Settle(a, store.rewardIndex, now);
              && (r.Ok? <==> s.Ok?) && (r.Err? ==> r.error == s.error)
              && (r.Ok? ==> ReadPosition(a).Ok? && r.value.balance == ReadPosition(a).value.balance)
              && (r.Ok? ==> s.value == WithRewards(a, r.value))
              && (ReadPosition(a).Err? ==> r == Err(ReadPosition(a).error))
    {
      var position := ReadPosition(StoredAccount(store, user));
      if position.Err? {
        return position;
      }
      r := Accrue(store.rewardIndex, position.value, now);
    }

    method StoreDeposit(user: Address, amount: int, now: int) returns (r: Result<()>)
      requires Shows(store, world.vault) && world.vault.initialized
      modifies this`store
      ensures var v := world.vault;
              var d := Deposit(v.pools[Main], user, amount, now);
              && r == Outcome(d, ())
              && (r.Ok? ==> Shows(store, v.(pools := v.pools[Main := d.value])))
    {
      ShowsMainOf(store, world.vault, user);
      hide Shows, OnlyMain, Settle, ReadPosition, CheckedAdd;
      var position := ReadAndAccrue(user, now);
      if position.Err? {
        return Err(position.error);
      }
      var balance := CheckedAdd(position.value.balance, amount);
      if balance.Err? {
        return Err(balance.error);
      }
      var liquid := CheckedAdd(Lookup(store.userLiquidBalance, user), amount);
      if liquid.Err? {
        return Err(liquid.error);
      }
      var total := CheckedAdd(store.totalDeposits, amount);
      if total.Err? {
        return Err(total.error);
      }
      SetLiquidBalance(user, liquid.value);
      ghost var s1 := store;
      SetTotalDeposits(total.value, user);
      OnlyMainTransitive(old(store), s1, store, user);
      ghost var s2 := store;
      SetUserPosition(user, position.value.(balance := balance.value));
      OnlyMainTransitive(old(store), s2, store, user);
      MainWritten(old(store), store, world.vault, user,
                  Put(world.vault.pools[Main], user, StoredAccount(store, user), store.totalDeposits));
      return Ok(());
    }

    /** One pass over the lock list with a running sum and a counter. */
    method StoreUnlockExpired(user: Address, limit: nat, now: int) returns (r: Result<int>)
      modifies this`store
      ensures var a := StoredAccount(old(store), user);
              var u := Unlock(a, now, limit);
              && (r.Ok? <==> u.Ok?) && (r.Err? ==> r.error == u.error)
              && (r.Ok? ==> r.value == u.value.1 && StoredAccount(store, user) == u.value.0)
              && (r.Ok? ==> OnlyMain(old(store), store, user) && store.totalDeposits == old(store).totalDeposits)
              && (r.Ok? && r.value <= 0 ==> store == old(store))
    {
      OnlyMainReflexive(store, user);
      hide OnlyMain;
      if limit == 0 {
        return Ok(0);
      }
      var locks := LocksOf(store, user);
      var split, kept := CollectExpired(locks, now, limit);
      if split.Err? {
        return split;
      }
      var unlocked := split.value;
      if 0 < unlocked {
        var liquid := CheckedAdd(Lookup(store.userLiquidBalance, user), unlocked);
        if liquid.Err? {
          return liquid;
        }
        SetLiquidBalance(user, liquid.value);
        ghost var s1 := store;
        SetUserLocks(user, kept);
        OnlyMainTransitive(old(store), s1, store, user);
      }
      return Ok(unlocked);
    }

    /** The loop of `unlock_expired_locks`. */
    static method CollectExpired(locks: seq<Lock>, now: int, limit: nat) returns (r: Result<int>, kept: seq<Lock>)
      ensures r == CheckedSum(Taken(locks, now, limit), 0)
      ensures r.Ok? ==> kept == Kept(locks, now, limit)
    {
      var unlocked := 0;
      kept := [];
      var processed := 0;
      var i := 0;
      while i < |locks|
        invariant 0 <= i <= |locks| && 0 <= processed <= limit
        invariant Kept(locks, now, limit) == kept + Kept(locks[i..], now, limit - processed)
        invariant CheckedSum(Taken(locks, now, limit), 0)
               == CheckedSum(Taken(locks[i..], now, limit - processed), unlocked)
      {
        var lock := locks[i];
        assert locks[i..][1..] == locks[i + 1..];
        if Expired(lock, now) && processed < limit {
          var sum := CheckedAdd(unlocked, lock.amount);
          assert CheckedSum(Taken(locks[i..], now, limit - processed), unlocked)
              == if sum.Ok? then CheckedSum(Taken(locks[i + 1..], now, limit - processed - 1), sum.value) else sum
          by {
            var rest := Taken(locks[i + 1..], now, limit - processed - 1);
            assert ([lock] + rest)[1..] == rest;
          }
          if sum.Err? {
            return sum, kept;
          }
          unlocked := sum.value;
          processed := processed + 1;
        } else {
          assert kept + ([lock] + Kept(locks[i + 1..], now, limit - processed))
              == (kept + [lock]) + Kept(locks[i + 1..], now, limit - processed);
          kept := kept + [lock];
        }
        i := i + 1;
      }
      return Ok(unlocked), kept;
    }

    method StoreWithdraw(user: Address, amount: int, now: int) returns (r: Result<()>)
      requires Shows(store, world.vault) && world.vault.initialized
      modifies this`store
      ensures var v := world.vault;
              var d := Withdraw(v.pools[Main], user, amount, now);
              && r == Outcome(d, ())
              && (r.Ok? ==> Shows(store, v.(pools := v.pools[Main := d.value])))
    {
      ShowsMainOf(store, world.vault, user);
      hide Shows, OnlyMain, Settle, ReadPosition, CheckedSub, Unlock;
      ghost var a := StoredAccount(store, user);
      var position := ReadAndAccrue(user, now);
      if position.Err? {
        return Err(position.error);
      }
      UnlockIgnoresRewards(a, position.value, now, WITHDRAW_UNLOCK_LIMIT);
      var unlocked := StoreUnlockExpired(user, WITHDRAW_UNLOCK_LIMIT, now);
      if unlocked.Err? {
        return Err(unlocked.error);
      }
      var liquidBalance := Lookup(store.userLiquidBalance, user);
      if liquidBalance < amount {
        return Err(InsufficientBalance);
      }
      var balance := CheckedSub(position.value.balance, amount);
      if balance.Err? {
        return Err(balance.error);
      }
      var liquid := CheckedSub(liquidBalance, amount);
      if liquid.Err? {
        return Err(liquid.error);
      }
      var total := CheckedSub(store.totalDeposits, amount);
      if total.Err? {
        return Err(total.error);
      }
      ghost var s0 := store;
      SetLiquidBalance(user, liquid.value);
      OnlyMainTransitive(old(store), s0, store, user);
      ghost var s1 := store;
      SetTotalDeposits(total.value, user);
      OnlyMainTransitive(old(store), s1, store, user);
      ghost var s2 := store;
      SetUserPosition(user, position.value.(balance := balance.value));
      OnlyMainTransitive(old(store), s2, store, user);
      MainWritten(old(store), store, world.vault, user,
                  Put(world.vault.pools[Main], user, StoredAccount(store, user), store.totalDeposits));
      return Ok(());
    }

    method StoreLock(user: Address, amount: int, duration: int, now: int) returns (r: Result<()>)
      requires Shows(store, world.vault) && world.vault.initialized
      modifies this`store
      ensures var v := world.vault;
              var d := LockFunds(v.pools[Main], user, amount, duration, now);
              && r == Outcome(d, ())
              && (r.Ok? ==> Shows(store, v.(pools := v.pools[Main := d.value])))
    {
      ShowsMainOf(store, world.vault, user);
      hide Shows, OnlyMain, Settle, ReadPosition, CheckedSub;
      var position := ReadAndAccrue(user, now);
      if position.Err? {
        return Err(position.error);
      }
      SetUserPosition(user, position.value);
      ghost var s1 := store;
      var liquidBalance := Lookup(store.userLiquidBalance, user);
      if liquidBalance < amount {
        return Err(InsufficientBalance);
      }
      var liquid := CheckedSub(liquidBalance, amount);
      if liquid.Err? {
        return Err(liquid.error);
      }
      SetLiquidBalance(user, liquid.value);
      OnlyMainTransitive(old(store), s1, store, user);
      ghost var s2 := store;
      if U64_MAX < now + duration {
        return Err(MathOverflow);
      }
      SetUserLocks(user, LocksOf(store, user) + [Lock(amount, now + duration)]);
      OnlyMainTransitive(old(store), s2, store, user);
      MainWritten(old(store), store, world.vault, user,
                  Put(world.vault.pools[Main], user, StoredAccount(store, user), store.totalDeposits));
      return Ok(());
    }

    method StoreClaimableRewards(user: Address, now: int) returns (r: Result<int>)
      requires Shows(store, world.vault) && world.vault.initialized
      modifies this`store
      ensures var v := world.vault;
              var d := Claim(v.pools[Main], user, v.vestingPeriod, now);
              && (r.Ok? <==> d.Ok?) && (r.Err? ==> r.error == d.error)
              && (r.Ok? ==> r.value == d.value.1 && Shows(store, v.(pools := v.pools[Main := d.value.0])))
    {
      ShowsMainOf(store, world.vault, user);
      hide Shows, OnlyMain, Settle, ReadPosition, CheckedSub, Vested;
      var position := ReadAndAccrue(user, now);
      if position.Err? {
        return Err(position.error);
      }
      var vested := Vested(now, position.value.accrued, position.value.lastReward, store.vestingPeriod);
      if vested.Err? {
        return vested;
      }
      var rest := CheckedSub(position.value.accrued, vested.value);
      if rest.Err? {
        return rest;
      }
      SetUserPosition(user, position.value.(accrued := rest.value));
      MainWritten(old(store), store, world.vault, user,
                  Put(world.vault.pools[Main], user, StoredAccount(store, user), store.totalDeposits));
      return vested;
    }

    method StoreRewardDistribution(amount: int) returns (r: Result<int>)
      requires Shows(store, world.vault) && world.vault.initialized
      modifies this`store
      ensures var v := world.vault;
              var e := Effective(v, Main, amount);
              var d := if e.Ok? then Distribute(v.pools[Main], e.value) else Err(e.error);
              && (r.Ok? <==> d.Ok?) && (r.Err? ==> r.error == d.error)
              && (r.Ok? ==> r.value == d.value.rewardIndex && Shows(store, v.(pools := v.pools[Main := d.value])))
    {
      ShowsMainOf(store, world.vault, SELF);
      hide Shows, IndexIncrement, CheckedAdd, EffectiveAmount, Multiplier;
      var multiplier :=
        CalculateUtilizationMultiplier(store.totalDeposits, store.targetDeposits, store.utilizationMultipliers);
      if multiplier.Err? {
        return multiplier;
      }
      var effective := EffectiveAmount(amount, multiplier.value);
      if effective.Err? {
        return effective;
      }
      var increment := IndexIncrement(effective.value, store.totalDeposits);
      if increment.Err? {
        return increment;
      }
      var index := CheckedAdd(store.rewardIndex, increment.value);
      if index.Err? {
        return index;
      }
      MainIndexWritten(store, world.vault, index.value);
      store := store.(rewardIndex := index.value);
      return index;
    }

    // ---- storage.rs: the ledger of one asset ----

    /** `accrue_asset_position_rewards` on the stored position; an asset position has no locks. */
    method ReadAndAccrueAsset(user: Address, asset: Address, now: int) returns (r: Result<Position>)
      requires FitsI128(StoredAssetAccount(store, user, asset).liquid)
      ensures var a := StoredAssetAccount(store, user, asset);
              var s := Settle(a, Lookup(store.assetRewardIndex, asset), now);
              && (r.Ok? <==> s.Ok?) && (r.Err? ==> r.error == s.error)
              && ReadPosition(a) == Ok(Position(a.liquid, a.rewardIndex, a.accrued, a.lastReward))
              && (r.Ok? ==> r.value.balance == a.liquid && s.value == WithRewards(a, r.value))
    {
      var position := Position(Lookup(store.userAssetBalance, (user, asset)),
                               Lookup(store.userAssetRewardIndex, (user, asset)),
                               Lookup(store.userAssetAccruedRewards, (user, asset)),
                               Lookup(store.userAssetLastRewardTimestamp, (user, asset)));
      r := Accrue(Lookup(store.assetRewardIndex, asset), position, now);
    }

    method StoreAssetDeposit(user: Address, asset: Address, amount: int, now: int) returns (r: Result<()>)
      requires Shows(store, world.vault)
      modifies this`store
      ensures var v := world.vault;
              if Asset(asset) !in v.pools then r == Err(InvalidAddress)
              else
                var d := Deposit(v.pools[Asset(asset)], user, amount, now);
                && r == Outcome(d, ())
                && (r.Ok? ==> Shows(store, v.(pools := v.pools[Asset(asset) := d.value])))
    {
      if asset !in store.supportedAssets {
        return Err(InvalidAddress);
      }
      ShowsAssetOf(store, world.vault, user, asset);
      hide Shows, ShowsConfig, OnlyAsset, Settle, ReadPosition, CheckedAdd;
      var position := ReadAndAccrueAsset(user, asset, now);
      if position.Err? {
        return Err(position.error);
      }
      var balance := CheckedAdd(position.value.balance, amount);
      if balance.Err? {
        return Err(balance.error);
      }
      var total := CheckedAdd(Lookup(store.assetTotalDeposits, asset), amount);
      if total.Err? {
        return Err(total.error);
      }
      SetAssetTotalDeposits(asset, total.value, user);
      ghost var s1 := store;
      SetUserAssetPosition(user, asset, position.value.(balance := balance.value));
      OnlyAssetTransitive(old(store), s1, store, user, asset);
      assert FitsI128(balance.value) by { CheckedAddFits(position.value.balance, amount); }
      AssetWritten(old(store), store, world.vault, user, asset,
                   Put(world.vault.pools[Asset(asset)], user, StoredAssetAccount(store, user, asset), total.value));
      return Ok(());
    }

    method StoreAssetWithdraw(user: Address, asset: Address, amount: int, now: int) returns (r: Result<()>)
      requires Shows(store, world.vault)
      modifies this`store
      ensures var v := world.vault;
              if Asset(asset) !in v.pools then r == Err(InvalidAddress)
              else
                var d := Withdraw(v.pools[Asset(asset)], user, amount, now);
                && r == Outcome(d, ())
                && (r.Ok? ==> Shows(store, v.(pools := v.pools[Asset(asset) := d.value])))
    {
      if asset !in store.supportedAssets {
        return Err(InvalidAddress);
      }
      ShowsAssetOf(store, world.vault, user, asset);
      hide Shows, ShowsConfig, OnlyAsset, Settle, ReadPosition, CheckedSub, FitsI128, Withdraw;
      var position := ReadAndAccrueAsset(user, asset, now);
      AssetWithdrawCases(world.vault.pools[Asset(asset)], user, amount, now);
      if position.Err? {
        return Err(position.error);
      }
      if position.value.balance < amount {
        return Err(InsufficientBalance);
      }
      var balance := CheckedSub(position.value.balance, amount);
      if balance.Err? {
        return Err(balance.error);
      }
      var total := CheckedSub(Lookup(store.assetTotalDeposits, asset), amount);
      if total.Err? {
        return Err(total.error);
      }
      SetAssetTotalDeposits(asset, total.value, user);
      ghost var s1 := store;
      SetUserAssetPosition(user, asset, position.value.(balance := balance.value));
      OnlyAssetTransitive(old(store), s1, store, user, asset);
      assert FitsI128(balance.value) by { CheckedSubFits(position.value.balance, amount); }
      AssetWritten(old(store), store, world.vault, user, asset,
                   Put(world.vault.pools[Asset(asset)], user, StoredAssetAccount(store, user, asset), total.value));
      return Ok(());
    }

    method StoreAssetRewardDistribution(asset: Address, amount: int) returns (r: Result<int>)
      requires Shows(store, world.vault)
      modifies this`store
      ensures var v := world.vault;
              if Asset(asset) !in v.pools then r == Err(InvalidAddress)
              else
                var d := Distribute(v.pools[Asset(asset)], amount);
                && (r.Ok? <==> d.Ok?) && (r.Err? ==> r.error == d.error)
                && (r.Ok? ==> r.value == d.value.rewardIndex)
                && (r.Ok? ==> Shows(store, v.(pools := v.pools[Asset(asset) := d.value])))
    {
      if asset !in store.supportedAssets {
        return Err(InvalidAddress);
      }
      ShowsAssetOf(store, world.vault, SELF, asset);
      hide Shows, IndexIncrement, CheckedAdd;
      var increment := IndexIncrement(amount, Lookup(store.assetTotalDeposits, asset));
      if increment.Err? {
        return increment;
      }
      var index := CheckedAdd(Lookup(store.assetRewardIndex, asset), increment.value);
      if index.Err? {
        return index;
      }
      AssetIndexWritten(store, world.vault, asset, index.value);
      store := store.(assetRewardIndex := store.assetRewardIndex[asset := index.value]);
      return index;
    }

    method StoreAssetClaimableRewards(user: Address, asset: Address, now: int) returns (r: Result<int>)
      requires Shows(store, world.vault)
      modifies this`store
      ensures var v := world.vault;
              if Asset(asset) !in v.pools then r == Err(InvalidAddress)
              else
                var d := Claim(v.pools[Asset(asset)], user, v.vestingPeriod, now);
                && (r.Ok? <==> d.Ok?) && (r.Err? ==> r.error == d.error)
                && (r.Ok? ==> r.value == d.value.1 && Shows(store, v.(pools := v.pools[Asset(asset) := d.value.0])))
    {
      if asset !in store.supportedAssets {
        return Err(InvalidAddress);
      }
      ShowsAssetOf(store, world.vault, user, asset);
      hide Shows, OnlyAsset, Settle, ReadPosition, CheckedSub, Vested;
      var position := ReadAndAccrueAsset(user, asset, now);
      if position.Err? {
        return Err(position.error);
      }
      var vested := Vested(now, position.value.accrued, position.value.lastReward, store.vestingPeriod);
      if vested.Err? {
        return vested;
      }
      var rest := CheckedSub(position.value.accrued, vested.value);
      if rest.Err? {
        return rest;
      }
      SetUserAssetPosition(user, asset, position.value.(accrued := rest.value));
      AssetWritten(old(store), store, world.vault, user, asset,
                   Put(world.vault.pools[Asset(asset)], user, StoredAssetAccount(store, user, asset),
                       Lookup(store.assetTotalDeposits, asset)));
      return vested;
    }

    // ---- lib.rs: validators ----

    /** The checks of an entry point that moves a user's funds, read from storage. */
    method CheckUser(id: LedgerId, user: Address, amount: int, auth: set<Address>) returns (r: Result<()>)
      requires Valid()
      ensures r == CheckUserCall(world.vault, id, user, amount, auth)
    {
      if store.isPaused {
        return Err(Unauthorized);
      }
      if !store.initialized {
        return Err(NotInitialized);
      }
      if amount < 0 {
        return Err(NegativeAmount);
      }
      if amount == 0 {
        return Err(InvalidAmount);
      }
      if user !in auth || user == SELF {
        return Err(HostTrap);
      }
      if id.Asset? && id.asset !in store.supportedAssets {
        return Err(InvalidAddress);
      }
      if store.reentrancyGuard {
        return Err(ReentrancyDetected);
      }
      return Ok(());
    }

    method CheckDistributor(id: LedgerId, caller: Address, amount: int, auth: set<Address>) returns (r: Result<()>)
      requires Valid()
      ensures r == CheckDistribution(world.vault, id, caller, amount, auth)
    {
      if !store.initialized {
        return Err(NotInitialized);
      }
      if amount < 0 {
        return Err(NegativeAmount);
      }
      if amount == 0 {
        return Err(InvalidAmount);
      }
      if amount < MIN_REWARD_DISTRIBUTION {
        return Err(InsufficientRewardAmount);
      }
      if id.Asset? && id.asset !in store.supportedAssets {
        return Err(InvalidAddress);
      }
      if id.Asset? && caller != store.admin {
        return Err(Unauthorized);
      }
      if store.admin !in auth || store.admin == SELF {
        return Err(HostTrap);
      }
      if store.reentrancyGuard {
        return Err(ReentrancyDetected);
      }
      return Ok(());
    }

    method SetGuard(guard: bool)
      requires Shows(store, world.vault)
      modifies this`store
      ensures Shows(store, world.vault.(guard := guard))
      ensures store == old(store).(reentrancyGuard := guard)
    {
      store := store.(reentrancyGuard := guard);
      FlagsWritten(old(store), store, world.vault, world.vault.(guard := guard));
    }

    // ---- lib.rs: entry points ----

    /** Runs one call; on an error the host restores storage and balances. */
    method Invoke(c: Call) returns (r: Result<int>)
      requires Valid()
      modifies this
      ensures Valid() && world == Execute(old(world), c)
      ensures Agrees(r, Attempt(old(world), c))
      ensures Reachable(old(world)) ==> Reachable(world)
      decreases c, 2
    {
      hide Shows, Begin, Complete, Reachable;
      var savedStore, savedTokens := store, tokens;
      ghost var before := world;
      match c.op {
        case DepositInto(_, _, _) => r := EnterDeposit(c);
        case WithdrawFrom(_, _, _) => r := EnterWithdraw(c);
        case DistributeTo(_, _, _) => r := EnterDistribute(c);
        case ClaimFrom(_, _) => r := EnterClaim(c);
        case LockDeposit(_, _, _) => r := EnterLock(c);
        case UnlockExpiredLocks(_, _) => r := EnterUnlock(c);
        case Initialize(_, _, _, _, _, _) => r := EnterInitialize(c);
        case _ => r := Administer(c);
      }
      if r.Err? {
        store, tokens := savedStore, savedTokens;
        world := before;
      }
      if Reachable(before) {
        ReachableNext(before, Step.Invoke(c));
      }
    }

    /** The calls a token contract makes back into the vault during a transfer, one after another. */
    method RunCallbacks(cs: seq<Call>)
      requires Valid()
      modifies this
      ensures Valid() && world == RunAll(old(world), cs)
      decreases cs, 0
    {
      hide Shows, Execute;
      var i := 0;
      while i < |cs|
        invariant 0 <= i <= |cs| && Valid()
        invariant RunAll(old(world), cs) == RunAll(world, cs[i..])
      {
        assert cs[i..][1..] == cs[i + 1..];
        var ignored := Invoke(cs[i]);
        i := i + 1;
      }
      assert cs[|cs|..] == [];
    }

    method EnterDeposit(c: Call) returns (r: Result<int>)
      requires Valid() && c.op.DepositInto?
      modifies this
      ensures Agrees(r, Attempt(old(world), c))
      ensures r.Ok? ==> Valid() && world == Attempt(old(world), c).value.0
      decreases c, 1
    {
      var id, user, amount := c.op.ledger, c.op.user, c.op.amount;
      AttemptIs(world, c, BeginDeposit(world, id, user, amount, c.auth));
      var check := CheckUser(id, user, amount, c.auth);
      TokenOf(store, world.vault, id);
      hide Shows, CheckUserCall, Attempt, Transfer;
      if check.Err? {
        return Err(check.error);
      }
      SetGuard(true);
      var moved := Transfer(tokens, if id.Main? then store.depositToken else id.asset, user, SELF, amount);
      if moved.Err? {
        return Err(moved.error);
      }
      tokens := moved.value;
      world := Enter(world).(tokens := tokens);
      ghost var inside := world;
      RunCallbacks(c.callbacks);
      ghost var mid := world;
      assert Complete(Transferring(inside, 0), c) == FinishDeposit(mid, id, user, amount, c.now);
      r := DepositBooked(id, user, amount, c.now);
    }

    /** The part of a deposit after the tokens have arrived. */
    method DepositBooked(id: LedgerId, user: Address, amount: I128, now: U64) returns (r: Result<int>)
      requires Valid()
      modifies this
      ensures Agrees(r, FinishDeposit(old(world), id, user, amount, now))
      ensures r.Ok? ==> Valid() && world == FinishDeposit(old(world), id, user, amount, now).value.0
    {
      ConfigOf(store, world.vault, id);
      hide Shows, Deposit;
      if !store.initialized {
        return Err(NotInitialized);
      }
      var stored: Result<()>;
      if id.Main? {
        stored := StoreDeposit(user, amount, now);
      } else {
        stored := StoreAssetDeposit(user, id.asset, amount, now);
      }
      if stored.Err? {
        return Err(stored.error);
      }
      ghost var after := FinishDeposit(world, id, user, amount, now).value.0;
      world := after.(vault := after.vault.(guard := world.vault.guard));
      SetGuard(false);
      world := after;
      return Ok(0);
    }

    method EnterWithdraw(c: Call) returns (r: Result<int>)
      requires Valid() && c.op.WithdrawFrom?
      modifies this
      ensures Agrees(r, Attempt(old(world), c))
      ensures r.Ok? ==> Valid() && world == Attempt(old(world), c).value.0
      decreases c, 1
    {
      hide Shows, BeginWithdraw, Attempt;
      AttemptIs(world, c, BeginWithdraw(world, c.op.ledger, c.op.user, c.op.amount, c.auth, c.now));
      r := SendWithdrawal(c.op.ledger, c.op.user, c.op.amount, c.auth, c.now);
      if r.Err? {
        return;
      }
      ghost var inside := world;
      RunCallbacks(c.callbacks);
      assert Complete(Transferring(inside, 0), c) == Ok((Exit(world), 0));
      SetGuard(false);
      world := Exit(world);
    }

    /** A withdrawal up to its transfer: checks, guard, ledger, tokens. */
    method SendWithdrawal(id: LedgerId, user: Address, amount: I128, auth: set<Address>,
                          now: U64) returns (r: Result<int>)
      requires Valid()
      modifies this
      ensures var b := BeginWithdraw(old(world), id, user, amount, auth, now);
              && (r.Ok? <==> b.Ok?) && (r.Err? ==> r.error == b.error)
              && (r.Ok? ==> r.value == 0 && Valid() && b.value == Transferring(world, 0))
    {
      ghost var w := world;
      var check := CheckUser(id, user, amount, auth);
      CheckedCall(world.vault, id, user, amount, auth);
      BeginWithdrawCases(w, id, user, amount, auth, now);
      hide Shows, CheckUserCall, Transfer, Withdraw, AfterAccrual, BooksOf, Outcome, BeginWithdraw, SetLedger;
      if check.Err? {
        return Err(check.error);
      }
      SetGuard(true);
      world := Enter(world);
      r := WithdrawalSent(id, user, amount, now);
    }

    /** A withdrawal inside the guard: the ledger first, then the tokens. */
    method WithdrawalSent(id: LedgerId, user: Address, amount: I128, now: U64) returns (r: Result<int>)
      requires Valid() && world.vault.initialized && id in world.vault.pools
      modifies this
      ensures var b := WithdrawInside(old(world), id, user, amount, now);
              && (r.Ok? <==> b.Ok?) && (r.Err? ==> r.error == b.error)
              && (r.Ok? ==> r.value == 0 && Valid() && b.value == world)
    {
      ghost var w := world;
      TokenOf(store, world.vault, id);
      hide Shows, Transfer, Withdraw, AfterAccrual, BooksOf, Outcome;
      var token := if id.Main? then store.depositToken else id.asset;
      var stored := WithdrawalBooked(id, user, amount, now);
      if stored.Err? {
        return Err(stored.error);
      }
      var moved := Transfer(tokens, token, SELF, user, amount);
      if moved.Err? {
        return Err(moved.error);
      }
      tokens := moved.value;
      world := world.(tokens := tokens);
      return Ok(0);
    }

    /** The ledger part of a withdrawal. */
    method WithdrawalBooked(id: LedgerId, user: Address, amount: int, now: int) returns (r: Result<()>)
      requires Valid() && world.vault.initialized && id in world.vault.pools
      modifies this`store, this`world
      ensures var w := old(world);
              var d := Withdraw(w.vault.pools[id], user, amount, now);
              && r == Outcome(d, ())
              && (r.Ok? ==> Valid())
              && (r.Ok? ==> world == SetLedger(w, id, d.value, AfterAccrual(BooksOf(w, id), w.vault.pools[id], user)))
    {
      hide Shows, Withdraw, AfterAccrual, BooksOf;
      if id.Main? {
        r := StoreWithdraw(user, amount, now);
      } else {
        r := StoreAssetWithdraw(user, id.asset, amount, now);
      }
      if r.Ok? {
        world := SetLedger(world, id, Withdraw(world.vault.pools[id], user, amount, now).value,
                           AfterAccrual(BooksOf(world, id), world.vault.pools[id], user));
      }
    }

    method EnterDistribute(c: Call) returns (r: Result<int>)
      requires Valid() && c.op.DistributeTo?
      modifies this
      ensures Agrees(r, Attempt(old(world), c))
      ensures r.Ok? ==> Valid() && world == Attempt(old(world), c).value.0
      decreases c, 1
    {
      var id, caller, amount := c.op.ledger, c.op.caller, c.op.amount;
      AttemptIs(world, c, BeginDistribute(world, id, caller, amount, c.auth));
      var check := CheckDistributor(id, caller, amount, c.auth);
      TokenOf(store, world.vault, id);
      hide Shows, CheckDistribution, Attempt, Transfer;
      if check.Err? {
        return Err(check.error);
      }
      SetGuard(true);
      var moved := Transfer(tokens, store.rewardToken, store.admin, SELF, amount);
      if moved.Err? {
        return Err(moved.error);
      }
      tokens := moved.value;
      world := Enter(world).(tokens := tokens);
      ghost var inside := world;
      RunCallbacks(c.callbacks);
      ghost var mid := world;
      assert Complete(Transferring(inside, 0), c) == FinishDistribute(mid, id, amount);
      r := DistributionBooked(id, amount);
    }

    /** The part of a distribution after the tokens have arrived. */
    method DistributionBooked(id: LedgerId, amount: I128) returns (r: Result<int>)
      requires Valid()
      modifies this
      ensures Agrees(r, FinishDistribute(old(world), id, amount))
      ensures r.Ok? ==> Valid() && world == FinishDistribute(old(world), id, amount).value.0
    {
      ConfigOf(store, world.vault, id);
      hide Shows, Distribute, Multiplier, EffectiveAmount;
      if !store.initialized {
        return Err(NotInitialized);
      }
      if id.Main? {
        r := StoreRewardDistribution(amount);
      } else {
        r := StoreAssetRewardDistribution(id.asset, amount);
      }
      if r.Err? {
        return;
      }
      ghost var after := FinishDistribute(world, id, amount).value.0;
      world := after.(vault := after.vault.(guard := world.vault.guard));
      SetGuard(false);
      world := after;
    }

    method EnterClaim(c: Call) returns (r: Result<int>)
      requires Valid() && c.op.ClaimFrom?
      modifies this
      ensures Agrees(r, Attempt(old(world), c))
      ensures r.Ok? ==> Valid() && world == Attempt(old(world), c).value.0
      decreases c, 1
    {
      hide Shows, BeginClaim, Attempt;
      AttemptIs(world, c, BeginClaim(world, c.op.ledger, c.op.user, c.auth, c.now));
      var sent := false;
      r, sent := SendRewards(c.op.ledger, c.op.user, c.auth, c.now);
      if r.Err? || !sent {
        return;
      }
      ghost var inside := world;
      RunCallbacks(c.callbacks);
      assert Complete(Transferring(inside, r.value), c) == Ok((Exit(world), r.value));
      SetGuard(false);
      world := Exit(world);
    }

    /** A claim up to its transfer; without anything to pay it is complete. */
    method SendRewards(id: LedgerId, user: Address, auth: set<Address>, now: U64) returns (r: Result<int>, sent: bool)
      requires Valid()
      modifies this
      ensures var b := BeginClaim(old(world), id, user, auth, now);
              && (r.Ok? <==> b.Ok?) && (r.Err? ==> r.error == b.error)
              && (r.Ok? ==> Valid() && b.value == if sent then Transferring(world, r.value) else Done(world, r.value))
    {
      ghost var w := world;
      sent := false;
      var check := CheckUser(id, user, 1, auth);
      CheckedCall(world.vault, id, user, 1, auth);
      BeginClaimCases(w, id, user, auth, now);
      hide Shows, CheckUserCall, Transfer, Claim, AfterClaim, BooksOf, Held, BeginClaim, SetLedger;
      if check.Err? {
        return Err(check.error), false;
      }
      SetGuard(true);
      world := Enter(world);
      r, sent := RewardsSent(id, user, now);
    }

    /** A claim inside the guard: the ledger first, then the payment, if there is one. */
    method RewardsSent(id: LedgerId, user: Address, now: U64) returns (r: Result<int>, sent: bool)
      requires Valid() && world.vault.initialized && id in world.vault.pools
      modifies this
      ensures var b := ClaimInside(old(world), id, user, now);
              && (r.Ok? <==> b.Ok?) && (r.Err? ==> r.error == b.error)
              && (r.Ok? ==> Valid() && b.value == if sent then Transferring(world, r.value) else Done(world, r.value))
    {
      hide Shows, Transfer, Claim, AfterClaim, BooksOf, Held;
      sent := false;
      r := ClaimBooked(id, user, now);
      if r.Err? {
        return;
      }
      if r.value <= 0 {
        SetGuard(false);
        world := Exit(world);
        return Ok(0), false;
      }
      r := PayRewards(user, r.value);
      sent := r.Ok?;
    }

    /** The payment of a claim: the contract's balance is checked before the transfer. */
    method PayRewards(user: Address, due: int) returns (r: Result<int>)
      requires Valid()
      modifies this`tokens, this`world
      ensures var w := old(world);
              if Held(w.tokens, w.vault.rewardToken, SELF) < due then r == Err(InsufficientContractBalance)
              else var t := Transfer(w.tokens, w.vault.rewardToken, SELF, user, due);
                   t.Ok? && r == Ok(due) && Valid() && world == w.(tokens := t.value)
    {
      TokenOf(store, world.vault, Main);
      hide Shows, Held;
      if Held(tokens, store.rewardToken, SELF) < due {
        return Err(InsufficientContractBalance);
      }
      FundedTransfer(tokens, store.rewardToken, SELF, user, due);
      hide Transfer;
      tokens := Transfer(tokens, store.rewardToken, SELF, user, due).value;
      world := world.(tokens := tokens);
      return Ok(due);
    }

    /** The ledger part of a claim. */
    method ClaimBooked(id: LedgerId, user: Address, now: int) returns (r: Result<int>)
      requires Valid() && world.vault.initialized && id in world.vault.pools
      modifies this`store, this`world
      ensures var w := old(world);
              var d := Claim(w.vault.pools[id], user, w.vault.vestingPeriod, now);
              && (r.Ok? <==> d.Ok?) && (r.Err? ==> r.error == d.error)
              && (r.Ok? ==> Valid() && r.value == d.value.1)
              && (r.Ok? ==> world == SetLedger(w, id, d.value.0,
                                               AfterClaim(BooksOf(w, id), w.vault.pools[id], user, d.value.1)))
    {
      hide Shows, Claim, AfterClaim, BooksOf;
      if id.Main? {
        r := StoreClaimableRewards(user, now);
      } else {
        r := StoreAssetClaimableRewards(user, id.asset, now);
      }
      if r.Ok? {
        ghost var d := Claim(world.vault.pools[id], user, world.vault.vestingPeriod, now).value;
        world := SetLedger(world, id, d.0, AfterClaim(BooksOf(world, id), world.vault.pools[id], user, d.1));
      }
    }

    method EnterLock(c: Call) returns (r: Result<int>)
      requires Valid() && c.op.LockDeposit?
      modifies this
      ensures Agrees(r, Attempt(old(world), c))
      ensures r.Ok? ==> Valid() && world == Attempt(old(world), c).value.0
    {
      hide Shows, BeginLock, Attempt;
      AttemptIs(world, c, BeginLock(world, c.op.user, c.op.amount, c.op.duration, c.auth, c.now));
      r := LockDuring(c.op.user, c.op.amount, c.op.duration, c.auth, c.now);
    }

    method LockDuring(user: Address, amount: I128, duration: U64, auth: set<Address>, now: U64) returns (r: Result<int>)
      requires Valid()
      modifies this
      ensures var b := BeginLock(old(world), user, amount, duration, auth, now);
              && (r.Ok? <==> b.Ok?) && (r.Err? ==> r.error == b.error)
              && (r.Ok? ==> r.value == 0 && Valid() && b.value == Done(world, 0))
    {
      ghost var w := world;
      FlagsOf(store, world.vault);
      ConfigOf(store, world.vault, Main);
      BeginLockCases(w, user, amount, duration, auth, now);
      hide Shows, CheckUserCall, LockFunds, AfterAccrual, BooksOf, BeginLock, SetLedger;
      if !store.isPaused && store.initialized && 0 < amount && duration == 0 {
        return Err(InvalidLockDuration);
      }
      var check := CheckUser(Main, user, amount, auth);
      if check.Err? {
        return Err(check.error);
      }
      CheckedCall(world.vault, Main, user, amount, auth);
      SetGuard(true);
      world := Enter(world);
      if U64_MAX < now + duration {
        return Err(MathOverflow);
      }
      r := LockBooked(user, amount, duration, now);
      if r.Ok? {
        SetGuard(false);
        world := Exit(world);
      }
    }

    /** The ledger part of locking. */
    method LockBooked(user: Address, amount: I128, duration: U64, now: U64) returns (r: Result<int>)
      requires Valid() && world.vault.initialized && Main in world.vault.pools
      modifies this`store, this`world
      ensures var w := old(world);
              var d := LockFunds(w.vault.pools[Main], user, amount, duration, now);
              && r == Outcome(d, 0)
              && (r.Ok? ==> Valid())
              && (r.Ok? ==> world == SetLedger(w, Main, d.value,
                                               AfterAccrual(BooksOf(w, Main), w.vault.pools[Main], user)))
    {
      hide Shows, LockFunds, AfterAccrual, BooksOf;
      var stored := StoreLock(user, amount, duration, now);
      if stored.Err? {
        return Err(stored.error);
      }
      ghost var p := LockFunds(world.vault.pools[Main], user, amount, duration, now).value;
      world := SetLedger(world, Main, p, AfterAccrual(BooksOf(world, Main), world.vault.pools[Main], user));
      return Ok(0);
    }

    method EnterUnlock(c: Call) returns (r: Result<int>)
      requires Valid() && c.op.UnlockExpiredLocks?
      modifies this
      ensures Agrees(r, Attempt(old(world), c))
      ensures r.Ok? ==> Valid() && world == Attempt(old(world), c).value.0
    {
      hide Shows, BeginUnlock, Attempt;
      AttemptIs(world, c, BeginUnlock(world, c.op.user, c.op.limit, c.auth, c.now));
      r := UnlockBatch(c.op.user, c.op.limit, c.auth, c.now);
    }

    method UnlockBatch(user: Address, limit: U32, auth: set<Address>, now: U64) returns (r: Result<int>)
      requires Valid()
      modifies this
      ensures var b := BeginUnlock(old(world), user, limit, auth, now);
              && (r.Ok? <==> b.Ok?) && (r.Err? ==> r.error == b.error)
              && (r.Ok? ==> Valid() && b.value == Done(world, r.value))
    {
      FlagsOf(store, world.vault);
      ConfigOf(store, world.vault, Main);
      if !store.isPaused && store.initialized && Authorised(user, auth) && MAX_UNLOCK_LIMIT < limit {
        return Err(OperationLimitExceeded);
      }
      var check := CheckUser(Main, user, 1, auth);
      CheckedCall(world.vault, Main, user, 1, auth);
      hide Shows, CheckUserCall, UnlockExpired, BooksOf;
      if check.Err? {
        return Err(check.error);
      }
      SetGuard(true);
      world := Enter(world);
      r := UnlockMainLedger(user, limit, now);
      if r.Err? {
        return;
      }
      world := SetLedger(world, Main, UnlockExpired(world.vault.pools[Main], user, limit, now).value.0,
                         BooksOf(world, Main));
      SetGuard(false);
      world := Exit(world);
    }

    method UnlockMainLedger(user: Address, limit: nat, now: int) returns (r: Result<int>)
      requires Shows(store, world.vault) && world.vault.initialized
      modifies this`store
      ensures var v := world.vault;
              var d := UnlockExpired(v.pools[Main], user, limit, now);
              && (r.Ok? <==> d.Ok?) && (r.Err? ==> r.error == d.error)
              && (r.Ok? ==> r.value == d.value.1 && Shows(store, v.(pools := v.pools[Main := d.value.0])))
    {
      ShowsMainOf(store, world.vault, user);
      hide Shows, OnlyMain, Unlock;
      r := StoreUnlockExpired(user, limit, now);
      ghost var v := world.vault;
      if r.Ok? && 0 < r.value {
        MainWritten(old(store), store, v, user,
                    Put(v.pools[Main], user, StoredAccount(store, user), v.pools[Main].totalDeposits));
      } else {
        assert v.pools[Main := v.pools[Main]] == v.pools;
      }
    }

    method EnterInitialize(c: Call) returns (r: Result<int>)
      requires Valid() && c.op.Initialize?
      modifies this
      ensures Agrees(r, Attempt(old(world), c))
      ensures r.Ok? ==> Valid() && world == Attempt(old(world), c).value.0
    {
      var op := c.op;
      AttemptIs(world, c, BeginInitialize(world, op, c.auth));
      if store.isPaused {
        return Err(Unauthorized);
      }
      if store.initialized {
        return Err(AlreadyInitialized);
      }
      if op.depositToken == op.rewardToken {
        return Err(InvalidTokenConfiguration);
      }
      var sorted := ValidateUtilizationMultipliers(op.curve);
      if sorted.Err? {
        return Err(sorted.error);
      }
      if op.admin !in c.auth || op.admin == SELF {
        return Err(HostTrap);
      }
      store := store.(initialized := true, admin := op.admin, pendingAdmin := None, depositToken := op.depositToken,
                      rewardToken := op.rewardToken, vestingPeriod := op.vestingPeriod,
                      totalDeposits := 0, rewardIndex := 0,
                      targetDeposits := op.targetDeposits, utilizationMultipliers := op.curve,
                      reentrancyGuard := false, isPaused := false);
      world := BeginInitialize(world, op, c.auth).value.world;
      InitializedShows(old(store), store, old(world).vault, world.vault);
      return Ok(0);
    }

    /** `propose_new_admin`, `accept_admin`, `pause_contract`, `unpause_contract` and `add_asset`. */
    method Administer(c: Call) returns (r: Result<int>)
      requires Valid() && !IsGuarded(c.op) && !c.op.Initialize?
      modifies this
      ensures Agrees(r, Attempt(old(world), c))
      ensures r.Ok? ==> Valid() && world == Attempt(old(world), c).value.0
    {
      ghost var begun := Begin(world, c.op, c.auth, c.now);
      AttemptIs(world, c, begun);
      TokenOf(store, world.vault, Main);
      ConfigOf(store, world.vault, Main);
      FlagsOf(store, world.vault);
      hide Shows, Attempt;
      if !store.initialized {
        return Err(NotInitialized);
      }
      match c.op {
        case ProposeNewAdmin(newAdmin) =>
          if !Authorised(store.admin, c.auth) {
            return Err(HostTrap);
          }
          store := store.(pendingAdmin := Some(newAdmin));
          FlagsWritten(old(store), store, world.vault, begun.value.world.vault);
        case AcceptAdmin(newAdmin) =>
          if !Authorised(newAdmin, c.auth) {
            return Err(HostTrap);
          }
          if store.pendingAdmin.None? {
            return Err(NoPendingAdmin);
          }
          if store.pendingAdmin.value != newAdmin {
            return Err(Unauthorized);
          }
          store := store.(admin := newAdmin, pendingAdmin := None);
          FlagsWritten(old(store), store, world.vault, begun.value.world.vault);
        case SetPaused(paused) =>
          if !Authorised(store.admin, c.auth) {
            return Err(HostTrap);
          }
          store := store.(isPaused := paused);
          FlagsWritten(old(store), store, world.vault, begun.value.world.vault);
        case AddAsset(caller, asset) =>
          if caller != store.admin {
            return Err(Unauthorized);
          }
          if !Authorised(caller, c.auth) {
            return Err(HostTrap);
          }
          AssetListed(store, world.vault, asset);
          if asset !in store.supportedAssets {
            AssetAdded(store, world.vault, asset);
            store := store.(supportedAssets := store.supportedAssets + {asset});
            store := store.(assetTotalDeposits := store.assetTotalDeposits[asset := 0]);
            store := store.(assetRewardIndex := store.assetRewardIndex[asset := 0]);
          }
      }
      world := begun.value.world;
      return Ok(0);
    }
  }

  function WithRewards(a: Account, position: Position): Account {
    a.(rewardIndex := position.rewardIndex, accrued := position.accrued, lastReward := position.lastReward)
  }

  /** Unlocking reads and writes only the liquid balance and the locks. */
  lemma {:induction false} UnlockIgnoresRewards(a: Account, position: Position, now: int, limit: nat)
    ensures var s := WithRewards(a, position);
            var u, t := Unlock(a, now, limit), Unlock(s, now, limit);
            && (u.Ok? <==> t.Ok?) && (u.Err? ==> u.error == t.error)
            && (u.Ok? ==> u.value.1 == t.value.1 && t.value.0 == WithRewards(u.value.0, position))
  {
  }

  lemma {:induction false} CheckedAddFits(a: int, b: int)
    ensures var r := CheckedAdd(a, b); r.Ok? ==> FitsI128(r.value)
  {
  }

  lemma {:induction false} CheckedSubFits(a: int, b: int)
    ensures var r := CheckedSub(a, b); r.Ok? ==> FitsI128(r.value)
  {
  }

  lemma {:induction false} NothingToUnlock(a: Account, now: int, limit: nat)
    requires |a.locks| == 0
    ensures Unlock(a, now, limit) == Ok((a, 0))
  {
  }

  /** A withdrawal from a ledger without locks, check by check. */
  lemma {:induction false} AssetWithdrawCases(p: Pool, u: Address, amount: int, now: int)
    requires var a := AccountOf(p, u);
             |a.locks| == 0 && ReadPosition(a) == Ok(Position(a.liquid, a.rewardIndex, a.accrued, a.lastReward))
    ensures var s := Settle(AccountOf(p, u), p.rewardIndex, now);
            var liquid, total := CheckedSub(AccountOf(p, u).liquid, amount), CheckedSub(p.totalDeposits, amount);
            Withdraw(p, u, amount, now) ==
              if s.Err? then Err(s.error)
              else if AccountOf(p, u).liquid < amount then Err(InsufficientBalance)
              else if liquid.Err? then Err(liquid.error)
              else if total.Err? then Err(total.error)
              else Ok(Put(p, u, s.value.(liquid := liquid.value), total.value))
  {
    hide ReadPosition, CheckedSub, Unlock, Accrue;
    var s := Settle(AccountOf(p, u), p.rewardIndex, now);
    if s.Ok? {
      NothingToUnlock(s.value, now, WITHDRAW_UNLOCK_LIMIT);
    }
  }

  // ---- Reading the entry points' specification ----

  ghost predicate Agrees(r: Result<int>, spec: Result<(World, int)>) {
    && (r.Ok? <==> spec.Ok?) && (r.Err? ==> r.error == spec.error) && (r.Ok? ==> r.value == spec.value.1)
  }

  lemma {:induction false} AttemptIs(w: World, c: Call, begun: Result<Phase>)
    requires Begin(w, c.op, c.auth, c.now) == begun
    ensures Attempt(w, c) == if begun.Ok? then Complete(begun.value, c) else Err(begun.error)
  {
  }

  /** What a withdrawal does once the guard is set. */
  ghost function WithdrawInside(w: World, id: LedgerId, user: Address, amount: I128, now: U64): Result<World>
    requires id in w.vault.pools
  {
    var p :- Withdraw(w.vault.pools[id], user, amount, now);
    var tokens :- Transfer(w.tokens, LedgerToken(w.vault, id), SELF, user, amount);
    Ok(SetLedger(w, id, p, AfterAccrual(BooksOf(w, id), w.vault.pools[id], user)).(tokens := tokens))
  }

  lemma {:induction false} BeginWithdrawCases(w: World, id: LedgerId, user: Address, amount: I128, auth: set<Address>,
                                              now: U64)
    ensures var check := CheckUserCall(w.vault, id, user, amount, auth);
            var b := BeginWithdraw(w, id, user, amount, auth, now);
            if check.Err? then b == Err(check.error)
            else
              && id in w.vault.pools
              && var inside := WithdrawInside(Enter(w), id, user, amount, now);
              && (b.Ok? <==> inside.Ok?) && (b.Err? ==> b.error == inside.error)
              && (b.Ok? ==> b.value == Transferring(inside.value, 0))
  {
    CheckedCall(w.vault, id, user, amount, auth);
    hide CheckUserCall, Withdraw, Transfer, AfterAccrual;
  }

  /** What a claim does once the guard is set. */
  ghost function ClaimInside(w: World, id: LedgerId, user: Address, now: U64): Result<Phase>
    requires id in w.vault.pools
  {
    var (p, due) :- Claim(w.vault.pools[id], user, w.vault.vestingPeriod, now);
    var w1 := SetLedger(w, id, p, AfterClaim(BooksOf(w, id), w.vault.pools[id], user, due));
    if due <= 0 then Ok(Done(Exit(w1), 0))
    else if Held(w.tokens, w.vault.rewardToken, SELF) < due then Err(InsufficientContractBalance)
    else
      var tokens :- Transfer(w.tokens, w.vault.rewardToken, SELF, user, due);
      Ok(Transferring(w1.(tokens := tokens), due))
  }

  lemma {:induction false} BeginClaimCases(w: World, id: LedgerId, user: Address, auth: set<Address>, now: U64)
    ensures var check := CheckUserCall(w.vault, id, user, 1, auth);
            var b := BeginClaim(w, id, user, auth, now);
            if check.Err? then b == Err(check.error)
            else
              && id in w.vault.pools
              && var inside := ClaimInside(Enter(w), id, user, now);
              && (b.Ok? <==> inside.Ok?) && (b.Err? ==> b.error == inside.error)
              && (b.Ok? ==> b.value == inside.value)
  {
    CheckedCall(w.vault, id, user, 1, auth);
    hide CheckUserCall, Claim, Transfer, AfterClaim, Held;
  }

  lemma {:induction false} BeginLockCases(w: World, user: Address, amount: I128, duration: U64, auth: set<Address>,
                                          now: U64)
    ensures var check := CheckUserCall(w.vault, Main, user, amount, auth);
            var b := BeginLock(w, user, amount, duration, auth, now);
            if !w.vault.paused && w.vault.initialized && 0 < amount && duration == 0 then b == Err(InvalidLockDuration)
            else if check.Err? then b == Err(check.error)
            else if U64_MAX < now + duration then b == Err(MathOverflow)
            else
              && Main in w.vault.pools
              && var d := LockFunds(Enter(w).vault.pools[Main], user, amount, duration, now);
              && (b.Ok? <==> d.Ok?) && (b.Err? ==> b.error == d.error)
              && (b.Ok? ==>
                    var books := AfterAccrual(BooksOf(Enter(w), Main), w.vault.pools[Main], user);
                    b.value == Done(Exit(SetLedger(Enter(w), Main, d.value, books)), 0))
  {
    CheckedCall(w.vault, Main, user, amount, auth);
    hide CheckUserCall, LockFunds, AfterAccrual;
  }

  lemma {:induction false} FundedTransfer(tokens: Tokens, token: Address, from: Address, to: Address, amount: int)
    requires amount <= Held(tokens, token, from)
    ensures Transfer(tokens, token, from, to, amount).Ok?
  {
  }

  lemma {:induction false} TokenOf(s: Storage, v: Vault, id: LedgerId)
    requires Shows(s, v)
    ensures LedgerToken(v, id) == if id.Main? then s.depositToken else id.asset
    ensures s.rewardToken == v.rewardToken && s.admin == v.admin && s.vestingPeriod == v.vestingPeriod
  {
  }

  lemma {:induction false} ConfigOf(s: Storage, v: Vault, id: LedgerId)
    requires Shows(s, v)
    ensures s.initialized == v.initialized
    ensures v.initialized ==> Main in v.pools
  {
  }

  lemma {:induction false} CheckedCall(v: Vault, id: LedgerId, user: Address, amount: int, auth: set<Address>)
    ensures CheckUserCall(v, id, user, amount, auth).Ok? ==> v.initialized && id in v.pools && !v.guard
  {
  }

  lemma {:induction false} FlagsOf(s: Storage, v: Vault)
    requires Shows(s, v)
    ensures s.pendingAdmin == v.pendingAdmin && s.reentrancyGuard == v.guard && s.isPaused == v.paused
  {
  }

  lemma {:induction false} AssetListed(s: Storage, v: Vault, a: Address)
    requires Shows(s, v)
    ensures a in s.supportedAssets <==> Asset(a) in v.pools
  {
  }

  /** Before `initialize` no user key is stored, so the fresh ledger shows correctly. */
  lemma {:induction false} InitializedShows(s: Storage, s': Storage, v: Vault, v': Vault)
    requires Shows(s, v) && !v.initialized && v.pools == map[]
    requires s' == s.(initialized := true, admin := s'.admin, pendingAdmin := s'.pendingAdmin,
                      depositToken := s'.depositToken, rewardToken := s'.rewardToken,
                      vestingPeriod := s'.vestingPeriod, totalDeposits := 0, rewardIndex := 0,
                      targetDeposits := s'.targetDeposits, utilizationMultipliers := s'.utilizationMultipliers,
                      reentrancyGuard := false, isPaused := false)
    requires v' == Vault(true, s'.admin, s'.pendingAdmin, s'.depositToken, s'.rewardToken, s'.vestingPeriod,
                         s'.targetDeposits, s'.utilizationMultipliers, false, false, map[Main := Pool(0, 0, map[])])
    ensures Shows(s', v')
  {
    forall u: Address
      ensures StoredAccount(s', u) == AccountOf(PoolOf(v', Main), u)
    {
      assert StoredAccount(s', u) == StoredAccount(s, u) == AccountOf(PoolOf(v, Main), u);
    }
    forall a: Address
      ensures ShowsAsset(s', a, PoolOf(v', Asset(a)))
    {
      assert ShowsAsset(s, a, PoolOf(v, Asset(a)));
      forall u: Address
        ensures StoredAssetAccount(s', u, a) == AccountOf(PoolOf(v', Asset(a)), u)
        ensures FitsI128(StoredAssetAccount(s', u, a).liquid)
      {
        assert StoredAssetAccount(s', u, a) == StoredAssetAccount(s, u, a);
      }
    }
  }
}
