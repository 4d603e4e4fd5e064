/** The contract's keyed storage, and the storage operations as methods that write it key by key.
    Zero balances, indices and rewards are removed instead of stored, so what a ledger says about a user
    is spread over several sparse maps; every method is proved against the ledger operation it
    implements. */
module VaultStorage {
  import opened MachineInts
  import opened TimeLocks
  import opened Totals
  import opened RewardPool
  import opened Utilization
  import opened VaultWorld

  /** One field per storage key; per-asset keys are (user, asset). */
  datatype Storage = Storage(
    initialized: bool,
    admin: Address,
    pendingAdmin: Option<Address>,
    depositToken: Address,
    rewardToken: Address,
    totalDeposits: int,
    rewardIndex: int,
    vestingPeriod: U64,
    targetDeposits: I128,
    utilizationMultipliers: seq<MultiplierPoint>,
    reentrancyGuard: bool,
    isPaused: bool,
    userLiquidBalance: map<Address, int>,
    userLocks: map<Address, seq<Lock>>,
    userRewardIndex: map<Address, int>,
    userAccruedRewards: map<Address, int>,
    userLastRewardTimestamp: map<Address, int>,
    supportedAssets: set<Address>,
    assetTotalDeposits: map<Address, int>,
    assetRewardIndex: map<Address, int>,
    userAssetBalance: map<(Address, Address), int>,
    userAssetRewardIndex: map<(Address, Address), int>,
    userAssetAccruedRewards: map<(Address, Address), int>,
    userAssetLastRewardTimestamp: map<(Address, Address), int>)

  /** A contract without any key; reading an absent key yields these defaults. */
  const EMPTY_STORAGE: Storage :=
    Storage(false, SELF, None, SELF, SELF, 0, 0, 0, 0, [], false, false,
            map[], map[], map[], map[], map[], {}, map[], map[], map[], map[], map[], map[])

  /** Writing a value where zero means absent. */
  function PutOrRemove<K(==)>(m: map<K, int>, k: K, v: int): map<K, int> {
    if v == 0 then m - {k} else m[k := v]
  }

  function LocksOf(s: Storage, u: Address): seq<Lock> {
    if u in s.userLocks then s.userLocks[u] else NoLocks(u.id)
  }

  // ---- What the storage means ----

  function StoredAccount(s: Storage, u: Address): Account {
    Account(Lookup(s.userLiquidBalance, u), LocksOf(s, u), Lookup(s.userRewardIndex, u),
            Lookup(s.userAccruedRewards, u), Lookup(s.userLastRewardTimestamp, u))
  }

  function StoredAssetAccount(s: Storage, u: Address, a: Address): Account {
    Account(Lookup(s.userAssetBalance, (u, a)), NoLocks(u.id), Lookup(s.userAssetRewardIndex, (u, a)),
            Lookup(s.userAssetAccruedRewards, (u, a)), Lookup(s.userAssetLastRewardTimestamp, (u, a)))
  }

  function PoolOf(v: Vault, id: LedgerId): Pool { if id in v.pools then v.pools[id] else Pool(0, 0, map[]) }

  ghost predicate ShowsMain(s: Storage, p: Pool) {
    && s.totalDeposits == p.totalDeposits && s.rewardIndex == p.rewardIndex
    && forall u: Address :: StoredAccount(s, u) == AccountOf(p, u)
  }

  ghost predicate ShowsAsset(s: Storage, a: Address, p: Pool) {
    && Lookup(s.assetTotalDeposits, a) == p.totalDeposits && Lookup(s.assetRewardIndex, a) == p.rewardIndex
    && forall u: Address ::
         StoredAssetAccount(s, u, a) == AccountOf(p, u) && FitsI128(StoredAssetAccount(s, u, a).liquid)
  }

  ghost predicate ShowsConfig(s: Storage, v: Vault) {
    && s.initialized == v.initialized && s.admin == v.admin && s.pendingAdmin == v.pendingAdmin
    && s.depositToken == v.depositToken && s.rewardToken == v.rewardToken
    && s.vestingPeriod == v.vestingPeriod && s.targetDeposits == v.targetDeposits
    && s.utilizationMultipliers == v.curve && s.reentrancyGuard == v.guard && s.isPaused == v.paused
    && (Main in v.pools <==> v.initialized) && (!v.initialized ==> v.pools == map[])
    && forall a: Address :: a in s.supportedAssets <==> Asset(a) in v.pools
  }

  /** The storage holds exactly the vault `v`: its configuration, its main ledger and every asset
      ledger. */
  ghost predicate Shows(s: Storage, v: Vault) {
    && ShowsConfig(s, v)
    && ShowsMain(s, PoolOf(v, Main))
    && forall a: Address :: ShowsAsset(s, a, PoolOf(v, Asset(a)))
  }

  /** Only keys of the main ledger differ, and per user only those of `u`. */
  ghost predicate OnlyMain(s: Storage, s': Storage, u: Address) {
    && s' == s.(totalDeposits := s'.totalDeposits, userLiquidBalance := s'.userLiquidBalance,
                userLocks := s'.userLocks, userRewardIndex := s'.userRewardIndex,
                userAccruedRewards := s'.userAccruedRewards, userLastRewardTimestamp := s'.userLastRewardTimestamp)
    && forall v: Address :: v != u ==> StoredAccount(s', v) == StoredAccount(s, v)
  }

  /** Only keys of the ledger of asset `a` differ, and per user only those of `u`. */
  ghost predicate OnlyAsset(s: Storage, s': Storage, u: Address, a: Address) {
    && s' == s.(assetTotalDeposits := s'.assetTotalDeposits, userAssetBalance := s'.userAssetBalance,
                userAssetRewardIndex := s'.userAssetRewardIndex, userAssetAccruedRewards := s'.userAssetAccruedRewards,
                userAssetLastRewardTimestamp := s'.userAssetLastRewardTimestamp)
    && (forall b: Address :: b != a ==> Lookup(s'.assetTotalDeposits, b) == Lookup(s.assetTotalDeposits, b))
    && forall v: Address, b: Address :: (v, b) != (u, a) ==> StoredAssetAccount(s', v, b) == StoredAssetAccount(s, v, b)
  }

  lemma {:induction false} OnlyMainTransitive(s: Storage, s1: Storage, s2: Storage, u: Address)
    requires OnlyMain(s, s1, u) && OnlyMain(s1, s2, u)
    ensures OnlyMain(s, s2, u)
  {
    forall v: Address | v != u
      ensures StoredAccount(s2, v) == StoredAccount(s, v)
    {
      assert StoredAccount(s2, v) == StoredAccount(s1, v);
    }
  }

  lemma {:induction false} OnlyMainReflexive(s: Storage, u: Address)
    ensures OnlyMain(s, s, u)
  {
  }

  /** What an entry point reads of the main ledger. */
  lemma {:induction false} ShowsMainOf(s: Storage, v: Vault, u: Address)
    requires Shows(s, v) && v.initialized
    ensures Main in v.pools
    ensures StoredAccount(s, u) == AccountOf(v.pools[Main], u)
    ensures s.totalDeposits == v.pools[Main].totalDeposits && s.rewardIndex == v.pools[Main].rewardIndex
    ensures ShowsConfig(s, v)
  {
  }

  lemma {:induction false} ShowsAssetOf(s: Storage, v: Vault, u: Address, a: Address)
    requires Shows(s, v) && a in s.supportedAssets
    ensures Asset(a) in v.pools
    ensures StoredAssetAccount(s, u, a) == AccountOf(v.pools[Asset(a)], u)
    ensures FitsI128(StoredAssetAccount(s, u, a).liquid)
    ensures Lookup(s.assetTotalDeposits, a) == v.pools[Asset(a)].totalDeposits
    ensures Lookup(s.assetRewardIndex, a) == v.pools[Asset(a)].rewardIndex
    ensures ShowsConfig(s, v)
  {
    assert ShowsAsset(s, a, PoolOf(v, Asset(a)));
  }

  lemma {:induction false} MainWritten(s: Storage, s': Storage, v: Vault, u: Address, p: Pool)
    requires Shows(s, v) && Main in v.pools && OnlyMain(s, s', u)
    requires p == Put(v.pools[Main], u, StoredAccount(s', u), s'.totalDeposits)
    ensures Shows(s', v.(pools := v.pools[Main := p]))
  {
    var v' := v.(pools := v.pools[Main := p]);
    forall a: Address
      ensures ShowsAsset(s', a, PoolOf(v', Asset(a)))
    {
      assert ShowsAsset(s, a, PoolOf(v, Asset(a)));
      forall w: Address
        ensures StoredAssetAccount(s', w, a) == AccountOf(PoolOf(v', Asset(a)), w)
        ensures FitsI128(StoredAssetAccount(s', w, a).liquid)
      {
        assert StoredAssetAccount(s', w, a) == StoredAssetAccount(s, w, a);
      }
    }
  }

  lemma {:induction false} AssetWritten(s: Storage, s': Storage, v: Vault, u: Address, a: Address, p: Pool)
    requires Shows(s, v) && Asset(a) in v.pools && OnlyAsset(s, s', u, a)
    requires p == Put(v.pools[Asset(a)], u, StoredAssetAccount(s', u, a), Lookup(s'.assetTotalDeposits, a))
    requires FitsI128(StoredAssetAccount(s', u, a).liquid)
    ensures Shows(s', v.(pools := v.pools[Asset(a) := p]))
  {
    var v' := v.(pools := v.pools[Asset(a) := p]);
    assert ShowsMain(s', PoolOf(v', Main)) by {
      forall w: Address
        ensures StoredAccount(s', w) == AccountOf(PoolOf(v', Main), w)
      {
        assert StoredAccount(s', w) == StoredAccount(s, w);
      }
    }
    forall b: Address
      ensures ShowsAsset(s', b, PoolOf(v', Asset(b)))
    {
      assert ShowsAsset(s, b, PoolOf(v, Asset(b)));
      forall w: Address
        ensures StoredAssetAccount(s', w, b) == AccountOf(PoolOf(v', Asset(b)), w)
        ensures FitsI128(StoredAssetAccount(s', w, b).liquid)
      {
        if (w, b) != (u, a) {
          assert StoredAssetAccount(s', w, b) == StoredAssetAccount(s, w, b);
        }
      }
    }
  }

  lemma {:induction false} OnlyAssetTransitive(s: Storage, s1: Storage, s2: Storage, u: Address, a: Address)
    requires OnlyAsset(s, s1, u, a) && OnlyAsset(s1, s2, u, a)
    ensures OnlyAsset(s, s2, u, a)
  {
    forall v: Address, b: Address | (v, b) != (u, a)
      ensures StoredAssetAccount(s2, v, b) == StoredAssetAccount(s, v, b)
    {
      assert StoredAssetAccount(s2, v, b) == StoredAssetAccount(s1, v, b);
    }
  }

  /** Flags and administration are independent of the ledgers. */
  lemma {:induction false} FlagsWritten(s: Storage, s': Storage, v: Vault, v': Vault)
    requires Shows(s, v)
    requires s' == s.(admin := s'.admin, pendingAdmin := s'.pendingAdmin,
                      reentrancyGuard := s'.reentrancyGuard, isPaused := s'.isPaused)
    requires v' == v.(admin := s'.admin, pendingAdmin := s'.pendingAdmin,
                      guard := s'.reentrancyGuard, paused := s'.isPaused)
    ensures Shows(s', v')
  {
    SameLedgers(s, s', v, v');
  }

  lemma {:induction false} SameLedgers(s: Storage, s': Storage, v: Vault, v': Vault)
    requires ShowsMain(s, PoolOf(v, Main)) && forall a: Address :: ShowsAsset(s, a, PoolOf(v, Asset(a)))
    requires v'.pools == v.pools
    requires s' == s.(admin := s'.admin, pendingAdmin := s'.pendingAdmin,
                      reentrancyGuard := s'.reentrancyGuard, isPaused := s'.isPaused)
    ensures ShowsMain(s', PoolOf(v', Main)) && forall a: Address :: ShowsAsset(s', a, PoolOf(v', Asset(a)))
  {
    forall u: Address
      ensures StoredAccount(s', u) == AccountOf(PoolOf(v', Main), u)
    {
      assert StoredAccount(s', u) == StoredAccount(s, u);
    }
    forall a: Address
      ensures ShowsAsset(s', a, PoolOf(v', Asset(a)))
    {
      assert ShowsAsset(s, a, PoolOf(v, Asset(a)));
      forall u: Address
        ensures StoredAssetAccount(s', u, a) == AccountOf(PoolOf(v', Asset(a)), u)
        ensures FitsI128(StoredAssetAccount(s', u, a).liquid)
      {
        assert StoredAssetAccount(s', u, a) == StoredAssetAccount(s, u, a);
      }
    }
  }

  /** A distribution writes one index and nothing of any user. */
  lemma {:induction false} MainIndexWritten(s: Storage, v: Vault, index: int)
    requires Shows(s, v) && Main in v.pools
    ensures Shows(s.(rewardIndex := index), v.(pools := v.pools[Main := v.pools[Main].(rewardIndex := index)]))
  {
    var s' := s.(rewardIndex := index);
    var p := v.pools[Main].(rewardIndex := index);
    forall u: Address
      ensures StoredAccount(s', u) == AccountOf(p, u)
    {
      assert StoredAccount(s', u) == StoredAccount(s, u);
    }
    forall a: Address
      ensures ShowsAsset(s', a, PoolOf(v, Asset(a)))
    {
      assert ShowsAsset(s, a, PoolOf(v, Asset(a)));
      forall u: Address
        ensures StoredAssetAccount(s', u, a) == AccountOf(PoolOf(v, Asset(a)), u)
        ensures FitsI128(StoredAssetAccount(s', u, a).liquid)
      {
        assert StoredAssetAccount(s', u, a) == StoredAssetAccount(s, u, a);
      }
    }
  }

  lemma {:induction false} AssetIndexWritten(s: Storage, v: Vault, a: Address, index: int)
    requires Shows(s, v) && Asset(a) in v.pools
    ensures Shows(s.(assetRewardIndex := s.assetRewardIndex[a := index]),
                  v.(pools := v.pools[Asset(a) := v.pools[Asset(a)].(rewardIndex := index)]))
  {
    var s' := s.(assetRewardIndex := s.assetRewardIndex[a := index]);
    var v' := v.(pools := v.pools[Asset(a) := v.pools[Asset(a)].(rewardIndex := index)]);
    AssetsKept(s, s', v, v');
  }

  /** `add_supported_asset` for a new asset: two zero entries and one more supported asset. */
  lemma {:induction false} AssetAdded(s: Storage, v: Vault, a: Address)
    requires Shows(s, v) && Asset(a) !in v.pools && v.initialized
    ensures Shows(s.(supportedAssets := s.supportedAssets + {a}, assetTotalDeposits := s.assetTotalDeposits[a := 0],
                     assetRewardIndex := s.assetRewardIndex[a := 0]),
                  v.(pools := v.pools[Asset(a) := Pool(0, 0, map[])]))
  {
    var s' := s.(supportedAssets := s.supportedAssets + {a}, assetTotalDeposits := s.assetTotalDeposits[a := 0],
                 assetRewardIndex := s.assetRewardIndex[a := 0]);
    var v' := v.(pools := v.pools[Asset(a) := Pool(0, 0, map[])]);
    AssetsKept(s, s', v, v');
  }

  /** When no key of any user changes, users' accounts are still shown; only totals and indices have to
      be compared. */
  lemma {:induction false} AssetsKept(s: Storage, s': Storage, v: Vault, v': Vault)
    requires ShowsMain(s, PoolOf(v, Main)) && forall a: Address :: ShowsAsset(s, a, PoolOf(v, Asset(a)))
    requires s' == s.(supportedAssets := s'.supportedAssets, assetTotalDeposits := s'.assetTotalDeposits,
                      assetRewardIndex := s'.assetRewardIndex)
    requires PoolOf(v', Main) == PoolOf(v, Main)
    requires forall a: Address :: PoolOf(v', Asset(a)).accounts == PoolOf(v, Asset(a)).accounts
    requires forall a: Address :: Lookup(s'.assetTotalDeposits, a) == PoolOf(v', Asset(a)).totalDeposits
                               && Lookup(s'.assetRewardIndex, a) == PoolOf(v', Asset(a)).rewardIndex
    ensures ShowsMain(s', PoolOf(v', Main)) && forall a: Address :: ShowsAsset(s', a, PoolOf(v', Asset(a)))
  {
    forall u: Address
      ensures StoredAccount(s', u) == AccountOf(PoolOf(v', Main), u)
    {
      assert StoredAccount(s', u) == StoredAccount(s, u);
    }
    forall a: Address
      ensures ShowsAsset(s', a, PoolOf(v', Asset(a)))
    {
      assert ShowsAsset(s, a, PoolOf(v, Asset(a)));
      forall u: Address
        ensures StoredAssetAccount(s', u, a) == AccountOf(PoolOf(v', Asset(a)), u)
        ensures FitsI128(StoredAssetAccount(s', u, a).liquid)
      {
        assert StoredAssetAccount(s', u, a) == StoredAssetAccount(s, u, a);
        assert AccountOf(PoolOf(v', Asset(a)), u) == AccountOf(PoolOf(v, Asset(a)), u);
      }
    }
  }

  function Outcome<T, U>(r: Result<T>, value: U): Result<U> { if r.Ok? then Ok(value) else Err(r.error) }
}
