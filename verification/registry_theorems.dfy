/** The registry's index agrees with its log, the past is frozen, and one record governs each field. */
module RegistryTheorems {
  import opened MachineInts
  import opened ChainParams

  // ---- The index equals the replayed log ----

  lemma {:induction false} MergeIsSequentialApply(p: Params, a: Patch, b: Patch)
    ensures Apply(Apply(p, a), b) == Apply(p, Merge(a, b))
  {
  }

  lemma {:induction false} ApplyAllIsMerged(p: Params, patches: seq<Patch>)
    ensures ApplyAll(p, patches) == Apply(p, MergeAll(patches))
  {
    if patches != [] {
      var earlier := patches[..|patches| - 1];
      ApplyAllIsMerged(p, earlier);
      MergeIsSequentialApply(p, MergeAll(earlier), patches[|patches| - 1]);
    }
  }

  /** At every height, the merged index gives what replaying the submissions one by one gives. */
  lemma {:induction false} IndexEqualsReplay(genesis: Params, activations: map<U64, Patch>, log: seq<Record>, n: nat)
    requires Indexed(activations, log) && n <= U64_MAX + 1
    ensures EffectiveBelow(genesis, activations, n) == ReplayBelow(genesis, log, n)
  {
    if n > 0 {
      IndexEqualsReplay(genesis, activations, log, n - 1);
      var h: U64 := n - 1;
      ApplyAllIsMerged(ReplayBelow(genesis, log, n - 1), PatchesAt(log, h));
    }
  }

  lemma {:induction false} PatchesAtAppend(log: seq<Record>, r: Record, h: int)
    ensures PatchesAt(log + [r], h) == if r.activation == h then PatchesAt(log, h) + [r.patch] else PatchesAt(log, h)
  {
    assert (log + [r])[..|log|] == log;
  }

  lemma {:induction false} MergeAllAppend(patches: seq<Patch>, p: Patch)
    ensures MergeAll(patches + [p]) == Merge(MergeAll(patches), p)
  {
    assert (patches + [p])[..|patches|] == patches;
  }

  /** Scheduling an upgrade and logging it keep index and log in step. */
  lemma {:induction false} ScheduleKeepsIndexed(activations: map<U64, Patch>, log: seq<Record>, r: Record)
    requires Indexed(activations, log)
    ensures Indexed(Schedule(activations, r.activation, r.patch), log + [r])
  {
    var next := Schedule(activations, r.activation, r.patch);
    forall h: U64
      ensures h in next <==> PatchesAt(log + [r], h) != []
      ensures h in next ==> next[h] == MergeAll(PatchesAt(log + [r], h))
    {
      PatchesAtAppend(log, r, h);
      MergeAllAppend(PatchesAt(log, h), r.patch);
      if h == r.activation && h !in activations {
        assert Merge(NO_CHANGE, r.patch) == r.patch;
      }
    }
  }

  // ---- Runs of the registry ----

  datatype RegistryOp =
    | SubmitUpgrade(patch: Patch, activation: U64, proposer: string, voters: set<string>)
    | SetTip(height: U64)
    | GrantRole(caller: string, target: string, role: Role)
    | RevokeRole(caller: string, target: string)

  function Step(r: Registry, op: RegistryOp): Registry {
    match op
    case SubmitUpgrade(patch, activation, proposer, voters) => Submit(r, patch, activation, proposer, voters)
    case SetTip(height) => r.(tip := height)
    case GrantRole(caller, target, role) =>
      if HasRole(r.roles, caller, Admin) then r.(roles := r.roles[Normalize(target) := role]) else r
    case RevokeRole(caller, target) =>
      if HasRole(r.roles, caller, Admin) then r.(roles := r.roles - {Normalize(target)}) else r
  }

  function Run(r: Registry, ops: seq<RegistryOp>): Registry
    decreases |ops|
  {
    if ops == [] then r else Run(Step(r, ops[0]), ops[1..])
  }

  /** `from_genesis_document`: admin keys are seeded as administrators, a DAO seeds no role. */
  function FromGenesis(g: GovernanceConfig, minDelay: U64, genesis: Params): Registry {
    Registry(g, minDelay, 0, genesis, map[], [],
             if g.AdminKeys? then map id | id in Ids(g.keys) :: Admin else map[])
  }

  lemma {:induction false} RunKeepsIndexed(r: Registry, ops: seq<RegistryOp>)
    requires Indexed(r.activations, r.history)
    ensures Indexed(Run(r, ops).activations, Run(r, ops).history)
    ensures Run(r, ops).genesis == r.genesis && Run(r, ops).minDelay == r.minDelay
    decreases |ops|
  {
    if ops != [] {
      var op := ops[0];
      if op.SubmitUpgrade? {
        ScheduleKeepsIndexed(r.activations, r.history, Record(r.tip, op.activation, op.patch));
      }
      RunKeepsIndexed(Step(r, op), ops[1..]);
    }
  }

  /** After every run from genesis, the effective parameters at any height are genesis with the whole
      history replayed up to that height. */
  lemma {:induction false} EffectiveEqualsReplay(g: GovernanceConfig, minDelay: U64, genesis: Params,
                                                 ops: seq<RegistryOp>, height: U64)
    ensures var r := Run(FromGenesis(g, minDelay, genesis), ops);
            EffectiveAt(r, height) == ReplayBelow(genesis, r.history, height + 1)
  {
    var r0 := FromGenesis(g, minDelay, genesis);
    RunKeepsIndexed(r0, ops);
    IndexEqualsReplay(genesis, Run(r0, ops).activations, Run(r0, ops).history, height + 1);
  }

  // ---- The frozen past ----

  lemma {:induction false} ScheduleLeavesBelow(genesis: Params, activations: map<U64, Patch>, activation: U64,
                                               patch: Patch, n: nat)
    requires n <= activation
    ensures EffectiveBelow(genesis, Schedule(activations, activation, patch), n)
         == EffectiveBelow(genesis, activations, n)
  {
    if n > 0 {
      ScheduleLeavesBelow(genesis, activations, activation, patch, n - 1);
    }
  }

  ghost predicate TipAtLeast(ops: seq<RegistryOp>, floor: int) {
    forall op :: op in ops ==> op.SetTip? ==> floor <= op.height
  }

  /** Once the tip has reached `floor` and never falls below it again, the parameters at every height
      below `floor` + minimum delay (saturating) stay what they are, whatever is submitted. */
  lemma {:induction false} PastIsFrozen(r: Registry, ops: seq<RegistryOp>, floor: U64, height: U64)
    requires floor <= r.tip && TipAtLeast(ops, floor) && height < SaturatingAdd(floor, r.minDelay)
    ensures EffectiveAt(Run(r, ops), height) == EffectiveAt(r, height)
    decreases |ops|
  {
    hide HasRole, Authorized;
    if ops != [] {
      var op := ops[0];
      assert op in ops;
      if op.SubmitUpgrade? && Refused(r, op.patch, op.activation, op.proposer, op.voters).None? {
        ScheduleLeavesBelow(r.genesis, r.activations, op.activation, op.patch, height + 1);
      }
      PastIsFrozen(Step(r, op), ops[1..], floor, height);
    }
  }

  /** Two nodes that agree up to some point and then see different submissions agree for good on all
      those heights. */
  lemma {:induction false} DivergingNodesAgree(r: Registry, one: seq<RegistryOp>, other: seq<RegistryOp>, floor: U64,
                                               height: U64)
    requires floor <= r.tip && TipAtLeast(one, floor) && TipAtLeast(other, floor)
    requires height < SaturatingAdd(floor, r.minDelay)
    ensures EffectiveAt(Run(r, one), height) == EffectiveAt(Run(r, other), height)
  {
    PastIsFrozen(r, one, floor, height);
    PastIsFrozen(r, other, floor, height);
  }

  lemma {:induction false} AcceptedFeeShows(r: Registry, fee: U64, height: U64)
    ensures EffectiveAt(Accept(r, Patch(None, Some(fee), None), height), height).minBaseFee == fee
  {
  }

  /** Nothing forces the tip to grow. For one submission after a change of tip the exact condition is
      on the new tip: every accepted upgrade leaves `height` alone if and only if the height is below the
      new earliest activation. */
  lemma {:induction false} FrozenIffTipStaysHigh(r: Registry, newTip: U64, proposer: string, voters: set<string>,
                                                 height: U64)
    requires HasRole(r.roles, proposer, Operator) && Authorized(r.governance, proposer, voters)
    ensures (forall patch: Patch, activation: U64 ::
               EffectiveAt(Submit(r.(tip := newTip), patch, activation, proposer, voters), height)
               == EffectiveAt(r, height))
       <==> height < SaturatingAdd(newTip, r.minDelay)
  {
    hide HasRole, Authorized;
    var r1 := r.(tip := newTip);
    if height < SaturatingAdd(newTip, r.minDelay) {
      forall patch: Patch, activation: U64
        ensures EffectiveAt(Submit(r1, patch, activation, proposer, voters), height) == EffectiveAt(r, height)
      {
        if Earliest(r1) <= activation {
          ScheduleLeavesBelow(r.genesis, r.activations, activation, patch, height + 1);
        }
      }
    } else {
      var other: U64 := if EffectiveAt(r, height).minBaseFee == 0 then 1 else 0;
      var patch := Patch(None, Some(other), None);
      AcceptedFeeShows(r1, other, height);
      assert EffectiveAt(Submit(r1, patch, height, proposer, voters), height).minBaseFee == other;
    }
  }

  // ---- Nothing pending ----

  /** Heights without an entry change nothing. */
  lemma {:induction false} GapChangesNothing(genesis: Params, activations: map<U64, Patch>, low: nat, n: nat)
    requires low <= n && forall h :: h in activations ==> h < low || n <= h
    ensures EffectiveBelow(genesis, activations, n) == EffectiveBelow(genesis, activations, low)
  {
    if low < n {
      GapChangesNothing(genesis, activations, low, n - 1);
    }
  }

  /** `pending_upgrades`: records that activate above the tip, in submission order. */
  function Pending(log: seq<Record>, tip: int): seq<Record> {
    if log == [] then []
    else
      var earlier := Pending(log[..|log| - 1], tip);
      if tip < log[|log| - 1].activation then earlier + [log[|log| - 1]] else earlier
  }

  lemma {:induction false} PendingMeaning(log: seq<Record>, tip: int)
    ensures forall r :: r in Pending(log, tip) <==> r in log && tip < r.activation
  {
    if log != [] {
      PendingMeaning(log[..|log| - 1], tip);
      assert log == log[..|log| - 1] + [log[|log| - 1]];
    }
  }

  /** The list keeps every pending record, in the order of the log and as often as it is logged. */
  lemma {:induction false} PendingInOrder(a: seq<Record>, r: Record, b: seq<Record>, tip: int)
    ensures Pending(a + [r] + b, tip) == Pending(a, tip) + (if tip < r.activation then [r] else []) + Pending(b, tip)
    decreases |b|
  {
    var log := a + [r] + b;
    if b == [] {
      assert log == a + [r] && log[..|log| - 1] == a;
      assert Pending(a, tip) + [r] + [] == Pending(a, tip) + [r];
    } else {
      var shorter := b[..|b| - 1];
      assert log[..|log| - 1] == a + [r] + shorter && log[|log| - 1] == b[|b| - 1];
      PendingInOrder(a, r, shorter, tip);
    }
  }

  lemma {:induction false} ListedIffLogged(log: seq<Record>, h: int)
    ensures PatchesAt(log, h) != [] <==> exists r :: r in log && r.activation == h
  {
    if log != [] {
      ListedIffLogged(log[..|log| - 1], h);
      assert log == log[..|log| - 1] + [log[|log| - 1]];
      assert log[|log| - 1] in log;
    }
  }

  /** If nothing is pending then no height at or above the tip differs from the active parameters. */
  lemma {:induction false} NothingPendingMeansSteady(r: Registry, height: U64)
    requires Indexed(r.activations, r.history) && Pending(r.history, r.tip) == [] && r.tip <= height
    ensures EffectiveAt(r, height) == EffectiveAt(r, r.tip)
  {
    PendingMeaning(r.history, r.tip);
    forall h | h in r.activations
      ensures h < r.tip + 1
    {
      ListedIffLogged(r.history, h);
      var rec :| rec in r.history && rec.activation == h;
      assert rec !in Pending(r.history, r.tip);
    }
    GapChangesNothing(r.genesis, r.activations, r.tip + 1, height + 1);
  }

  // ---- Which record governs a field ----

  /** Record `i` is the last one, by activation height and then by submission, among those that set
      field `f` and are active at `height`. */
  ghost predicate Governs(log: seq<Record>, i: nat, height: int, f: Field) {
    && i < |log| && log[i].activation <= height && Wanted(log[i].patch, f).Some?
    && forall j :: 0 <= j < |log| && log[j].activation <= height && Wanted(log[j].patch, f).Some? ==>
         log[j].activation < log[i].activation || (log[j].activation == log[i].activation && j <= i)
  }

  lemma {:induction false} MergedSilent(log: seq<Record>, h: int, f: Field)
    requires forall j :: 0 <= j < |log| && log[j].activation == h ==> Wanted(log[j].patch, f).None?
    ensures Wanted(MergeAll(PatchesAt(log, h)), f) == None
  {
    if log != [] {
      var earlier := log[..|log| - 1];
      MergedSilent(earlier, h, f);
      MergeAllAppend(PatchesAt(earlier, h), log[|log| - 1].patch);
    }
  }

  lemma {:induction false} MergedByLast(log: seq<Record>, h: int, i: nat, f: Field)
    requires i < |log| && log[i].activation == h && Wanted(log[i].patch, f).Some?
    requires forall j :: i < j < |log| && log[j].activation == h ==> Wanted(log[j].patch, f).None?
    ensures Wanted(MergeAll(PatchesAt(log, h)), f) == Wanted(log[i].patch, f)
  {
    var earlier, last := log[..|log| - 1], log[|log| - 1];
    if i < |log| - 1 {
      MergedByLast(earlier, h, i, f);
    }
    MergeAllAppend(PatchesAt(earlier, h), last.patch);
  }

  lemma {:induction false} HeightDecides(genesis: Params, activations: map<U64, Patch>, n: nat, k: nat, f: Field)
    requires k < n && k in activations && Wanted(activations[k], f).Some?
    requires forall h :: h in activations && k < h < n ==> Wanted(activations[h], f).None?
    ensures Value(EffectiveBelow(genesis, activations, n), f) == Wanted(activations[k], f).value
  {
    if k < n - 1 {
      HeightDecides(genesis, activations, n - 1, k, f);
    }
  }

  lemma {:induction false} NoHeightDecides(genesis: Params, activations: map<U64, Patch>, n: nat, f: Field)
    requires forall h :: h in activations && h < n ==> Wanted(activations[h], f).None?
    ensures Value(EffectiveBelow(genesis, activations, n), f) == Value(genesis, f)
  {
    if n > 0 {
      NoHeightDecides(genesis, activations, n - 1, f);
    }
  }

  /** The value of a field at a height is set by the record that governs it; with no such record it is
      the genesis value. */
  lemma {:induction false} GoverningRecordDecides(r: Registry, height: U64, f: Field)
    requires Indexed(r.activations, r.history)
    ensures forall i: nat :: Governs(r.history, i, height, f) ==>
              Wanted(r.history[i].patch, f) == Some(Value(EffectiveAt(r, height), f))
    ensures (forall j :: 0 <= j < |r.history| && r.history[j].activation <= height ==>
               Wanted(r.history[j].patch, f).None?)
              ==> Value(EffectiveAt(r, height), f) == Value(r.genesis, f)
  {
    forall i: nat | Governs(r.history, i, height, f)
      ensures Wanted(r.history[i].patch, f) == Some(Value(EffectiveAt(r, height), f))
    {
      GoverningHeight(r, height, f, i);
    }
    if forall j :: 0 <= j < |r.history| && r.history[j].activation <= height ==> Wanted(r.history[j].patch, f).None? {
      forall h | h in r.activations && h < height + 1
        ensures Wanted(r.activations[h], f).None?
      {
        MergedSilent(r.history, h, f);
      }
      NoHeightDecides(r.genesis, r.activations, height + 1, f);
    }
  }

  lemma {:induction false} GoverningHeight(r: Registry, height: U64, f: Field, i: nat)
    requires Indexed(r.activations, r.history) && Governs(r.history, i, height, f)
    ensures Wanted(r.history[i].patch, f) == Some(Value(EffectiveAt(r, height), f))
  {
    var k := r.history[i].activation;
    MergedByLast(r.history, k, i, f);
    ListedIffLogged(r.history, k);
    assert r.history[i] in r.history;
    forall h | h in r.activations && k < h < height + 1
      ensures Wanted(r.activations[h], f).None?
    {
      MergedSilent(r.history, h, f);
    }
    HeightDecides(r.genesis, r.activations, height + 1, k, f);
  }

  // ---- Who may submit ----

  /** The configured governance stands behind the upgrade. With admin keys: nobody voted, a blank voter apart, and a key
      proposes. Under a DAO: only members voted, blank voters apart, and enough of them, each counted once. */
  ghost predicate Backed(g: GovernanceConfig, proposer: string, voters: set<string>) {
    match g
    case AdminKeys(keys) =>
      && (forall v :: v in voters ==> v == "")
      && Normalize(proposer) != "" && exists k :: k in keys && Normalize(k) == Normalize(proposer)
    case Dao(members, minApprovals) =>
      var voices := set v | v in voters && Normalize(v) != "" :: Normalize(v);
      && (forall n :: n in voices ==> exists m :: m in members && Normalize(m) == n)
      && 0 < minApprovals <= |voices| % 0x1_0000_0000
  }

  lemma {:induction false} BackedIff(g: GovernanceConfig, proposer: string, voters: set<string>)
    ensures Backed(g, proposer, voters) <==> Authorized(g, proposer, voters)
  {
    hide Normalize;
    assert Voices(voters) == set v | v in voters && Normalize(v) != "" :: Normalize(v);
  }

  /** An upgrade is accepted if and only if it can change something, its proposer holds a role, the governance backs it,
      and it activates no earlier than the tip plus the minimum delay, or at the last height there is. Accepted, it is
      logged once, decides every field it sets at its height and changes nothing below; refused, it changes
      nothing. */
  lemma {:induction false} AcceptedIff(r: Registry, patch: Patch, activation: U64, proposer: string,
                                       voters: set<string>)
    ensures var r' := Submit(r, patch, activation, proposer, voters);
            if && (exists p: Params :: Apply(p, patch) != p) && Normalize(proposer) in r.roles
               && Backed(r.governance, proposer, voters)
               && (r.tip + r.minDelay <= activation || activation == U64_MAX)
            then
              && r' == r.(activations := r'.activations, history := r.history + [Record(r.tip, activation, patch)])
              && (forall f: Field :: Wanted(patch, f).Some? ==>
                    Wanted(patch, f) == Some(Value(EffectiveAt(r', activation), f)))
              && forall height: U64 :: height < activation ==> EffectiveAt(r', height) == EffectiveAt(r, height)
            else r' == r
  {
    hide Normalize, Authorized, EffectiveBelow, Schedule, Wanted;
    HasChangesIff(patch);
    BackedIff(r.governance, proposer, voters);
    var accepted := Accept(r, patch, activation);
    forall f: Field | Wanted(patch, f).Some?
      ensures Wanted(patch, f) == Some(Value(EffectiveAt(accepted, activation), f))
    {
      ScheduledDecides(r, patch, activation, f);
    }
    forall height: U64 | height < activation
      ensures EffectiveAt(accepted, height) == EffectiveAt(r, height)
    {
      ScheduleLeavesBelow(r.genesis, r.activations, activation, patch, height + 1);
    }
  }

  lemma {:induction false} ScheduledDecides(r: Registry, patch: Patch, activation: U64, f: Field)
    requires Wanted(patch, f).Some?
    ensures Wanted(patch, f) == Some(Value(EffectiveAt(Accept(r, patch, activation), activation), f))
  {
    HeightDecides(r.genesis, Schedule(r.activations, activation, patch), activation + 1, activation, f);
  }

  // ---- Who holds which role ----

  function RoleOf(roles: map<string, Role>, key: string): Option<Role> {
    if key in roles then Some(roles[key]) else None
  }

  /** What an operation makes of the role of `key`: only an administrator grants and revokes. */
  function Decision(r: Registry, op: RegistryOp, key: string, held: Option<Role>): Option<Role> {
    match op
    case GrantRole(caller, target, role) =>
      if RoleOf(r.roles, Normalize(caller)) == Some(Admin) && Normalize(target) == key then Some(role) else held
    case RevokeRole(caller, target) =>
      if RoleOf(r.roles, Normalize(caller)) == Some(Admin) && Normalize(target) == key then None else held
    case _ => held
  }

  function LastDecision(r: Registry, ops: seq<RegistryOp>, key: string, held: Option<Role>): Option<Role>
    decreases |ops|
  {
    if ops == [] then held else LastDecision(Step(r, ops[0]), ops[1..], key, Decision(r, ops[0], key, held))
  }

  /** Over every run everybody holds exactly the role an administrator last gave them. */
  lemma {:induction false} RoleIsLastDecision(r: Registry, ops: seq<RegistryOp>, key: string)
    ensures RoleOf(Run(r, ops).roles, key) == LastDecision(r, ops, key, RoleOf(r.roles, key))
    decreases |ops|
  {
    hide Normalize, Refused;
    if ops != [] {
      assert RoleOf(Step(r, ops[0]).roles, key) == Decision(r, ops[0], key, RoleOf(r.roles, key));
      hide Step;
      RoleIsLastDecision(Step(r, ops[0]), ops[1..], key);
    }
  }

  /** Without an administrator no role ever changes: operators cannot promote anybody, themselves included. */
  lemma {:induction false} NoAdminNoPromotion(r: Registry, ops: seq<RegistryOp>)
    requires forall key :: key in r.roles ==> r.roles[key] == Operator
    ensures Run(r, ops).roles == r.roles
    decreases |ops|
  {
    hide Normalize, Refused;
    if ops != [] {
      assert Step(r, ops[0]).roles == r.roles;
      hide Step;
      NoAdminNoPromotion(Step(r, ops[0]), ops[1..]);
    }
  }
}
