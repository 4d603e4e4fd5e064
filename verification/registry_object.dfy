/** The parameter registry as the object the node holds: each method is tied to the registry value. */
module RegistryObject {
  import opened MachineInts
  import opened ChainParams
  import opened RegistryTheorems

  /** The next key of a map that is walked in ascending order. */
  method Least(keys: set<U64>) returns (least: U64)
    requires keys != {}
    ensures least in keys && forall k :: k in keys ==> least <= k
  {
    var rest := keys;
    least :| least in rest;
    rest := rest - {least};
    while rest != {}
      invariant rest <= keys && least in keys
      invariant forall k :: k in keys && k !in rest ==> least <= k
      decreases |rest|
    {
      var k :| k in rest;
      if k < least {
        least := k;
      }
      rest := rest - {k};
    }
  }

  class ChainParameterRegistry {
    const governance: GovernanceConfig
    const minDelay: U64
    const genesis: Params
    var tip: U64
    var activations: map<U64, Patch>
    var history: seq<Record>
    var roles: map<string, Role>

    function State(): Registry
      reads this
    {
      Registry(governance, minDelay, tip, genesis, activations, history, roles)
    }

    /** `from_genesis_document`. */
    constructor (g: GovernanceConfig, delay: U64, parameters: Params)
      ensures State() == FromGenesis(g, delay, parameters)
      ensures Indexed(State().activations, State().history)
    {
      governance, minDelay, genesis := g, delay, parameters;
      tip, activations, history, roles := 0, map[], [], map[];
      new;
      if g.AdminKeys? {
        for i := 0 to |g.keys|
          invariant tip == 0 && activations == map[] && history == []
          invariant roles == map id | id in Ids(g.keys[..i]) :: Admin
        {
          assert g.keys[..i + 1] == g.keys[..i] + [g.keys[i]];
          roles := roles[Normalize(g.keys[i]) := Admin];
        }
        assert g.keys[..|g.keys|] == g.keys;
      }
    }

    /** `effective_parameters_at`: all entries are visited in ascending order and the ones above `height`
        are skipped. */
    method EffectiveParametersAt(height: U64) returns (p: Params)
      ensures p == EffectiveAt(State(), height)
    {
      p := genesis;
      var rest := activations.Keys;
      ghost var done: nat := 0;
      while rest != {}
        invariant rest == set h | h in activations && done <= h
        invariant p == EffectiveBelow(genesis, activations, if done <= height + 1 then done else height + 1)
        decreases |rest|
      {
        var h := Least(rest);
        assert forall k :: k in activations ==> k < done || k in rest;
        if h <= height {
          GapChangesNothing(genesis, activations, done, h);
          p := Apply(p, activations[h]);
        } else if done <= height + 1 {
          GapChangesNothing(genesis, activations, done, height + 1);
        }
        rest := rest - {h};
        done := h + 1;
      }
      assert forall k :: k in activations ==> k < done || k in rest;
      if done <= height + 1 {
        GapChangesNothing(genesis, activations, done, height + 1);
      }
    }

    /** `active_parameters`; if nothing is pending, they hold at every later height too. */
    method ActiveParameters() returns (p: Params)
      ensures p == EffectiveAt(State(), tip)
      ensures Indexed(activations, history) && Pending(history, tip) == [] ==>
                forall height: U64 :: tip <= height ==> EffectiveAt(State(), height) == p
    {
      p := EffectiveParametersAt(tip);
      if Indexed(activations, history) && Pending(history, tip) == [] {
        forall height: U64 | tip <= height
          ensures EffectiveAt(State(), height) == p
        {
          NothingPendingMeansSteady(State(), height);
        }
      }
    }

    /** `pending_upgrades`. */
    method PendingUpgrades() returns (records: seq<Record>)
      ensures records == Pending(history, tip)
      ensures forall r :: r in records <==> r in history && tip < r.activation
    {
      records := [];
      for i := 0 to |history|
        invariant records == Pending(history[..i], tip)
      {
        assert history[..i + 1][..i] == history[..i];
        if tip < history[i].activation {
          records := records + [history[i]];
        }
      }
      assert history[..|history|] == history;
      PendingMeaning(history, tip);
    }

    method SetChainTipHeight(height: U64)
      modifies `tip
      ensures State() == Step(old(State()), SetTip(height))
    {
      tip := height;
    }

    method GrantRole(caller: string, target: string, role: Role) returns (ok: bool)
      modifies `roles
      ensures ok == old(HasRole(roles, caller, Admin))
      ensures State() == Step(old(State()), RegistryOp.GrantRole(caller, target, role))
      ensures ok ==> HasRole(roles, target, role)
    {
      ok := HasRole(roles, caller, Admin);
      if ok {
        roles := roles[Normalize(target) := role];
      }
    }

    method RevokeRole(caller: string, target: string) returns (ok: bool)
      modifies `roles
      ensures ok == old(HasRole(roles, caller, Admin) && Normalize(target) in roles)
      ensures State() == Step(old(State()), RegistryOp.RevokeRole(caller, target))
      ensures ok ==> !HasRole(roles, target, Operator)
    {
      ok := false;
      if HasRole(roles, caller, Admin) {
        ok := Normalize(target) in roles;
        assert !ok ==> roles - {Normalize(target)} == roles;
        roles := roles - {Normalize(target)};
      }
    }

    /** `authorize_upgrade`: the voters are counted once each, whatever their order and spelling. */
    method AuthorizeUpgrade(proposer: string, voters: seq<string>) returns (ok: bool)
      ensures ok == Authorized(governance, proposer, Elements(voters))
    {
      if governance.AdminKeys? {
        if exists v :: v in voters && v != "" {
          assert !(Elements(voters) <= {""}) by {
            var v :| v in voters && v != "";
            assert v in Elements(voters);
          }
          return false;
        }
        var p := Normalize(proposer);
        return p != "" && exists k :: k in governance.keys && Normalize(k) == p;
      }
      if governance.minApprovals == 0 {
        return false;
      }
      ok := CountVoters(voters);
    }

    /** The loop over the voters of a DAO, with its wrapping approval counter. */
    method CountVoters(voters: seq<string>) returns (ok: bool)
      requires governance.Dao?
      ensures ok <==> && Voices(Elements(voters)) <= Ids(governance.members)
                      && governance.minApprovals <= AsU32(|Voices(Elements(voters))|)
    {
      hide Normalize, Voices, Elements, Ids;
      NoVoices(voters);
      var members := Ids(governance.members);
      var seen: set<string> := {};
      var valid: U32 := 0;
      for i := 0 to |voters|
        invariant seen == Voices(Elements(voters[..i])) && seen <= members
        invariant valid == AsU32(|seen|)
      {
        VoicesOfNext(voters, i);
        var n := Normalize(voters[i]);
        if n != "" {
          if n !in members {
            VoicesGrow(voters, i + 1);
            return false;
          }
          if n !in seen {
            AsU32Next(|seen|);
            valid := AsU32(valid + 1);
          }
          seen := seen + {n};
        }
      }
      assert voters[..|voters|] == voters;
      ok := governance.minApprovals <= valid;
    }

    /** `submit_parameter_upgrade`. */
    method SubmitParameterUpgrade(patch: Patch, activation: U64, proposer: string, voters: seq<string>)
      returns (refusal: Option<Refusal>)
      modifies `activations, `history
      ensures refusal == Refused(old(State()), patch, activation, proposer, Elements(voters))
      ensures State() == Submit(old(State()), patch, activation, proposer, Elements(voters))
      ensures old(Indexed(activations, history)) ==> Indexed(activations, history)
    {
      if !HasChanges(patch) {
        return Some(EmptyPatch);
      }
      if !HasRole(roles, proposer, Operator) {
        return Some(PermissionDenied);
      }
      var authorized := AuthorizeUpgrade(proposer, voters);
      if !authorized {
        return Some(NotAuthorized);
      }
      var earliest := SaturatingAdd(tip, minDelay);
      if activation < earliest {
        return Some(TooEarly);
      }
      if Indexed(activations, history) {
        ScheduleKeepsIndexed(activations, history, Record(tip, activation, patch));
      }
      if activation in activations {
        activations := activations[activation := Merge(activations[activation], patch)];
      } else {
        activations := activations[activation := patch];
      }
      history := history + [Record(tip, activation, patch)];
      return None;
    }
  }

  // ---- Counting voters ----

  lemma {:induction false} NoVoices(voters: seq<string>)
    ensures Voices(Elements(voters[..0])) == {}
  {
    assert voters[..0] == [];
  }

  lemma {:induction false} VoicesOfNext(voters: seq<string>, i: nat)
    requires i < |voters|
    ensures Voices(Elements(voters[..i + 1])) == Voices(Elements(voters[..i])) + ({Normalize(voters[i])} - {""})
  {
    assert voters[..i + 1] == voters[..i] + [voters[i]];
    assert Elements(voters[..i + 1]) == Elements(voters[..i]) + {voters[i]};
  }

  lemma {:induction false} VoicesGrow(voters: seq<string>, i: nat)
    requires i <= |voters|
    ensures Voices(Elements(voters[..i])) <= Voices(Elements(voters))
  {
  }

  lemma {:induction false} AsU32Next(n: nat)
    ensures AsU32(AsU32(n) + 1) == AsU32(n + 1)
  {
  }
}
