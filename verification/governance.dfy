/** Proposals, votes and the tick that tallies and executes them, as values. */
module Governance {
  import opened MachineInts
  import opened ChainParams
  import opened RegistryTheorems

  datatype Status = Voting | Passed | Rejected | Executed | Expired

  datatype Vote = Vote(voter: string, approve: bool)

  datatype Proposal = Proposal(
    proposer: string,
    patch: Patch,
    activation: U64,
    status: Status,
    votes: map<string, Vote>,
    endHeight: U64)

  type Proposals = map<string, Proposal>

  const U64_SIZE: int := U64_MAX + 1

  /** `propose`: the end height is an unchecked u64 sum. */
  function Propose(ps: Proposals, votingDuration: U64, id: string, proposer: string, patch: Patch, activation: U64,
                   height: U64, r: Registry): Proposals {
    if !HasRole(r.roles, proposer, Operator) then ps
    else ps[id := Proposal(proposer, patch, activation, Voting, map[], (height + votingDuration) % U64_SIZE)]
  }

  /** `cast_vote`. */
  function CastVote(ps: Proposals, id: string, voter: string, approve: bool, r: Registry): Proposals {
    if !HasRole(r.roles, voter, Operator) || id !in ps || ps[id].status != Voting then ps
    else ps[id := ps[id].(votes := ps[id].votes[Normalize(voter) := Vote(voter, approve)])]
  }

  // ---- Tick ----

  predicate Due(p: Proposal, height: U64) { p.status == Voting && p.endHeight <= height }

  /** The vote keys that approve and belong to a member. */
  function Approvals(p: Proposal, members: seq<string>): set<string> {
    set k | k in p.votes && p.votes[k].approve && Normalize(p.votes[k].voter) in Ids(members)
  }

  /** The tally of a due proposal; the count is cast to u32. */
  function Verdict(p: Proposal, g: GovernanceConfig): Status {
    match g
    case AdminKeys(_) => Passed
    case Dao(members, minApprovals) => if minApprovals <= AsU32(|Approvals(p, members)|) then Passed else Rejected
  }

  function VotersOf(p: Proposal): set<string> { set k | k in p.votes :: p.votes[k].voter }

  /** A due proposal that passes and that the registry accepts. */
  predicate Executes(p: Proposal, r: Registry, height: U64) {
    && Due(p, height) && Verdict(p, r.governance) == Passed
    && Refused(r, p.patch, p.activation, p.proposer, VotersOf(p)).None?
  }

  function StatusAfter(p: Proposal, r: Registry, height: U64): Status {
    if !Due(p, height) then p.status
    else if Executes(p, r, height) then Executed
    else Verdict(p, r.governance)
  }

  /** The proposals after a tick. No order of iteration appears here. */
  function TickProposals(ps: Proposals, r: Registry, height: U64): Proposals {
    map id | id in ps :: ps[id].(status := StatusAfter(ps[id], r, height))
  }

  /** The registry after a tick that visits the proposals in `order`. */
  function TickRegistry(ps: Proposals, r: Registry, height: U64, order: seq<string>): Registry {
    if order == [] then r
    else
      var before := TickRegistry(ps, r, height, order[..|order| - 1]);
      var id := order[|order| - 1];
      if id in ps && Executes(ps[id], r, height) then Accept(before, ps[id].patch, ps[id].activation) else before
  }

  ghost predicate Enumerates(order: seq<string>, ids: set<string>) {
    && (forall id :: id in order <==> id in ids)
    && forall i, j :: 0 <= i < j < |order| ==> order[i] != order[j]
  }

  /** Accepting an upgrade does not change who may submit what: acceptance is decided by parts of the
      registry that a tick leaves alone. */
  lemma {:induction false} TickKeepsGates(ps: Proposals, r: Registry, height: U64, order: seq<string>)
    ensures var t := TickRegistry(ps, r, height, order);
            t == r.(activations := t.activations, history := t.history)
  {
    if order != [] {
      TickKeepsGates(ps, r, height, order[..|order| - 1]);
    }
  }

  // ---- The index after a tick, one field at a time ----

  /** What height `k` wants of field `f`; nothing if it has no entry. */
  function At(activations: map<U64, Patch>, k: U64, f: Field): Option<int> {
    if k in activations then Wanted(activations[k], f) else None
  }

  /** Proposal `id` is executed and sets field `f` at height `k`. */
  predicate Sets(ps: Proposals, r: Registry, height: U64, id: string, k: U64, f: Field) {
    id in ps && Executes(ps[id], r, height) && ps[id].activation == k && Wanted(ps[id].patch, f).Some?
  }

  lemma {:induction false} FieldAfterSchedule(activations: map<U64, Patch>, activation: U64, patch: Patch, k: U64,
                                              f: Field)
    ensures At(Schedule(activations, activation, patch), k, f) ==
              if k == activation && Wanted(patch, f).Some? then Wanted(patch, f) else At(activations, k, f)
  {
  }

  lemma {:induction false} FieldAfterTick(ps: Proposals, r: Registry, height: U64, order: seq<string>, k: U64, f: Field)
    ensures var act := TickRegistry(ps, r, height, order).activations;
            if exists id :: id in order && Sets(ps, r, height, id, k, f) then
              exists id :: id in order && Sets(ps, r, height, id, k, f) && At(act, k, f) == Wanted(ps[id].patch, f)
            else At(act, k, f) == At(r.activations, k, f)
  {
    hide Executes, At, Schedule, Wanted;
    if order != [] {
      var earlier, id := order[..|order| - 1], order[|order| - 1];
      assert order == earlier + [id];
      FieldAfterTick(ps, r, height, earlier, k, f);
      if id in ps && Executes(ps[id], r, height) {
        FieldAfterSchedule(TickRegistry(ps, r, height, earlier).activations, ps[id].activation, ps[id].patch, k, f);
      }
      if Sets(ps, r, height, id, k, f) {
        assert id in order;
      } else if exists e :: e in earlier && Sets(ps, r, height, e, k, f) {
        var e :| e in earlier && Sets(ps, r, height, e, k, f)
                 && At(TickRegistry(ps, r, height, earlier).activations, k, f) == Wanted(ps[e].patch, f);
        assert e in order;
      }
    }
  }

  lemma {:induction false} HeightsAfterTick(ps: Proposals, r: Registry, height: U64, order: seq<string>, k: U64)
    ensures k in TickRegistry(ps, r, height, order).activations <==>
              || k in r.activations
              || exists id :: id in order && id in ps && Executes(ps[id], r, height) && ps[id].activation == k
  {
    hide Executes;
    if order != [] {
      var earlier, id := order[..|order| - 1], order[|order| - 1];
      assert order == earlier + [id];
      HeightsAfterTick(ps, r, height, earlier, k);
    }
  }

  /** No two proposals executed in the tick ask for different values of one field at one height. */
  ghost predicate Compatible(ps: Proposals, r: Registry, height: U64) {
    forall a: string, b: string, k: U64, f: Field ::
      Sets(ps, r, height, a, k, f) && Sets(ps, r, height, b, k, f) ==> Wanted(ps[a].patch, f) == Wanted(ps[b].patch, f)
  }

  lemma {:induction false} CompatibleFieldsAgree(ps: Proposals, r: Registry, height: U64, one: seq<string>,
                                                 other: seq<string>, k: U64, f: Field)
    requires Enumerates(one, ps.Keys) && Enumerates(other, ps.Keys) && Compatible(ps, r, height)
    ensures At(TickRegistry(ps, r, height, one).activations, k, f)
         == At(TickRegistry(ps, r, height, other).activations, k, f)
  {
    hide Executes;
    FieldAfterTick(ps, r, height, one, k, f);
    FieldAfterTick(ps, r, height, other, k, f);
  }

  lemma {:induction false} CompatibleMeansSameIndex(ps: Proposals, r: Registry, height: U64, one: seq<string>,
                                                    other: seq<string>)
    requires Enumerates(one, ps.Keys) && Enumerates(other, ps.Keys) && Compatible(ps, r, height)
    ensures TickRegistry(ps, r, height, one).activations == TickRegistry(ps, r, height, other).activations
  {
    hide Executes;
    var a, b := TickRegistry(ps, r, height, one).activations, TickRegistry(ps, r, height, other).activations;
    forall k: U64
      ensures k in a <==> k in b
      ensures k in a ==> a[k] == b[k]
    {
      HeightsAfterTick(ps, r, height, one, k);
      HeightsAfterTick(ps, r, height, other, k);
      if k in a {
        forall f: Field
          ensures Wanted(a[k], f) == Wanted(b[k], f)
        {
          CompatibleFieldsAgree(ps, r, height, one, other, k, f);
        }
        SamePatch(a[k], b[k]);
      }
    }
  }

  /** The parameters a tick leads to at every height, whatever the iteration order. */
  ghost predicate OrderIndependent(ps: Proposals, r: Registry, height: U64) {
    forall one: seq<string>, other: seq<string>, at: U64 ::
      Enumerates(one, ps.Keys) && Enumerates(other, ps.Keys) ==>
        EffectiveAt(TickRegistry(ps, r, height, one), at) == EffectiveAt(TickRegistry(ps, r, height, other), at)
  }

  lemma {:induction false} LastVisitedWins(ps: Proposals, r: Registry, height: U64, order: seq<string>, id: string,
                                           k: U64, f: Field)
    requires order != [] && order[|order| - 1] == id && Sets(ps, r, height, id, k, f)
    ensures Some(Value(EffectiveAt(TickRegistry(ps, r, height, order), k), f)) == Wanted(ps[id].patch, f)
  {
    hide Executes;
    var t := TickRegistry(ps, r, height, order);
    TickKeepsGates(ps, r, height, order);
    HeightDecides(t.genesis, t.activations, k + 1, k, f);
  }

  lemma {:induction false} EnumerationExists(ids: set<string>) returns (order: seq<string>)
    ensures Enumerates(order, ids)
    decreases |ids|
  {
    if ids == {} {
      order := [];
    } else {
      var id :| id in ids;
      var rest := EnumerationExists(ids - {id});
      order := rest + [id];
    }
  }

  lemma {:induction false} EnumerationEndingWith(ids: set<string>, id: string) returns (order: seq<string>)
    requires id in ids
    ensures Enumerates(order, ids) && order != [] && order[|order| - 1] == id
  {
    var rest := EnumerationExists(ids - {id});
    order := rest + [id];
  }

  /** The effective parameters after a tick do not depend on the iteration order of the proposal map if
      and only if no two proposals executed in it ask for different values of one field at one height.
      (Different activation heights, or disjoint fields, are the simplest such cases.) */
  lemma {:induction false} OrderIndependentIffCompatible(ps: Proposals, r: Registry, height: U64)
    ensures OrderIndependent(ps, r, height) <==> Compatible(ps, r, height)
  {
    if Compatible(ps, r, height) {
      forall one: seq<string>, other: seq<string>, at: U64 | Enumerates(one, ps.Keys) && Enumerates(other, ps.Keys)
        ensures EffectiveAt(TickRegistry(ps, r, height, one), at) == EffectiveAt(TickRegistry(ps, r, height, other), at)
      {
        CompatibleMeansSameIndex(ps, r, height, one, other);
        TickKeepsGates(ps, r, height, one);
        TickKeepsGates(ps, r, height, other);
      }
    }
    if OrderIndependent(ps, r, height) {
      forall a: string, b: string, k: U64, f: Field | Sets(ps, r, height, a, k, f) && Sets(ps, r, height, b, k, f)
        ensures Wanted(ps[a].patch, f) == Wanted(ps[b].patch, f)
      {
        var one := EnumerationEndingWith(ps.Keys, a);
        var other := EnumerationEndingWith(ps.Keys, b);
        LastVisitedWins(ps, r, height, one, a, k, f);
        LastVisitedWins(ps, r, height, other, b, k, f);
      }
    }
  }
}
