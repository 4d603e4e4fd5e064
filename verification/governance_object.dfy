/** The governance service as the object the node holds, beside the registry object it acts on. */
module GovernanceObject {
  import opened MachineInts
  import opened ChainParams
  import opened Governance
  import opened RegistryObject

  /** The ids of `order` that a tick puts on its list: due, and passed by the tally. */
  function ToExecute(ps: Proposals, r: Registry, height: U64, order: seq<string>): seq<string> {
    if order == [] then []
    else
      var earlier := ToExecute(ps, r, height, order[..|order| - 1]);
      var id := order[|order| - 1];
      if id in ps && Due(ps[id], height) && Verdict(ps[id], r.governance) == Passed then earlier + [id] else earlier
  }

  /** Only listed proposals matter to the registry. */
  lemma {:induction false} ListIsEnough(ps: Proposals, r: Registry, height: U64, order: seq<string>)
    ensures TickRegistry(ps, r, height, ToExecute(ps, r, height, order)) == TickRegistry(ps, r, height, order)
  {
    if order != [] {
      var earlier, id := order[..|order| - 1], order[|order| - 1];
      ListIsEnough(ps, r, height, earlier);
      var list := ToExecute(ps, r, height, earlier);
      assert (list + [id])[..|list|] == list;
    }
  }

  lemma {:induction false} ListMeaning(ps: Proposals, r: Registry, height: U64, order: seq<string>)
    requires forall i, j :: 0 <= i < j < |order| ==> order[i] != order[j]
    ensures var list := ToExecute(ps, r, height, order);
            && (forall id :: id in list <==>
                  id in order && id in ps && Due(ps[id], height) && Verdict(ps[id], r.governance) == Passed)
            && (forall i, j :: 0 <= i < j < |list| ==> list[i] != list[j])
  {
    if order != [] {
      var earlier, id := order[..|order| - 1], order[|order| - 1];
      assert order == earlier + [id];
      ListMeaning(ps, r, height, earlier);
      assert id !in earlier;
    }
  }

  /** The tallies of the first loop of a tick, for the proposals in `visited`. */
  function Tallied(ps: Proposals, r: Registry, height: U64, visited: set<string>): Proposals {
    map id | id in ps ::
      if id in visited && Due(ps[id], height) then ps[id].(status := Verdict(ps[id], r.governance)) else ps[id]
  }

  /** The statuses after the second loop has submitted the proposals in `submitted`. */
  function Submitted(ps: Proposals, r: Registry, height: U64, submitted: set<string>): Proposals {
    map id | id in ps ::
      if id in submitted then ps[id].(status := StatusAfter(ps[id], r, height))
      else if Due(ps[id], height) then ps[id].(status := Verdict(ps[id], r.governance))
      else ps[id]
  }

  lemma {:induction false} ListStart(ps: Proposals, r: Registry, height: U64)
    ensures ToExecute(ps, r, height, []) == [] && Tallied(ps, r, height, {}) == ps
  {
  }

  lemma {:induction false} ListNext(ps: Proposals, r: Registry, height: U64, order: seq<string>, id: string)
    ensures var list := ToExecute(ps, r, height, order);
            ToExecute(ps, r, height, order + [id]) ==
              if id in ps && Due(ps[id], height) && Verdict(ps[id], r.governance) == Passed then list + [id] else list
  {
    assert (order + [id])[..|order|] == order;
  }

  lemma {:induction false} TallyNext(ps: Proposals, r: Registry, height: U64, visited: set<string>, id: string)
    requires id in ps && id !in visited
    ensures var t := Tallied(ps, r, height, visited);
            && id in t && t[id] == ps[id]
            && Tallied(ps, r, height, visited + {id}) ==
                 if Due(ps[id], height) then t[id := ps[id].(status := Verdict(ps[id], r.governance))] else t
  {
    hide Verdict;
  }

  lemma {:induction false} SubmitNext(ps: Proposals, r: Registry, height: U64, submitted: set<string>, id: string)
    requires id in ps && id !in submitted && Due(ps[id], height) && Verdict(ps[id], r.governance) == Passed
    ensures var t := Submitted(ps, r, height, submitted);
            && id in t && t[id] == ps[id].(status := Passed)
            && Submitted(ps, r, height, submitted + {id}) ==
                 if Executes(ps[id], r, height) then t[id := ps[id].(status := Executed)] else t
  {
    hide Verdict, Refused;
  }

  lemma {:induction false} SubmitStart(ps: Proposals, r: Registry, height: U64)
    ensures Submitted(ps, r, height, {}) == Tallied(ps, r, height, ps.Keys)
    ensures TickRegistry(ps, r, height, []) == r
  {
  }

  lemma {:induction false} TickNext(ps: Proposals, r: Registry, height: U64, order: seq<string>, id: string)
    ensures var t := TickRegistry(ps, r, height, order);
            TickRegistry(ps, r, height, order + [id]) ==
              if id in ps && Executes(ps[id], r, height) then Accept(t, ps[id].patch, ps[id].activation) else t
  {
    assert (order + [id])[..|order|] == order;
  }

  /** What the registry says to a proposal does not depend on the ones submitted before it. */
  lemma {:induction false} GatesDecide(ps: Proposals, r: Registry, height: U64, order: seq<string>, id: string)
    requires id in ps
    ensures var p := ps[id];
            var t := TickRegistry(ps, r, height, order);
            Refused(t, p.patch, p.activation, p.proposer, VotersOf(p.(status := Passed)))
              == Refused(r, p.patch, p.activation, p.proposer, VotersOf(p))
  {
    TickKeepsGates(ps, r, height, order);
    assert VotersOf(ps[id].(status := Passed)) == VotersOf(ps[id]);
  }

  /** The two loops together do what one pass over all proposals does. */
  lemma {:induction false} AllSubmitted(ps: Proposals, r: Registry, height: U64, submitted: set<string>)
    requires forall id ::
               id in submitted <==> id in ps && Due(ps[id], height) && Verdict(ps[id], r.governance) == Passed
    ensures Submitted(ps, r, height, submitted) == TickProposals(ps, r, height)
  {
    hide Verdict, Refused;
  }

  function VotersAmong(p: Proposal, keys: set<string>): set<string> {
    set k | k in keys && k in p.votes :: p.votes[k].voter
  }

  lemma {:induction false} VotersNext(p: Proposal, keys: set<string>, k: string, voters: seq<string>)
    requires k in p.votes && Elements(voters) == VotersAmong(p, keys)
    ensures Elements(voters + [p.votes[k].voter]) == VotersAmong(p, keys + {k})
  {
    assert VotersAmong(p, keys + {k}) == VotersAmong(p, keys) + {p.votes[k].voter};
  }

  class GovernanceService {
    var proposals: Proposals
    const votingDuration: U64

    constructor (duration: U64)
      ensures proposals == map[] && votingDuration == duration
    {
      proposals, votingDuration := map[], duration;
    }

    /** `propose`; `id` is the random id drawn for the proposal. */
    method Propose(id: string, proposer: string, patch: Patch, activation: U64, height: U64,
                   registry: ChainParameterRegistry)
      returns (ok: bool)
      modifies this
      ensures ok == HasRole(registry.roles, proposer, Operator)
      ensures proposals == Governance.Propose(old(proposals), votingDuration, id, proposer, patch, activation, height,
                                              registry.State())
    {
      ok := HasRole(registry.roles, proposer, Operator);
      if ok {
        var end := (height + votingDuration) % U64_SIZE;
        proposals := proposals[id := Proposal(proposer, patch, activation, Voting, map[], end)];
      }
    }

    /** `cast_vote`: a later vote of the same voter replaces the earlier one. */
    method CastVote(id: string, voter: string, approve: bool, registry: ChainParameterRegistry) returns (ok: bool)
      modifies this
      ensures ok <==> && HasRole(registry.roles, voter, Operator)
                      && id in old(proposals) && old(proposals)[id].status == Voting
      ensures proposals == Governance.CastVote(old(proposals), id, voter, approve, registry.State())
      ensures ok ==> && id in proposals && Normalize(voter) in proposals[id].votes
                     && proposals[id].votes[Normalize(voter)] == Vote(voter, approve)
    {
      ok := false;
      if HasRole(registry.roles, voter, Operator) && id in proposals {
        var p := proposals[id];
        if p.status == Voting {
          var vote := Vote(voter, approve);
          proposals := proposals[id := p.(votes := p.votes[Normalize(voter) := vote])];
          ok := true;
        }
      }
    }

    /** The voters of a proposal, in the arbitrary order of its vote map. */
    method Voters(p: Proposal) returns (voters: seq<string>)
      ensures Elements(voters) == VotersOf(p)
    {
      voters := [];
      var rest := p.votes.Keys;
      while rest != {}
        invariant rest <= p.votes.Keys
        invariant Elements(voters) == VotersAmong(p, p.votes.Keys - rest)
        decreases |rest|
      {
        var k :| k in rest;
        VotersNext(p, p.votes.Keys - rest, k, voters);
        assert p.votes.Keys - (rest - {k}) == (p.votes.Keys - rest) + {k};
        rest := rest - {k};
        voters := voters + [p.votes[k].voter];
      }
      assert p.votes.Keys - rest == p.votes.Keys;
    }

    /** The first loop of `tick`: tally every due proposal and list the ones that passed. */
    method Tally(height: U64, registry: ChainParameterRegistry) returns (list: seq<string>, ghost order: seq<string>)
      modifies this
      ensures Enumerates(order, old(proposals).Keys)
      ensures list == ToExecute(old(proposals), registry.State(), height, order)
      ensures proposals == Tallied(old(proposals), registry.State(), height, old(proposals).Keys)
    {
      hide ToExecute, Tallied, Verdict;
      ghost var ps, r := proposals, registry.State();
      list, order := [], [];
      ListStart(ps, r, height);
      var rest := proposals.Keys;
      assert ps.Keys - rest == {};
      while rest != {}
        invariant rest <= ps.Keys && Enumerates(order, ps.Keys - rest)
        invariant list == ToExecute(ps, r, height, order)
        invariant proposals == Tallied(ps, r, height, ps.Keys - rest)
        invariant registry.State() == r
        decreases |rest|
      {
        var id :| id in rest;
        TallyNext(ps, r, height, ps.Keys - rest, id);
        ListNext(ps, r, height, order, id);
        assert ps.Keys - (rest - {id}) == (ps.Keys - rest) + {id};
        var p := proposals[id];
        if p.status == Voting && p.endHeight <= height {
          var verdict := Verdict(p, registry.governance);
          proposals := proposals[id := p.(status := verdict)];
          if verdict == Passed {
            list := list + [id];
          }
        }
        order := order + [id];
        rest := rest - {id};
      }
      assert ps.Keys - rest == ps.Keys;
    }

    /** `tick`: tally, then submit the passed proposals to the registry in the order they were visited. */
    method Tick(height: U64, registry: ChainParameterRegistry) returns (ghost order: seq<string>)
      modifies this, registry
      ensures Enumerates(order, old(proposals).Keys)
      ensures proposals == TickProposals(old(proposals), old(registry.State()), height)
      ensures registry.State() == TickRegistry(old(proposals), old(registry.State()), height, order)
    {
      hide ToExecute, Tallied, Submitted, TickRegistry, Verdict, Refused, Schedule, TickProposals;
      ghost var ps, r := proposals, registry.State();
      var list;
      list, order := Tally(height, registry);
      ListMeaning(ps, r, height, order);
      SubmitStart(ps, r, height);
      assert list[..0] == [] && Elements(list[..0]) == {};
      for i := 0 to |list|
        invariant proposals == Submitted(ps, r, height, Elements(list[..i]))
        invariant registry.State() == TickRegistry(ps, r, height, list[..i])
      {
        assert list[..i + 1] == list[..i] + [list[i]];
        assert Elements(list[..i + 1]) == Elements(list[..i]) + {list[i]};
        SubmitNext(ps, r, height, Elements(list[..i]), list[i]);
        TickNext(ps, r, height, list[..i], list[i]);
        GatesDecide(ps, r, height, list[..i], list[i]);
        var id := list[i];
        var p := proposals[id];
        var voters := Voters(p);
        var refusal := registry.SubmitParameterUpgrade(p.patch, p.activation, p.proposer, voters);
        if refusal.None? {
          proposals := proposals[id := p.(status := Executed)];
        }
      }
      assert list[..|list|] == list;
      ListIsEnough(ps, r, height, order);
      AllSubmitted(ps, r, height, Elements(list));
    }
  }
}
