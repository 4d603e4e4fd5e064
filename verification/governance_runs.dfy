/** Governance over every run: proposals are decided once, votes are fixed once voting ends, and each
    executed proposal accounts for exactly one record of the upgrade history. */
module GovernanceRuns {
  import opened MachineInts
  import opened ChainParams
  import opened RegistryTheorems
  import opened Governance

  /** `direct` counts the upgrades that were submitted to the registry without a proposal. */
  datatype System = System(proposals: Proposals, registry: Registry, votingDuration: U64, direct: nat)

  datatype Event =
    | Proposed(id: string, proposer: string, patch: Patch, activation: U64, height: U64)
    | Voted(id: string, voter: string, approve: bool)
    | Ticked(height: U64, order: seq<string>)
    | Administered(op: RegistryOp)

  /** One event. A proposal id is fresh (it is random), and a tick visits each proposal once. */
  function Next(s: System, e: Event): System {
    match e
    case Proposed(id, proposer, patch, activation, height) =>
      if id in s.proposals then s
      else s.(proposals := Propose(s.proposals, s.votingDuration, id, proposer, patch, activation, height, s.registry))
    case Voted(id, voter, approve) => s.(proposals := CastVote(s.proposals, id, voter, approve, s.registry))
    case Ticked(height, order) =>
      s.(proposals := TickProposals(s.proposals, s.registry, height),
         registry := TickRegistry(s.proposals, s.registry, height, order))
    case Administered(op) =>
      var r := Step(s.registry, op);
      s.(registry := r, direct := s.direct + if |r.history| == |s.registry.history| then 0 else 1)
  }

  ghost predicate Possible(s: System, e: Event) { e.Ticked? ==> Enumerates(e.order, s.proposals.Keys) }

  ghost predicate PossibleRun(s: System, es: seq<Event>)
    decreases |es|
  {
    es == [] || (Possible(s, es[0]) && PossibleRun(Next(s, es[0]), es[1..]))
  }

  function RunAll(s: System, es: seq<Event>): System
    decreases |es|
  {
    if es == [] then s else RunAll(Next(s, es[0]), es[1..])
  }

  // ---- The invariant ----

  function ExecutedIds(ps: Proposals): set<string> { set id | id in ps && ps[id].status == Executed }

  predicate VotesKeyed(p: Proposal) { forall k :: k in p.votes ==> k == Normalize(p.votes[k].voter) }

  /** What an executed proposal needed. Under a DAO: enough distinct approving members, and only members voting.
      With admin keys: a key as proposer, and no vote at all (a blank voter apart). */
  predicate Earned(p: Proposal, g: GovernanceConfig) {
    match g
    case AdminKeys(keys) =>
      VotersOf(p) <= {""} && Normalize(p.proposer) != "" && Normalize(p.proposer) in Ids(keys)
    case Dao(members, minApprovals) =>
      && 0 < minApprovals <= |Approvals(p, members)|
      && Approvals(p, members) <= Ids(members)
      && p.votes.Keys - {""} <= Ids(members)
  }

  /** The status is what the tally says, and nothing ever expires. */
  predicate Decided(p: Proposal, g: GovernanceConfig) {
    match p.status
    case Voting => true
    case Rejected => Verdict(p, g) == Rejected
    case Passed => Verdict(p, g) == Passed
    case Executed => Verdict(p, g) == Passed && Earned(p, g)
    case Expired => false
  }

  predicate Sound(p: Proposal, g: GovernanceConfig) { VotesKeyed(p) && Decided(p, g) }

  ghost predicate SystemOk(s: System) {
    && Indexed(s.registry.activations, s.registry.history)
    && (forall id :: id in s.proposals ==> Sound(s.proposals[id], s.registry.governance))
    && |s.registry.history| == s.direct + |ExecutedIds(s.proposals)|
  }

  /** The moves of a status: a tick takes it from `Voting` to `Rejected`, or to `Passed` and perhaps on to
      `Executed`. */
  predicate Moves(before: Status, after: Status) {
    before == after || (before == Voting && (after == Rejected || after == Passed || after == Executed))
  }

  /** Proposals only move forward: what was proposed never changes, the status makes only the moves above, and
      once a proposal has left `Voting` nothing of it changes any more, its votes and its status included. */
  ghost predicate Forward(ps: Proposals, ps': Proposals) {
    forall id :: id in ps ==>
      && id in ps'
      && ps'[id].(status := ps[id].status, votes := ps[id].votes) == ps[id]
      && Moves(ps[id].status, ps'[id].status)
      && (ps[id].status != Voting ==> ps'[id] == ps[id])
  }

  // ---- Votes and approvals ----

  lemma {:induction false} KeyedVoices(p: Proposal)
    requires VotesKeyed(p)
    ensures Voices(VotersOf(p)) == p.votes.Keys - {""}
  {
    forall k | k in p.votes
      ensures k in (set v | v in VotersOf(p) :: Normalize(v))
    {
      assert p.votes[k].voter in VotersOf(p);
    }
  }

  /** A proposal that executes has earned it. */
  lemma {:induction false} ExecutionIsEarned(p: Proposal, r: Registry, height: U64)
    requires VotesKeyed(p) && Executes(p, r, height)
    ensures Earned(p.(status := Executed), r.governance)
  {
    hide Normalize, HasRole, HasChanges, Earliest, Voices, Ids;
    var q := p.(status := Executed);
    assert VotersOf(q) == VotersOf(p);
    if r.governance.Dao? {
      KeyedVoices(p);
      ApprovalsAreMembers(p, r.governance.members);
      assert Approvals(q, r.governance.members) == Approvals(p, r.governance.members);
      AsU32AtMost(|Approvals(p, r.governance.members)|);
    }
  }

  lemma {:induction false} AsU32AtMost(n: nat)
    ensures AsU32(n) <= n
  {
  }

  lemma {:induction false} ApprovalsAreMembers(p: Proposal, members: seq<string>)
    requires VotesKeyed(p)
    ensures Approvals(p, members) <= Ids(members)
  {
    hide Normalize, Ids;
  }

  /** A proposal that is due, changes something, comes from a role holder and leaves enough time: all that is
      left to decide about it is who voted. */
  ghost predicate InOrder(p: Proposal, r: Registry, height: U64) {
    && Due(p, height) && HasChanges(p.patch) && HasRole(r.roles, p.proposer, Operator) && Earliest(r) <= p.activation
  }

  /** Passing the vote is not enough to be executed. A proposal that passed under a DAO and is otherwise in order
      is executed if and only if nobody outside the membership voted, for or against, and enough voters are not
      blank. */
  lemma {:induction false} ExecutedIffOnlyMembersVoted(p: Proposal, r: Registry, height: U64)
    requires VotesKeyed(p) && InOrder(p, r, height) && r.governance.Dao? && Verdict(p, r.governance) == Passed
    ensures var voters := p.votes.Keys - {""};
            Executes(p, r, height) <==>
              && 0 < r.governance.minApprovals <= AsU32(|voters|)
              && voters <= Ids(r.governance.members)
    ensures "" !in p.votes && |p.votes| < U32_SIZE && 0 < r.governance.minApprovals ==>
              (Executes(p, r, height) <==> p.votes.Keys <= Ids(r.governance.members))
  {
    hide Normalize, HasRole, HasChanges, Earliest, Approvals, Verdict, Voices, Ids;
    KeyedVoices(p);
    if "" !in p.votes && |p.votes| < U32_SIZE {
      EnoughVotes(p, r.governance);
      assert p.votes.Keys - {""} == p.votes.Keys;
    }
  }

  /** With admin keys every due proposal passes; one that is otherwise in order is executed if and only if nobody
      voted on it (a blank voter apart) and the proposer is a key. A single vote, an approving one included,
      makes the registry refuse it, and so it does with every proposal of an operator who is not a key. */
  lemma {:induction false} ExecutedIffKeyAndNobodyVoted(p: Proposal, r: Registry, height: U64)
    requires InOrder(p, r, height) && r.governance.AdminKeys?
    ensures Verdict(p, r.governance) == Passed
    ensures Executes(p, r, height) <==>
              && VotersOf(p) <= {""}
              && Normalize(p.proposer) != "" && Normalize(p.proposer) in Ids(r.governance.keys)
  {
    hide Normalize, HasRole, HasChanges, Earliest, VotersOf, Ids;
  }

  lemma {:induction false} EnoughVotes(p: Proposal, g: GovernanceConfig)
    requires |p.votes| < U32_SIZE && g.Dao? && Verdict(p, g) == Passed
    ensures g.minApprovals <= AsU32(|p.votes.Keys|)
  {
    hide Normalize;
    SubsetIsSmaller(Approvals(p, g.members), p.votes.Keys);
  }

  lemma {:induction false} SubsetIsSmaller(a: set<string>, b: set<string>)
    requires a <= b
    ensures |a| <= |b|
  {
    assert b == a + (b - a);
  }

  // ---- Counting executions ----

  /** The proposals a tick executes. */
  function Executing(ps: Proposals, r: Registry, height: U64): set<string> {
    set id | id in ps && Executes(ps[id], r, height)
  }

  lemma {:induction false} HistoryGrowth(ps: Proposals, r: Registry, height: U64, order: seq<string>)
    requires forall i, j :: 0 <= i < j < |order| ==> order[i] != order[j]
    ensures |TickRegistry(ps, r, height, order).history|
         == |r.history| + |set id | id in order && id in ps && Executes(ps[id], r, height)|
  {
    hide Executes;
    var done := set id | id in order && id in ps && Executes(ps[id], r, height);
    if order != [] {
      var earlier, id := order[..|order| - 1], order[|order| - 1];
      assert order == earlier + [id];
      HistoryGrowth(ps, r, height, earlier);
      var before := set e | e in earlier && e in ps && Executes(ps[e], r, height);
      assert id !in before;
      assert done == if id in ps && Executes(ps[id], r, height) then before + {id} else before;
    }
  }

  /** The history after a tick: what it was, then one record for each proposal executed, in the order
      they were visited. */
  function Appended(ps: Proposals, r: Registry, height: U64, order: seq<string>): seq<Record> {
    if order == [] then []
    else
      var earlier, id := Appended(ps, r, height, order[..|order| - 1]), order[|order| - 1];
      if id in ps && Executes(ps[id], r, height) then earlier + [Record(r.tip, ps[id].activation, ps[id].patch)]
      else earlier
  }

  lemma {:induction false} TickAppends(ps: Proposals, r: Registry, height: U64, order: seq<string>)
    ensures TickRegistry(ps, r, height, order).history == r.history + Appended(ps, r, height, order)
    ensures Indexed(r.activations, r.history) ==>
              Indexed(TickRegistry(ps, r, height, order).activations, TickRegistry(ps, r, height, order).history)
  {
    hide Executes, Indexed;
    if order != [] {
      var earlier, id := order[..|order| - 1], order[|order| - 1];
      TickAppends(ps, r, height, earlier);
      TickKeepsGates(ps, r, height, earlier);
      var before := TickRegistry(ps, r, height, earlier);
      if id in ps && Executes(ps[id], r, height) && Indexed(r.activations, r.history) {
        ScheduleKeepsIndexed(before.activations, before.history, Record(before.tip, ps[id].activation, ps[id].patch));
      }
    }
  }

  lemma {:induction false} ExecutedAfterTick(ps: Proposals, r: Registry, height: U64)
    ensures ExecutedIds(TickProposals(ps, r, height)) == ExecutedIds(ps) + Executing(ps, r, height)
    ensures ExecutedIds(ps) !! Executing(ps, r, height)
  {
  }

  // ---- Every event keeps the invariant ----

  lemma {:induction false} TickedIsSound(p: Proposal, r: Registry, height: U64)
    requires Sound(p, r.governance)
    ensures Sound(p.(status := StatusAfter(p, r, height)), r.governance)
  {
    var q := p.(status := StatusAfter(p, r, height));
    SameTally(p, q, r.governance);
    if Executes(p, r, height) {
      ExecutionIsEarned(p, r, height);
    }
    hide Refused, Verdict, Earned;
  }

  lemma {:induction false} SameTally(p: Proposal, q: Proposal, g: GovernanceConfig)
    requires q == p.(status := q.status)
    ensures Verdict(q, g) == Verdict(p, g) && VotersOf(q) == VotersOf(p)
  {
    if g.Dao? {
      assert Approvals(q, g.members) == Approvals(p, g.members);
    }
  }

  lemma {:induction false} TickOk(s: System, height: U64, order: seq<string>)
    requires SystemOk(s) && Enumerates(order, s.proposals.Keys)
    ensures SystemOk(Next(s, Ticked(height, order)))
  {
    hide Sound, Indexed, Executes, TickRegistry, StatusAfter;
    var ps, r := s.proposals, s.registry;
    TickAppends(ps, r, height, order);
    TickKeepsGates(ps, r, height, order);
    HistoryGrowth(ps, r, height, order);
    assert Executing(ps, r, height) == set id | id in order && id in ps && Executes(ps[id], r, height);
    ExecutedAfterTick(ps, r, height);
    forall id | id in ps
      ensures Sound(TickProposals(ps, r, height)[id], r.governance)
    {
      TickedIsSound(ps[id], r, height);
    }
  }

  lemma {:induction false} VoteIsSound(p: Proposal, voter: string, approve: bool, g: GovernanceConfig)
    requires Sound(p, g) && p.status == Voting
    ensures Sound(p.(votes := p.votes[Normalize(voter) := Vote(voter, approve)]), g)
  {
    hide Normalize;
  }

  lemma {:induction false} ProposalOk(s: System, e: Event)
    requires SystemOk(s) && (e.Proposed? || e.Voted?)
    ensures SystemOk(Next(s, e)) && Next(s, e).registry == s.registry
  {
    hide Normalize, HasRole, Indexed, Verdict, Earned;
    var s' := Next(s, e);
    assert ExecutedIds(s'.proposals) == ExecutedIds(s.proposals);
    forall id | id in s'.proposals
      ensures Sound(s'.proposals[id], s.registry.governance)
    {
      if id in s.proposals {
        assert Sound(s.proposals[id], s.registry.governance);
        if e.Voted? && s'.proposals[id] != s.proposals[id] {
          VoteIsSound(s.proposals[id], e.voter, e.approve, s.registry.governance);
        }
      }
    }
  }

  lemma {:induction false} EventOk(s: System, e: Event)
    requires SystemOk(s) && Possible(s, e)
    ensures SystemOk(Next(s, e))
  {
    hide Indexed, Sound, HasRole, Refused;
    match e
    case Ticked(height, order) => TickOk(s, height, order);
    case Administered(op) =>
      if op.SubmitUpgrade? {
        var r := s.registry;
        ScheduleKeepsIndexed(r.activations, r.history, Record(r.tip, op.activation, op.patch));
      }
    case _ => ProposalOk(s, e);
  }

  lemma {:induction false} EventForward(s: System, e: Event)
    ensures Forward(s.proposals, Next(s, e).proposals)
  {
  }

  lemma {:induction false} ForwardTransitive(a: Proposals, b: Proposals, c: Proposals)
    requires Forward(a, b) && Forward(b, c)
    ensures Forward(a, c)
  {
  }

  /** Over every run: proposals only move forward, the history counts each executed proposal exactly
      once, and every executed DAO proposal was earned. */
  lemma {:induction false} GovernanceOverRuns(s: System, es: seq<Event>)
    requires SystemOk(s) && PossibleRun(s, es)
    ensures SystemOk(RunAll(s, es)) && Forward(s.proposals, RunAll(s, es).proposals)
    decreases |es|
  {
    hide SystemOk, Forward, Next;
    if es == [] {
      ForwardReflexive(s.proposals);
    } else {
      var s1 := Next(s, es[0]);
      EventOk(s, es[0]);
      EventForward(s, es[0]);
      GovernanceOverRuns(s1, es[1..]);
      ForwardTransitive(s.proposals, s1.proposals, RunAll(s1, es[1..]).proposals);
    }
  }

  lemma {:induction false} ForwardReflexive(ps: Proposals)
    ensures Forward(ps, ps)
  {
  }

  /** Any run that starts without proposals and with an empty history satisfies all of it, for any roles
      that were granted. */
  lemma {:induction false} StartOk(r: Registry, votingDuration: U64)
    requires r.activations == map[] && r.history == []
    ensures SystemOk(System(map[], r, votingDuration, 0))
  {
    assert ExecutedIds(map[]) == {};
  }

  // ---- A governance run is a run of the registry ----

  /** The submissions a tick makes. */
  function Submissions(ps: Proposals, r: Registry, height: U64, order: seq<string>): seq<RegistryOp> {
    if order == [] then []
    else
      var earlier, id := Submissions(ps, r, height, order[..|order| - 1]), order[|order| - 1];
      if id in ps && Executes(ps[id], r, height) then
        earlier + [SubmitUpgrade(ps[id].patch, ps[id].activation, ps[id].proposer, VotersOf(ps[id]))]
      else earlier
  }

  lemma {:induction false} RegistryRunAppend(r: Registry, ops: seq<RegistryOp>, op: RegistryOp)
    ensures Run(r, ops + [op]) == Step(Run(r, ops), op)
    decreases |ops|
  {
    hide Step;
    if ops == [] {
      assert Run(r, [op]) == Run(Step(r, op), []);
    } else {
      assert (ops + [op])[1..] == ops[1..] + [op];
      RegistryRunAppend(Step(r, ops[0]), ops[1..], op);
    }
  }

  lemma {:induction false} RegistryRunConcat(r: Registry, a: seq<RegistryOp>, b: seq<RegistryOp>)
    ensures Run(r, a + b) == Run(Run(r, a), b)
    decreases |a|
  {
    hide Step;
    if a == [] {
      assert a + b == b;
    } else {
      assert (a + b)[1..] == a[1..] + b;
      RegistryRunConcat(Step(r, a[0]), a[1..], b);
    }
  }

  /** A tick does to the registry what its submissions do, one after another. */
  lemma {:induction false} TickIsRun(ps: Proposals, r: Registry, height: U64, order: seq<string>)
    ensures Run(r, Submissions(ps, r, height, order)) == TickRegistry(ps, r, height, order)
    ensures forall op :: op in Submissions(ps, r, height, order) ==> op.SubmitUpgrade?
  {
    if order != [] {
      var earlier, id := order[..|order| - 1], order[|order| - 1];
      TickIsRun(ps, r, height, earlier);
      if id in ps && Executes(ps[id], r, height) {
        var p := ps[id];
        RegistryRunAppend(r, Submissions(ps, r, height, earlier),
                          SubmitUpgrade(p.patch, p.activation, p.proposer, VotersOf(p)));
        TickKeepsGates(ps, r, height, earlier);
        hide HasRole, Authorized, Schedule, HasChanges;
      }
    }
  }

  /** No event sets the tip below `floor`. */
  ghost predicate TipsAtLeast(es: seq<Event>, floor: int) {
    forall e :: e in es ==> e.Administered? && e.op.SetTip? ==> floor <= e.op.height
  }

  /** What a governance run does to the registry is a run of registry operations, with no other tips. */
  lemma {:induction false} RegistryAlongRun(s: System, es: seq<Event>, floor: int) returns (ops: seq<RegistryOp>)
    requires TipsAtLeast(es, floor)
    ensures RunAll(s, es).registry == Run(s.registry, ops) && TipAtLeast(ops, floor)
    decreases |es|
  {
    if es == [] {
      ops := [];
    } else {
      assert es[0] in es;
      var first := RegistryAlongEvent(s, es[0], floor);
      hide Next;
      var rest := RegistryAlongRun(Next(s, es[0]), es[1..], floor);
      ops := first + rest;
      RegistryRunConcat(s.registry, first, rest);
    }
  }

  lemma {:induction false} RegistryAlongEvent(s: System, e: Event, floor: int) returns (ops: seq<RegistryOp>)
    requires e.Administered? && e.op.SetTip? ==> floor <= e.op.height
    ensures Next(s, e).registry == Run(s.registry, ops) && TipAtLeast(ops, floor)
  {
    hide Step, TickRegistry;
    match e
    case Ticked(height, order) =>
      ops := Submissions(s.proposals, s.registry, height, order);
      TickIsRun(s.proposals, s.registry, height, order);
    case Administered(op) =>
      ops := [op];
      assert Run(s.registry, [op]) == Run(Step(s.registry, op), []);
    case _ =>
      ops := [];
  }

  /** The frozen past, over governance runs: once the tip has reached `floor` and is never set below it, nothing
      that is proposed, voted on, executed or submitted changes the parameters below `floor` plus minimum
      delay. */
  lemma {:induction false} GovernedPastIsFrozen(s: System, es: seq<Event>, floor: U64, height: U64)
    requires floor <= s.registry.tip && TipsAtLeast(es, floor) && height < SaturatingAdd(floor, s.registry.minDelay)
    ensures EffectiveAt(RunAll(s, es).registry, height) == EffectiveAt(s.registry, height)
  {
    var ops := RegistryAlongRun(s, es, floor);
    PastIsFrozen(s.registry, ops, floor, height);
  }

  /** Everything together, from any start: an empty log, no proposals, any roles. Over every run the invariant
      holds, so that statuses agree with tallies and the log counts every execution once, and the effective
      parameters are genesis with the log replayed. */
  lemma {:induction false} GovernanceFromStart(r: Registry, votingDuration: U64, es: seq<Event>, height: U64)
    requires r.activations == map[] && r.history == []
    requires PossibleRun(System(map[], r, votingDuration, 0), es)
    ensures var t := RunAll(System(map[], r, votingDuration, 0), es);
            && SystemOk(t)
            && t.registry.genesis == r.genesis && t.registry.governance == r.governance
            && EffectiveAt(t.registry, height) == ReplayBelow(r.genesis, t.registry.history, height + 1)
  {
    hide SystemOk, Forward, Next;
    var s := System(map[], r, votingDuration, 0);
    StartOk(r, votingDuration);
    GovernanceOverRuns(s, es);
    var ops := RegistryAlongRun(s, es, 0);
    ConfigurationStays(r, ops);
    var t := RunAll(s, es);
    SystemIndexed(t);
    IndexEqualsReplay(r.genesis, t.registry.activations, t.registry.history, height + 1);
  }

  lemma {:induction false} SystemIndexed(s: System)
    requires SystemOk(s)
    ensures Indexed(s.registry.activations, s.registry.history)
  {
  }

  lemma {:induction false} ConfigurationStays(r: Registry, ops: seq<RegistryOp>)
    ensures Run(r, ops).genesis == r.genesis && Run(r, ops).governance == r.governance
    decreases |ops|
  {
    if ops != [] {
      hide HasRole, Refused;
      ConfigurationStays(Step(r, ops[0]), ops[1..]);
    }
  }

  /** A tick decides every due proposal for good; in particular one that passes but that the registry
      refuses stays `Passed` and is never tried again. */
  lemma {:induction false} NoSecondAttempt(s: System, height: U64, order: seq<string>, later: seq<Event>, id: string)
    requires SystemOk(s) && Enumerates(order, s.proposals.Keys)
    requires PossibleRun(Next(s, Ticked(height, order)), later)
    requires id in s.proposals && Due(s.proposals[id], height)
    ensures var s1 := Next(s, Ticked(height, order));
            && s1.proposals[id].status == StatusAfter(s.proposals[id], s.registry, height) != Voting
            && id in RunAll(s1, later).proposals && RunAll(s1, later).proposals[id] == s1.proposals[id]
  {
    var s1 := Next(s, Ticked(height, order));
    TickOk(s, height, order);
    GovernanceOverRuns(s1, later);
  }

  // ---- From genesis ----

  /** Without any role nothing can be proposed, voted on, granted or submitted, and no event changes that. */
  lemma {:induction false} InertWithoutRoles(s: System, es: seq<Event>)
    requires s.proposals == map[] && s.registry.roles == map[]
    ensures var t := RunAll(s, es);
            && t.proposals == map[] && t.direct == s.direct
            && t.registry == s.registry.(tip := t.registry.tip)
    decreases |es|
  {
    if es != [] {
      InertEvent(s, es[0]);
      hide Next;
      InertWithoutRoles(Next(s, es[0]), es[1..]);
    }
  }

  lemma {:induction false} InertEvent(s: System, e: Event)
    requires s.proposals == map[] && s.registry.roles == map[]
    ensures var t := Next(s, e);
            t.proposals == map[] && t.direct == s.direct && t.registry == s.registry.(tip := t.registry.tip)
  {
    hide Normalize, Authorized;
    if e.Ticked? {
      TickOfNothing(s.registry, e.height, e.order);
    }
  }

  lemma {:induction false} TickOfNothing(r: Registry, height: U64, order: seq<string>)
    ensures TickRegistry(map[], r, height, order) == r && TickProposals(map[], r, height) == map[]
  {
    if order != [] {
      TickOfNothing(r, height, order[..|order| - 1]);
    }
  }

  /** Genesis gives a DAO no role, and only administrators grant roles. So over every run from a DAO genesis no
      proposal is ever opened, no upgrade is ever accepted, and every height keeps the genesis parameters. */
  lemma {:induction false} DaoGenesisIsInert(members: seq<string>, minApprovals: U32, minDelay: U64, genesis: Params,
                                             votingDuration: U64, es: seq<Event>, height: U64)
    ensures var r := FromGenesis(Dao(members, minApprovals), minDelay, genesis);
            var t := RunAll(System(map[], r, votingDuration, 0), es);
            && t.proposals == map[] && t.registry.roles == map[] && t.registry.history == []
            && EffectiveAt(t.registry, height) == genesis
  {
    var s := System(map[], FromGenesis(Dao(members, minApprovals), minDelay, genesis), votingDuration, 0);
    InertWithoutRoles(s, es);
    GapChangesNothing(genesis, map[], 0, height + 1);
  }

  lemma {:induction false} RunOfTwo(s: System, a: Event, b: Event)
    requires Possible(s, a) && Possible(Next(s, a), b)
    ensures RunAll(s, [a, b]) == Next(Next(s, a), b) && PossibleRun(s, [a, b])
  {
    hide Next, Possible;
    assert [a, b][1..] == [b] && [b][1..] == [];
    assert RunAll(Next(s, a), [b]) == RunAll(Next(Next(s, a), b), []);
    assert PossibleRun(Next(s, a), [b]);
  }

  lemma {:induction false} RunOfThree(s: System, a: Event, b: Event, c: Event)
    requires Possible(s, a) && Possible(Next(s, a), b) && Possible(Next(Next(s, a), b), c)
    ensures RunAll(s, [a, b, c]) == Next(Next(Next(s, a), b), c) && PossibleRun(s, [a, b, c])
  {
    hide Next, Possible;
    assert [a, b, c][1..] == [b, c];
    RunOfTwo(Next(s, a), b, c);
  }

  lemma {:induction false} BlankIsNormal()
    ensures Normalize("") == ""
  {
  }

  /** Admin-key governance: whoever administers and puts a change forward gets it executed, unless they also
      approve it themselves. The vote is accepted, the proposal passes, and nothing happens. */
  lemma {:induction false} OwnApprovalBlocks(keys: seq<string>, key: string, minDelay: U64, genesis: Params,
                                             votingDuration: U64, id: string, patch: Patch, activation: U64)
    requires key in keys && Normalize(key) != "" && HasChanges(patch) && minDelay <= activation
    ensures var s := System(map[], FromGenesis(AdminKeys(keys), minDelay, genesis), votingDuration, 0);
            var propose, approve := Proposed(id, key, patch, activation, 0), Voted(id, key, true);
            var tick := Ticked(votingDuration, [id]);
            var silent, voted := RunAll(s, [propose, tick]), RunAll(s, [propose, approve, tick]);
            && PossibleRun(s, [propose, tick]) && PossibleRun(s, [propose, approve, tick])
            && id in silent.proposals && silent.proposals[id].status == Executed && |silent.registry.history| == 1
            && id in voted.proposals && voted.proposals[id].status == Passed && voted.registry == s.registry
  {
    hide Normalize, HasChanges;
    var s := System(map[], FromGenesis(AdminKeys(keys), minDelay, genesis), votingDuration, 0);
    var propose, approve := Proposed(id, key, patch, activation, 0), Voted(id, key, true);
    var tick := Ticked(votingDuration, [id]);
    AdminHasRole(keys, key, minDelay, genesis);
    var s1 := Next(s, propose);
    var p1 := Proposal(key, patch, activation, Voting, map[], votingDuration);
    assert s1.proposals == map[id := p1] && s1.registry == s.registry;
    RunOfTwo(s, propose, tick);
    ExecutedIffKeyAndNobodyVoted(p1, s.registry, votingDuration);
    OnlyProposal(id, p1, s.registry, votingDuration);
    var s2 := Next(s1, approve);
    var p2 := p1.(votes := map[Normalize(key) := Vote(key, true)]);
    assert s2.proposals == map[id := p2] && s2.registry == s.registry;
    RunOfThree(s, propose, approve, tick);
    assert key in VotersOf(p2) by { assert p2.votes[Normalize(key)].voter == key; }
    BlankIsNormal();
    ExecutedIffKeyAndNobodyVoted(p2, s.registry, votingDuration);
    OnlyProposal(id, p2, s.registry, votingDuration);
  }

  lemma {:induction false} AdminHasRole(keys: seq<string>, key: string, minDelay: U64, genesis: Params)
    requires key in keys
    ensures HasRole(FromGenesis(AdminKeys(keys), minDelay, genesis).roles, key, Operator)
    ensures Normalize(key) in Ids(keys)
  {
    hide Normalize;
  }

  /** A tick over a single proposal. */
  lemma {:induction false} OnlyProposal(id: string, p: Proposal, r: Registry, height: U64)
    requires Due(p, height) && Verdict(p, r.governance) == Passed
    ensures TickProposals(map[id := p], r, height)
         == map[id := p.(status := if Executes(p, r, height) then Executed else Passed)]
    ensures TickRegistry(map[id := p], r, height, [id])
         == if Executes(p, r, height) then Accept(r, p.patch, p.activation) else r
  {
    hide Refused, Verdict;
    assert [id][..0] == [];
    assert TickRegistry(map[id := p], r, height, [id][..0]) == r;
  }
}
