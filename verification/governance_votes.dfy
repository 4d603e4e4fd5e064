/** What votes come to over every run, and when a proposal is decided. */
module GovernanceVotes {
  import opened MachineInts
  import opened ChainParams
  import opened Governance
  import opened GovernanceRuns

  // ---- A vote counts the way it was cast ----

  /** The event is a vote under `key` that counts: on an open proposal, by somebody who holds a role at that moment. */
  predicate VoteCounts(s: System, e: Event, id: string, key: string) {
    && e.Voted? && e.id == id && Normalize(e.voter) == key
    && id in s.proposals && s.proposals[id].status == Voting && key in s.registry.roles
  }

  /** What `key` last said about proposal `id` in a run, if it had said `said` before. */
  function LastSaid(s: System, es: seq<Event>, id: string, key: string, said: Option<bool>): Option<bool>
    decreases |es|
  {
    if es == [] then said
    else LastSaid(Next(s, es[0]), es[1..], id, key, if VoteCounts(s, es[0], id, key) then Some(es[0].approve) else said)
  }

  /** The vote that is stored. */
  function Stored(ps: Proposals, id: string, key: string): Option<bool> {
    if id in ps && key in ps[id].votes then Some(ps[id].votes[key].approve) else None
  }

  lemma {:induction false} StoredAfter(s: System, e: Event, id: string, key: string)
    ensures Stored(Next(s, e).proposals, id, key) ==
              if VoteCounts(s, e, id, key) then Some(e.approve) else Stored(s.proposals, id, key)
  {
    hide Normalize, StatusAfter, TickRegistry;
  }

  /** One vote. It is accepted if and only if the voter holds a role and the proposal is open; it then puts the voter
      among the approving members exactly if it approves and the voter is a member, and no other voter is affected. */
  lemma {:induction false} VoteMeaning(ps: Proposals, id: string, voter: string, approve: bool, r: Registry,
                                       members: seq<string>)
    requires id in ps && VotesKeyed(ps[id])
    ensures var ps', key := CastVote(ps, id, voter, approve, r), Normalize(voter);
            && id in ps' && (forall other :: other in ps && other != id ==> other in ps' && ps'[other] == ps[other])
            && Approvals(ps'[id], members) ==
                 (var before := Approvals(ps[id], members);
                  if key !in r.roles || ps[id].status != Voting then before
                  else if approve && exists m :: m in members && Normalize(m) == key then before + {key}
                  else before - {key})
  {
    hide Normalize;
  }

  /** Over every run the stored vote of a voter is the last one that counted. */
  lemma {:induction false} StoredIsLastSaid(s: System, es: seq<Event>, id: string, key: string)
    ensures Stored(RunAll(s, es).proposals, id, key) == LastSaid(s, es, id, key, Stored(s.proposals, id, key))
    decreases |es|
  {
    hide Next, Stored, VoteCounts;
    if es != [] {
      StoredAfter(s, es[0], id, key);
      StoredIsLastSaid(Next(s, es[0]), es[1..], id, key);
    }
  }

  ghost predicate AllKeyed(ps: Proposals) { forall id :: id in ps ==> VotesKeyed(ps[id]) }

  lemma {:induction false} KeyedOverRuns(s: System, es: seq<Event>)
    requires AllKeyed(s.proposals)
    ensures AllKeyed(RunAll(s, es).proposals)
    decreases |es|
  {
    hide Normalize, HasRole, StatusAfter, TickRegistry;
    if es != [] {
      assert AllKeyed(Next(s, es[0]).proposals);
      hide Next;
      KeyedOverRuns(Next(s, es[0]), es[1..]);
    }
  }

  /** The members whose last vote that counted was an approval. */
  function Approvers(s: System, es: seq<Event>, id: string, members: seq<string>): set<string> {
    set key | key in Ids(members) && LastSaid(s, es, id, key, None) == Some(true)
  }

  lemma {:induction false} ApprovalsAreApprovers(s: System, es: seq<Event>, id: string, members: seq<string>)
    requires s.proposals == map[] && id in RunAll(s, es).proposals
    ensures Approvals(RunAll(s, es).proposals[id], members) == Approvers(s, es, id, members)
  {
    hide Normalize, LastSaid, RunAll, Ids;
    KeyedOverRuns(s, es);
    var p := RunAll(s, es).proposals[id];
    assert VotesKeyed(p);
    forall key: string
      ensures key in Approvals(p, members) <==> key in Ids(members) && LastSaid(s, es, id, key, None) == Some(true)
    {
      StoredIsLastSaid(s, es, id, key);
    }
  }

  /** Over every run under a DAO: a tick passes a proposal whose voting has ended if and only if the members whose last
      vote was an approval, counted in u32, reach the minimum, and rejects it otherwise. */
  lemma {:induction false} PassesIffMembersApprove(r: Registry, votingDuration: U64, es: seq<Event>, id: string,
                                                   height: U64, order: seq<string>)
    requires r.governance.Dao?
    requires var t := RunAll(System(map[], r, votingDuration, 0), es);
             id in t.proposals && t.proposals[id].status == Voting && t.proposals[id].endHeight <= height
    ensures var s := System(map[], r, votingDuration, 0);
            var after := Next(RunAll(s, es), Ticked(height, order)).proposals[id].status;
            if r.governance.minApprovals <= |Approvers(s, es, id, r.governance.members)| % 0x1_0000_0000
            then after == Passed || after == Executed
            else after == Rejected
  {
    hide Refused, RunAll, Approvers, TickRegistry;
    var s := System(map[], r, votingDuration, 0);
    ApprovalsAreApprovers(s, es, id, r.governance.members);
    var ops := RegistryAlongRun(s, es, 0);
    ConfigurationStays(r, ops);
  }

  // ---- When a proposal is decided ----

  /** The end of voting, `height + duration` as a u64 that wraps. */
  function EndOfVoting(height: U64, duration: U64): int {
    if height + duration <= U64_MAX then height + duration else height + duration - U64_MAX - 1
  }

  ghost predicate NoTickFrom(es: seq<Event>, end: int) {
    forall i :: 0 <= i < |es| && es[i].Ticked? ==> es[i].height < end
  }

  lemma {:induction false} OpenAlong(s: System, es: seq<Event>, id: string)
    requires id in s.proposals
    ensures var t := RunAll(s, es);
            && id in t.proposals
            && t.proposals[id].(status := s.proposals[id].status, votes := s.proposals[id].votes) == s.proposals[id]
            && (t.proposals[id].status == Voting
                <==> s.proposals[id].status == Voting && NoTickFrom(es, s.proposals[id].endHeight))
    decreases |es|
  {
    if es != [] {
      OpenAfter(s, es[0], id);
      hide Next;
      var s1 := Next(s, es[0]);
      var end := s.proposals[id].endHeight;
      assert NoTickFrom(es, end) <==> NoTickFrom(es[1..], end) && (es[0].Ticked? ==> es[0].height < end);
      OpenAlong(s1, es[1..], id);
    }
  }

  lemma {:induction false} OpenAfter(s: System, e: Event, id: string)
    requires id in s.proposals
    ensures var t := Next(s, e);
            && id in t.proposals
            && t.proposals[id].(status := s.proposals[id].status, votes := s.proposals[id].votes) == s.proposals[id]
            && (t.proposals[id].status == Voting
                <==> s.proposals[id].status == Voting && (e.Ticked? ==> e.height < s.proposals[id].endHeight))
  {
    hide Normalize, Refused, Approvals, TickRegistry, HasRole;
  }

  /** A proposal with a fresh id is accepted if and only if its proposer holds a role. It then says what was proposed,
      and over every later run it is open if and only if no tick has reached the end of its voting. */
  lemma {:induction false} OpenIffNoTickReachedEnd(s: System, e: Event, es: seq<Event>)
    requires e.Proposed? && e.id !in s.proposals
    ensures e.id in Next(s, e).proposals <==> Normalize(e.proposer) in s.registry.roles
    ensures e.id in Next(s, e).proposals ==>
              var t := RunAll(Next(s, e), es);
              && e.id in t.proposals
              && var p := t.proposals[e.id];
              && p.proposer == e.proposer && p.patch == e.patch && p.activation == e.activation
              && (p.status == Voting <==> NoTickFrom(es, EndOfVoting(e.height, s.votingDuration)))
  {
    hide Normalize;
    if e.id in Next(s, e).proposals {
      assert Next(s, e).proposals[e.id].endHeight == EndOfVoting(e.height, s.votingDuration);
      OpenAlong(Next(s, e), es, e.id);
    }
  }

  /** So a tick at the very height of the proposal decides it, before anybody can vote in a later block, if and only if
      there is no voting time or the end of voting is beyond u64. */
  lemma {:induction false} DecidedAtOnceIff(s: System, e: Event, order: seq<string>)
    requires e.Proposed? && e.id !in s.proposals && Normalize(e.proposer) in s.registry.roles
    ensures var t := RunAll(Next(s, e), [Ticked(e.height, order)]);
            && e.id in t.proposals
            && (t.proposals[e.id].status != Voting <==> s.votingDuration == 0 || U64_MAX < e.height + s.votingDuration)
  {
    hide Normalize, RunAll, Next;
    var tick := Ticked(e.height, order);
    OpenIffNoTickReachedEnd(s, e, [tick]);
    var end := EndOfVoting(e.height, s.votingDuration);
    assert NoTickFrom([tick], end) <==> e.height < end by {
      assert [tick][0] == tick;
    }
  }
}
