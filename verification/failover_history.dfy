/** The state of a provider, read off what it has been through: a failure streak and the last sign of health. */
module FailoverHistory {
  import opened Failover
  import opened FailoverTheorems
  import opened FailoverRuns

  // ---- What a provider has been through ----

  /** A request was served or failed, or a health check answered. */
  datatype Note = Asked(ok: bool) | Checked(healthy: bool)

  /** The failures since the last success, or since the start. */
  function Streak(notes: seq<Note>): nat {
    if notes == [] then 0
    else
      match notes[|notes| - 1]
      case Asked(ok) => if ok then 0 else Streak(notes[..|notes| - 1]) + 1
      case Checked(_) => Streak(notes[..|notes| - 1])
  }

  /** The last success or health check decides; a new provider looks healthy. */
  function LooksHealthy(notes: seq<Note>): bool {
    if notes == [] then true
    else
      match notes[|notes| - 1]
      case Asked(ok) => ok || LooksHealthy(notes[..|notes| - 1])
      case Checked(healthy) => healthy
  }

  /** What provider `i`, known as `p`, hears from the attempts of one request. */
  function Heard(tried: seq<nat>, op: Operation, p: Provider, i: nat): seq<Note> {
    if tried == [] then []
    else
      var last := |tried| - 1;
      Heard(tried[..last], op, p, i) + if tried[last] == i then [Asked(op(last, p))] else []
  }

  function Noted(s: Client, threshold: U8, m: Moment, i: nat): seq<Note>
    requires InRange(s) && i < |s.providers|
  {
    match m
    case Requesting(op) => Heard(Request(s, threshold, op, 0).tried, op, s.providers[i].provider, i)
    case Switching => []
    case Checking(answers) =>
      if |answers| == |s.providers| && answers[i].Some? then [Checked(answers[i].value)] else []
  }

  /** All that provider `i` goes through in a run. */
  function Notes(s: Client, threshold: U8, ms: seq<Moment>, i: nat): seq<Note>
    requires InRange(s) && i < |s.providers|
    decreases |ms|
  {
    if ms == [] then [] else Noted(s, threshold, ms[0], i) + Notes(After(s, threshold, ms[0]), threshold, ms[1..], i)
  }

  /** The status says what the notes say: the counter is the streak, and the circuit is open from the
      max(threshold, 1)-th failure in a row on. */
  predicate Tells(st: Status, notes: seq<Note>, threshold: U8) {
    && st.failures == Streak(notes) <= Limit(threshold)
    && st.circuit == (if Streak(notes) == Limit(threshold) then Open else Closed)
    && st.healthy == LooksHealthy(notes)
  }

  // ---- One request ----

  lemma {:induction false} StreakNext(notes: seq<Note>, n: Note)
    ensures Streak(notes + [n]) == (if n.Checked? then Streak(notes) else if n.ok then 0 else Streak(notes) + 1)
    ensures LooksHealthy(notes + [n]) == (if n.Checked? then n.healthy else n.ok || LooksHealthy(notes))
  {
    assert (notes + [n])[..|notes|] == notes;
  }

  lemma {:induction false} TellsAfterAnswer(st: Status, notes: seq<Note>, threshold: U8)
    requires Tells(st, notes, threshold) && CanExecute(st)
    ensures Tells(Succeeded(st), notes + [Asked(true)], threshold)
    ensures Tells(Failed(st, threshold), notes + [Asked(false)], threshold)
  {
    StreakNext(notes, Asked(true));
    StreakNext(notes, Asked(false));
  }

  lemma {:induction false} HeardNothing(tried: seq<nat>, op: Operation, p: Provider, i: nat)
    requires i !in tried
    ensures Heard(tried, op, p, i) == []
  {
    if tried != [] {
      HeardNothing(tried[..|tried| - 1], op, p, i);
    }
  }

  lemma {:induction false} HeardOnce(tried: seq<nat>, op: Operation, p: Provider, k: nat)
    requires k < |tried| && Distinct(tried)
    ensures Heard(tried, op, p, tried[k]) == [Asked(op(k, p))]
  {
    var last := |tried| - 1;
    if k == last {
      HeardNothing(tried[..last], op, p, tried[k]);
    } else {
      HeardOnce(tried[..last], op, p, k);
    }
  }

  lemma {:induction false} TellsAfterRequest(s: Client, threshold: U8, op: Operation, i: nat, notes: seq<Note>)
    requires InRange(s) && DistinctUrls(s.providers) && i < |s.providers| && Tells(s.providers[i], notes, threshold)
    ensures var o := Request(s, threshold, op, 0);
            Tells(o.client.providers[i], notes + Heard(o.tried, op, s.providers[i].provider, i), threshold)
  {
    hide Request, Tells, Failed, Succeeded, Visit, LastStrike, DistinctUrls, Ready;
    var ps, o := s.providers, Request(s, threshold, op, 0);
    RequestServed(s, threshold, op);
    TriedOnce(ps, s.current, threshold, op, o.tried, o.ok);
    if i in o.tried {
      var k :| 0 <= k < |o.tried| && o.tried[k] == i;
      HeardOnce(o.tried, op, ps[i].provider, k);
      TellsAfterAnswer(ps[i], notes, threshold);
    } else {
      HeardNothing(o.tried, op, ps[i].provider, i);
      assert notes + [] == notes;
    }
  }

  lemma {:induction false} TellsAfter(s: Client, threshold: U8, m: Moment, i: nat, notes: seq<Note>)
    requires InRange(s) && DistinctUrls(s.providers) && i < |s.providers| && Tells(s.providers[i], notes, threshold)
    ensures Tells(After(s, threshold, m).providers[i], notes + Noted(s, threshold, m, i), threshold)
  {
    hide DistinctUrls;
    assert notes + [] == notes;
    match m
    case Requesting(op) => TellsAfterRequest(s, threshold, op, i, notes);
    case Switching =>
    case Checking(answers) =>
      if |answers| == |s.providers| {
        OwnAnswer(s.providers, answers, i, |answers|);
        if answers[i].Some? {
          StreakNext(notes, Checked(answers[i].value));
        }
      }
  }

  lemma {:induction false} TellsAlong(s: Client, threshold: U8, ms: seq<Moment>, i: nat, notes: seq<Note>)
    requires InRange(s) && DistinctUrls(s.providers) && i < |s.providers| && Tells(s.providers[i], notes, threshold)
    ensures Tells(Run(s, threshold, ms).providers[i], notes + Notes(s, threshold, ms, i), threshold)
    decreases |ms|
  {
    hide After, Noted, Tells, DistinctUrls;
    if ms == [] {
      assert notes + [] == notes;
    } else {
      var t, first := After(s, threshold, ms[0]), Noted(s, threshold, ms[0], i);
      TellsAfter(s, threshold, ms[0], i, notes);
      DistinctKept(s.providers, t.providers);
      TellsAlong(t, threshold, ms[1..], i, notes + first);
      assert notes + first + Notes(t, threshold, ms[1..], i) == notes + (first + Notes(t, threshold, ms[1..], i));
    }
  }

  /** With distinct urls, over every run from a fresh client: a provider's counter is the number of failures since its
      last success, its circuit opens exactly at the max(threshold, 1)-th failure in a row, and it counts as healthy
      exactly if its last success or health check says so. */
  lemma {:induction false} StatusIsHistory(sites: seq<Provider>, threshold: U8, ms: seq<Moment>, i: nat)
    requires DistinctSites(sites) && i < |sites|
    ensures var st := Run(Start(sites), threshold, ms).providers[i];
            && st.provider == sites[i] && Tells(st, Notes(Start(sites), threshold, ms, i), threshold)
  {
    hide Run, Notes;
    StartIsOk(sites, threshold);
    var notes := Notes(Start(sites), threshold, ms, i);
    assert Tells(Start(sites).providers[i], [], threshold);
    TellsAlong(Start(sites), threshold, ms, i, []);
    assert [] + notes == notes;
  }

  /** So a request of such a run asks a provider only if it has failed less than max(threshold, 1) times in a row and
      looks healthy, and it asks nobody only if there is no such provider. */
  lemma {:induction false} AskedOnlyIfWell(sites: seq<Provider>, threshold: U8, ms: seq<Moment>, op: Operation, i: nat)
    requires DistinctSites(sites) && i < |sites|
    ensures var tried := Request(Run(Start(sites), threshold, ms), threshold, op, 0).tried;
            var notes := Notes(Start(sites), threshold, ms, i);
            && (i in tried ==> Streak(notes) < Limit(threshold) && LooksHealthy(notes))
            && (tried == [] ==> !(Streak(notes) < Limit(threshold) && LooksHealthy(notes)))
  {
    hide Request, Run, Notes, Visit;
    var s := Run(Start(sites), threshold, ms);
    StatusIsHistory(sites, threshold, ms, i);
    StartIsOk(sites, threshold);
    CountersOverRuns(Start(sites), threshold, ms);
    RequestServed(s, threshold, op);
    var o := Request(s, threshold, op, 0);
    TriedOnce(s.providers, s.current, threshold, op, o.tried, o.ok);
    if o.tried == [] {
      ReadyInRange(s.providers);
      VisitEnumerates(Ready(s.providers), |s.providers|, s.current);
      assert i !in Visit(Ready(s.providers), |s.providers|, s.current);
    }
  }

  // ---- For any list ----

  /** Whatever the urls are: a request that succeeds leaves the provider its result is booked on, the first one with
      the url, healthy and with a counter of zero. */
  lemma {:induction false} SuccessResets(s: Client, threshold: U8, op: Operation, attempts: nat)
    requires InRange(s) && Request(s, threshold, op, attempts).ok
    ensures var o := Request(s, threshold, op, attempts);
            && o.tried != []
            && var st := o.client.providers[Keeper(s.providers, o.tried[|o.tried| - 1])];
            st.failures == 0 && st.healthy
    decreases |s.providers| - attempts
  {
    hide Request, Asking, Stops, Onward, Keeper;
    RequestUnfolds(s, threshold, op, attempts);
    var ps, p := s.providers, Asking(s);
    if !op(attempts, ps[p].provider) {
      FailureKeepsProviders(ps, p, threshold);
      var rest := Request(Onward(s, threshold), threshold, op, attempts + 1);
      SuccessResets(Onward(s, threshold), threshold, op, attempts + 1);
      SameKeepers(ps, Onward(s, threshold).providers, rest.tried[|rest.tried| - 1]);
    }
  }

  /** Whatever the urls are: the current provider is asked first if its circuit is closed and it is healthy, or else
      the first provider of the list that is; half-open circuits, which never come up, would be tried as well. */
  lemma {:induction false} FirstAsked(s: Client, threshold: U8, op: Operation)
    requires InRange(s) && forall i :: 0 <= i < |s.providers| ==> s.providers[i].circuit != HalfOpen
    ensures var ps, tried := s.providers, Request(s, threshold, op, 0).tried;
            && (tried == [] <==> forall i :: 0 <= i < |ps| ==> ps[i].circuit == Open || !ps[i].healthy)
            && (tried != [] ==>
                  && ps[tried[0]].circuit == Closed && ps[tried[0]].healthy
                  && (tried[0] == s.current
                      || forall i :: (0 <= i < tried[0] || i == s.current) && i < |ps| ==>
                           ps[i].circuit == Open || !ps[i].healthy))
  {
    hide Request, Stops, Onward;
    RequestUnfolds(s, threshold, op, 0);
    assert forall i: nat :: i < |s.providers| && i !in Ready(s.providers) ==> !CanExecute(s.providers[i]);
  }
}
