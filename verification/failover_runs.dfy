/** The client over every run, for any list of providers: what always holds, and what holds exactly for lists
    without a repeated url, because results are booked on the first provider with the url. */
module FailoverRuns {
  import opened MachineInts
  import opened Failover
  import opened FailoverTheorems

  // ---- Runs ----

  datatype Moment =
    | Requesting(op: Operation)
    | Switching
    | Checking(answers: seq<Option<bool>>)

  function After(s: Client, threshold: U8, m: Moment): (t: Client)
    requires InRange(s)
    ensures InRange(t) && SameProviders(s.providers, t.providers)
  {
    match m
    case Requesting(op) => Request(s, threshold, op, 0).client
    case Switching => Switch(s)
    case Checking(answers) =>
      if |answers| == |s.providers| then s.(providers := HealthUpdated(s.providers, answers)) else s
  }

  function Run(s: Client, threshold: U8, ms: seq<Moment>): (t: Client)
    requires InRange(s)
    ensures InRange(t) && SameProviders(s.providers, t.providers)
    decreases |ms|
  {
    if ms == [] then s else Run(After(s, threshold, ms[0]), threshold, ms[1..])
  }

  /** A client right after `new`, its providers in their sorted order. */
  function Start(sites: seq<Provider>): (s: Client)
    ensures InRange(s) && |s.providers| == |sites|
  {
    Client(seq(|sites|, i requires 0 <= i < |sites| => Fresh(sites[i])), 0)
  }

  predicate DistinctSites(sites: seq<Provider>) {
    forall i, j :: 0 <= i < j < |sites| ==> sites[i].url != sites[j].url
  }

  lemma {:induction false} RunAppend(s: Client, threshold: U8, ms: seq<Moment>, m: Moment)
    requires InRange(s)
    ensures Run(s, threshold, ms + [m]) == After(Run(s, threshold, ms), threshold, m)
    decreases |ms|
  {
    hide After;
    if ms == [] {
      assert Run(s, threshold, [m]) == Run(After(s, threshold, m), threshold, []);
    } else {
      assert (ms + [m])[1..] == ms[1..] + [m];
      RunAppend(After(s, threshold, ms[0]), threshold, ms[1..], m);
    }
  }

  // ---- For any list: circuits only open ----

  /** Circuits only open, and none is half open. */
  ghost predicate OnlyOpens(ps: seq<Status>, qs: seq<Status>) {
    && |qs| == |ps|
    && forall i :: 0 <= i < |ps| ==>
         && (ps[i].circuit == Open ==> qs[i].circuit == Open)
         && (ps[i].circuit != HalfOpen ==> qs[i].circuit != HalfOpen)
  }

  lemma {:induction false} RequestOnlyOpens(s: Client, threshold: U8, op: Operation, attempts: nat)
    requires InRange(s)
    ensures OnlyOpens(s.providers, Request(s, threshold, op, attempts).client.providers)
    ensures forall i :: 0 <= i < |s.providers| && s.providers[i].circuit == Open ==>
              i !in Request(s, threshold, op, attempts).tried
    decreases |s.providers| - attempts
  {
    hide Request, Asking, Stops, Onward;
    RequestUnfolds(s, threshold, op, attempts);
    var p := Asking(s);
    if p < |s.providers| {
      AskingIsReady(s);
      BookingOnlyOpens(s.providers, p, threshold);
      if !op(attempts, s.providers[p].provider) && !Stops(s, threshold, attempts) {
        hide BookFailure, BookSuccess;
        RequestOnlyOpens(Onward(s, threshold), threshold, op, attempts + 1);
      }
    }
  }

  lemma {:induction false} AskingIsReady(s: Client)
    requires InRange(s) && Asking(s) < |s.providers|
    ensures CanExecute(s.providers[Asking(s)])
  {
  }

  lemma {:induction false} BookingOnlyOpens(ps: seq<Status>, p: nat, threshold: U8)
    requires p < |ps|
    ensures OnlyOpens(ps, BookFailure(ps, p, threshold)) && OnlyOpens(ps, BookSuccess(ps, p))
  {
    hide Keeper;
  }

  /** Over every run, whatever the urls are: a circuit that is open stays open, no circuit is ever half open, and
      a provider with an open circuit is never asked again. */
  lemma {:induction false} OpenStaysOpen(s: Client, threshold: U8, ms: seq<Moment>)
    requires InRange(s)
    ensures OnlyOpens(s.providers, Run(s, threshold, ms).providers)
    decreases |ms|
  {
    if ms != [] {
      var t := After(s, threshold, ms[0]);
      if ms[0].Requesting? {
        RequestOnlyOpens(s, threshold, ms[0].op, 0);
      }
      hide After;
      OpenStaysOpen(t, threshold, ms[1..]);
    }
  }

  lemma {:induction false} OpenIsNeverAsked(s: Client, threshold: U8, ms: seq<Moment>, i: nat, op: Operation)
    requires InRange(s) && i < |s.providers| && s.providers[i].circuit == Open
    ensures i !in Request(Run(s, threshold, ms), threshold, op, 0).tried
  {
    OpenStaysOpen(s, threshold, ms);
    RequestOnlyOpens(Run(s, threshold, ms), threshold, op, 0);
  }

  // ---- Counters, and how often a provider is asked ----

  ghost predicate CountersOk(ps: seq<Status>, threshold: U8) {
    forall i :: 0 <= i < |ps| ==> CounterOk(ps[i], threshold)
  }

  function Limit(threshold: U8): U8 { if threshold == 0 then 1 else threshold }

  ghost predicate Bounded(ps: seq<Status>, threshold: U8) {
    forall i :: 0 <= i < |ps| ==> ps[i].failures <= Limit(threshold)
  }

  /** At every moment of every request of every run, between its attempts too, all counters are below the
      threshold while the circuit is closed and at it once it is open. */
  ghost predicate CountersKept(sites: seq<Provider>, threshold: U8) {
    forall ms: seq<Moment>, op: Operation ::
      var o := Request(Run(Start(sites), threshold, ms), threshold, op, 0);
      forall k :: 0 <= k < |o.trail| ==> CountersOk(o.trail[k], threshold)
  }

  /** At all those moments no counter is above max(threshold, 1). */
  ghost predicate CountersBounded(sites: seq<Provider>, threshold: U8) {
    forall ms: seq<Moment>, op: Operation ::
      var o := Request(Run(Start(sites), threshold, ms), threshold, op, 0);
      forall k :: 0 <= k < |o.trail| ==> Bounded(o.trail[k], threshold)
  }

  /** No request of any run asks a provider twice. */
  ghost predicate AskedOnce(sites: seq<Provider>, threshold: U8) {
    forall ms: seq<Moment>, op: Operation :: Distinct(Request(Run(Start(sites), threshold, ms), threshold, op, 0).tried)
  }

  // ---- With distinct urls ----

  lemma {:induction false} BookingKeepsCounters(ps: seq<Status>, p: nat, threshold: U8)
    requires p < |ps| && DistinctUrls(ps) && CountersOk(ps, threshold) && CanExecute(ps[p])
    ensures CountersOk(BookFailure(ps, p, threshold), threshold) && CountersOk(BookSuccess(ps, p), threshold)
  {
    OwnKeeper(ps, p);
    FailureCounts(ps[p], threshold);
    hide Keeper;
  }

  lemma {:induction false} RequestKeepsCounters(s: Client, threshold: U8, op: Operation, attempts: nat)
    requires InRange(s) && DistinctUrls(s.providers) && CountersOk(s.providers, threshold)
    ensures var o := Request(s, threshold, op, attempts);
            && CountersOk(o.client.providers, threshold)
            && forall k :: 0 <= k < |o.trail| ==> CountersOk(o.trail[k], threshold)
    decreases |s.providers| - attempts
  {
    hide Request, Asking, Stops, Onward, DistinctUrls, CountersOk;
    RequestUnfolds(s, threshold, op, attempts);
    var p := Asking(s);
    if p < |s.providers| {
      AskingIsReady(s);
      BookingKeepsCounters(s.providers, p, threshold);
      if !op(attempts, s.providers[p].provider) && !Stops(s, threshold, attempts) {
        FailureKeepsProviders(s.providers, p, threshold);
        DistinctKept(s.providers, BookFailure(s.providers, p, threshold));
        hide BookFailure, BookSuccess;
        RequestKeepsCounters(Onward(s, threshold), threshold, op, attempts + 1);
      }
    }
  }

  /** Over every run of requests, health checks and switches, from any state in order. */
  lemma {:induction false} CountersOverRuns(s: Client, threshold: U8, ms: seq<Moment>)
    requires InRange(s) && DistinctUrls(s.providers) && CountersOk(s.providers, threshold)
    ensures CountersOk(Run(s, threshold, ms).providers, threshold) && DistinctUrls(Run(s, threshold, ms).providers)
    decreases |ms|
  {
    if ms != [] {
      var t := After(s, threshold, ms[0]);
      if ms[0].Requesting? {
        RequestKeepsCounters(s, threshold, ms[0].op, 0);
      }
      DistinctKept(s.providers, t.providers);
      hide After;
      CountersOverRuns(t, threshold, ms[1..]);
    }
  }

  lemma {:induction false} StartIsOk(sites: seq<Provider>, threshold: U8)
    ensures CountersOk(Start(sites).providers, threshold)
    ensures DistinctUrls(Start(sites).providers) <==> DistinctSites(sites)
  {
    var ps := Start(sites).providers;
    assert forall i :: 0 <= i < |ps| ==> ps[i].provider == sites[i];
  }

  lemma {:induction false} DistinctKeepsAll(sites: seq<Provider>, threshold: U8)
    requires DistinctSites(sites)
    ensures CountersKept(sites, threshold) && CountersBounded(sites, threshold) && AskedOnce(sites, threshold)
  {
    StartIsOk(sites, threshold);
    forall ms: seq<Moment>, op: Operation
      ensures var o := Request(Run(Start(sites), threshold, ms), threshold, op, 0);
              Distinct(o.tried) && forall k :: 0 <= k < |o.trail| ==> CountersOk(o.trail[k], threshold)
    {
      hide Request, Run, DistinctUrls, CountersOk;
      CountersOverRuns(Start(sites), threshold, ms);
      var s := Run(Start(sites), threshold, ms);
      RequestKeepsCounters(s, threshold, op, 0);
      RequestServed(s, threshold, op);
      EmptyOrTriedOnce(s, threshold, op);
    }
    forall ps: seq<Status> | CountersOk(ps, threshold)
      ensures Bounded(ps, threshold)
    {
    }
  }

  lemma {:induction false} EmptyOrTriedOnce(s: Client, threshold: U8, op: Operation)
    requires InRange(s)
    requires var o := Request(s, threshold, op, 0); Served(s.providers, s.current, threshold, op, o.tried, o.ok)
    ensures Distinct(Request(s, threshold, op, 0).tried)
  {
    hide Served;
    if s.providers != [] {
      var o := Request(s, threshold, op, 0);
      hide Request;
      TriedOnce(s.providers, s.current, threshold, op, o.tried, o.ok);
    }
  }

  // ---- With a repeated url ----

  /** Provider `j` is not the first with its url: nothing is ever booked on it. */
  predicate Spare(ps: seq<Status>, j: nat)
    requires j < |ps|
  {
    Keeper(ps, j) < j
  }

  lemma {:induction false} BookingSkipsSpares(ps: seq<Status>, p: nat, threshold: U8, j: nat)
    requires p < |ps| && j < |ps| && Spare(ps, j)
    ensures BookFailure(ps, p, threshold)[j] == ps[j] && BookSuccess(ps, p)[j] == ps[j]
  {
    assert ps[Keeper(ps, j)].provider.url == ps[j].provider.url;
    assert Keeper(ps, p) != j;
  }

  lemma {:induction false} SpareStays(ps: seq<Status>, qs: seq<Status>, j: nat)
    requires SameProviders(ps, qs) && j < |ps| && Spare(ps, j)
    ensures Spare(qs, j)
  {
    SameKeepers(ps, qs, j);
  }

  lemma {:induction false} RequestSkipsSpares(s: Client, threshold: U8, op: Operation, attempts: nat, j: nat)
    requires InRange(s) && j < |s.providers| && Spare(s.providers, j)
    ensures Request(s, threshold, op, attempts).client.providers[j] == s.providers[j]
    decreases |s.providers| - attempts
  {
    hide Request, Asking, Stops, Onward, Spare, Keeper;
    RequestUnfolds(s, threshold, op, attempts);
    var p := Asking(s);
    if p < |s.providers| {
      BookingSkipsSpares(s.providers, p, threshold, j);
      if !op(attempts, s.providers[p].provider) && !Stops(s, threshold, attempts) {
        FailureKeepsProviders(s.providers, p, threshold);
        SpareStays(s.providers, BookFailure(s.providers, p, threshold), j);
        hide BookFailure, BookSuccess;
        RequestSkipsSpares(Onward(s, threshold), threshold, op, attempts + 1, j);
      }
    }
  }

  /** A run of switches reaches any ready provider. */
  lemma {:induction false} SwitchTo(s: Client, threshold: U8, j: nat) returns (ms: seq<Moment>)
    requires InRange(s) && j < |s.providers| && j in Ready(s.providers)
    ensures Run(s, threshold, ms) == s.(current := j)
    decreases if s.current <= j then j - s.current else j - s.current + |s.providers|
  {
    hide Pos, Ready;
    if s.current == j {
      ms := [];
    } else {
      var n := |s.providers|;
      var d := SwitchMeaning(s);
      var k := PlaceBehind(n, s.current, j);
      assert d <= k - s.current;
      if s.current + d < n {
        PosBelow(n, s.current + d);
      } else {
        WrapOnce(n, s.current + d);
      }
      PlaceIs(n, s.current, j, k);
      SwitchKeepsList(s);
      var rest := SwitchTo(Switch(s), threshold, j);
      ms := [Switching] + rest;
      assert ms[1..] == rest;
    }
  }

  lemma {:induction false} SwitchKeepsList(s: Client)
    requires InRange(s)
    ensures Switch(s) == s.(current := Switch(s).current)
  {
  }

  lemma {:induction false} PlaceIs(n: nat, c: nat, j: nat, k: nat)
    requires c < n && j < n && c < k <= c + n && Pos(n, k) == j
    ensures k == if c < j then j else j + n
  {
    if k < n {
      PosBelow(n, k);
    } else if k < 2 * n {
      WrapOnce(n, k);
    }
  }

  lemma {:induction false} RunConcat(s: Client, threshold: U8, a: seq<Moment>, b: seq<Moment>)
    requires InRange(s)
    ensures Run(s, threshold, a + b) == Run(Run(s, threshold, a), threshold, b)
    decreases |a|
  {
    hide After;
    if a == [] {
      assert a + b == b;
    } else {
      assert (a + b)[1..] == a[1..] + b;
      RunConcat(After(s, threshold, a[0]), threshold, a[1..], b);
    }
  }

  /** Switch to `j`, then make a request. */
  lemma {:induction false} RequestAt(s: Client, threshold: U8, j: nat, op: Operation) returns (ms: seq<Moment>)
    requires InRange(s) && j < |s.providers| && j in Ready(s.providers)
    ensures Run(s, threshold, ms) == Request(s.(current := j), threshold, op, 0).client
  {
    hide Run, Request, Ready;
    var way := SwitchTo(s, threshold, j);
    ms := way + [Requesting(op)];
    RunAppend(s, threshold, way, Requesting(op));
  }

  // ---- A counter runs past the threshold ----

  /** An operation that fails exactly on providers with this url. */
  function FailsAt(url: string): Operation { (attempt: nat, p: Provider) => p.url != url }

  /** Provider `j` is as new and its results are booked on `i`, whose counter is still in order. */
  ghost predicate Loaded(s: Client, threshold: U8, i: nat, j: nat) {
    && InRange(s) && i < j < |s.providers| && Keeper(s.providers, j) == i
    && s.providers[j] == Fresh(s.providers[j].provider) && CounterOk(s.providers[i], threshold)
  }

  /** One failure beyond the open circuit. */
  ghost predicate Overrun(ps: seq<Status>, threshold: U8, i: nat) {
    i < |ps| && ps[i].circuit == Open && ps[i].failures == (Limit(threshold) + 1) % 256
  }

  lemma {:induction false} NewIsReady(ps: seq<Status>, j: nat)
    requires j < |ps| && ps[j] == Fresh(ps[j].provider)
    ensures j in Ready(ps)
  {
  }

  /** The first attempt at `j` is booked on `i`. */
  lemma {:induction false} FirstAttempt(s: Client, threshold: U8, i: nat, j: nat, op: Operation)
    requires Loaded(s, threshold, i, j) && s.current == j && !op(0, s.providers[j].provider)
    ensures var booked := s.providers[i := Failed(s.providers[i], threshold)];
            var o := Request(s, threshold, op, 0);
            && Asking(s) == j && BookFailure(s.providers, j, threshold) == booked
            && |o.trail| > 0 && o.trail[0] == booked
            && (Stops(s, threshold, 0) <==> Failed(s.providers[i], threshold).circuit != Open)
            && (Stops(s, threshold, 0) ==> o.client == s.(providers := booked))
            && (!Stops(s, threshold, 0) ==>
                  o.trail[1..] == Request(Onward(s, threshold), threshold, op, 1).trail
                  && o.client == Request(Onward(s, threshold), threshold, op, 1).client)
  {
    hide Keeper, Request, Failed, Onward;
    NewIsReady(s.providers, j);
    RequestUnfolds(s, threshold, op, 0);
    var booked := s.providers[i := Failed(s.providers[i], threshold)];
    NewIsReady(booked, j);
  }

  lemma {:induction false} StillLoaded(s: Client, t: Client, threshold: U8, i: nat, j: nat)
    requires Loaded(s, threshold, i, j) && InRange(t) && SameProviders(s.providers, t.providers)
    requires t.providers[j] == s.providers[j] && CounterOk(t.providers[i], threshold)
    ensures Loaded(t, threshold, i, j)
  {
    SameKeepers(s.providers, t.providers, j);
  }

  /** The second attempt of a request whose first one opened the circuit: it overruns the counter, or succeeds
      elsewhere and leaves it. */
  lemma {:induction false} SecondAttempt(t: Client, threshold: U8, i: nat, j: nat)
    requires Loaded(t, threshold, i, j) && t.providers[i].circuit == Open
    ensures var op := FailsAt(t.providers[j].provider.url);
            var o := Request(t, threshold, op, 1);
            || (|o.trail| > 0 && Overrun(o.trail[0], threshold, i))
            || (Loaded(o.client, threshold, i, j) && o.client.providers[i] == t.providers[i])
  {
    hide Request, Asking, Stops, Onward, FirstWith, Ready;
    var op := FailsAt(t.providers[j].provider.url);
    NewIsReady(t.providers, j);
    RequestUnfolds(t, threshold, op, 1);
    var p := Asking(t);
    AskingSomebody(t, j);
    var ps := t.providers;
    BookingSkipsSpares(ps, p, threshold, j);
    if ps[p].provider.url == ps[j].provider.url {
      assert Keeper(ps, p) == i;
    } else {
      assert Keeper(ps, p) != i;
      StillLoaded(t, t.(providers := BookSuccess(ps, p)), threshold, i, j);
    }
  }

  lemma {:induction false} AskingSomebody(s: Client, j: nat)
    requires InRange(s) && j in Ready(s.providers) && j < |s.providers|
    ensures Asking(s) < |s.providers|
  {
  }

  lemma {:induction false} RunsOver(s: Client, threshold: U8, i: nat, j: nat) returns (ms: seq<Moment>, k: nat)
    requires Loaded(s, threshold, i, j)
    ensures var o := Request(Run(s, threshold, ms), threshold, FailsAt(s.providers[j].provider.url), 0);
            k < |o.trail| && Overrun(o.trail[k], threshold, i)
    decreases Limit(threshold) - s.providers[i].failures
  {
    hide Request, Run, Stops, Onward, Ready, Keeper;
    var ps, op := s.providers, FailsAt(s.providers[j].provider.url);
    NewIsReady(ps, j);
    var at := s.(current := j);
    FirstAttempt(at, threshold, i, j, op);
    var o := Request(at, threshold, op, 0);
    if ps[i].circuit == Open {
      ms := SwitchTo(s, threshold, j);
      k := 0;
    } else {
      FirstFailure(at, threshold, i, j);
      if !Stops(at, threshold, 0) {
        var t := Onward(at, threshold);
        StillLoaded(at, t, threshold, i, j);
        SecondAttempt(t, threshold, i, j);
      }
      if !Stops(at, threshold, 0) && |o.trail| > 1 && Overrun(o.trail[1], threshold, i) {
        ms := SwitchTo(s, threshold, j);
        k := 1;
      } else {
        var way := RequestAt(s, threshold, j, op);
        StillLoaded(at, o.client, threshold, i, j);
        var rest;
        rest, k := RunsOver(o.client, threshold, i, j);
        ms := way + rest;
        RunConcat(s, threshold, way, rest);
      }
    }
  }

  /** A closed circuit with its counter in order: one more failure keeps it in order. */
  lemma {:induction false} FirstFailure(s: Client, threshold: U8, i: nat, j: nat)
    requires Loaded(s, threshold, i, j) && s.providers[i].circuit == Closed
    ensures var f := Failed(s.providers[i], threshold);
            && CounterOk(f, threshold)
            && f.failures == s.providers[i].failures + 1 && f.provider == s.providers[i].provider
  {
  }

  /** The first provider of a repeated url, and a later one with the same url. */
  lemma {:induction false} RepeatedUrl(sites: seq<Provider>, threshold: U8) returns (i: nat, j: nat)
    requires !DistinctSites(sites)
    ensures Loaded(Start(sites), threshold, i, j)
  {
    var k: nat, l: nat :| k < l < |sites| && sites[k].url == sites[l].url;
    var ps := Start(sites).providers;
    j := l;
    i := Keeper(ps, j);
    assert ps[k].provider.url == ps[j].provider.url;
  }

  /** Counters stay in order over every run if and only if no url is configured twice; and they stay at most
      max(threshold, 1) if and only if that holds or the threshold is the largest u8 itself. */
  lemma {:induction false} CountersKeptIffDistinct(sites: seq<Provider>, threshold: U8)
    ensures CountersKept(sites, threshold) <==> DistinctSites(sites)
    ensures CountersBounded(sites, threshold) <==> DistinctSites(sites) || threshold == 255
  {
    hide Request, Run, Start, Overrun;
    if DistinctSites(sites) {
      DistinctKeepsAll(sites, threshold);
    } else {
      var i, j := RepeatedUrl(sites, threshold);
      var s := Start(sites);
      var ms, k := RunsOver(s, threshold, i, j);
      var op := FailsAt(s.providers[j].provider.url);
      var o := Request(Run(s, threshold, ms), threshold, op, 0);
      OverrunIsOut(o.trail[k], threshold, i);
    }
    if threshold == 255 {
      assert forall ps: seq<Status> :: Bounded(ps, threshold);
    }
  }

  lemma {:induction false} OverrunIsOut(ps: seq<Status>, threshold: U8, i: nat)
    requires Overrun(ps, threshold, i)
    ensures !CountersOk(ps, threshold) && (threshold < 255 ==> !Bounded(ps, threshold))
  {
    assert !CounterOk(ps[i], threshold);
  }

  // ---- A provider is asked twice ----

  /** Everybody is healthy, a closed circuit is below the threshold, and none is half open: requests keep this for
      any list. */
  ghost predicate ClosedBelow(ps: seq<Status>, threshold: U8) {
    forall i :: 0 <= i < |ps| ==>
      && ps[i].healthy && ps[i].circuit != HalfOpen
      && (ps[i].circuit == Closed ==> ps[i].failures < Limit(threshold))
  }

  /** Spare providers are as new. */
  ghost predicate SparesNew(ps: seq<Status>) {
    forall j :: 0 <= j < |ps| && Spare(ps, j) ==> ps[j] == Fresh(ps[j].provider)
  }

  /** A client that has not been told by a health check that somebody is down. */
  ghost predicate Ordinary(s: Client, threshold: U8) {
    InRange(s) && ClosedBelow(s.providers, threshold) && SparesNew(s.providers)
  }

  lemma {:induction false} BookingIsOrdinary(ps: seq<Status>, p: nat, threshold: U8)
    requires p < |ps| && ClosedBelow(ps, threshold)
    ensures ClosedBelow(BookFailure(ps, p, threshold), threshold) && ClosedBelow(BookSuccess(ps, p), threshold)
  {
    hide Keeper;
  }

  lemma {:induction false} RequestIsOrdinary(s: Client, threshold: U8, op: Operation, attempts: nat)
    requires InRange(s) && ClosedBelow(s.providers, threshold)
    ensures ClosedBelow(Request(s, threshold, op, attempts).client.providers, threshold)
    decreases |s.providers| - attempts
  {
    hide Request, Asking, Stops, Onward, ClosedBelow;
    RequestUnfolds(s, threshold, op, attempts);
    var p := Asking(s);
    if p < |s.providers| {
      BookingIsOrdinary(s.providers, p, threshold);
      if !op(attempts, s.providers[p].provider) && !Stops(s, threshold, attempts) {
        hide BookFailure, BookSuccess;
        RequestIsOrdinary(Onward(s, threshold), threshold, op, attempts + 1);
      }
    }
  }

  lemma {:induction false} SparesStayNew(s: Client, threshold: U8, op: Operation)
    requires InRange(s) && SparesNew(s.providers)
    ensures SparesNew(Request(s, threshold, op, 0).client.providers)
  {
    hide Request, Keeper;
    var t := Request(s, threshold, op, 0).client;
    forall j | 0 <= j < |t.providers| && Spare(t.providers, j)
      ensures t.providers[j] == Fresh(t.providers[j].provider)
    {
      SpareStays(t.providers, s.providers, j);
      RequestSkipsSpares(s, threshold, op, 0, j);
    }
  }

  /** A failing request at a ready provider: booked on its keeper, and only more circuits open after that. */
  lemma {:induction false} FailingRequest(s: Client, threshold: U8, j: nat)
    requires InRange(s) && j < |s.providers| && s.current == j && j in Ready(s.providers)
    ensures var booked := BookFailure(s.providers, j, threshold);
            var t := Request(s, threshold, Never(), 0).client;
            && OnlyOpens(booked, t.providers)
            && (booked[Keeper(s.providers, j)].circuit != Open ==> t == s.(providers := booked))
  {
    hide Request, Onward, Ready, Keeper, BookFailure;
    RequestUnfolds(s, threshold, Never(), 0);
    assert Asking(s) == j;
    if !Stops(s, threshold, 0) {
      RequestOnlyOpens(Onward(s, threshold), threshold, Never(), 1);
    }
  }

  lemma {:induction false} ReadyUnlessOpen(ps: seq<Status>, threshold: U8, j: nat)
    requires j < |ps| && ClosedBelow(ps, threshold) && SparesNew(ps) && ps[Keeper(ps, j)].circuit != Open
    ensures j in Ready(ps)
    ensures var f := Failed(ps[Keeper(ps, j)], threshold);
            f.circuit == Open || (f.circuit == Closed && f.failures == ps[Keeper(ps, j)].failures + 1)
  {
    if Spare(ps, j) {
      assert ps[j] == Fresh(ps[j].provider);
    }
  }

  /** Failing requests at a provider open the circuit they are booked on. */
  lemma {:induction false} DriveOpen(s: Client, threshold: U8, j: nat) returns (ms: seq<Moment>)
    requires Ordinary(s, threshold) && j < |s.providers|
    ensures var t := Run(s, threshold, ms);
            && Ordinary(t, threshold) && OnlyOpens(s.providers, t.providers)
            && t.providers[Keeper(s.providers, j)].circuit == Open
    decreases 256 - s.providers[Keeper(s.providers, j)].failures
  {
    hide Request, Run, Ready, Keeper, SparesNew, ClosedBelow;
    var ps, i := s.providers, Keeper(s.providers, j);
    if ps[i].circuit == Open {
      ms := [];
      RunNothing(s, threshold);
    } else {
      ReadyUnlessOpen(ps, threshold, j);
      var at := s.(current := j);
      FailingRequest(at, threshold, j);
      ms := RequestAt(s, threshold, j, Never());
      RequestIsOrdinary(at, threshold, Never(), 0);
      SparesStayNew(at, threshold, Never());
      RequestOnlyOpens(at, threshold, Never(), 0);
      var t := Request(at, threshold, Never(), 0).client;
      if Failed(ps[i], threshold).circuit != Open {
        SameKeepers(ps, t.providers, j);
        var rest := DriveOpen(t, threshold, j);
        RunConcat(s, threshold, ms, rest);
        ms := ms + rest;
      }
    }
  }

  lemma {:induction false} RunNothing(s: Client, threshold: U8)
    requires InRange(s)
    ensures Run(s, threshold, []) == s && OnlyOpens(s.providers, s.providers)
  {
  }

  /** All circuits that providers below `n` are booked on are open. */
  ghost predicate KeepersOpen(ps: seq<Status>, n: nat) {
    forall j :: 0 <= j < n && j < |ps| ==> ps[Keeper(ps, j)].circuit == Open
  }

  lemma {:induction false} DriveAllOpen(s: Client, threshold: U8, n: nat) returns (ms: seq<Moment>)
    requires Ordinary(s, threshold) && n <= |s.providers|
    ensures var t := Run(s, threshold, ms); Ordinary(t, threshold) && KeepersOpen(t.providers, n)
    decreases n
  {
    hide Run, ClosedBelow, SparesNew, Keeper;
    if n == 0 {
      ms := [];
      RunNothing(s, threshold);
    } else {
      ms := DriveAllOpen(s, threshold, n - 1);
      var t := Run(s, threshold, ms);
      var rest := DriveOpen(t, threshold, n - 1);
      RunConcat(s, threshold, ms, rest);
      OpenKeepersStay(t.providers, Run(t, threshold, rest).providers, n);
      ms := ms + rest;
    }
  }

  lemma {:induction false} OpenKeepersStay(ps: seq<Status>, qs: seq<Status>, n: nat)
    requires 0 < n <= |ps| && KeepersOpen(ps, n - 1) && SameProviders(ps, qs) && OnlyOpens(ps, qs)
    requires qs[Keeper(ps, n - 1)].circuit == Open
    ensures KeepersOpen(qs, n)
  {
    hide Keeper;
    forall j | 0 <= j < n
      ensures qs[Keeper(qs, j)].circuit == Open
    {
      SameKeepers(ps, qs, j);
    }
  }

  /** Only spare providers are ready, and what they are booked on is open. */
  ghost predicate OnlySparesLeft(s: Client) {
    && InRange(s) && KeepersOpen(s.providers, |s.providers|)
    && forall i: nat :: i < |s.providers| ==> (i in Ready(s.providers) <==> Spare(s.providers, i))
  }

  lemma {:induction false} SparesLeft(s: Client, threshold: U8)
    requires Ordinary(s, threshold) && KeepersOpen(s.providers, |s.providers|)
    ensures OnlySparesLeft(s)
  {
    hide FirstWith;
    forall i: nat | i < |s.providers|
      ensures i in Ready(s.providers) <==> Spare(s.providers, i)
    {
      assert s.providers[Keeper(s.providers, i)].circuit == Open;
    }
  }

  /** Then a failing request goes on for as many attempts as there are providers, at spare ones only. */
  lemma {:induction false} LongRequest(s: Client, threshold: U8, attempts: nat, j: nat)
    requires OnlySparesLeft(s) && j < |s.providers| && Spare(s.providers, j) && attempts < |s.providers|
    ensures var tried := Request(s, threshold, Never(), attempts).tried;
            && |tried| == |s.providers| - attempts
            && forall k :: 0 <= k < |tried| ==> Spare(s.providers, tried[k])
    decreases |s.providers| - attempts
  {
    hide Request, Keeper, Onward, Asking;
    RequestUnfolds(s, threshold, Never(), attempts);
    var ps, p := s.providers, Asking(s);
    AskingSomebody(s, j);
    StillOnlySpares(s, threshold);
    hide KeepersOpen, Ready, BookFailure;
    if attempts + 1 < |ps| {
      var t := Onward(s, threshold);
      SpareStays(ps, t.providers, j);
      LongRequest(t, threshold, attempts + 1, j);
      var rest := Request(t, threshold, Never(), attempts + 1).tried;
      forall k | 0 <= k < |rest|
        ensures Spare(ps, rest[k])
      {
        SpareStays(t.providers, ps, rest[k]);
      }
    }
  }

  lemma {:induction false} StillOnlySpares(s: Client, threshold: U8)
    requires OnlySparesLeft(s) && Asking(s) < |s.providers|
    ensures var booked := BookFailure(s.providers, Asking(s), threshold);
            && Spare(s.providers, Asking(s)) && Asking(s) in Ready(booked)
            && booked[Keeper(s.providers, Asking(s))].circuit == Open
            && SameProviders(s.providers, booked) && OnlySparesLeft(Onward(s, threshold))
  {
    hide FirstWith, SwitchFrom, Picked;
    var ps, p := s.providers, Asking(s);
    var booked := BookFailure(ps, p, threshold);
    forall i: nat | i < |ps|
      ensures i in Ready(booked) <==> i in Ready(ps)
      ensures Keeper(booked, i) == Keeper(ps, i)
    {
      SameKeepers(ps, booked, i);
    }
  }

  /** No request of any run asks a provider twice if and only if no url is configured twice. */
  lemma {:induction false} AskedOnceIffDistinct(sites: seq<Provider>, threshold: U8)
    ensures AskedOnce(sites, threshold) <==> DistinctSites(sites)
  {
    if DistinctSites(sites) {
      DistinctKeepsAll(sites, threshold);
    } else {
      var ms := AskedTwice(sites, threshold);
      assert !Distinct(Request(Run(Start(sites), threshold, ms), threshold, Never(), 0).tried);
    }
  }

  lemma {:induction false} AskedTwice(sites: seq<Provider>, threshold: U8) returns (ms: seq<Moment>)
    requires !DistinctSites(sites)
    ensures !Distinct(Request(Run(Start(sites), threshold, ms), threshold, Never(), 0).tried)
  {
    hide Request, Run, Keeper;
    var s := Start(sites);
    var i, j := RepeatedUrl(sites, threshold);
    StartIsOrdinary(sites, threshold);
    ms := DriveAllOpen(s, threshold, |sites|);
    var u := Run(s, threshold, ms);
    SparesLeft(u, threshold);
    SpareStays(s.providers, u.providers, j);
    SameKeepers(s.providers, u.providers, j);
    LongRequest(u, threshold, 0, j);
    var tried := Request(u, threshold, Never(), 0).tried;
    KeeperIsNoSpare(u.providers, j);
    NoRoom(tried, |sites|, i);
  }

  lemma {:induction false} StartIsOrdinary(sites: seq<Provider>, threshold: U8)
    ensures Ordinary(Start(sites), threshold)
  {
  }

  lemma {:induction false} KeeperIsNoSpare(ps: seq<Status>, j: nat)
    requires j < |ps|
    ensures !Spare(ps, Keeper(ps, j))
  {
    assert ps[Keeper(ps, j)].provider.url == ps[j].provider.url;
  }

  /** A list as long as the range cannot be distinct when one position is missing from it. */
  lemma {:induction false} NoRoom(tried: seq<nat>, n: nat, i: nat)
    requires |tried| == n && i < n && forall k :: 0 <= k < |tried| ==> tried[k] < n && tried[k] != i
    ensures !Distinct(tried)
  {
    if Distinct(tried) {
      PrependDistinct(i, tried);
      DistinctBelow([i] + tried, n);
      assert false;
    }
  }
}
