/** What one request does, and when it falls back. */
module FailoverTheorems {
  import opened Failover

  // ---- One request ----

  /** A request with the operation `op` tried the providers `tried`, in that order, and ended with `ok`:
      it went down the visiting order as long as each failure opened a circuit. */
  ghost predicate Served(ps: seq<Status>, c: nat, threshold: U8, op: Operation, tried: seq<nat>, ok: bool) {
    var v := Visit(Ready(ps), |ps|, c);
    && tried <= v
    && (forall i :: 0 <= i < |tried| ==> tried[i] < |ps|)
    && (forall i :: 0 <= i < |tried| - 1 ==> !op(i, ps[tried[i]].provider) && LastStrike(ps[tried[i]], threshold))
    && (tried == [] ==> v == [] && !ok)
    && (tried != [] ==>
          var last := ps[tried[|tried| - 1]];
          ok == op(|tried| - 1, last.provider) && (ok || tried == v || !LastStrike(last, threshold)))
  }

  /** The providers after such a request. */
  function AfterRequest(ps: seq<Status>, threshold: U8, tried: seq<nat>, ok: bool): seq<Status> {
    seq(|ps|, i requires 0 <= i < |ps| =>
      if i !in tried then ps[i]
      else if ok && i == tried[|tried| - 1] then Succeeded(ps[i])
      else Failed(ps[i], threshold))
  }

  /** Only ready providers are tried, and each at most once. */
  lemma {:induction false} TriedOnce(ps: seq<Status>, c: nat, threshold: U8, op: Operation, tried: seq<nat>,
                                     ok: bool)
    requires c < |ps| && Served(ps, c, threshold, op, tried, ok)
    ensures Distinct(tried) && |tried| <= |ps| && forall i :: i in tried ==> i < |ps| && CanExecute(ps[i])
  {
    VisitEnumerates(Ready(ps), |ps|, c);
    VisitBound(Ready(ps), |ps|, c);
    var v := Visit(Ready(ps), |ps|, c);
    assert forall i :: i in tried ==> i in v;
  }

  /** The operation and the state decide which providers are tried and how the request ends. */
  lemma {:induction false} OutcomeIsDetermined(ps: seq<Status>, c: nat, threshold: U8, op: Operation,
                                               tried: seq<nat>, ok: bool, tried': seq<nat>, ok': bool)
    requires Served(ps, c, threshold, op, tried, ok) && Served(ps, c, threshold, op, tried', ok')
    ensures tried == tried' && ok == ok'
  {
    hide Visit, LastStrike, Ready;
    if |tried| < |tried'| {
      NotShorter(ps, c, threshold, op, tried, ok, tried', ok');
      assert false;
    } else if |tried'| < |tried| {
      NotShorter(ps, c, threshold, op, tried', ok', tried, ok);
      assert false;
    }
  }

  lemma {:induction false} NotShorter(ps: seq<Status>, c: nat, threshold: U8, op: Operation,
                                      tried: seq<nat>, ok: bool, longer: seq<nat>, ok': bool)
    requires Served(ps, c, threshold, op, tried, ok) && Served(ps, c, threshold, op, longer, ok')
    ensures |longer| <= |tried|
  {
    hide Visit, LastStrike, Ready;
    if tried != [] {
      var m := |tried| - 1;
      if m < |longer| {
        assert longer[m] == tried[m];
      }
    }
  }

  // ---- Readiness after a failure ----

  lemma {:induction false} ReadyAfterOpening(ps: seq<Status>, p: nat, threshold: U8)
    requires p < |ps| && LastStrike(ps[p], threshold)
    ensures Ready(ps[p := Failed(ps[p], threshold)]) == Ready(ps) - {p}
  {
  }

  lemma {:induction false} FailedOnceMore(ps: seq<Status>, threshold: U8, tried: seq<nat>, p: nat)
    requires p < |ps| && p !in tried
    ensures AfterRequest(ps, threshold, tried, false)[p] == ps[p]
    ensures AfterRequest(ps, threshold, tried + [p], false) ==
              AfterRequest(ps, threshold, tried, false)[p := Failed(ps[p], threshold)]
    ensures AfterRequest(ps, threshold, tried + [p], true) ==
              AfterRequest(ps, threshold, tried, false)[p := Succeeded(ps[p])]
  {
    hide Failed, Succeeded;
  }

  /** Whoever failed on the way has an open circuit, so it is not picked again. */
  lemma {:induction false} TriedAreNotReady(ps: seq<Status>, threshold: U8, tried: seq<nat>, p: nat)
    requires forall j :: 0 <= j < |tried| ==> tried[j] < |ps| && LastStrike(ps[tried[j]], threshold)
    requires p in tried
    ensures p !in Ready(AfterRequest(ps, threshold, tried, false))
  {
  }

  // ---- The retry loop ----

  /** The providers in `tried` have failed and their circuits opened, and the rest of the visiting order lies ahead. */
  ghost predicate Progress(ps: seq<Status>, threshold: U8, op: Operation, v: seq<nat>, tried: seq<nat>,
                           now: seq<Status>, c: nat) {
    && |now| == |ps| && now == AfterRequest(ps, threshold, tried, false)
    && v == tried + Visit(Ready(now), |ps|, c)
    && forall j :: 0 <= j < |tried| ==>
         tried[j] < |ps| && !op(j, ps[tried[j]].provider) && LastStrike(ps[tried[j]], threshold)
  }

  lemma {:induction false} StartOfRequest(ps: seq<Status>, threshold: U8, op: Operation, c: nat)
    ensures Progress(ps, threshold, op, Visit(Ready(ps), |ps|, c), [], ps, c)
  {
    assert AfterRequest(ps, threshold, [], false) == ps;
  }

  lemma {:induction false} NobodyLeft(ps: seq<Status>, c: nat, threshold: U8, op: Operation, tried: seq<nat>,
                                      now: seq<Status>, at: nat)
    requires Progress(ps, threshold, op, Visit(Ready(ps), |ps|, c), tried, now, at)
    requires |ps| <= Picked(Ready(now), |ps|, at)
    ensures Served(ps, c, threshold, op, tried, false) && now == AfterRequest(ps, threshold, tried, false)
  {
    hide LastStrike, CanExecute;
    assert Visit(Ready(now), |ps|, at) == [];
    assert tried + [] == tried;
  }

  lemma {:induction false} PickedIsNew(ps: seq<Status>, threshold: U8, op: Operation, v: seq<nat>,
                                       tried: seq<nat>, now: seq<Status>, at: nat)
    requires Progress(ps, threshold, op, v, tried, now, at)
    requires Picked(Ready(now), |ps|, at) < |ps|
    ensures var p := Picked(Ready(now), |ps|, at);
            && p !in tried && now[p] == ps[p]
            && now[p := Succeeded(now[p])] == AfterRequest(ps, threshold, tried + [p], true)
            && now[p := Failed(now[p], threshold)] == AfterRequest(ps, threshold, tried + [p], false)
            && tried + [p] <= v
  {
    var p := Picked(Ready(now), |ps|, at);
    assert Visit(Ready(now), |ps|, at)[0] == p;
    assert v[|tried|] == p;
    hide Visit, Picked;
    if p in tried {
      TriedAreNotReady(ps, threshold, tried, p);
      assert false;
    }
    FailedOnceMore(ps, threshold, tried, p);
  }

  /** The request ends with provider `p`, for one of the reasons there are. */
  lemma {:induction false} EndsWith(ps: seq<Status>, c: nat, threshold: U8, op: Operation, tried: seq<nat>,
                                    now: seq<Status>, at: nat, p: nat)
    requires Progress(ps, threshold, op, Visit(Ready(ps), |ps|, c), tried, now, at)
    requires p < |ps| && tried + [p] <= Visit(Ready(ps), |ps|, c)
    ensures op(|tried|, ps[p].provider) ==> Served(ps, c, threshold, op, tried + [p], true)
    ensures !op(|tried|, ps[p].provider) && !LastStrike(ps[p], threshold) ==>
              Served(ps, c, threshold, op, tried + [p], false)
    ensures !op(|tried|, ps[p].provider) && tried + [p] == Visit(Ready(ps), |ps|, c) ==>
              Served(ps, c, threshold, op, tried + [p], false)
  {
    hide Visit, Ready, LastStrike, AfterRequest;
  }

  /** Everybody has been tried after as many attempts as there are providers. */
  lemma {:induction false} AllAttempted(ps: seq<Status>, c: nat, tried: seq<nat>)
    requires c < |ps| <= |tried| && tried <= Visit(Ready(ps), |ps|, c)
    ensures tried == Visit(Ready(ps), |ps|, c)
  {
    VisitBound(Ready(ps), |ps|, c);
  }

  lemma {:induction false} NoFallbackLeft(ps: seq<Status>, threshold: U8, op: Operation, v: seq<nat>,
                                          tried: seq<nat>, now: seq<Status>, at: nat)
    requires Progress(ps, threshold, op, v, tried, now, at)
    requires Picked(Ready(now), |ps|, at) < |ps|
    requires Ready(now) - {Picked(Ready(now), |ps|, at)} == {}
    ensures v == tried + [Picked(Ready(now), |ps|, at)]
  {
    hide Ready, LastStrike, AfterRequest;
    CycleEmpty({}, |ps|, at);
  }

  /** Falling back goes one step down the visiting order. */
  lemma {:induction false} FellBack(ps: seq<Status>, threshold: U8, op: Operation, v: seq<nat>, tried: seq<nat>,
                                    now: seq<Status>, at: nat, d: nat)
    requires Progress(ps, threshold, op, v, tried, now, at)
    requires at < |ps| && 1 <= d <= |ps| && Picked(Ready(now), |ps|, at) < |ps|
    requires var p := Picked(Ready(now), |ps|, at);
             && now[p] == ps[p] && !op(|tried|, ps[p].provider) && LastStrike(ps[p], threshold)
             && now[p := Failed(now[p], threshold)] == AfterRequest(ps, threshold, tried + [p], false)
             && Pos(|ps|, at + d) in Ready(now) - {p}
             && forall k :: at < k < at + d ==> Pos(|ps|, k) !in Ready(now) - {p}
    ensures var p := Picked(Ready(now), |ps|, at);
            Progress(ps, threshold, op, v, tried + [p], now[p := Failed(now[p], threshold)], Pos(|ps|, at + d))
  {
    hide Visit, Ready, LastStrike, AfterRequest, Picked, Pos, Failed;
    var p := Picked(Ready(now), |ps|, at);
    ReadyAfterOpening(now, p, threshold);
    VisitNext(Ready(now), |ps|, at, d);
    var rest := Visit(Ready(now) - {p}, |ps|, Pos(|ps|, at + d));
    assert tried + ([p] + rest) == tried + [p] + rest;
  }

  /** With distinct urls a request goes down the visiting order and changes exactly the providers it tried. */
  lemma {:induction false} RequestServed(s: Client, threshold: U8, op: Operation)
    requires InRange(s) && DistinctUrls(s.providers)
    ensures var o := Request(s, threshold, op, 0);
            && Served(s.providers, s.current, threshold, op, o.tried, o.ok)
            && o.client.providers == AfterRequest(s.providers, threshold, o.tried, o.ok)
  {
    var ps := s.providers;
    StartOfRequest(ps, threshold, op, s.current);
    if ps == [] {
      assert AfterRequest(ps, threshold, [], false) == ps;
    } else {
      hide Progress, Request, Served;
      RequestServedFrom(ps, s.current, threshold, op, [], s);
      assert [] + Request(s, threshold, op, 0).tried == Request(s, threshold, op, 0).tried;
    }
  }

  lemma {:induction false} DistinctKept(ps: seq<Status>, qs: seq<Status>)
    requires DistinctUrls(ps) && SameProviders(ps, qs)
    ensures DistinctUrls(qs)
  {
  }

  lemma {:induction false} SameAfter(ps: seq<Status>, threshold: U8, tried: seq<nat>, ok: bool)
    ensures SameProviders(ps, AfterRequest(ps, threshold, tried, ok))
  {
  }

  lemma {:induction false} RequestServedFrom(ps: seq<Status>, c: nat, threshold: U8, op: Operation, tried: seq<nat>,
                                             s: Client)
    requires c < |ps| && DistinctUrls(ps) && InRange(s) && |tried| < |ps|
    requires Progress(ps, threshold, op, Visit(Ready(ps), |ps|, c), tried, s.providers, s.current)
    ensures var o := Request(s, threshold, op, |tried|);
            && Served(ps, c, threshold, op, tried + o.tried, o.ok)
            && o.client.providers == AfterRequest(ps, threshold, tried + o.tried, o.ok)
    decreases |ps| - |tried|
  {
    hide Visit, Ready, AfterRequest, Picked, Served, Onward, DistinctUrls, Keeper, Request;
    var v, now, at := Visit(Ready(ps), |ps|, c), s.providers, s.current;
    var p := Asking(s);
    RequestUnfolds(s, threshold, op, |tried|);
    if |ps| <= p {
      NobodyLeft(ps, c, threshold, op, tried, now, at);
      assert tried + [] == tried;
    } else {
      SameAfter(ps, threshold, tried, false);
      DistinctKept(ps, now);
      OwnKeeper(now, p);
      PickedIsNew(ps, threshold, op, v, tried, now, at);
      EndsWith(ps, c, threshold, op, tried, now, at, p);
      if !op(|tried|, now[p].provider) {
        if Stops(s, threshold, |tried|) {
          StopServed(ps, c, threshold, op, tried, s);
        } else {
          OnwardProgress(ps, c, threshold, op, tried, s);
          hide Progress, BookFailure, Stops;
          RequestServedFrom(ps, c, threshold, op, tried + [p], Onward(s, threshold));
          var rest := Request(Onward(s, threshold), threshold, op, |tried| + 1);
          assert tried + ([p] + rest.tried) == tried + [p] + rest.tried;
        }
      }
    }
  }

  lemma {:induction false} StopServed(ps: seq<Status>, c: nat, threshold: U8, op: Operation, tried: seq<nat>, s: Client)
    requires c < |ps| && InRange(s) && |tried| < |ps|
    requires Progress(ps, threshold, op, Visit(Ready(ps), |ps|, c), tried, s.providers, s.current)
    requires var p := Asking(s);
             && p < |ps| && Keeper(s.providers, p) == p && !op(|tried|, s.providers[p].provider)
             && Stops(s, threshold, |tried|)
    ensures Served(ps, c, threshold, op, tried + [Asking(s)], false)
    ensures BookFailure(s.providers, Asking(s), threshold) == AfterRequest(ps, threshold, tried + [Asking(s)], false)
  {
    hide Visit, Ready, AfterRequest, Picked, Served, Keeper;
    var v, now, at := Visit(Ready(ps), |ps|, c), s.providers, s.current;
    var p := Asking(s);
    PickedIsNew(ps, threshold, op, v, tried, now, at);
    EndsWith(ps, c, threshold, op, tried, now, at, p);
    if LastStrike(now[p], threshold) {
      ReadyAfterOpening(now, p, threshold);
      if |ps| <= |tried| + 1 {
        AllAttempted(ps, c, tried + [p]);
      } else {
        NoFallbackLeft(ps, threshold, op, v, tried, now, at);
      }
    }
  }

  lemma {:induction false} OnwardProgress(ps: seq<Status>, c: nat, threshold: U8, op: Operation, tried: seq<nat>,
                                          s: Client)
    requires c < |ps| && InRange(s)
    requires Progress(ps, threshold, op, Visit(Ready(ps), |ps|, c), tried, s.providers, s.current)
    requires var p := Asking(s);
             && p < |ps| && Keeper(s.providers, p) == p && !op(|tried|, s.providers[p].provider)
             && !Stops(s, threshold, |tried|)
    ensures var t := Onward(s, threshold);
            Progress(ps, threshold, op, Visit(Ready(ps), |ps|, c), tried + [Asking(s)], t.providers, t.current)
  {
    hide Visit, Ready, AfterRequest, Picked, Served, Keeper, Pos, SwitchFrom;
    var v, now, at := Visit(Ready(ps), |ps|, c), s.providers, s.current;
    var p := Asking(s);
    PickedIsNew(ps, threshold, op, v, tried, now, at);
    ReadyAfterOpening(now, p, threshold);
    var d := SwitchMeaning(s.(providers := BookFailure(now, p, threshold)));
    FellBack(ps, threshold, op, v, tried, now, at, d);
  }

  // ---- Fallback, for any list of providers ----

  /** An operation that depends on the provider only. */
  function Always(f: Provider -> bool): Operation { (attempt: nat, p: Provider) => f(p) }

  function Never(): Operation { (attempt: nat, p: Provider) => false }

  ghost predicate SomeReadyWorks(ps: seq<Status>, f: Provider -> bool) {
    exists i: nat :: i in Ready(ps) && i < |ps| && f(ps[i].provider)
  }

  /** Some provider on the path works. */
  ghost predicate SomeOnPathWorks(ps: seq<Status>, path: seq<nat>, f: Provider -> bool) {
    exists k :: 0 <= k < |path| && path[k] < |ps| && f(ps[path[k]].provider)
  }

  /** A request goes the way of a request that always fails, up to the first provider that works. */
  lemma {:induction false} FollowsPath(s: Client, threshold: U8, f: Provider -> bool, attempts: nat)
    requires InRange(s)
    ensures var o, path := Request(s, threshold, Always(f), attempts), Request(s, threshold, Never(), attempts).tried;
            && o.tried <= path
            && (o.ok <==> SomeOnPathWorks(s.providers, path, f))
    decreases |s.providers| - attempts
  {
    hide Ready, Asking, BookFailure, BookSuccess, Stops, Onward, Request;
    RequestUnfolds(s, threshold, Always(f), attempts);
    RequestUnfolds(s, threshold, Never(), attempts);
    var ps, p := s.providers, Asking(s);
    if p < |ps| {
      var path := Request(s, threshold, Never(), attempts).tried;
      assert path[0] == p;
      if !f(ps[p].provider) && !Stops(s, threshold, attempts) {
        var next := Onward(s, threshold);
        FailureKeepsProviders(ps, p, threshold);
        FollowsPath(next, threshold, f, attempts + 1);
        LongerPath(ps, next.providers, p, Request(next, threshold, Never(), attempts + 1).tried, f);
      } else {
        assert path[0] == p && (f(ps[p].provider) || path == [p]);
      }
    }
  }

  lemma {:induction false} FailureKeepsProviders(ps: seq<Status>, p: nat, threshold: U8)
    requires p < |ps|
    ensures SameProviders(ps, BookFailure(ps, p, threshold))
  {
  }

  lemma {:induction false} LongerPath(ps: seq<Status>, qs: seq<Status>, p: nat, rest: seq<nat>, f: Provider -> bool)
    requires SameProviders(ps, qs) && p < |ps| && !f(ps[p].provider)
    ensures SomeOnPathWorks(ps, [p] + rest, f) <==> SomeOnPathWorks(qs, rest, f)
  {
    var path := [p] + rest;
    if SomeOnPathWorks(ps, path, f) {
      var k :| 0 <= k < |path| && path[k] < |ps| && f(ps[path[k]].provider);
      assert rest[k - 1] == path[k] && f(qs[rest[k - 1]].provider);
    }
    if SomeOnPathWorks(qs, rest, f) {
      var k :| 0 <= k < |rest| && rest[k] < |qs| && f(qs[rest[k]].provider);
      assert path[k + 1] == rest[k] && f(ps[path[k + 1]].provider);
    }
  }

  /** The providers asked by a request that always fails include every ready one. */
  ghost predicate PathCoversReady(s: Client, threshold: U8)
    requires InRange(s)
  {
    var path := Request(s, threshold, Never(), 0).tried;
    forall i: nat :: i in Ready(s.providers) && i < |s.providers| ==> OnPath(s.providers, path, s.providers[i].provider)
  }

  ghost predicate OnPath(ps: seq<Status>, path: seq<nat>, provider: Provider) {
    exists k :: 0 <= k < |path| && path[k] < |ps| && ps[path[k]].provider == provider
  }

  /** Automatic fallback, a request succeeds whenever some ready provider can serve it, for all operations: it
      holds if and only if a request that always fails gets to every ready provider. */
  lemma {:induction false} FallbackIffPathCoversReady(s: Client, threshold: U8)
    requires InRange(s)
    ensures (forall f: Provider -> bool :: SomeReadyWorks(s.providers, f) ==> Request(s, threshold, Always(f), 0).ok)
       <==> PathCoversReady(s, threshold)
  {
    hide Request, Ready;
    var ps := s.providers;
    var path := Request(s, threshold, Never(), 0).tried;
    if PathCoversReady(s, threshold) {
      forall f: Provider -> bool | SomeReadyWorks(ps, f)
        ensures Request(s, threshold, Always(f), 0).ok
      {
        FollowsPath(s, threshold, f, 0);
        var i: nat :| i in Ready(ps) && i < |ps| && f(ps[i].provider);
        assert OnPath(ps, path, ps[i].provider);
      }
    } else {
      var i: nat :| i in Ready(ps) && i < |ps| && !OnPath(ps, path, ps[i].provider);
      var provider := ps[i].provider;
      var f := (p: Provider) => p == provider;
      FollowsPath(s, threshold, f, 0);
      assert SomeReadyWorks(ps, f);
      assert !SomeOnPathWorks(ps, path, f);
    }
  }

  // ---- Fallback with distinct urls ----

  /** Every provider on the way, except the last one, is one failure away from an open circuit. */
  ghost predicate AllOnLastStrike(ps: seq<Status>, c: nat, threshold: U8) {
    var v := Visit(Ready(ps), |ps|, c);
    forall k :: 0 <= k < |v| - 1 ==> v[k] < |ps| && LastStrike(ps[v[k]], threshold)
  }

  lemma {:induction false} VisitInRange(ps: seq<Status>, c: nat)
    requires c < |ps|
    ensures var v := Visit(Ready(ps), |ps|, c); forall k :: 0 <= k < |v| ==> v[k] < |ps|
  {
    VisitEnumerates(Ready(ps), |ps|, c);
    var v := Visit(Ready(ps), |ps|, c);
    assert forall k :: 0 <= k < |v| ==> v[k] in v;
  }

  /** With distinct urls that path is the visiting order up to the first failure that opens nothing, so fallback
      holds if and only if every provider that is visited before the last one stands one failure below the
      threshold. */
  lemma {:induction false} FallbackIffAllOnLastStrike(s: Client, threshold: U8)
    requires InRange(s) && s.providers != [] && DistinctUrls(s.providers)
    ensures (forall f: Provider -> bool :: SomeReadyWorks(s.providers, f) ==> Request(s, threshold, Always(f), 0).ok)
       <==> AllOnLastStrike(s.providers, s.current, threshold)
  {
    FallbackIffPathCoversReady(s, threshold);
    CoversIffAllOnLastStrike(s, threshold);
  }

  lemma {:induction false} CoversIffAllOnLastStrike(s: Client, threshold: U8)
    requires InRange(s) && s.providers != [] && DistinctUrls(s.providers)
    ensures PathCoversReady(s, threshold) <==> AllOnLastStrike(s.providers, s.current, threshold)
  {
    hide Visit, Ready, LastStrike, Request, DistinctUrls;
    var ps, c := s.providers, s.current;
    var v, path := Visit(Ready(ps), |ps|, c), Request(s, threshold, Never(), 0).tried;
    RequestServed(s, threshold, Never());
    ReadyInRange(ps);
    VisitEnumerates(Ready(ps), |ps|, c);
    VisitInRange(ps, c);
    NeverSucceeds(s, threshold, 0);
    if AllOnLastStrike(ps, c, threshold) {
      assert path == v;
      forall i: nat | i in Ready(ps) && i < |ps|
        ensures OnPath(ps, path, ps[i].provider)
      {
        assert i in v;
        var k :| 0 <= k < |v| && v[k] == i;
      }
    }
    if PathCoversReady(s, threshold) {
      PathIsWhole(ps, path, v);
    }
  }

  lemma {:induction false} ReadyInRange(ps: seq<Status>)
    ensures forall i :: i in Ready(ps) ==> i < |ps|
  {
  }

  lemma {:induction false} NeverSucceeds(s: Client, threshold: U8, attempts: nat)
    requires InRange(s)
    ensures !Request(s, threshold, Never(), attempts).ok
    decreases |s.providers| - attempts
  {
    hide Asking, BookFailure, BookSuccess, Stops, Onward, Request;
    RequestUnfolds(s, threshold, Never(), attempts);
    if Asking(s) < |s.providers| && !Stops(s, threshold, attempts) {
      FailureKeepsProviders(s.providers, Asking(s), threshold);
      NeverSucceeds(Onward(s, threshold), threshold, attempts + 1);
    }
  }

  /** A prefix of distinct positions that names every provider is the whole. */
  lemma {:induction false} PathIsWhole(ps: seq<Status>, path: seq<nat>, v: seq<nat>)
    requires DistinctUrls(ps) && path <= v && Distinct(v) && forall k :: 0 <= k < |v| ==> v[k] < |ps|
    requires forall i :: i in v && i < |ps| ==> OnPath(ps, path, ps[i].provider)
    ensures path == v
  {
    if v != [] {
      PathReaches(ps, path, v, |v| - 1);
    }
  }

  lemma {:induction false} PathReaches(ps: seq<Status>, path: seq<nat>, v: seq<nat>, m: nat)
    requires DistinctUrls(ps) && path <= v && Distinct(v) && forall k :: 0 <= k < |v| ==> v[k] < |ps|
    requires forall i :: i in v && i < |ps| ==> OnPath(ps, path, ps[i].provider)
    requires m < |v|
    ensures m < |path|
  {
    assert v[m] in v;
    var k :| 0 <= k < |path| && path[k] < |ps| && ps[path[k]].provider == ps[v[m]].provider;
    assert path[k] == v[k];
  }

  /** Whatever the urls are: a client that has seen no failures, with a threshold of two or more, asks its first
      provider only. */
  lemma {:induction false} FreshClientDoesNotFallBack(ps: seq<Status>, threshold: U8, op: Operation)
    requires ps != [] && 2 <= threshold && forall i :: 0 <= i < |ps| ==> ps[i] == Fresh(ps[i].provider)
    ensures var o := Request(Client(ps, 0), threshold, op, 0); o.tried == [0] && o.ok == op(0, ps[0].provider)
  {
    assert ps[0] == Fresh(ps[0].provider);
    assert 0 in Ready(ps);
  }
}
