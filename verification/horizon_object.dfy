/** The Horizon client as the object the node holds, used by one caller at a time. */
module HorizonObject {
  import opened MachineInts
  import opened Failover
  import opened FailoverTheorems
  import opened FailoverRuns

  // ---- Sorting by priority ----

  /** The providers of one priority, in order. */
  function WithPriority(ps: seq<Provider>, priority: nat): seq<Provider> {
    if ps == [] then []
    else
      var earlier, last := WithPriority(ps[..|ps| - 1], priority), ps[|ps| - 1];
      if last.priority == priority then earlier + [last] else earlier
  }

  lemma {:induction false} WithPriorityJoins(a: seq<Provider>, b: seq<Provider>, priority: nat)
    ensures WithPriority(a + b, priority) == WithPriority(a, priority) + WithPriority(b, priority)
  {
    if b == [] {
      assert a + b == a;
    } else {
      var earlier := b[..|b| - 1];
      assert (a + b)[..|a + b| - 1] == a + earlier;
      WithPriorityJoins(a, earlier, priority);
    }
  }

  lemma {:induction false} NoneWithPriority(ps: seq<Provider>, priority: nat)
    requires forall i :: 0 <= i < |ps| ==> ps[i].priority != priority
    ensures WithPriority(ps, priority) == []
  {
    if ps != [] {
      NoneWithPriority(ps[..|ps| - 1], priority);
    }
  }

  ghost predicate ByPriority(ps: seq<Provider>) {
    forall i, j :: 0 <= i < j < |ps| ==> ps[i].priority <= ps[j].priority
  }

  /** `sort_by_key` is stable: providers of equal priority keep their configured order. */
  method SortByPriority(ps: seq<Provider>) returns (sorted: seq<Provider>)
    ensures |sorted| == |ps| && ByPriority(sorted)
    ensures forall priority: nat :: WithPriority(sorted, priority) == WithPriority(ps, priority)
    ensures DistinctSites(ps) <==> DistinctSites(sorted)
  {
    hide WithPriority, ByPriority, DistinctSites;
    sorted := [];
    NothingSorted();
    for i := 0 to |ps|
      invariant |sorted| == i && ByPriority(sorted)
      invariant forall p :: p in sorted <==> p in ps[..i]
      invariant DistinctSites(ps[..i]) <==> DistinctSites(sorted)
      invariant forall priority: nat :: WithPriority(sorted, priority) == WithPriority(ps[..i], priority)
    {
      assert ps[..i + 1] == ps[..i] + [ps[i]];
      DistinctLast(ps, i);
      forall priority: nat
        ensures WithPriority(ps[..i + 1], priority) == WithPriority(ps[..i], priority) + WithPriority([ps[i]], priority)
      {
        WithPriorityJoins(ps[..i], [ps[i]], priority);
      }
      sorted := InsertByPriority(sorted, ps[i]);
    }
    assert ps[..|ps|] == ps;
  }

  lemma {:induction false} NothingSorted()
    ensures ByPriority([]) && DistinctSites([]) && forall priority: nat :: WithPriority([], priority) == []
  {
  }

  method InsertByPriority(sorted: seq<Provider>, p: Provider) returns (r: seq<Provider>)
    requires ByPriority(sorted)
    ensures |r| == |sorted| + 1 && ByPriority(r)
    ensures forall q :: q in r <==> q in sorted || q == p
    ensures DistinctSites(r) <==> DistinctSites(sorted) && forall q :: q in sorted ==> q.url != p.url
    ensures forall priority: nat ::
              WithPriority(r, priority) == WithPriority(sorted, priority) + WithPriority([p], priority)
  {
    hide WithPriority, DistinctSites;
    var n := |sorted|;
    while 0 < n && p.priority < sorted[n - 1].priority
      invariant 0 <= n <= |sorted|
      invariant forall j :: n <= j < |sorted| ==> p.priority < sorted[j].priority
    {
      n := n - 1;
    }
    r := sorted[..n] + [p] + sorted[n..];
    InsertKeepsMembers(sorted, n, p);
    forall priority: nat
      ensures WithPriority(r, priority) == WithPriority(sorted, priority) + WithPriority([p], priority)
    {
      InsertKeepsOrder(sorted, n, p, priority);
    }
  }

  lemma {:induction false} InsertKeepsOrder(sorted: seq<Provider>, n: nat, p: Provider, priority: nat)
    requires n <= |sorted| && forall j :: n <= j < |sorted| ==> p.priority < sorted[j].priority
    ensures WithPriority(sorted[..n] + [p] + sorted[n..], priority)
         == WithPriority(sorted, priority) + WithPriority([p], priority)
  {
    var left, right := sorted[..n], sorted[n..];
    WithPriorityJoins(left + [p], right, priority);
    WithPriorityJoins(left, [p], priority);
    assert left + right == sorted;
    WithPriorityJoins(left, right, priority);
    if priority == p.priority {
      NoneWithPriority(right, priority);
    }
  }

  lemma {:induction false} InsertKeepsMembers(sorted: seq<Provider>, n: nat, p: Provider)
    requires n <= |sorted|
    ensures var r := sorted[..n] + [p] + sorted[n..];
            && (forall q :: q in r <==> q in sorted || q == p)
            && (DistinctSites(r) <==> DistinctSites(sorted) && forall q :: q in sorted ==> q.url != p.url)
  {
    var r := sorted[..n] + [p] + sorted[n..];
    assert sorted == sorted[..n] + sorted[n..];
    assert forall i :: 0 <= i < |sorted| ==> sorted[i] == r[if i < n then i else i + 1];
    if DistinctSites(r) {
      forall q | q in sorted
        ensures q.url != p.url
      {
        var i :| 0 <= i < |sorted| && sorted[i] == q;
        assert r[n] == p;
      }
      forall i, j | 0 <= i < j < |sorted|
        ensures sorted[i].url != sorted[j].url
      {
        assert sorted[i] == r[if i < n then i else i + 1] && sorted[j] == r[if j < n then j else j + 1];
      }
    }
  }

  /** The last of a list is new to it. */
  lemma {:induction false} DistinctLast(ps: seq<Provider>, i: nat)
    requires i < |ps|
    ensures DistinctSites(ps[..i + 1]) <==> DistinctSites(ps[..i]) && forall q :: q in ps[..i] ==> q.url != ps[i].url
  {
    var longer := ps[..i + 1];
    if DistinctSites(longer) {
      forall q | q in ps[..i]
        ensures q.url != ps[i].url
      {
        var j :| 0 <= j < i && ps[..i][j] == q;
        assert longer[j] == q && longer[i] == ps[i];
      }
      forall j, k | 0 <= j < k < i
        ensures ps[..i][j].url != ps[..i][k].url
      {
        assert longer[j] == ps[j] && longer[k] == ps[k];
      }
    }
    if DistinctSites(ps[..i]) && forall q :: q in ps[..i] ==> q.url != ps[i].url {
      forall j, k | 0 <= j < k < i + 1
        ensures longer[j].url != longer[k].url
      {
        assert longer[j] == ps[..i][j] && ps[..i][j] in ps[..i];
        assert k < i ==> longer[k] == ps[..i][k];
      }
    }
  }

  // ---- The client ----

  class HorizonClient {
    const threshold: U8
    var providers: seq<Status>
    var current: nat

    function State(): Client
      reads this
    {
      Client(providers, current)
    }

    constructor (configured: seq<Provider>, failureThreshold: U8)
      ensures threshold == failureThreshold
      ensures exists sites: seq<Provider> ::
                && State() == Start(sites) && ByPriority(sites)
                && (DistinctSites(sites) <==> DistinctSites(configured))
                && forall priority: nat :: WithPriority(sites, priority) == WithPriority(configured, priority)
    {
      threshold := failureThreshold;
      current := 0;
      var sorted := SortByPriority(configured);
      providers := seq(|sorted|, i requires 0 <= i < |sorted| => Fresh(sorted[i]));
      new;
      assert State() == Start(sorted);
    }

    /** `get_current_provider`. */
    method GetCurrentProvider() returns (r: Option<Provider>)
      ensures var p := Picked(Ready(providers), |providers|, current);
              r == if p < |providers| then Some(providers[p].provider) else None
    {
      if current < |providers| && CanExecute(providers[current]) {
        return Some(providers[current].provider);
      }
      for i := 0 to |providers|
        invariant Lowest(Ready(providers), |providers|, 0) == Lowest(Ready(providers), |providers|, i)
      {
        if i != current && CanExecute(providers[i]) {
          return Some(providers[i].provider);
        }
      }
      return None;
    }

    /** `switch_provider`. */
    method SwitchProvider() returns (ok: bool)
      requires InRange(State())
      modifies `current
      ensures ok == (Ready(providers) != {}) && State() == Switch(old(State()))
      ensures InRange(State()) && (!ok ==> current == old(current))
    {
      hide Pos, CanExecute;
      for i := 0 to |providers|
        invariant current == old(current)
        invariant forall k :: current < k <= current + i ==> Pos(|providers|, k) !in Ready(providers)
        invariant 0 < |providers| ==>
                    SwitchFrom(Ready(providers), |providers|, current, 1)
                    == SwitchFrom(Ready(providers), |providers|, current, if i < |providers| then i + 1 else i)
      {
        var next := Pos(|providers|, current + i + 1);
        if CanExecute(providers[next]) {
          assert next in Ready(providers);
          current := next;
          return true;
        }
      }
      NobodyBehind(State());
      ok := false;
    }

    /** The first provider with the given url. */
    method Find(url: string) returns (i: nat)
      ensures i == FirstWith(providers, url)
    {
      i := 0;
      while i < |providers| && providers[i].provider.url != url
        invariant i <= |providers| && FirstWith(providers, url) == FirstFrom(providers, url, i)
      {
        i := i + 1;
      }
    }

    /** `record_provider_success`: the result is booked on the first provider with the url. */
    method RecordSuccess(provider: Provider)
      modifies `providers
      ensures var ps, k := old(providers), FirstWith(old(providers), provider.url);
              providers == if k < |ps| then ps[k := Succeeded(ps[k])] else ps
    {
      var i := Find(provider.url);
      if i < |providers| {
        providers := providers[i := Succeeded(providers[i])];
      }
    }

    /** `record_provider_failure`: tells whether the circuit it is booked on is open now; an unknown provider has
        none. */
    method RecordFailure(provider: Provider) returns (isOpen: bool)
      modifies `providers
      ensures var ps, k := old(providers), FirstWith(old(providers), provider.url);
              && providers == (if k < |ps| then ps[k := Failed(ps[k], threshold)] else ps)
              && isOpen == (k < |ps| && Failed(ps[k], threshold).circuit == Open)
    {
      var i := Find(provider.url);
      if i >= |providers| {
        return false;
      }
      providers := providers[i := Failed(providers[i], threshold)];
      isOpen := providers[i].circuit == Open;
    }

    /** `health_check_all`, given what the check of each provider found; a check that broke off found nothing. An
        answer goes to the first provider with the url, and a later one for the same url replaces it. */
    method HealthCheckAll(answers: seq<Option<bool>>)
      requires |answers| == |providers|
      modifies `providers
      ensures providers == HealthUpdated(old(providers), answers)
    {
      hide FirstWith;
      for i := 0 to |answers|
        invariant providers == HealthSoFar(old(providers), answers, i)
      {
        if answers[i].Some? {
          var k := Find(providers[i].provider.url);
          KeeperSoFar(old(providers), answers, i, i);
          providers := providers[k := providers[k].(healthy := answers[i].value)];
        }
      }
    }

    /** `execute_request`: `op` says what each attempt would come to. The contract is exact for any list of
        providers. */
    method ExecuteRequest(op: Operation) returns (ok: bool, ghost tried: seq<nat>)
      requires InRange(State())
      modifies this
      ensures var o := Request(old(State()), threshold, op, 0);
              State() == o.client && ok == o.ok && tried == o.tried
      ensures |tried| <= |providers| && (DistinctUrls(old(providers)) ==> Distinct(tried))
    {
      ghost var s := State();
      ok, tried := Attempts(op);
      if DistinctUrls(s.providers) {
        RequestServed(s, threshold, op);
        hide Request, Served;
        EmptyOrTriedOnce(s, threshold, op);
      }
      NoMoreThanProviders(s, threshold, op);
    }

    /** The retry loop. */
    method Attempts(op: Operation) returns (ok: bool, ghost tried: seq<nat>)
      requires InRange(State())
      modifies this
      ensures var o := Request(old(State()), threshold, op, 0);
              State() == o.client && ok == o.ok && tried == o.tried
    {
      hide Request, Ready, Picked, Switch, FirstWith, Failed, Succeeded;
      ghost var whole := Request(State(), threshold, op, 0);
      var attempts := 0;
      tried := [];
      while true
        invariant InRange(State()) && |providers| == |old(providers)|
        invariant attempts == 0 || attempts < |providers|
        invariant var rest := Request(State(), threshold, op, attempts);
                  whole.client == rest.client && whole.ok == rest.ok && whole.tried == tried + rest.tried
        decreases |providers| - attempts
      {
        RequestUnfolds(State(), threshold, op, attempts);
        ghost var p := Asking(State());
        attempts := attempts + 1;
        var r := GetCurrentProvider();
        if r.None? {
          NobodyReady(State());
          if attempts < |providers| {
            // Nobody is ready, so the switch fails as well and its error is returned.
            var switched := SwitchProvider();
            assert !switched;
          }
          return false, tried;
        }
        if op(attempts - 1, r.value) {
          RecordSuccess(r.value);
          return true, tried + [p];
        }
        var isOpen := RecordFailure(r.value);
        if !isOpen || attempts >= |providers| {
          return false, tried + [p];
        }
        var switched := SwitchProvider();
        if !switched {
          return false, tried + [p];
        }
        tried := tried + [p];
      }
    }
  }

  lemma {:induction false} NobodyBehind(s: Client)
    requires InRange(s)
    requires forall k :: s.current < k <= s.current + |s.providers| ==> Pos(|s.providers|, k) !in Ready(s.providers)
    ensures Ready(s.providers) == {}
  {
    if i: nat :| i in Ready(s.providers) {
      var k := PlaceBehind(|s.providers|, s.current, i);
      assert false;
    }
  }

  lemma {:induction false} NobodyReady(s: Client)
    requires InRange(s) && |s.providers| <= Asking(s)
    ensures Ready(s.providers) == {}
  {
  }

  lemma {:induction false} NoMoreThanProviders(s: Client, threshold: U8, op: Operation)
    requires InRange(s)
    ensures |Request(s, threshold, op, 0).tried| <= |s.providers|
  {
    RequestUnfolds(s, threshold, op, 0);
  }

  // ---- Health checks ----

  /** The providers after the first `n` answers. */
  ghost function HealthSoFar(ps: seq<Status>, answers: seq<Option<bool>>, n: nat): seq<Status>
    requires n <= |answers| == |ps|
  {
    seq(|ps|, i requires 0 <= i < |ps| => ps[i].(healthy := HealthAfter(ps, answers, i, n)))
  }

  lemma {:induction false} KeeperSoFar(ps: seq<Status>, answers: seq<Option<bool>>, n: nat, i: nat)
    requires n <= |answers| == |ps| && i < |ps|
    ensures var qs := HealthSoFar(ps, answers, n); FirstWith(qs, qs[i].provider.url) == Keeper(ps, i)
  {
    var qs := HealthSoFar(ps, answers, n);
    SameKeepers(ps, qs, i);
    assert Keeper(qs, i) == FirstWith(qs, qs[i].provider.url);
  }
}
