/** Horizon providers, their circuit breakers, and the order in which one request visits them. */
module Failover {
  import opened MachineInts

  datatype Provider = Provider(url: string, name: string, priority: nat)

  datatype Circuit = Closed | Open | HalfOpen

  type U8 = x: int | 0 <= x <= 255

  /** Time stamps are left out; nothing that is modelled reads them. */
  datatype Status = Status(provider: Provider, failures: U8, circuit: Circuit, healthy: bool)

  function Fresh(p: Provider): Status { Status(p, 0, Closed, true) }

  /** `record_failure`; the counter is an unchecked u8. */
  function Failed(s: Status, threshold: U8): Status {
    var count := (s.failures + 1) % 256;
    s.(failures := count, circuit := if threshold <= count then Open else s.circuit)
  }

  /** `record_success`. */
  function Succeeded(s: Status): Status {
    s.(failures := 0, healthy := true, circuit := if s.circuit == HalfOpen then Closed else s.circuit)
  }

  predicate CanExecute(s: Status) {
    match s.circuit
    case Closed => s.healthy
    case Open => false
    case HalfOpen => true
  }

  /** One more failure opens the circuit. */
  predicate LastStrike(s: Status, threshold: U8) { Failed(s, threshold).circuit == Open }

  predicate DistinctUrls(ps: seq<Status>) {
    forall i, j :: 0 <= i < j < |ps| ==> ps[i].provider.url != ps[j].provider.url
  }

  // ---- The failure counter ----

  /** The counter of a closed circuit is below the threshold, and an open one stands at it. */
  predicate CounterOk(s: Status, threshold: U8) {
    var limit := if threshold == 0 then 1 else threshold;
    match s.circuit
    case Closed => s.failures < limit
    case Open => s.failures == limit
    case HalfOpen => false
  }

  lemma {:induction false} FailureCounts(s: Status, threshold: U8)
    requires CounterOk(s, threshold) && CanExecute(s)
    ensures CounterOk(Failed(s, threshold), threshold) && Failed(s, threshold).failures == s.failures + 1
    ensures LastStrike(s, threshold) <==> threshold <= s.failures + 1
  {
  }

  // ---- Ready providers in cyclic order ----

  function Ready(ps: seq<Status>): set<nat> { set i: nat | i < |ps| && CanExecute(ps[i]) }

  /** Position `k` on a circle of `n` providers. */
  function Pos(n: nat, k: nat): (p: nat)
    requires 0 < n
    ensures p < n
  {
    k % n
  }

  /** The members of `ready` met at positions `lo`, …, `hi` - 1, counting modulo `n`. */
  function Met(ready: set<nat>, n: nat, lo: nat, hi: nat): seq<nat>
    requires 0 < n
    decreases hi - lo
  {
    if hi <= lo then []
    else (if Pos(n, lo) in ready then [Pos(n, lo)] else []) + Met(ready, n, lo + 1, hi)
  }

  /** All of `ready`, starting behind position `c`. */
  function Cycle(ready: set<nat>, n: nat, c: nat): seq<nat>
    requires 0 < n
  {
    Met(ready, n, c + 1, c + n + 1)
  }

  /** The lowest member of `ready` at or above `i`, `n` if there is none. */
  function Lowest(ready: set<nat>, n: nat, i: nat): (k: nat)
    requires i <= n
    ensures i <= k <= n && (k < n ==> k in ready) && forall j :: i <= j < k ==> j !in ready
    decreases n - i
  {
    if i < n && i !in ready then Lowest(ready, n, i + 1) else i
  }

  /** `get_current_provider`: the current one if it is ready, or else the lowest one that is. */
  function Picked(ready: set<nat>, n: nat, c: nat): (p: nat)
    ensures p < n ==> p in ready
    ensures p >= n ==> forall i :: 0 <= i < n ==> i !in ready
  {
    if c < n && c in ready then c else Lowest(ready, n, 0)
  }

  /** The providers in the order a request visits them while each failure opens a circuit. */
  function Visit(ready: set<nat>, n: nat, c: nat): seq<nat> {
    var p := Picked(ready, n, c);
    if n <= p then [] else [p] + Cycle(ready - {p}, n, c)
  }

  // ---- Positions modulo n ----

  lemma {:induction false} ModDistinct(n: nat, a: nat, b: nat)
    requires a < b < a + n
    ensures Pos(n, a) != Pos(n, b)
  {
    if a % n == b % n {
      var q := b / n - a / n;
      assert n * q == b - a;
      MultipleTooSmall(n, q);
      assert false;
    }
  }

  lemma {:induction false} MultipleTooSmall(n: nat, q: int)
    requires 0 < n
    ensures n * q <= 0 || n <= n * q
  {
    if q >= 1 {
      assert n * q == n + n * (q - 1);
      assert 0 <= n * (q - 1);
    } else {
      assert n * (-q) >= 0;
    }
  }

  lemma {:induction false} ModShift(n: nat, k: nat)
    requires 0 < n
    ensures Pos(n, k + n) == Pos(n, k)
  {
    var r, q := k % n, k / n;
    assert k + n == n * (q + 1) + r;
    var r', q' := (k + n) % n, (k + n) / n;
    assert n * (q' - q - 1) == r - r';
    MultipleTooSmall(n, q' - q - 1);
    MultipleTooSmall(n, q + 1 - q');
  }

  // ---- Walking ----

  lemma {:induction false} MetSplit(ready: set<nat>, n: nat, lo: nat, mid: nat, hi: nat)
    requires 0 < n && lo <= mid <= hi
    ensures Met(ready, n, lo, hi) == Met(ready, n, lo, mid) + Met(ready, n, mid, hi)
    decreases mid - lo
  {
    if lo < mid {
      MetSplit(ready, n, lo + 1, mid, hi);
    }
  }

  lemma {:induction false} MetNothing(ready: set<nat>, n: nat, lo: nat, hi: nat)
    requires 0 < n && forall k :: lo <= k < hi ==> Pos(n, k) !in ready
    ensures Met(ready, n, lo, hi) == []
    decreases hi - lo
  {
    if lo < hi {
      MetNothing(ready, n, lo + 1, hi);
    }
  }

  lemma {:induction false} MetShift(ready: set<nat>, n: nat, lo: nat, hi: nat)
    requires 0 < n
    ensures Met(ready, n, lo + n, hi + n) == Met(ready, n, lo, hi)
    decreases hi - lo
  {
    if lo < hi {
      ModShift(n, lo);
      MetShift(ready, n, lo + 1, hi);
    }
  }

  lemma {:induction false} MetWithout(ready: set<nat>, n: nat, lo: nat, hi: nat, x: nat)
    requires 0 < n && forall k :: lo <= k < hi ==> Pos(n, k) != x
    ensures Met(ready - {x}, n, lo, hi) == Met(ready, n, lo, hi)
    decreases hi - lo
  {
    if lo < hi {
      MetWithout(ready, n, lo + 1, hi, x);
    }
  }

  /** The next ready provider behind `c` is `d` positions away, and the cycle goes on from there. */
  lemma {:induction false} CycleNext(ready: set<nat>, n: nat, c: nat, d: nat)
    requires c < n && 1 <= d <= n && Pos(n, c + d) in ready
    requires forall k :: c < k < c + d ==> Pos(n, k) !in ready
    ensures var next := Pos(n, c + d); Cycle(ready, n, c) == [next] + Cycle(ready - {next}, n, next)
  {
    hide Pos;
    var next := Pos(n, c + d);
    UpToNext(ready, n, c, d);
    BackToStart(ready - {next}, n, c, d);
    if c + d < n {
      PosBelow(n, c + d);
    } else {
      WrapOnce(n, c + d);
      MetShift(ready - {next}, n, next + 1, next + n + 1);
    }
  }

  lemma {:induction false} UpToNext(ready: set<nat>, n: nat, c: nat, d: nat)
    requires c < n && 1 <= d <= n && Pos(n, c + d) in ready
    requires forall k :: c < k < c + d ==> Pos(n, k) !in ready
    ensures var next := Pos(n, c + d);
            Cycle(ready, n, c) == [next] + Met(ready - {next}, n, c + d + 1, c + n + 1)
  {
    hide Pos;
    var next := Pos(n, c + d);
    MetSplit(ready, n, c + 1, c + d, c + n + 1);
    MetNothing(ready, n, c + 1, c + d);
    forall k | c + d + 1 <= k < c + n + 1
      ensures Pos(n, k) != next
    {
      ModDistinct(n, c + d, k);
    }
    MetWithout(ready, n, c + d + 1, c + n + 1, next);
  }

  /** Going on past the start meets nobody new. */
  lemma {:induction false} BackToStart(rest: set<nat>, n: nat, c: nat, d: nat)
    requires c < n && 1 <= d <= n
    requires forall k :: c < k <= c + d ==> Pos(n, k) !in rest
    ensures Met(rest, n, c + d + 1, c + d + n + 1) == Met(rest, n, c + d + 1, c + n + 1)
  {
    hide Pos;
    MetSplit(rest, n, c + d + 1, c + n + 1, c + d + n + 1);
    MetShift(rest, n, c + 1, c + d + 1);
    MetNothing(rest, n, c + 1, c + d + 1);
  }

  lemma {:induction false} PosBelow(n: nat, k: nat)
    requires k < n
    ensures Pos(n, k) == k
  {
  }

  lemma {:induction false} WrapOnce(n: nat, k: nat)
    requires 0 < n <= k < 2 * n
    ensures Pos(n, k) == k - n
  {
    ModShift(n, k - n);
  }

  lemma {:induction false} CycleEmpty(ready: set<nat>, n: nat, c: nat)
    requires 0 < n && forall k :: c < k <= c + n ==> Pos(n, k) !in ready
    ensures Cycle(ready, n, c) == []
  {
    MetNothing(ready, n, c + 1, c + n + 1);
  }

  /** Whoever is visited first, the others follow in cyclic order behind the current provider. */
  lemma {:induction false} VisitNext(ready: set<nat>, n: nat, c: nat, d: nat)
    requires c < n && 1 <= d <= n && Picked(ready, n, c) < n
    requires var rest := ready - {Picked(ready, n, c)};
             Pos(n, c + d) in rest && forall k :: c < k < c + d ==> Pos(n, k) !in rest
    ensures var rest := ready - {Picked(ready, n, c)};
            Visit(ready, n, c) == [Picked(ready, n, c)] + Visit(rest, n, Pos(n, c + d))
  {
    CycleNext(ready - {Picked(ready, n, c)}, n, c, d);
  }

  // ---- Everybody ready is visited exactly once ----

  lemma {:induction false} MetMembers(ready: set<nat>, n: nat, lo: nat, hi: nat, x: nat)
    requires 0 < n
    ensures x in Met(ready, n, lo, hi) <==> x in ready && exists k :: lo <= k < hi && Pos(n, k) == x
    decreases hi - lo
  {
    if lo < hi {
      MetMembers(ready, n, lo + 1, hi, x);
      assert x in Met(ready, n, lo, hi) <==> (x == Pos(n, lo) && x in ready) || x in Met(ready, n, lo + 1, hi);
    }
  }

  predicate Distinct(s: seq<nat>) { forall i, j :: 0 <= i < j < |s| ==> s[i] != s[j] }

  lemma {:induction false} MetDistinct(ready: set<nat>, n: nat, lo: nat, hi: nat)
    requires 0 < n && hi <= lo + n
    ensures Distinct(Met(ready, n, lo, hi))
    decreases hi - lo
  {
    if lo < hi {
      MetDistinct(ready, n, lo + 1, hi);
      MetMembers(ready, n, lo + 1, hi, Pos(n, lo));
      if exists k :: lo + 1 <= k < hi && Pos(n, k) == Pos(n, lo) {
        var k :| lo + 1 <= k < hi && Pos(n, k) == Pos(n, lo);
        ModDistinct(n, lo, k);
        assert false;
      }
    }
  }

  lemma {:induction false} VisitEnumerates(ready: set<nat>, n: nat, c: nat)
    requires c < n && forall i :: i in ready ==> i < n
    ensures var v := Visit(ready, n, c);
            && (forall x :: x in v <==> x in ready)
            && Distinct(v)
  {
    hide Pos;
    var p := Picked(ready, n, c);
    if p < n {
      var rest := ready - {p};
      MetDistinct(rest, n, c + 1, c + n + 1);
      forall x: nat
        ensures x in Cycle(rest, n, c) <==> x in rest
      {
        CycleMembers(rest, n, c, x);
      }
      PrependDistinct(p, Cycle(rest, n, c));
    }
  }

  lemma {:induction false} PrependDistinct(p: nat, s: seq<nat>)
    requires p !in s && Distinct(s)
    ensures Distinct([p] + s)
  {
    forall i, j | 0 <= i < j < |[p] + s|
      ensures ([p] + s)[i] != ([p] + s)[j]
    {
      assert ([p] + s)[j] == s[j - 1];
    }
  }

  lemma {:induction false} CycleMembers(ready: set<nat>, n: nat, c: nat, x: nat)
    requires c < n && forall i :: i in ready ==> i < n
    ensures x in Cycle(ready, n, c) <==> x in ready
  {
    hide Pos;
    MetMembers(ready, n, c + 1, c + n + 1, x);
    if x in ready {
      if x <= c {
        WrapOnce(n, x + n);
      } else {
        PosBelow(n, x);
      }
    }
  }

  lemma {:induction false} DistinctBelow(s: seq<nat>, n: nat)
    requires (forall i :: 0 <= i < |s| ==> s[i] < n) && Distinct(s)
    ensures |s| <= n
  {
    var first := if s == [] then 0 else s[0];
    if n > 0 {
      if n - 1 in s {
        var k :| 0 <= k < |s| && s[k] == n - 1;
        DistinctBelow(s[..k] + s[k + 1..], n - 1);
      } else {
        DistinctBelow(s, n - 1);
      }
    }
  }

  /** A request visits no more providers than there are. */
  lemma {:induction false} VisitBound(ready: set<nat>, n: nat, c: nat)
    requires c < n && forall i :: i in ready ==> i < n
    ensures |Visit(ready, n, c)| <= n
  {
    VisitEnumerates(ready, n, c);
    var v := Visit(ready, n, c);
    assert forall i :: 0 <= i < |v| ==> v[i] in v;
    DistinctBelow(v, n);
  }

  // ---- Finding a provider by url ----

  /** The first provider from `i` on with this url, the length of the list if there is none. */
  function FirstFrom(ps: seq<Status>, url: string, i: nat): (k: nat)
    requires i <= |ps|
    ensures i <= k <= |ps| && (k < |ps| ==> ps[k].provider.url == url)
    ensures forall j :: i <= j < k ==> ps[j].provider.url != url
    decreases |ps| - i
  {
    if i < |ps| && ps[i].provider.url != url then FirstFrom(ps, url, i + 1) else i
  }

  function FirstWith(ps: seq<Status>, url: string): (k: nat)
    ensures k <= |ps|
  {
    FirstFrom(ps, url, 0)
  }

  /** The provider that the results of provider `i` are booked on: the first one with its url. */
  function Keeper(ps: seq<Status>, i: nat): (k: nat)
    requires i < |ps|
    ensures k <= i && ps[k].provider.url == ps[i].provider.url
    ensures forall j :: 0 <= j < k ==> ps[j].provider.url != ps[i].provider.url
  {
    FirstWith(ps, ps[i].provider.url)
  }

  lemma {:induction false} OwnKeeper(ps: seq<Status>, i: nat)
    requires i < |ps| && DistinctUrls(ps)
    ensures Keeper(ps, i) == i
  {
  }

  ghost predicate SameProviders(ps: seq<Status>, qs: seq<Status>) {
    |qs| == |ps| && forall i :: 0 <= i < |ps| ==> qs[i].provider == ps[i].provider
  }

  lemma {:induction false} SameKeepers(ps: seq<Status>, qs: seq<Status>, i: nat)
    requires SameProviders(ps, qs) && i < |ps|
    ensures Keeper(ps, i) == Keeper(qs, i)
  {
    hide FirstWith;
    var k, l := Keeper(ps, i), Keeper(qs, i);
    assert qs[k].provider.url == qs[i].provider.url && ps[l].provider.url == ps[i].provider.url;
  }

  // ---- The client ----

  datatype Client = Client(providers: seq<Status>, current: nat)

  /** The current index points into the list. */
  predicate InRange(s: Client) { s.providers != [] ==> s.current < |s.providers| }

  /** What the request does at its n-th attempt, counted from zero, with a provider. */
  type Operation = (nat, Provider) -> bool

  function BookSuccess(ps: seq<Status>, i: nat): seq<Status>
    requires i < |ps|
  {
    var k := Keeper(ps, i);
    ps[k := Succeeded(ps[k])]
  }

  function BookFailure(ps: seq<Status>, i: nat, threshold: U8): seq<Status>
    requires i < |ps|
  {
    var k := Keeper(ps, i);
    ps[k := Failed(ps[k], threshold)]
  }

  /** The next ready position behind `c`, looked for from distance `d` on. */
  function SwitchFrom(ready: set<nat>, n: nat, c: nat, d: nat): (next: nat)
    requires 0 < n
    ensures next < n
    decreases n - d
  {
    if Pos(n, c + d) in ready || n <= d then Pos(n, c + d) else SwitchFrom(ready, n, c, d + 1)
  }

  /** `switch_provider`: the next ready provider in cyclic order, the current one last. */
  function Switch(s: Client): Client
    requires InRange(s)
  {
    if Ready(s.providers) == {} then s
    else s.(current := SwitchFrom(Ready(s.providers), |s.providers|, s.current, 1))
  }

  /** A request: where it leaves the client, whom it asked, how it ended, and the providers after each result
      that was booked on the way. */
  datatype Outcome = Outcome(client: Client, tried: seq<nat>, ok: bool, trail: seq<seq<Status>>)

  /** `execute_request` from its attempt number `attempts` on, for any list of providers. */
  function Request(s: Client, threshold: U8, op: Operation, attempts: nat): (o: Outcome)
    requires InRange(s)
    ensures InRange(o.client) && SameProviders(s.providers, o.client.providers) && |o.trail| == |o.tried|
    ensures forall i :: 0 <= i < |o.tried| ==> o.tried[i] < |s.providers|
    ensures |o.tried| <= 1 || |o.tried| <= |s.providers| - attempts
    decreases |s.providers| - attempts
  {
    var ps := s.providers;
    var p := Picked(Ready(ps), |ps|, s.current);
    if |ps| <= p then Outcome(s, [], false, [])
    else if op(attempts, ps[p].provider) then
      var booked := BookSuccess(ps, p);
      Outcome(s.(providers := booked), [p], true, [booked])
    else
      var booked := BookFailure(ps, p, threshold);
      var next := s.(providers := booked);
      if booked[Keeper(ps, p)].circuit != Open || |ps| <= attempts + 1 || Ready(booked) == {} then
        Outcome(next, [p], false, [booked])
      else
        var rest := Request(Switch(next), threshold, op, attempts + 1);
        Outcome(rest.client, [p] + rest.tried, rest.ok, [booked] + rest.trail)
  }

  /** The provider asked next. */
  function Asking(s: Client): (p: nat)
    requires InRange(s)
    ensures p < |s.providers| ==> p in Ready(s.providers)
  {
    Picked(Ready(s.providers), |s.providers|, s.current)
  }

  /** The failure of the provider asked next ends the request. */
  predicate Stops(s: Client, threshold: U8, attempts: nat)
    requires InRange(s) && Asking(s) < |s.providers|
  {
    var booked := BookFailure(s.providers, Asking(s), threshold);
    || booked[Keeper(s.providers, Asking(s))].circuit != Open
    || |s.providers| <= attempts + 1
    || Ready(booked) == {}
  }

  /** The client when the next attempt starts, after a failure that does not end the request. */
  function Onward(s: Client, threshold: U8): (t: Client)
    requires InRange(s) && Asking(s) < |s.providers|
    ensures InRange(t) && t.providers == BookFailure(s.providers, Asking(s), threshold)
  {
    Switch(s.(providers := BookFailure(s.providers, Asking(s), threshold)))
  }

  /** One attempt of a request. */
  lemma {:induction false} RequestUnfolds(s: Client, threshold: U8, op: Operation, attempts: nat)
    requires InRange(s)
    ensures var o, p, ps := Request(s, threshold, op, attempts), Asking(s), s.providers;
            if |ps| <= p then o == Outcome(s, [], false, [])
            else if op(attempts, ps[p].provider) then
              o == Outcome(s.(providers := BookSuccess(ps, p)), [p], true, [BookSuccess(ps, p)])
            else
              var booked := BookFailure(ps, p, threshold);
              if Stops(s, threshold, attempts) then o == Outcome(s.(providers := booked), [p], false, [booked])
              else
                && attempts + 1 < |ps|
                && var rest := Request(Onward(s, threshold), threshold, op, attempts + 1);
                o == Outcome(rest.client, [p] + rest.tried, rest.ok, [booked] + rest.trail)
  {
    hide Ready, Picked, Keeper, Failed, Succeeded, SwitchFrom;
  }

  lemma {:induction false} PlaceBehind(n: nat, c: nat, i: nat) returns (k: nat)
    requires c < n && i < n
    ensures c < k <= c + n && Pos(n, k) == i
  {
    if i <= c {
      k := i + n;
      WrapOnce(n, k);
    } else {
      k := i;
      PosBelow(n, k);
    }
  }

  lemma {:induction false} SwitchFinds(ready: set<nat>, n: nat, c: nat, d: nat, i: nat) returns (e: nat)
    requires c < n && 1 <= d <= n && i in ready && i < n
    requires forall k :: c < k < c + d ==> Pos(n, k) !in ready
    ensures d <= e <= n && SwitchFrom(ready, n, c, d) == Pos(n, c + e) && Pos(n, c + e) in ready
    ensures forall k :: c < k < c + e ==> Pos(n, k) !in ready
    decreases n - d
  {
    hide Pos;
    var k := PlaceBehind(n, c, i);
    if Pos(n, c + d) in ready {
      e := d;
    } else if n <= d {
      assert false;
    } else {
      e := SwitchFinds(ready, n, c, d + 1, i);
    }
  }

  /** A switch goes to a ready provider, with nobody ready in between. */
  lemma {:induction false} SwitchMeaning(s: Client) returns (d: nat)
    requires InRange(s) && Ready(s.providers) != {}
    ensures var n := |s.providers|;
            && 1 <= d <= n && Switch(s).current == Pos(n, s.current + d) && Pos(n, s.current + d) in Ready(s.providers)
            && forall k :: s.current < k < s.current + d ==> Pos(n, k) !in Ready(s.providers)
  {
    var i :| i in Ready(s.providers);
    d := SwitchFinds(Ready(s.providers), |s.providers|, s.current, 1, i);
  }

  // ---- Health checks ----

  /** The health of provider `i` after the first `n` answers: the last answer for its url, if it is the first
      provider with that url, and what it was otherwise. */
  function HealthAfter(ps: seq<Status>, answers: seq<Option<bool>>, i: nat, n: nat): bool
    requires i < |ps| && n <= |answers| == |ps|
  {
    if n == 0 then ps[i].healthy
    else if answers[n - 1].Some? && Keeper(ps, n - 1) == i then answers[n - 1].value
    else HealthAfter(ps, answers, i, n - 1)
  }

  /** `health_check_all`, given what the check of each provider found; a check that broke off found nothing. */
  function HealthUpdated(ps: seq<Status>, answers: seq<Option<bool>>): seq<Status>
    requires |answers| == |ps|
  {
    seq(|ps|, i requires 0 <= i < |ps| => ps[i].(healthy := HealthAfter(ps, answers, i, |answers|)))
  }

  /** With distinct urls every provider gets its own answer. */
  lemma {:induction false} OwnAnswer(ps: seq<Status>, answers: seq<Option<bool>>, i: nat, n: nat)
    requires DistinctUrls(ps) && i < |ps| && n <= |answers| == |ps|
    ensures HealthAfter(ps, answers, i, n) == if i < n && answers[i].Some? then answers[i].value else ps[i].healthy
  {
    if n > 0 {
      OwnKeeper(ps, n - 1);
      OwnAnswer(ps, answers, i, n - 1);
    }
  }
}
