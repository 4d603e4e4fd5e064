/** The list of time locks of one user: how a bounded batch of expired locks is taken out, and why
    batching changes nothing about the outcome. */
module TimeLocks {
  import opened MachineInts

  /** `reward_multiplier` is always written as 0 by the contract and never read. */
  datatype Lock = Lock(amount: int, unlockTimestamp: int)

  predicate Expired(l: Lock, now: int) { l.unlockTimestamp <= now }

  function Amount(ls: seq<Lock>): int {
    if ls == [] then 0 else ls[0].amount + Amount(ls[1..])
  }

  /** The list of a user without a stored one: empty. (Not the literal `[]`: the verifier unrolls
      recursive functions on literal arguments without bound.) */
  function NoLocks(owner: nat): (ls: seq<Lock>)
    ensures |ls| == 0
  {
    seq(0, i => Lock(owner, 0))
  }

  predicate AllPositive(ls: seq<Lock>) { forall l :: l in ls ==> 0 < l.amount }

  /** The locks one batch moves to the liquid balance: the first `limit` expired ones. */
  function Taken(ls: seq<Lock>, now: int, limit: nat): seq<Lock> {
    if ls == [] then []
    else if Expired(ls[0], now) && 0 < limit then [ls[0]] + Taken(ls[1..], now, limit - 1)
    else Taken(ls[1..], now, limit)
  }

  /** The locks one batch leaves behind, in their old order. */
  function Kept(ls: seq<Lock>, now: int, limit: nat): seq<Lock> {
    if ls == [] then []
    else if Expired(ls[0], now) && 0 < limit then Kept(ls[1..], now, limit - 1)
    else [ls[0]] + Kept(ls[1..], now, limit)
  }

  function ExpiredCount(ls: seq<Lock>, now: int): nat {
    if ls == [] then 0 else (if Expired(ls[0], now) then 1 else 0) + ExpiredCount(ls[1..], now)
  }

  function Unexpired(ls: seq<Lock>, now: int): seq<Lock> {
    if ls == [] then []
    else if Expired(ls[0], now) then Unexpired(ls[1..], now)
    else [ls[0]] + Unexpired(ls[1..], now)
  }

  /** The running checked sum of the unlock loop. */
  function CheckedSum(ls: seq<Lock>, acc: int): Result<int> {
    if ls == [] then Ok(acc)
    else
      var next :- CheckedAdd(acc, ls[0].amount);
      CheckedSum(ls[1..], next)
  }

  lemma {:induction false} AmountAppend(a: seq<Lock>, b: seq<Lock>)
    ensures Amount(a + b) == Amount(a) + Amount(b)
  {
    if a == [] {
      assert a + b == b;
    } else {
      assert (a + b)[1..] == a[1..] + b;
      AmountAppend(a[1..], b);
    }
  }

  lemma {:induction false} AmountNonNegative(ls: seq<Lock>)
    requires AllPositive(ls)
    ensures 0 <= Amount(ls)
    ensures Amount(ls) == 0 <==> ls == []
  {
    if ls != [] {
      assert ls[0] in ls;
      AmountNonNegative(ls[1..]);
    }
  }

  /** With positive amounts the checked sum fails exactly when the true sum leaves i128. */
  lemma {:induction false} CheckedSumIsAmount(ls: seq<Lock>, acc: int)
    requires AllPositive(ls) && 0 <= acc <= I128_MAX
    ensures CheckedSum(ls, acc)
         == if acc + Amount(ls) <= I128_MAX then Ok(acc + Amount(ls)) else Err(MathOverflow)
  {
    if ls != [] {
      assert ls[0] in ls;
      AmountNonNegative(ls[1..]);
      if FitsI128(acc + ls[0].amount) {
        CheckedSumIsAmount(ls[1..], acc + ls[0].amount);
      }
    }
  }

  /** A batch only splits the list: nothing is lost, nothing is invented, and what is taken has
      expired. */
  lemma {:induction false} SplitConserves(ls: seq<Lock>, now: int, limit: nat)
    ensures multiset(Taken(ls, now, limit)) + multiset(Kept(ls, now, limit)) == multiset(ls)
    ensures Amount(Taken(ls, now, limit)) + Amount(Kept(ls, now, limit)) == Amount(ls)
    ensures forall l :: l in Taken(ls, now, limit) ==> Expired(l, now) && l in ls
    ensures forall l :: l in Kept(ls, now, limit) ==> l in ls
  {
    if ls != [] {
      assert ls == [ls[0]] + ls[1..];
      if Expired(ls[0], now) && 0 < limit {
        SplitConserves(ls[1..], now, limit - 1);
      } else {
        SplitConserves(ls[1..], now, limit);
      }
    }
  }

  /** The complement of `Unexpired`, in order. */
  function PastDue(ls: seq<Lock>, now: int): seq<Lock> {
    if ls == [] then []
    else if ls[0].unlockTimestamp <= now then [ls[0]] + PastDue(ls[1..], now)
    else PastDue(ls[1..], now)
  }

  /** A batch is a walk along the list: up to some position `m` all expired locks are taken and the others are left,
      behind it everything is left; and the walk ends at the limit or at the end of the list. */
  lemma {:induction false} BatchIsPrefix(ls: seq<Lock>, now: int, limit: nat) returns (m: nat)
    ensures m <= |ls|
    ensures Taken(ls, now, limit) == PastDue(ls[..m], now)
    ensures Kept(ls, now, limit) == Unexpired(ls[..m], now) + ls[m..]
    ensures |Taken(ls, now, limit)| <= limit && (|Taken(ls, now, limit)| == limit || m == |ls|)
  {
    if ls == [] || limit == 0 {
      m := 0;
      ZeroBatch(ls, now);
    } else {
      var taken := Expired(ls[0], now);
      var k := BatchIsPrefix(ls[1..], now, if taken then limit - 1 else limit);
      m := k + 1;
      assert ls[..m][1..] == ls[1..][..k] && ls[m..] == ls[1..][k..];
    }
  }

  /** A lock that has not expired survives every batch, once for each time it is listed. */
  lemma {:induction false} UnexpiredSurvives(ls: seq<Lock>, now: int, limit: nat, l: Lock)
    requires !Expired(l, now)
    ensures multiset(Kept(ls, now, limit))[l] == multiset(ls)[l]
  {
    SplitConserves(ls, now, limit);
    assert multiset(Taken(ls, now, limit))[l] == 0;
    assert (multiset(Taken(ls, now, limit)) + multiset(Kept(ls, now, limit)))[l] == multiset(ls)[l];
  }

  lemma {:induction false} BatchSize(ls: seq<Lock>, now: int, limit: nat)
    ensures |Taken(ls, now, limit)|
         == if limit <= ExpiredCount(ls, now) then limit else ExpiredCount(ls, now)
    ensures ExpiredCount(Kept(ls, now, limit), now)
         == ExpiredCount(ls, now) - |Taken(ls, now, limit)|
  {
    if ls != [] {
      if Expired(ls[0], now) && 0 < limit {
        BatchSize(ls[1..], now, limit - 1);
      } else {
        BatchSize(ls[1..], now, limit);
        var rest := Kept(ls[1..], now, limit);
        assert ([ls[0]] + rest)[1..] == rest;
      }
    }
  }

  lemma {:induction false} ZeroBatch(ls: seq<Lock>, now: int)
    ensures Taken(ls, now, 0) == [] && Kept(ls, now, 0) == ls
  {
    if ls != [] {
      ZeroBatch(ls[1..], now);
    }
  }

  /** Path independence: a batch of a followed by a batch of b is one batch of a + b. */
  lemma {:induction false} BatchesCompose(ls: seq<Lock>, now: int, a: nat, b: nat)
    ensures Kept(Kept(ls, now, a), now, b) == Kept(ls, now, a + b)
    ensures Taken(ls, now, a) + Taken(Kept(ls, now, a), now, b) == Taken(ls, now, a + b)
  {
    if ls == [] {
    } else if Expired(ls[0], now) && 0 < a {
      BatchesCompose(ls[1..], now, a - 1, b);
      assert ([ls[0]] + Taken(ls[1..], now, a - 1)) + Taken(Kept(ls, now, a), now, b)
          == [ls[0]] + (Taken(ls[1..], now, a - 1) + Taken(Kept(ls[1..], now, a - 1), now, b));
    } else {
      var rest := Kept(ls[1..], now, a);
      assert ([ls[0]] + rest)[1..] == rest;
      if Expired(ls[0], now) && 0 < b {
        BatchesCompose(ls[1..], now, 0, b - 1);
        ZeroBatch(ls[1..], now);
      } else {
        BatchesCompose(ls[1..], now, a, b);
      }
    }
  }

  /** What `times` successive calls with the same limit leave behind. */
  function KeptAfter(ls: seq<Lock>, now: int, limit: nat, times: nat): seq<Lock>
    decreases times
  {
    if times == 0 then ls else Kept(KeptAfter(ls, now, limit, times - 1), now, limit)
  }

  lemma {:induction false} RepeatedBatches(ls: seq<Lock>, now: int, limit: nat, times: nat)
    ensures KeptAfter(ls, now, limit, times) == Kept(ls, now, times * limit)
  {
    if times == 0 {
      ZeroBatch(ls, now);
    } else {
      RepeatedBatches(ls, now, limit, times - 1);
      BatchesCompose(ls, now, (times - 1) * limit, limit);
      assert (times - 1) * limit + limit == times * limit;
    }
  }

  lemma {:induction false} FullBatch(ls: seq<Lock>, now: int, limit: nat)
    ensures ExpiredCount(ls, now) <= limit ==> Kept(ls, now, limit) == Unexpired(ls, now)
    ensures ExpiredCount(Unexpired(ls, now), now) == 0
  {
    if ls != [] {
      if Expired(ls[0], now) && 0 < limit {
        FullBatch(ls[1..], now, limit - 1);
      } else {
        FullBatch(ls[1..], now, limit);
        var rest := Unexpired(ls[1..], now);
        assert ([ls[0]] + rest)[1..] == rest;
      }
    }
  }

  /** Progress, exactly: `times` calls leave only the unexpired locks, in order, if and only if
      `times * limit` reaches the number of expired locks; so ceil(n / limit) calls are enough and
      fewer are not. */
  lemma {:induction false} ClearedExactlyWhenEnoughCalls(ls: seq<Lock>, now: int, limit: nat, times: nat)
    ensures KeptAfter(ls, now, limit, times) == Unexpired(ls, now)
       <==> ExpiredCount(ls, now) <= times * limit
  {
    RepeatedBatches(ls, now, limit, times);
    BatchSize(ls, now, times * limit);
    FullBatch(ls, now, times * limit);
  }

  /** `get_locked_balance`: the amount still under lock. */
  function LockedNow(ls: seq<Lock>, now: int): int { Amount(Unexpired(ls, now)) }

  /** If every unexpired lock of `before` is still listed in `after`, as often as before, then
      `after` holds at least the amount that `before` has under lock. */
  lemma {:induction false} LockedAmountPersists(before: seq<Lock>, after: seq<Lock>, now: int)
    requires AllPositive(after)
    requires forall l :: !Expired(l, now) ==> multiset(before)[l] <= multiset(after)[l]
    ensures LockedNow(before, now) <= Amount(after)
    decreases |before|
  {
    AmountNonNegative(after);
    if before != [] {
      var l := before[0];
      assert before == [l] + before[1..];
      if Expired(l, now) {
        LockedAmountPersists(before[1..], after, now);
      } else {
        assert multiset(after)[l] >= 1;
        var i :| 0 <= i < |after| && after[i] == l;
        var rest := after[..i] + after[i + 1..];
        assert after == after[..i] + [l] + after[i + 1..];
        assert multiset(after) == multiset(rest) + multiset{l};
        AmountAppend(after[..i] + [l], after[i + 1..]);
        AmountAppend(after[..i], [l]);
        AmountAppend(after[..i], after[i + 1..]);
        assert Amount(after) == Amount(rest) + l.amount;
        assert multiset(before) == multiset{l} + multiset(before[1..]);
        LockedAmountPersists(before[1..], rest, now);
      }
    }
  }

  lemma {:induction false} UnexpiredMembers(ls: seq<Lock>, now: int, l: Lock)
    ensures multiset(Unexpired(ls, now))[l] == if now < l.unlockTimestamp then multiset(ls)[l] else 0
  {
    if ls != [] {
      assert ls == [ls[0]] + ls[1..];
      UnexpiredMembers(ls[1..], now, l);
    }
  }

  /** So the amount under lock does not fall either. */
  lemma {:induction false} LockedNowPersists(before: seq<Lock>, after: seq<Lock>, now: int)
    requires AllPositive(after)
    requires forall l :: !Expired(l, now) ==> multiset(before)[l] <= multiset(after)[l]
    ensures LockedNow(before, now) <= LockedNow(after, now)
  {
    forall l
      ensures multiset(Unexpired(after, now))[l] == if now < l.unlockTimestamp then multiset(after)[l] else 0
    {
      UnexpiredMembers(after, now, l);
    }
    forall l | l in Unexpired(after, now)
      ensures 0 < l.amount
    {
      assert multiset(Unexpired(after, now))[l] > 0;
      assert l in multiset(after);
    }
    LockedAmountPersists(before, Unexpired(after, now), now);
  }

  /** A new lock counts as locked exactly until its time has come. */
  lemma {:induction false} LockedWithNew(ls: seq<Lock>, entry: Lock, t: int)
    ensures LockedNow(ls + [entry], t) == LockedNow(ls, t) + if t < entry.unlockTimestamp then entry.amount else 0
  {
    if ls == [] {
      assert [] + [entry] == [entry] && [entry][1..] == [];
    } else {
      assert (ls + [entry])[1..] == ls[1..] + [entry];
      LockedWithNew(ls[1..], entry, t);
    }
  }

  /** What a batch takes and what is under lock never overlap. */
  lemma {:induction false} TakenIsNotLocked(ls: seq<Lock>, now: int, limit: nat, t: int)
    requires AllPositive(ls) && now <= t
    ensures Amount(Taken(ls, now, limit)) + LockedNow(ls, t) <= Amount(ls)
  {
    if ls != [] {
      assert ls[0] in ls;
      if Expired(ls[0], now) && 0 < limit {
        TakenIsNotLocked(ls[1..], now, limit - 1, t);
      } else {
        TakenIsNotLocked(ls[1..], now, limit, t);
      }
    }
  }
}
