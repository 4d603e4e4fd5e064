/** The routing table: where peers are kept over every run of updates, and what the closest-node query
    returns. */
module Kademlia {
  import opened MachineInts
  import opened XorMetric

  datatype PeerInfo = PeerInfo(id: NodeId, address: string, connected: bool, lastSeen: int, latencyMs: nat,
                               version: string)

  type Table = seq<map<NodeId, PeerInfo>>

  const BUCKETS: nat := 256
  const BUCKET_SIZE: nat := 20

  function Empty(): Table { seq(BUCKETS, _ => map[]) }

  function Put(bucket: map<NodeId, PeerInfo>, peer: PeerInfo): map<NodeId, PeerInfo> { bucket[peer.id := peer] }

  /** `update`: a full bucket ignores the peer, even one it already holds. */
  function Updated(local: NodeId, t: Table, peer: PeerInfo): Table
    requires |t| == BUCKETS
  {
    var b := Bucket(local, peer.id);
    if |t[b]| < BUCKET_SIZE then t[b := Put(t[b], peer)] else t
  }

  function AfterUpdates(local: NodeId, peers: seq<PeerInfo>): (t: Table)
    ensures |t| == BUCKETS
  {
    if peers == [] then Empty()
    else Updated(local, AfterUpdates(local, peers[..|peers| - 1]), peers[|peers| - 1])
  }

  ghost predicate TableOk(local: NodeId, t: Table) {
    && |t| == BUCKETS
    && forall b :: 0 <= b < BUCKETS ==> BucketOk(local, t[b], b)
  }

  ghost predicate BucketOk(local: NodeId, bucket: map<NodeId, PeerInfo>, b: int) {
    && |bucket| <= BUCKET_SIZE
    && forall id :: id in bucket ==> bucket[id].id == id && Bucket(local, id) == b
  }

  lemma {:induction false} UpdateKeepsTableOk(local: NodeId, t: Table, peer: PeerInfo)
    requires TableOk(local, t)
    ensures TableOk(local, Updated(local, t, peer))
  {
    hide Bucket;
    var b := Bucket(local, peer.id);
    if |t[b]| < BUCKET_SIZE {
      InsertSize(t[b], peer);
      assert BucketOk(local, t[b], b);
      assert BucketOk(local, Put(t[b], peer), b);
    }
  }

  lemma {:induction false} InsertSize(m: map<NodeId, PeerInfo>, peer: PeerInfo)
    ensures |Put(m, peer)| == if peer.id in m then |m| else |m| + 1
  {
    assert Put(m, peer).Keys == m.Keys + {peer.id};
  }

  // ---- The table over runs ----

  /** The ids of bucket `b` that were ever reported. */
  function Reported(local: NodeId, peers: seq<PeerInfo>, b: int): set<NodeId> {
    set p | p in peers && Bucket(local, p.id) == b :: p.id
  }

  lemma {:induction false} ReportedNext(local: NodeId, peers: seq<PeerInfo>, peer: PeerInfo, b: int)
    ensures Reported(local, peers + [peer], b) ==
              if Bucket(local, peer.id) == b then Reported(local, peers, b) + {peer.id} else Reported(local, peers, b)
  {
    hide Bucket;
    assert forall p :: p in peers + [peer] <==> p in peers || p == peer;
  }

  /** After any updates the table is in order, and each bucket holds as many of the reported ids as fit:
      all of them while there are at most twenty, and twenty of them after that. */
  lemma {:induction false} TableOverRuns(local: NodeId, peers: seq<PeerInfo>, b: nat)
    requires b < BUCKETS
    ensures TableOk(local, AfterUpdates(local, peers))
    ensures AfterUpdates(local, peers)[b].Keys <= Reported(local, peers, b)
    ensures |AfterUpdates(local, peers)[b]| ==
              if |Reported(local, peers, b)| <= BUCKET_SIZE then |Reported(local, peers, b)| else BUCKET_SIZE
  {
    hide Bucket;
    if peers == [] {
      assert Reported(local, peers, b) == {};
    } else {
      var earlier, peer := peers[..|peers| - 1], peers[|peers| - 1];
      assert peers == earlier + [peer];
      TableOverRuns(local, earlier, b);
      ReportedNext(local, earlier, peer, b);
      var t := AfterUpdates(local, earlier);
      UpdateKeepsTableOk(local, t, peer);
      OneBucket(t[b], peer, Reported(local, earlier, b));
    }
  }

  /** One bucket and one update of it, against the ids reported so far. */
  lemma {:induction false} OneBucket(bucket: map<NodeId, PeerInfo>, peer: PeerInfo, reported: set<NodeId>)
    requires bucket.Keys <= reported
    requires |bucket| == if |reported| <= BUCKET_SIZE then |reported| else BUCKET_SIZE
    ensures var next := if |bucket| < BUCKET_SIZE then Put(bucket, peer) else bucket;
            var all := reported + {peer.id};
            && next.Keys <= all
            && |next| == if |all| <= BUCKET_SIZE then |all| else BUCKET_SIZE
  {
    InsertSize(bucket, peer);
    if |bucket| < BUCKET_SIZE {
      SameSizeSubset(bucket.Keys, reported);
      assert Put(bucket, peer).Keys == reported + {peer.id};
    } else if peer.id in reported {
      assert reported + {peer.id} == reported;
    }
  }

  lemma {:induction false} SameSizeSubset(a: set<NodeId>, b: set<NodeId>)
    requires a <= b && |a| == |b|
    ensures a == b
  {
    assert b == a + (b - a);
  }

  /** While at most twenty ids of a bucket have been reported, none is missing. */
  lemma {:induction false} NothingDroppedIffItFits(local: NodeId, peers: seq<PeerInfo>, b: nat)
    requires b < BUCKETS
    ensures AfterUpdates(local, peers)[b].Keys == Reported(local, peers, b)
       <==> |Reported(local, peers, b)| <= 20
  {
    TableOverRuns(local, peers, b);
    if |Reported(local, peers, b)| <= BUCKET_SIZE {
      SameSizeSubset(AfterUpdates(local, peers)[b].Keys, Reported(local, peers, b));
    }
  }

  /** A bucket that is full never changes again, whatever is reported later. */
  lemma {:induction false} FullBucketIsFrozen(local: NodeId, peers: seq<PeerInfo>, later: seq<PeerInfo>, b: nat)
    requires b < BUCKETS && |AfterUpdates(local, peers)[b]| >= 20
    ensures AfterUpdates(local, peers + later)[b] == AfterUpdates(local, peers)[b]
  {
    hide Bucket;
    if later == [] {
      assert peers + later == peers;
    } else {
      var all := peers + later;
      var earlier := later[..|later| - 1];
      assert all[..|all| - 1] == peers + earlier;
      FullBucketIsFrozen(local, peers, earlier, b);
    }
  }

  /** The latest report about a peer is what the table holds if and only if the bucket still had room, or
      the report said nothing new. */
  lemma {:induction false} LatestReportKeptIff(local: NodeId, peers: seq<PeerInfo>, peer: PeerInfo)
    ensures var b := Bucket(local, peer.id);
            var before := AfterUpdates(local, peers)[b];
            var after := AfterUpdates(local, peers + [peer])[b];
            (peer.id in after && after[peer.id] == peer)
            <==> (|Reported(local, peers, b)| < BUCKET_SIZE || (peer.id in before && before[peer.id] == peer))
  {
    hide Bucket;
    var b := Bucket(local, peer.id);
    assert (peers + [peer])[..|peers|] == peers;
    TableOverRuns(local, peers, b);
  }

  /** Buckets are shells: every peer of a lower bucket is strictly farther from the local node. */
  lemma {:induction false} BucketsAreShells(local: NodeId, peers: seq<PeerInfo>, i: nat, j: nat, a: NodeId, b: NodeId)
    requires i < j < BUCKETS && a in AfterUpdates(local, peers)[i] && b in AfterUpdates(local, peers)[j]
    ensures Nearer(b, a, local) && Bucket(local, a) == i && Bucket(local, b) == j
    ensures a != local && IdBit(a, i) != IdBit(local, i) && forall n: nat :: n < i ==> IdBit(a, n) == IdBit(local, n)
  {
    TableOverRuns(local, peers, i);
    assert BucketOk(local, AfterUpdates(local, peers)[i], i) && BucketOk(local, AfterUpdates(local, peers)[j], j);
    LowerBucketIsFarther(local, a, b);
    DistanceSymmetric(local, a);
    DistanceSymmetric(local, b);
    OwnIdIsLast(local);
    BucketIsFirstDifferingBit(local, a);
  }

  lemma {:induction false} OwnIdIsLast(local: NodeId)
    ensures Bucket(local, local) == 255
  {
    var d := Distance(local, local);
    forall k | 0 <= k < 32
      ensures d[k] == 0
    {
      XorSelf(local[k]);
    }
  }

  lemma {:induction false} XorSelf(x: bv8)
    ensures Xor(x, x) == 0
  {
  }

  // ---- The closest-node query ----

  function Stored(t: Table): set<PeerInfo> { set b, id | 0 <= b < |t| && id in t[b] :: t[b][id] }

  ghost predicate SortedByDistance(peers: seq<PeerInfo>, target: NodeId) {
    forall i, j :: 0 <= i < j < |peers| ==> Nearer(peers[i].id, peers[j].id, target)
  }

  /** The `k` closest peers: as many as there are, nearest first, and nobody left out is nearer. */
  ghost predicate Closest(r: seq<PeerInfo>, peers: set<PeerInfo>, target: NodeId, k: nat) {
    && |r| == (if k < |peers| then k else |peers|)
    && SortedByDistance(r, target)
    && (forall p :: p in r ==> p in peers)
    && forall p, q :: p in peers && p !in r && q in r ==> Nearer(q.id, p.id, target)
  }

  lemma {:induction false} AnswersAgreeUpTo(r: seq<PeerInfo>, s: seq<PeerInfo>, peers: set<PeerInfo>, target: NodeId,
                                            k: nat, n: nat)
    requires Closest(r, peers, target, k) && Closest(s, peers, target, k) && n <= |r|
    ensures r[..n] == s[..n]
  {
    hide Nearer;
    if n > 0 {
      AnswersAgreeUpTo(r, s, peers, target, k, n - 1);
      NextIsNearer(r, s, peers, target, k, n - 1);
      NextIsNearer(s, r, peers, target, k, n - 1);
      if r[n - 1] != s[n - 1] {
        NearerAsymmetric(r[n - 1].id, s[n - 1].id, target);
        assert false;
      }
      assert r[..n] == r[..n - 1] + [r[n - 1]] && s[..n] == s[..n - 1] + [s[n - 1]];
    }
  }

  lemma {:induction false} NearerAsymmetric(a: NodeId, b: NodeId, target: NodeId)
    requires Nearer(a, b, target)
    ensures !Nearer(b, a, target)
  {
    LessAsymmetric(Distance(a, target), Distance(b, target));
  }

  /** Two answers that agree so far: the next entry is the same, or the other answer's one is nearer. */
  lemma {:induction false} NextIsNearer(r: seq<PeerInfo>, s: seq<PeerInfo>, peers: set<PeerInfo>, target: NodeId,
                                        k: nat, n: nat)
    requires Closest(r, peers, target, k) && Closest(s, peers, target, k)
    requires n < |r| && r[..n] == s[..n]
    ensures r[n] == s[n] || Nearer(s[n].id, r[n].id, target)
  {
    hide Nearer;
    assert r[n] in peers && s[n] in s;
    if r[n] in s {
      var j :| 0 <= j < |s| && s[j] == r[n];
      if j < n {
        assert s[..n][j] == r[..n][j] == r[j];
        assert Nearer(r[j].id, r[n].id, target);
        NearerAsymmetric(r[j].id, r[n].id, target);
        assert false;
      }
    }
  }

  /** The answer to a query depends on the stored peers only: not on the buckets they are in, on the order
      they were reported in or on the identity of the node that was asked. */
  lemma {:induction false} AnswerIsUnique(r: seq<PeerInfo>, s: seq<PeerInfo>, peers: set<PeerInfo>, target: NodeId,
                                          k: nat)
    requires Closest(r, peers, target, k) && Closest(s, peers, target, k)
    ensures r == s
  {
    AnswersAgreeUpTo(r, s, peers, target, k, |r|);
    assert r[..|r|] == r && s[..|s|] == s;
  }

  // ---- The query over runs ----

  /** The last report about an id. */
  function LastReport(peers: seq<PeerInfo>, id: NodeId): Option<PeerInfo> {
    if peers == [] then None
    else if peers[|peers| - 1].id == id then Some(peers[|peers| - 1])
    else LastReport(peers[..|peers| - 1], id)
  }

  lemma {:induction false} HeldIsLastReport(local: NodeId, peers: seq<PeerInfo>, id: NodeId)
    requires |Reported(local, peers, Bucket(local, id))| < 20
    ensures var bucket := AfterUpdates(local, peers)[Bucket(local, id)];
            (if id in bucket then Some(bucket[id]) else None) == LastReport(peers, id)
  {
    hide Bucket;
    var b := Bucket(local, id);
    if peers != [] {
      var earlier, peer := peers[..|peers| - 1], peers[|peers| - 1];
      assert peers == earlier + [peer];
      ReportedNext(local, earlier, peer, b);
      FewerBefore(Reported(local, earlier, b), Reported(local, peers, b));
      HeldIsLastReport(local, earlier, id);
      TableOverRuns(local, earlier, b);
    }
  }

  lemma {:induction false} FewerBefore(a: set<NodeId>, b: set<NodeId>)
    requires a <= b
    ensures |a| <= |b|
  {
    assert b == a + (b - a);
  }

  /** While fewer than twenty ids of each bucket have been reported, the table holds exactly the last report about
      every peer. So the answer to a query is the same as that of one list of all peers: the buckets do not show. */
  lemma {:induction false} StoredAreLastReports(local: NodeId, peers: seq<PeerInfo>)
    requires forall b: nat :: b < BUCKETS ==> |Reported(local, peers, b)| < 20
    ensures forall p :: p in Stored(AfterUpdates(local, peers)) <==> LastReport(peers, p.id) == Some(p)
  {
    hide Bucket, Reported, LastReport, AfterUpdates;
    var t := AfterUpdates(local, peers);
    TableOverRuns(local, peers, 0);
    forall p: PeerInfo
      ensures p in Stored(t) <==> LastReport(peers, p.id) == Some(p)
    {
      var b := Bucket(local, p.id);
      assert |Reported(local, peers, b)| < 20;
      HeldIsLastReport(local, peers, p.id);
      StoredIffHeld(local, t, p);
    }
  }

  /** A peer is stored if and only if the bucket of its id holds it. */
  lemma {:induction false} StoredIffHeld(local: NodeId, t: Table, p: PeerInfo)
    requires TableOk(local, t)
    ensures var b := Bucket(local, p.id); p in Stored(t) <==> p.id in t[b] && t[b][p.id] == p
  {
    hide Bucket;
    if p in Stored(t) {
      var b, id :| 0 <= b < |t| && id in t[b] && t[b][id] == p;
      assert BucketOk(local, t[b], b);
    }
  }
}
