/** The routing table as the object the node holds: an array of buckets that is updated in place. */
module KademliaObject {
  import opened XorMetric
  import opened Kademlia

  /** `xor_distance`: the array is filled byte by byte. */
  method XorDistance(a: NodeId, b: NodeId) returns (distance: NodeId)
    ensures distance == Distance(a, b)
  {
    hide Xor;
    var bytes := new bv8[32](_ => 0);
    for i := 0 to 32
      invariant forall k :: 0 <= k < i ==> bytes[k] == Xor(a[k], b[k])
    {
      bytes[i] := Xor(a[i], b[i]);
    }
    distance := bytes[..];
  }

  /** `sort_by` on the distance to `target`. */
  method SortByDistance(peers: seq<PeerInfo>, target: NodeId) returns (sorted: seq<PeerInfo>)
    requires forall i, j :: 0 <= i < j < |peers| ==> peers[i].id != peers[j].id
    ensures |sorted| == |peers| && SortedByDistance(sorted, target)
    ensures forall p :: p in sorted <==> p in peers
  {
    sorted := [];
    for i := 0 to |peers|
      invariant |sorted| == i && SortedByDistance(sorted, target)
      invariant forall p :: p in sorted <==> p in peers[..i]
    {
      assert peers[..i + 1] == peers[..i] + [peers[i]];
      forall p | p in sorted
        ensures p.id != peers[i].id
      {
        var j :| 0 <= j < i && peers[..i][j] == p;
      }
      sorted := InsertByDistance(sorted, peers[i], target);
    }
    assert peers[..|peers|] == peers;
  }

  method InsertByDistance(sorted: seq<PeerInfo>, peer: PeerInfo, target: NodeId) returns (r: seq<PeerInfo>)
    requires SortedByDistance(sorted, target) && forall p :: p in sorted ==> p.id != peer.id
    ensures |r| == |sorted| + 1 && SortedByDistance(r, target)
    ensures forall p :: p in r <==> p in sorted || p == peer
  {
    hide Less, Distance, Nearer;
    var n := 0;
    var distance := XorDistance(peer.id, target);
    while n < |sorted|
      invariant 0 <= n <= |sorted|
      invariant forall i :: 0 <= i < n ==> Nearer(sorted[i].id, peer.id, target)
    {
      var other := XorDistance(sorted[n].id, target);
      NearerMeans(sorted[n].id, peer.id, target);
      if !Less(other, distance) {
        DistancesOrdered(sorted[n].id, peer.id, target);
        break;
      }
      n := n + 1;
    }
    if n < |sorted| {
      forall j | n <= j < |sorted|
        ensures Nearer(peer.id, sorted[j].id, target)
      {
        if n < j {
          NearerTransitive(peer.id, sorted[n].id, sorted[j].id, target);
        }
      }
    }
    r := sorted[..n] + [peer] + sorted[n..];
    assert forall p :: p in sorted <==> p in sorted[..n] || p in sorted[n..];
  }

  lemma {:induction false} NearerMeans(a: NodeId, b: NodeId, target: NodeId)
    ensures Nearer(a, b, target) <==> Less(Distance(a, target), Distance(b, target))
  {
  }

  lemma {:induction false} NearerTransitive(a: NodeId, b: NodeId, c: NodeId, target: NodeId)
    requires Nearer(a, b, target) && Nearer(b, c, target)
    ensures Nearer(a, c, target)
  {
    LessTransitive(Distance(a, target), Distance(b, target), Distance(c, target));
  }

  class KademliaRoutingTable {
    const localId: NodeId
    const buckets: array<map<NodeId, PeerInfo>>

    ghost predicate Valid()
      reads this, buckets
    {
      buckets.Length == BUCKETS && TableOk(localId, buckets[..])
    }

    constructor (local: NodeId)
      ensures Valid() && fresh(buckets) && localId == local && buckets[..] == AfterUpdates(local, [])
    {
      localId := local;
      buckets := new map<NodeId, PeerInfo>[BUCKETS](_ => map[]);
    }

    /** `bucket_index`. */
    method BucketIndex(id: NodeId) returns (b: nat)
      ensures b == Bucket(localId, id)
    {
      hide Log2, Distance;
      var distance := XorDistance(localId, id);
      for i := 0 to 32
        invariant forall k :: 0 <= k < i ==> distance[k] == 0
      {
        if distance[i] != 0 {
          return i * 8 + (7 - Log2(distance[i]));
        }
      }
      return 255;
    }

    /** `update`. */
    method Update(peer: PeerInfo)
      requires Valid()
      modifies buckets
      ensures Valid() && buckets[..] == Updated(localId, old(buckets[..]), peer)
    {
      hide Bucket, TableOk;
      var index := BucketIndex(peer.id);
      UpdateKeepsTableOk(localId, buckets[..], peer);
      if |buckets[index]| < BUCKET_SIZE {
        buckets[index] := Put(buckets[index], peer);
      }
      assert buckets[..] == Updated(localId, old(buckets[..]), peer);
    }

    /** The peers of all buckets, in an order that does not matter. */
    method AllPeers() returns (peers: seq<PeerInfo>)
      requires Valid()
      ensures forall p :: p in peers <==> p in Stored(buckets[..])
      ensures forall i, j :: 0 <= i < j < |peers| ==> peers[i].id != peers[j].id
    {
      hide Bucket;
      peers := [];
      for b := 0 to BUCKETS
        invariant Listed(peers, buckets[..], b, {})
      {
        assert BucketOk(localId, buckets[..][b], b);
        var rest := buckets[b].Keys;
        while rest != {}
          invariant rest <= buckets[b].Keys
          invariant Listed(peers, buckets[..], b, buckets[b].Keys - rest)
          decreases |rest|
        {
          var id :| id in rest;
          ListedNext(localId, peers, buckets[..], b, buckets[b].Keys - rest, id);
          peers := peers + [buckets[b][id]];
          assert buckets[b].Keys - (rest - {id}) == (buckets[b].Keys - rest) + {id};
          rest := rest - {id};
        }
        assert buckets[b].Keys - rest == buckets[b].Keys;
        ListedBucket(peers, buckets[..], b);
      }
    }

    /** `find_closest`. */
    method FindClosest(target: NodeId, k: nat) returns (r: seq<PeerInfo>)
      requires Valid()
      ensures Closest(r, Stored(buckets[..]), target, k)
    {
      hide TableOk, Stored, Nearer;
      var peers := AllPeers();
      var sorted := SortByDistance(peers, target);
      SortedIsAll(sorted, Stored(buckets[..]), target);
      r := if k < |sorted| then sorted[..k] else sorted;
    }
  }

  // ---- Collecting the peers ----

  /** The peers of the buckets below `b` and of the ids `ids` of bucket `b`, each once. */
  ghost predicate Listed(peers: seq<PeerInfo>, t: Table, b: nat, ids: set<NodeId>)
    requires b <= |t|
  {
    && (forall p :: p in peers <==>
          p in Stored(t[..b]) || (b < |t| && exists id :: id in ids && id in t[b] && t[b][id] == p))
    && forall i, j :: 0 <= i < j < |peers| ==> peers[i].id != peers[j].id
  }

  lemma {:induction false} ListedNext(local: NodeId, peers: seq<PeerInfo>, t: Table, b: nat, ids: set<NodeId>,
                                      id: NodeId)
    requires TableOk(local, t) && b < |t| && ids <= t[b].Keys && id in t[b] && id !in ids && Listed(peers, t, b, ids)
    ensures Listed(peers + [t[b][id]], t, b, ids + {id})
  {
    hide Bucket;
    assert BucketOk(local, t[b], b);
    forall p | p in peers
      ensures p.id != id
    {
      if p in Stored(t[..b]) {
        var c, jd :| 0 <= c < b && jd in t[..b][c] && p == t[..b][c][jd];
        assert BucketOk(local, t[c], c);
      }
    }
  }

  lemma {:induction false} ListedBucket(peers: seq<PeerInfo>, t: Table, b: nat)
    requires b < |t| && Listed(peers, t, b, t[b].Keys)
    ensures Listed(peers, t, b + 1, {})
  {
    forall p
      ensures p in Stored(t[..b + 1]) <==> p in Stored(t[..b]) || exists id :: id in t[b].Keys && t[b][id] == p
    {
    }
  }

  /** A sorted list of all peers has as many entries as there are peers. */
  lemma {:induction false} SortedIsAll(sorted: seq<PeerInfo>, peers: set<PeerInfo>, target: NodeId)
    requires SortedByDistance(sorted, target) && forall p :: p in sorted <==> p in peers
    ensures |sorted| == |peers|
  {
    hide Nearer;
    if sorted == [] {
      assert peers == {};
    } else {
      var earlier, last := sorted[..|sorted| - 1], sorted[|sorted| - 1];
      assert sorted == earlier + [last];
      if last in earlier {
        var i :| 0 <= i < |earlier| && earlier[i] == last;
        assert Nearer(sorted[i].id, last.id, target);
        NotNearerThanItself(last.id, target);
        assert false;
      }
      SortedIsAll(earlier, peers - {last}, target);
    }
  }

  lemma {:induction false} NotNearerThanItself(a: NodeId, target: NodeId)
    ensures !Nearer(a, a, target)
  {
    if Nearer(a, a, target) {
      NearerAsymmetric(a, a, target);
    }
  }
}
