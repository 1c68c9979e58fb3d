/** Restart reconciliation order: the pending requests, oldest first, ties in acceptance order. */
module FaucetPending {
  import opened FaucetEvents
  import opened FaucetBooks

  function CreatedAt(requests: map<RequestId, Request>, id: RequestId): Time {
    if id in requests then requests[id].createdAt else ZERO_TIME
  }

  /** Places `id` behind every element created no later than it. */
  function InsertByCreated(requests: map<RequestId, Request>, sorted: seq<RequestId>, id: RequestId)
    : (r: seq<RequestId>)
    ensures multiset(r) == multiset(sorted) + multiset{id}
  {
    if sorted == [] then [id]
    else
      var front, last := sorted[..|sorted| - 1], sorted[|sorted| - 1];
      assert sorted == front + [last];
      if CreatedAt(requests, last) <= CreatedAt(requests, id) then sorted + [id]
      else InsertByCreated(requests, front, id) + [last]
  }

  /** `sort.SliceStable` by creation time. */
  function SortByCreated(requests: map<RequestId, Request>, ids: seq<RequestId>): (r: seq<RequestId>)
    ensures multiset(r) == multiset(ids)
  {
    if ids == [] then []
    else
      assert ids == ids[..|ids| - 1] + [ids[|ids| - 1]];
      InsertByCreated(requests, SortByCreated(requests, ids[..|ids| - 1]), ids[|ids| - 1])
  }

  /** The queued and submitted requests of an acceptance order. */
  function PendingOf(requests: map<RequestId, Request>, ids: seq<RequestId>): seq<RequestId> {
    if ids == [] then []
    else
      var rest, last := PendingOf(requests, ids[..|ids| - 1]), ids[|ids| - 1];
      if last in requests && requests[last].Pending() then rest + [last] else rest
  }

  /** `PendingRequests`. */
  function PendingIds(s: StoreState): seq<RequestId> {
    SortByCreated(s.requests, PendingOf(s.requests, s.order))
  }

  predicate SortedByCreated(requests: map<RequestId, Request>, ids: seq<RequestId>) {
    forall i, j :: 0 <= i < j < |ids| ==> CreatedAt(requests, ids[i]) <= CreatedAt(requests, ids[j])
  }

  lemma {:induction false} InsertKeepsSorted(requests: map<RequestId, Request>, sorted: seq<RequestId>, id: RequestId)
    requires SortedByCreated(requests, sorted)
    ensures SortedByCreated(requests, InsertByCreated(requests, sorted, id))
  {
    if sorted == [] {
    } else {
      var front, last := sorted[..|sorted| - 1], sorted[|sorted| - 1];
      if CreatedAt(requests, last) > CreatedAt(requests, id) {
        InsertKeepsSorted(requests, front, id);
        var r := InsertByCreated(requests, front, id);
        forall i | 0 <= i < |r| ensures CreatedAt(requests, r[i]) <= CreatedAt(requests, last) {
          assert r[i] in multiset(r);
          assert r[i] in front || r[i] == id;
        }
      }
    }
  }

  lemma {:induction false} SortIsSorted(requests: map<RequestId, Request>, ids: seq<RequestId>)
    ensures SortedByCreated(requests, SortByCreated(requests, ids))
  {
    if ids == [] {
    } else {
      SortIsSorted(requests, ids[..|ids| - 1]);
      InsertKeepsSorted(requests, SortByCreated(requests, ids[..|ids| - 1]), ids[|ids| - 1]);
    }
  }

  /** The members of `ids` created exactly at `at`, in order. */
  function SameInstant(requests: map<RequestId, Request>, ids: seq<RequestId>, at: Time): seq<RequestId> {
    if ids == [] then []
    else
      var rest, last := SameInstant(requests, ids[..|ids| - 1], at), ids[|ids| - 1];
      if CreatedAt(requests, last) == at then rest + [last] else rest
  }

  lemma {:induction false} InsertIsStable(requests: map<RequestId, Request>, sorted: seq<RequestId>, id: RequestId,
      at: Time)
    ensures SameInstant(requests, InsertByCreated(requests, sorted, id), at) == SameInstant(requests, sorted + [id], at)
  {
    assert (sorted + [id])[..|sorted|] == sorted;
    if sorted == [] {
    } else {
      var front, last := sorted[..|sorted| - 1], sorted[|sorted| - 1];
      if CreatedAt(requests, last) > CreatedAt(requests, id) {
        InsertIsStable(requests, front, id, at);
        assert (front + [id])[..|front|] == front;
        var r := InsertByCreated(requests, front, id);
        assert (r + [last])[..|r|] == r;
      }
    }
  }

  lemma {:induction false} SortIsStable(requests: map<RequestId, Request>, ids: seq<RequestId>, at: Time)
    ensures SameInstant(requests, SortByCreated(requests, ids), at) == SameInstant(requests, ids, at)
  {
    if ids == [] {
    } else {
      var front, last := ids[..|ids| - 1], ids[|ids| - 1];
      var sorted := SortByCreated(requests, front);
      SortIsStable(requests, front, at);
      InsertIsStable(requests, sorted, last, at);
      assert (sorted + [last])[..|sorted|] == sorted;
    }
  }

  lemma {:induction false} PendingOfContents(requests: map<RequestId, Request>, ids: seq<RequestId>, id: RequestId)
    ensures multiset(PendingOf(requests, ids))[id] ==
            if id in requests && requests[id].Pending() then multiset(ids)[id] else 0
  {
    if ids == [] {
    } else {
      assert ids == ids[..|ids| - 1] + [ids[|ids| - 1]];
      PendingOfContents(requests, ids[..|ids| - 1], id);
    }
  }

  lemma {:induction false} DistinctMultiplicity(ids: seq<RequestId>, id: RequestId)
    requires Distinct(ids)
    ensures multiset(ids)[id] <= 1
  {
    if ids == [] {
    } else {
      var front, last := ids[..|ids| - 1], ids[|ids| - 1];
      assert ids == front + [last];
      DistinctMultiplicity(front, id);
      assert last !in front;
    }
  }

  lemma {:induction false} MultiplicityDistinct(ids: seq<RequestId>)
    requires forall id :: multiset(ids)[id] <= 1
    ensures Distinct(ids)
  {
    if ids == [] {
    } else {
      var front, last := ids[..|ids| - 1], ids[|ids| - 1];
      assert ids == front + [last];
      forall id ensures multiset(front)[id] <= 1 {
        assert multiset(ids)[id] <= 1;
      }
      MultiplicityDistinct(front);
      assert multiset(ids)[last] <= 1;
      assert last !in front;
    }
  }

  /**
   Restart recovery visits every pending request exactly once, oldest first, and requests created
   at one instant in the order they were accepted.
   */
  lemma PendingRequestsOrder(s: StoreState)
    requires Balanced(s)
    ensures Distinct(PendingIds(s)) && SortedByCreated(s.requests, PendingIds(s))
    ensures forall id :: id in PendingIds(s) <==> id in s.requests && s.requests[id].Pending()
    ensures forall at :: SameInstant(s.requests, PendingIds(s), at) ==
                         SameInstant(s.requests, PendingOf(s.requests, s.order), at)
  {
    var pending := PendingOf(s.requests, s.order);
    SortIsSorted(s.requests, pending);
    forall at ensures SameInstant(s.requests, PendingIds(s), at) == SameInstant(s.requests, pending, at) {
      SortIsStable(s.requests, pending, at);
    }
    forall id ensures multiset(PendingIds(s))[id] <= 1
              ensures id in PendingIds(s) <==> id in s.requests && s.requests[id].Pending()
    {
      PendingOfContents(s.requests, s.order, id);
      DistinctMultiplicity(s.order, id);
      assert id in PendingIds(s) <==> multiset(PendingIds(s))[id] > 0;
      assert id in s.order <==> multiset(s.order)[id] > 0;
    }
    MultiplicityDistinct(PendingIds(s));
  }
}
