/** The broker's memory stays bounded, and eviction only ever removes ended records. */
module BrokerBounds {
  import opened Broker
  import opened BrokerInvariants

  // ------------------------------------------------------------- counting

  ghost function IdSet(ids: seq<nat>): set<nat> {
    set i | 0 <= i < |ids| :: ids[i]
  }

  ghost function PendingSet(requests: seq<AccessRequest>): set<nat> {
    set r | 0 <= r < |requests| && requests[r].status == Pending
  }

  ghost function SessionPendingSet(requests: seq<AccessRequest>, session: nat): set<nat> {
    set r | 0 <= r < |requests| && requests[r].status == Pending && requests[r].session == session
  }

  lemma SubsetSize(a: set<nat>, b: set<nat>)
    requires a <= b
    ensures |a| <= |b|
  {
    assert b == a + (b - a);
  }

  lemma IdSetLast(ids: seq<nat>)
    requires Increasing(ids) && ids != []
    ensures var before, last := IdSet(ids[..|ids| - 1]), ids[|ids| - 1];
            IdSet(ids) == before + {last} && last !in before
  {
  }

  /** Among a list plus one more element, a set has that element more or it does not. */
  lemma CountOneMore(found: set<nat>, before: set<nat>, last: nat)
    requires last !in before
    ensures |found * (before + {last})| == |found * before| + if last in found then 1 else 0
  {
    assert found * (before + {last}) == if last in found then found * before + {last} else found * before;
  }

  /** A list without repetitions has as many elements as its set. */
  lemma {:induction false} IdSetSize(ids: seq<nat>)
    requires Increasing(ids)
    ensures |IdSet(ids)| == |ids|
  {
    if ids != [] {
      IdSetSize(ids[..|ids| - 1]);
      IdSetLast(ids);
    }
  }

  /** The counting loop of `requestAccess` counts exactly the pending requests. */
  lemma {:induction false} PendingCounted(requests: seq<AccessRequest>, ids: seq<nat>)
    requires Within(ids, |requests|) && Increasing(ids)
    ensures PendingCount(requests, ids) == |PendingSet(requests) * IdSet(ids)|
    decreases |ids|
  {
    var found := PendingSet(requests);
    if ids == [] {
      assert found * IdSet(ids) == {};
    } else {
      var before, last := ids[..|ids| - 1], ids[|ids| - 1];
      PendingCounted(requests, before);
      IdSetLast(ids);
      CountOneMore(found, IdSet(before), last);
      assert last in found <==> requests[last].status == Pending;
    }
  }

  lemma {:induction false} SessionPendingCounted(requests: seq<AccessRequest>, ids: seq<nat>, session: nat)
    requires Within(ids, |requests|) && Increasing(ids)
    ensures SessionPendingCount(requests, ids, session) == |SessionPendingSet(requests, session) * IdSet(ids)|
    decreases |ids|
  {
    var found := SessionPendingSet(requests, session);
    if ids == [] {
      assert found * IdSet(ids) == {};
    } else {
      var before, last := ids[..|ids| - 1], ids[|ids| - 1];
      SessionPendingCounted(requests, before, session);
      IdSetLast(ids);
      CountOneMore(found, IdSet(before), last);
      assert last in found <==> requests[last].status == Pending && requests[last].session == session;
    }
  }

  /** Every pending request is recorded, so the loop's counts are the true numbers of pending requests. */
  lemma CountsAreTrue(s: Broker, session: nat)
    requires Structured(s) && Coupled(s)
    ensures PendingCount(s.requests, s.requestIds) == |PendingSet(s.requests)|
    ensures SessionPendingCount(s.requests, s.requestIds, session) == |SessionPendingSet(s.requests, session)|
  {
    PendingCounted(s.requests, s.requestIds);
    SessionPendingCounted(s.requests, s.requestIds, session);
    forall r | r in PendingSet(s.requests) ensures r in IdSet(s.requestIds) {
      assert RequestCoupled(s, r);
    }
    assert PendingSet(s.requests) * IdSet(s.requestIds) == PendingSet(s.requests);
    forall r | r in SessionPendingSet(s.requests, session) ensures r in IdSet(s.requestIds) {
      assert r in PendingSet(s.requests);
    }
    assert SessionPendingSet(s.requests, session) * IdSet(s.requestIds) == SessionPendingSet(s.requests, session);
  }

  // --------------------------------------------------------------- bounds

  ghost predicate Bounded(s: Broker) {
    && |s.requestIds| <= ACCESS_REQUEST_RECORD_LIMIT
    && |s.leaseIds| <= LEASE_RECORD_LIMIT
    && |PendingSet(s.requests)| <= ACCESS_PENDING_GLOBAL_LIMIT
    && (forall session: nat :: |SessionPendingSet(s.requests, session)| <= ACCESS_PENDING_PER_SESSION_LIMIT)
  }

  /** A step after which no request is newly pending and neither map has grown. */
  lemma ShrinkKeepsBounded(s: Broker, after: Broker)
    requires Bounded(s)
    requires |after.requests| == |s.requests| && |after.requestIds| <= |s.requestIds|
    requires |after.leaseIds| <= |s.leaseIds| || |after.leaseIds| <= LEASE_RECORD_LIMIT
    requires forall r | 0 <= r < |s.requests| ::
               after.requests[r].session == s.requests[r].session
               && (after.requests[r].status == Pending ==> s.requests[r].status == Pending)
    ensures Bounded(after)
  {
    SubsetSize(PendingSet(after.requests), PendingSet(s.requests));
    forall session: nat ensures |SessionPendingSet(after.requests, session)| <= ACCESS_PENDING_PER_SESSION_LIMIT {
      SubsetSize(SessionPendingSet(after.requests, session), SessionPendingSet(s.requests, session));
    }
  }

  lemma AddRequestKeepsBounded(s: Broker, request: AccessRequest)
    requires Bounded(s) && |s.requestIds| < ACCESS_REQUEST_RECORD_LIMIT
    requires |PendingSet(s.requests)| < ACCESS_PENDING_GLOBAL_LIMIT
    requires |SessionPendingSet(s.requests, request.session)| < ACCESS_PENDING_PER_SESSION_LIMIT
    ensures Bounded(AddRequest(s, request))
  {
    var after := AddRequest(s, request);
    var added := |s.requests|;
    SubsetSize(PendingSet(after.requests), PendingSet(s.requests) + {added});
    hide PendingSet;
    forall session: nat ensures |SessionPendingSet(after.requests, session)| <= ACCESS_PENDING_PER_SESSION_LIMIT {
      var before := SessionPendingSet(s.requests, session);
      SubsetSize(SessionPendingSet(after.requests, session), if session == request.session then before + {added} else before);
    }
  }

  // ------------------------------------------------------------- eviction

  ghost predicate SortedBy(ids: seq<nat>, keys: seq<int>)
    requires Within(ids, |keys|)
  {
    forall i, j | 0 <= i <= j < |ids| :: keys[ids[i]] <= keys[ids[j]]
  }

  lemma {:induction false} InsertSorts(ids: seq<nat>, id: nat, keys: seq<int>)
    requires id < |keys| && Within(ids, |keys|) && SortedBy(ids, keys)
    ensures Within(InsertBy(ids, id, keys), |keys|) && SortedBy(InsertBy(ids, id, keys), keys)
  {
    InsertKeeps(ids, id, keys);
    if ids == [] || keys[id] < keys[ids[0]] {
    } else {
      var rest := InsertBy(ids[1..], id, keys);
      InsertSorts(ids[1..], id, keys);
      InsertKeeps(ids[1..], id, keys);
      forall i | 0 <= i < |rest| ensures keys[ids[0]] <= keys[rest[i]] {
        assert rest[i] in rest;
      }
    }
  }

  lemma {:induction false} SortSorts(ids: seq<nat>, keys: seq<int>)
    requires Within(ids, |keys|)
    ensures SortedBy(SortBy(ids, keys), keys)
  {
    if ids != [] {
      SortSorts(ids[..|ids| - 1], keys);
      InsertSorts(SortBy(ids[..|ids| - 1], keys), ids[|ids| - 1], keys);
    }
  }

  /** Deleting an entry that occurs once shortens the list by one and keeps the order of the rest. */
  lemma {:induction false} WithoutOne(ids: seq<nat>, id: nat)
    requires Increasing(ids)
    ensures Increasing(Without(ids, id))
    ensures forall i :: i in Without(ids, id) <==> i in ids && i != id
    ensures |Without(ids, id)| == if id in ids then |ids| - 1 else |ids|
  {
    if ids != [] {
      var rest := ids[1..];
      WithoutOne(rest, id);
      assert ids == [ids[0]] + rest;
      forall i | 0 <= i < |Without(rest, id)| ensures ids[0] < Without(rest, id)[i] {
        assert Without(rest, id)[i] in rest;
      }
    }
  }

  /** A map at its limit loses exactly the first victim, if there is one. */
  lemma EvictsFirst(ids: seq<nat>, victims: seq<nat>, limit: nat)
    requires Increasing(ids) && |ids| <= limit
    requires forall v | v in victims :: v in ids
    ensures var (kept, room) := Evict(ids, victims, limit);
            if victims == [] then kept == ids && !room else kept == Without(ids, victims[0]) && room
  {
    if victims != [] {
      assert victims[0] in victims;
      WithoutOne(ids, victims[0]);
    }
  }

  /** Of the recorded requests that are no longer pending, the one that ended first; of equal times, the older record. */
  ghost predicate FirstEnded(s: Broker, victim: nat)
    requires IdsInHeap(s)
  {
    && victim in s.requestIds && s.requests[victim].status != Pending
    && forall r | r in s.requestIds && s.requests[r].status != Pending && r != victim ::
         var one, other := TerminalTime(s.requests[victim]), TerminalTime(s.requests[r]);
         one < other || (one == other && victim < r)
  }

  /** Of the revoked leases still recorded this one was revoked first, and of those revoked at once granted first. */
  ghost predicate FirstRevoked(s: Broker, victim: nat)
    requires IdsInHeap(s)
  {
    && victim in s.leaseIds && s.leases[victim].revokedAt.Some?
    && forall l | l in s.leaseIds && s.leases[l].revokedAt.Some? && l != victim ::
         var one, other := s.leases[victim].revokedAt.value, s.leases[l].revokedAt.value;
         one < other || (one == other && victim < l)
  }

  /** The stable sort puts first the entry with the least key, and of equal keys the least identifier. */
  lemma {:induction false} SortFirst(ids: seq<nat>, keys: seq<int>, r: nat)
    requires Within(ids, |keys|) && Increasing(ids) && r in ids
    ensures var sorted := SortBy(ids, keys);
            && sorted != [] && sorted[0] in ids
            && (sorted[0] == r || keys[sorted[0]] < keys[r] || (keys[sorted[0]] == keys[r] && sorted[0] < r))
  {
    var last := |ids| - 1;
    assert r == ids[last] || r in ids[..last];
    if last > 0 {
      SortFirst(ids[..last], keys, if r == ids[last] then ids[0] else r);
    }
  }

  lemma {:induction false} NonPendingIncrease(requests: seq<AccessRequest>, ids: seq<nat>)
    requires Increasing(ids) && Within(ids, |requests|)
    ensures Increasing(NonPending(requests, ids))
    decreases |ids|
  {
    if ids != [] {
      var found := NonPending(requests, ids[1..]);
      NonPendingIncrease(requests, ids[1..]);
      forall i | 0 <= i < |found| ensures ids[0] < found[i] {
        assert found[i] in ids[1..];
      }
    }
  }

  lemma {:induction false} RevokedIncrease(leases: seq<Lease>, ids: seq<nat>)
    requires Increasing(ids) && Within(ids, |leases|)
    ensures Increasing(RevokedOnly(leases, ids))
    decreases |ids|
  {
    if ids != [] {
      var found := RevokedOnly(leases, ids[1..]);
      RevokedIncrease(leases, ids[1..]);
      forall i | 0 <= i < |found| ensures ids[0] < found[i] {
        assert found[i] in ids[1..];
      }
    }
  }

  /** A full map holds an ended request, because fewer requests than that may be pending. */
  lemma FullHoldsEnded(s: Broker)
    requires Structured(s) && Bounded(s) && |s.requestIds| >= ACCESS_REQUEST_RECORD_LIMIT
    ensures NonPending(s.requests, s.requestIds) != []
  {
    var ended := NonPending(s.requests, s.requestIds);
    if ended == [] {
      forall r | r in IdSet(s.requestIds) ensures r in PendingSet(s.requests) {
        assert r !in ended;
      }
      SubsetSize(IdSet(s.requestIds), PendingSet(s.requests));
      IdSetSize(s.requestIds);
      assert false;
    }
  }

  /** Of two first ended requests one would have to come before the other. */
  lemma FirstEndedUnique(s: Broker, r: nat, q: nat)
    requires IdsInHeap(s) && FirstEnded(s, r) && FirstEnded(s, q)
    ensures r == q
  {
  }

  /**
   * The failure of `ensureAccessRequestCapacity` is unreachable: a full map always holds an ended
   * request, and making room removes just one of them, the one that ended first.
   */
  lemma RequestRoomNeverFails(s: Broker)
    requires Structured(s) && Coupled(s) && Bounded(s)
    ensures var (kept, room) := RequestRoom(s);
            && room && |kept| < ACCESS_REQUEST_RECORD_LIMIT
            && Forgets(s, kept, s.leaseIds)
            && if |s.requestIds| < ACCESS_REQUEST_RECORD_LIMIT then kept == s.requestIds
               else exists victim :: FirstEnded(s, victim) && kept == Without(s.requestIds, victim)
  {
    if |s.requestIds| >= ACCESS_REQUEST_RECORD_LIMIT {
      var ended, keys := NonPending(s.requests, s.requestIds), RequestKeys(s.requests);
      FullHoldsEnded(s);
      NonPendingIncrease(s.requests, s.requestIds);
      var victims := SortBy(ended, keys);
      assert ended[0] in victims;
      EvictsFirst(s.requestIds, victims, ACCESS_REQUEST_RECORD_LIMIT);
      var victim := victims[0];
      assert victim in victims;
      WithoutOne(s.requestIds, victim);
      forall r | r in s.requestIds && s.requests[r].status != Pending && r != victim
        ensures var one, other := TerminalTime(s.requests[victim]), TerminalTime(s.requests[r]);
                one < other || (one == other && victim < r)
      {
        SortFirst(ended, keys, r);
      }
      assert FirstEnded(s, victim);
    }
  }

  /**
   * Making room drops a recorded request exactly when the map is full and that request ended first. A
   * granted request counts as ended from the moment it was granted, so it is no exception.
   */
  lemma EvictedExactly(s: Broker, r: nat)
    requires Structured(s) && Coupled(s) && Bounded(s) && r in s.requestIds
    ensures r !in RequestRoom(s).0 <==> |s.requestIds| == ACCESS_REQUEST_RECORD_LIMIT && FirstEnded(s, r)
  {
    hide RequestRoom;
    RequestRoomNeverFails(s);
    if |s.requestIds| == ACCESS_REQUEST_RECORD_LIMIT {
      var victim :| FirstEnded(s, victim) && RequestRoom(s).0 == Without(s.requestIds, victim);
      WithoutOne(s.requestIds, victim);
      if FirstEnded(s, r) {
        FirstEndedUnique(s, r, victim);
      }
    }
  }

  /** Making room keeps every granted request exactly when the map has room or a request that is not granted ended first. */
  lemma GrantedKeptExactly(s: Broker)
    requires Structured(s) && Coupled(s) && Bounded(s)
    ensures (forall r | r in s.requestIds && s.requests[r].status == Granted :: r in RequestRoom(s).0)
            <==> |s.requestIds| < ACCESS_REQUEST_RECORD_LIMIT
                 || exists r: nat :: FirstEnded(s, r) && s.requests[r].status != Granted
  {
    hide RequestRoom;
    RequestRoomNeverFails(s);
    if |s.requestIds| == ACCESS_REQUEST_RECORD_LIMIT {
      var victim :| FirstEnded(s, victim) && RequestRoom(s).0 == Without(s.requestIds, victim);
      WithoutOne(s.requestIds, victim);
      if r: nat :| FirstEnded(s, r) && s.requests[r].status != Granted {
        FirstEndedUnique(s, r, victim);
      }
    }
  }

  /** A grant finds room exactly when the lease map is not full of unrevoked leases; in a full map the lease revoked first makes it. */
  lemma LeaseRoomExactly(s: Broker)
    requires Structured(s) && Coupled(s) && Bounded(s)
    ensures var (kept, room) := LeaseRoom(s);
            && (room <==> |s.leaseIds| < LEASE_RECORD_LIMIT || exists l :: l in s.leaseIds && s.leases[l].revokedAt.Some?)
            && (room ==> |kept| < LEASE_RECORD_LIMIT)
            && Forgets(s, s.requestIds, kept)
            && if |s.leaseIds| < LEASE_RECORD_LIMIT || !room then kept == s.leaseIds
               else exists victim :: FirstRevoked(s, victim) && kept == Without(s.leaseIds, victim)
  {
    if |s.leaseIds| >= LEASE_RECORD_LIMIT {
      var ended, keys := RevokedOnly(s.leases, s.leaseIds), LeaseKeys(s.leases);
      RevokedIncrease(s.leases, s.leaseIds);
      var victims := SortBy(ended, keys);
      EvictsFirst(s.leaseIds, victims, LEASE_RECORD_LIMIT);
      if l :| l in s.leaseIds && s.leases[l].revokedAt.Some? {
        assert l in victims;
        var victim := victims[0];
        assert victim in victims;
        WithoutOne(s.leaseIds, victim);
        forall k | k in s.leaseIds && s.leases[k].revokedAt.Some? && k != victim
          ensures var one, other := s.leases[victim].revokedAt.value, s.leases[k].revokedAt.value;
                  one < other || (one == other && victim < k)
        {
          SortFirst(ended, keys, k);
        }
        assert FirstRevoked(s, victim);
      }
    }
  }

  /** Making room drops a recorded lease exactly when the map is full and that lease was revoked first. */
  lemma LeaseEvictedExactly(s: Broker, l: nat)
    requires Structured(s) && Coupled(s) && Bounded(s) && l in s.leaseIds
    ensures l !in LeaseRoom(s).0 <==> |s.leaseIds| == LEASE_RECORD_LIMIT && FirstRevoked(s, l)
  {
    hide LeaseRoom;
    LeaseRoomExactly(s);
    var (kept, room) := LeaseRoom(s);
    if |s.leaseIds| == LEASE_RECORD_LIMIT && room {
      var victim :| FirstRevoked(s, victim) && kept == Without(s.leaseIds, victim);
      WithoutOne(s.leaseIds, victim);
      assert FirstRevoked(s, l) ==> l == victim;
    }
  }
}
