/** The admin dashboard's copy of the bookings (admin.js): the array
    `bookings`, kept up to date by the replication subscription, changed in
    place by `updateBookingStatus`, and counted for the "pending" tile. */
module Mirror {
  import opened Base
  import opened Records

  /** No two entries share an id. */
  predicate UniqueIds(m: seq<Booking>) {
    forall i, j | 0 <= i < j < |m| :: m[i].id != m[j].id
  }

  /** Some entry has this id. */
  predicate HasId(m: seq<Booking>, id: string) {
    exists i | 0 <= i < |m| :: m[i].id == id
  }

  function FindFrom(m: seq<Booking>, id: string, i: nat): (k: int)
    requires i <= |m|
    ensures k == -1 || i <= k < |m|
    ensures k >= 0 ==> m[k].id == id && forall j | i <= j < k :: m[j].id != id
    ensures k == -1 ==> forall j | i <= j < |m| :: m[j].id != id
    decreases |m| - i
  {
    if i == |m| then -1
    else if m[i].id == id then i
    else FindFrom(m, id, i + 1)
  }

  /** `bookings.findIndex(b => b.id === id)`: the position of the first entry
      with that id, or -1. */
  function FindIndex(m: seq<Booking>, id: string): (k: int)
    ensures -1 <= k < |m|
    ensures k >= 0 ==> m[k].id == id && forall j | 0 <= j < k :: m[j].id != id
    ensures k == -1 <==> !HasId(m, id)
  {
    FindFrom(m, id, 0)
  }

  /** The first entry with `id` is at `k`. */
  lemma FindIndexIs(m: seq<Booking>, id: string, k: nat)
    requires k < |m| && m[k].id == id && forall j | 0 <= j < k :: m[j].id != id
    ensures FindIndex(m, id) == k
  {
    assert HasId(m, id);
  }

  /** The subscription callback: a missing record (`null`, as delivered for a
      removed node) is ignored; a record whose id is new is appended; otherwise
      the first entry with that id is replaced, whatever either `updatedAt`
      says. */
  function Upsert(m: seq<Booking>, rec: Option<Booking>): seq<Booking> {
    match rec
    case None => m
    case Some(b) =>
      var k := FindIndex(m, b.id);
      if k == -1 then m + [b] else m[k := b]
  }

  /** Applying records in delivery order. */
  function UpsertAll(m: seq<Booking>, recs: seq<Option<Booking>>): seq<Booking>
    decreases |recs|
  {
    if |recs| == 0 then m else UpsertAll(Upsert(m, recs[0]), recs[1..])
  }

  /** Any sequence of deliveries keeps ids unique. */
  lemma {:induction false} UpsertAllKeepsUnique(m: seq<Booking>, recs: seq<Option<Booking>>)
    requires UniqueIds(m)
    ensures UniqueIds(UpsertAll(m, recs))
    decreases |recs|
  {
    if |recs| > 0 {
      UpsertKeepsUnique(m, recs[0]);
      UpsertAllKeepsUnique(Upsert(m, recs[0]), recs[1..]);
    }
  }

  /** What `updateBookingStatus` leaves behind: the mirror and the record it
      publishes (which replication then delivers back to the subscription). */
  datatype StatusUpdate = StatusUpdate(mirror: seq<Booking>, sent: Option<Booking>)

  /** `updateBookingStatus(id, status)` at time `now`: the first entry with
      that id gets the new status and `updatedAt`; an unknown id changes
      nothing and publishes nothing. */
  function UpdateBookingStatus(m: seq<Booking>, id: string, status: string, now: int): StatusUpdate {
    var k := FindIndex(m, id);
    if k == -1 then StatusUpdate(m, None)
    else
      var b := m[k].(status := status, updatedAt := now);
      StatusUpdate(m[k := b], Some(b))
  }

  /** `bookings.filter(b => b.status === 'pending').length`. */
  function PendingCount(m: seq<Booking>): nat {
    if |m| == 0 then 0 else PendingCount(m[..|m| - 1]) + (if m[|m| - 1].status == "pending" then 1 else 0)
  }

  /** The positions of the pending entries. */
  function PendingIndices(m: seq<Booking>): set<nat> {
    set i: nat | i < |m| && m[i].status == "pending"
  }

  // ------------------------------------------------------------------ upsert

  /** The upsert changes at most one entry and adds at most one: the record
      ends up in the mirror, and every entry with another id keeps its value
      and its position. */
  lemma UpsertBounded(m: seq<Booking>, b: Booking)
    ensures var r := Upsert(m, Some(b));
      && |m| <= |r| <= |m| + 1
      && (|r| == |m| + 1 <==> !HasId(m, b.id))
      && b in r
      && forall j | 0 <= j < |m| && m[j].id != b.id :: r[j] == m[j]
  {
    var r := Upsert(m, Some(b));
    var k := FindIndex(m, b.id);
    if k == -1 {
      assert r[|m|] == b;
    } else {
      assert r[k] == b;
    }
  }

  /** With unique ids, the entry for the record's id is the record itself. */
  lemma UpsertPlacesRecord(m: seq<Booking>, b: Booking)
    requires UniqueIds(m)
    ensures var r := Upsert(m, Some(b));
      forall j | 0 <= j < |r| && r[j].id == b.id :: r[j] == b
  {
    var k := FindIndex(m, b.id);
    if k >= 0 {
      forall j | 0 <= j < |m| && j != k
        ensures m[j].id != b.id
      {
        if j < k {
        } else {
          assert m[k].id != m[j].id;
        }
      }
    }
  }

  /** The upsert keeps ids unique. */
  lemma UpsertKeepsUnique(m: seq<Booking>, rec: Option<Booking>)
    requires UniqueIds(m)
    ensures UniqueIds(Upsert(m, rec))
  {
    if rec.Some? {
      var b := rec.value;
      var k := FindIndex(m, b.id);
      var r := Upsert(m, rec);
      if k == -1 {
        forall i, j | 0 <= i < j < |r|
          ensures r[i].id != r[j].id
        {
          if j == |m| {
            assert r[i] == m[i];
          }
        }
      } else {
        UpsertPlacesRecord(m, b);
        forall i, j | 0 <= i < j < |r|
          ensures r[i].id != r[j].id
        {
          if i != k && j != k {
            assert r[i] == m[i] && r[j] == m[j];
          }
        }
      }
    }
  }

  /** Delivering the same record twice is the same as delivering it once. */
  lemma UpsertIdempotent(m: seq<Booking>, rec: Option<Booking>)
    ensures Upsert(Upsert(m, rec), rec) == Upsert(m, rec)
  {
    if rec.Some? {
      var b := rec.value;
      var k := FindIndex(m, b.id);
      var r := Upsert(m, rec);
      if k == -1 {
        assert r[|m|] == b;
        FindIndexIs(r, b.id, |m|);
      } else {
        FindIndexIs(r, b.id, k);
      }
    }
  }

  /** The last record delivered for an id wins outright, even when an earlier
      one carries a later `updatedAt`. */
  lemma LastDeliveryWins(m: seq<Booking>, b1: Booking, b2: Booking)
    requires b1.id == b2.id
    ensures Upsert(Upsert(m, Some(b1)), Some(b2)) == Upsert(m, Some(b2))
  {
    var k := FindIndex(m, b1.id);
    var r := Upsert(m, Some(b1));
    if k == -1 {
      FindIndexIs(r, b2.id, |m|);
    } else {
      FindIndexIs(r, b2.id, k);
    }
  }

  /** Two different versions of one booking delivered in opposite orders leave
      different mirrors: replicas that receive them in different orders do
      not converge. */
  lemma DeliveryOrderMatters(m: seq<Booking>, b1: Booking, b2: Booking)
    requires b1.id == b2.id && b1 != b2
    ensures Upsert(Upsert(m, Some(b1)), Some(b2)) != Upsert(Upsert(m, Some(b2)), Some(b1))
  {
    LastDeliveryWins(m, b1, b2);
    LastDeliveryWins(m, b2, b1);
    var k := FindIndex(m, b1.id);
    if k == -1 {
      assert Upsert(m, Some(b2))[|m|] == b2;
      assert Upsert(m, Some(b1))[|m|] == b1;
    } else {
      assert Upsert(m, Some(b2))[k] == b2;
      assert Upsert(m, Some(b1))[k] == b1;
    }
  }

  // ---------------------------------------------------------- status update

  /** `updateBookingStatus` changes the status and `updatedAt` of exactly the
      first entry with the id and nothing else; with an unknown id it changes
      nothing. */
  lemma UpdateOnlyTouchesTarget(m: seq<Booking>, id: string, status: string, now: int)
    ensures var u := UpdateBookingStatus(m, id, status, now);
      && |u.mirror| == |m|
      && (!HasId(m, id) ==> u.mirror == m && u.sent.None?)
      && (HasId(m, id) ==>
            var k := FindIndex(m, id);
            && u.sent == Some(u.mirror[k])
            && u.mirror[k] == m[k].(status := status, updatedAt := now)
            && forall j | 0 <= j < |m| && j != k :: u.mirror[j] == m[j])
  {
  }

  /** The published record comes back through the subscription; applying it
      changes nothing more. */
  lemma EchoIsNoOp(m: seq<Booking>, id: string, status: string, now: int)
    ensures var u := UpdateBookingStatus(m, id, status, now);
      Upsert(u.mirror, u.sent) == u.mirror
  {
    var u := UpdateBookingStatus(m, id, status, now);
    var k := FindIndex(m, id);
    if k >= 0 {
      FindIndexIs(u.mirror, id, k);
    }
  }

  /** Updates keep ids unique. */
  lemma UpdateKeepsUnique(m: seq<Booking>, id: string, status: string, now: int)
    requires UniqueIds(m)
    ensures UniqueIds(UpdateBookingStatus(m, id, status, now).mirror)
  {
    var u := UpdateBookingStatus(m, id, status, now);
    forall i, j | 0 <= i < j < |m|
      ensures u.mirror[i].id != u.mirror[j].id
    {
      assert u.mirror[i].id == m[i].id && u.mirror[j].id == m[j].id;
    }
  }

  // ------------------------------------------------------------ pending count

  /** The count is the number of positions holding a pending entry. */
  lemma {:induction false} PendingCountIsIndexCount(m: seq<Booking>)
    ensures PendingCount(m) == |PendingIndices(m)|
  {
    if |m| > 0 {
      var n := |m| - 1;
      var init := m[..n];
      PendingCountIsIndexCount(init);
      PendingIndicesSnoc(m);
      var last := if m[n].status == "pending" then {n} else {};
      assert |PendingIndices(init) + last| == |PendingIndices(init)| + |last|;
    }
  }

  /** The pending positions of a non-empty mirror are those of all but its
      last entry, plus the last position when that entry is pending. */
  lemma PendingIndicesSnoc(m: seq<Booking>)
    requires |m| > 0
    ensures var n := |m| - 1;
      && PendingIndices(m) == PendingIndices(m[..n]) + (if m[n].status == "pending" then {n} else {})
      && n !in PendingIndices(m[..n])
  {
    var n := |m| - 1;
    var init := m[..n];
    var last := if m[n].status == "pending" then {n} else {};
    forall i: nat ensures i in PendingIndices(m) <==> i in PendingIndices(init) + last {
      if i < n {
        assert init[i] == m[i];
      }
    }
  }

  /** Changing one entry changes the pending positions at most there. */
  lemma PendingElsewhere(m: seq<Booking>, r: seq<Booking>, k: nat)
    requires |r| == |m| && k < |m| && forall j | 0 <= j < |m| && j != k :: r[j] == m[j]
    ensures PendingIndices(r) - {k} == PendingIndices(m) - {k}
  {
  }

  lemma SplitOff(a: set<nat>, k: nat)
    ensures |a| == |a - {k}| + (if k in a then 1 else 0)
  {
    if k in a {
      assert a == (a - {k}) + {k};
    } else {
      assert a == a - {k};
    }
  }

  /** A status change moves the pending count by at most one, in the
      direction the change implies. */
  lemma PendingAfterUpdate(m: seq<Booking>, id: string, status: string, now: int)
    requires HasId(m, id)
    ensures var k := FindIndex(m, id);
      var before := PendingCount(m);
      var after := PendingCount(UpdateBookingStatus(m, id, status, now).mirror);
      && (m[k].status == "pending" && status != "pending" ==> after == before - 1)
      && (m[k].status != "pending" && status == "pending" ==> after == before + 1)
      && ((m[k].status == "pending") == (status == "pending") ==> after == before)
  {
    var k := FindIndex(m, id);
    var r := UpdateBookingStatus(m, id, status, now).mirror;
    PendingCountIsIndexCount(m);
    PendingCountIsIndexCount(r);
    PendingElsewhere(m, r, k);
    SplitOff(PendingIndices(m), k);
    SplitOff(PendingIndices(r), k);
    assert (k in PendingIndices(m)) == (m[k].status == "pending");
    assert (k in PendingIndices(r)) == (status == "pending");
  }
}
