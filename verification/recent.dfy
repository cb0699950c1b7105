/** The dashboard's orderings of the mirror (admin.js): the recent-bookings
    panel shows the five most recently created bookings from a sorted copy,
    and the all-bookings table sorts the mirror itself in place. Both sort
    with the comparator "later `created` first"; `Array.prototype.sort` is
    stable, so the order is the stable sort by `created`, descending, which
    insertion sort computes. */
module Recent {
  import opened Records

  /** Later `created` first. */
  predicate SortedByCreated(s: seq<Booking>) {
    forall i, j | 0 <= i < j < |s| :: s[i].created >= s[j].created
  }

  /** Puts `x` before the first entry not later than it; `x` came before all
      of `s`, so ties keep their original order. */
  function Insert(x: Booking, s: seq<Booking>): (r: seq<Booking>)
    ensures multiset(r) == multiset(s) + multiset{x}
    ensures |r| == |s| + 1
  {
    if |s| == 0 || x.created >= s[0].created then [x] + s
    else
      assert s == [s[0]] + s[1..];
      [s[0]] + Insert(x, s[1..])
  }

  /** No entry of `s` was created after `c`. */
  predicate NoneLaterThan(s: seq<Booking>, c: int) {
    forall i | 0 <= i < |s| :: s[i].created <= c
  }

  lemma {:induction false} InsertBound(x: Booking, s: seq<Booking>, c: int)
    requires NoneLaterThan(s, c) && x.created <= c
    ensures NoneLaterThan(Insert(x, s), c)
  {
    if |s| > 0 && x.created < s[0].created {
      InsertBound(x, s[1..], c);
      var t := Insert(x, s[1..]);
      assert forall i | 1 <= i < |t| + 1 :: ([s[0]] + t)[i] == t[i - 1];
    }
  }

  lemma SortedCons(y: Booking, t: seq<Booking>)
    requires SortedByCreated(t) && NoneLaterThan(t, y.created)
    ensures SortedByCreated([y] + t)
  {
    forall i, j | 0 <= i < j < |[y] + t|
      ensures ([y] + t)[i].created >= ([y] + t)[j].created
    {
      assert ([y] + t)[j] == t[j - 1];
      if i > 0 {
        assert ([y] + t)[i] == t[i - 1];
      }
    }
  }

  lemma SortedTail(s: seq<Booking>)
    requires SortedByCreated(s) && |s| > 0
    ensures SortedByCreated(s[1..]) && NoneLaterThan(s[1..], s[0].created)
  {
    forall i, j | 0 <= i < j < |s[1..]|
      ensures s[1..][i].created >= s[1..][j].created
    {
      assert s[1..][i] == s[i + 1] && s[1..][j] == s[j + 1];
    }
    forall i | 0 <= i < |s[1..]|
      ensures s[1..][i].created <= s[0].created
    {
      assert s[1..][i] == s[i + 1];
    }
  }

  lemma {:induction false} InsertSorted(x: Booking, s: seq<Booking>)
    requires SortedByCreated(s)
    ensures SortedByCreated(Insert(x, s))
  {
    if |s| == 0 || x.created >= s[0].created {
      if |s| > 0 {
        SortedTail(s);
        assert NoneLaterThan(s, x.created) by {
          forall i | 0 <= i < |s|
            ensures s[i].created <= x.created
          {
            if i > 0 {
              assert s[1..][i - 1] == s[i];
            }
          }
        }
      }
      SortedCons(x, s);
    } else {
      SortedTail(s);
      InsertSorted(x, s[1..]);
      InsertBound(x, s[1..], s[0].created);
      SortedCons(s[0], Insert(x, s[1..]));
    }
  }

  /** The stable sort by `created`, later first. */
  function SortByCreated(m: seq<Booking>): seq<Booking>
    decreases |m|
  {
    if |m| == 0 then [] else Insert(m[0], SortByCreated(m[1..]))
  }

  lemma MultisetOfHead(m: seq<Booking>)
    requires |m| > 0
    ensures multiset(m) == multiset(m[1..]) + multiset{m[0]}
  {
    assert m == [m[0]] + m[1..];
  }

  /** The sort is a permutation of its input, in order. */
  lemma {:induction false} SortByCreatedCorrect(m: seq<Booking>)
    ensures SortedByCreated(SortByCreated(m))
    ensures multiset(SortByCreated(m)) == multiset(m)
    ensures |SortByCreated(m)| == |m|
    decreases |m|
  {
    if |m| > 0 {
      SortByCreatedCorrect(m[1..]);
      InsertSorted(m[0], SortByCreated(m[1..]));
      MultisetOfHead(m);
    }
  }

  /** The entries of `s` created at `c`, in their order in `s`. */
  function Ties(s: seq<Booking>, c: int): seq<Booking>
    decreases |s|
  {
    if |s| == 0 then [] else (if s[0].created == c then [s[0]] else []) + Ties(s[1..], c)
  }

  lemma TiesCons(x: Booking, s: seq<Booking>, c: int)
    ensures Ties([x] + s, c) == (if x.created == c then [x] else []) + Ties(s, c)
  {
    assert ([x] + s)[0] == x && ([x] + s)[1..] == s;
  }

  /** Inserting `x` puts it ahead of every entry of `s` created at the same
      time and leaves the order among the others alone. */
  lemma {:induction false} InsertTies(x: Booking, s: seq<Booking>, c: int)
    ensures Ties(Insert(x, s), c) == (if x.created == c then [x] else []) + Ties(s, c)
    decreases |s|
  {
    if |s| == 0 || x.created >= s[0].created {
      TiesCons(x, s, c);
    } else {
      var rest := Insert(x, s[1..]);
      assert Insert(x, s) == [s[0]] + rest;
      InsertTies(x, s[1..], c);
      TiesCons(s[0], rest, c);
      assert s == [s[0]] + s[1..];
      TiesCons(s[0], s[1..], c);
      var t := Ties(s[1..], c);
      if x.created == c {
        assert s[0].created != c;
        assert Ties(s, c) == t;
        assert Ties(Insert(x, s), c) == [x] + t;
      } else {
        assert Ties(Insert(x, s), c) == Ties(s, c);
      }
    }
  }

  /** The sort is stable: for every instant, the entries created then come
      out in the order they had in the mirror. */
  lemma {:induction false} SortIsStable(m: seq<Booking>, c: int)
    ensures Ties(SortByCreated(m), c) == Ties(m, c)
    decreases |m|
  {
    if |m| > 0 {
      SortIsStable(m[1..], c);
      InsertTies(m[0], SortByCreated(m[1..]), c);
    }
  }

  /** Sorting what is already in order changes nothing. */
  lemma {:induction false} SortSortedIsIdentity(m: seq<Booking>)
    requires SortedByCreated(m)
    ensures SortByCreated(m) == m
    decreases |m|
  {
    if |m| > 0 {
      assert SortedByCreated(m[1..]) by {
        forall i, j | 0 <= i < j < |m[1..]|
          ensures m[1..][i].created >= m[1..][j].created
        {
          assert m[1..][i] == m[i + 1] && m[1..][j] == m[j + 1];
        }
      }
      SortSortedIsIdentity(m[1..]);
      assert m == [m[0]] + m[1..];
    }
  }

  function Min(a: nat, b: nat): nat {
    if a <= b then a else b
  }

  /** `[...bookings].sort(...).slice(0, 5)`: the mirror itself is not
      touched. */
  function RecentBookings(m: seq<Booking>): seq<Booking> {
    var sorted := SortByCreated(m);
    SortByCreatedCorrect(m);
    sorted[..Min(5, |m|)]
  }

  /** `bookings.sort(...)` in `renderAllBookings`: the mirror is reordered in
      place. */
  function RenderAllBookings(m: seq<Booking>): seq<Booking> {
    SortByCreated(m)
  }

  /** In a sorted sequence, nothing after position `n` is later than
      anything before it. */
  lemma SortedPrefixDominates(sorted: seq<Booking>, n: nat)
    requires SortedByCreated(sorted) && n <= |sorted|
    ensures forall b: Booking | b in multiset(sorted[n..]) :: NoneLaterThanAll(b, sorted[..n])
  {
    forall b: Booking | b in multiset(sorted[n..])
      ensures NoneLaterThanAll(b, sorted[..n])
    {
      var i :| 0 <= i < |sorted[n..]| && sorted[n..][i] == b;
      assert sorted[n + i] == b;
      forall j | 0 <= j < n
        ensures b.created <= sorted[..n][j].created
      {
        assert sorted[..n][j] == sorted[j];
      }
    }
  }

  /** `b` was not created after any entry of `r`. */
  predicate NoneLaterThanAll(b: Booking, r: seq<Booking>) {
    forall j | 0 <= j < |r| :: b.created <= r[j].created
  }

  lemma MultisetOfSplit(s: seq<Booking>, n: nat)
    requires n <= |s|
    ensures multiset(s) - multiset(s[..n]) == multiset(s[n..])
    ensures multiset(s[..n]) <= multiset(s)
  {
    assert s == s[..n] + s[n..];
  }

  /** The panel holds min(5, n) mirror entries, later first, and nothing it
      leaves out was created later than anything it shows. */
  lemma RecentCorrect(m: seq<Booking>)
    ensures var r := RecentBookings(m);
      && |r| == Min(5, |m|)
      && SortedByCreated(r)
      && multiset(r) <= multiset(m)
      && forall b: Booking | b in multiset(m) - multiset(r) :: NoneLaterThanAll(b, r)
  {
    SortByCreatedCorrect(m);
    var sorted := SortByCreated(m);
    var n := Min(5, |m|);
    MultisetOfSplit(sorted, n);
    SortedPrefixDominates(sorted, n);
    assert SortedByCreated(sorted[..n]) by {
      forall i, j | 0 <= i < j < n
        ensures sorted[..n][i].created >= sorted[..n][j].created
      {
        assert sorted[..n][i] == sorted[i] && sorted[..n][j] == sorted[j];
      }
    }
  }

  /** The all-bookings table reorders the mirror into a permutation of
      itself, later first, and the recent panel computed afterwards shows
      the same five bookings as before. */
  lemma RenderAllKeepsRecent(m: seq<Booking>)
    ensures multiset(RenderAllBookings(m)) == multiset(m)
    ensures SortedByCreated(RenderAllBookings(m))
    ensures RecentBookings(RenderAllBookings(m)) == RecentBookings(m)
  {
    SortByCreatedCorrect(m);
    SortSortedIsIdentity(SortByCreated(m));
  }
}
