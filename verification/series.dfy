/** Hourly time series as delivered by the air-quality and weather APIs, the
    sort by time index, and the inner join on the time index. */
module Series {
  import opened Calendar

  /** One row of a series: its timestamp and the readings of that hour. */
  datatype Sample<R> = Sample(time: Timestamp, reading: R)

  function Times<R>(s: seq<Sample<R>>): set<Timestamp>
  {
    set i | 0 <= i < |s| :: s[i].time
  }

  /** Ascending by time; equal timestamps may sit next to each other. */
  predicate SortedByTime<R>(s: seq<Sample<R>>)
  {
    forall i, j :: 0 <= i < j < |s| ==> !Before(s[j].time, s[i].time)
  }

  /** No timestamp occurs twice. */
  predicate UniqueTimes<R>(s: seq<Sample<R>>)
  {
    forall i, j :: 0 <= i < j < |s| ==> s[i].time != s[j].time
  }

  /** Places `x` before the first row that is not earlier than it. */
  function Insert<R>(x: Sample<R>, s: seq<Sample<R>>): (r: seq<Sample<R>>)
    requires SortedByTime(s)
    ensures SortedByTime(r)
    ensures multiset(r) == multiset(s) + multiset{x}
  {
    if s == [] then [x]
    else if !Before(s[0].time, x.time) then
      assert forall j :: 0 <= j < |s| ==> !Before(s[j].time, x.time) by {
        forall j | 0 <= j < |s| ensures !Before(s[j].time, x.time) {
          BeforeIsStrictTotalOrder(s[j].time, s[0].time, x.time);
        }
      }
      [x] + s
    else
      var rest := Insert(x, s[1..]);
      assert s == [s[0]] + s[1..];
      assert forall j :: 0 <= j < |rest| ==> !Before(rest[j].time, s[0].time) by {
        forall j | 0 <= j < |rest| ensures !Before(rest[j].time, s[0].time) {
          assert rest[j] in multiset(rest);
          BeforeIsStrictTotalOrder(rest[j].time, s[0].time, x.time);
          if rest[j] != x {
            assert rest[j] in s[1..];
          }
        }
      }
      [s[0]] + rest
  }

  /** Stable insertion sort by time (the index sort applied to each API frame). */
  function SortByTime<R>(s: seq<Sample<R>>): (r: seq<Sample<R>>)
    ensures SortedByTime(r)
    ensures multiset(r) == multiset(s)
    ensures |r| == |s|
  {
    if s == [] then []
    else
      assert s == [s[0]] + s[1..];
      Insert(s[0], SortByTime(s[1..]))
  }

  /** A row of the joined frame: the time index and both readings. */
  function Pair<A, B>(x: Sample<A>, y: Sample<B>): Sample<(A, B)>
  {
    Sample(x.time, (x.reading, y.reading))
  }

  /** The left-hand and right-hand rows a joined row was built from. */
  function Left<A, B>(p: Sample<(A, B)>): Sample<A>
  {
    Sample(p.time, p.reading.0)
  }

  function Right<A, B>(p: Sample<(A, B)>): Sample<B>
  {
    Sample(p.time, p.reading.1)
  }

  /** The right-hand rows that share `x`'s timestamp, paired with `x`, in right order. */
  function Matches<A, B>(x: Sample<A>, r: seq<Sample<B>>): (m: seq<Sample<(A, B)>>)
    ensures forall k :: 0 <= k < |m| ==> Left(m[k]) == x && Right(m[k]) in r
    ensures forall j :: 0 <= j < |r| && r[j].time == x.time ==> Pair(x, r[j]) in m
  {
    if r == [] then []
    else
      var rest := Matches(x, r[1..]);
      assert forall j :: 1 <= j < |r| && r[j].time == x.time ==> Pair(x, r[j]) in rest by {
        forall j | 1 <= j < |r| && r[j].time == x.time ensures Pair(x, r[j]) in rest {
          assert r[j] == r[1..][j - 1];
        }
      }
      (if r[0].time == x.time then [Pair(x, r[0])] else []) + rest
  }

  /** Inner join of two frames on their time index: for each left row in
      order, every right row with the same timestamp, in right order. Every
      joined row comes from a left row and a right row of its own timestamp,
      and every such pair of rows is joined. */
  function Join<A, B>(l: seq<Sample<A>>, r: seq<Sample<B>>): (j: seq<Sample<(A, B)>>)
    ensures forall k :: 0 <= k < |j| ==> Left(j[k]) in l && Right(j[k]) in r
    ensures forall a, b :: 0 <= a < |l| && 0 <= b < |r| && l[a].time == r[b].time ==> Pair(l[a], r[b]) in j
  {
    if l == [] then []
    else
      var rest := Join(l[1..], r);
      assert forall a, b :: 1 <= a < |l| && 0 <= b < |r| && l[a].time == r[b].time ==> Pair(l[a], r[b]) in rest by {
        forall a, b | 1 <= a < |l| && 0 <= b < |r| && l[a].time == r[b].time
          ensures Pair(l[a], r[b]) in rest
        {
          assert l[a] == l[1..][a - 1];
        }
      }
      Matches(l[0], r) + rest
  }

  /** The joined frame holds exactly the timestamps present in both frames. */
  lemma JoinTimes<A, B>(l: seq<Sample<A>>, r: seq<Sample<B>>)
    ensures Times(Join(l, r)) == Times(l) * Times(r)
  {
    var j := Join(l, r);
    forall t | t in Times(l) * Times(r) ensures t in Times(j) {
      var a :| 0 <= a < |l| && l[a].time == t;
      var b :| 0 <= b < |r| && r[b].time == t;
      var k :| 0 <= k < |j| && j[k] == Pair(l[a], r[b]);
    }
    forall t | t in Times(j) ensures t in Times(l) * Times(r) {
      var k :| 0 <= k < |j| && j[k].time == t;
      var a :| 0 <= a < |l| && l[a] == Left(j[k]);
      var b :| 0 <= b < |r| && r[b] == Right(j[k]);
    }
  }

  /** Joining keeps the left frame's time order. */
  lemma {:induction false} JoinSorted<A, B>(l: seq<Sample<A>>, r: seq<Sample<B>>)
    requires SortedByTime(l)
    ensures SortedByTime(Join(l, r))
  {
    if l != [] {
      JoinSorted(l[1..], r);
      var rest := Join(l[1..], r);
      forall k | 0 <= k < |rest| ensures !Before(rest[k].time, l[0].time) {
        var a :| 0 <= a < |l[1..]| && l[1..][a] == Left(rest[k]);
        assert l[1..][a] == l[a + 1];
      }
    }
  }

  /** Two frames without repeated hours join into a frame without repeated hours. */
  lemma {:induction false} JoinUnique<A, B>(l: seq<Sample<A>>, r: seq<Sample<B>>)
    requires UniqueTimes(l) && UniqueTimes(r)
    ensures UniqueTimes(Join(l, r))
  {
    if l != [] {
      JoinUnique(l[1..], r);
      var rest := Join(l[1..], r);
      MatchesAtMostOne(l[0], r);
      forall k | 0 <= k < |rest| ensures rest[k].time != l[0].time {
        var a :| 0 <= a < |l[1..]| && l[1..][a] == Left(rest[k]);
        assert l[1..][a] == l[a + 1];
      }
    }
  }

  lemma {:induction false} MatchesNone<A, B>(x: Sample<A>, r: seq<Sample<B>>)
    requires forall j :: 0 <= j < |r| ==> r[j].time != x.time
    ensures Matches(x, r) == []
  {
    if r != [] {
      MatchesNone(x, r[1..]);
    }
  }

  lemma {:induction false} MatchesAtMostOne<A, B>(x: Sample<A>, r: seq<Sample<B>>)
    requires UniqueTimes(r)
    ensures |Matches(x, r)| <= 1
  {
    if r != [] {
      MatchesAtMostOne(x, r[1..]);
      if r[0].time == x.time {
        MatchesNone(x, r[1..]);
      }
    }
  }

  /** Times and uniqueness of a frame with one row put in front. */
  lemma TimesCons<R>(x: Sample<R>, s: seq<Sample<R>>)
    ensures Times([x] + s) == {x.time} + Times(s)
    ensures UniqueTimes([x] + s) <==> x.time !in Times(s) && UniqueTimes(s)
  {
    var c := [x] + s;
    assert c[0] == x;
    forall t | t in Times(c) ensures t in {x.time} + Times(s) {
      var i :| 0 <= i < |c| && c[i].time == t;
      if i > 0 { assert s[i - 1] == c[i]; }
    }
    forall t | t in Times(s) ensures t in Times(c) {
      var i :| 0 <= i < |s| && s[i].time == t;
      assert c[i + 1] == s[i];
    }
    if UniqueTimes(c) {
      forall i, j | 0 <= i < j < |s| ensures s[i].time != s[j].time {
        assert c[i + 1] == s[i] && c[j + 1] == s[j];
      }
      forall k | 0 <= k < |s| ensures s[k].time != x.time {
        assert c[k + 1] == s[k];
        assert c[0].time != c[k + 1].time;
      }
    }
    if x.time !in Times(s) && UniqueTimes(s) {
      forall i, j | 0 <= i < j < |c| ensures c[i].time != c[j].time {
        assert c[j] == s[j - 1];
        if i > 0 { assert c[i] == s[i - 1]; }
      }
    }
  }

  /** A frame without repeated hours has as many hours as rows. */
  lemma {:induction false} UniqueTimesCount<R>(s: seq<Sample<R>>)
    requires UniqueTimes(s)
    ensures |Times(s)| == |s|
  {
    if s != [] {
      assert s == [s[0]] + s[1..];
      TimesCons(s[0], s[1..]);
      UniqueTimesCount(s[1..]);
    }
  }

  lemma {:induction false} InsertTimes<R>(x: Sample<R>, s: seq<Sample<R>>)
    requires SortedByTime(s)
    ensures Times(Insert(x, s)) == Times(s) + {x.time}
    ensures UniqueTimes(s) && x.time !in Times(s) ==> UniqueTimes(Insert(x, s))
  {
    if s == [] {
      assert Insert(x, s) == [x] + s;
      TimesCons(x, s);
    } else if !Before(s[0].time, x.time) {
      TimesCons(x, s);
    } else {
      assert s == [s[0]] + s[1..];
      TimesCons(s[0], s[1..]);
      InsertTimes(x, s[1..]);
      TimesCons(s[0], Insert(x, s[1..]));
    }
  }

  /** Sorting neither adds nor loses a timestamp. */
  lemma {:induction false} SortKeepsTimes<R>(s: seq<Sample<R>>)
    ensures Times(SortByTime(s)) == Times(s)
    ensures UniqueTimes(s) ==> UniqueTimes(SortByTime(s))
  {
    if s != [] {
      assert s == [s[0]] + s[1..];
      TimesCons(s[0], s[1..]);
      SortKeepsTimes(s[1..]);
      InsertTimes(s[0], SortByTime(s[1..]));
    }
  }

  /** An already ascending frame is left as it is by the sort. */
  lemma {:induction false} SortSortedIsIdentity<R>(s: seq<Sample<R>>)
    requires SortedByTime(s)
    ensures SortByTime(s) == s
  {
    if s != [] {
      SortSortedIsIdentity(s[1..]);
      assert s == [s[0]] + s[1..];
    }
  }
}
