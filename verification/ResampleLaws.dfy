/** What resampled bars hold: which minutes, which prices, in which order (src/spy_der/features/resample.py). */
module ResampleLaws {
  import opened RealSeqs
  import opened Resample

  // ----- Buckets -----

  /** The session open of the bar's date, on the same clock. */
  function OpenOf(t: Stamp): Stamp { t - t % 1440 + 570 }

  /** An intraday bucket is the stretch of its length that holds the bar and is a whole number of lengths
      from 09:30 of the bar's date; a daily bucket is the date. */
  lemma BucketIsTheStretchAround(t: Stamp, minutes: int, s: Stamp)
    requires minutes >= 1
    ensures s == BucketStart(t, minutes)
       <==> if minutes >= 1440 then s <= t < s + 1440 && s % 1440 == 0
            else s <= t < s + minutes && (s - OpenOf(t)) % minutes == 0
  {
    var midnight := DateOf(t) * 1440;
    if minutes >= 1440 {
      if s <= t < s + 1440 && s % 1440 == 0 { SameStretch(s / 1440, t, 1440); }
    } else {
      var c := (MinuteOf(t) - 570) / minutes;
      FloorBounds(MinuteOf(t) - 570, minutes);
      IsMultiple(c, minutes);
      assert BucketStart(t, minutes) - OpenOf(t) == c * minutes;
      if s <= t < s + minutes && (s - OpenOf(t)) % minutes == 0 {
        SameStretch((s - OpenOf(t)) / minutes, t - OpenOf(t), minutes);
      }
    }
  }

  lemma IsMultiple(c: int, m: int)
    requires m >= 1
    ensures (c * m) % m == 0
  {
    QuotientIs(c * m, m, c);
  }

  lemma SameStretch(c: int, x: int, m: int)
    requires m >= 1 && c * m <= x < c * m + m
    ensures x / m == c
  {
    QuotientIs(x, m, c);
  }

  ghost predicate MultipleBetween(x: int, y: int, m: int, k: int) { x < k * m <= y }

  ghost predicate NoMultipleBetween(x: int, y: int, m: int) { forall k: int :: !MultipleBetween(x, y, m, k) }

  lemma SameFloor(x: int, y: int, m: int)
    requires m >= 1 && x <= y
    ensures x / m == y / m <==> NoMultipleBetween(x, y, m)
  {
    FloorBounds(x, m);
    FloorBounds(y, m);
    var c, d := x / m, y / m;
    if c == d {
      forall k: int ensures !MultipleBetween(x, y, m, k) {
        if k <= c { Scale(k, c, m); } else { NextMultiple(c, k, m); }
      }
    } else {
      if d < c { NextMultiple(d, c, m); }
      NextMultiple(c, d, m);
      assert MultipleBetween(x, y, m, d);
    }
  }

  lemma NextMultiple(c: int, k: int, m: int)
    requires m >= 1 && c < k
    ensures c * m + m <= k * m
  {
    Scale(c + 1, k, m);
    assert (c + 1) * m == c * m + m;
  }

  /** Two bars share an intraday bucket exactly when they are of one date and no bucket boundary, a whole number
      of lengths from 09:30 of that date, lies after the one and not after the other. */
  lemma SharedBucketExactly(t: Stamp, u: Stamp, minutes: int)
    requires 1 <= minutes < 1440 && t <= u
    ensures BucketKey(t, minutes) == BucketKey(u, minutes)
       <==> DateOf(t) == DateOf(u) && NoMultipleBetween(t - OpenOf(t), u - OpenOf(t), minutes)
  {
    if DateOf(t) == DateOf(u) {
      SinceOpen(t);
      SinceOpen(u);
      SameFloor(t - OpenOf(t), u - OpenOf(t), minutes);
    }
  }

  lemma SinceOpen(t: Stamp)
    ensures MinuteOf(t) - SESSION_OPEN_MINUTE == t - OpenOf(t) && OpenOf(t) == DateOf(t) * 1440 + 570
  {
  }

  // ----- The bars of a bucket -----

  /** Buckets collect their bars in input order, however the input is cut. */
  lemma {:induction false} MembersConcatenate(a: seq<Bar>, b: seq<Bar>, minutes: int, key: Key)
    requires minutes >= 1
    ensures Members(a + b, minutes, key) == Members(a, minutes, key) + Members(b, minutes, key)
  {
    if b == [] {
      assert a + b == a;
    } else {
      var front, last := b[..|b| - 1], b[|b| - 1];
      assert a + b == (a + front) + [last];
      assert (a + b)[..|a + b| - 1] == a + front;
      MembersConcatenate(a, front, minutes, key);
    }
  }

  /** Volumes add up however the bars are cut. */
  lemma {:induction false} VolumesAddUp(a: seq<Bar>, b: seq<Bar>)
    ensures TotalVolume(a + b) == TotalVolume(a) + TotalVolume(b)
    ensures |b| == 1 ==> TotalVolume(b) == b[0].volume
  {
    if b == [] {
      assert a + b == a;
    } else {
      assert (a + b)[..|a + b| - 1] == a + b[..|b| - 1];
      VolumesAddUp(a, b[..|b| - 1]);
    }
  }

  /** A bar of some bars spans exactly their prices: it opens with the first, closes with the last, no bar reaches
      outside its high and low, and both are reached. */
  lemma {:induction false} BarSpansItsBars(w: seq<Bar>, minutes: int)
    requires w != [] && minutes >= 1
    ensures var a := Aggregate(w, minutes);
      && a.open == w[0].open && a.close == w[|w| - 1].close
      && (forall b :: b in w ==> a.low <= b.low && b.high <= a.high)
      && (exists b :: b in w && b.low == a.low) && exists b :: b in w && b.high == a.high
  {
    hide BucketStart;
    var front, last := w[..|w| - 1], w[|w| - 1];
    assert w == front + [last];
    assert last in w;
    if front != [] { BarSpansItsBars(front, minutes); }
  }

  // ----- The sort by time -----

  function At(s: seq<Bar>, t: Stamp): seq<Bar> {
    if s == [] then []
    else At(s[..|s| - 1], t) + if s[|s| - 1].timestamp == t then [s[|s| - 1]] else []
  }

  lemma AtExtends(s: seq<Bar>, b: Bar, t: Stamp)
    ensures At(s + [b], t) == At(s, t) + if b.timestamp == t then [b] else []
  {
    assert (s + [b])[..|s|] == s;
  }

  lemma {:induction false} InsertKeepsBars(b: Bar, s: seq<Bar>)
    ensures multiset(InsertByTime(b, s)) == multiset(s + [b])
  {
    if s != [] && s[|s| - 1].timestamp > b.timestamp {
      var front, last := s[..|s| - 1], s[|s| - 1];
      InsertKeepsBars(b, front);
      assert s == front + [last];
    }
  }

  lemma {:induction false} InsertKeepsOrder(b: Bar, s: seq<Bar>)
    requires InOrder(s)
    ensures InOrder(InsertByTime(b, s))
  {
    if s != [] && s[|s| - 1].timestamp > b.timestamp {
      var front, last := s[..|s| - 1], s[|s| - 1];
      InsertKeepsOrder(b, front);
      forall x | x in InsertByTime(b, front) ensures x.timestamp <= last.timestamp { InsertedFrom(b, front, x); }
      OrderExtends(InsertByTime(b, front), last);
    }
  }

  lemma InsertedFrom(b: Bar, s: seq<Bar>, x: Bar)
    requires x in InsertByTime(b, s)
    ensures x == b || x in s
  {
    InsertKeepsBars(b, s);
    assert x in multiset(s + [b]);
  }

  lemma OrderExtends(s: seq<Bar>, last: Bar)
    requires InOrder(s) && forall x :: x in s ==> x.timestamp <= last.timestamp
    ensures InOrder(s + [last])
  {
    assert forall i :: 0 <= i < |s| ==> s[i] in s;
  }

  lemma OtherTimesCommute(s: seq<Bar>, a: Bar, b: Bar, t: Stamp)
    requires a.timestamp != b.timestamp
    ensures At(s + [a] + [b], t) == At(s + [b] + [a], t)
  {
    AtExtends(s + [a], b, t);
    AtExtends(s + [b], a, t);
    AtExtends(s, a, t);
    AtExtends(s, b, t);
  }

  lemma {:induction false} InsertKeepsTies(b: Bar, s: seq<Bar>, t: Stamp)
    ensures At(InsertByTime(b, s), t) == At(s + [b], t)
  {
    hide At;
    if s == [] {
      assert s + [b] == [b];
    } else if s[|s| - 1].timestamp > b.timestamp {
      var front, last := s[..|s| - 1], s[|s| - 1];
      assert s == front + [last];
      InsertKeepsTies(b, front, t);
      AtExtends(InsertByTime(b, front), last, t);
      AtExtends(front + [b], last, t);
      OtherTimesCommute(front, b, last, t);
    }
  }

  /** The output is in time order, holds the same bars, and bars of one time stay in their order. */
  lemma {:induction false} SortIsStable(s: seq<Bar>, t: Stamp)
    ensures InOrder(SortByTime(s)) && multiset(SortByTime(s)) == multiset(s)
    ensures At(SortByTime(s), t) == At(s, t)
  {
    if s != [] {
      var front, last := s[..|s| - 1], s[|s| - 1];
      assert s == front + [last];
      SortIsStable(front, t);
      InsertKeepsOrder(last, SortByTime(front));
      InsertKeepsBars(last, SortByTime(front));
      InsertKeepsTies(last, SortByTime(front), t);
      AtExtends(SortByTime(front), last, t);
      AtExtends(front, last, t);
    }
  }

  /** So beyond one minute the output is in time order and holds the bars of the buckets, for any input. */
  lemma ResampledIsOrderedBars(bars: seq<Bar>, minutes: int)
    requires minutes > 1
    ensures InOrder(Resampled(bars, minutes))
    ensures multiset(Resampled(bars, minutes)) == multiset(Grouped(bars, minutes))
    ensures forall key :: key in Keys(bars, minutes) ==>
      Members(bars, minutes, key) != [] && Aggregate(Members(bars, minutes, key), minutes) in Resampled(bars, minutes)
  {
    hide Keys, Members, Aggregate;
    SortIsStable(Grouped(bars, minutes), 0);
    forall key | key in Keys(bars, minutes)
      ensures Members(bars, minutes, key) != []
      ensures Aggregate(Members(bars, minutes, key), minutes) in Resampled(bars, minutes)
    {
      MembersExist(bars, minutes, key);
      var i :| 0 <= i < |Keys(bars, minutes)| && Keys(bars, minutes)[i] == key;
      assert Grouped(bars, minutes)[i] in multiset(Grouped(bars, minutes));
      assert Grouped(bars, minutes)[i] in multiset(Resampled(bars, minutes));
    }
  }
}
