/** Timeframe resampling anchored to the session open (src/spy_der/features/resample.py). */
module Resample {
  import opened RealSeqs

  const MINUTES_PER_DAY: int := 1440
  const SESSION_OPEN_MINUTE: int := 9 * 60 + 30
  const DAILY_MINUTES: int := 1440

  /** Local time in whole minutes: date * 1440 + minute of day. */
  type Stamp = int

  function DateOf(t: Stamp): int { t / MINUTES_PER_DAY }

  function MinuteOf(t: Stamp): int { t % MINUTES_PER_DAY }

  datatype Bar = Bar(timestamp: Stamp, open: real, high: real, low: real, close: real, volume: int)

  datatype Key = DailyKey(date: int) | IntradayKey(date: int, index: int)

  /** The divisions floor, so a pre-market minute gets a negative index. */
  function BucketKey(t: Stamp, minutes: int): Key
    requires minutes >= 1
  {
    if minutes >= DAILY_MINUTES then DailyKey(DateOf(t))
    else IntradayKey(DateOf(t), (MinuteOf(t) - SESSION_OPEN_MINUTE) / minutes)
  }

  function BucketStart(t: Stamp, minutes: int): Stamp
    requires minutes >= 1
  {
    var midnight := DateOf(t) * MINUTES_PER_DAY;
    if minutes >= DAILY_MINUTES then midnight
    else midnight + SESSION_OPEN_MINUTE + (MinuteOf(t) - SESSION_OPEN_MINUTE) / minutes * minutes
  }

  // ----- Aggregation -----

  function MaxHigh(w: seq<Bar>): real
    requires w != []
  {
    if |w| == 1 then w[0].high else Max(MaxHigh(w[..|w| - 1]), w[|w| - 1].high)
  }

  function MinLow(w: seq<Bar>): real
    requires w != []
  {
    if |w| == 1 then w[0].low else Min(MinLow(w[..|w| - 1]), w[|w| - 1].low)
  }

  function TotalVolume(w: seq<Bar>): int {
    if w == [] then 0 else TotalVolume(w[..|w| - 1]) + w[|w| - 1].volume
  }

  /** First open, max high, min low, last close, summed volume. */
  function Aggregate(w: seq<Bar>, minutes: int): Bar
    requires w != [] && minutes >= 1
  {
    Bar(BucketStart(w[0].timestamp, minutes), w[0].open, MaxHigh(w), MinLow(w), w[|w| - 1].close, TotalVolume(w))
  }

  // ----- Grouping -----

  /** The distinct buckets in order of first appearance. */
  function Keys(bars: seq<Bar>, minutes: int): (keys: seq<Key>)
    requires minutes >= 1
    ensures forall i, j :: 0 <= i < j < |keys| ==> keys[i] != keys[j]
    ensures forall b :: b in bars ==> BucketKey(b.timestamp, minutes) in keys
  {
    if bars == [] then []
    else
      var front := Keys(bars[..|bars| - 1], minutes);
      var key := BucketKey(bars[|bars| - 1].timestamp, minutes);
      assert bars == bars[..|bars| - 1] + [bars[|bars| - 1]];
      if key in front then front else front + [key]
  }

  /** The bars of one bucket in input order. */
  function Members(bars: seq<Bar>, minutes: int, key: Key): seq<Bar>
    requires minutes >= 1
  {
    if bars == [] then []
    else
      var last := bars[|bars| - 1];
      Members(bars[..|bars| - 1], minutes, key) + if BucketKey(last.timestamp, minutes) == key then [last] else []
  }

  lemma {:induction false} MembersExist(bars: seq<Bar>, minutes: int, key: Key)
    requires minutes >= 1
    ensures key in Keys(bars, minutes) <==> Members(bars, minutes, key) != []
  {
    if bars != [] { MembersExist(bars[..|bars| - 1], minutes, key); }
  }

  function Grouped(bars: seq<Bar>, minutes: int): (out: seq<Bar>)
    requires minutes >= 1
    ensures |out| == |Keys(bars, minutes)|
  {
    var keys := Keys(bars, minutes);
    seq(|keys|, i requires 0 <= i < |keys| =>
      MembersExist(bars, minutes, keys[i]);
      Aggregate(Members(bars, minutes, keys[i]), minutes))
  }

  function InsertByTime(b: Bar, s: seq<Bar>): (r: seq<Bar>)
    ensures |r| == |s| + 1
  {
    if s == [] then [b]
    else if s[|s| - 1].timestamp <= b.timestamp then s + [b]
    else InsertByTime(b, s[..|s| - 1]) + [s[|s| - 1]]
  }

  /** The stable sort by timestamp. */
  function SortByTime(s: seq<Bar>): (r: seq<Bar>)
    ensures |r| == |s|
  {
    if s == [] then [] else InsertByTime(s[|s| - 1], SortByTime(s[..|s| - 1]))
  }

  function Resampled(bars: seq<Bar>, minutes: int): seq<Bar> {
    if minutes <= 1 then bars else SortByTime(Grouped(bars, minutes))
  }

  lemma GroupExtends(front: seq<Bar>, b: Bar, minutes: int)
    requires minutes >= 1
    ensures var key := BucketKey(b.timestamp, minutes);
      && Keys(front + [b], minutes)
          == (if key in Keys(front, minutes) then Keys(front, minutes) else Keys(front, minutes) + [key])
      && forall k :: Members(front + [b], minutes, k) == Members(front, minutes, k) + (if k == key then [b] else [])
  {
    assert (front + [b])[..|front|] == front;
  }

  /** The dictionary of buckets, in insertion order. */
  method Group(bars: seq<Bar>, minutes: int) returns (order: seq<Key>, grouped: map<Key, seq<Bar>>)
    requires minutes >= 1
    ensures order == Keys(bars, minutes)
    ensures forall k :: k in order ==> k in grouped && grouped[k] == Members(bars, minutes, k)
  {
    hide Keys, Members, BucketKey;
    grouped := map[];
    order := [];
    StartEmpty(minutes);
    for i := 0 to |bars|
      invariant order == Keys(bars[..i], minutes)
      invariant forall k :: k in order <==> k in grouped
      invariant forall k :: k in grouped ==> grouped[k] == Members(bars[..i], minutes, k)
    {
      var key := BucketKey(bars[i].timestamp, minutes);
      assert bars[..i + 1] == bars[..i] + [bars[i]];
      GroupExtends(bars[..i], bars[i], minutes);
      MembersExist(bars[..i], minutes, key);
      if key !in grouped {
        order := order + [key];
        grouped := grouped[key := []];
      }
      grouped := grouped[key := grouped[key] + [bars[i]]];
    }
    assert bars[..|bars|] == bars;
  }

  lemma StartEmpty(minutes: int)
    requires minutes >= 1
    ensures Keys([], minutes) == []
  {
  }

  method ResampleBars(bars: seq<Bar>, minutes: int) returns (out: seq<Bar>)
    ensures out == Resampled(bars, minutes)
  {
    hide Keys, Members, Aggregate, SortByTime;
    if minutes <= 1 {
      return bars;
    }
    if bars == [] {
      EmptyResampled(minutes);
      return [];
    }
    var order, grouped := Group(bars, minutes);
    out := [];
    for i := 0 to |order|
      invariant out == Grouped(bars, minutes)[..i]
    {
      assert order[i] in order;
      MembersExist(bars, minutes, order[i]);
      out := out + [Aggregate(grouped[order[i]], minutes)];
    }
    assert out == Grouped(bars, minutes);
    out := SortByTime(out);
  }

  lemma EmptyResampled(minutes: int)
    requires minutes >= 1
    ensures SortByTime(Grouped([], minutes)) == []
  {
  }

  // ----- Conservation, for any input -----

  /** b joins the running bar a. */
  function Merge(a: Bar, b: Bar): Bar {
    a.(high := Max(a.high, b.high), low := Min(a.low, b.low), close := b.close, volume := a.volume + b.volume)
  }

  function Started(b: Bar, minutes: int): Bar
    requires minutes >= 1
  {
    b.(timestamp := BucketStart(b.timestamp, minutes))
  }

  lemma AggregateExtends(w: seq<Bar>, b: Bar, minutes: int)
    requires minutes >= 1
    ensures Aggregate(w + [b], minutes) == if w == [] then Started(b, minutes) else Merge(Aggregate(w, minutes), b)
  {
    AppendTotals(w, b);
    if w == [] {
      assert w + [b] == [b];
    }
  }

  /** One more bar either opens a bucket or joins the one it belongs to. */
  lemma GroupedExtends(front: seq<Bar>, b: Bar, minutes: int)
    requires minutes >= 1
    ensures var key, keys, g := BucketKey(b.timestamp, minutes), Keys(front, minutes), Grouped(front, minutes);
      && (key !in keys ==> Grouped(front + [b], minutes) == g + [Started(b, minutes)])
      && forall i :: 0 <= i < |keys| && keys[i] == key ==> Grouped(front + [b], minutes) == g[i := Merge(g[i], b)]
  {
    hide Keys, Members, BucketKey, Aggregate, Merge, Started;
    var key, keys, g := BucketKey(b.timestamp, minutes), Keys(front, minutes), Grouped(front, minutes);
    GroupExtends(front, b, minutes);
    MembersExist(front, minutes, key);
    AggregateExtends(Members(front, minutes, key), b, minutes);
    var g' := Grouped(front + [b], minutes);
    forall j | 0 <= j < |keys| ensures g'[j] == if keys[j] == key then Merge(g[j], b) else g[j] {
      assert keys[j] in keys;
      MembersExist(front, minutes, keys[j]);
      assert Members(front, minutes, keys[j]) + [] == Members(front, minutes, keys[j]);
    }
  }

  lemma {:induction false} UpdateTotals(s: seq<Bar>, i: nat, b: Bar)
    requires i < |s|
    ensures TotalVolume(s[i := Merge(s[i], b)]) == TotalVolume(s) + b.volume
    ensures MaxHigh(s[i := Merge(s[i], b)]) == Max(MaxHigh(s), b.high)
    ensures MinLow(s[i := Merge(s[i], b)]) == Min(MinLow(s), b.low)
  {
    var n := |s| - 1;
    var s' := s[i := Merge(s[i], b)];
    if i < n {
      UpdateTotals(s[..n], i, b);
      assert s'[..n] == s[..n][i := Merge(s[i], b)];
    } else {
      assert s'[..n] == s[..n];
    }
  }

  lemma AppendTotals(s: seq<Bar>, b: Bar)
    ensures TotalVolume(s + [b]) == TotalVolume(s) + b.volume
    ensures MaxHigh(s + [b]) == if s == [] then b.high else Max(MaxHigh(s), b.high)
    ensures MinLow(s + [b]) == if s == [] then b.low else Min(MinLow(s), b.low)
  {
    assert (s + [b])[..|s|] == s;
  }

  ghost predicate SameTotals(s: seq<Bar>, t: seq<Bar>) {
    && TotalVolume(s) == TotalVolume(t)
    && (s == [] <==> t == [])
    && (s != [] && t != [] ==> MaxHigh(s) == MaxHigh(t) && MinLow(s) == MinLow(t))
  }

  lemma {:induction false} GroupingConserves(bars: seq<Bar>, minutes: int)
    requires minutes >= 1
    ensures SameTotals(Grouped(bars, minutes), bars)
  {
    hide Grouped, Keys, BucketKey, BucketStart, MaxHigh, MinLow, TotalVolume, Merge;
    EmptyGroups(minutes);
    if bars != [] {
      var front, b := bars[..|bars| - 1], bars[|bars| - 1];
      assert bars == front + [b];
      GroupingConserves(front, minutes);
      GroupedExtends(front, b, minutes);
      AppendTotals(front, b);
      var keys, g := Keys(front, minutes), Grouped(front, minutes);
      if BucketKey(b.timestamp, minutes) in keys {
        var i :| 0 <= i < |keys| && keys[i] == BucketKey(b.timestamp, minutes);
        UpdateTotals(g, i, b);
      } else {
        AppendTotals(g, Started(b, minutes));
      }
    }
  }

  lemma {:induction false} InsertTotals(b: Bar, s: seq<Bar>)
    ensures SameTotals(InsertByTime(b, s), s + [b])
  {
    AppendTotals(s, b);
    if s != [] && s[|s| - 1].timestamp > b.timestamp {
      var front, last := s[..|s| - 1], s[|s| - 1];
      assert s == front + [last];
      InsertTotals(b, front);
      AppendTotals(front, b);
      AppendTotals(front, last);
      AppendTotals(InsertByTime(b, front), last);
    }
  }

  lemma {:induction false} SortTotals(s: seq<Bar>)
    ensures SameTotals(SortByTime(s), s)
  {
    if s != [] {
      var front, last := s[..|s| - 1], s[|s| - 1];
      assert s == front + [last];
      SortTotals(front);
      InsertTotals(last, SortByTime(front));
      AppendTotals(front, last);
      AppendTotals(SortByTime(front), last);
    }
  }

  /** Whatever the input, resampling conserves total volume and the overall high and low. */
  lemma ResamplingConserves(bars: seq<Bar>, minutes: int)
    ensures SameTotals(Resampled(bars, minutes), bars)
  {
    if minutes > 1 {
      GroupingConserves(bars, minutes);
      SortTotals(Grouped(bars, minutes));
    }
  }

  /** Every bar falls in exactly one bucket, and the buckets hold nothing else. */
  lemma {:induction false} EachBarInOneBucket(bars: seq<Bar>, minutes: int, b: Bar, key: Key)
    requires minutes >= 1
    ensures multiset(Members(bars, minutes, key))[b] == if BucketKey(b.timestamp, minutes) == key
      then multiset(bars)[b] else 0
  {
    if bars != [] {
      var front, last := bars[..|bars| - 1], bars[|bars| - 1];
      assert bars == front + [last];
      EachBarInOneBucket(front, minutes, b, key);
    }
  }

  // ----- Bucket algebra -----

  /** The bucket starts on the bar's own date: always for daily ones and from the session open on, and
      before the open for every timeframe whose buckets do not reach back past midnight. */
  predicate StaysOnDate(t: Stamp, minutes: int)
    requires minutes >= 1
  {
    DateOf(BucketStart(t, minutes)) == DateOf(t)
  }

  lemma FloorBounds(x: int, m: int)
    requires m >= 1
    ensures x / m * m <= x < x / m * m + m
  {
  }

  /** floor(floor(x / m) m / (k m)) = floor(x / (k m)) */
  lemma NestedFloor(x: int, m: int, k: int)
    requires m >= 1 && k >= 1
    ensures (x / m * m) / (k * m) == x / (k * m)
  {
    var q, a := k * m, x / m;
    FloorBounds(x, m);
    var c := a / k;
    FloorBounds(a, k);
    assert c * k <= a <= c * k + k - 1;
    FloorScaled(a, c, m, k, x);
  }

  lemma FloorScaled(a: int, c: int, m: int, k: int, x: int)
    requires m >= 1 && k >= 1 && c * k <= a <= c * k + k - 1 && a * m <= x < a * m + m
    ensures (a * m) / (k * m) == c && x / (k * m) == c
  {
    var q, low, high := k * m, c * k, c * k + k - 1;
    Regroup(c, k, m);
    Scale(low, a, m);
    Scale(a, high, m);
    QuotientIs(a * m, q, c);
    QuotientIs(x, q, c);
  }

  lemma Regroup(c: int, k: int, m: int)
    ensures (c * k) * m == c * (k * m)
    ensures (c * k + k - 1) * m == c * (k * m) + k * m - m
  {
    assert (c * k + k - 1) * m == (c * k) * m + k * m - m;
  }

  lemma QuotientIs(x: int, q: int, c: int)
    requires q >= 1 && c * q <= x < c * q + q
    ensures x / q == c
  {
    var d := x / q;
    FloorBounds(x, q);
    if d < c {
      Scale(d + 1, c, q);
    } else if d > c {
      Scale(c + 1, d, q);
    }
  }

  lemma Scale(a: int, b: int, q: int)
    requires a <= b && q >= 0
    ensures a * q <= b * q
  {
  }

  /** A bucket start lies in its own bucket, and in the same coarser bucket as every bar of it. */
  lemma StartInBucket(t: Stamp, minutes: int, k: int)
    requires minutes >= 1 && k >= 1 && StaysOnDate(t, minutes)
    ensures var s := BucketStart(t, minutes);
      && s <= t && DateOf(s) == DateOf(t) && StaysOnDate(s, minutes) && k * minutes >= 1
      && BucketStart(s, k * minutes) == BucketStart(t, k * minutes)
      && BucketKey(s, k * minutes) == BucketKey(t, k * minutes)
  {
    var s, date, x := BucketStart(t, minutes), DateOf(t), MinuteOf(t) - SESSION_OPEN_MINUTE;
    Scale(1, k, minutes);
    if minutes < DAILY_MINUTES {
      FloorBounds(x, minutes);
      NestedFloor(x, minutes, k);
      NestedFloor(x, minutes, 1);
      assert MinuteOf(s) == SESSION_OPEN_MINUTE + x / minutes * minutes;
    }
  }

  /** Two bars whose bucket stays on their date share it exactly when it starts at the same time. */
  lemma StartIdentifiesBucket(t: Stamp, t': Stamp, minutes: int)
    requires minutes >= 1 && StaysOnDate(t, minutes) && StaysOnDate(t', minutes)
    ensures BucketKey(t, minutes) == BucketKey(t', minutes) <==> BucketStart(t, minutes) == BucketStart(t', minutes)
  {
    if minutes < DAILY_MINUTES && BucketStart(t, minutes) == BucketStart(t', minutes) {
      SameMultiple((MinuteOf(t) - SESSION_OPEN_MINUTE) / minutes, (MinuteOf(t') - SESSION_OPEN_MINUTE) / minutes,
                   minutes);
    }
  }

  lemma SameMultiple(a: int, b: int, m: int)
    requires m >= 1 && a * m == b * m
    ensures a == b
  {
    if a < b { Scale(a + 1, b, m); }
    if b < a { Scale(b + 1, a, m); }
  }

  lemma StartMonotone(t: Stamp, t': Stamp, minutes: int)
    requires minutes >= 1 && t <= t' && StaysOnDate(t, minutes) && StaysOnDate(t', minutes)
    ensures BucketStart(t, minutes) <= BucketStart(t', minutes)
  {
    if DateOf(t) == DateOf(t') && minutes < DAILY_MINUTES {
      FloorMonotone(MinuteOf(t) - SESSION_OPEN_MINUTE, MinuteOf(t') - SESSION_OPEN_MINUTE, minutes);
    }
  }

  lemma FloorMonotone(x: int, y: int, m: int)
    requires m >= 1 && x <= y
    ensures x / m * m <= y / m * m
  {
    FloorBounds(x, m);
    FloorBounds(y, m);
    if y / m < x / m { Scale(y / m + 1, x / m, m); }
  }

  // ----- Composition -----

  /** The streaming form: a bar joins the running bucket or starts the next one. */
  function Push(acc: seq<Bar>, b: Bar, minutes: int): seq<Bar>
    requires minutes >= 1
  {
    if acc != [] && acc[|acc| - 1].timestamp == BucketStart(b.timestamp, minutes)
    then acc[..|acc| - 1] + [Merge(acc[|acc| - 1], b)]
    else acc + [Started(b, minutes)]
  }

  function Streamed(bars: seq<Bar>, minutes: int): seq<Bar>
    requires minutes >= 1
  {
    if bars == [] then [] else Push(Streamed(bars[..|bars| - 1], minutes), bars[|bars| - 1], minutes)
  }

  ghost predicate InOrder(bars: seq<Bar>) {
    forall i, j :: 0 <= i < j < |bars| ==> bars[i].timestamp <= bars[j].timestamp
  }

  ghost predicate AllStayOnDate(bars: seq<Bar>, minutes: int)
    requires minutes >= 1
  {
    forall i :: 0 <= i < |bars| ==> StaysOnDate(bars[i].timestamp, minutes)
  }

  /** Some bar of the bucket fixes both its key and its start. */
  ghost predicate KeyStartsAt(bars: seq<Bar>, minutes: int, key: Key, start: Stamp)
    requires minutes >= 1
  {
    exists b :: b in bars && BucketKey(b.timestamp, minutes) == key && BucketStart(b.timestamp, minutes) == start
  }

  ghost predicate Rising(g: seq<Bar>) {
    forall i, j :: 0 <= i < j < |g| ==> g[i].timestamp < g[j].timestamp
  }

  /** The groups so far: in time order, each at the start of its key, the last one that of the last bar. */
  ghost predicate Running(bars: seq<Bar>, minutes: int)
    requires minutes >= 1
  {
    var g, keys := Grouped(bars, minutes), Keys(bars, minutes);
    && Rising(g)
    && (forall i :: 0 <= i < |keys| ==> KeyStartsAt(bars, minutes, keys[i], g[i].timestamp))
    && (bars != [] ==> g != [] && g[|g| - 1].timestamp == BucketStart(bars[|bars| - 1].timestamp, minutes))
  }

  /** The bucket of the next bar is already known only if it is the running one. */
  lemma OnlyRunningBucketRepeats(front: seq<Bar>, b: Bar, minutes: int, i: nat)
    requires minutes >= 1 && front != [] && Running(front, minutes)
    requires AllStayOnDate(front + [b], minutes) && InOrder(front + [b])
    requires i < |Keys(front, minutes)|
    ensures var s, g := BucketStart(b.timestamp, minutes), Grouped(front, minutes);
      && g[|g| - 1].timestamp <= s
      && (Keys(front, minutes)[i] == BucketKey(b.timestamp, minutes) <==> g[i].timestamp == s)
      && (g[i].timestamp == s ==> i == |g| - 1)
  {
    hide BucketKey, BucketStart, StaysOnDate, Keys, Grouped;
    var g, keys := Grouped(front, minutes), Keys(front, minutes);
    var n := |front|;
    assert (front + [b])[n] == b && (front + [b])[n - 1] == front[n - 1];
    StartMonotone(front[n - 1].timestamp, b.timestamp, minutes);
    assert KeyStartsAt(front, minutes, keys[i], g[i].timestamp);
    var c :| c in front && BucketKey(c.timestamp, minutes) == keys[i]
      && BucketStart(c.timestamp, minutes) == g[i].timestamp;
    var p :| 0 <= p < n && front[p] == c;
    assert (front + [b])[p] == c;
    StartIdentifiesBucket(c.timestamp, b.timestamp, minutes);
  }

  lemma StreamStep(front: seq<Bar>, b: Bar, minutes: int)
    requires minutes >= 1 && Running(front, minutes)
    requires AllStayOnDate(front + [b], minutes) && InOrder(front + [b])
    ensures Grouped(front + [b], minutes) == Push(Grouped(front, minutes), b, minutes)
    ensures Rising(Grouped(front + [b], minutes))
    ensures var g := Grouped(front + [b], minutes);
      g != [] && g[|g| - 1].timestamp == BucketStart(b.timestamp, minutes)
  {
    hide BucketKey, BucketStart, StaysOnDate, Keys, Grouped, Merge, InOrder, AllStayOnDate, KeyStartsAt;
    var g, keys, key := Grouped(front, minutes), Keys(front, minutes), BucketKey(b.timestamp, minutes);
    if front == [] {
      EmptyGroups(minutes);
      GroupedExtends(front, b, minutes);
    } else {
      OnlyRunningBucketRepeats(front, b, minutes, |g| - 1);
      if key in keys {
        var i :| 0 <= i < |keys| && keys[i] == key;
        OnlyRunningBucketRepeats(front, b, minutes, i);
        GroupedExtends(front, b, minutes);
        assert g[i := Merge(g[i], b)] == g[..|g| - 1] + [Merge(g[|g| - 1], b)];
        MergedTime(g[i], b);
      } else {
        assert keys[|g| - 1] in keys;
        GroupedExtends(front, b, minutes);
      }
    }
  }

  lemma MergedTime(a: Bar, b: Bar)
    ensures Merge(a, b).timestamp == a.timestamp
  {
  }

  lemma EmptyGroups(minutes: int)
    requires minutes >= 1
    ensures Keys([], minutes) == [] && Grouped([], minutes) == []
  {
  }

  lemma KeysStart(front: seq<Bar>, b: Bar, minutes: int)
    requires minutes >= 1 && Running(front, minutes)
    ensures var bars := front + [b];
      forall i :: 0 <= i < |Keys(bars, minutes)| ==>
          KeyStartsAt(bars, minutes, Keys(bars, minutes)[i], Grouped(bars, minutes)[i].timestamp)
  {
    hide BucketKey, BucketStart, Keys, Grouped;
    var bars, keys := front + [b], Keys(front, minutes);
    GroupExtends(front, b, minutes);
    GroupedExtends(front, b, minutes);
    assert b in bars;
    forall i | 0 <= i < |keys| ensures KeyStartsAt(bars, minutes, keys[i], Grouped(bars, minutes)[i].timestamp) {
      assert KeyStartsAt(front, minutes, keys[i], Grouped(front, minutes)[i].timestamp);
      if BucketKey(b.timestamp, minutes) in keys {
        var j :| 0 <= j < |keys| && keys[j] == BucketKey(b.timestamp, minutes);
        assert Grouped(bars, minutes)[i].timestamp == Grouped(front, minutes)[i].timestamp;
      }
    }
  }

  /** On ordered bars that stay on their date the groups come out in time order, just as if streamed. */
  lemma {:induction false} GroupedIsStreamed(bars: seq<Bar>, minutes: int)
    requires minutes >= 1 && InOrder(bars) && AllStayOnDate(bars, minutes)
    ensures Grouped(bars, minutes) == Streamed(bars, minutes) && Running(bars, minutes)
  {
    hide BucketKey, BucketStart, StaysOnDate, Aggregate, Merge, Keys, Grouped;
    if bars == [] {
      EmptyGroups(minutes);
    } else {
      var front, b := bars[..|bars| - 1], bars[|bars| - 1];
      assert bars == front + [b];
      GroupedIsStreamed(front, minutes);
      StreamStep(front, b, minutes);
      KeysStart(front, b, minutes);
    }
  }

  lemma {:induction false} RisingIsSorted(s: seq<Bar>)
    requires Rising(s)
    ensures SortByTime(s) == s
  {
    if s != [] { RisingIsSorted(s[..|s| - 1]); }
  }

  /** On ordered bars that stay on their date, resampling is the streaming form. */
  lemma ResampledIsStreamed(bars: seq<Bar>, minutes: int)
    requires minutes > 1 && InOrder(bars) && AllStayOnDate(bars, minutes)
    ensures Resampled(bars, minutes) == Streamed(bars, minutes)
    ensures Rising(Resampled(bars, minutes))
  {
    GroupedIsStreamed(bars, minutes);
    RisingIsSorted(Grouped(bars, minutes));
  }

  /** Joining a fine bucket first and the coarse one second is joining the coarse one bar by bar. */
  lemma JoinedFirst(h: seq<Bar>, x: Bar, b: Bar, coarse: int)
    requires coarse >= 1 && BucketKey(x.timestamp, coarse) == BucketKey(b.timestamp, coarse)
    ensures Keys(h + [Merge(x, b)], coarse) == Keys(h + [x] + [b], coarse)
    ensures Grouped(h + [Merge(x, b)], coarse) == Grouped(h + [x] + [b], coarse)
  {
    hide BucketKey, Keys, Grouped, Started, Merge;
    var key, keys := BucketKey(b.timestamp, coarse), Keys(h, coarse);
    GroupExtends(h, x, coarse);
    GroupExtends(h + [x], b, coarse);
    GroupExtends(h, Merge(x, b), coarse);
    GroupedExtends(h, x, coarse);
    GroupedExtends(h + [x], b, coarse);
    GroupedExtends(h, Merge(x, b), coarse);
    MergedTime(x, b);
    if key in keys {
      var i :| 0 <= i < |keys| && keys[i] == key;
      MergeJoins(Grouped(h, coarse)[i], x, b);
    } else {
      assert Keys(h + [x], coarse)[|keys|] == key;
      StartMerged(x, b, coarse);
    }
  }

  lemma MergeJoins(a: Bar, x: Bar, b: Bar)
    ensures Merge(a, Merge(x, b)) == Merge(Merge(a, x), b)
  {
  }

  lemma StartMerged(x: Bar, b: Bar, coarse: int)
    requires coarse >= 1
    ensures Started(Merge(x, b), coarse) == Merge(Started(x, coarse), b)
  {
  }

  /** Opening a fine bucket with a bar counts for the coarse one as the bar itself. */
  lemma StartedFirst(g: seq<Bar>, b: Bar, fine: int, coarse: int)
    requires fine >= 1 && coarse >= 1
    requires BucketKey(BucketStart(b.timestamp, fine), coarse) == BucketKey(b.timestamp, coarse)
    requires BucketStart(BucketStart(b.timestamp, fine), coarse) == BucketStart(b.timestamp, coarse)
    ensures Keys(g + [Started(b, fine)], coarse) == Keys(g + [b], coarse)
    ensures Grouped(g + [Started(b, fine)], coarse) == Grouped(g + [b], coarse)
  {
    hide BucketKey, BucketStart, Keys, Grouped;
    var keys, s := Keys(g, coarse), Started(b, fine);
    GroupExtends(g, b, coarse);
    GroupExtends(g, s, coarse);
    GroupedExtends(g, b, coarse);
    GroupedExtends(g, s, coarse);
    if BucketKey(b.timestamp, coarse) in keys {
      var i :| 0 <= i < |keys| && keys[i] == BucketKey(b.timestamp, coarse);
      assert Merge(Grouped(g, coarse)[i], s) == Merge(Grouped(g, coarse)[i], b);
    }
  }

  lemma SameExtended(s: seq<Bar>, t: seq<Bar>, b: Bar, minutes: int)
    requires minutes >= 1 && Keys(s, minutes) == Keys(t, minutes) && Grouped(s, minutes) == Grouped(t, minutes)
    ensures Keys(s + [b], minutes) == Keys(t + [b], minutes) && Grouped(s + [b], minutes) == Grouped(t + [b], minutes)
  {
    hide BucketKey, Keys, Grouped, Started, Merge;
    var key, keys := BucketKey(b.timestamp, minutes), Keys(s, minutes);
    GroupExtends(s, b, minutes);
    GroupExtends(t, b, minutes);
    GroupedExtends(s, b, minutes);
    GroupedExtends(t, b, minutes);
    if key in keys {
      var i :| 0 <= i < |keys| && keys[i] == key;
    }
  }

  lemma GroupingStep(front: seq<Bar>, b: Bar, minutes: int, k: int)
    requires minutes >= 1 && k >= 1 && k * minutes >= 1 && StaysOnDate(b.timestamp, minutes)
    requires Grouped(front + [b], minutes) == Push(Grouped(front, minutes), b, minutes)
    requires Keys(Grouped(front, minutes), k * minutes) == Keys(front, k * minutes)
    requires Grouped(Grouped(front, minutes), k * minutes) == Grouped(front, k * minutes)
    ensures Keys(Grouped(front + [b], minutes), k * minutes) == Keys(front + [b], k * minutes)
    ensures Grouped(Grouped(front + [b], minutes), k * minutes) == Grouped(front + [b], k * minutes)
  {
    hide BucketKey, BucketStart, StaysOnDate, Merge, Started, Keys, Grouped;
    var g, coarse := Grouped(front, minutes), k * minutes;
    StartInBucket(b.timestamp, minutes, k);
    SameExtended(g, front, b, coarse);
    if g != [] && g[|g| - 1].timestamp == BucketStart(b.timestamp, minutes) {
      var h, x := g[..|g| - 1], g[|g| - 1];
      assert g == h + [x];
      JoinedFirst(h, x, b, coarse);
    } else {
      StartedFirst(g, b, minutes, coarse);
    }
  }

  /** Grouping the fine groups is grouping the bars: the coarse buckets need not even come out in time order. */
  lemma {:induction false} GroupingComposes(bars: seq<Bar>, minutes: int, k: int)
    requires minutes >= 1 && k >= 1 && k * minutes >= 1 && InOrder(bars) && AllStayOnDate(bars, minutes)
    ensures Keys(Grouped(bars, minutes), k * minutes) == Keys(bars, k * minutes)
    ensures Grouped(Grouped(bars, minutes), k * minutes) == Grouped(bars, k * minutes)
  {
    hide BucketKey, BucketStart, StaysOnDate, Merge, Started, Keys, Grouped, Push;
    if bars == [] {
      EmptyGroups(minutes);
    } else {
      var front, b := bars[..|bars| - 1], bars[|bars| - 1];
      assert bars == front + [b];
      GroupingComposes(front, minutes, k);
      GroupedIsStreamed(front, minutes);
      StreamStep(front, b, minutes);
      GroupingStep(front, b, minutes, k);
    }
  }

  /** Resampling composes: fine buckets first, then k of them at a time, is the same as resampling
      to the coarse timeframe at once, timestamps and the daily case included. */
  lemma ResamplingComposes(bars: seq<Bar>, minutes: int, k: int)
    requires minutes >= 1 && k >= 1 && InOrder(bars) && AllStayOnDate(bars, minutes)
    ensures Resampled(Resampled(bars, minutes), k * minutes) == Resampled(bars, k * minutes)
  {
    hide Streamed, StaysOnDate, Grouped;
    if minutes > 1 {
      Scale(1, k, minutes);
      GroupedIsStreamed(bars, minutes);
      RisingIsSorted(Grouped(bars, minutes));
      GroupingComposes(bars, minutes, k);
    }
  }

  /** Exactly which bars stay: for intraday timeframes those from the first bucket boundary after midnight on,
      so all of them when the timeframe divides the time from midnight to the open. */
  lemma WhereBucketsStay(t: Stamp, minutes: int)
    requires minutes >= 1
    ensures StaysOnDate(t, minutes) <==> minutes >= DAILY_MINUTES || MinuteOf(t) >= SESSION_OPEN_MINUTE % minutes
  {
    if minutes < DAILY_MINUTES {
      var m, first := MinuteOf(t), SESSION_OPEN_MINUTE % minutes;
      BoundaryAfterMidnight(m, SESSION_OPEN_MINUTE, minutes);
      var start := SESSION_OPEN_MINUTE + (m - SESSION_OPEN_MINUTE) / minutes * minutes;
      FloorBounds(m - SESSION_OPEN_MINUTE, minutes);
      assert BucketStart(t, minutes) == DateOf(t) * MINUTES_PER_DAY + start && start < MINUTES_PER_DAY;
    }
  }

  /** The bucket of minute x starts before midnight exactly when x precedes the first boundary. */
  lemma BoundaryAfterMidnight(x: int, open: int, m: int)
    requires m >= 1 && x >= 0 && open >= 0
    ensures -m <= open + (x - open) / m * m
    ensures open + (x - open) / m * m >= 0 <==> x >= open % m
  {
    var q, r := open / m, open % m;
    assert open == q * m + r;
    var c := (x - open) / m;
    FloorBounds(x - open, m);
    assert (c + q) * m == c * m + q * m;
    if x >= r && c + q < 0 {
      Scale(c + q, -1, m);
    } else if x < r && c + q >= 0 {
      Scale(0, c + q, m);
    } else if c + q >= 0 {
      Scale(0, c + q, m);
    } else {
      Scale(c + q, -1, m);
      if c + q < -1 { Scale(c + q, -2, m); }
    }
  }

  // ----- Where composition fails -----

  ghost predicate Composes(bars: seq<Bar>, minutes: int, k: int) {
    Resampled(Resampled(bars, minutes), k * minutes) == Resampled(bars, k * minutes)
  }

  /** The fine timeframes for which no bucket ever starts before the midnight of its bars. */
  predicate NeverReachesBack(minutes: int)
    requires minutes >= 1
  {
    minutes == 1 || minutes >= DAILY_MINUTES || SESSION_OPEN_MINUTE % minutes == 0
  }

  /** Resampling composes for all ordered bars exactly for those timeframes, whatever the coarse one. */
  lemma ComposesForAllBarsExactly(minutes: int, k: int)
    requires minutes >= 1 && k >= 1
    ensures (forall bars: seq<Bar> :: InOrder(bars) ==> Composes(bars, minutes, k)) <==> NeverReachesBack(minutes)
  {
    hide Resampled, InOrder;
    if NeverReachesBack(minutes) {
      forall bars: seq<Bar> | InOrder(bars) ensures Composes(bars, minutes, k) {
        if minutes > 1 {
          forall i | 0 <= i < |bars| ensures StaysOnDate(bars[i].timestamp, minutes) {
            WhereBucketsStay(bars[i].timestamp, minutes);
          }
          ResamplingComposes(bars, minutes, k);
        } else {
          MinutesUnchanged(bars, k);
        }
      }
    } else {
      var bars := BreakingBars(minutes, k);
      assert InOrder(bars) && !Composes(bars, minutes, k);
    }
  }

  lemma MinutesUnchanged(bars: seq<Bar>, k: int)
    ensures Composes(bars, 1, k)
  {
  }

  /** The bar at midnight of day 1, whose fine bucket starts on day 0, breaks composition by itself or
      together with a bar at that start. */
  lemma BreakingBars(minutes: int, k: int) returns (bars: seq<Bar>)
    requires minutes >= 1 && k >= 1 && !NeverReachesBack(minutes)
    ensures InOrder(bars) && !Composes(bars, minutes, k)
  {
    hide Resampled, BucketStart, BucketKey;
    var s, coarse := MINUTES_PER_DAY + SESSION_OPEN_MINUTE % minutes - minutes, k * minutes;
    Scale(1, k, minutes);
    MidnightStart(minutes);
    var late := Bar(MINUTES_PER_DAY, 1.0, 1.0, 1.0, 1.0, 1);
    if BucketStart(s, coarse) != BucketStart(MINUTES_PER_DAY, coarse) {
      bars := [late];
      OneBar(late, minutes);
      OneBar(late, coarse);
      OneBar(Started(late, minutes), coarse);
    } else {
      var early := late.(timestamp := s);
      bars := [early, late];
      SharedStart(minutes, k);
      TwoDates(early, late, minutes, coarse);
    }
  }

  lemma MidnightStart(minutes: int)
    requires 1 < minutes < DAILY_MINUTES && SESSION_OPEN_MINUTE % minutes > 0
    ensures var s := MINUTES_PER_DAY + SESSION_OPEN_MINUTE % minutes - minutes;
      BucketStart(MINUTES_PER_DAY, minutes) == s && 0 <= s < MINUTES_PER_DAY
  {
    var q, r := SESSION_OPEN_MINUTE / minutes, SESSION_OPEN_MINUTE % minutes;
    assert SESSION_OPEN_MINUTE == q * minutes + r;
    assert (-q - 1) * minutes == -(q * minutes) - minutes;
    QuotientIs(-SESSION_OPEN_MINUTE, minutes, -q - 1);
  }

  /** A bucket of day 0 and one of day 1 start together only if the day is a multiple of the timeframe;
      the shared start then lies at a fine bucket boundary. */
  lemma SharedStart(minutes: int, k: int)
    requires 1 < minutes < DAILY_MINUTES && k >= 1 && SESSION_OPEN_MINUTE % minutes > 0
    requires k * minutes >= 1
    requires var s := MINUTES_PER_DAY + SESSION_OPEN_MINUTE % minutes - minutes;
      BucketStart(s, k * minutes) == BucketStart(MINUTES_PER_DAY, k * minutes)
    ensures var s := MINUTES_PER_DAY + SESSION_OPEN_MINUTE % minutes - minutes;
      BucketStart(s, minutes) == s
  {
    var s, q := MINUTES_PER_DAY + SESSION_OPEN_MINUTE % minutes - minutes, k * minutes;
    MidnightStart(minutes);
    assert DateOf(s) == 0 && MinuteOf(s) == s;
    if q < DAILY_MINUTES {
      var i, j := (s - SESSION_OPEN_MINUTE) / q, (-SESSION_OPEN_MINUTE) / q;
      assert i * q == MINUTES_PER_DAY + j * q;
      Regrouped(i, k, minutes);
      Regrouped(j, k, minutes);
      var open := SESSION_OPEN_MINUTE / minutes;
      assert SESSION_OPEN_MINUTE == open * minutes + SESSION_OPEN_MINUTE % minutes;
      var c := i * k - j * k - open - 1;
      assert c * minutes == (i * k) * minutes - (j * k) * minutes - open * minutes - minutes;
      assert c * minutes == s - SESSION_OPEN_MINUTE;
      QuotientIs(s - SESSION_OPEN_MINUTE, minutes, c);
    }
  }

  lemma Regrouped(i: int, k: int, m: int)
    ensures i * (k * m) == (i * k) * m
  {
  }

  /** Two bars on different dates, the second one's fine bucket starting at the first: two coarse buckets
      directly, one in two stages. */
  lemma TwoDates(a: Bar, b: Bar, fine: int, coarse: int)
    requires 1 < fine <= coarse && DateOf(a.timestamp) != DateOf(b.timestamp)
    requires BucketStart(a.timestamp, fine) == a.timestamp == BucketStart(b.timestamp, fine)
    ensures |Resampled([a, b], coarse)| == 2
    ensures |Resampled(Resampled([a, b], fine), coarse)| == 1
  {
    TwoBuckets(a, b, fine);
    TwoBuckets(a, b, coarse);
    OneBucket(Started(a, fine), Started(b, fine), coarse);
    SortedPair(Started(a, fine), Started(b, fine));
    assert Resampled([a, b], fine) == [Started(a, fine), Started(b, fine)];
  }

  lemma TwoBuckets(a: Bar, b: Bar, minutes: int)
    requires minutes >= 1 && DateOf(a.timestamp) != DateOf(b.timestamp)
    ensures Grouped([a, b], minutes) == [Started(a, minutes), Started(b, minutes)]
  {
    hide Grouped, Started, BucketStart;
    EmptyGroups(minutes);
    GroupExtends([], a, minutes);
    GroupedExtends([], a, minutes);
    GroupedExtends([a], b, minutes);
    assert [] + [a] == [a] && [a] + [b] == [a, b];
  }

  lemma OneBucket(a: Bar, b: Bar, minutes: int)
    requires minutes >= 1 && a.timestamp == b.timestamp
    ensures |Grouped([a, b], minutes)| == 1
  {
    hide Grouped, Started, BucketStart, BucketKey, Keys;
    EmptyGroups(minutes);
    GroupExtends([], a, minutes);
    GroupExtends([a], b, minutes);
    assert [] + [a] == [a] && [a] + [b] == [a, b];
  }

  lemma SortedPair(a: Bar, b: Bar)
    requires a.timestamp <= b.timestamp
    ensures SortByTime([a, b]) == [a, b]
  {
    assert [a, b][..1] == [a] && [a][..0] == [];
    assert SortByTime([a]) == [a];
  }

  /** Without the condition composition fails: the hourly bucket of a bar at 00:10 starts at 23:30 the day
      before, and resampling it to days then dates it a day early. */
  lemma EarlyBarChangesDate()
    ensures var bar := Bar(MINUTES_PER_DAY + 10, 1.0, 1.0, 1.0, 1.0, 1);
      && !StaysOnDate(bar.timestamp, 60)
      && Resampled([bar], 24 * 60) == [bar.(timestamp := MINUTES_PER_DAY)]
      && Resampled(Resampled([bar], 60), 24 * 60) == [bar.(timestamp := 0)]
  {
    var bar := Bar(MINUTES_PER_DAY + 10, 1.0, 1.0, 1.0, 1.0, 1);
    hide Resampled;
    OneBar(bar, 1440);
    OneBar(bar, 60);
    OneBar(bar.(timestamp := MINUTES_PER_DAY - 30), 1440);
  }

  lemma OneBar(b: Bar, minutes: int)
    requires minutes > 1
    ensures Resampled([b], minutes) == [Started(b, minutes)]
  {
    hide BucketKey, BucketStart, Keys, Grouped;
    EmptyGroups(minutes);
    GroupedExtends([], b, minutes);
    assert [] + [b] == [b] && [] + [Started(b, minutes)] == [Started(b, minutes)];
  }
}
