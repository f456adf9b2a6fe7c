/**
 * Uptime and downtime statistics of the bot. Connection events move the
 * tracker between connected and disconnected; each completed interval is
 * recorded in a `TimeData`, which keeps its times sorted and their total.
 * The current time is a parameter of every operation that reads the clock.
 */
module UptimeTracker {
  import opened JavaLang

  const NO_TIME: Long := -1
  const INITIAL_DISCONNECT_TIME: Long := -2

  predicate Sorted(s: seq<int>)
  {
    forall i, j | 0 <= i < j < |s| :: s[i] <= s[j]
  }

  function Sum(s: seq<int>): (r: int)
  {
    if s == [] then 0 else s[0] + Sum(s[1..])
  }

  /** `s` with `x` inserted before the first element that is not smaller. */
  function Insort(s: seq<Long>, x: Long): (r: seq<Long>)
  {
    if s == [] || x <= s[0] then [x] + s else [s[0]] + Insort(s[1..], x)
  }

  // ---------------------------------------------------------------------------
  // Sorted insertion
  // ---------------------------------------------------------------------------

  /** Inserting at the first position whose element is not smaller than `x`
      is `Insort`. */
  lemma {:induction false} InsortAt(s: seq<Long>, x: Long, i: nat)
    requires i <= |s|
    requires forall j | 0 <= j < i :: x > s[j]
    requires i < |s| ==> x <= s[i]
    ensures Insort(s, x) == s[..i] + [x] + s[i..]
  {
    if i > 0 {
      InsortAt(s[1..], x, i - 1);
      assert s[1..][..i - 1] == s[1..i];
      assert s[..i] == [s[0]] + s[1..i];
      assert s[1..][i - 1..] == s[i..];
    }
  }

  /** Insertion keeps the list sorted. */
  lemma {:induction false} InsortSorted(s: seq<Long>, x: Long)
    requires Sorted(s)
    ensures Sorted(Insort(s, x))
  {
    if s != [] && x > s[0] {
      InsortSorted(s[1..], x);
      InsortElements(s[1..], x);
      var r := Insort(s, x);
      assert r == [s[0]] + Insort(s[1..], x);
      forall j | 1 <= j < |r| ensures s[0] <= r[j] {
        assert r[j] in multiset(Insort(s[1..], x));
      }
    }
  }

  /** Insertion adds exactly `x` to the list. */
  lemma {:induction false} InsortElements(s: seq<Long>, x: Long)
    ensures |Insort(s, x)| == |s| + 1
    ensures multiset(Insort(s, x)) == multiset(s) + multiset{x}
  {
    if s != [] && x > s[0] {
      InsortElements(s[1..], x);
      assert s == [s[0]] + s[1..];
    }
  }

  /** Insertion adds `x` to the sum. */
  lemma {:induction false} InsortSum(s: seq<Long>, x: Long)
    ensures Sum(Insort(s, x)) == Sum(s) + x
  {
    if s != [] && x > s[0] {
      InsortSum(s[1..], x);
      assert Insort(s, x)[1..] == Insort(s[1..], x);
    }
  }

  // ---------------------------------------------------------------------------
  // Statistics
  // ---------------------------------------------------------------------------

  lemma {:induction false} SumBounds(s: seq<int>, lo: int, hi: int)
    requires forall i | 0 <= i < |s| :: lo <= s[i] <= hi
    ensures lo * |s| <= Sum(s) <= hi * |s|
  {
    if s != [] {
      SumBounds(s[1..], lo, hi);
      assert lo * |s| == lo * |s[1..]| + lo;
      assert hi * |s| == hi * |s[1..]| + hi;
    }
  }

  /** The truncated mean of a sorted list lies between its first and last
      elements. */
  lemma MeanBounds(s: seq<Long>)
    requires Sorted(s) && s != []
    ensures s[0] <= Quot(Sum(s), |s|) <= s[|s| - 1]
  {
    SumBounds(s, s[0], s[|s| - 1]);
    QuotMonotone(s[0] * |s|, Sum(s), |s|);
    QuotExact(s[0], |s|);
    QuotMonotone(Sum(s), s[|s| - 1] * |s|, |s|);
    QuotExact(s[|s| - 1], |s|);
  }

  /** The truncated midpoint of `a <= b` lies between them. */
  lemma MidpointBounds(a: int, b: int)
    requires a <= b
    ensures a <= Quot(a + b, 2) <= b
  {
  }

  /** A quotient by a positive divisor stays between 0 and the dividend, so
      within a Java `long`. */
  lemma QuotInLong(a: Long, b: int)
    requires b >= 1
    ensures LONG_MIN <= Quot(a, b) <= LONG_MAX
  {
    if a >= 0 {
      NaturalQuotBounded(a, b);
    } else {
      NaturalQuotBounded(-(a as int), b);
    }
  }

  lemma NaturalQuotBounded(a: nat, b: int)
    requires b >= 1
    ensures 0 <= a / b <= a
  {
    MulMonotone(1, b, a / b);
  }

  /** The record of one kind of interval: sorted times and their total. */
  class TimeData {
    var sortedTimes: seq<Long>
    var total: Long

    /** The list is sorted and `total` is its sum in `long` arithmetic. */
    ghost predicate Valid()
      reads this
    {
      Sorted(sortedTimes) && total == Wrap64(Sum(sortedTimes))
    }

    constructor ()
      ensures Valid() && sortedTimes == [] && total == 0
    {
      sortedTimes := [];
      total := 0;
    }

    /** `recordTime`: finds the first position whose time is not smaller,
        inserts there and adds to the total. */
    method RecordTime(time: Long)
      requires Valid()
      modifies this
      ensures Valid()
      ensures sortedTimes == Insort(old(sortedTimes), time)
      ensures total == Wrap64(old(total) + time)
      ensures |sortedTimes| == |old(sortedTimes)| + 1
    {
      var i := 0;
      while i < |sortedTimes| && time > sortedTimes[i]
        invariant 0 <= i <= |sortedTimes|
        invariant forall j | 0 <= j < i :: time > sortedTimes[j]
      {
        i := i + 1;
      }
      InsortAt(sortedTimes, time, i);
      InsortSorted(sortedTimes, time);
      InsortSum(sortedTimes, time);
      WrapAdd(Sum(sortedTimes), time);
      sortedTimes := sortedTimes[..i] + [time] + sortedTimes[i..];
      total := Wrap64(total + time);
    }

    /** `getTotal`: the sum of the recorded times, in `long` arithmetic. */
    function Total(): (r: Long)
      reads this
      requires Valid()
      ensures r == Wrap64(Sum(sortedTimes))
      ensures LONG_MIN <= Sum(sortedTimes) <= LONG_MAX ==> r == Sum(sortedTimes)
    {
      total
    }

    /** `getMinimum`: the smallest recorded time, or 0 when there is none. */
    function Minimum(): (r: Long)
      reads this
      requires Valid()
      ensures sortedTimes == [] ==> r == 0
      ensures sortedTimes != [] ==> r in sortedTimes && forall x | x in sortedTimes :: r <= x
    {
      if |sortedTimes| == 0 then 0 else sortedTimes[0]
    }

    /** `getMaximum`: the largest recorded time, or 0 when there is none. */
    function Maximum(): (r: Long)
      reads this
      requires Valid()
      ensures sortedTimes == [] ==> r == 0
      ensures sortedTimes != [] ==> r in sortedTimes && forall x | x in sortedTimes :: x <= r
    {
      if |sortedTimes| == 0 then 0 else sortedTimes[|sortedTimes| - 1]
    }

    /** `getMean`: the total divided by the number of times (truncated), or
        0 when there is none. When the total has not wrapped around, the
        mean lies between the minimum and the maximum. */
    function Mean(): (r: Long)
      reads this
      requires Valid()
      ensures sortedTimes == [] ==> r == 0
      ensures sortedTimes != [] ==> r == Quot(total, |sortedTimes|)
      ensures sortedTimes != [] && LONG_MIN <= Sum(sortedTimes) <= LONG_MAX ==> Minimum() <= r <= Maximum()
    {
      if |sortedTimes| == 0 then 0
      else
        QuotInLong(total, |sortedTimes|);
        MeanBounds(sortedTimes);
        Quot(total, |sortedTimes|)
    }

    /** `getMedian`: the middle time, or the truncated mean of the two middle
        times, or 0 when there is none. Without wrap-around it lies between
        the minimum and the maximum and halves the list. */
    function Median(): (r: Long)
      reads this
      requires Valid()
      ensures sortedTimes == [] ==> r == 0
      ensures |sortedTimes| % 2 == 1 ==> r == sortedTimes[|sortedTimes| / 2]
      ensures var n := |sortedTimes|;
        (n != 0 && n % 2 == 0
         && LONG_MIN <= sortedTimes[n / 2 - 1] + sortedTimes[n / 2] <= LONG_MAX
         ==> sortedTimes[n / 2 - 1] <= r <= sortedTimes[n / 2] && Minimum() <= r <= Maximum())
      ensures var n := |sortedTimes|;
        (n != 0 && n % 2 == 0 ==> r == Quot(Wrap64((sortedTimes[n / 2 - 1] as int) + sortedTimes[n / 2]), 2))
    {
      var n := |sortedTimes|;
      if n == 0 then 0
      else if n % 2 == 1 then sortedTimes[n / 2]
      else
        var a: int, b: int := sortedTimes[n / 2 - 1], sortedTimes[n / 2];
        QuotInLong(Wrap64(a + b), 2);
        MidpointBounds(a, b);
        Quot(Wrap64(a + b), 2)
    }

    /** `getAmount`: how many times were recorded. */
    function Amount(): (r: nat)
      reads this
      ensures r == |sortedTimes|
    {
      |sortedTimes|
    }
  }

  /** The connection tracker: when the current connection or disconnection
      began, and the recorded uptimes and downtimes. */
  class UptimeTracker {
    var connectTime: Long
    var disconnectTime: Long
    const uptimes: TimeData
    const downtimes: TimeData

    /** Both records are valid and distinct, and the tracker is never counting
        a connection and a disconnection at the same time. */
    ghost predicate Valid()
      reads this, uptimes, downtimes
    {
      uptimes != downtimes && uptimes.Valid() && downtimes.Valid()
      && (connectTime == NO_TIME || disconnectTime == NO_TIME)
    }

    constructor ()
      ensures Valid() && fresh(uptimes) && fresh(downtimes)
      ensures connectTime == NO_TIME && disconnectTime == INITIAL_DISCONNECT_TIME
      ensures uptimes.sortedTimes == [] && downtimes.sortedTimes == []
    {
      connectTime := NO_TIME;
      disconnectTime := INITIAL_DISCONNECT_TIME;
      uptimes := new TimeData();
      downtimes := new TimeData();
    }

    /** `disconnected`: the disconnection starts now; a running connection
        ends and its length is recorded as an uptime. */
    method Disconnected(now: Long)
      requires Valid()
      modifies this, uptimes
      ensures Valid()
      ensures disconnectTime == now && connectTime == NO_TIME
      ensures old(connectTime) != NO_TIME ==>
        uptimes.sortedTimes == Insort(old(uptimes.sortedTimes), Wrap64(now - old(connectTime)))
        && uptimes.total == Wrap64(old(uptimes.total) + Wrap64(now - old(connectTime)))
      ensures old(connectTime) == NO_TIME ==> unchanged(uptimes)
      ensures DisconnectAmount() == old(DisconnectAmount()) + (if old(connectTime) != NO_TIME then 1 else 0)
    {
      disconnectTime := now;
      if connectTime != NO_TIME {
        var uptime := Wrap64(disconnectTime - connectTime);
        uptimes.RecordTime(uptime);
        connectTime := NO_TIME;
      }
    }

    /** `connected`: the connection starts now. The first connection records
        no downtime; a running disconnection ends and its length is recorded
        as a downtime. */
    method Connected(now: Long)
      requires Valid()
      modifies this, downtimes
      ensures Valid()
      ensures connectTime == now && disconnectTime == NO_TIME
      ensures old(disconnectTime) != NO_TIME && old(disconnectTime) != INITIAL_DISCONNECT_TIME ==>
        downtimes.sortedTimes == Insort(old(downtimes.sortedTimes), Wrap64(now - old(disconnectTime)))
        && downtimes.total == Wrap64(old(downtimes.total) + Wrap64(now - old(disconnectTime)))
      ensures old(disconnectTime) == NO_TIME || old(disconnectTime) == INITIAL_DISCONNECT_TIME ==> unchanged(downtimes)
      ensures unchanged(uptimes) && DisconnectAmount() == old(DisconnectAmount())
    {
      connectTime := now;
      if disconnectTime == NO_TIME {
      } else if disconnectTime == INITIAL_DISCONNECT_TIME {
        disconnectTime := NO_TIME;
      } else {
        var downtime := Wrap64(connectTime - disconnectTime);
        downtimes.RecordTime(downtime);
        disconnectTime := NO_TIME;
      }
    }

    /** `resumed`: like `connected`, but without the first-connection case:
        any disconnect time other than NO_TIME, the initial one included, is
        taken as the start of a downtime. */
    method Resumed(now: Long)
      requires Valid()
      modifies this, downtimes
      ensures Valid()
      ensures connectTime == now && disconnectTime == NO_TIME
      ensures old(disconnectTime) != NO_TIME ==>
        downtimes.sortedTimes == Insort(old(downtimes.sortedTimes), Wrap64(now - old(disconnectTime)))
        && downtimes.total == Wrap64(old(downtimes.total) + Wrap64(now - old(disconnectTime)))
      ensures old(disconnectTime) == NO_TIME ==> unchanged(downtimes)
      ensures unchanged(uptimes) && DisconnectAmount() == old(DisconnectAmount())
    {
      connectTime := now;
      if disconnectTime != NO_TIME {
        var downtime := Wrap64(connectTime - disconnectTime);
        downtimes.RecordTime(downtime);
        disconnectTime := NO_TIME;
      }
    }

    /** `currentUptime`: the time since the connection began, 0 if not
        connected. */
    function CurrentUptime(now: Long): (r: Long)
      reads this
      ensures connectTime < 0 ==> r == 0
      ensures connectTime >= 0 ==> r == Wrap64(now - connectTime)
      ensures 0 <= connectTime <= now ==> r == now - connectTime && r >= 0
      ensures connectTime >= 0 && now >= 0 ==> r == now - connectTime
    {
      if connectTime >= 0 then Wrap64(now - connectTime) else 0
    }

    /** `currentDowntime`: the time since the disconnection began, 0 if not
        disconnected. */
    function CurrentDowntime(now: Long): (r: Long)
      reads this
      ensures disconnectTime < 0 ==> r == 0
      ensures disconnectTime >= 0 ==> r == Wrap64(now - disconnectTime)
      ensures 0 <= disconnectTime <= now ==> r == now - disconnectTime && r >= 0
      ensures disconnectTime >= 0 && now >= 0 ==> r == now - disconnectTime
    {
      if disconnectTime >= 0 then Wrap64(now - disconnectTime) else 0
    }

    /** `getTotalUptime`: the recorded uptimes plus the running one. */
    function TotalUptime(now: Long): (r: Long)
      reads this, uptimes, downtimes
      requires Valid()
      ensures LONG_MIN <= Sum(uptimes.sortedTimes) + CurrentUptime(now) <= LONG_MAX
          && LONG_MIN <= Sum(uptimes.sortedTimes) <= LONG_MAX
          ==> r == Sum(uptimes.sortedTimes) + CurrentUptime(now)
    {
      Wrap64(uptimes.Total() + CurrentUptime(now))
    }

    /** `getTotalDowntime`: the recorded downtimes plus the running one. */
    function TotalDowntime(now: Long): (r: Long)
      reads this, uptimes, downtimes
      requires Valid()
      ensures LONG_MIN <= Sum(downtimes.sortedTimes) + CurrentDowntime(now) <= LONG_MAX
          && LONG_MIN <= Sum(downtimes.sortedTimes) <= LONG_MAX
          ==> r == Sum(downtimes.sortedTimes) + CurrentDowntime(now)
    {
      Wrap64(downtimes.Total() + CurrentDowntime(now))
    }

    /** `getDisconnectAmount`: one recorded uptime per disconnection that ended
        a connection. */
    function DisconnectAmount(): (r: nat)
      reads this, uptimes
      ensures r == |uptimes.sortedTimes|
    {
      uptimes.Amount()
    }
  }

  /** The tracker never counts a running uptime and a running downtime at the
      same time. */
  lemma NotUpAndDown(t: UptimeTracker, now: Long)
    requires t.Valid()
    ensures t.CurrentUptime(now) == 0 || t.CurrentDowntime(now) == 0
  {
  }

  /** A first connection, a disconnection and a resume: one uptime and one
      downtime are recorded. */
  method ExampleSession() returns (t: UptimeTracker)
    ensures t.Valid()
    ensures t.uptimes.sortedTimes == [4000] && t.downtimes.sortedTimes == [1500]
    ensures t.DisconnectAmount() == 1
    ensures t.CurrentUptime(7000) == 500 && t.CurrentDowntime(7000) == 0
  {
    t := new UptimeTracker();
    t.Connected(1000);
    t.Disconnected(5000);
    t.Resumed(6500);
  }

  /** A resume before any connection takes the initial sentinel as the
      disconnect time. */
  method EarlyResume() returns (t: UptimeTracker)
    ensures t.Valid()
    ensures t.uptimes.sortedTimes == [] && t.downtimes.sortedTimes == [1002]
  {
    t := new UptimeTracker();
    t.Resumed(1000);
  }
}
