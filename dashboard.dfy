/** The dashboard page: the reset button, the "no data" exit, and the
    statistics computed over the stored records. */
module Dashboard {
  import opened Records

  // ---------------------------------------------------------------------
  // Mean, peak and the time of the first peak
  // ---------------------------------------------------------------------

  /** Total occupancy of the records. */
  function Sum(s: seq<Record>): nat {
    if s == [] then 0 else s[0].occupancy + Sum(s[1..])
  }

  /** `df["occupancy"].max()`. */
  function Peak(s: seq<Record>): (p: nat)
    requires |s| > 0
    ensures forall i :: 0 <= i < |s| ==> s[i].occupancy <= p
    ensures exists i :: 0 <= i < |s| && s[i].occupancy == p
  {
    if |s| == 1 then s[0].occupancy
    else
      var q := Peak(s[1..]);
      var i :| 0 <= i < |s[1..]| && s[1..][i].occupancy == q;
      assert s[i + 1].occupancy == q;
      if s[0].occupancy >= q then s[0].occupancy else q
  }

  /** The smallest occupancy; it bounds the mean from below. */
  function Least(s: seq<Record>): (m: nat)
    requires |s| > 0
    ensures forall i :: 0 <= i < |s| ==> m <= s[i].occupancy
    ensures exists i :: 0 <= i < |s| && s[i].occupancy == m
  {
    if |s| == 1 then s[0].occupancy
    else
      var q := Least(s[1..]);
      var i :| 0 <= i < |s[1..]| && s[1..][i].occupancy == q;
      assert s[i + 1].occupancy == q;
      if s[0].occupancy <= q then s[0].occupancy else q
  }

  /** `df["occupancy"].idxmax()`: the position of the first record whose
      occupancy is the largest. */
  function FirstPeak(s: seq<Record>): (k: nat)
    requires |s| > 0
    ensures k < |s|
    ensures forall i :: 0 <= i < |s| ==> s[i].occupancy <= s[k].occupancy
    ensures forall i :: 0 <= i < k ==> s[i].occupancy < s[k].occupancy
  {
    if |s| == 1 then 0
    else
      var j := FirstPeak(s[1..]) + 1;
      if s[0].occupancy >= s[j].occupancy then 0 else j
  }

  /** `df["occupancy"].mean()`, exactly. */
  function Mean(s: seq<Record>): real
    requires |s| > 0
  {
    Sum(s) as real / |s| as real
  }

  lemma {:induction false} SumAtMost(s: seq<Record>, b: nat)
    requires forall i :: 0 <= i < |s| ==> s[i].occupancy <= b
    ensures Sum(s) <= |s| * b
  {
    if s != [] {
      SumAtMost(s[1..], b);
    }
  }

  lemma {:induction false} SumAtLeast(s: seq<Record>, b: nat)
    requires forall i :: 0 <= i < |s| ==> b <= s[i].occupancy
    ensures |s| * b <= Sum(s)
  {
    if s != [] {
      SumAtLeast(s[1..], b);
    }
  }

  /** The real quotient of two integers lies between the bounds that the
      integers satisfy after multiplying through. */
  lemma QuotientBetween(sum: nat, n: nat, lo: nat, hi: nat)
    requires n > 0 && n * lo <= sum <= n * hi
    ensures lo as real <= sum as real / n as real <= hi as real
  {
    var q := sum as real / n as real;
    assert q * n as real == sum as real;
    assert (n * lo) as real == n as real * lo as real;
    assert (n * hi) as real == n as real * hi as real;
  }

  /** The mean lies between the smallest occupancy and the peak. */
  lemma MeanBounds(s: seq<Record>)
    requires |s| > 0
    ensures Least(s) as real <= Mean(s) <= Peak(s) as real
  {
    SumAtMost(s, Peak(s));
    SumAtLeast(s, Least(s));
    QuotientBetween(Sum(s), |s|, Least(s), Peak(s));
  }

  // ---------------------------------------------------------------------
  // Hour-of-day buckets
  // ---------------------------------------------------------------------

  /** The hours that occur among the records. */
  function Hours(s: seq<Record>): set<int> {
    set i | 0 <= i < |s| :: Hour(s[i].timestamp)
  }

  /** The records whose timestamp falls in hour `h`, in order. */
  function Bucket(s: seq<Record>, h: int): (b: seq<Record>)
    ensures |b| <= |s|
  {
    if s == [] then []
    else (if Hour(s[0].timestamp) == h then [s[0]] else []) + Bucket(s[1..], h)
  }

  /** A bucket holds each record of its hour as often as the records do, and
      no record of another hour. */
  lemma {:induction false} BucketMembers(s: seq<Record>, h: int)
    ensures forall r :: multiset(Bucket(s, h))[r] == if Hour(r.timestamp) == h then multiset(s)[r] else 0
  {
    if s != [] {
      BucketMembers(s[1..], h);
      assert s == [s[0]] + s[1..];
      assert multiset(s) == multiset{s[0]} + multiset(s[1..]);
    }
  }

  lemma BucketNonEmpty(s: seq<Record>, h: int)
    requires h in Hours(s)
    ensures |Bucket(s, h)| > 0
  {
    var i :| 0 <= i < |s| && Hour(s[i].timestamp) == h;
    BucketMembers(s, h);
    assert s[i] in multiset(s);
    assert multiset(Bucket(s, h))[s[i]] > 0;
  }

  function BucketMean(s: seq<Record>, h: int): real
    requires h in Hours(s)
  {
    BucketNonEmpty(s, h);
    Mean(Bucket(s, h))
  }

  /** `df.groupby("hour")["occupancy"].mean()`: one entry per populated
      hour, holding the mean occupancy of that hour's records. */
  function Hourly(s: seq<Record>): (m: map<int, real>)
    ensures forall h :: h in m <==> exists i :: 0 <= i < |s| && Hour(s[i].timestamp) == h
    ensures forall h :: h in m ==> 0 <= h < 24
  {
    map h | h in Hours(s) :: BucketMean(s, h)
  }

  /** Each populated hour's entry lies between the smallest and the largest
      occupancy recorded in that hour. */
  lemma HourlyMeans(s: seq<Record>, h: int)
    requires h in Hourly(s)
    ensures |Bucket(s, h)| > 0
    ensures Least(Bucket(s, h)) as real <= Hourly(s)[h] <= Peak(Bucket(s, h)) as real
  {
    BucketNonEmpty(s, h);
    assert Hourly(s)[h] == Mean(Bucket(s, h));
    MeanBounds(Bucket(s, h));
  }

  lemma BucketCons(s: seq<Record>, h: int)
    requires s != []
    ensures |Bucket(s, h)| == |Bucket(s[1..], h)| + (if Hour(s[0].timestamp) == h then 1 else 0)
    ensures Sum(Bucket(s, h)) == Sum(Bucket(s[1..], h)) + (if Hour(s[0].timestamp) == h then s[0].occupancy else 0)
  {
    var rest := Bucket(s[1..], h);
    if Hour(s[0].timestamp) == h {
      assert Bucket(s, h) == [s[0]] + rest;
      assert ([s[0]] + rest)[1..] == rest;
    } else {
      assert Bucket(s, h) == rest;
    }
  }

  /** Total size of the buckets for hours `lo` up to `hi - 1`. */
  function BucketSizes(s: seq<Record>, lo: int, hi: int): nat
    decreases hi - lo
  {
    if lo >= hi then 0 else |Bucket(s, lo)| + BucketSizes(s, lo + 1, hi)
  }

  /** Total occupancy of the buckets for hours `lo` up to `hi - 1`. */
  function BucketTotals(s: seq<Record>, lo: int, hi: int): nat
    decreases hi - lo
  {
    if lo >= hi then 0 else Sum(Bucket(s, lo)) + BucketTotals(s, lo + 1, hi)
  }

  lemma {:induction false} BucketRangeCons(s: seq<Record>, lo: int, hi: int)
    requires s != []
    ensures BucketSizes(s, lo, hi) ==
      BucketSizes(s[1..], lo, hi) + (if lo <= Hour(s[0].timestamp) < hi then 1 else 0)
    ensures BucketTotals(s, lo, hi) ==
      BucketTotals(s[1..], lo, hi) + (if lo <= Hour(s[0].timestamp) < hi then s[0].occupancy else 0)
    decreases hi - lo
  {
    if lo < hi {
      BucketRangeCons(s, lo + 1, hi);
      BucketCons(s, lo);
      assert BucketSizes(s, lo, hi) == |Bucket(s, lo)| + BucketSizes(s, lo + 1, hi);
      assert BucketSizes(s[1..], lo, hi) == |Bucket(s[1..], lo)| + BucketSizes(s[1..], lo + 1, hi);
      assert BucketTotals(s, lo, hi) == Sum(Bucket(s, lo)) + BucketTotals(s, lo + 1, hi);
      assert BucketTotals(s[1..], lo, hi) == Sum(Bucket(s[1..], lo)) + BucketTotals(s[1..], lo + 1, hi);
    } else {
      assert BucketSizes(s, lo, hi) == 0 == BucketSizes(s[1..], lo, hi);
      assert BucketTotals(s, lo, hi) == 0 == BucketTotals(s[1..], lo, hi);
    }
  }

  lemma {:induction false} NoBuckets(s: seq<Record>, lo: int, hi: int)
    requires s == []
    ensures BucketSizes(s, lo, hi) == 0 && BucketTotals(s, lo, hi) == 0
    decreases hi - lo
  {
    if lo < hi {
      NoBuckets(s, lo + 1, hi);
    }
  }

  /** The hour buckets partition the records: their sizes add up to the
      number of records, and their totals to the total occupancy. */
  lemma {:induction false} BucketsPartition(s: seq<Record>)
    ensures BucketSizes(s, 0, 24) == |s|
    ensures BucketTotals(s, 0, 24) == Sum(s)
  {
    if s != [] {
      BucketRangeCons(s, 0, 24);
      BucketsPartition(s[1..]);
    } else {
      NoBuckets(s, 0, 24);
    }
  }

  // ---------------------------------------------------------------------
  // The page
  // ---------------------------------------------------------------------

  datatype Stats = Stats(mean: real, peak: nat, peakTime: Instant, hourly: map<int, real>)

  /** What one run of the page ends in: the reset message, the "no data"
      message, the failure of reading a file that holds no rows, or the
      statistics. */
  datatype View = ResetDone | NoData | EmptyData | Shown(stats: Stats)

  /** Everything the page computes from the store's contents. */
  function Summarize(file: Option<seq<Record>>): (v: View)
    ensures v.NoData? <==> file.None?
    ensures v.EmptyData? <==> file == Some([])
    ensures v.Shown? <==> file.Some? && file.value != []
    ensures v.Shown? ==> forall i :: 0 <= i < |file.value| ==> file.value[i].occupancy <= v.stats.peak
    ensures v.Shown? ==>
      exists k :: 0 <= k < |file.value| && file.value[k] == Record(v.stats.peakTime, v.stats.peak) &&
                  forall i :: 0 <= i < k ==> file.value[i].occupancy < v.stats.peak
    ensures v.Shown? ==> v.stats.mean == Mean(file.value) && v.stats.hourly == Hourly(file.value)
    ensures v.Shown? ==> v.stats.mean <= v.stats.peak as real
    ensures v.Shown? ==> exists i :: 0 <= i < |file.value| && file.value[i].occupancy as real <= v.stats.mean
    ensures v.Shown? ==> forall h :: h in v.stats.hourly <==>
      exists i :: 0 <= i < |file.value| && Hour(file.value[i].timestamp) == h
  {
    match file
    case None => NoData
    case Some(s) =>
      if s == [] then EmptyData
      else
        var k := FirstPeak(s);
        MeanBounds(s);
        assert s[k].occupancy == Peak(s);
        Shown(Stats(Mean(s), Peak(s), s[k].timestamp, Hourly(s)))
  }

  /** The three records of the worked example: 09:00 with 2, 09:30 with 4 and
      10:15 with 4, on the first day of the clock. */
  const Example: seq<Record> :=
    [Record(9 * MillisPerHour, 2), Record(9 * MillisPerHour + 1_800_000, 4),
     Record(10 * MillisPerHour + 900_000, 4)]

  /** Hours 9 and 10 hold two records (total 6) and one record (total 4). */
  lemma ExampleBuckets()
    ensures Hours(Example) == {9, 10}
    ensures Bucket(Example, 9) == Example[..2] && Sum(Example[..2]) == 6
    ensures Bucket(Example, 10) == Example[2..] && Sum(Example[2..]) == 4
    ensures Mean(Example[..2]) == 3.0 && Mean(Example[2..]) == 4.0
  {
    var s := Example;
    assert Hour(s[0].timestamp) == 9 && Hour(s[1].timestamp) == 9 && Hour(s[2].timestamp) == 10;
    assert Hours(s) == {9, 10};
    assert s[1..][1..] == [s[2]] && [s[2]][1..] == [];
    assert Bucket(s[2..], 9) == [] && Bucket(s[2..], 10) == [s[2]];
    assert Bucket(s, 9) == [s[0], s[1]] && Bucket(s, 10) == [s[2]];
    assert Sum([s[1]]) == 4 by { assert [s[1]][1..] == []; }
    assert Sum([s[2]]) == 4 by { assert [s[2]][1..] == []; }
    assert Sum([s[0], s[1]]) == 6 by { assert [s[0], s[1]][1..] == [s[1]]; }
  }

  /** Hours 9 and 10 average 3 and 4. */
  lemma HourlyExample()
    ensures Hourly(Example).Keys == {9, 10}
    ensures Hourly(Example)[9] == 3.0 && Hourly(Example)[10] == 4.0
  {
    ExampleBuckets();
    BucketNonEmpty(Example, 9);
    BucketNonEmpty(Example, 10);
    assert Hourly(Example)[9] == Mean(Bucket(Example, 9));
    assert Hourly(Example)[10] == Mean(Bucket(Example, 10));
  }

  /** Mean 10/3 and peak 4, first reached at 09:30. */
  lemma SummarizeExample()
    ensures Summarize(Some(Example)).Shown?
    ensures Summarize(Some(Example)).stats.mean == 10.0 / 3.0
    ensures Summarize(Some(Example)).stats.peak == 4
    ensures Summarize(Some(Example)).stats.peakTime == 9 * MillisPerHour + 1_800_000
    ensures Summarize(Some(Example)).stats.hourly == Hourly(Example)
  {
    var s := Example;
    assert s[1..][1..] == [s[2]];
    assert Sum([s[2]]) == 4 by { assert [s[2]][1..] == []; }
    assert Sum(s[1..]) == 8;
    assert Sum(s) == 10;
    assert Peak(s) == 4;
    assert FirstPeak(s) == 1;
  }

  // ---------------------------------------------------------------------
  // The page as it runs against the store
  // ---------------------------------------------------------------------

  /** One run of the dashboard page. A pressed reset deletes an existing file
      and stops the page; otherwise (and also when reset finds no file) the
      page shows "no data" or the statistics of the file. */
  method RunDashboard(resetPressed: bool, store: Store) returns (v: View)
    modifies store
    ensures resetPressed && old(store.file).Some? ==> store.file == None && v == ResetDone
    ensures !(resetPressed && old(store.file).Some?) ==>
      store.file == old(store.file) && v == Summarize(store.file)
  {
    if resetPressed && store.file.Some? {
      store.Remove();
      v := ResetDone;
      return;
    }
    v := Summarize(store.file);
  }

  /** Pressing reset twice: the first run deletes the file, the second finds
      none and shows "no data"; the store stays absent. */
  method ResetTwice(store: Store) returns (first: View, second: View)
    modifies store
    ensures store.file == None
    ensures first == (if old(store.file).Some? then ResetDone else NoData)
    ensures second == NoData
  {
    first := RunDashboard(true, store);
    second := RunDashboard(true, store);
  }
}
