/** The sample aggregator of dataCollector.py: a running window mean, lifetime
    extrema, and a bounded history of committed window means with a running
    overall average and its order of magnitude. Samples and averages are ideal
    reals. */
module DataCollection {

  /** The error `math.log10` raises for a zero argument. */
  datatype MathError = DomainError

  datatype Result<T> = Ok(value: T) | Err(error: MathError)

  datatype Outcome = Pass | Fail(error: MathError)

  /** Capacity of the committed history (`count_max`). */
  const CountMax: nat := 100

  /** Class-level starting values of `max` and `min`: finite, so before any
      sample `max < min`. */
  const MaxSentinel: real := -10000.0
  const MinSentinel: real := 10000.0

  function Abs(x: real): real
  {
    if x < 0.0 then -x else x
  }

  // ---------------------------------------------------------------------------
  // Powers of ten and GetScale

  /** 10^n for every integer n. */
  function Pow10(n: int): (p: real)
    ensures p > 0.0
    decreases if n < 0 then -n else n
  {
    if n == 0 then 1.0
    else if n > 0 then 10.0 * Pow10(n - 1)
    else Pow10(n + 1) / 10.0
  }

  lemma Pow10Succ(n: int)
    ensures Pow10(n + 1) == 10.0 * Pow10(n)
  {
    if n < 0 {
      assert Pow10(n) == Pow10(n + 1) / 10.0;
    }
  }

  /** Powers of ten grow with the exponent. */
  lemma {:induction false} Pow10Monotone(m: int, n: int)
    requires m <= n
    ensures Pow10(m) <= Pow10(n)
    decreases n - m
  {
    if m < n {
      Pow10Monotone(m, n - 1);
      Pow10Succ(n - 1);
    }
  }

  /** ceil(log10 a) for a > 1: the least n with a <= 10^n. */
  function CeilLog10(a: real): (n: int)
    requires a > 1.0
    ensures n >= 1 && Pow10(n - 1) < a <= Pow10(n)
    decreases a.Floor
  {
    if a <= 10.0 then
      assert Pow10(1) == 10.0 * Pow10(0);
      1
    else
      var k := CeilLog10(a / 10.0);
      Pow10Succ(k);
      Pow10Succ(k - 1);
      k + 1
  }

  /** floor(log10 a) for 0 < a < 10: the greatest n with 10^n <= a. */
  function FloorLog10(a: real): (n: int)
    requires 0.0 < a < 10.0
    ensures n <= 0 && Pow10(n) <= a < Pow10(n + 1)
    decreases (1.0 / a).Floor
  {
    if a >= 1.0 then
      assert Pow10(1) == 10.0 * Pow10(0);
      0
    else
      assert 1.0 / (a * 10.0) == (1.0 / a) / 10.0;
      var k := FloorLog10(a * 10.0);
      Pow10Succ(k - 1);
      k - 1
  }

  /** `GetScale`: the order of magnitude of x, rounded away from 1 (ceil of
      log10 |x| above 1, floor of it at or below 1). Zero is the domain error
      of `math.log10`. */
  function GetScale(x: real): (r: Result<int>)
    ensures r.Err? <==> x == 0.0
    ensures r.Ok? && Abs(x) > 1.0 ==>
              r.value >= 1 && Pow10(r.value - 1) < Abs(x) <= Pow10(r.value)
    ensures r.Ok? && Abs(x) <= 1.0 ==>
              r.value <= 0 && Pow10(r.value) <= Abs(x) < Pow10(r.value + 1)
  {
    var a := Abs(x);
    if a == 0.0 then Err(DomainError)
    else if a > 1.0 then Ok(CeilLog10(a))
    else Ok(FloorLog10(a))
  }

  /** Above 1 the scale is the LEAST exponent whose power of ten reaches |x|. */
  lemma GetScaleIsLeast(x: real, n: int)
    requires Abs(x) > 1.0 && Abs(x) <= Pow10(n)
    ensures GetScale(x).Ok? && GetScale(x).value <= n
  {
    var r := GetScale(x).value;
    if n < r {
      Pow10Monotone(n, r - 1);
    }
  }

  /** At or below 1 the scale is the GREATEST exponent whose power of ten does
      not exceed |x|. */
  lemma GetScaleIsGreatest(x: real, n: int)
    requires 0.0 < Abs(x) <= 1.0 && Pow10(n) <= Abs(x)
    ensures GetScale(x).Ok? && n <= GetScale(x).value
  {
    var r := GetScale(x).value;
    if r < n {
      Pow10Monotone(r + 1, n);
    }
  }

  // ---------------------------------------------------------------------------
  // Means and the bounded history

  function Sum(s: seq<real>): real
  {
    if s == [] then 0.0 else Sum(s[..|s| - 1]) + s[|s| - 1]
  }

  function Mean(s: seq<real>): real
    requires s != []
  {
    Sum(s) / |s| as real
  }

  /** The recurrence `(n*avg + v)/(n+1)`, started from the mean of n values
      (or from anything when n is 0), is the mean of the n+1 values. */
  lemma MeanAppend(s: seq<real>, avg: real, v: real)
    requires s != [] ==> avg == Mean(s)
    ensures (|s| as real * avg + v) / (|s| as real + 1.0) == Mean(s + [v])
  {
    assert (s + [v])[..|s|] == s;
    assert Sum(s + [v]) == Sum(s) + v;
    if s != [] {
      assert |s| as real * avg == Sum(s);
    }
  }

  /** The last n elements of s (all of s when it is shorter). */
  function LastN(s: seq<real>, n: nat): (r: seq<real>)
    ensures |r| <= n && |r| <= |s|
  {
    if |s| <= n then s else s[|s| - n..]
  }

  /** What `commit` does to `commited_data`: append, then drop the oldest
      entry once the list is longer than `count_max`. */
  function Pushed(h: seq<real>, v: real): (r: seq<real>)
    ensures |h| <= CountMax ==> |r| <= CountMax
    ensures |r| > 0 && r[|r| - 1] == v
    ensures |h| < CountMax ==> r == h + [v]
    ensures |h| == CountMax ==> r == h[1..] + [v]
  {
    var appended := h + [v];
    if |appended| > CountMax then appended[1..] else appended
  }

  /** The history is always the last `count_max` of all committed averages. */
  lemma PushedKeepsLastN(all: seq<real>, v: real)
    ensures Pushed(LastN(all, CountMax), v) == LastN(all + [v], CountMax)
  {
    var h := LastN(all, CountMax);
    if |all| >= CountMax {
      assert h == all[|all| - CountMax..];
      assert (all + [v])[|all| + 1 - CountMax..] == h[1..] + [v];
    }
  }

  /** Two commits with no sample in between append the same value twice. */
  lemma CommitTwiceRepeats(h: seq<real>, v: real)
    requires |h| <= CountMax
    ensures var h2 := Pushed(Pushed(h, v), v);
            |h2| >= 2 && h2[|h2| - 1] == v && h2[|h2| - 2] == v
  {
    var h1 := Pushed(h, v);
    assert h1[|h1| - 1] == v;
  }

  // ---------------------------------------------------------------------------
  // The aggregator

  /** The pending average is the mean of the samples since the last commit. */
  ghost predicate WindowInv(dataCount: nat, window: seq<real>, average: real)
  {
    dataCount == |window| && (window != [] ==> average == Mean(window))
  }

  /** The history is the last `count_max` commits; until the first eviction
      the overall average is their mean. */
  ghost predicate HistoryInv(commitedData: seq<real>, commits: seq<real>, averageWhole: real)
  {
    && commitedData == LastN(commits, CountMax)
    && (|commits| <= CountMax ==>
          if commits == [] then averageWhole == 0.0 else averageWhole == Mean(commitedData))
  }

  /** The running-mean recurrence of `add` and `commit`. */
  function Blend(n: nat, avg: real, v: real): real
  {
    (n as real * avg + v) / (n as real + 1.0)
  }

  lemma WindowAdd(dataCount: nat, window: seq<real>, average: real, value: real)
    requires WindowInv(dataCount, window, average)
    ensures WindowInv(dataCount + 1, window + [value], Blend(dataCount, average, value))
    ensures Blend(dataCount, average, value) == Mean(window + [value])
  {
    MeanAppend(window, average, value);
  }

  lemma ExtremaAdd(samples: seq<real>, max: real, min: real, value: real)
    requires ExtremaInv(samples, max, min)
    ensures ExtremaInv(samples + [value], if value > max then value else max,
                       if value < min then value else min)
  {
  }

  lemma HistoryPush(commitedData: seq<real>, commits: seq<real>, averageWhole: real, v: real)
    requires HistoryInv(commitedData, commits, averageWhole)
    ensures |Pushed(commitedData, v)| >= 1
    ensures HistoryInv(Pushed(commitedData, v), commits + [v],
                       Blend(|Pushed(commitedData, v)| - 1, averageWhole, v))
  {
    PushedKeepsLastN(commits, v);
    if |commits| < CountMax {
      MeanAppend(commitedData, averageWhole, v);
    }
  }

  /** `max`/`min` are the extrema of the samples and the sentinels. */
  ghost predicate ExtremaInv(samples: seq<real>, max: real, min: real)
  {
    && MaxSentinel <= max && min <= MinSentinel
    && (forall i | 0 <= i < |samples| :: min <= samples[i] <= max)
    && (max == MaxSentinel || max in samples)
    && (min == MinSentinel || min in samples)
  }

  class DataCollector {
    var commitedData: seq<real>
    var dataCount: nat
    var average: real
    var averageWhole: real
    var scale: int
    var lastValue: real
    var max: real
    var min: real
    const name: string

    /** Samples added since the last commit. */
    ghost var window: seq<real>
    /** Every sample ever added. */
    ghost var samples: seq<real>
    /** Every average ever committed, oldest first. */
    ghost var commits: seq<real>

    ghost predicate Valid()
      reads this
    {
      && WindowInv(dataCount, window, average)
      && HistoryInv(commitedData, commits, averageWhole)
      && ExtremaInv(samples, max, min)
    }

    constructor (name: string)
      ensures Valid()
      ensures commitedData == [] && dataCount == 0 && average == 0.0
      ensures averageWhole == 0.0 && scale == 0 && lastValue == 0.0
      ensures max == MaxSentinel && min == MinSentinel && this.name == name
      ensures window == [] && samples == [] && commits == []
    {
      commitedData := [];
      dataCount := 0;
      average := 0.0;
      averageWhole := 0.0;
      scale := 0;
      lastValue := 0.0;
      max := MaxSentinel;
      min := MinSentinel;
      this.name := name;
      window, samples, commits := [], [], [];
    }

    /** `add`, with the sample passed in instead of read from the callback. */
    method Add(value: real)
      requires Valid()
      modifies this
      ensures Valid()
      ensures window == old(window) + [value] && samples == old(samples) + [value]
      ensures average == Blend(old(dataCount), old(average), value)
      ensures dataCount == old(dataCount) + 1
      ensures max == (if value > old(max) then value else old(max))
      ensures min == (if value < old(min) then value else old(min))
      ensures min <= value <= max && old(max) <= max && min <= old(min)
      ensures lastValue == value
      ensures commitedData == old(commitedData) && commits == old(commits)
      ensures averageWhole == old(averageWhole) && scale == old(scale)
    {
      WindowAdd(dataCount, window, average, value);
      ExtremaAdd(samples, max, min, value);
      average := Blend(dataCount, average, value);
      dataCount := dataCount + 1;
      max := if value > max then value else max;
      min := if value < min then value else min;
      lastValue := value;
      window := window + [value];
      samples := samples + [value];
    }

    /** `commit`: push the window mean into the history, update the overall
        average, then the scale. A zero overall average makes `GetScale` fail
        after everything else has been updated; `scale` then keeps its value. */
    method Commit() returns (outcome: Outcome)
      requires Valid()
      modifies this
      ensures Valid()
      ensures dataCount == 0 && window == [] && average == old(average)
      ensures commits == old(commits) + [old(average)]
      ensures commitedData == Pushed(old(commitedData), old(average))
      ensures averageWhole == Blend(|commitedData| - 1, old(averageWhole), old(average))
      ensures outcome.Fail? <==> averageWhole == 0.0
      ensures scale == (if GetScale(averageWhole).Ok? then GetScale(averageWhole).value else old(scale))
      ensures max == old(max) && min == old(min) && lastValue == old(lastValue)
      ensures samples == old(samples)
    {
      HistoryPush(commitedData, commits, averageWhole, average);
      dataCount := 0;
      window := [];
      commitedData := Pushed(commitedData, average);
      commits := commits + [average];
      averageWhole := Blend(|commitedData| - 1, averageWhole, average);
      var s := GetScale(averageWhole);
      if s.Err? {
        return Fail(s.error);
      }
      scale := s.value;
      outcome := Pass;
    }

    /** `get_data`: the last `count_max` committed averages, oldest first. */
    function GetData(): (d: seq<real>)
      reads this
      ensures Valid() ==> |d| <= CountMax && d == LastN(commits, CountMax)
    {
      commitedData
    }
  }

  /** One window of three samples followed by a commit. */
  method AddThreeAndCommit(c: DataCollector, a: real, b: real, e: real)
    requires c.Valid() && c.dataCount == 0
    modifies c
    ensures c.Valid() && c.dataCount == 0
    ensures c.commitedData == Pushed(old(c.commitedData), Mean([a, b, e]))
  {
    c.Add(a);
    c.Add(b);
    c.Add(e);
    assert c.window == [a, b, e];
    var outcome := c.Commit();
  }

  /** The script at the end of dataCollector.py: the samples 1..9, three per
      window, give the history [2.0, 5.0, 8.0]. */
  method ReferenceScenario() returns (d: seq<real>)
    ensures d == [2.0, 5.0, 8.0]
  {
    var c := new DataCollector("");
    AddThreeAndCommit(c, 1.0, 2.0, 3.0);
    MeanOfThree(1.0, 2.0, 3.0);
    assert c.commitedData == [2.0];
    AddThreeAndCommit(c, 4.0, 5.0, 6.0);
    MeanOfThree(4.0, 5.0, 6.0);
    assert c.commitedData == [2.0, 5.0];
    AddThreeAndCommit(c, 7.0, 8.0, 9.0);
    MeanOfThree(7.0, 8.0, 9.0);
    d := c.GetData();
  }

  lemma MeanOfThree(a: real, b: real, e: real)
    ensures Mean([a, b, e]) == (a + b + e) / 3.0
  {
    assert [a, b, e][..2] == [a, b];
    assert [a, b][..1] == [a];
    assert [a][..0] == [];
    assert Sum([a]) == a;
    assert Sum([a, b]) == a + b;
    assert Sum([a, b, e]) == a + b + e;
  }
}
