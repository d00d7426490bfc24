/** The sliding windows of usage points, keyed by usage type and id. */
module Usage {
  import opened Wire

  datatype UsageType = Cpu | Ram | Network

  datatype Key = Key(usageType: UsageType, id: nat)

  datatype Point = Point(key: Key, value: Double)

  const MAX_DATA_POINTS := 60

  // ---------- doubles ----------

  function Plus(a: Double, b: Double): Double {
    if a.Fin? && b.Fin? then Fin(a.r + b.r) else NonFinite
  }

  function Sum(points: seq<Double>): Double
    decreases |points|
  {
    if points == [] then Fin(0.0) else Plus(Sum(points[..|points| - 1]), points[|points| - 1])
  }

  function Divided(d: Double, n: nat): Double {
    if n == 0 || !d.Fin? then NonFinite else Fin(d.r / (n as real))
  }

  function Average(points: seq<Double>): Double { Divided(Sum(points), |points|) }

  predicate Within(d: Double, low: real, high: real) { d.Fin? && low <= d.r <= high }

  predicate AllWithin(points: seq<Double>, low: real, high: real) {
    forall i :: 0 <= i < |points| ==> Within(points[i], low, high)
  }

  lemma {:induction false} SumWithin(points: seq<Double>, low: real, high: real)
    requires AllWithin(points, low, high)
    ensures Within(Sum(points), low * (|points| as real), high * (|points| as real))
    decreases |points|
  {
    if points != [] {
      var front := points[..|points| - 1];
      SumWithin(front, low, high);
      assert points[|points| - 1] in points;
      assert (|points| as real) == (|front| as real) + 1.0;
      Distribute(low, |front| as real);
      Distribute(high, |front| as real);
    }
  }

  lemma Distribute(a: real, n: real)
    ensures a * (n + 1.0) == a * n + a
  {
  }

  /** The average of finite points lies between any bounds of theirs, in particular
      between the smallest and the largest. */
  lemma AverageBetween(points: seq<Double>, low: real, high: real)
    requires points != [] && AllWithin(points, low, high)
    ensures Within(Average(points), low, high)
  {
    SumWithin(points, low, high);
    var n := |points| as real;
    DivideBounds(Sum(points).r, low, high, n);
  }

  lemma DivideBounds(x: real, low: real, high: real, n: real)
    requires n > 0.0 && low * n <= x <= high * n
    ensures low <= x / n <= high
  {
    var q := x / n;
    assert q * n == x;
    assert q < low ==> q * n < low * n;
    assert q > high ==> q * n > high * n;
  }

  /** One point that is not finite spoils the whole window. */
  lemma {:induction false} FiniteSum(points: seq<Double>)
    ensures Sum(points).Fin? <==> forall i :: 0 <= i < |points| ==> points[i].Fin?
    decreases |points|
  {
    if points != [] {
      FiniteSum(points[..|points| - 1]);
    }
  }

  // ---------- the sum and the mean ----------

  lemma SumOne(x: Double)
    ensures Sum([x]) == Plus(Fin(0.0), x) == x
  {
    assert [x][..0] == [];
  }

  lemma PlusLaws(a: Double, b: Double, c: Double)
    ensures Plus(Plus(a, b), c) == Plus(a, Plus(b, c)) && Plus(a, b) == Plus(b, a)
    ensures a.Fin? && b.Fin? ==> Plus(a, b) == Fin(a.r + b.r)
  {
  }

  lemma SumNext(points: seq<Double>, x: Double)
    ensures Sum(points + [x]) == Plus(Sum(points), x)
  {
    assert (points + [x])[..|points|] == points;
  }

  /** The sum of a concatenation. */
  lemma {:induction false} SumConcat(a: seq<Double>, b: seq<Double>)
    ensures Sum(a + b) == Plus(Sum(a), Sum(b))
    decreases |b|
  {
    if b == [] {
      assert a + b == a;
    } else {
      var front, x := b[..|b| - 1], b[|b| - 1];
      assert a + b == (a + front) + [x];
      SumConcat(a, front);
      SumNext(a + front, x);
      SumNext(front, x);
      assert b == front + [x];
      PlusLaws(Sum(a), Sum(front), x);
    }
  }

  /** A point in the middle may as well come last. */
  lemma SumMiddle(b1: seq<Double>, x: Double, b2: seq<Double>)
    ensures Sum(b1 + ([x] + b2)) == Plus(Sum(b1 + b2), x)
  {
    SumConcat(b1, [x] + b2);
    SumConcat([x], b2);
    SumConcat(b1, b2);
    SumOne(x);
    PlusLaws(x, Sum(b2), Sum(b2));
    PlusLaws(Sum(b1), Sum(b2), x);
  }

  lemma SameWithout(a: seq<Double>, b1: seq<Double>, b2: seq<Double>, x: Double)
    requires multiset(a + [x]) == multiset(b1 + ([x] + b2))
    ensures multiset(a) == multiset(b1 + b2)
  {
    assert multiset(a) + multiset{x} == multiset(b1) + multiset(b2) + multiset{x};
    assert multiset(b1 + b2) == multiset(b1) + multiset(b2);
    assert multiset(a) == (multiset(a) + multiset{x}) - multiset{x};
    assert multiset(b1 + b2) == (multiset(b1 + b2) + multiset{x}) - multiset{x};
  }

  /** The order of the points does not matter. */
  lemma {:induction false} SumOrder(a: seq<Double>, b: seq<Double>)
    requires multiset(a) == multiset(b)
    ensures Sum(a) == Sum(b)
    decreases |a|
  {
    if a != [] {
      var front, x := a[..|a| - 1], a[|a| - 1];
      assert a == front + [x];
      assert x in multiset(b);
      var i :| 0 <= i < |b| && b[i] == x;
      var b1, b2 := b[..i], b[i + 1..];
      assert b == b1 + ([x] + b2);
      SameWithout(front, b1, b2, x);
      SumOrder(front, b1 + b2);
      SumMiddle(b1, x, b2);
    } else {
      assert |multiset(a)| == |multiset(b)|;
    }
  }

  /** The average, taken as often as there are points, is their sum. */
  lemma AverageIsMean(points: seq<Double>)
    ensures Average(points).Fin? <==> points != [] && Sum(points).Fin?
    ensures Average(points).Fin? ==> Average(points).r * (|points| as real) == Sum(points).r
  {
    if points != [] && Sum(points).Fin? {
      TimesDivided(Sum(points).r, |points| as real);
    }
  }

  lemma TimesDivided(x: real, n: real)
    requires n != 0.0
    ensures x / n * n == x
  {
  }

  /** v is part in percent of whole, a division by zero included. */
  predicate IsShare(v: Double, part: int, whole: int) {
    if whole == 0 then v.NonFinite? else v.Fin? && v.r * (whole as real) == 100.0 * (part as real)
  }

  lemma PercentIsShare(part: int, whole: int)
    ensures IsShare(Percent(part, whole), part, whole)
  {
    if whole != 0 {
      TimesDivided(100.0 * (part as real), whole as real);
    }
  }

  /** 100.0 * part / whole */
  function Percent(part: int, whole: int): Double {
    if whole == 0 then NonFinite else Fin(100.0 * (part as real) / (whole as real))
  }

  lemma PercentWithin(part: int, whole: int)
    requires 0 <= part <= whole && whole > 0
    ensures Within(Percent(part, whole), 0.0, 100.0)
  {
    var p, w := part as real, whole as real;
    DivideBounds(100.0 * p, 0.0, 100.0, w);
  }

  lemma WindowWithin(points: seq<Double>, low: real, high: real)
    requires AllWithin(points, low, high)
    ensures AllWithin(Window(points), low, high)
  {
    WindowIsLast61(points);
  }

  // ---------- windows ----------

  /** addPoint */
  function Slide(window: seq<Double>, point: Double): seq<Double> {
    (if |window| > MAX_DATA_POINTS then window[1..] else window) + [point]
  }

  /** The window after all the points, one at a time. */
  function Window(points: seq<Double>): seq<Double>
    decreases |points|
  {
    if points == [] then [] else Slide(Window(points[..|points| - 1]), points[|points| - 1])
  }

  function LastN<T>(s: seq<T>, n: nat): seq<T> {
    if |s| <= n then s else s[|s| - n..]
  }

  /** The limit is tested with > before the push, so a window keeps one point more
      than RMS_MAX_CONTAINER_DATA_POINTS: exactly the last 61. */
  lemma {:induction false} WindowIsLast61(points: seq<Double>)
    ensures Window(points) == LastN(points, 61)
    decreases |points|
  {
    if points != [] {
      var front, last := points[..|points| - 1], points[|points| - 1];
      WindowIsLast61(front);
      assert points == front + [last];
    }
  }

  /** The values of the points with a key, in order. */
  function Of(history: seq<Point>, key: Key): seq<Double>
    decreases |history|
  {
    if history == [] then []
    else
      var last := history[|history| - 1];
      Of(history[..|history| - 1], key) + (if last.key == key then [last.value] else [])
  }

  /** The keys of the points, in the order of their first points. */
  function KeysOf(history: seq<Point>): seq<Key>
    decreases |history|
  {
    if history == [] then []
    else
      var keys, last := KeysOf(history[..|history| - 1]), history[|history| - 1].key;
      if last in keys then keys else keys + [last]
  }

  lemma KeysAppend(history: seq<Point>, p: Point)
    ensures KeysOf(history + [p]) == if p.key in KeysOf(history) then KeysOf(history) else KeysOf(history) + [p.key]
  {
    assert (history + [p])[..|history|] == history;
  }

  lemma OfSame(history: seq<Point>, p: Point)
    ensures Of(history + [p], p.key) != []
    ensures Window(Of(history + [p], p.key)) == Slide(Window(Of(history, p.key)), p.value)
  {
    assert (history + [p])[..|history|] == history;
    var points := Of(history, p.key);
    assert (points + [p.value])[..|points|] == points;
  }

  lemma OfOther(history: seq<Point>, p: Point, key: Key)
    requires p.key != key
    ensures Of(history + [p], key) == Of(history, key)
  {
    assert (history + [p])[..|history|] == history;
  }

  // ---------- the classes ----------

  class UsageContainer {
    const usageType: UsageType
    const id: nat
    const culminating: bool
    var dataPoints: seq<Double>
    var tableExist: bool

    constructor (usageType: UsageType, id: nat, culminating: bool := false)
      ensures this.usageType == usageType && this.id == id && this.culminating == culminating
      ensures dataPoints == [] && !tableExist
    {
      this.usageType, this.id, this.culminating, dataPoints, tableExist := usageType, id, culminating, [], false;
    }

    function KeyOf(): Key { Key(usageType, id) }

    /** The sum if culminating, else the mean: a number exactly if every point is one,
        and then between any bounds of the points. */
    method GetData() returns (d: Double)
      ensures d == if culminating then Sum(dataPoints) else Average(dataPoints)
      ensures !culminating && d.Fin? ==> d.r * (|dataPoints| as real) == Sum(dataPoints).r
      ensures dataPoints != [] ==> (d.Fin? <==> forall i :: 0 <= i < |dataPoints| ==> dataPoints[i].Fin?)
      ensures forall low, high :: !culminating && dataPoints != [] && AllWithin(dataPoints, low, high) ==> Within(d, low, high)
    {
      var sum := Fin(0.0);
      for i := 0 to |dataPoints|
        invariant sum == Sum(dataPoints[..i])
      {
        assert dataPoints[..i + 1][..i] == dataPoints[..i];
        sum := Plus(sum, dataPoints[i]);
      }
      assert dataPoints[..|dataPoints|] == dataPoints;
      FiniteSum(dataPoints);
      AverageIsMean(dataPoints);
      forall low, high | dataPoints != [] && AllWithin(dataPoints, low, high)
        ensures Within(Average(dataPoints), low, high)
      {
        AverageBetween(dataPoints, low, high);
      }
      d := if culminating then sum else Divided(sum, |dataPoints|);
    }

    method AddPoint(point: Double)
      modifies this`dataPoints
      ensures dataPoints == Slide(old(dataPoints), point)
    {
      if |dataPoints| > MAX_DATA_POINTS {
        dataPoints := dataPoints[1..];
      }
      dataPoints := dataPoints + [point];
    }
  }

  /** There is a container for each key, in the order of their first points. */
  ghost predicate InOrder(containers: seq<UsageContainer>, history: seq<Point>) {
    |containers| == |KeysOf(history)| && forall i :: 0 <= i < |containers| ==> containers[i].KeyOf() == KeysOf(history)[i]
  }

  lemma InOrderSame(containers: seq<UsageContainer>, history: seq<Point>, p: Point, i: nat)
    requires InOrder(containers, history) && i < |containers| && containers[i].KeyOf() == p.key
    ensures InOrder(containers, history + [p])
  {
    KeysAppend(history, p);
    assert KeysOf(history)[i] == p.key;
  }

  lemma InOrderNew(containers: seq<UsageContainer>, c: UsageContainer, history: seq<Point>, p: Point)
    requires InOrder(containers, history) && c.KeyOf() == p.key
    requires forall k :: 0 <= k < |containers| ==> containers[k].KeyOf() != p.key
    ensures InOrder(containers + [c], history + [p]) && Of(history, p.key) == []
  {
    KeysAppend(history, p);
    assert forall k :: 0 <= k < |KeysOf(history)| ==> KeysOf(history)[k] == containers[k].KeyOf();
    NoPoints(history, p.key);
  }

  /** The container averages, and holds the window of its own points, at least one.
      No code sets tableExist. */
  ghost predicate Filled(c: UsageContainer, history: seq<Point>)
    reads c
  {
    !c.culminating && !c.tableExist && Of(history, c.KeyOf()) != [] && c.dataPoints == Window(Of(history, c.KeyOf()))
  }

  /** usage_info_ of RmsComputer. history records every point ever added. */
  class UsageInfo {
    var containers: seq<UsageContainer>
    ghost var history: seq<Point>
    ghost var Repr: set<object>

    /** Distinct objects, one for each key in order, each filled. */
    ghost predicate Valid()
      reads this, Repr
      ensures Valid() ==> this in Repr
    {
      && this in Repr
      && (forall i :: 0 <= i < |containers| ==> containers[i] in Repr && (containers[i] as object) != this)
      && (forall i, j :: 0 <= i < j < |containers| ==>
            containers[i] != containers[j] && containers[i].KeyOf() != containers[j].KeyOf())
      && (forall i :: 0 <= i < |containers| ==> Filled(containers[i], history))
      && InOrder(containers, history)
    }

    constructor ()
      ensures Valid() && fresh(Repr) && containers == [] && history == []
    {
      containers, history, Repr := [], [], {this};
    }

    method AddUsageInfo(usageType: UsageType, value: Double, id: nat)
      requires Valid()
      modifies Repr
      ensures Valid() && fresh(Repr - old(Repr)) && history == old(history) + [Point(Key(usageType, id), value)]
    {
      var i := 0;
      while i < |containers| && !(containers[i].usageType == usageType && containers[i].id == id)
        invariant 0 <= i <= |containers|
        invariant forall k :: 0 <= k < i ==> containers[k].KeyOf() != Key(usageType, id)
        modifies {}
      {
        i := i + 1;
      }
      if i < |containers| {
        AddTo(i, value);
      } else {
        AddNew(usageType, value, id);
      }
    }

    method AddTo(i: nat, value: Double)
      requires Valid() && i < |containers|
      modifies Repr
      ensures Valid() && Repr == old(Repr) && history == old(history) + [Point(old(containers[i].KeyOf()), value)]
    {
      ghost var p := Point(containers[i].KeyOf(), value);
      InOrderSame(containers, history, p, i);
      containers[i].AddPoint(value);
      history := history + [p];
      forall k | 0 <= k < |containers| ensures Filled(containers[k], history) {
        if k == i {
          OfSame(old(history), p);
        } else {
          OfOther(old(history), p, containers[k].KeyOf());
        }
      }
    }

    method AddNew(usageType: UsageType, value: Double, id: nat)
      requires Valid() && forall k :: 0 <= k < |containers| ==> containers[k].KeyOf() != Key(usageType, id)
      modifies Repr
      ensures Valid() && fresh(Repr - old(Repr)) && history == old(history) + [Point(Key(usageType, id), value)]
    {
      ghost var p := Point(Key(usageType, id), value);
      var c := new UsageContainer(usageType, id);
      c.AddPoint(value);
      containers := containers + [c];
      Repr := Repr + {c};
      InOrderNew(old(containers), c, old(history), p);
      history := history + [p];
      OfSame(old(history), p);
      forall k | 0 <= k < |containers| ensures Filled(containers[k], history) {
        if k < |containers| - 1 {
          assert old(Filled(containers[k], history));
          OfOther(old(history), p, containers[k].KeyOf());
        }
      }
    }
  }

  lemma {:induction false} NoPoints(history: seq<Point>, key: Key)
    requires key !in KeysOf(history)
    ensures Of(history, key) == []
    decreases |history|
  {
    if history != [] {
      NoPoints(history[..|history| - 1], key);
    }
  }
}
