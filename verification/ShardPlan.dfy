/** The longest-first split of a test suite into shards, and how far it is from the best one. */
module ShardPlan {
  import opened Ordering
  import opened Sums

  /** A recorded time, in tenths of a second. */
  type Time = nat

  // What a test weighs when no time at all is on record: one second.
  const UNTIMED: Time := 10

  predicate NoLonger(a: nat, b: nat) {
    a <= b
  }

  function Known(names: seq<string>, seconds: map<string, Time>): seq<Time> {
    if names == [] then []
    else (if names[0] in seconds then [seconds[names[0]]] else []) + Known(names[1..], seconds)
  }

  function DefaultTime(names: seq<string>, seconds: map<string, Time>): Time {
    var known := Sort(Known(names, seconds), NoLonger);
    SortPermutes(Known(names, seconds), NoLonger);
    if known == [] then UNTIMED else known[|known| / 2]
  }

  function Weight(names: seq<string>, seconds: map<string, Time>): string -> Time {
    var default := DefaultTime(names, seconds);
    name => if name in seconds then seconds[name] else default
  }

  function Heavier<T>(w: T -> nat): (T, T) -> bool {
    (a, b) => w(a) >= w(b)
  }

  function Totals<T>(shards: seq<seq<T>>, w: T -> nat): (r: seq<nat>)
    ensures |r| == |shards|
  {
    seq(|shards|, j requires 0 <= j < |shards| => TotalOf(shards[j], w))
  }

  /** The first of the smallest. */
  function Lightest(totals: seq<nat>): (k: nat)
    requires totals != []
    ensures k < |totals|
    ensures forall j :: 0 <= j < |totals| ==> totals[k] <= totals[j]
    ensures forall j :: 0 <= j < k ==> totals[k] < totals[j]
  {
    if |totals| == 1 then 0
    else
      var k := Lightest(totals[..|totals| - 1]);
      if totals[|totals| - 1] < totals[k] then |totals| - 1 else k
  }

  function Empty<T>(m: nat): seq<seq<T>> {
    seq(m, j => [])
  }

  /** Each item in turn to the shard with the least so far. */
  function Deal<T>(order: seq<T>, m: nat, w: T -> nat): (shards: seq<seq<T>>)
    requires m > 0 || order == []
    ensures |shards| == m
  {
    if order == [] then Empty(m)
    else
      var n := |order| - 1;
      var shards := Deal(order[..n], m, w);
      var k := Lightest(Totals(shards, w));
      shards[k := shards[k] + [order[n]]]
  }

  function ShardCount(names: seq<string>, count: nat): nat {
    if count < |names| then count else |names|
  }

  function LongestFirst(names: seq<string>, seconds: map<string, Time>): (order: seq<string>)
    ensures |order| == |names| && multiset(order) == multiset(names)
  {
    var le := Heavier(Weight(names, seconds));
    SortPermutes(names, le);
    Sort(names, le)
  }

  function SortEach(shards: seq<seq<string>>): (r: seq<seq<string>>)
    ensures |r| == |shards|
  {
    seq(|shards|, j requires 0 <= j < |shards| => Sort(shards[j], Before))
  }

  function Plan(names: seq<string>, seconds: map<string, Time>, count: nat): (plan: seq<seq<string>>)
    requires count > 0
    ensures |plan| == ShardCount(names, count)
  {
    SortEach(Deal(LongestFirst(names, seconds), ShardCount(names, count), Weight(names, seconds)))
  }

  lemma DealNext<T>(order: seq<T>, i: nat, m: nat, w: T -> nat)
    requires i < |order| && m > 0
    ensures var shards := Deal(order[..i], m, w);
            var k := Lightest(Totals(shards, w));
            Deal(order[..i + 1], m, w) == shards[k := shards[k] + [order[i]]]
  {
    assert order[..i + 1][..i] == order[..i];
  }

  lemma TotalsNext<T>(shards: seq<seq<T>>, k: nat, x: T, w: T -> nat)
    requires k < |shards|
    ensures Totals(shards[k := shards[k] + [x]], w) == Totals(shards, w)[k := Totals(shards, w)[k] + w(x)]
  {
    assert (shards[k] + [x])[..|shards[k]|] == shards[k];
  }

  method PlanShards(names: seq<string>, seconds: map<string, Time>, count: nat) returns (plan: seq<seq<string>>)
    requires count > 0
    ensures plan == Plan(names, seconds, count)
  {
    var weight := Weight(names, seconds);
    var shards := DealAll(LongestFirst(names, seconds), ShardCount(names, count), weight);
    plan := SortEach(shards);
  }

  method DealAll<T>(order: seq<T>, m: nat, weight: T -> nat) returns (shards: seq<seq<T>>)
    requires m > 0 || order == []
    ensures shards == Deal(order, m, weight)
  {
    shards := Empty(m);
    var totals: seq<nat> := seq(m, j => 0);
    for i := 0 to |order|
      invariant shards == Deal(order[..i], m, weight)
      invariant totals == Totals(shards, weight)
    {
      DealNext(order, i, m, weight);
      var lightest := Lightest(totals);
      TotalsNext(shards, lightest, order[i], weight);
      shards := shards[lightest := shards[lightest] + [order[i]]];
      totals := totals[lightest := totals[lightest] + weight(order[i])];
    }
    assert order[..|order|] == order;
  }

  // ---- Assignments: which shard each position of an order goes to ----

  function At(a: seq<nat>, j: nat): set<nat> {
    set t | 0 <= t < |a| && a[t] == j
  }

  function Load(ws: seq<nat>, a: seq<nat>, j: nat): nat
    requires |ws| == |a|
  {
    if ws == [] then 0
    else
      var n := |ws| - 1;
      Load(ws[..n], a[..n], j) + (if a[n] == j then ws[n] else 0)
  }

  function Loads(ws: seq<nat>, a: seq<nat>, m: nat): (r: seq<nat>)
    requires |ws| == |a|
    ensures |r| == m
  {
    seq(m, j requires 0 <= j < m => Load(ws, a, j))
  }

  function Greedy(ws: seq<nat>, m: nat): (a: seq<nat>)
    requires m > 0
    ensures |a| == |ws|
    ensures forall t :: 0 <= t < |a| ==> a[t] < m
  {
    if ws == [] then []
    else
      var n := |ws| - 1;
      var a := Greedy(ws[..n], m);
      a + [Lightest(Loads(ws[..n], a, m))]
  }

  lemma {:induction false} GreedyPrefix(ws: seq<nat>, m: nat, n: nat)
    requires m > 0 && n <= |ws|
    ensures Greedy(ws[..n], m) == Greedy(ws, m)[..n]
    decreases |ws|
  {
    if n < |ws| {
      var last := |ws| - 1;
      GreedyPrefix(ws[..last], m, n);
      assert ws[..last][..n] == ws[..n];
    } else {
      assert ws[..n] == ws;
    }
  }

  function Sum(ws: seq<nat>): nat {
    if ws == [] then 0 else Sum(ws[..|ws| - 1]) + ws[|ws| - 1]
  }

  function SumLoads(ws: seq<nat>, a: seq<nat>, m: nat): nat
    requires |ws| == |a|
  {
    if m == 0 then 0 else SumLoads(ws, a, m - 1) + Load(ws, a, m - 1)
  }

  lemma {:induction false} LoadsGrow(ws: seq<nat>, a: seq<nat>, m: nat)
    requires |ws| == |a| && ws != []
    ensures var n := |ws| - 1;
            SumLoads(ws, a, m) == SumLoads(ws[..n], a[..n], m) + (if a[n] < m then ws[n] else 0)
  {
    if m == 0 {
    } else {
      LoadsGrow(ws, a, m - 1);
    }
  }

  /** Nothing is lost or counted twice: the loads add up to all the work. */
  lemma {:induction false} LoadsAddUp(ws: seq<nat>, a: seq<nat>, m: nat)
    requires |ws| == |a| && forall t :: 0 <= t < |a| ==> a[t] < m
    ensures SumLoads(ws, a, m) == Sum(ws)
  {
    if ws == [] {
      SumOfNothing(m);
      assert a == [];
    } else {
      LoadsGrow(ws, a, m);
      LoadsAddUp(ws[..|ws| - 1], a[..|ws| - 1], m);
    }
  }

  lemma {:induction false} SumOfNothing(m: nat)
    ensures SumLoads([], [], m) == 0
  {
    if m > 0 {
      SumOfNothing(m - 1);
    }
  }

  lemma {:induction false} SumAtMost(ws: seq<nat>, a: seq<nat>, m: nat, most: nat)
    requires |ws| == |a| && forall j :: 0 <= j < m ==> Load(ws, a, j) <= most
    ensures SumLoads(ws, a, m) <= m * most
  {
    if m > 0 {
      SumAtMost(ws, a, m - 1, most);
      assert m * most == (m - 1) * most + most;
    }
  }

  lemma {:induction false} SumAtLeast(ws: seq<nat>, a: seq<nat>, m: nat, least: nat)
    requires |ws| == |a| && forall j :: 0 <= j < m ==> Load(ws, a, j) >= least
    ensures SumLoads(ws, a, m) >= m * least
  {
    if m > 0 {
      SumAtLeast(ws, a, m - 1, least);
      assert m * least == (m - 1) * least + least;
    }
  }

  lemma {:induction false} LoadMonotone(ws: seq<nat>, a: seq<nat>, j: nat, n: nat)
    requires |ws| == |a| && n <= |ws|
    ensures Load(ws[..n], a[..n], j) <= Load(ws, a, j)
    decreases |ws|
  {
    if n < |ws| {
      var last := |ws| - 1;
      LoadMonotone(ws[..last], a[..last], j, n);
      assert ws[..last][..n] == ws[..n] && a[..last][..n] == a[..n];
    } else {
      assert ws[..n] == ws && a[..n] == a;
    }
  }

  /** A shard weighs at least what any set of at most three positions in it does. */
  lemma {:induction false} LoadHoldsOne(ws: seq<nat>, a: seq<nat>, t: nat)
    requires |ws| == |a| && t < |a|
    ensures Load(ws, a, a[t]) >= ws[t]
  {
    LoadMonotone(ws, a, a[t], t + 1);
    assert ws[..t + 1][..t] == ws[..t] && a[..t + 1][..t] == a[..t];
  }

  lemma {:induction false} LoadHoldsTwo(ws: seq<nat>, a: seq<nat>, t: nat, u: nat)
    requires |ws| == |a| && t < u < |a| && a[t] == a[u]
    ensures Load(ws, a, a[t]) >= ws[t] + ws[u]
  {
    LoadMonotone(ws, a, a[t], u + 1);
    assert ws[..u + 1][..u] == ws[..u] && a[..u + 1][..u] == a[..u];
    LoadHoldsOne(ws[..u], a[..u], t);
  }

  lemma {:induction false} LoadHoldsThree(ws: seq<nat>, a: seq<nat>, t: nat, u: nat, v: nat)
    requires |ws| == |a| && t < u < v < |a| && a[t] == a[u] == a[v]
    ensures Load(ws, a, a[t]) >= ws[t] + ws[u] + ws[v]
  {
    LoadMonotone(ws, a, a[t], v + 1);
    assert ws[..v + 1][..v] == ws[..v] && a[..v + 1][..v] == a[..v];
    LoadHoldsTwo(ws[..v], a[..v], t, u);
  }

  lemma {:induction false} LoadOfNone(ws: seq<nat>, a: seq<nat>, j: nat)
    requires |ws| == |a| && At(a, j) == {}
    ensures Load(ws, a, j) == 0
  {
    if ws == [] {
    } else {
      var n := |ws| - 1;
      assert n !in At(a, j);
      forall t ensures t !in At(a[..n], j) {
        assert t in At(a[..n], j) ==> t in At(a, j);
      }
      LoadOfNone(ws[..n], a[..n], j);
    }
  }

  lemma {:induction false} LoadOfOne(ws: seq<nat>, a: seq<nat>, j: nat, t: nat)
    requires |ws| == |a| && At(a, j) == {t}
    ensures t < |a| && a[t] == j && Load(ws, a, j) == ws[t]
  {
    assert t in At(a, j);
    var n := |ws| - 1;
    if t == n {
      forall u ensures u !in At(a[..n], j) {
        assert u in At(a[..n], j) ==> u in At(a, j);
      }
      LoadOfNone(ws[..n], a[..n], j);
    } else {
      assert n !in At(a, j);
      forall u ensures u in At(a[..n], j) <==> u == t {
        assert u in At(a, j) <==> u == t;
      }
      assert At(a[..n], j) == {t};
      LoadOfOne(ws[..n], a[..n], j, t);
    }
  }

  // ---- Counting positions that have a shard to themselves ----

  function Below(a: seq<nat>, m: nat): set<nat> {
    set t | 0 <= t < |a| && a[t] < m
  }

  function Alone(a: seq<nat>, m: nat): set<nat> {
    set t | 0 <= t < |a| && a[t] < m && At(a, a[t]) == {t}
  }

  lemma BelowGrows(a: seq<nat>, m: nat)
    ensures |Below(a, m + 1)| == |Below(a, m)| + |At(a, m)|
  {
    assert Below(a, m + 1) == Below(a, m) + At(a, m) && Below(a, m) !! At(a, m);
  }

  lemma AloneThere(a: seq<nat>, m: nat, t: nat)
    requires At(a, m) == {t}
    ensures Alone(a, m + 1) == Alone(a, m) + {t} && t !in Alone(a, m)
  {
    assert t in At(a, m);
  }

  lemma NoneAloneThere(a: seq<nat>, m: nat)
    requires |At(a, m)| != 1
    ensures Alone(a, m + 1) == Alone(a, m)
  {
    forall t ensures t in Alone(a, m + 1) <==> t in Alone(a, m) {
      assert At(a, m) != {t};
    }
  }

  lemma AloneGrows(a: seq<nat>, m: nat)
    ensures |Below(a, m + 1)| == |Below(a, m)| + |At(a, m)|
    ensures |Alone(a, m + 1)| == |Alone(a, m)| + (if |At(a, m)| == 1 then 1 else 0)
  {
    BelowGrows(a, m);
    if |At(a, m)| == 1 {
      var t :| t in At(a, m);
      OnlyOne(At(a, m), t);
      AloneThere(a, m, t);
    } else {
      NoneAloneThere(a, m);
    }
  }

  lemma OnlyOne(s: set<nat>, t: nat)
    requires |s| == 1 && t in s
    ensures s == {t}
  {
    assert |s - {t}| == 0;
  }

  /** With at most two to a shard, items and lone items together are at most twice the shards. */
  lemma {:induction false} AtMostTwoEach(a: seq<nat>, m: nat)
    requires forall j :: 0 <= j < m ==> |At(a, j)| <= 2
    ensures |Below(a, m)| + |Alone(a, m)| <= 2 * m
  {
    if m == 0 {
      assert Below(a, 0) == {} && Alone(a, 0) == {};
    } else {
      AtMostTwoEach(a, m - 1);
      AloneGrows(a, m - 1);
    }
  }

  /** With no shard empty they are at least that. */
  lemma {:induction false} AtLeastOneEach(a: seq<nat>, m: nat)
    requires forall j :: 0 <= j < m ==> |At(a, j)| >= 1
    ensures |Below(a, m)| + |Alone(a, m)| >= 2 * m
  {
    if m == 0 {
    } else {
      AtLeastOneEach(a, m - 1);
      AloneGrows(a, m - 1);
    }
  }

  lemma {:induction false} AllBelow(a: seq<nat>, m: nat)
    requires forall t :: 0 <= t < |a| ==> a[t] < m
    ensures |Below(a, m)| == |a|
  {
    if a == [] {
      assert Below(a, m) == {};
    } else {
      var n := |a| - 1;
      AllBelow(a[..n], m);
      assert Below(a, m) == Below(a[..n], m) + {n};
    }
  }

  // ---- The bounds, on weights alone ----

  ghost predicate Descending(ws: seq<nat>) {
    forall t, u :: 0 <= t < u < |ws| ==> ws[t] >= ws[u]
  }

  ghost predicate Rival(ws: seq<nat>, r: seq<nat>, m: nat, most: nat) {
    |r| == |ws| && (forall t :: 0 <= t < |r| ==> r[t] < m) && (forall j :: 0 <= j < m ==> Load(ws, r, j) <= most)
  }

  lemma RivalPrefix(ws: seq<nat>, r: seq<nat>, m: nat, most: nat, n: nat)
    requires Rival(ws, r, m, most) && n <= |ws|
    ensures Rival(ws[..n], r[..n], m, most)
  {
    forall j | 0 <= j < m ensures Load(ws[..n], r[..n], j) <= most {
      LoadMonotone(ws, r, j, n);
    }
  }

  lemma MeanStep(m: nat, least: nat, w: nat, before: nat)
    requires m > 0 && m * least <= before
    ensures m * (least + w) <= before + w + (m - 1) * w
  {
    assert m * (least + w) == m * least + m * w;
    assert m * w == (m - 1) * w + w;
  }

  lemma TwoMinusOneOverM(m: nat, load: nat, sum: nat, w: nat, most: nat)
    requires m > 0 && m * load <= sum + (m - 1) * w && sum <= m * most && w <= most
    ensures m * load <= (2 * m - 1) * most
  {
    Scaled(m - 1, w, most);
    OneLessAndAll(m, most);
    Chained(m * load, sum, (m - 1) * w, (m - 1) * most, m * most, (2 * m - 1) * most);
  }

  lemma OneLessAndAll(m: nat, most: nat)
    requires m > 0
    ensures m * most + (m - 1) * most == (2 * m - 1) * most
  {
  }

  lemma Chained(load: nat, sum: nat, own: nat, less: nat, all: nat, both: nat)
    requires load <= sum + own && own <= less && sum <= all && all + less == both
    ensures load <= both
  {
  }

  lemma Distribute(m: nat, load: nat, most: nat)
    requires m > 0
    ensures (4 * m - 1) * most == 3 * (m * most) + (m - 1) * most
    ensures 3 * m * load == 3 * (m * load) && (m - 1) * most >= 0
  {
  }

  lemma Scaled(m: nat, a: nat, b: nat)
    requires a <= b
    ensures m * a <= m * b
  {
  }

  lemma Tripled(m: nat, a: nat, b: nat)
    requires 3 * a <= b
    ensures 3 * (m * a) <= m * b
  {
    Scaled(m, 3 * a, b);
    assert m * (3 * a) == 3 * (m * a);
  }

  lemma FourThirds(m: nat, load: nat, sum: nat, w: nat, most: nat)
    requires m > 0 && m * load <= sum + (m - 1) * w && sum <= m * most
    requires 3 * w <= most || load <= most
    ensures 3 * m * load <= (4 * m - 1) * most
  {
    var mm, ml, rest := m * most, m * load, (m - 1) * most;
    assert (4 * m - 1) * most == 3 * mm + rest && 3 * m * load == 3 * ml && rest >= 0 by {
      Distribute(m, load, most);
    }
    if load <= most {
      assert ml <= mm by { Scaled(m, load, most); }
    } else {
      var mw := (m - 1) * w;
      assert 3 * mw <= rest by { Tripled(m - 1, w, most); }
    }
  }

  lemma ScaleMean(m: nat, load: nat, sum: nat, all: nat, w: nat, w': nat)
    requires m > 0 && m * load <= sum + (m - 1) * w && sum <= all && w <= w'
    ensures m * load <= all + (m - 1) * w'
  {
    assert (m - 1) * w <= (m - 1) * w';
  }

  /** The shard that gets the last item was no heavier than the mean of what came before it. */
  lemma LastPlaced(ws: seq<nat>, m: nat)
    requires m > 0 && ws != []
    ensures var n := |ws| - 1;
            var g := Greedy(ws, m);
            m * Load(ws, g, g[n]) <= Sum(ws) + (m - 1) * ws[n]
  {
    var n := |ws| - 1;
    var g := Greedy(ws[..n], m);
    var k := Lightest(Loads(ws[..n], g, m));
    var least := Load(ws[..n], g, k);
    forall j | 0 <= j < m ensures Load(ws[..n], g, j) >= least {
      assert Loads(ws[..n], g, m)[j] >= Loads(ws[..n], g, m)[k];
    }
    SumAtLeast(ws[..n], g, m, least);
    LoadsAddUp(ws[..n], g, m);
    assert Greedy(ws, m) == g + [k] && (g + [k])[..n] == g;
    MeanStep(m, least, ws[n], Sum(ws[..n]));
    assert Load(ws, g + [k], k) == least + ws[n];
  }

  /**
   * No split does better with big items: when even the last item is more than a third of
   * what the rival's fullest shard holds, the last item goes where it fits within that.
   */
  lemma BigItemsFit(ws: seq<nat>, m: nat, r: seq<nat>, most: nat)
    requires m > 0 && ws != [] && Descending(ws) && Rival(ws, r, m, most)
    requires 3 * ws[|ws| - 1] > most
    ensures var g := Greedy(ws, m); Load(ws, g, g[|ws| - 1]) <= most
  {
    var n := |ws| - 1;
    var before := ws[..n];
    var g := Greedy(before, m);
    var k := Lightest(Loads(before, g, m));
    assert Greedy(ws, m) == g + [k] && (g + [k])[..n] == g;
    LoadHoldsOne(ws, r, n);
    if Load(before, g, k) + ws[n] > most {
      forall j | 0 <= j < m ensures Load(before, g, j) + ws[n] > most {
        assert Loads(before, g, m)[j] >= Loads(before, g, m)[k];
      }
      forall j | 0 <= j < m ensures |At(g, j)| >= 1 {
        if At(g, j) == {} {
          LoadOfNone(before, g, j);
        }
      }
      AtLeastOneEach(g, m);
      AllBelow(g, m);
      RivalHasTwoAtMost(ws, m, r, most);
      AtMostTwoEach(r, m);
      AllBelow(r, m);
      forall t | t in Alone(g, m) ensures t in Alone(r, m) {
        LoneStaysAlone(ws, m, g, r, most, t);
      }
      Subset(Alone(g, m), Alone(r, m));
    }
  }

  lemma Subset(a: set<nat>, b: set<nat>)
    requires a <= b
    ensures |a| <= |b|
  {
    assert |b| == |a| + |b - a| by {
      assert b == a + (b - a);
    }
  }

  lemma RivalHasTwoAtMost(ws: seq<nat>, m: nat, r: seq<nat>, most: nat)
    requires ws != [] && Descending(ws) && Rival(ws, r, m, most) && 3 * ws[|ws| - 1] > most
    ensures forall j :: 0 <= j < m ==> |At(r, j)| <= 2
  {
    forall j | 0 <= j < m ensures |At(r, j)| <= 2 {
      if |At(r, j)| > 2 {
        var t, u, v := ThreeOf(At(r, j));
        var least := ws[|ws| - 1];
        assert ws[t] >= least && ws[u] >= least && ws[v] >= least;
        LoadHoldsThree(ws, r, t, u, v);
      }
    }
  }

  lemma ThreeOf(s: set<nat>) returns (t: nat, u: nat, v: nat)
    requires |s| > 2
    ensures t in s && u in s && v in s && t < u < v
  {
    var x :| x in s;
    assert |s - {x}| == |s| - 1;
    var y :| y in s - {x};
    assert |s - {x} - {y}| == |s| - 2;
    var z :| z in s - {x} - {y};
    t := if x < y then (if x < z then x else z) else if y < z then y else z;
    v := if x > y then (if x > z then x else z) else if y > z then y else z;
    u := if x != t && x != v then x else if y != t && y != v then y else z;
  }

  lemma LoneStaysAlone(ws: seq<nat>, m: nat, g: seq<nat>, r: seq<nat>, most: nat, t: nat)
    requires ws != [] && Descending(ws) && Rival(ws, r, m, most)
    requires |g| == |ws| - 1 && t in Alone(g, m)
    requires Load(ws[..|ws| - 1], g, g[t]) + ws[|ws| - 1] > most
    ensures t in Alone(r, m)
  {
    var n := |ws| - 1;
    LoadOfOne(ws[..n], g, g[t], t);
    forall u | u in At(r, r[t]) ensures u == t {
      if u < t {
        assert ws[u] >= ws[n];
        LoadHoldsTwo(ws, r, u, t);
      } else if u > t {
        assert ws[u] >= ws[n];
        LoadHoldsTwo(ws, r, t, u);
      }
    }
    assert At(r, r[t]) == {t};
  }

  lemma LastIn(a: seq<nat>, j: nat) returns (i: nat)
    requires At(a, j) != {}
    ensures i < |a| && a[i] == j && forall t :: i < t < |a| ==> a[t] != j
  {
    var n: nat := |a| - 1;
    if a[n] == j {
      i := n;
    } else {
      var t :| t in At(a, j);
      assert t in At(a[..n], j);
      i := LastIn(a[..n], j);
      forall u | i < u < |a| ensures a[u] != j {
        if u < n {
          assert a[..n][u] != j;
        }
      }
    }
  }

  lemma {:induction false} LoadEndsAtLast(ws: seq<nat>, a: seq<nat>, j: nat, i: nat)
    requires |ws| == |a| && i < |a| && forall t :: i < t < |a| ==> a[t] != j
    ensures Load(ws, a, j) == Load(ws[..i + 1], a[..i + 1], j)
    decreases |ws|
  {
    if i + 1 == |ws| {
      assert ws[..i + 1] == ws && a[..i + 1] == a;
    } else {
      var n := |ws| - 1;
      LoadEndsAtLast(ws[..n], a[..n], j, i);
      assert ws[..n][..i + 1] == ws[..i + 1] && a[..n][..i + 1] == a[..i + 1];
    }
  }

  /** A shard's load is settled when its last item is placed, over a prefix of the order. */
  lemma LoadAtLast(ws: seq<nat>, m: nat, j: nat) returns (i: nat)
    requires m > 0 && At(Greedy(ws, m), j) != {}
    ensures i < |ws| && Greedy(ws, m)[i] == j
    ensures forall t :: i < t < |ws| ==> Greedy(ws, m)[t] != j
    ensures var p := ws[..i + 1]; Load(ws, Greedy(ws, m), j) == Load(p, Greedy(p, m), Greedy(p, m)[i])
  {
    var g := Greedy(ws, m);
    i := LastIn(g, j);
    LoadEndsAtLast(ws, g, j, i);
    GreedyPrefix(ws, m, i + 1);
  }

  lemma {:induction false} SumMonotone(ws: seq<nat>, n: nat)
    requires n <= |ws|
    ensures Sum(ws[..n]) <= Sum(ws)
  {
    if n < |ws| {
      SumMonotone(ws[..|ws| - 1], n);
      assert ws[..|ws| - 1][..n] == ws[..n];
    } else {
      assert ws[..n] == ws;
    }
  }

  /** m times a shard's load is at most all the work and m - 1 times any item of that shard. */
  lemma GreedyMeanBound(ws: seq<nat>, m: nat, t: nat)
    requires m > 0 && t < |ws| && Descending(ws)
    ensures m * Load(ws, Greedy(ws, m), Greedy(ws, m)[t]) <= Sum(ws) + (m - 1) * ws[t]
  {
    var g := Greedy(ws, m);
    assert t in At(g, g[t]);
    var i := LoadAtLast(ws, m, g[t]);
    LastPlaced(ws[..i + 1], m);
    SumMonotone(ws, i + 1);
    assert t <= i && ws[t] >= ws[i];
    ScaleMean(m, Load(ws, g, g[t]), Sum(ws[..i + 1]), Sum(ws), ws[i], ws[t]);
  }

  /** At most 2 - 1/m, and at most 4/3 - 1/(3m), times `most`, cleared of fractions. */
  predicate WithinBest(m: nat, total: nat, most: nat) {
    && m * total <= (2 * m - 1) * most
    && 3 * m * total <= (4 * m - 1) * most
  }

  lemma GreedyRivalBounds(ws: seq<nat>, m: nat, r: seq<nat>, most: nat, j: nat)
    requires m > 0 && j < m && Descending(ws) && Rival(ws, r, m, most)
    ensures WithinBest(m, Load(ws, Greedy(ws, m), j), most)
  {
    var g := Greedy(ws, m);
    if At(g, j) == {} {
      LoadOfNone(ws, g, j);
      TwoMinusOneOverM(m, 0, 0, 0, most);
      FourThirds(m, 0, 0, 0, most);
    } else {
      var i := LoadAtLast(ws, m, j);
      var p := ws[..i + 1];
      RivalPrefix(ws, r, m, most, i + 1);
      LastPlaced(p, m);
      LoadsAddUp(p, r[..i + 1], m);
      SumAtMost(p, r[..i + 1], m, most);
      LoadHoldsOne(p, r[..i + 1], i);
      var load := Load(ws, g, j);
      if 3 * p[i] > most {
        BigItemsFit(p, m, r[..i + 1], most);
      }
      TwoMinusOneOverM(m, load, Sum(p), p[i], most);
      FourThirds(m, load, Sum(p), p[i], most);
    }
  }

  // ---- The plan itself ----

  lemma {:induction false} SumIsTotal<T>(s: seq<T>, w: T -> nat)
    ensures Sum(Map(s, w)) == TotalOf(s, w)
  {
    if s == [] {
    } else {
      SumIsTotal(s[..|s| - 1], w);
      assert Map(s, w)[..|s| - 1] == Map(s[..|s| - 1], w);
    }
  }

  function Gathered<T>(shards: seq<seq<T>>): multiset<T> {
    if shards == [] then multiset{} else multiset(shards[0]) + Gathered(shards[1..])
  }

  lemma {:induction false} GatheredUpdate<T>(shards: seq<seq<T>>, k: nat, x: T)
    requires k < |shards|
    ensures Gathered(shards[k := shards[k] + [x]]) == Gathered(shards) + multiset{x}
  {
    var s := shards[k := shards[k] + [x]];
    if k == 0 {
      assert s[1..] == shards[1..];
    } else {
      GatheredUpdate(shards[1..], k - 1, x);
      assert s[1..] == shards[1..][k - 1 := shards[1..][k - 1] + [x]];
    }
  }

  lemma {:induction false} GatheredEmpty<T>(m: nat)
    ensures Gathered<T>(Empty(m)) == multiset{}
  {
    if m > 0 {
      GatheredEmpty<T>(m - 1);
      assert Empty<T>(m)[1..] == Empty<T>(m - 1);
    }
  }

  lemma {:induction false} DealKeepsAll<T>(order: seq<T>, m: nat, w: T -> nat)
    requires m > 0 || order == []
    ensures Gathered(Deal(order, m, w)) == multiset(order)
  {
    if order == [] {
      GatheredEmpty<T>(m);
    } else {
      var n := |order| - 1;
      var shards := Deal(order[..n], m, w);
      var k := Lightest(Totals(shards, w));
      DealKeepsAll(order[..n], m, w);
      DealUnfolds(order, m, w);
      GatheredUpdate(shards, k, order[n]);
      assert order == order[..n] + [order[n]];
    }
  }

  lemma {:induction false} SortEachKeeps(shards: seq<seq<string>>)
    ensures Gathered(SortEach(shards)) == Gathered(shards)
    ensures forall j :: 0 <= j < |shards| ==> multiset(SortEach(shards)[j]) == multiset(shards[j])
    ensures forall j :: 0 <= j < |shards| ==> Sorted(SortEach(shards)[j], Before)
  {
    if shards == [] {
    } else {
      SortEachKeeps(shards[1..]);
      assert SortEach(shards)[1..] == SortEach(shards[1..]);
      SortPermutes(shards[0], Before);
      BeforeIsAnOrder();
      SortSorts(shards[0], Before);
    }
  }

  /** Every test is in exactly one shard, as often as it was named, and each shard is sorted. */
  lemma PlanIsPartition(names: seq<string>, seconds: map<string, Time>, count: nat)
    requires count > 0
    ensures Gathered(Plan(names, seconds, count)) == multiset(names)
    ensures |Plan(names, seconds, count)| <= count
    ensures forall shard :: shard in Plan(names, seconds, count) ==> Sorted(shard, Before)
  {
    var order := LongestFirst(names, seconds);
    var m := ShardCount(names, count);
    DealKeepsAll(order, m, Weight(names, seconds));
    SortEachKeeps(Deal(order, m, Weight(names, seconds)));
  }

  lemma GreedyAppend(ws: seq<nat>, m: nat, w: nat)
    requires m > 0
    ensures Greedy(ws + [w], m) == Greedy(ws, m) + [Lightest(Loads(ws, Greedy(ws, m), m))]
  {
    assert (ws + [w])[..|ws|] == ws;
  }

  lemma LoadNext(ws: seq<nat>, g: seq<nat>, m: nat, w: nat, k: nat)
    requires |ws| == |g| && k < m
    ensures Loads(ws + [w], g + [k], m) == Loads(ws, g, m)[k := Loads(ws, g, m)[k] + w]
  {
    assert (ws + [w])[..|ws|] == ws && (g + [k])[..|g|] == g;
  }

  function AddToLightest(totals: seq<nat>, x: nat): seq<nat>
    requires totals != []
  {
    var k := Lightest(totals);
    totals[k := totals[k] + x]
  }

  lemma DealUnfolds<T>(order: seq<T>, m: nat, w: T -> nat)
    requires m > 0 && order != []
    ensures var shards := Deal(order[..|order| - 1], m, w);
      var k := Lightest(Totals(shards, w));
      Deal(order, m, w) == shards[k := shards[k] + [order[|order| - 1]]]
  {
  }

  lemma TotalsOfNext<T>(shards: seq<seq<T>>, x: T, w: T -> nat)
    requires shards != []
    ensures var k := Lightest(Totals(shards, w));
      Totals(shards[k := shards[k] + [x]], w) == AddToLightest(Totals(shards, w), w(x))
  {
    TotalsNext(shards, Lightest(Totals(shards, w)), x, w);
  }

  lemma DealNextTotals<T>(order: seq<T>, m: nat, w: T -> nat)
    requires m > 0 && order != []
    ensures Totals(Deal(order, m, w), w) == AddToLightest(Totals(Deal(order[..|order| - 1], m, w), w), w(order[|order| - 1]))
  {
    DealUnfolds(order, m, w);
    TotalsOfNext(Deal(order[..|order| - 1], m, w), order[|order| - 1], w);
  }

  lemma GreedyStep(ws: seq<nat>, m: nat)
    requires m > 0 && ws != []
    ensures Loads(ws, Greedy(ws, m), m)
         == AddToLightest(Loads(ws[..|ws| - 1], Greedy(ws[..|ws| - 1], m), m), ws[|ws| - 1])
  {
    var init, x := ws[..|ws| - 1], ws[|ws| - 1];
    assert ws == init + [x];
    GreedyAppend(init, m, x);
    LoadNext(init, Greedy(init, m), m, x, Lightest(Loads(init, Greedy(init, m), m)));
  }

  lemma DealNothing<T>(m: nat, w: T -> nat)
    requires m > 0
    ensures Totals(Deal([], m, w), w) == Loads([], Greedy([], m), m)
  {
  }

  /** The shards dealt weigh what the greedy assignment of the weights loads on each. */
  lemma {:induction false} DealIsGreedy<T>(order: seq<T>, m: nat, w: T -> nat)
    requires m > 0
    ensures Totals(Deal(order, m, w), w) == Loads(Map(order, w), Greedy(Map(order, w), m), m)
  {
    if order == [] {
      DealNothing(m, w);
    } else {
      var n := |order| - 1;
      assert Map(order, w)[..n] == Map(order[..n], w);
      DealIsGreedy(order[..n], m, w);
      DealNextTotals(order, m, w);
      GreedyStep(Map(order, w), m);
    }
  }

  lemma {:induction false} DealtWhereGreedySays<T>(order: seq<T>, m: nat, w: T -> nat, j: nat, x: T)
    requires m > 0 && j < m && x in Deal(order, m, w)[j]
    ensures Placed(order, Greedy(Map(order, w), m), j, x)
  {
    var ws := Map(order, w);
    var n := |order| - 1;
    assert ws[..n] == Map(order[..n], w);
    var shards := Deal(order[..n], m, w);
    var g := Greedy(ws[..n], m);
    DealIsGreedy(order[..n], m, w);
    var k := Lightest(Totals(shards, w));
    assert Greedy(ws, m) == g + [k];
    if x in shards[j] {
      DealtWhereGreedySays(order[..n], m, w, j, x);
      var t :| 0 <= t < n && order[..n][t] == x && g[t] == j;
      assert order[t] == x && (g + [k])[t] == j;
    } else {
      assert order[n] == x && (g + [k])[n] == j;
    }
  }

  ghost predicate Placed<T>(order: seq<T>, g: seq<nat>, j: nat, x: T)
    requires |g| == |order|
  {
    exists t :: 0 <= t < |order| && order[t] == x && g[t] == j
  }

  lemma OrderDescends(names: seq<string>, seconds: map<string, Time>)
    ensures Descending(Map(LongestFirst(names, seconds), Weight(names, seconds)))
  {
    var w := Weight(names, seconds);
    SortSorts(names, Heavier(w));
    var order := LongestFirst(names, seconds);
    forall t, u | 0 <= t < u < |order| ensures w(order[t]) >= w(order[u]) {
      assert Heavier(w)(order[t], order[u]);
    }
  }

  lemma PlanTotals(names: seq<string>, seconds: map<string, Time>, count: nat, j: nat)
    requires count > 0 && j < ShardCount(names, count)
    ensures var w := Weight(names, seconds);
            var ws := Map(LongestFirst(names, seconds), w);
            TotalOf(Plan(names, seconds, count)[j], w) == Load(ws, Greedy(ws, ShardCount(names, count)), j)
  {
    var w := Weight(names, seconds);
    var m := ShardCount(names, count);
    var order := LongestFirst(names, seconds);
    var shards := Deal(order, m, w);
    DealIsGreedy(order, m, w);
    assert Totals(shards, w)[j] == TotalOf(shards[j], w);
    SortEachKeeps(shards);
    TotalPermutes(SortEach(shards)[j], shards[j], w);
  }

  /**
   * With m shards, m times a shard's total is at most the whole suite and m - 1 times any one
   * of its own tests: it passes the mean by less than its shortest test.
   */
  lemma PlanMeanBound(names: seq<string>, seconds: map<string, Time>, count: nat, j: nat, test: string)
    requires count > 0 && j < ShardCount(names, count) && test in Plan(names, seconds, count)[j]
    ensures var w := Weight(names, seconds);
            var m := ShardCount(names, count);
            m * TotalOf(Plan(names, seconds, count)[j], w) <= TotalOf(names, w) + (m - 1) * w(test)
  {
    var w := Weight(names, seconds);
    var m := ShardCount(names, count);
    var order := LongestFirst(names, seconds);
    var t := PlanPosition(names, seconds, count, j, test);
    PlanTotals(names, seconds, count, j);
    OrderDescends(names, seconds);
    GreedyMeanBound(Map(order, w), m, t);
    assert Sum(Map(order, w)) == TotalOf(names, w) by {
      SumIsTotal(order, w);
      TotalPermutes(order, names, w);
    }
  }

  lemma PlanPosition(names: seq<string>, seconds: map<string, Time>, count: nat, j: nat, test: string) returns (t: nat)
    requires count > 0 && j < ShardCount(names, count) && test in Plan(names, seconds, count)[j]
    ensures t < |names| && LongestFirst(names, seconds)[t] == test
    ensures Greedy(Map(LongestFirst(names, seconds), Weight(names, seconds)), ShardCount(names, count))[t] == j
  {
    var w := Weight(names, seconds);
    var m := ShardCount(names, count);
    var order := LongestFirst(names, seconds);
    SortEachKeeps(Deal(order, m, w));
    assert test in multiset(Deal(order, m, w)[j]);
    DealtWhereGreedySays(order, m, w, j, test);
    t :| 0 <= t < |order| && order[t] == test && Greedy(Map(order, w), m)[t] == j;
  }

  /** A name and the shard some other split puts it on. */
  datatype Placing<T> = Placing(name: T, shard: nat)

  function Tagged<T>(names: seq<T>, rival: seq<nat>): seq<Placing<T>>
    requires |names| == |rival|
  {
    seq(|names|, i requires 0 <= i < |names| => Placing(names[i], rival[i]))
  }

  function OnShard<T>(w: T -> nat, j: nat): Placing<T> -> nat {
    (p: Placing<T>) => WeightOn(w, j, p)
  }

  function WeightOn<T>(w: T -> nat, j: nat, p: Placing<T>): nat {
    if p.shard == j then w(p.name) else 0
  }

  lemma {:induction false} TaggedLoad<T>(s: seq<Placing<T>>, w: T -> nat, j: nat)
    ensures TotalOf(s, OnShard(w, j)) == Load(Map(Map(s, NameOf), w), Map(s, ShardOf), j)
  {
    if s == [] {
    } else {
      var n := |s| - 1;
      TaggedLoad(s[..n], w, j);
      assert Map(Map(s, NameOf), w)[..n] == Map(Map(s[..n], NameOf), w);
      assert Map(s, ShardOf)[..n] == Map(s[..n], ShardOf);
    }
  }

  function NameOf<T>(p: Placing<T>): T {
    p.name
  }

  function ShardOf<T>(p: Placing<T>): nat {
    p.shard
  }

  /** A split of the names, seen along the order in which the plan deals them. */
  lemma RivalInOrder(names: seq<string>, seconds: map<string, Time>, rival: seq<nat>, m: nat, most: nat) returns (r: seq<nat>)
    requires Rival(Map(names, Weight(names, seconds)), rival, m, most)
    ensures Rival(Map(LongestFirst(names, seconds), Weight(names, seconds)), r, m, most)
  {
    var w := Weight(names, seconds);
    var tagged := Tagged(names, rival);
    var le := Heavier((p: Placing<string>) => w(p.name));
    var sorted := Sort(tagged, le);
    assert Map(tagged, NameOf) == names && Map(tagged, ShardOf) == rival;
    SortCommutes(tagged, NameOf, le, Heavier(w));
    SortPermutes(tagged, le);
    r := Map(sorted, ShardOf);
    forall t | 0 <= t < |r| ensures r[t] < m {
      assert sorted[t] in multiset(tagged);
      assert sorted[t] in tagged;
    }
    forall j | 0 <= j < m ensures Load(Map(LongestFirst(names, seconds), w), r, j) <= most {
      TaggedLoad(sorted, w, j);
      TaggedLoad(tagged, w, j);
      TotalPermutes(sorted, tagged, OnShard(w, j));
    }
  }

  /**
   * Against any other way of putting the tests on m shards whose fullest takes `most`, no
   * shard of the plan takes more than 2 - 1/m, nor more than 4/3 - 1/(3m), times `most`.
   */
  lemma PlanAgainstAnySplit(names: seq<string>, seconds: map<string, Time>, count: nat, rival: seq<nat>, most: nat, j: nat)
    requires count > 0 && j < ShardCount(names, count)
    requires Rival(Map(names, Weight(names, seconds)), rival, ShardCount(names, count), most)
    ensures WithinBest(ShardCount(names, count), TotalOf(Plan(names, seconds, count)[j], Weight(names, seconds)), most)
  {
    var m := ShardCount(names, count);
    var r := RivalInOrder(names, seconds, rival, m, most);
    OrderDescends(names, seconds);
    PlanTotals(names, seconds, count, j);
    GreedyRivalBounds(Map(LongestFirst(names, seconds), Weight(names, seconds)), m, r, most, j);
  }

  // ---- No times on record: CI's round robin ----

  /** The items at positions j, j + m, j + 2m, ... */
  function Stride<T>(s: seq<T>, j: nat, m: nat): seq<T>
    requires m > 0
  {
    if s == [] then []
    else Stride(s[..|s| - 1], j, m) + (if (|s| - 1) % m == j then [s[|s| - 1]] else [])
  }

  lemma NextTurn(n: nat, m: nat)
    requires m > 0
    ensures if n % m == m - 1 then (n + 1) / m == n / m + 1 && (n + 1) % m == 0
            else (n + 1) / m == n / m && (n + 1) % m == n % m + 1
  {
    var q, r := n / m, n % m;
    assert n == q * m + r;
    if r == m - 1 {
      assert n + 1 == (q + 1) * m + 0 by { OneMore(q, m); }
      Quotient(n + 1, m, q + 1, 0);
    } else {
      Quotient(n + 1, m, q, r + 1);
    }
  }

  lemma OneMore(q: int, m: int)
    ensures (q + 1) * m == q * m + m
  {
  }

  lemma Quotient(n: nat, m: nat, q: nat, r: nat)
    requires m > 0 && r < m && n == q * m + r
    ensures n / m == q && n % m == r
  {
    var q', r' := n / m, n % m;
    assert n == q' * m + r';
    if q' < q {
      AtLeastOnce(q', q, m);
    } else if q < q' {
      AtLeastOnce(q, q', m);
    }
  }

  lemma {:induction false} AtLeastOnce(a: int, b: int, m: nat)
    requires a < b
    ensures a * m + m <= b * m
    decreases b - a
  {
    if b == a + 1 {
      OneMore(a, m);
    } else {
      AtLeastOnce(a, b - 1, m);
      OneMore(b - 1, m);
    }
  }

  /** How many of the first n turns are shard j's. */
  function Turns(n: nat, j: nat, m: nat): nat
    requires m > 0
  {
    if n == 0 then 0 else Turns(n - 1, j, m) + (if (n - 1) % m == j then 1 else 0)
  }

  lemma {:induction false} TurnsAreEven(n: nat, j: nat, m: nat)
    requires j < m
    ensures Turns(n, j, m) == n / m + (if j < n % m then 1 else 0)
  {
    if n == 0 {
    } else {
      TurnsAreEven(n - 1, j, m);
      NextTurn(n - 1, m);
    }
  }

  lemma {:induction false} StrideLength<T>(s: seq<T>, j: nat, m: nat)
    requires m > 0
    ensures |Stride(s, j, m)| == Turns(|s|, j, m)
  {
    if s == [] {
    } else {
      StrideLength(s[..|s| - 1], j, m);
    }
  }

  lemma LightestHasTheTurn(totals: seq<nat>, n: nat, m: nat, each: nat)
    requires m > 0 && each > 0 && |totals| == m
    requires forall j :: 0 <= j < m ==> totals[j] == Turns(n, j, m) * each
    ensures Lightest(totals) == n % m
  {
    var r := n % m;
    TurnsAreEven(n, r, m);
    forall j | 0 <= j < m ensures totals[r] <= totals[j] && (j < r ==> totals[r] < totals[j]) {
      TurnsAreEven(n, j, m);
      if j < r {
        AtLeastOnce(Turns(n, r, m), Turns(n, j, m), each);
      }
    }
    LightestIsUnique(totals, r);
  }

  lemma LightestIsUnique(totals: seq<nat>, k: nat)
    requires k < |totals|
    requires forall j :: 0 <= j < |totals| ==> totals[k] <= totals[j]
    requires forall j :: 0 <= j < k ==> totals[k] < totals[j]
    ensures Lightest(totals) == k
  {
  }

  lemma {:induction false} TotalOfEqual<T>(shard: seq<T>, w: T -> nat, each: nat)
    requires forall x :: x in shard ==> w(x) == each
    ensures TotalOf(shard, w) == |shard| * each
  {
    if shard == [] {
    } else {
      TotalOfEqual(shard[..|shard| - 1], w, each);
      assert |shard| * each == (|shard| - 1) * each + each;
    }
  }

  lemma {:induction false} StrideFrom<T>(s: seq<T>, j: nat, m: nat)
    requires m > 0
    ensures forall x :: x in Stride(s, j, m) ==> x in s
  {
    if s != [] {
      StrideFrom(s[..|s| - 1], j, m);
    }
  }

  lemma {:induction false} DealEqualWeights<T>(order: seq<T>, m: nat, w: T -> nat, each: nat)
    requires m > 0 && each > 0 && forall x :: x in order ==> w(x) == each
    ensures forall j :: 0 <= j < m ==> Deal(order, m, w)[j] == Stride(order, j, m)
  {
    if order == [] {
    } else {
      var n := |order| - 1;
      DealEqualWeights(order[..n], m, w, each);
      var shards := Deal(order[..n], m, w);
      forall j | 0 <= j < m ensures Totals(shards, w)[j] == Turns(n, j, m) * each {
        StrideLength(order[..n], j, m);
        StrideFrom(order[..n], j, m);
        TotalOfEqual(shards[j], w, each);
      }
      LightestHasTheTurn(Totals(shards, w), n, m, each);
    }
  }

  /** With no time on record the tests are dealt out in turn, each shard then sorted. */
  lemma PlanWithoutTimes(names: seq<string>, seconds: map<string, Time>, count: nat, j: nat)
    requires count > 0 && j < ShardCount(names, count)
    requires forall name :: name in names ==> name !in seconds
    ensures Plan(names, seconds, count)[j] == Sort(Stride(names, j, ShardCount(names, count)), Before)
    ensures Sorted(names, Before) ==> Plan(names, seconds, count)[j] == Stride(names, j, ShardCount(names, count))
  {
    var m := ShardCount(names, count);
    var w := Weight(names, seconds);
    NothingKnown(names, seconds);
    assert forall name :: name in names ==> w(name) == UNTIMED;
    assert Sorted(names, Heavier(w));
    SortKeepsSorted(names, Heavier(w));
    DealEqualWeights(names, m, w, UNTIMED);
    if Sorted(names, Before) {
      StrideSorted(names, j, m);
      SortKeepsSorted(Stride(names, j, m), Before);
    }
  }

  lemma {:induction false} NothingKnown(names: seq<string>, seconds: map<string, Time>)
    requires forall name :: name in names ==> name !in seconds
    ensures Known(names, seconds) == []
  {
    if names != [] {
      NothingKnown(names[1..], seconds);
    }
  }

  lemma {:induction false} StrideSorted(s: seq<string>, j: nat, m: nat)
    requires m > 0 && Sorted(s, Before)
    ensures Sorted(Stride(s, j, m), Before)
  {
    if s == [] {
    } else {
      var n := |s| - 1;
      StrideSorted(s[..n], j, m);
      StrideFrom(s[..n], j, m);
      forall x | x in s[..n] ensures Before(x, s[n]) {
      }
    }
  }
}
