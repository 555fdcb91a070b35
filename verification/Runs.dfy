/**
  Cutting a sequence into runs: maximal stretches in which every element but the last joins its
  successor. What is left after the last complete run is open.
*/
module Runs {
  import opened Bytes

  datatype Runs<+T> = Runs(done: seq<seq<T>>, open: seq<T>)

  function RunsOf<T>(xs: seq<T>, joins: T -> bool): Runs<T> {
    if xs == [] then Runs([], [])
    else
      var x := xs[|xs| - 1];
      var r := RunsOf(xs[..|xs| - 1], joins);
      if joins(x) then Runs(r.done, r.open + [x]) else Runs(r.done + [r.open + [x]], [])
  }

  ghost predicate IsRun<T>(g: seq<T>, joins: T -> bool) {
    && g != []
    && !joins(g[|g| - 1])
    && forall i :: 0 <= i < |g| - 1 ==> joins(g[i])
  }

  ghost predicate IsPartition<T>(xs: seq<T>, joins: T -> bool, r: Runs<T>) {
    && xs == Flatten(r.done) + r.open
    && (forall i :: 0 <= i < |r.done| ==> IsRun(r.done[i], joins))
    && (forall i :: 0 <= i < |r.open| ==> joins(r.open[i]))
  }

  lemma PartitionExtends<T>(xs: seq<T>, x: T, joins: T -> bool, r: Runs<T>)
    requires IsPartition(xs, joins, r) && joins(x)
    ensures IsPartition(xs + [x], joins, Runs(r.done, r.open + [x]))
  {
    assert Flatten(r.done) + r.open + [x] == Flatten(r.done) + (r.open + [x]);
  }

  lemma PartitionCloses<T>(xs: seq<T>, x: T, joins: T -> bool, r: Runs<T>)
    requires IsPartition(xs, joins, r) && !joins(x)
    ensures IsPartition(xs + [x], joins, Runs(r.done + [r.open + [x]], []))
  {
    var g := r.open + [x];
    Concatenation(Flatten(r.done), r.open, [x]);
    FlattenOneMore(r.done, g);
    assert Flatten(r.done + [g]) + [] == Flatten(r.done + [g]);
    assert IsRun(g, joins);
  }

  /** RunsOf cuts a sequence into runs. */
  lemma {:induction false} RunsPartition<T>(xs: seq<T>, joins: T -> bool)
    ensures IsPartition(xs, joins, RunsOf(xs, joins))
  {
    if xs != [] {
      var n := |xs| - 1;
      RunsPartition(xs[..n], joins);
      var r := RunsOf(xs[..n], joins);
      assert xs == xs[..n] + [xs[n]];
      if joins(xs[n]) {
        PartitionExtends(xs[..n], xs[n], joins, r);
      } else {
        PartitionCloses(xs[..n], xs[n], joins, r);
      }
    }
  }

  lemma WithoutLastOpen<T>(xs: seq<T>, joins: T -> bool, r: Runs<T>) returns (r': Runs<T>)
    requires IsPartition(xs, joins, r) && r.open != []
    ensures xs != [] && IsPartition(xs[..|xs| - 1], joins, r') && joins(xs[|xs| - 1])
    ensures r == Runs(r'.done, r'.open + [xs[|xs| - 1]])
  {
    var k := |r.open| - 1;
    r' := Runs(r.done, r.open[..k]);
    assert xs[..|xs| - 1] == Flatten(r'.done) + r'.open;
    assert r.open == r'.open + [r.open[k]];
  }

  lemma WithLastReopened<T>(xs: seq<T>, joins: T -> bool, r: Runs<T>) returns (r': Runs<T>)
    requires IsPartition(xs, joins, r) && r.open == [] && r.done != []
    ensures xs != [] && IsPartition(xs[..|xs| - 1], joins, r') && !joins(xs[|xs| - 1])
    ensures r == Runs(r'.done + [r'.open + [xs[|xs| - 1]]], [])
  {
    var k := |r.done| - 1;
    var g := r.done[k];
    assert IsRun(g, joins);
    r' := Runs(r.done[..k], g[..|g| - 1]);
    assert xs[..|xs| - 1] == Flatten(r'.done) + r'.open;
    assert g == r'.open + [xs[|xs| - 1]];
  }

  /** There is no other way to cut it. */
  lemma {:induction false} RunsUnique<T>(xs: seq<T>, joins: T -> bool, r: Runs<T>)
    requires IsPartition(xs, joins, r)
    ensures r == RunsOf(xs, joins)
    decreases |xs|
  {
    if r.open != [] {
      var r' := WithoutLastOpen(xs, joins, r);
      RunsUnique(xs[..|xs| - 1], joins, r');
    } else if r.done != [] {
      var r' := WithLastReopened(xs, joins, r);
      RunsUnique(xs[..|xs| - 1], joins, r');
    }
  }

  /** The first element of each run. */
  function Heads<T>(groups: seq<seq<T>>): (heads: seq<T>)
    requires forall i :: 0 <= i < |groups| ==> groups[i] != []
    ensures |heads| == |groups|
    ensures forall i :: 0 <= i < |heads| ==> heads[i] == groups[i][0]
  {
    seq(|groups|, i requires 0 <= i < |groups| => groups[i][0])
  }

  /** When no element joins its successor, every element is a run of its own. */
  lemma {:induction false} RunsAreSingle<T>(xs: seq<T>, joins: T -> bool)
    requires forall i :: 0 <= i < |xs| ==> !joins(xs[i])
    ensures RunsOf(xs, joins).open == []
    ensures |RunsOf(xs, joins).done| == |xs|
    ensures forall i :: 0 <= i < |xs| ==> RunsOf(xs, joins).done[i] == [xs[i]]
  {
    if xs != [] {
      RunsAreSingle(xs[..|xs| - 1], joins);
    }
  }

  lemma RunOfTwo<T>(a: T, b: T, joins: T -> bool)
    requires joins(a) && !joins(b)
    ensures RunsOf([a, b], joins) == Runs([[a, b]], [])
  {
    var one, two := [a], [a, b];
    assert one[..0] == [] && two[..1] == one;
    assert RunsOf(one, joins) == Runs([], one);
    assert RunsOf(two, joins) == Runs([] + [one + [b]], []);
    assert one + [b] == two;
  }

  /** There are as many runs as elements only when every element is a run of its own. */
  lemma {:induction false} RunsAreFewer<T>(xs: seq<T>, joins: T -> bool)
    ensures |RunsOf(xs, joins).done| <= |xs|
    ensures |RunsOf(xs, joins).done| == |xs| ==> forall i :: 0 <= i < |xs| ==> !joins(xs[i])
  {
    if xs != [] {
      RunsAreFewer(xs[..|xs| - 1], joins);
    }
  }

  /** A longer sequence has the same runs, and perhaps more. */
  lemma {:induction false} RunsGrow<T>(xs: seq<T>, ys: seq<T>, joins: T -> bool)
    ensures RunsOf(xs, joins).done <= RunsOf(xs + ys, joins).done
    decreases |ys|
  {
    if ys == [] {
      assert xs + ys == xs;
    } else {
      var n := |ys| - 1;
      RunsGrow(xs, ys[..n], joins);
      assert (xs + ys)[..|xs| + n] == xs + ys[..n];
    }
  }
}
