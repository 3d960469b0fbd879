/** The slots of a time grid that hold data, as the server lists them and as the notebook client keeps them. */
module WrittenSteps {
  import opened Common
  import opened Text

  /** An array with named axes; `at` gives the cell at an index that is within the sizes. */
  datatype Array<!T> = Array(dims: seq<string>, sizes: seq<nat>, at: seq<nat> -> T) {
    ghost predicate Valid() {
      |dims| == |sizes| && Distinct(dims)
    }
  }

  predicate InBounds(index: seq<nat>, sizes: seq<nat>) {
    |index| == |sizes| && forall k :: 0 <= k < |sizes| ==> index[k] < sizes[k]
  }

  function Without<T>(s: seq<T>, k: nat): seq<T>
    requires k < |s|
  {
    s[..k] + s[k + 1..]
  }

  function With(index: seq<nat>, k: nat, j: nat): seq<nat>
    requires k <= |index|
  {
    index[..k] + [j] + index[k..]
  }

  // ----- Reductions -----

  /** `any` along one axis. */
  ghost function AnyAlong(a: Array<bool>, k: nat): Array<bool>
    requires k < |a.dims| == |a.sizes|
  {
    var size, at := a.sizes[k], a.at;
    Array(Without(a.dims, k), Without(a.sizes, k),
          index => k <= |index| && exists j :: 0 <= j < size && at(With(index, k, j)))
  }

  /** `any` along the named axes, one after the other. */
  ghost function AnyIn(a: Array<bool>, order: seq<string>): Array<bool>
    requires |a.dims| == |a.sizes|
    decreases |order|
  {
    if order == [] || order[0] !in a.dims then a
    else AnyIn(AnyAlong(a, IndexOf(a.dims, order[0])), order[1..])
  }

  /** The names of every axis but one, each once, in any order. */
  ghost predicate OthersOf(order: seq<string>, dims: seq<string>, keep: string) {
    Distinct(order) && forall d :: d in order <==> d in dims && d != keep
  }

  ghost predicate AnyWith(a: Array<bool>, p: nat, i: nat)
    requires p < |a.sizes|
  {
    exists index :: InBounds(index, a.sizes) && index[p] == i && a.at(index)
  }

  lemma WithInBounds(index: seq<nat>, k: nat, j: nat, sizes: seq<nat>, p: nat)
    requires k < |sizes| && p < |sizes| && p != k
    requires InBounds(index, Without(sizes, k)) && j < sizes[k]
    ensures InBounds(With(index, k, j), sizes)
    ensures With(index, k, j)[p] == index[if k < p then p - 1 else p]
  {
  }

  lemma WithoutInBounds(index: seq<nat>, k: nat, sizes: seq<nat>, p: nat)
    requires k < |sizes| && p < |sizes| && p != k && InBounds(index, sizes)
    ensures InBounds(Without(index, k), Without(sizes, k))
    ensures With(Without(index, k), k, index[k]) == index
    ensures Without(index, k)[if k < p then p - 1 else p] == index[p]
  {
  }

  lemma WithoutDistinct(dims: seq<string>, k: nat)
    requires Distinct(dims) && k < |dims|
    ensures Distinct(Without(dims, k))
  {
  }

  /** Reducing another axis loses no true cell and invents none. */
  lemma AnyAlongKeeps(a: Array<bool>, k: nat, p: nat, i: nat)
    requires a.Valid() && k < |a.dims| && p < |a.dims| && p != k
    ensures var b, q := AnyAlong(a, k), if k < p then p - 1 else p;
            b.Valid() && b.dims[q] == a.dims[p] && b.sizes[q] == a.sizes[p]
            && (AnyWith(b, q, i) <==> AnyWith(a, p, i))
  {
    var b, q := AnyAlong(a, k), if k < p then p - 1 else p;
    WithoutDistinct(a.dims, k);
    if AnyWith(b, q, i) {
      var index :| InBounds(index, b.sizes) && index[q] == i && b.at(index);
      var j :| 0 <= j < a.sizes[k] && a.at(With(index, k, j));
      WithInBounds(index, k, j, a.sizes, p);
    }
    if AnyWith(a, p, i) {
      var index :| InBounds(index, a.sizes) && index[p] == i && a.at(index);
      WithoutInBounds(index, k, a.sizes, p);
      assert a.at(With(Without(index, k), k, index[k]));
      assert b.at(Without(index, k));
    }
  }

  lemma OthersWithout(order: seq<string>, dims: seq<string>, keep: string, k: nat)
    requires order != [] && OthersOf(order, dims, keep) && Distinct(dims) && k < |dims| && dims[k] == order[0]
    ensures OthersOf(order[1..], Without(dims, k), keep)
  {
    var rest, left := order[1..], Without(dims, k);
    assert order == [order[0]] + rest;
    forall d ensures d in left <==> d in dims && d != dims[k] {
      if d in left {
        var m :| 0 <= m < |left| && left[m] == d;
        assert d == dims[if m < k then m else m + 1];
      }
      if d in dims && d != dims[k] {
        var m :| 0 <= m < |dims| && dims[m] == d;
        assert left[if m < k then m else m - 1] == d;
      }
    }
  }

  /** Whatever the order, reducing every other axis leaves true exactly the slots along which some cell is true. */
  lemma {:induction false} AnyInKeeps(a: Array<bool>, order: seq<string>, keep: string, p: nat, i: nat)
    requires a.Valid() && p < |a.dims| && a.dims[p] == keep && OthersOf(order, a.dims, keep)
    ensures var b := AnyIn(a, order);
            b.dims == [keep] && b.sizes == [a.sizes[p]]
            && (i < a.sizes[p] ==> (b.at([i]) <==> AnyWith(a, p, i)))
    decreases |order|
  {
    if order != [] {
      assert order[0] in order;
      var k := IndexOf(a.dims, order[0]);
      AnyAlongKeeps(a, k, p, i);
      OthersWithout(order, a.dims, keep, k);
      AnyInKeeps(AnyAlong(a, k), order[1..], keep, if k < p then p - 1 else p, i);
    } else {
      OnlyAxis(a, keep, p);
      if i < a.sizes[p] { OnlyIndex(a, i); }
    }
  }

  lemma OnlyAxis(a: Array<bool>, keep: string, p: nat)
    requires a.Valid() && p < |a.dims| && a.dims[p] == keep && OthersOf([], a.dims, keep)
    ensures p == 0 && a.dims == [keep]
  {
    forall k | 0 <= k < |a.dims| ensures a.dims[k] == keep && k == p {
      assert a.dims[k] in a.dims;
    }
    assert a.dims[0] == keep && a.dims[|a.dims| - 1] == keep;
  }

  lemma OnlyIndex(a: Array<bool>, i: nat)
    requires |a.sizes| == 1 && i < a.sizes[0]
    ensures a.at([i]) <==> AnyWith(a, 0, i)
  {
    assert InBounds([i], a.sizes);
    if index :| InBounds(index, a.sizes) && index[0] == i && a.at(index) {
      assert index == [i];
    }
  }

  // ----- Selecting -----

  /** The positions at which a mask is true, in order. */
  function Positions(mask: seq<bool>): (r: seq<nat>)
    ensures forall i :: i in r <==> 0 <= i < |mask| && mask[i]
    ensures forall i, j :: 0 <= i < j < |r| ==> r[i] < r[j]
  {
    if mask == [] then []
    else
      var before := Positions(mask[..|mask| - 1]);
      assert forall i :: 0 <= i < |before| ==> before[i] in before;
      if Last(mask) then before + [|mask| - 1] else before
  }

  function Select<T>(values: seq<T>, mask: seq<bool>): seq<T>
    requires |mask| == |values|
  {
    var kept := Positions(mask);
    seq(|kept|, i requires 0 <= i < |kept| => assert kept[i] in kept; values[kept[i]])
  }

  /** The cells of an array at the kept positions of one axis. */
  function Isel<T>(a: Array<T>, p: nat, kept: seq<nat>): Array<T>
    requires p < |a.sizes|
  {
    var at := a.at;
    Array(a.dims, a.sizes[p := |kept|],
          index => at(if p < |index| && index[p] < |kept| then index[p := kept[index[p]]] else index))
  }

  // ----- The two selections -----

  /** The data along one axis: the values of its coordinate, and the status of the steps if the repo has one. */
  datatype Dataset<T> = Dataset(values: seq<T>, status: Option<Array<int>>)

  ghost function Written(status: Array<int>): Array<bool> {
    var at := status.at;
    Array(status.dims, status.sizes, index => at(index) >= 0)
  }

  /** The status axis is there, with one slot for each value. */
  ghost predicate HasAxis(values: nat, status: Array<int>, dim: string) {
    status.Valid() && dim in status.dims && status.sizes[IndexOf(status.dims, dim)] == values
  }

  ghost function MaskOf(written: Array<bool>, n: nat): seq<bool> {
    var at := written.at;
    seq(n, i requires 0 <= i < n => at([i]))
  }

  /** The server's `written_coord_values`, which reduces the other axes in some order. */
  ghost function WrittenCoordValues<T>(values: seq<T>, status: Option<Array<int>>, dim: string, order: seq<string>): seq<T>
    requires status.Some? && dim in status.value.dims ==> HasAxis(|values|, status.value, dim)
  {
    if status.None? || dim !in status.value.dims then values
    else Select(values, MaskOf(AnyIn(Written(status.value), order), |values|))
  }

  /** The notebook's `open_icechunk_dataset`, after the dataset is opened: it reduces only if there are other axes. */
  ghost function OpenWritten<T>(ds: Dataset<T>, writtenOnly: bool, dim: string, order: seq<string>): Dataset<T>
    requires ds.status.Some? ==> HasAxis(|ds.values|, ds.status.value, dim)
  {
    if !writtenOnly || ds.status.None? then ds
    else
      var written := Written(ds.status.value);
      var kept := Positions(MaskOf(if |written.dims| > 1 then AnyIn(written, order) else written, |ds.values|));
      Dataset(seq(|kept|, i requires 0 <= i < |kept| => assert kept[i] in kept; ds.values[kept[i]]),
              Some(Isel(ds.status.value, IndexOf(ds.status.value.dims, dim), kept)))
  }

  /** Some step along the slot holds data. */
  ghost predicate SlotWritten(status: Array<int>, dim: string, i: nat)
    requires status.Valid() && dim in status.dims
  {
    var p := IndexOf(status.dims, dim);
    exists index :: InBounds(index, status.sizes) && index[p] == i && status.at(index) >= 0
  }

  ghost function SlotMask(status: Array<int>, dim: string, n: nat): seq<bool>
    requires status.Valid() && dim in status.dims
  {
    seq(n, i requires 0 <= i < n => SlotWritten(status, dim, i))
  }

  lemma MaskIsSlots(values: nat, status: Array<int>, dim: string, order: seq<string>)
    requires HasAxis(values, status, dim) && OthersOf(order, status.dims, dim)
    ensures MaskOf(AnyIn(Written(status), order), values) == SlotMask(status, dim, values)
  {
    var written, p := Written(status), IndexOf(status.dims, dim);
    forall i: nat | i < values ensures AnyIn(written, order).at([i]) <==> SlotWritten(status, dim, i) {
      AnyInKeeps(written, order, dim, p, i);
      assert AnyWith(written, p, i) <==> SlotWritten(status, dim, i) by {
        assert forall index :: written.at(index) <==> status.at(index) >= 0;
      }
    }
  }

  /** A status of one axis is its own mask. */
  lemma OneAxisIsSlots(values: nat, status: Array<int>, dim: string)
    requires HasAxis(values, status, dim) && |status.dims| == 1
    ensures MaskOf(Written(status), values) == SlotMask(status, dim, values)
  {
    MaskIsSlots(values, status, dim, []);
  }

  /**
   * The server lists, in grid order, the values of exactly the slots with at least one written step,
   * whatever the other axes of the status are and in whatever order it reduces them.
   */
  lemma ServerKeepsWrittenSlots<T>(values: seq<T>, status: Array<int>, dim: string, order: seq<string>)
    requires HasAxis(|values|, status, dim) && OthersOf(order, status.dims, dim)
    ensures WrittenCoordValues(values, Some(status), dim, order) == Select(values, SlotMask(status, dim, |values|))
    ensures forall i :: i in Positions(SlotMask(status, dim, |values|)) <==>
              0 <= i < |values| && SlotWritten(status, dim, i)
  {
    MaskIsSlots(|values|, status, dim, order);
  }

  /** The notebook keeps, of values and status alike, exactly the positions with at least one written step. */
  lemma NotebookKeepsWrittenSlots<T>(ds: Dataset<T>, dim: string, order: seq<string>)
    requires ds.status.Some? && HasAxis(|ds.values|, ds.status.value, dim) && OthersOf(order, ds.status.value.dims, dim)
    ensures var status, kept := ds.status.value, OpenWritten(ds, true, dim, order);
            var positions := Positions(SlotMask(status, dim, |ds.values|));
            && kept.status == Some(Isel(status, IndexOf(status.dims, dim), positions))
            && |kept.values| == |positions|
            && forall k :: 0 <= k < |positions| ==> positions[k] < |ds.values| && kept.values[k] == ds.values[positions[k]]
  {
    var status := ds.status.value;
    if |status.dims| > 1 {
      MaskIsSlots(|ds.values|, status, dim, order);
    } else {
      OneAxisIsSlots(|ds.values|, status, dim);
    }
    var positions := Positions(SlotMask(status, dim, |ds.values|));
    assert forall k :: 0 <= k < |positions| ==> positions[k] in positions;
  }

  /** Server and notebook agree on which slots there are, whatever order each of them reduces the other axes in. */
  lemma ServerAndNotebookAgree<T>(ds: Dataset<T>, dim: string, order: seq<string>, other: seq<string>)
    requires ds.status.Some? ==> HasAxis(|ds.values|, ds.status.value, dim)
    requires ds.status.Some? ==> OthersOf(order, ds.status.value.dims, dim) && OthersOf(other, ds.status.value.dims, dim)
    ensures OpenWritten(ds, true, dim, order).values == WrittenCoordValues(ds.values, ds.status, dim, other)
  {
    if ds.status.Some? {
      NotebookKeepsWrittenSlots(ds, dim, order);
      ServerKeepsWrittenSlots(ds.values, ds.status.value, dim, other);
    }
  }

  lemma KeptSlotIsWritten(status: Array<int>, dim: string, kept: seq<nat>, i: nat)
    requires status.Valid() && dim in status.dims && i < |kept| && SlotWritten(status, dim, kept[i])
    ensures SlotWritten(Isel(status, IndexOf(status.dims, dim), kept), dim, i)
  {
    var p := IndexOf(status.dims, dim);
    var selected := Isel(status, p, kept);
    var index :| InBounds(index, status.sizes) && index[p] == kept[i] && status.at(index) >= 0;
    var moved := index[p := i];
    assert moved[p := kept[i]] == index;
    assert InBounds(moved, selected.sizes) && moved[p] == i && selected.at(moved) >= 0;
  }

  lemma AllKeptAreWritten<T>(ds: Dataset<T>, dim: string, order: seq<string>)
    requires ds.status.Some? && HasAxis(|ds.values|, ds.status.value, dim) && OthersOf(order, ds.status.value.dims, dim)
    ensures var kept := OpenWritten(ds, true, dim, order);
            && kept.status.Some? && HasAxis(|kept.values|, kept.status.value, dim)
            && kept.status.value.dims == ds.status.value.dims
            && (forall i: nat :: i < |kept.values| ==> SlotWritten(kept.status.value, dim, i))
  {
    var status := ds.status.value;
    var kept, positions := OpenWritten(ds, true, dim, order), Positions(SlotMask(status, dim, |ds.values|));
    NotebookKeepsWrittenSlots(ds, dim, order);
    forall i: nat | i < |kept.values| ensures SlotWritten(kept.status.value, dim, i) {
      assert positions[i] in positions;
      KeptSlotIsWritten(status, dim, positions, i);
    }
  }

  /** The dataset the notebook returns has no unwritten slot left: selecting again changes nothing. */
  lemma NothingLeftToDrop<T>(ds: Dataset<T>, dim: string, order: seq<string>, other: seq<string>)
    requires ds.status.Some? && HasAxis(|ds.values|, ds.status.value, dim)
    requires OthersOf(order, ds.status.value.dims, dim) && OthersOf(other, ds.status.value.dims, dim)
    ensures var kept := OpenWritten(ds, true, dim, order);
            && kept.status.Some? && HasAxis(|kept.values|, kept.status.value, dim)
            && (forall i: nat :: i < |kept.values| ==> SlotWritten(kept.status.value, dim, i))
            && WrittenCoordValues(kept.values, kept.status, dim, other) == kept.values
  {
    var kept := OpenWritten(ds, true, dim, order);
    AllKeptAreWritten(ds, dim, order);
    ServerKeepsWrittenSlots(kept.values, kept.status.value, dim, other);
    AllTrueSelectsAll(kept.values, SlotMask(kept.status.value, dim, |kept.values|));
  }

  lemma {:induction false} AllTruePositions(mask: seq<bool>)
    requires forall i :: 0 <= i < |mask| ==> mask[i]
    ensures |Positions(mask)| == |mask| && forall i :: 0 <= i < |mask| ==> Positions(mask)[i] == i
  {
    if mask != [] { AllTruePositions(mask[..|mask| - 1]); }
  }

  lemma AllTrueSelectsAll<T>(values: seq<T>, mask: seq<bool>)
    requires |mask| == |values| && forall i :: 0 <= i < |mask| ==> mask[i]
    ensures Select(values, mask) == values
  {
    AllTruePositions(mask);
  }

  /** On request the notebook gives the full grid. */
  lemma FullGridIsKept<T>(ds: Dataset<T>, dim: string, order: seq<string>)
    requires ds.status.Some? ==> HasAxis(|ds.values|, ds.status.value, dim)
    ensures OpenWritten(ds, false, dim, order) == ds
  {
  }
}
