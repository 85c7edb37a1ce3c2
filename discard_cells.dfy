// `Discard_Cells` of Code/Metaheuristics.py: for each of the first
// int(fd * p) designs, a copy of a parent drawn with linearly increasing
// weights (each parent at most once) in which one layer cell is discarded:
// the last layer cell is filled with the fill material, a horizontal cell
// takes the material of the layer cell after it, and a vertical cell closes
// the vertical gap that the next layer cell's surfaces open.
module CellDiscard {
  import opened Wrappers
  import opened PyMath
  import opened Design
  import CellSearch
  import MaterialSearch
  import Utilities
  import LayerSearch

  const OutOfRange: string := "list index out of range"

  /** The height `hz` a closed vertical surface is given. */
  const Closed: real := 0.0001

  // ---------------------------------------------------------------------------
  // The weighted parent draw

  /** `rankdata(range(0, n))`: the ranks 1, ..., n of n distinct values. */
  function Ranks(n: nat): seq<real>
  {
    seq(n, k => (k + 1) as real)
  }

  /** The running totals the generator keeps for those weights. */
  function Totals(n: nat): seq<real>
  {
    Utilities.PrefixSums(Ranks(n))
  }

  /** `next(weights)`: the parent index a draw u gives among n parents; the
      list of totals is empty when there are no parents. */
  function WeightedIndex(n: nat, u: real): Result<nat>
  {
    if n == 0 then Err(IndexError(OutOfRange))
    else Ok(Utilities.BisectRight(Totals(n), Utilities.Scaled(Totals(n), u)))
  }

  /** The totals for n parents are non-decreasing and end above zero. */
  lemma TotalsShape(n: nat)
    requires n > 0
    ensures var t := Totals(n);
      |t| == n && Utilities.NonDecreasing(t) && t[n - 1] > 0.0
  {
    var w := Ranks(n);
    var t := Totals(n);
    Utilities.PrefixSumsMonotone(w);
    TotalsWidth(n, 0);
    assert t[0] <= t[n - 1];
  }

  /** Parent i owns an interval of the totals of width i + 1. */
  lemma TotalsWidth(n: nat, i: nat)
    requires i < n
    ensures var t := Totals(n);
      t[i] - (if i == 0 then 0.0 else t[i - 1]) == (i + 1) as real
  {
    var w := Ranks(n);
    if i == 0 {
      assert w[..1] == [w[0]];
      assert [w[0]][..0] == [];
      assert Sum([w[0]]) == Sum([]) + w[0];
    } else {
      Utilities.PrefixSumsStep(w, i);
    }
  }

  /** A draw in [0, 1) scales the last total of a non-decreasing list with a
      positive end to an index inside it. */
  lemma BisectBelowEnd(t: seq<real>, u: real)
    requires Utilities.NonDecreasing(t) && |t| > 0 && t[|t| - 1] > 0.0 && 0.0 <= u < 1.0
    ensures Utilities.BisectRight(t, Utilities.Scaled(t, u)) < |t|
  {
    var n := |t|;
    var v := Utilities.Scaled(t, u);
    Utilities.BisectRightSplits(t, v);
    Utilities.ScaleBelow(u, t[n - 1]);
    assert v < t[n - 1];
  }

  /** On a non-decreasing list, bisect_right gives i exactly when v lies in
      the interval [t[i - 1], t[i]). */
  lemma BisectInterval(t: seq<real>, v: real, i: nat)
    requires Utilities.NonDecreasing(t) && i < |t|
    ensures Utilities.BisectRight(t, v) == i <==> (i == 0 || t[i - 1] <= v) && v < t[i]
  {
    Utilities.BisectRightSplits(t, v);
    if (i == 0 || t[i - 1] <= v) && v < t[i] {
      forall k | 0 <= k < i
        ensures t[k] <= v
      {
        assert t[k] <= t[i - 1];
      }
      forall k | i <= k < |t|
        ensures v < t[k]
      {
        assert t[i] <= t[k];
      }
      Utilities.SplitUnique(t, v, i);
    }
  }

  /** For at least one parent and a draw in [0, 1), the index drawn is a
      parent. */
  lemma WeightedIndexInRange(n: nat, u: real)
    requires n > 0 && 0.0 <= u < 1.0
    ensures WeightedIndex(n, u).Ok? && WeightedIndex(n, u).value < n
  {
    TotalsShape(n);
    BisectBelowEnd(Totals(n), u);
  }

  /** The draw gives parent i exactly when the scaled draw falls in the
      interval of width i + 1 that the totals give it: the later a parent,
      the likelier it is drawn. */
  lemma WeightedIndexInterval(n: nat, u: real, i: nat)
    requires n > 0 && 0.0 <= u < 1.0 && i < n
    ensures var t, r := Totals(n), WeightedIndex(n, u);
      && r.Ok?
      && (r.value == i <==> (i == 0 || t[i - 1] <= Utilities.Scaled(t, u)) && Utilities.Scaled(t, u) < t[i])
      && t[i] - (if i == 0 then 0.0 else t[i - 1]) == (i + 1) as real
  {
    TotalsShape(n);
    TotalsWidth(n, i);
    BisectInterval(Totals(n), Utilities.Scaled(Totals(n), u), i);
  }

  /** `while discard in used: discard = next(weights)`: the draws from
      position next on until one gives a parent not yet used; the chosen
      index and the position after its draw. */
  function Redraw(n: nat, used: seq<nat>, us: seq<real>, next: nat): (r: Result<(nat, nat)>)
    ensures r.Ok? ==> next < r.value.1 <= |us| && r.value.0 !in used
    ensures r.Ok? ==> WeightedIndex(n, us[r.value.1 - 1]) == Ok(r.value.0)
    decreases |us| - next
  {
    if next >= |us| then Err(DrawsExhausted)
    else
      match WeightedIndex(n, us[next])
      case Err(e) => Err(e)
      case Ok(d) => if d in used then Redraw(n, used, us, next + 1) else Ok((d, next + 1))
  }

  /** Every draw the redraw skips gives a parent already used. */
  lemma {:induction false} RedrawSkipsUsed(n: nat, used: seq<nat>, us: seq<real>, next: nat, k: nat)
    requires Redraw(n, used, us, next).Ok? && next <= k < Redraw(n, used, us, next).value.1 - 1
    ensures WeightedIndex(n, us[k]).Ok? && WeightedIndex(n, us[k]).value in used
    decreases |us| - next
  {
    if k > next {
      RedrawSkipsUsed(n, used, us, next + 1, k);
    }
  }

  // ---------------------------------------------------------------------------
  // The discard of one cell

  /** The material number `Discard_Cells` gives the last layer cell, as
      written: the 0-based position of the fill key `matls[-1]` in the key
      list, where cell materials are numbered from 1. */
  function FillIndexAsWritten(matls: seq<string>): int
    requires |matls| > 0
  {
    MaterialSearch.IndexOf(matls, matls[|matls| - 1])
  }

  /** When the fill key appears only at the end of two or more keys, the
      number written refers to the key before it, not to the fill. */
  lemma FillIndexAsWrittenMisses(matls: seq<string>)
    requires |matls| >= 2 && matls[|matls| - 1] !in matls[..|matls| - 1]
    ensures var r := FillIndexAsWritten(matls);
      r == |matls| - 1 && matls[r - 1] != matls[|matls| - 1]
  {
    var f := matls[|matls| - 1];
    var r := FillIndexAsWritten(matls);
    if r < |matls| - 1 {
      assert false;
    }
    assert matls[r - 1] == matls[..|matls| - 1][r - 1];
  }

  /** The material number of the fill, 1-based as every other operator
      numbers materials (`c.m = j + 1`): the first key equal to the fill
      key. */
  function FillNumber(matls: seq<string>): (r: int)
    requires |matls| > 0
    ensures 1 <= r <= |matls| && matls[r - 1] == matls[|matls| - 1]
    ensures matls[|matls| - 1] !in matls[..r - 1]
  {
    MaterialSearch.IndexOf(matls, matls[|matls| - 1]) + 1
  }

  /** Surface t is closed when it, or the surface before it, carries the
      number n. */
  predicate ClosedAt(ss: seq<Surface>, n: int, t: nat)
    requires t < |ss|
  {
    ss[t].name == n || (t > 0 && ss[t - 1].name == n)
  }

  /** The loop over the surfaces that gives every surface numbered n and the
      surface after it the height 0.0001; it fails when the last surface is
      numbered n, as there is none after it. */
  function ClosedGap(ss: seq<Surface>, n: int): (r: Result<seq<Surface>>)
  {
    if |ss| > 0 && ss[|ss| - 1].name == n then Err(IndexError(OutOfRange))
    else Ok(seq(|ss|, t requires 0 <= t < |ss| => if ClosedAt(ss, n, t) then ss[t].(hz := Closed) else ss[t]))
  }

  /** Surface t after the loop has looked at the surfaces before position i. */
  function ClosedBefore(ss: seq<Surface>, n: int, i: nat, t: nat): Surface
    requires t < |ss|
  {
    if (t < i && ss[t].name == n) || (0 < t <= i && ss[t - 1].name == n) then ss[t].(hz := Closed) else ss[t]
  }

  method CloseGap(ss: seq<Surface>, n: int) returns (r: Result<seq<Surface>>)
    ensures r == ClosedGap(ss, n)
  {
    var out := ss;
    for i := 0 to |ss|
      invariant |out| == |ss|
      invariant forall t :: 0 <= t < |ss| ==> out[t] == ClosedBefore(ss, n, i, t)
      invariant i == |ss| > 0 ==> ss[i - 1].name != n
    {
      assert out[i] == ClosedBefore(ss, n, i, i);
      if out[i].name == n {
        if i + 1 >= |out| {
          return Err(IndexError(OutOfRange));
        }
        out := out[i + 1 := out[i + 1].(hz := Closed)];
        out := out[i := out[i].(hz := Closed)];
      }
      forall t | 0 <= t < |ss|
        ensures out[t] == ClosedBefore(ss, n, i + 1, t)
      {
        if t != i && t != i + 1 {
          assert ClosedBefore(ss, n, i + 1, t) == ClosedBefore(ss, n, i, t);
        }
      }
    }
    assert forall t :: 0 <= t < |ss| ==> ClosedBefore(ss, n, |ss|, t) == if ClosedAt(ss, n, t) then ss[t].(hz := Closed) else ss[t];
    assert out == seq(|ss|, t requires 0 <= t < |ss| => if ClosedAt(ss, n, t) then ss[t].(hz := Closed) else ss[t]);
    r := Ok(out);
  }

  /** The last layer cell c is filled: its material becomes the fill's
      number and its density the fill's density from the library. */
  function FillLast(q: Parent, c: nat, dens: map<string, real>): (r: Result<Parent>)
    requires c < |q.cells|
  {
    if |q.matls| == 0 then Err(IndexError(OutOfRange))
    else
      var fill := q.matls[|q.matls| - 1];
      if fill !in dens then Err(KeyError(fill))
      else Ok(q.(cells := q.cells[c := q.cells[c].(m := FillNumber(q.matls), d := dens[fill])]))
  }

  /** The horizontal cell c takes the material and density of cell nx; the
      two log lines name the material before and after, so each number must
      index the key list. */
  function TakeNext(q: Parent, c: nat, nx: nat): (r: Result<Parent>)
    requires c < |q.cells| && nx < |q.cells|
  {
    var cur, src := q.cells[c], q.cells[nx];
    if !ValidIndex(cur.m - 1, |q.matls|) || !ValidIndex(src.m - 1, |q.matls|) then Err(IndexError(OutOfRange))
    else Ok(q.(cells := q.cells[c := cur.(m := src.m, d := src.d)]))
  }

  /** The vertical case: the surfaces of cell nx close the gap. */
  function CloseNext(q: Parent, nx: nat): (r: Result<Parent>)
    requires nx < |q.cells|
  {
    match ClosedGap(q.surfaces, q.cells[nx].geom)
    case Err(e) => Err(e)
    case Ok(ss) => Ok(q.(surfaces := ss))
  }

  /** The discard of one layer cell of the copy q with the draw u: the
      cell `cell_ids[rand]`, rand = int(u * len(cell_ids)), is filled when it
      is the last layer cell, else takes over from the next layer cell. */
  function DiscardStep(q: Parent, u: real, dens: map<string, real>): (r: Result<Parent>)
    ensures r.Ok? ==> r.value.(cells := q.cells, surfaces := q.surfaces) == q
    ensures r.Ok? ==> |r.value.cells| == |q.cells| && CellSearch.SameSurfaces(q.surfaces, r.value.surfaces)
    ensures |LayerSearch.Positions(q.cells, LayerSearch.LayerKinds)| == 0 ==> r == Err(IndexError(OutOfRange))
  {
    var ids := LayerSearch.PositionsBefore(q.cells, LayerSearch.LayerKinds, |q.cells|);
    LayerSearch.PositionsSpec(q.cells, LayerSearch.LayerKinds, |q.cells|);
    assert forall k :: 0 <= k < |LayerSearch.PositionsBefore(q.cells, LayerSearch.LayerKinds, |q.cells|)| ==>
      LayerSearch.PositionsBefore(q.cells, LayerSearch.LayerKinds, |q.cells|)[k] < |q.cells|;
    var rand := LayerSearch.DrawnIndex(u, |ids|);
    if !ValidIndex(rand, |ids|) then Err(IndexError(OutOfRange))
    else
      var c := ids[PyIdx(rand, |ids|)];
      if rand == |ids| - 1 then FillLast(q, c, dens)
      else
        var nx := ids[PyIdx(rand + 1, |ids|)];
        if q.cells[c].kind == HorizCell then TakeNext(q, c, nx) else CloseNext(q, nx)
  }

  /** The fill of the last layer cell, in place on the copy. */
  method FillLastCell(q: Parent, c: nat, dens: map<string, real>) returns (r: Result<Parent>)
    requires c < |q.cells|
    ensures r == FillLast(q, c, dens)
  {
    if |q.matls| == 0 {
      return Err(IndexError(OutOfRange));
    }
    var fill := q.matls[|q.matls| - 1];
    if fill !in dens {
      return Err(KeyError(fill));
    }
    var m := MaterialSearch.IndexOf(q.matls, fill) + 1;
    r := Ok(q.(cells := q.cells[c := q.cells[c].(m := m, d := dens[fill])]));
  }

  /** The take-over of a horizontal cell, in place on the copy. */
  method TakeNextCell(q: Parent, c: nat, nx: nat) returns (r: Result<Parent>)
    requires c < |q.cells| && nx < |q.cells|
    ensures r == TakeNext(q, c, nx)
  {
    if !ValidIndex(q.cells[c].m - 1, |q.matls|) || !ValidIndex(q.cells[nx].m - 1, |q.matls|) {
      return Err(IndexError(OutOfRange));
    }
    r := Ok(q.(cells := q.cells[c := q.cells[c].(m := q.cells[nx].m, d := q.cells[nx].d)]));
  }

  /** The closing of a vertical gap, in place on the copy. */
  method CloseNextCell(q: Parent, nx: nat) returns (r: Result<Parent>)
    requires nx < |q.cells|
    ensures r == CloseNext(q, nx)
  {
    var ss := CloseGap(q.surfaces, q.cells[nx].geom);
    if ss.Err? {
      return Err(ss.error);
    }
    r := Ok(q.(surfaces := ss.value));
  }

  /** `int(random() * n)` for a draw in [0, 1) is an index below n. */
  lemma DrawInRange(u: real, n: nat)
    requires 0.0 <= u < 1.0 && n > 0
    ensures 0 <= LayerSearch.DrawnIndex(u, n) < n
  {
    Utilities.ScaleBelow(u, n as real);
  }

  /** A layer cell c lies at its rank in the list of layer cells. */
  lemma LayerRank(cells: seq<Cell>, c: nat)
    requires c < |cells| && cells[c].kind in LayerSearch.LayerKinds
    ensures var ids := LayerSearch.Positions(cells, LayerSearch.LayerKinds);
      var k := |LayerSearch.PositionsBefore(cells, LayerSearch.LayerKinds, c)|;
      k < |ids| && ids[k] == c
  {
    LayerSearch.PositionsFound(cells, LayerSearch.LayerKinds, |cells|, c);
  }

  /** The cell a draw in [0, 1) discards is a layer cell; the cell after it
      in the list is the next layer cell, with none between them; and when
      the draw picks the last entry, no layer cell follows it. */
  lemma LayerChoice(cells: seq<Cell>, u: real)
    requires 0.0 <= u < 1.0 && |LayerSearch.Positions(cells, LayerSearch.LayerKinds)| > 0
    ensures var ids := LayerSearch.Positions(cells, LayerSearch.LayerKinds);
      var rand := LayerSearch.DrawnIndex(u, |ids|);
      && 0 <= rand < |ids| && ids[rand] < |cells| && cells[ids[rand]].kind in LayerSearch.LayerKinds
      && (rand + 1 < |ids| ==>
            ids[rand] < ids[rand + 1] < |cells| && cells[ids[rand + 1]].kind in LayerSearch.LayerKinds
            && forall c :: ids[rand] < c < ids[rand + 1] ==> cells[c].kind !in LayerSearch.LayerKinds)
      && (rand + 1 == |ids| ==> forall c :: ids[rand] < c < |cells| ==> cells[c].kind !in LayerSearch.LayerKinds)
  {
    var ids := LayerSearch.Positions(cells, LayerSearch.LayerKinds);
    LayerSearch.PositionsSpec(cells, LayerSearch.LayerKinds, |cells|);
    DrawInRange(u, |ids|);
    var rand := LayerSearch.DrawnIndex(u, |ids|);
    forall c | ids[rand] < c < |cells| && cells[c].kind in LayerSearch.LayerKinds
      ensures rand + 1 < |ids| && ids[rand + 1] <= c
    {
      LayerRank(cells, c);
      var k := |LayerSearch.PositionsBefore(cells, LayerSearch.LayerKinds, c)|;
      if k <= rand {
        assert false;
      }
      if rand + 1 < k {
        assert ids[rand + 1] < ids[k];
      }
    }
  }

  /** A draw of the last entry fills the last layer cell. */
  lemma DiscardFillsLast(q: Parent, u: real, dens: map<string, real>)
    requires 0.0 <= u < 1.0
    requires var ids := LayerSearch.Positions(q.cells, LayerSearch.LayerKinds);
      |ids| > 0 && LayerSearch.DrawnIndex(u, |ids|) == |ids| - 1
    ensures var ids := LayerSearch.Positions(q.cells, LayerSearch.LayerKinds);
      var c := ids[|ids| - 1];
      && c < |q.cells| && q.cells[c].kind in LayerSearch.LayerKinds
      && (forall c' :: c < c' < |q.cells| ==> q.cells[c'].kind !in LayerSearch.LayerKinds)
      && DiscardStep(q, u, dens) == FillLast(q, c, dens)
  {
    LayerChoice(q.cells, u);
  }

  /** Any other draw of a horizontal cell makes it take over from the next
      layer cell. */
  lemma DiscardTakesNext(q: Parent, u: real, dens: map<string, real>)
    requires 0.0 <= u < 1.0
    requires var ids := LayerSearch.Positions(q.cells, LayerSearch.LayerKinds);
      var rand := LayerSearch.DrawnIndex(u, |ids|);
      0 <= rand < |ids| - 1 && ids[rand] < |q.cells| && q.cells[ids[rand]].kind == HorizCell
    ensures var ids := LayerSearch.Positions(q.cells, LayerSearch.LayerKinds);
      var rand := LayerSearch.DrawnIndex(u, |ids|);
      var (c, nx) := (ids[rand], ids[rand + 1]);
      && c < nx < |q.cells| && q.cells[nx].kind in LayerSearch.LayerKinds
      && (forall c' :: c < c' < nx ==> q.cells[c'].kind !in LayerSearch.LayerKinds)
      && DiscardStep(q, u, dens) == TakeNext(q, c, nx)
  {
    LayerChoice(q.cells, u);
  }

  /** Any other draw of a vertical cell closes the gap that the next layer
      cell's surfaces open. */
  lemma DiscardClosesNext(q: Parent, u: real, dens: map<string, real>)
    requires 0.0 <= u < 1.0
    requires var ids := LayerSearch.Positions(q.cells, LayerSearch.LayerKinds);
      var rand := LayerSearch.DrawnIndex(u, |ids|);
      0 <= rand < |ids| - 1 && ids[rand] < |q.cells| && q.cells[ids[rand]].kind != HorizCell
    ensures var ids := LayerSearch.Positions(q.cells, LayerSearch.LayerKinds);
      var rand := LayerSearch.DrawnIndex(u, |ids|);
      var (c, nx) := (ids[rand], ids[rand + 1]);
      && q.cells[c].kind == VertCell
      && c < nx < |q.cells| && q.cells[nx].kind in LayerSearch.LayerKinds
      && (forall c' :: c < c' < nx ==> q.cells[c'].kind !in LayerSearch.LayerKinds)
      && DiscardStep(q, u, dens) == CloseNext(q, nx)
  {
    LayerChoice(q.cells, u);
  }

  /** The fill: the cell's material number names the fill key and its
      density is the fill's; every other cell, the surfaces and the rest of
      the design are kept. It fails only without keys or when the library
      lacks the fill. */
  lemma FillLastFills(q: Parent, c: nat, dens: map<string, real>)
    requires c < |q.cells|
    ensures var r := FillLast(q, c, dens);
      && (r.Ok? <==> |q.matls| > 0 && q.matls[|q.matls| - 1] in dens)
      && (r.Err? ==> r.error == if |q.matls| == 0 then IndexError(OutOfRange) else KeyError(q.matls[|q.matls| - 1]))
      && (r.Ok? ==> r.value.(cells := q.cells) == q && |r.value.cells| == |q.cells|)
      && (r.Ok? ==>
            var (fill, n) := (q.matls[|q.matls| - 1], r.value.cells[c]);
        && (forall c' :: 0 <= c' < |q.cells| && c' != c ==> r.value.cells[c'] == q.cells[c'])
        && n.(m := q.cells[c].m, d := q.cells[c].d) == q.cells[c]
        && 1 <= n.m <= |q.matls| && q.matls[n.m - 1] == fill && fill !in q.matls[..n.m - 1]
        && n.d == dens[fill])
  {
  }

  /** The take-over: cell c gets the material and density of cell nx, the
      rest is kept; it fails when either material number does not index the
      keys. */
  lemma TakeNextTakes(q: Parent, c: nat, nx: nat)
    requires c < |q.cells| && nx < |q.cells|
    ensures var r := TakeNext(q, c, nx);
      && (r.Ok? <==> ValidIndex(q.cells[c].m - 1, |q.matls|) && ValidIndex(q.cells[nx].m - 1, |q.matls|))
      && (r.Ok? ==>
        && r.value.(cells := q.cells) == q && |r.value.cells| == |q.cells|
        && (forall c' :: 0 <= c' < |q.cells| && c' != c ==> r.value.cells[c'] == q.cells[c'])
        && r.value.cells[c] == q.cells[c].(m := q.cells[nx].m, d := q.cells[nx].d))
  {
  }

  /** Closing the gap: every surface numbered n and the surface after it get
      the height 0.0001, nothing else changes; it fails exactly when the last
      surface is numbered n. */
  lemma ClosedGapCloses(ss: seq<Surface>, n: int)
    ensures var r := ClosedGap(ss, n);
      && (r.Ok? <==> ss == [] || ss[|ss| - 1].name != n)
      && (r.Ok? ==>
        && |r.value| == |ss| && CellSearch.SameSurfaces(ss, r.value)
        && (forall t :: 0 <= t < |ss| ==> r.value[t] == ss[t].(hz := r.value[t].hz))
        && (forall t :: 0 <= t < |ss| && ss[t].name == n ==>
              t + 1 < |ss| && r.value[t].hz == Closed && r.value[t + 1].hz == Closed)
        && (forall t :: 0 <= t < |ss| && r.value[t].hz != ss[t].hz ==>
              ss[t].name == n || (t > 0 && ss[t - 1].name == n)))
  {
  }

  /** The discard as the loop body performs it. */
  method DiscardOne(q: Parent, u: real, dens: map<string, real>) returns (r: Result<Parent>)
    ensures r == DiscardStep(q, u, dens)
  {
    var ids := LayerSearch.CollectPositions(q.cells, LayerSearch.LayerKinds, []);
    assert ids == LayerSearch.PositionsBefore(q.cells, LayerSearch.LayerKinds, |q.cells|);
    LayerSearch.PositionsSpec(q.cells, LayerSearch.LayerKinds, |q.cells|);
    assert forall k :: 0 <= k < |LayerSearch.PositionsBefore(q.cells, LayerSearch.LayerKinds, |q.cells|)| ==>
      LayerSearch.PositionsBefore(q.cells, LayerSearch.LayerKinds, |q.cells|)[k] < |q.cells|;
    var rand := LayerSearch.DrawnIndex(u, |ids|);
    if !ValidIndex(rand, |ids|) {
      return Err(IndexError(OutOfRange));
    }
    var c := ids[PyIdx(rand, |ids|)];
    if rand == |ids| - 1 {
      r := FillLastCell(q, c, dens);
    } else {
      var nx := ids[PyIdx(rand + 1, |ids|)];
      if q.cells[c].kind == HorizCell {
        r := TakeNextCell(q, c, nx);
      } else {
        r := CloseNextCell(q, nx);
      }
    }
  }

  // ---------------------------------------------------------------------------
  // The loop over the copies

  /** After k iterations: the copies made, the parents used and the position
      of the next draw. */
  datatype Discarded = Discarded(tmp: seq<Parent>, used: seq<nat>, next: nat)

  /** One iteration of `Discard_Cells` after the parents used and with the
      draws from next on: the parent drawn, its copy with one cell discarded,
      and the position after the draws taken. */
  function DiscardIter(x: seq<Parent>, dens: map<string, real>, us: seq<real>, used: seq<nat>, next: nat)
    : (r: Result<(nat, Parent, nat)>)
    ensures r.Ok? ==> r.value.0 !in used && r.value.0 < |x| && next + 2 <= r.value.2 <= |us|
  {
    match Redraw(|x|, used, us, next)
    case Err(e) => Err(e)
    case Ok(pick) =>
      if pick.0 >= |x| then Err(IndexError(OutOfRange))
      else if pick.1 >= |us| then Err(DrawsExhausted)
      else
        match DiscardStep(x[pick.0], us[pick.1], dens)
        case Err(e) => Err(e)
        case Ok(q) => Ok((pick.0, q, pick.1 + 1))
  }

  /** A distinct list extended by an index not in it stays distinct. */
  lemma DistinctAppend(used: seq<nat>, d: nat)
    requires CellSearch.Distinct(used) && d !in used
    ensures CellSearch.Distinct(used + [d])
  {
    forall a, b | 0 <= a < b < |used| + 1
      ensures (used + [d])[a] != (used + [d])[b]
    {
      if b == |used| {
        assert (used + [d])[a] == used[a];
      }
    }
  }

  /** k iterations of `Discard_Cells` on the draws us. */
  function DiscardRun(x: seq<Parent>, dens: map<string, real>, us: seq<real>, k: nat): (r: Result<Discarded>)
    ensures r.Ok? ==> |r.value.tmp| == |r.value.used| == k && r.value.next <= |us|
    ensures r.Ok? ==> CellSearch.Distinct(r.value.used)
    ensures r.Ok? ==> forall j :: 0 <= j < k ==> r.value.used[j] < |x|
  {
    if k == 0 then Ok(Discarded([], [], 0))
    else
      match DiscardRun(x, dens, us, k - 1)
      case Err(e) => Err(e)
      case Ok(s) =>
        match DiscardIter(x, dens, us, s.used, s.next)
        case Err(e) => Err(e)
        case Ok(one) =>
          DistinctAppend(s.used, one.0);
          Ok(Discarded(s.tmp + [one.1], s.used + [one.0], one.2))
  }

  /** A list of distinct indexes below n has at most n entries. */
  lemma {:induction false} DistinctBelow(s: seq<nat>, n: nat)
    requires CellSearch.Distinct(s) && forall j :: 0 <= j < |s| ==> s[j] < n
    ensures |s| <= n
    decreases |s|
  {
    if s != [] {
      var e := s[|s| - 1];
      var init := s[..|s| - 1];
      var moved := seq(|init|, j requires 0 <= j < |init| => if init[j] == n - 1 then e else init[j]);
      forall j | 0 <= j < |moved|
        ensures moved[j] < n - 1
      {
        assert init[j] == s[j] && s[j] != s[|s| - 1];
      }
      forall a, b | 0 <= a < b < |moved|
        ensures moved[a] != moved[b]
      {
        assert init[a] == s[a] && init[b] == s[b];
      }
      DistinctBelow(moved, n - 1);
    }
  }

  /** Each parent is copied at most once, so a run of more iterations than
      there are parents never completes: the source then redraws forever. */
  lemma DiscardRunFitsParents(x: seq<Parent>, dens: map<string, real>, us: seq<real>, k: nat)
    requires DiscardRun(x, dens, us, k).Ok?
    ensures k <= |x|
  {
    DistinctBelow(DiscardRun(x, dens, us, k).value.used, |x|);
  }

  /** Once an iteration fails, the run has failed with the same error. */
  lemma {:induction false} DiscardRunStops(x: seq<Parent>, dens: map<string, real>, us: seq<real>, k: nat, k': nat)
    requires k <= k' && DiscardRun(x, dens, us, k).Err?
    ensures DiscardRun(x, dens, us, k') == DiscardRun(x, dens, us, k)
    decreases k' - k
  {
    if k < k' {
      DiscardRunStops(x, dens, us, k + 1, k');
    }
  }

  /** One `next(weights)` on the generator built from the ranks of n
      parents: the weighted index of the draw u. */
  method DrawParent(gen: Utilities.WeightedRandomGenerator, n: nat, u: real) returns (d: Result<nat>)
    requires gen.Valid() && gen.weights == Ranks(n)
    ensures d == WeightedIndex(n, u)
  {
    if n > 0 {
      TotalsShape(n);
    }
    d := gen.Next(u);
  }
  /** `while discard in used: discard = next(weights)` on the generator. */
  method RedrawFrom(gen: Utilities.WeightedRandomGenerator, n: nat, used: seq<nat>, us: seq<real>, next: nat)
    returns (r: Result<(nat, nat)>)
    requires gen.Valid() && gen.weights == Ranks(n)
    ensures r == Redraw(n, used, us, next)
  {
    var k := next;
    while k < |us|
      invariant next <= k
      invariant Redraw(n, used, us, next) == Redraw(n, used, us, k)
      decreases |us| - k
    {
      var d := DrawParent(gen, n, us[k]);
      if d.Err? {
        return Err(d.error);
      }
      if d.value !in used {
        return Ok((d.value, k + 1));
      }
      k := k + 1;
    }
    return Err(DrawsExhausted);
  }

  /** The loop body of `Discard_Cells` on the generator. */
  method DiscardIteration(gen: Utilities.WeightedRandomGenerator, x: seq<Parent>, dens: map<string, real>,
                          us: seq<real>, used: seq<nat>, next: nat) returns (r: Result<(nat, Parent, nat)>)
    requires gen.Valid() && gen.weights == Ranks(|x|)
    ensures r == DiscardIter(x, dens, us, used, next)
  {
    var pick := RedrawFrom(gen, |x|, used, us, next);
    if pick.Err? {
      return Err(pick.error);
    }
    var (d, pos) := pick.value;
    if d >= |x| {
      return Err(IndexError(OutOfRange));
    }
    if pos >= |us| {
      return Err(DrawsExhausted);
    }
    var one := DiscardOne(x[d], us[pos], dens);
    if one.Err? {
      return Err(one.error);
    }
    r := Ok((d, one.value, pos + 1));
  }

  /** `Discard_Cells`: for each of the first int(fd * p) designs, the copy
      of a parent not drawn before with one layer cell discarded. */
  method DiscardCells(x: seq<Parent>, fd: real, p: int, dens: map<string, real>, us: seq<real>)
    returns (r: Result<seq<Parent>>)
    ensures var run := DiscardRun(x, dens, us, CellSearch.Draws(fd, p));
      && (r.Ok? <==> run.Ok?)
      && (r.Ok? ==> r.value == run.value.tmp)
      && (r.Err? ==> r.error == run.error)
  {
    var gen := new Utilities.WeightedRandomGenerator(Ranks(|x|));
    var used: seq<nat> := [];
    var tmp: seq<Parent> := [];
    var next: nat := 0;
    var count := CellSearch.Draws(fd, p);
    for i := 0 to count
      invariant gen.Valid() && gen.weights == Ranks(|x|)
      invariant DiscardRun(x, dens, us, i) == Ok(Discarded(tmp, used, next))
    {
      var step := DiscardIteration(gen, x, dens, us, used, next);
      if step.Err? {
        DiscardRunStops(x, dens, us, i + 1, count);
        return Err(step.error);
      }
      var (d, q, pos) := step.value;
      tmp, used, next := tmp + [q], used + [d], pos;
    }
    r := Ok(tmp);
  }
}
