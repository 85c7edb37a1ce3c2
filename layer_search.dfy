// The layer operators of Code/Metaheuristics.py: `Two_opt` (two adjacent
// horizontal cells trade places), `Crossover` (one layer cell of a parent
// copied into another parent), `Three_opt` (a window of horizontal cells
// reordered) and `Discard_Cells` (one layer cell given the material of its
// neighbour or of the fill).
module LayerSearch {
  import opened Wrappers
  import opened PyMath
  import opened Design
  import CellSearch
  import MaterialSearch
  import Utilities

  const OutOfRange: string := "list index out of range"

  /** The cell comments `Two_opt` and `Three_opt` collect ('horiz') and the
      ones `Crossover` and `Discard_Cells` collect ('horiz' or 'vert'). */
  const HorizKinds: set<CellKind> := {HorizCell}
  const LayerKinds: set<CellKind> := {HorizCell, VertCell}

  /** The message of reading a local variable before any assignment. */
  function Unbound(name: string): string
  {
    "local variable '" + name + "' referenced before assignment"
  }

  // ---------------------------------------------------------------------------
  // Cells and surfaces looked up by comment or number

  /** The positions before j of the cells whose comment is one of `kinds`,
      in order. */
  function PositionsBefore(cells: seq<Cell>, kinds: set<CellKind>, j: nat): seq<nat>
    requires j <= |cells|
  {
    if j == 0 then []
    else PositionsBefore(cells, kinds, j - 1) + (if cells[j - 1].kind in kinds then [j - 1] else [])
  }

  /** The positions of the cells whose comment is one of `kinds`, in order. */
  function Positions(cells: seq<Cell>, kinds: set<CellKind>): seq<nat>
  {
    PositionsBefore(cells, kinds, |cells|)
  }

  /** The positions found before j are cells of those kinds there, in
      increasing order. */
  lemma {:induction false} PositionsSpec(cells: seq<Cell>, kinds: set<CellKind>, j: nat)
    requires j <= |cells|
    ensures forall k :: 0 <= k < |PositionsBefore(cells, kinds, j)| ==> PositionsBefore(cells, kinds, j)[k] < j
    ensures forall k :: 0 <= k < |PositionsBefore(cells, kinds, j)| ==> cells[PositionsBefore(cells, kinds, j)[k]].kind in kinds
    ensures forall a, b :: 0 <= a < b < |PositionsBefore(cells, kinds, j)| ==> PositionsBefore(cells, kinds, j)[a] < PositionsBefore(cells, kinds, j)[b]
  {
    if j > 0 {
      PositionsSpec(cells, kinds, j - 1);
      var init := PositionsBefore(cells, kinds, j - 1);
      var r := PositionsBefore(cells, kinds, j);
      assert r == init + (if cells[j - 1].kind in kinds then [j - 1] else []);
      assert forall k :: 0 <= k < |init| ==> r[k] == init[k];
    }
  }

  /** Every cell c of those kinds before j is found, at index
      |PositionsBefore(c)|, the number of them before it. */
  lemma {:induction false} PositionsFound(cells: seq<Cell>, kinds: set<CellKind>, j: nat, c: nat)
    requires c < j <= |cells| && cells[c].kind in kinds
    ensures |PositionsBefore(cells, kinds, c)| < |PositionsBefore(cells, kinds, j)|
    ensures PositionsBefore(cells, kinds, j)[|PositionsBefore(cells, kinds, c)|] == c
    decreases j
  {
    var r := PositionsBefore(cells, kinds, j);
    var init := PositionsBefore(cells, kinds, j - 1);
    assert r == init + (if cells[j - 1].kind in kinds then [j - 1] else []);
    if c < j - 1 {
      PositionsFound(cells, kinds, j - 1, c);
      assert r[|PositionsBefore(cells, kinds, c)|] == init[|PositionsBefore(cells, kinds, c)|];
    }
  }

  /** The count of such positions only grows. */
  lemma {:induction false} PositionsGrow(cells: seq<Cell>, kinds: set<CellKind>, i: nat, j: nat)
    requires i <= j <= |cells|
    ensures |PositionsBefore(cells, kinds, i)| <= |PositionsBefore(cells, kinds, j)|
    decreases j - i
  {
    if i < j {
      PositionsGrow(cells, kinds, i, j - 1);
    }
  }

  /** The positions before j of the surfaces whose comment starts with
      "horiz", in order. */
  function PlanesBefore(ss: seq<Surface>, j: nat): seq<nat>
    requires j <= |ss|
  {
    if j == 0 then []
    else PlanesBefore(ss, j - 1) + (if ss[j - 1].role.HorizPrefix() then [j - 1] else [])
  }

  function HorizPlanes(ss: seq<Surface>): seq<nat>
  {
    PlanesBefore(ss, |ss|)
  }

  /** As PositionsSpec, for the "horiz" surfaces. */
  lemma {:induction false} PlanesSpec(ss: seq<Surface>, j: nat)
    requires j <= |ss|
    ensures var r := PlanesBefore(ss, j);
      && (forall k :: 0 <= k < |r| ==> r[k] < j)
      && (forall k :: 0 <= k < |r| ==> ss[r[k]].role.HorizPrefix())
      && (forall a, b :: 0 <= a < b < |r| ==> r[a] < r[b])
      && (forall c :: 0 <= c < j && ss[c].role.HorizPrefix() ==>
            |PlanesBefore(ss, c)| < |r| && r[|PlanesBefore(ss, c)|] == c)
  {
    if j > 0 {
      PlanesSpec(ss, j - 1);
      var init := PlanesBefore(ss, j - 1);
      var r := PlanesBefore(ss, j);
      assert forall k :: 0 <= k < |init| ==> r[k] == init[k];
    }
  }

  lemma {:induction false} PlanesGrow(ss: seq<Surface>, i: nat, j: nat)
    requires i <= j <= |ss|
    ensures |PlanesBefore(ss, i)| <= |PlanesBefore(ss, j)|
    decreases j - i
  {
    if i < j {
      PlanesGrow(ss, i, j - 1);
    }
  }

  /** The loop `for c in range(len(cells)): if cells[c].comment in kinds:
      cell_ids.append(c)`, which extends the list `ids`. */
  method CollectPositions(cells: seq<Cell>, kinds: set<CellKind>, ids: seq<nat>) returns (r: seq<nat>)
    ensures r == ids + Positions(cells, kinds)
  {
    r := ids;
    for c := 0 to |cells|
      invariant r == ids + PositionsBefore(cells, kinds, c)
    {
      if cells[c].kind in kinds {
        r := r + [c];
      }
    }
  }

  /** The d of the last surface numbered n, or None when no surface is. */
  function LastNamed(ss: seq<Surface>, n: int): (r: Option<real>)
    ensures r.None? <==> forall k :: 0 <= k < |ss| ==> ss[k].name != n
  {
    if ss == [] then None
    else if ss[|ss| - 1].name == n then Some(ss[|ss| - 1].d)
    else
      var init := ss[..|ss| - 1];
      assert forall k :: 0 <= k < |init| ==> init[k] == ss[k];
      LastNamed(init, n)
  }

  /** A surface numbered n with no later one so numbered is the one whose d
      the lookup finds. */
  lemma {:induction false} LastNamedAt(ss: seq<Surface>, n: int, k: nat)
    requires k < |ss| && ss[k].name == n && forall j :: k < j < |ss| ==> ss[j].name != n
    ensures LastNamed(ss, n) == Some(ss[k].d)
    decreases |ss|
  {
    if k < |ss| - 1 {
      var init := ss[..|ss| - 1];
      assert forall j :: k < j < |init| ==> init[j] == ss[j];
      LastNamedAt(init, n, k);
    }
  }

  function OrElse(a: Option<real>, b: Option<real>): Option<real>
  {
    if a.Some? then a else b
  }

  /** The values the loop `for s in surfaces: if s.name == ns[0]: z[0] = s.d
      elif s.name == ns[1]: z[1] = s.d ...` leaves in the variables z that
      held zs before it: z[j] is the d of the last surface numbered ns[j],
      unless an earlier test catches that number first, and otherwise keeps
      its value. */
  function Looked(ss: seq<Surface>, ns: seq<int>, zs: seq<Option<real>>): (r: seq<Option<real>>)
    requires |zs| == |ns|
    ensures |r| == |ns|
  {
    seq(|ns|, j requires 0 <= j < |ns| => if ns[j] in ns[..j] then zs[j] else OrElse(LastNamed(ss, ns[j]), zs[j]))
  }

  /** For three distinct numbers that are all found, the lookup gives the d
      of the last surface with each. */
  lemma LookedThree(ss: seq<Surface>, n1: int, n2: int, n3: int, zs: seq<Option<real>>)
    requires |zs| == 3 && n1 != n2 && n1 != n3 && n2 != n3
    requires LastNamed(ss, n1).Some? && LastNamed(ss, n2).Some? && LastNamed(ss, n3).Some?
    ensures Looked(ss, [n1, n2, n3], zs) == [LastNamed(ss, n1), LastNamed(ss, n2), LastNamed(ss, n3)]
  {
    var ns := [n1, n2, n3];
    assert ns[..1] == [n1] && ns[..2] == [n1, n2];
  }

  /** The lookup loop over the surfaces, for the numbers ns. */
  method FindPlanes(ss: seq<Surface>, ns: seq<int>, zs: seq<Option<real>>) returns (r: seq<Option<real>>)
    requires |zs| == |ns|
    ensures r == Looked(ss, ns, zs)
  {
    r := zs;
    var k := 0;
    while k < |ss|
      invariant k <= |ss| && r == Looked(ss[..k], ns, zs)
    {
      var j := MaterialSearch.IndexOf(ns, ss[k].name);
      assert ss[..k + 1][..k] == ss[..k];
      if j >= 0 {
        r := r[j := Some(ss[k].d)];
      }
      k := k + 1;
    }
    assert ss[..|ss|] == ss;
  }

  // ---------------------------------------------------------------------------
  // Two_opt

  /** The cells with the contents of cells a and b exchanged: each of the two
      positions keeps its own name and geometry and takes the other's
      material, density and comment (a full swap, with the names and the
      geometry strings swapped back). */
  function Exchanged(cells: seq<Cell>, a: nat, b: nat): (r: seq<Cell>)
    requires a < |cells| && b < |cells|
    ensures |r| == |cells| && forall k :: 0 <= k < |cells| && k != a && k != b ==> r[k] == cells[k]
    ensures a != b ==> r[a] == cells[b].(name := cells[a].name, geom := cells[a].geom)
    ensures r[b] == cells[a].(name := cells[b].name, geom := cells[b].geom)
  {
    cells[a := cells[b].(name := cells[a].name, geom := cells[a].geom)][b := cells[a].(name := cells[b].name, geom := cells[b].geom)]
  }

  /** Exchanging twice gives the cells back. */
  lemma ExchangedTwice(cells: seq<Cell>, a: nat, b: nat)
    requires a < |cells| && b < |cells|
    ensures Exchanged(Exchanged(cells, a, b), a, b) == cells
  {
    var once := Exchanged(cells, a, b);
    var twice := Exchanged(once, a, b);
    assert forall k :: 0 <= k < |cells| ==> twice[k] == cells[k];
  }

  /** The new planes `z_2 = z_1 + (z_3 - z_2)` and `z_3 = z_2 + (z_2 - z_1)`
      (the old z_2 in the second): the top plane stays where it was and the
      two layers trade thicknesses. */
  function TradedPlanes(z1: real, z2: real, z3: real): (r: (real, real))
    ensures r.1 == z3
    ensures r.0 - z1 == z3 - z2 && r.1 - r.0 == z2 - z1
  {
    var mid := z1 + (z3 - z2);
    (mid, mid + (z2 - z1))
  }

  /** A surface after `if s.name == n_2: s.d = z_2 elif s.name == n_3: s.d
      = z_3`. */
  function Moved(s: Surface, n2: int, n3: int, z2: real, z3: real): Surface
  {
    if s.name == n2 then s.(d := z2) else if s.name == n3 then s.(d := z3) else s
  }

  function MovedPlanes(ss: seq<Surface>, n2: int, n3: int, z2: real, z3: real): (r: seq<Surface>)
    ensures |r| == |ss|
  {
    seq(|ss|, k requires 0 <= k < |ss| => Moved(ss[k], n2, n3, z2, z3))
  }

  /** The loop over the surfaces that moves the planes n_2 and n_3. */
  method MovePlanes(ss: seq<Surface>, n2: int, n3: int, z2: real, z3: real) returns (r: seq<Surface>)
    ensures r == MovedPlanes(ss, n2, n3, z2, z3)
  {
    r := ss;
    for k := 0 to |ss|
      invariant |r| == |ss|
      invariant forall j :: k <= j < |ss| ==> r[j] == ss[j]
      invariant forall j :: 0 <= j < k ==> r[j] == Moved(ss[j], n2, n3, z2, z3)
    {
      if ss[k].name == n2 {
        r := r[k := ss[k].(d := z2)];
      } else if ss[k].name == n3 {
        r := r[k := ss[k].(d := z3)];
      }
    }
  }

  /** `rand = int(ceil(random() * (len(cell_ids) - 3)))` and the two cell
      positions `cell_ids[rand]` and `cell_ids[rand + 1]`, with Python's
      negative indexes. */
  function TwoOptPick(ids: seq<nat>, u: real): (r: Result<(nat, nat)>)
    ensures r.Ok? ==> r.value.0 in ids && r.value.1 in ids
    ensures r.Err? ==> r.error == IndexError(OutOfRange)
  {
    var rand := Ceil(u * (|ids| as real - 3.0));
    if ValidIndex(rand, |ids|) && ValidIndex(rand + 1, |ids|) then Ok((ids[PyIdx(rand, |ids|)], ids[PyIdx(rand + 1, |ids|)]))
    else Err(IndexError(OutOfRange))
  }

  /** A member of a list of cell positions below n is below n. */
  lemma MemberBelow(ids: seq<nat>, n: nat, x: nat)
    requires forall k :: 0 <= k < |ids| ==> ids[k] < n
    requires x in ids
    ensures x < n
  {
    var k :| 0 <= k < |ids| && ids[k] == x;
  }

  /** `ceil(u * (n - 3))` for a draw u in [0, 1) and n >= 3 lies in
      [0, n - 3]. */
  lemma CeilOfDraw(u: real, n: nat)
    requires 0.0 <= u < 1.0 && n >= 3
    ensures 0 <= Ceil(u * (n as real - 3.0)) <= n - 3
  {
    var m := n as real - 3.0;
    var v := u * m;
    assert 0.0 <= v by {
      MulNonNegative(u, m);
    }
    assert v <= m by {
      assert m - v == (1.0 - u) * m;
      MulNonNegative(1.0 - u, m);
    }
    var r := Ceil(v);
    assert r as real - 1.0 < v <= r as real;
  }

  lemma MulNonNegative(a: real, b: real)
    requires 0.0 <= a && 0.0 <= b
    ensures 0.0 <= a * b
  {
  }

  /** Over one design's horizontal cells, at least three of them, the pick
      is a horizontal cell and the next one up, never the topmost pair. */
  lemma TwoOptPickAdjacent(cells: seq<Cell>, u: real)
    requires |Positions(cells, HorizKinds)| >= 3 && 0.0 <= u < 1.0
    ensures var ids := Positions(cells, HorizKinds);
      var r := TwoOptPick(ids, u);
      && r.Ok? && r.value.0 < r.value.1 < |cells|
      && cells[r.value.0].kind == HorizCell && cells[r.value.1].kind == HorizCell
      && (forall c :: r.value.0 < c < r.value.1 ==> cells[c].kind != HorizCell)
      && r.value.1 < ids[|ids| - 1]
  {
    var ids := Positions(cells, HorizKinds);
    PositionsSpec(cells, HorizKinds, |cells|);
    forall c | 0 <= c < |cells| && cells[c].kind in HorizKinds
      ensures c in ids
    {
      PositionsFound(cells, HorizKinds, |cells|, c);
      assert ids[|PositionsBefore(cells, HorizKinds, c)|] == c;
    }
    PickAdjacentIn(cells, ids, u);
  }

  lemma PickAdjacentIn(cells: seq<Cell>, ids: seq<nat>, u: real)
    requires |ids| >= 3 && 0.0 <= u < 1.0
    requires forall k :: 0 <= k < |ids| ==> ids[k] < |cells| && cells[ids[k]].kind in HorizKinds
    requires forall a, b :: 0 <= a < b < |ids| ==> ids[a] < ids[b]
    requires forall c :: 0 <= c < |cells| && cells[c].kind in HorizKinds ==> c in ids
    ensures var r := TwoOptPick(ids, u);
      && r.Ok? && r.value.0 < r.value.1 < |cells|
      && cells[r.value.0].kind == HorizCell && cells[r.value.1].kind == HorizCell
      && (forall c :: r.value.0 < c < r.value.1 ==> cells[c].kind != HorizCell)
      && r.value.1 < ids[|ids| - 1]
  {
    var n := |ids|;
    CeilOfDraw(u, n);
    var rand := Ceil(u * (n as real - 3.0));
    assert 0 <= rand <= n - 3;
    assert TwoOptPick(ids, u) == Ok((ids[rand], ids[rand + 1]));
    assert cells[ids[rand]].kind in HorizKinds && cells[ids[rand + 1]].kind in HorizKinds;
    assert ids[rand + 1] < ids[n - 1];
    NothingBetween(cells, ids, rand);
  }

  /** Between two consecutive entries of the complete, increasing list of
      horizontal cells there is no horizontal cell. */
  lemma NothingBetween(cells: seq<Cell>, ids: seq<nat>, j: nat)
    requires j + 1 < |ids|
    requires forall k :: 0 <= k < |ids| ==> ids[k] < |cells|
    requires forall a, b :: 0 <= a < b < |ids| ==> ids[a] < ids[b]
    requires forall c :: 0 <= c < |cells| && cells[c].kind in HorizKinds ==> c in ids
    ensures forall c :: ids[j] < c < ids[j + 1] ==> cells[c].kind != HorizCell
  {
    forall c | ids[j] < c < ids[j + 1] && cells[c].kind == HorizCell
      ensures false
    {
      assert c in ids;
      var k :| 0 <= k < |ids| && ids[k] == c;
      if k <= j {
        assert false;
      } else {
        assert false;
      }
    }
  }

  /** The cell positions `Two_opt` collects by the start of iteration i: the
      list is never cleared, so it holds the horizontal cells of every
      earlier parent too. */
  function AccumulatedIds(x: seq<Parent>, i: nat): (r: seq<nat>)
    requires i < |x|
  {
    if i == 0 then Positions(x[0].cells, HorizKinds)
    else AccumulatedIds(x, i - 1) + Positions(x[i].cells, HorizKinds)
  }

  /** Two parents with four horizontal cells each: in the second iteration
      the accumulated list is [0, 1, 2, 3, 0, 1, 2, 3], and the draw 0.5
      picks rand = 3, the pair (3, 0): the top and the bottom layer, not two
      adjacent ones. */
  lemma TwoOptStaleIds()
    ensures var layer := [Cell(1, 1, 1.0, 11, HorizCell), Cell(2, 2, 1.0, 12, HorizCell),
                          Cell(3, 3, 1.0, 13, HorizCell), Cell(4, 4, 1.0, 14, HorizCell)];
      var q := Parent(0, [], layer, [], 0.0, 0.0, 0);
      var ids := AccumulatedIds([q, q], 1);
      ids == [0, 1, 2, 3, 0, 1, 2, 3] && TwoOptPick(ids, 0.5) == Ok((3, 0))
  {
    var layer := [Cell(1, 1, 1.0, 11, HorizCell), Cell(2, 2, 1.0, 12, HorizCell),
                  Cell(3, 3, 1.0, 13, HorizCell), Cell(4, 4, 1.0, 14, HorizCell)];
    assert PositionsBefore(layer, HorizKinds, 1) == [0];
    assert PositionsBefore(layer, HorizKinds, 2) == [0, 1];
    assert PositionsBefore(layer, HorizKinds, 3) == [0, 1, 2];
    assert Positions(layer, HorizKinds) == [0, 1, 2, 3];
    assert Ceil(0.5 * (8 as real - 3.0)) == 3;
  }

  /** One iteration of `Two_opt` on the copy of design q, with the plane
      positions zs that `z_1`, `z_2` and `z_3` hold from earlier iterations
      (None while unassigned): the list of horizontal cells is built afresh
      for this design (see TwoOptStaleIds), the two picked cells exchange
      their contents, and the planes n_2 and n_3 above the lower one move so
      that the two layers trade thicknesses. */
  function TwoOptStep(q: Parent, u: real, zs: seq<Option<real>>): (r: Result<(Parent, seq<Option<real>>)>)
    requires |zs| == 3
    ensures r.Ok? ==> |r.value.1| == 3 && r.value.0.ident == q.ident && r.value.0.matls == q.matls
    ensures r.Ok? ==> |r.value.0.cells| == |q.cells| && CellSearch.SameSurfaces(q.surfaces, r.value.0.surfaces)
  {
    match TwoOptCells(q, u)
    case Err(e) => Err(e)
    case Ok((a, b)) =>
      var z := Looked(q.surfaces, [q.cells[a].geom, q.cells[b].geom, q.cells[b].geom + 1], zs);
      TwoOptTrade(q, a, b, z)
  }

  /** The two cell positions the pick over q's horizontal cells gives, each
      a cell of q. */
  function TwoOptCells(q: Parent, u: real): (r: Result<(nat, nat)>)
    ensures r == TwoOptPick(PositionsBefore(q.cells, HorizKinds, |q.cells|), u)
    ensures r.Ok? ==> r.value.0 < |q.cells| && r.value.1 < |q.cells|
  {
    var ids := PositionsBefore(q.cells, HorizKinds, |q.cells|);
    PositionsSpec(q.cells, HorizKinds, |q.cells|);
    var pick := TwoOptPick(ids, u);
    if pick.Err? then pick
    else
      MemberBelow(ids, |q.cells|, pick.value.0);
      MemberBelow(ids, |q.cells|, pick.value.1);
      pick
  }

  /** The exchange of cells a and b of q once the lookup has given z. */
  function TwoOptTrade(q: Parent, a: nat, b: nat, z: seq<Option<real>>): (r: Result<(Parent, seq<Option<real>>)>)
    requires a < |q.cells| && b < |q.cells| && |z| == 3
    ensures r.Ok? ==> |r.value.1| == 3 && r.value.0.ident == q.ident && r.value.0.matls == q.matls
    ensures r.Ok? ==> |r.value.0.cells| == |q.cells| && CellSearch.SameSurfaces(q.surfaces, r.value.0.surfaces)
  {
    if z[0].None? then Err(UnboundLocalError(Unbound("z_1")))
    else if z[1].None? then Err(UnboundLocalError(Unbound("z_2")))
    else if z[2].None? then Err(UnboundLocalError(Unbound("z_3")))
    else
      var t := TradedPlanes(z[0].value, z[1].value, z[2].value);
      var n2 := q.cells[b].geom;
      Ok((q.(cells := Exchanged(q.cells, a, b), surfaces := MovedPlanes(q.surfaces, n2, n2 + 1, t.0, t.1)),
          [z[0], Some(t.0), Some(t.1)]))
  }

  /** The iteration as the loop body performs it. */
  method TwoOptOne(q: Parent, u: real, zs: seq<Option<real>>) returns (r: Result<(Parent, seq<Option<real>>)>)
    requires |zs| == 3
    ensures r == TwoOptStep(q, u, zs)
  {
    var ids := CollectPositions(q.cells, HorizKinds, []);
    assert ids == PositionsBefore(q.cells, HorizKinds, |q.cells|);
    var pick := TwoOptPick(ids, u);
    assert pick == TwoOptCells(q, u);
    if pick.Err? {
      return Err(pick.error);
    }
    var a, b := pick.value.0, pick.value.1;
    var n1, n2 := q.cells[a].geom, q.cells[b].geom;
    var n3 := n2 + 1;
    var z := FindPlanes(q.surfaces, [n1, n2, n3], zs);
    assert TwoOptStep(q, u, zs) == TwoOptTrade(q, a, b, z);
    r := Trade(q, a, b, z);
  }

  /** The exchange of cells a and b once the planes are looked up. */
  method Trade(q: Parent, a: nat, b: nat, z: seq<Option<real>>) returns (r: Result<(Parent, seq<Option<real>>)>)
    requires a < |q.cells| && b < |q.cells| && |z| == 3
    ensures r == TwoOptTrade(q, a, b, z)
  {
    if z[0].None? {
      return Err(UnboundLocalError(Unbound("z_1")));
    } else if z[1].None? {
      return Err(UnboundLocalError(Unbound("z_2")));
    } else if z[2].None? {
      return Err(UnboundLocalError(Unbound("z_3")));
    }
    var n2 := q.cells[b].geom;
    var n3 := n2 + 1;
    var cells := Exchanged(q.cells, a, b);
    var z1 := z[0].value;
    var z2 := z1 + (z[2].value - z[1].value);
    var z3 := z2 + (z[1].value - z1);
    assert (z2, z3) == TradedPlanes(z1, z[1].value, z[2].value);
    var surfaces := MovePlanes(q.surfaces, n2, n3, z2, z3);
    r := Ok((q.(cells := cells, surfaces := surfaces), [z[0], Some(z2), Some(z3)]));
  }

  /** Once an iteration fails, the run has failed with the same error. */
  lemma {:induction false} TwoOptRunStops(x: seq<Parent>, us: seq<real>, k: nat, k': nat)
    requires k <= k' && TwoOptRun(x, us, k).Err?
    ensures TwoOptRun(x, us, k') == TwoOptRun(x, us, k)
    decreases k' - k
  {
    if k < k' {
      TwoOptRunStops(x, us, k + 1, k');
    }
  }

  /** The first k iterations of `Two_opt`: the copies made so far and the
      values `z_1`, `z_2` and `z_3` hold after them. */
  function TwoOptRun(x: seq<Parent>, us: seq<real>, k: nat): (r: Result<(seq<Parent>, seq<Option<real>>)>)
    ensures r.Ok? ==> |r.value.0| == k <= |x| && k <= |us| && |r.value.1| == 3
    ensures r.Ok? ==> forall i :: 0 <= i < k ==> r.value.0[i].ident == x[i].ident && |r.value.0[i].cells| == |x[i].cells|
  {
    if k == 0 then Ok(([], [None, None, None]))
    else
      match TwoOptRun(x, us, k - 1)
      case Err(e) => Err(e)
      case Ok(run) =>
        if k - 1 >= |x| then Err(IndexError(OutOfRange))
        else if k - 1 >= |us| then Err(DrawsExhausted)
        else
          match TwoOptStep(x[k - 1], us[k - 1], run.1)
          case Err(e) => Err(e)
          case Ok(one) => Ok((run.0 + [one.0], one.1))
  }

  /** `Two_opt`: for each of the first int(f * p) designs, a copy in which
      two adjacent horizontal cells trade places and thicknesses. */
  method TwoOpt(x: seq<Parent>, f: real, p: int, us: seq<real>) returns (r: Result<seq<Parent>>)
    ensures var run := TwoOptRun(x, us, CellSearch.Draws(f, p));
      r == (if run.Ok? then Ok(run.value.0) else Err(run.error))
  {
    var tmp: seq<Parent> := [];
    var zs: seq<Option<real>> := [None, None, None];
    var count := CellSearch.Draws(f, p);
    for i := 0 to count
      invariant TwoOptRun(x, us, i) == Ok((tmp, zs))
    {
      if i >= |x| || i >= |us| {
        TwoOptRunStops(x, us, i + 1, count);
        return if i >= |x| then Err(IndexError(OutOfRange)) else Err(DrawsExhausted);
      }
      var one := TwoOptOne(x[i], us[i], zs);
      if one.Err? {
        TwoOptRunStops(x, us, i + 1, count);
        return Err(one.error);
      }
      tmp, zs := tmp + [one.value.0], one.value.1;
    }
    r := Ok(tmp);
  }

  /** When the two picked cells bound distinct planes n_1, n_2 and n_3 and
      each of them is found, the step exchanges the two cells' contents and
      nothing else of the cells, moves the plane n_2 so that the lower layer
      takes the upper one's thickness, leaves the top plane n_3 where it was,
      and leaves every other surface and the rest of the design alone. */
  lemma TwoOptSwapsLayers(q: Parent, u: real, zs: seq<Option<real>>, a: nat, b: nat)
    requires |zs| == 3 && TwoOptPick(Positions(q.cells, HorizKinds), u) == Ok((a, b))
    requires a < |q.cells| && b < |q.cells|
    requires q.cells[a].geom != q.cells[b].geom && q.cells[a].geom != q.cells[b].geom + 1
    requires LastNamed(q.surfaces, q.cells[a].geom).Some? && LastNamed(q.surfaces, q.cells[b].geom).Some?
    requires LastNamed(q.surfaces, q.cells[b].geom + 1).Some?
    ensures var r := TwoOptStep(q, u, zs);
      var n1, n2 := q.cells[a].geom, q.cells[b].geom;
      var z1, z2, z3 := LastNamed(q.surfaces, n1).value, LastNamed(q.surfaces, n2).value, LastNamed(q.surfaces, n2 + 1).value;
      && r.Ok? && r.value.0.cells == Exchanged(q.cells, a, b)
      && r.value.0.(cells := q.cells, surfaces := q.surfaces) == q
      && (forall k :: 0 <= k < |q.surfaces| && q.surfaces[k].name == n2 ==> r.value.0.surfaces[k].d - z1 == z3 - z2)
      && (forall k :: 0 <= k < |q.surfaces| && q.surfaces[k].name == n2 + 1 ==> r.value.0.surfaces[k].d == z3)
      && (forall k :: 0 <= k < |q.surfaces| && q.surfaces[k].name != n2 && q.surfaces[k].name != n2 + 1 ==>
            r.value.0.surfaces[k] == q.surfaces[k])
  {
    var n1, n2 := q.cells[a].geom, q.cells[b].geom;
    var z1, z2, z3 := LastNamed(q.surfaces, n1).value, LastNamed(q.surfaces, n2).value, LastNamed(q.surfaces, n2 + 1).value;
    TwoOptStepIsTrade(q, u, zs, a, b);
    LookedThree(q.surfaces, n1, n2, n2 + 1, zs);
    assert Looked(q.surfaces, [n1, n2, n2 + 1], zs) == [Some(z1), Some(z2), Some(z3)];
    var r := TwoOptStep(q, u, zs);
    assert r == TwoOptTrade(q, a, b, [Some(z1), Some(z2), Some(z3)]);
    TradeSwapsLayers(q, a, b, z1, z2, z3);
  }

  lemma TwoOptStepIsTrade(q: Parent, u: real, zs: seq<Option<real>>, a: nat, b: nat)
    requires |zs| == 3 && TwoOptPick(Positions(q.cells, HorizKinds), u) == Ok((a, b))
    requires a < |q.cells| && b < |q.cells|
    ensures TwoOptStep(q, u, zs) == TwoOptTrade(q, a, b, Looked(q.surfaces, [q.cells[a].geom, q.cells[b].geom, q.cells[b].geom + 1], zs))
  {
  }

  /** The exchange itself, once the planes are known: the cells a and b
      exchange their contents, the plane n_2 moves so that the lower layer
      takes the upper one's thickness, the plane n_3 stays at z3, and nothing
      else changes. */
  lemma TradeSwapsLayers(q: Parent, a: nat, b: nat, z1: real, z2: real, z3: real)
    requires a < |q.cells| && b < |q.cells|
    ensures var n2 := q.cells[b].geom;
      var r := TwoOptTrade(q, a, b, [Some(z1), Some(z2), Some(z3)]);
      && r.Ok? && r.value.0.cells == Exchanged(q.cells, a, b)
      && r.value.0.(cells := q.cells, surfaces := q.surfaces) == q
      && (forall k :: 0 <= k < |q.surfaces| && q.surfaces[k].name == n2 ==> r.value.0.surfaces[k].d - z1 == z3 - z2)
      && (forall k :: 0 <= k < |q.surfaces| && q.surfaces[k].name == n2 + 1 ==> r.value.0.surfaces[k].d == z3)
      && (forall k :: 0 <= k < |q.surfaces| && q.surfaces[k].name != n2 && q.surfaces[k].name != n2 + 1 ==>
            r.value.0.surfaces[k] == q.surfaces[k])
  {
    var n2 := q.cells[b].geom;
    var t := TradedPlanes(z1, z2, z3);
    var moved := MovedPlanes(q.surfaces, n2, n2 + 1, t.0, t.1);
    assert forall k :: 0 <= k < |q.surfaces| ==> moved[k] == Moved(q.surfaces[k], n2, n2 + 1, t.0, t.1);
  }



  // ---------------------------------------------------------------------------
  // Crossover

  const AssignRange: string := "list assignment index out of range"

  /** A surface after the test chain `if s.name < n_1 and s.d > z_1: s.d =
      z_1 elif s.name == n_1: s.d = z_1 elif s.name == n_2: s.d = z_2 elif
      s.name > n_2 and s.d < z_2: s.d = z_2`, with n_2 = n_1 + 1: the result
      lies on the right side of the copied layer, and a surface already
      there is left as it was. */
  function Clamped(s: Surface, n1: int, z1: real, z2: real): (r: Surface)
    ensures r.name == s.name && r.role == s.role
    ensures Bracketed(r, n1, z1, z2)
    ensures r == s <==> Bracketed(s, n1, z1, z2)
  {
    if s.name < n1 && s.d > z1 then s.(d := z1)
    else if s.name == n1 then s.(d := z1)
    else if s.name == n1 + 1 then s.(d := z2)
    else if s.name > n1 + 1 && s.d < z2 then s.(d := z2)
    else s
  }

  /** Surface s lies where the layer bounded by the planes n_1 (at z1) and
      n_1 + 1 (at z2) puts it: the planes numbered below at or under z1, the
      ones above at or over z2. */
  predicate Bracketed(s: Surface, n1: int, z1: real, z2: real)
  {
    && (s.name < n1 ==> s.d <= z1)
    && (s.name == n1 ==> s.d == z1)
    && (s.name == n1 + 1 ==> s.d == z2)
    && (s.name > n1 + 1 ==> s.d >= z2)
  }

  function ClampedPlanes(ss: seq<Surface>, n1: int, z1: real, z2: real): (r: seq<Surface>)
    ensures |r| == |ss|
  {
    seq(|ss|, k requires 0 <= k < |ss| => Clamped(ss[k], n1, z1, z2))
  }

  /** The loop over the copy's surfaces that fits them around the copied
      horizontal layer. */
  method ClampPlanes(ss: seq<Surface>, n1: int, z1: real, z2: real) returns (r: seq<Surface>)
    ensures r == ClampedPlanes(ss, n1, z1, z2)
  {
    r := ss;
    for k := 0 to |ss|
      invariant |r| == |ss|
      invariant forall j :: k <= j < |ss| ==> r[j] == ss[j]
      invariant forall j :: 0 <= j < k ==> r[j] == Clamped(ss[j], n1, z1, z2)
    {
      var s := ss[k];
      if s.name < n1 && s.d > z1 {
        r := r[k := s.(d := z1)];
      } else if s.name == n1 {
        r := r[k := s.(d := z1)];
      } else if s.name == n1 + 1 {
        r := r[k := s.(d := z2)];
      } else if s.name > n1 + 1 && s.d < z2 {
        r := r[k := s.(d := z2)];
      }
    }
  }

  /** The copy's surfaces `dst` after `for j in range(len(src)): if
      src[j].name == n_1 or src[j].name == n_2: dst[j] = src[j]`, with n_2 =
      n_1 + 1; the assignment fails when such a j is past the end of dst. */
  function CopiedPlanes(dst: seq<Surface>, src: seq<Surface>, n1: int): (r: Result<seq<Surface>>)
    ensures r.Err? <==> exists j :: |dst| <= j < |src| && (src[j].name == n1 || src[j].name == n1 + 1)
    ensures r.Ok? ==> |r.value| == |dst| && forall j :: 0 <= j < |dst| ==> r.value[j] == dst[j] || (j < |src| && r.value[j] == src[j])
  {
    if forall j :: |dst| <= j < |src| ==> src[j].name != n1 && src[j].name != n1 + 1 then
      Ok(seq(|dst|, j requires 0 <= j < |dst| =>
        if j < |src| && (src[j].name == n1 || src[j].name == n1 + 1) then src[j] else dst[j]))
    else Err(IndexError(AssignRange))
  }

  method CopyPlanes(dst: seq<Surface>, src: seq<Surface>, n1: int) returns (r: Result<seq<Surface>>)
    ensures r == CopiedPlanes(dst, src, n1)
  {
    var out := dst;
    for j := 0 to |src|
      invariant |out| == |dst|
      invariant forall k :: |dst| <= k < j ==> src[k].name != n1 && src[k].name != n1 + 1
      invariant forall k :: 0 <= k < |dst| ==>
        out[k] == if k < j && (src[k].name == n1 || src[k].name == n1 + 1) then src[k] else dst[k]
    {
      if src[j].name == n1 || src[j].name == n1 + 1 {
        if j >= |dst| {
          assert !(src[j].name != n1 && src[j].name != n1 + 1);
          return Err(IndexError(AssignRange));
        }
        out := out[j := src[j]];
      }
    }
    assert forall j :: |dst| <= j < |src| ==> src[j].name != n1 && src[j].name != n1 + 1;
    assert CopiedPlanes(dst, src, n1).Ok?;
    assert forall k :: 0 <= k < |dst| ==> out[k] == CopiedPlanes(dst, src, n1).value[k];
    assert out == CopiedPlanes(dst, src, n1).value;
    r := Ok(out);
  }

  /** Design t is design d with at most one cell taken from q at the same
      position and at most one material taken from q's list, and each surface either d's with only its
      position changed or q's at the same position; everything else is d's. */
  predicate Crossed(d: Parent, q: Parent, t: Parent)
  {
    && t.(cells := d.cells, matls := d.matls, surfaces := d.surfaces) == d
    && |t.cells| == |d.cells| && |t.matls| == |d.matls| && |t.surfaces| == |d.surfaces|
    && (forall c :: 0 <= c < |t.cells| ==> t.cells[c] == d.cells[c] || (c < |q.cells| && t.cells[c] == q.cells[c]))
    && (forall a, b :: 0 <= a < b < |t.cells| ==> t.cells[a] == d.cells[a] || t.cells[b] == d.cells[b])
    && (forall c :: 0 <= c < |t.matls| ==> t.matls[c] == d.matls[c] || t.matls[c] in q.matls)
    && (forall a, b :: 0 <= a < b < |t.matls| ==> t.matls[a] == d.matls[a] || t.matls[b] == d.matls[b])
    && (forall j :: 0 <= j < |t.surfaces| ==>
          t.surfaces[j] == d.surfaces[j].(d := t.surfaces[j].d) || (j < |q.surfaces| && t.surfaces[j] == q.surfaces[j]))
  }

  /** Design t is d with cell c replaced by q's cell c and the material that
      cell names (its `m - 1` as a Python index) replaced by q's material
      there; nothing else of cells and materials changes. */
  predicate CellCopied(d: Parent, q: Parent, c: nat, t: Parent)
  {
    && c < |q.cells| && c < |d.cells|
    && ValidIndex(q.cells[c].m - 1, |q.matls|) && ValidIndex(q.cells[c].m - 1, |d.matls|)
    && t.cells == d.cells[c := q.cells[c]]
    && t.matls == d.matls[PyIdx(q.cells[c].m - 1, |d.matls|) := q.matls[PyIdx(q.cells[c].m - 1, |q.matls|)]]
  }

  /** `tmp[i].geom.cells[c] = x[i].geom.cells[c]` and the copy of the
      material that cell names, `m - 1` taken as a Python index. */
  function CopyLayer(d: Parent, q: Parent, c: nat): (r: Result<Parent>)
    ensures r.Ok? ==> Crossed(d, q, r.value) && r.value.surfaces == d.surfaces && CellCopied(d, q, c, r.value)
    ensures r.Err? <==> !(c < |q.cells| && c < |d.cells| && ValidIndex(q.cells[c].m - 1, |q.matls|) && ValidIndex(q.cells[c].m - 1, |d.matls|))
  {
    if c >= |q.cells| then Err(IndexError(OutOfRange))
    else if c >= |d.cells| then Err(IndexError(AssignRange))
    else
      var m := q.cells[c].m - 1;
      if !ValidIndex(m, |q.matls|) then Err(IndexError(OutOfRange))
      else if !ValidIndex(m, |d.matls|) then Err(IndexError(AssignRange))
      else Ok(d.(cells := d.cells[c := q.cells[c]], matls := d.matls[PyIdx(m, |d.matls|) := q.matls[PyIdx(m, |q.matls|)]]))
  }

  /** The surfaces of the copy t made to fit the layer cell c of q: around
      the planes of a horizontal layer, whose positions are looked up in q's
      surfaces into `z_1` and `z_2` (zs before the lookup), or by copying the
      two planes of a vertical layer. */
  function FitPlanes(t: Parent, q: Parent, c: nat, zs: seq<Option<real>>): (r: Result<(Parent, seq<Option<real>>)>)
    requires |zs| == 2 && c < |q.cells|
    ensures r.Ok? ==> |r.value.1| == 2 && r.value.0 == t.(surfaces := r.value.0.surfaces)
    ensures r.Ok? ==> |r.value.0.surfaces| == |t.surfaces| && forall j :: 0 <= j < |t.surfaces| ==>
      r.value.0.surfaces[j] == t.surfaces[j].(d := r.value.0.surfaces[j].d) || (j < |q.surfaces| && r.value.0.surfaces[j] == q.surfaces[j])
    ensures r.Ok? && q.cells[c].kind == HorizCell ==>
      && r.value.1[0].Some? && r.value.1[1].Some?
      && forall j :: 0 <= j < |t.surfaces| ==> Bracketed(r.value.0.surfaces[j], q.cells[c].geom, r.value.1[0].value, r.value.1[1].value)
    ensures r.Ok? && q.cells[c].kind == HorizCell ==> r.value.1 == Looked(q.surfaces, [q.cells[c].geom, q.cells[c].geom + 1], zs)
    ensures r.Ok? && q.cells[c].kind == VertCell ==>
      forall j :: 0 <= j < |t.surfaces| ==>
        r.value.0.surfaces[j] == (if j < |q.surfaces| && (q.surfaces[j].name == q.cells[c].geom || q.surfaces[j].name == q.cells[c].geom + 1)
                                  then q.surfaces[j] else t.surfaces[j])
    ensures r.Ok? && q.cells[c].kind !in LayerKinds ==> r.value == (t, zs)
  {
    var n1 := q.cells[c].geom;
    match q.cells[c].kind
    case HorizCell =>
      var z := Looked(q.surfaces, [n1, n1 + 1], zs);
      if z[0].None? then Err(UnboundLocalError(Unbound("z_1")))
      else if z[1].None? then Err(UnboundLocalError(Unbound("z_2")))
      else Ok((t.(surfaces := ClampedPlanes(t.surfaces, n1, z[0].value, z[1].value)), z))
    case VertCell =>
      (match CopiedPlanes(t.surfaces, q.surfaces, n1)
       case Err(e) => Err(e)
       case Ok(ss) => Ok((t.(surfaces := ss), zs)))
    case _ => Ok((t, zs))
  }

  /** One iteration of `Crossover` once donor d, recipient q and the cell
      position c are drawn. */
  function CrossStep(d: Parent, q: Parent, c: nat, zs: seq<Option<real>>): (r: Result<(Parent, seq<Option<real>>)>)
    requires |zs| == 2
    ensures r.Ok? ==> |r.value.1| == 2 && Crossed(d, q, r.value.0) && CellCopied(d, q, c, r.value.0)
    ensures r.Ok? && q.cells[c].kind == HorizCell ==>
      && r.value.1 == Looked(q.surfaces, [q.cells[c].geom, q.cells[c].geom + 1], zs)
      && r.value.1[0].Some? && r.value.1[1].Some?
      && forall j :: 0 <= j < |d.surfaces| ==> Bracketed(r.value.0.surfaces[j], q.cells[c].geom, r.value.1[0].value, r.value.1[1].value)
    ensures r.Ok? && q.cells[c].kind == VertCell ==>
      forall j :: 0 <= j < |d.surfaces| ==>
        r.value.0.surfaces[j] == (if j < |q.surfaces| && (q.surfaces[j].name == q.cells[c].geom || q.surfaces[j].name == q.cells[c].geom + 1)
                                  then q.surfaces[j] else d.surfaces[j])
    ensures r.Ok? && q.cells[c].kind !in LayerKinds ==> r.value == (r.value.0.(surfaces := d.surfaces), zs)
  {
    match CopyLayer(d, q, c)
    case Err(e) => Err(e)
    case Ok(t) => FitPlanes(t, q, c, zs)
  }

  /** The iteration as the loop body performs it, once the cell is drawn. */
  method CrossOne(d: Parent, q: Parent, c: nat, zs: seq<Option<real>>) returns (r: Result<(Parent, seq<Option<real>>)>)
    requires |zs| == 2
    ensures r == CrossStep(d, q, c, zs)
  {
    var copy := CopyLayer(d, q, c);
    if copy.Err? {
      return Err(copy.error);
    }
    var t := copy.value;
    var n1 := q.cells[c].geom;
    if q.cells[c].kind == HorizCell {
      var z := FindPlanes(q.surfaces, [n1, n1 + 1], zs);
      if z[0].None? {
        return Err(UnboundLocalError(Unbound("z_1")));
      } else if z[1].None? {
        return Err(UnboundLocalError(Unbound("z_2")));
      }
      var ss := ClampPlanes(t.surfaces, n1, z[0].value, z[1].value);
      r := Ok((t.(surfaces := ss), z));
    } else if q.cells[c].kind == VertCell {
      var ss := CopyPlanes(t.surfaces, q.surfaces, n1);
      if ss.Err? {
        return Err(ss.error);
      }
      r := Ok((t.(surfaces := ss.value), zs));
    } else {
      r := Ok((t, zs));
    }
  }

  /** The index `int(random() * p)` a draw u gives. */
  function DrawnIndex(u: real, p: int): int
  {
    Trunc(u * p as real)
  }

  /** The draw of the donor is refused: `x[rand].ident == x[i].ident or rand
      in used`, each index valid. */
  predicate Refused(x: seq<Parent>, i: nat, used: seq<int>, rand: int)
  {
    ValidIndex(rand, |x|) && i < |x| && (x[PyIdx(rand, |x|)].ident == x[i].ident || rand in used)
  }

  /** `rand = int(random() * S.p)`, redrawn while it names a design with the
      recipient's identity or one already used: the first draw of `us` from
      `next` on that is not refused, and the position after it. */
  method DrawDonor(x: seq<Parent>, i: nat, p: int, used: seq<int>, us: seq<real>, next: nat) returns (r: Result<(int, nat)>)
    ensures r.Ok? ==> next < r.value.1 <= |us| && r.value.0 == DrawnIndex(us[r.value.1 - 1], p)
    ensures r.Ok? ==> forall k :: next <= k < r.value.1 - 1 ==> Refused(x, i, used, DrawnIndex(us[k], p))
    ensures r.Ok? ==> i < |x| && ValidIndex(r.value.0, |x|) && r.value.0 !in used
    ensures r.Ok? ==> x[PyIdx(r.value.0, |x|)].ident != x[i].ident
    ensures r.Err? ==> r.error == DrawsExhausted || r.error == IndexError(OutOfRange)
  {
    var k := next;
    while k < |us|
      invariant next <= k
      invariant forall j :: next <= j < k ==> j < |us| && Refused(x, i, used, DrawnIndex(us[j], p))
      decreases |us| - k
    {
      var rand := DrawnIndex(us[k], p);
      if !ValidIndex(rand, |x|) || i >= |x| {
        return Err(IndexError(OutOfRange));
      }
      if x[PyIdx(rand, |x|)].ident != x[i].ident && rand !in used {
        return Ok((rand, k + 1));
      }
      assert Refused(x, i, used, rand);
      k := k + 1;
    }
    return Err(DrawsExhausted);
  }

  /** The list `cell_ids` after n iterations: the positions of the layer
      cells of x[0], ..., x[n - 1], in that order. */
  function LayerPositions(x: seq<Parent>, n: nat): seq<nat>
    requires n <= |x|
  {
    if n == 0 then [] else LayerPositions(x, n - 1) + Positions(x[n - 1].cells, LayerKinds)
  }

  /** Each found position names a cell of one of the kinds. */
  lemma PositionAt(cells: seq<Cell>, kinds: set<CellKind>, i: nat)
    requires i < |PositionsBefore(cells, kinds, |cells|)|
    ensures PositionsBefore(cells, kinds, |cells|)[i] < |cells| && cells[PositionsBefore(cells, kinds, |cells|)[i]].kind in kinds
  {
    PositionsSpec(cells, kinds, |cells|);
  }

  /** Every position in `cell_ids` names a layer cell of one of the designs
      whose cells were collected. */
  lemma {:induction false} LayerPositionsSpec(x: seq<Parent>, n: nat, k: nat)
    requires n <= |x| && k < |LayerPositions(x, n)|
    ensures exists j :: 0 <= j < n && LayerPositions(x, n)[k] < |x[j].cells| && x[j].cells[LayerPositions(x, n)[k]].kind in LayerKinds
  {
    var init := LayerPositions(x, n - 1);
    var c := LayerPositions(x, n)[k];
    if k < |init| {
      LayerPositionsSpec(x, n - 1, k);
      var j :| 0 <= j < n - 1 && init[k] < |x[j].cells| && x[j].cells[init[k]].kind in LayerKinds;
      assert c == init[k];
      assert c < |x[j].cells| && x[j].cells[c].kind in LayerKinds;
    } else {
      var ps := Positions(x[n - 1].cells, LayerKinds);
      assert LayerPositions(x, n) == init + ps;
      PositionAt(x[n - 1].cells, LayerKinds, k - |init|);
    }
  }

  /** out[k] is what iteration k of `Crossover` made of donor used[k] and
      recipient x[k]: the cell drawn at cellsAt[k] crossed in by `CrossStep`,
      with `z_1`, `z_2` going from zsAt[k] to zsAt[k + 1]. A prefix-recursive
      form that a loop can extend one iteration at a time. */
  ghost predicate CrossedAll(x: seq<Parent>, used: seq<int>, cellsAt: seq<nat>, zsAt: seq<seq<Option<real>>>, out: seq<Parent>)
    decreases |out|, 0
  {
    && |used| == |cellsAt| == |out| <= |x| && |zsAt| == |out| + 1
    && (|out| > 0 ==> CrossedLast(x, used, cellsAt, zsAt, out))
  }

  /** The last iteration of a `CrossedAll` run drew a valid donor and a
      position that `cell_ids` held. */
  ghost predicate CrossedLast(x: seq<Parent>, used: seq<int>, cellsAt: seq<nat>, zsAt: seq<seq<Option<real>>>, out: seq<Parent>)
    requires |used| == |cellsAt| == |out| <= |x| && |zsAt| == |out| + 1 && |out| > 0
    decreases |out| - 1, 2
  {
    && ValidIndex(used[|out| - 1], |x|) && cellsAt[|out| - 1] in LayerPositions(x, |out|) && |zsAt[|out| - 1]| == 2
    && CrossedMoved(x, used, cellsAt, zsAt, out)
  }

  /** The run before the last iteration, and what that iteration made. */
  ghost predicate CrossedMoved(x: seq<Parent>, used: seq<int>, cellsAt: seq<nat>, zsAt: seq<seq<Option<real>>>, out: seq<Parent>)
    requires |used| == |cellsAt| == |out| <= |x| && |zsAt| == |out| + 1 && |out| > 0
    requires ValidIndex(used[|out| - 1], |x|) && |zsAt[|out| - 1]| == 2
    decreases |out| - 1, 1
  {
    var n := |out| - 1;
    && CrossedAll(x, used[..n], cellsAt[..n], zsAt[..n + 1], out[..n])
    && CrossStep(x[PyIdx(used[n], |x|)], x[n], cellsAt[n], zsAt[n]) == Ok((out[n], zsAt[n + 1]))
  }

  /** `CrossedAll`, read at iteration k. */
  lemma {:induction false} CrossedAt(x: seq<Parent>, used: seq<int>, cellsAt: seq<nat>, zsAt: seq<seq<Option<real>>>,
                                     out: seq<Parent>, k: nat)
    requires CrossedAll(x, used, cellsAt, zsAt, out) && k < |out|
    ensures k < |used| == |cellsAt| && k + 1 < |zsAt| && k < |x| && ValidIndex(used[k], |x|)
    ensures cellsAt[k] in LayerPositions(x, k + 1) && |zsAt[k]| == 2
    ensures CrossStep(x[PyIdx(used[k], |x|)], x[k], cellsAt[k], zsAt[k]) == Ok((out[k], zsAt[k + 1]))
    decreases |out|
  {
    var n := |out| - 1;
    assert CrossedLast(x, used, cellsAt, zsAt, out);
    assert CrossedMoved(x, used, cellsAt, zsAt, out);
    if k < n {
      CrossedAt(x, used[..n], cellsAt[..n], zsAt[..n + 1], out[..n], k);
    }
  }

  /** In a `CrossedAll` run, copy k is its donor with recipient x[k]'s cell
      at the drawn position and that cell's material crossed in, each plane
      the donor's (moved) or x[k]'s, and for a horizontal layer every plane
      of the copy bracketed by the two looked up in x[k]. */
  lemma CrossedCopies(x: seq<Parent>, used: seq<int>, cellsAt: seq<nat>, zsAt: seq<seq<Option<real>>>,
                      out: seq<Parent>, k: nat)
    requires CrossedAll(x, used, cellsAt, zsAt, out) && k < |out|
    ensures k < |used| == |cellsAt| && k + 1 < |zsAt| && k < |x| && ValidIndex(used[k], |x|)
    ensures Crossed(x[PyIdx(used[k], |x|)], x[k], out[k]) && CellCopied(x[PyIdx(used[k], |x|)], x[k], cellsAt[k], out[k])
    ensures |zsAt[k + 1]| == 2
    ensures x[k].cells[cellsAt[k]].kind == HorizCell ==>
      && zsAt[k + 1][0].Some? && zsAt[k + 1][1].Some?
      && forall j :: 0 <= j < |out[k].surfaces| ==>
           Bracketed(out[k].surfaces[j], x[k].cells[cellsAt[k]].geom, zsAt[k + 1][0].value, zsAt[k + 1][1].value)
  {
    CrossedAt(x, used, cellsAt, zsAt, out, k);
  }

  /** One more iteration extends a `CrossedAll` run. */
  lemma CrossedExtend(x: seq<Parent>, used: seq<int>, cellsAt: seq<nat>, zsAt: seq<seq<Option<real>>>, out: seq<Parent>,
                      u: int, c: nat, z2: seq<Option<real>>, t: Parent)
    requires CrossedAll(x, used, cellsAt, zsAt, out) && |out| < |x| && ValidIndex(u, |x|)
    requires c in LayerPositions(x, |out| + 1) && |zsAt[|out|]| == 2
    requires CrossStep(x[PyIdx(u, |x|)], x[|out|], c, zsAt[|out|]) == Ok((t, z2))
    ensures CrossedAll(x, used + [u], cellsAt + [c], zsAt + [z2], out + [t])
  {
    var n := |out|;
    assert (used + [u])[..n] == used && (cellsAt + [c])[..n] == cellsAt;
    assert (zsAt + [z2])[..n + 1] == zsAt && (out + [t])[..n] == out;
    assert CrossedMoved(x, used + [u], cellsAt + [c], zsAt + [z2], out + [t]);
  }

  /** Iteration |tmp| of `Crossover` once donor `rand` and the cell position
      c are drawn: the crossed copy and the new `z_1`, `z_2`, extending the
      run. */
  method CrossAppend(x: seq<Parent>, used: seq<int>, ghost cellsAt: seq<nat>, ghost zsAt: seq<seq<Option<real>>>,
                     tmp: seq<Parent>, rand: int, c: nat, zs: seq<Option<real>>)
    returns (r: Result<(Parent, seq<Option<real>>)>)
    requires CrossedAll(x, used, cellsAt, zsAt, tmp) && |tmp| < |x| && ValidIndex(rand, |x|)
    requires c in LayerPositions(x, |tmp| + 1) && zsAt[|tmp|] == zs && |zs| == 2
    ensures r.Ok? ==> |r.value.1| == 2 && Crossed(x[PyIdx(rand, |x|)], x[|tmp|], r.value.0)
    ensures r.Ok? ==> CrossedAll(x, used + [rand], cellsAt + [c], zsAt + [r.value.1], tmp + [r.value.0])
  {
    r := CrossOne(x[PyIdx(rand, |x|)], x[|tmp|], c, zs);
    if r.Ok? {
      CrossedExtend(x, used, cellsAt, zsAt, tmp, rand, c, r.value.1, r.value.0);
    }
  }

  /** `Crossover`: for each of the first int(fe * p) designs x[i], a copy of
      a distinct donor with a different identity, into which one layer cell
      of x[i] (drawn from the list `cell_ids`, which is extended on every
      iteration and never cleared) is copied with its material and planes.
      All draws come from one stream `us`, in the order the source makes
      them. The ghost results name, for each iteration k, the cell position
      drawn and the values of `z_1`, `z_2` before it (they outlive the
      iteration, as Python locals do); `CrossedAt` reads them out. */
  method Crossover(x: seq<Parent>, fe: real, p: int, us: seq<real>)
    returns (r: Result<seq<Parent>>, used: seq<int>, ghost cellsAt: seq<nat>, ghost zsAt: seq<seq<Option<real>>>)
    ensures r.Ok? ==> |r.value| == |used| == CellSearch.Draws(fe, p) <= |x| && CellSearch.Distinct(used)
    ensures r.Ok? ==> forall k :: 0 <= k < |used| ==> ValidIndex(used[k], |x|)
    ensures r.Ok? ==> forall k :: 0 <= k < |used| ==> x[PyIdx(used[k], |x|)].ident != x[k].ident
    ensures r.Ok? ==> CrossedAll(x, used, cellsAt, zsAt, r.value) && zsAt[0] == [None, None]
  {
    used := [];
    cellsAt := [];
    var tmp: seq<Parent> := [];
    var ids: seq<nat> := [];
    var zs: seq<Option<real>> := [None, None];
    zsAt := [zs];
    var next := 0;
    var count := CellSearch.Draws(fe, p);
    for i := 0 to count
      invariant |tmp| == |used| == i <= |x| && CellSearch.Distinct(used) && |zs| == 2
      invariant CrossedAll(x, used, cellsAt, zsAt, tmp) && zsAt[0] == [None, None] && zsAt[i] == zs
      invariant ids == LayerPositions(x, i)
      invariant forall k :: 0 <= k < i ==> ValidIndex(used[k], |x|)
      invariant forall k :: 0 <= k < i ==> x[PyIdx(used[k], |x|)].ident != x[k].ident
    {
      var pick := DrawDonor(x, i, p, used, us, next);
      if pick.Err? {
        return Err(pick.error), used, cellsAt, zsAt;
      }
      var rand := pick.value.0;
      next := pick.value.1;
      ids := CollectPositions(x[i].cells, LayerKinds, ids);
      if next >= |us| {
        return Err(DrawsExhausted), used + [rand], cellsAt, zsAt;
      }
      var pos := DrawnIndex(us[next], |ids|);
      next := next + 1;
      if !ValidIndex(pos, |ids|) {
        return Err(IndexError(OutOfRange)), used + [rand], cellsAt, zsAt;
      }
      var c := ids[PyIdx(pos, |ids|)];
      var one := CrossAppend(x, used, cellsAt, zsAt, tmp, rand, c, zs);
      if one.Err? {
        return Err(one.error), used + [rand], cellsAt, zsAt;
      }
      used := used + [rand];
      tmp, zs := tmp + [one.value.0], one.value.1;
      cellsAt, zsAt := cellsAt + [c], zsAt + [zs];
    }
    r := Ok(tmp);
  }

  // ---------------------------------------------------------------------------
  // Three_opt

  /** The orders of the five cells after the starting layer: operator A
      (p <= 0.5) and operator B (p <= 1.0), as offsets from `rand`. */
  const WindowA: seq<int> := [3, 4, 1, 2, 5]
  const WindowB: seq<int> := [2, 1, 4, 3, 5]

  /** The statements `new_cells.append(cells[src]); surfs[pos + 1].d =
      surfs[pos].d + dels[src]` of one branch, as (pos, src) pairs in order:
      the layers 0 to rand in place, the window of five reordered by w, and
      the layers from rand + 6 to the last in place. */
  function Steps(rand: int, n: int, w: seq<int>): (r: seq<(int, int)>)
    requires |w| == 5
  {
    seq(if rand + 1 > 0 then rand + 1 else 0, a => (a, a))
    + seq(5, k requires 0 <= k < 5 => (rand + 1 + k, rand + w[k]))
    + seq(if n - rand - 6 > 0 then n - rand - 6 else 0, k => (rand + 6 + k, rand + 6 + k))
  }

  /** The layer whose cell and thickness land at position k. */
  function Src(rand: int, w: seq<int>, k: int): int
    requires |w| == 5
  {
    if rand + 1 <= k <= rand + 5 then rand + w[k - rand - 1] else k
  }

  /** One statement pair: the cell src appended, and the plane above
      position pos put at the plane below it plus the thickness of layer src,
      each index a Python index. */
  function Step(cells: seq<Cell>, dels: seq<real>, acc: (seq<Cell>, seq<Surface>), st: (int, int)): (r: Result<(seq<Cell>, seq<Surface>)>)
    ensures r.Ok? ==> |r.value.1| == |acc.1|
  {
    var pos, src := st.0, st.1;
    var pl := acc.1;
    if !ValidIndex(src, |cells|) then Err(IndexError(OutOfRange))
    else if !ValidIndex(pos, |pl|) || !ValidIndex(src, |dels|) || !ValidIndex(pos + 1, |pl|) then Err(IndexError(OutOfRange))
    else
      var top := PyIdx(pos + 1, |pl|);
      Ok((acc.0 + [cells[PyIdx(src, |cells|)]], pl[top := pl[top].(d := pl[PyIdx(pos, |pl|)].d + dels[PyIdx(src, |dels|)])]))
  }

  /** The steps performed in order from acc. */
  function Replayed(cells: seq<Cell>, dels: seq<real>, acc: (seq<Cell>, seq<Surface>), steps: seq<(int, int)>): (r: Result<(seq<Cell>, seq<Surface>)>)
    ensures r.Ok? ==> |r.value.1| == |acc.1|
    decreases |steps|
  {
    if steps == [] then Ok(acc)
    else
      match Step(cells, dels, acc, steps[0])
      case Err(e) => Err(e)
      case Ok(next) => Replayed(cells, dels, next, steps[1..])
  }

  /** The statements of the chosen branch, one after the other. */
  method Reorder(cells: seq<Cell>, dels: seq<real>, pl: seq<Surface>, steps: seq<(int, int)>) returns (r: Result<(seq<Cell>, seq<Surface>)>)
    ensures r == Replayed(cells, dels, ([], pl), steps)
  {
    var nc: seq<Cell> := [];
    var planes := pl;
    for k := 0 to |steps|
      invariant Replayed(cells, dels, (nc, planes), steps[k..]) == Replayed(cells, dels, ([], pl), steps)
    {
      assert steps[k..][1..] == steps[k + 1..];
      var pos, src := steps[k].0, steps[k].1;
      if !ValidIndex(src, |cells|) {
        return Err(IndexError(OutOfRange));
      }
      if !ValidIndex(pos, |planes|) || !ValidIndex(src, |dels|) || !ValidIndex(pos + 1, |planes|) {
        return Err(IndexError(OutOfRange));
      }
      var top := PyIdx(pos + 1, |planes|);
      nc, planes := nc + [cells[PyIdx(src, |cells|)]],
        planes[top := planes[top].(d := planes[PyIdx(pos, |planes|)].d + dels[PyIdx(src, |dels|)])];
    }
    assert steps[|steps|..] == [];
    r := Ok((nc, planes));
  }

  /** The thicknesses `dels[j] = surfs[j + 1].d - surfs[j].d`. */
  function Thicknesses(pl: seq<Surface>): (r: seq<real>)
  {
    seq(if |pl| > 0 then |pl| - 1 else 0, j requires 0 <= j < |pl| - 1 => pl[j + 1].d - pl[j].d)
  }

  /** In the usual case, rand in [0, n - 6], step k puts layer Src(k) at
      position k. */
  lemma StepsInOrder(rand: int, n: int, w: seq<int>)
    requires |w| == 5 && 0 <= rand <= n - 6
    ensures var st := Steps(rand, n, w);
      |st| == n && forall k :: 0 <= k < n ==> st[k] == (k, Src(rand, w, k))
  {
  }

  /** After the first k steps of the usual case: the cells of layers Src(0),
      ..., Src(k - 1) in order, and the planes 1 to k rebuilt from the
      plane below each and the thickness of the layer now there, the planes
      above untouched. */
  predicate Rebuilt(cells: seq<Cell>, dels: seq<real>, pl: seq<Surface>, rand: int, w: seq<int>, k: nat, acc: (seq<Cell>, seq<Surface>))
    requires |w| == 5
  {
    && |acc.0| == k && |acc.1| == |pl| && k < |pl|
    && (forall j :: 0 <= j < k ==> 0 <= Src(rand, w, j) < |cells| && acc.0[j] == cells[Src(rand, w, j)])
    && (forall j :: 0 <= j < k ==> 0 <= Src(rand, w, j) < |dels| && acc.1[j + 1] == pl[j + 1].(d := acc.1[j].d + dels[Src(rand, w, j)]))
    && acc.1[0] == pl[0]
    && (forall t :: k < t < |pl| ==> acc.1[t] == pl[t])
  }

  /** The layers a window reorders are the five after rand, each once. */
  lemma WindowsPermute(w: seq<int>)
    requires w == WindowA || w == WindowB
    ensures forall k :: 0 <= k < 5 ==> 1 <= w[k] <= 5
    ensures forall a, b :: 0 <= a < b < 5 ==> w[a] != w[b]
  {
  }

  /** Src maps the positions 0 to n - 1 one to one onto themselves. */
  lemma SrcPermutes(rand: int, n: int, w: seq<int>)
    requires w == WindowA || w == WindowB
    requires 0 <= rand <= n - 6
    ensures forall k :: 0 <= k < n ==> 0 <= Src(rand, w, k) < n
    ensures forall a, b :: 0 <= a < b < n ==> Src(rand, w, a) != Src(rand, w, b)
  {
    WindowsPermute(w);
  }

  /** Performing the remaining steps of the usual case from any state
      reached after k of them reaches the state after all n. */
  lemma {:induction false} ReplayRebuilds(cells: seq<Cell>, dels: seq<real>, pl: seq<Surface>, rand: int, w: seq<int>,
                                          k: nat, acc: (seq<Cell>, seq<Surface>))
    requires w == WindowA || w == WindowB
    requires |cells| == |dels| == |pl| - 1 && 0 <= rand <= |cells| - 6 && k <= |cells|
    requires Rebuilt(cells, dels, pl, rand, w, k, acc)
    ensures var r := Replayed(cells, dels, acc, Steps(rand, |cells|, w)[k..]);
      r.Ok? && Rebuilt(cells, dels, pl, rand, w, |cells|, r.value)
    decreases |cells| - k
  {
    var n := |cells|;
    var st := Steps(rand, n, w);
    StepsInOrder(rand, n, w);
    SrcPermutes(rand, n, w);
    if k < n {
      assert st[k..][0] == (k, Src(rand, w, k));
      assert st[k..][1..] == st[k + 1..];
      var src := Src(rand, w, k);
      var next := (acc.0 + [cells[src]], acc.1[k + 1 := acc.1[k + 1].(d := acc.1[k].d + dels[src])]);
      assert Step(cells, dels, acc, (k, src)) == Ok(next);
      assert Rebuilt(cells, dels, pl, rand, w, k + 1, next);
      ReplayRebuilds(cells, dels, pl, rand, w, k + 1, next);
    } else {
      assert st[k..] == [];
    }
  }

  /** The planes q rebuilt from pl by the usual case: each plane above
      position j put at the plane below it plus the thickness of layer
      Src(j), measured on pl. */
  predicate PlanesRebuilt(pl: seq<Surface>, q: seq<Surface>, rand: int, w: seq<int>)
    requires |w| == 5
  {
    var dels := Thicknesses(pl);
    && |q| == |pl| && |pl| >= 1 && q[0] == pl[0]
    && forall j :: 0 <= j < |pl| - 1 ==> 0 <= Src(rand, w, j) < |dels| && q[j + 1] == pl[j + 1].(d := q[j].d + dels[Src(rand, w, j)])
  }

  /** With the thicknesses taken from the planes themselves, the reorder
      leaves every plane up to the starting layer's top and every plane from
      the window's top on where it was: only the four planes inside the
      window move. */
  lemma PlaneKept(pl: seq<Surface>, q: seq<Surface>, rand: int, w: seq<int>, t: nat)
    requires w == WindowA || w == WindowB
    requires 0 <= rand <= |pl| - 7 && PlanesRebuilt(pl, q, rand, w)
    requires t <= rand + 1 || rand + 6 <= t < |pl|
    ensures q[t] == pl[t]
  {
    if t <= rand + 1 {
      PrefixKept(pl, q, rand, w, t);
    } else {
      SuffixKept(pl, q, rand, w, t);
    }
  }

  lemma {:induction false} PrefixKept(pl: seq<Surface>, q: seq<Surface>, rand: int, w: seq<int>, t: nat)
    requires w == WindowA || w == WindowB
    requires 0 <= rand <= |pl| - 7 && PlanesRebuilt(pl, q, rand, w)
    requires t <= rand + 1
    ensures q[t] == pl[t]
    decreases t
  {
    if t > 0 {
      PrefixKept(pl, q, rand, w, t - 1);
      InPlace(pl, q, rand, w, t - 1);
    }
  }

  lemma {:induction false} SuffixKept(pl: seq<Surface>, q: seq<Surface>, rand: int, w: seq<int>, t: nat)
    requires w == WindowA || w == WindowB
    requires 0 <= rand <= |pl| - 7 && PlanesRebuilt(pl, q, rand, w)
    requires rand + 6 <= t < |pl|
    ensures q[t] == pl[t]
    decreases t
  {
    if t > rand + 6 {
      SuffixKept(pl, q, rand, w, t - 1);
      InPlace(pl, q, rand, w, t - 1);
    } else {
      PrefixKept(pl, q, rand, w, rand + 1);
      WindowTop(pl, q, rand, w);
    }
  }

  /** A layer outside the window rebuilt on a plane in place leaves the
      plane above it in place. */
  lemma InPlace(pl: seq<Surface>, q: seq<Surface>, rand: int, w: seq<int>, j: nat)
    requires w == WindowA || w == WindowB
    requires 0 <= rand <= |pl| - 7 && PlanesRebuilt(pl, q, rand, w)
    requires j < |pl| - 1 && (j <= rand || j >= rand + 6) && q[j] == pl[j]
    ensures q[j + 1] == pl[j + 1]
  {
    assert Src(rand, w, j) == j;
  }

  /** The window's five thicknesses add up to the same total in either
      order, so the plane at its top stays where it was. */
  lemma WindowTop(pl: seq<Surface>, q: seq<Surface>, rand: int, w: seq<int>)
    requires w == WindowA || w == WindowB
    requires 0 <= rand <= |pl| - 7 && PlanesRebuilt(pl, q, rand, w)
    requires q[rand + 1] == pl[rand + 1]
    ensures q[rand + 6] == pl[rand + 6]
  {
    var dels := Thicknesses(pl);
    var b := rand + 1;
    var e0, e1, e2, e3, e4 := dels[Src(rand, w, b)], dels[Src(rand, w, b + 1)], dels[Src(rand, w, b + 2)],
                              dels[Src(rand, w, b + 3)], dels[Src(rand, w, b + 4)];
    assert q[b + 5].d == q[b].d + e0 + e1 + e2 + e3 + e4;
    if w == WindowA {
      assert e0 + e1 + e2 + e3 + e4 == dels[b + 2] + dels[b + 3] + dels[b] + dels[b + 1] + dels[b + 4];
    } else {
      assert e0 + e1 + e2 + e3 + e4 == dels[b + 1] + dels[b] + dels[b + 3] + dels[b + 2] + dels[b + 4];
    }
    assert dels[b] + dels[b + 1] + dels[b + 2] + dels[b + 3] + dels[b + 4] == pl[b + 5].d - pl[b].d;
  }

  /** `rand = int(round(random() * (len(cells) - 6)))` for a draw u in
      [0, 1) and at least six layers lies in [0, n - 6]. */
  lemma RoundOfDraw(u: real, n: nat)
    requires 0.0 <= u < 1.0 && n >= 6
    ensures 0 <= StartLayer(u, n) <= n - 6
  {
    var m := n as real - 6.0;
    var v := u * m;
    assert 0.0 <= v by {
      MulNonNegative(u, m);
    }
    assert v <= m by {
      assert m - v == (1.0 - u) * m;
      MulNonNegative(1.0 - u, m);
    }
    var r := Round(v);
    assert r as real - 0.5 <= v < r as real + 0.5;
  }

  /** The horizontal cells before position j, copied in order (the list
      `cells` the operator reorders). */
  function LayersBefore(cells: seq<Cell>, j: nat): seq<Cell>
    requires j <= |cells|
  {
    if j == 0 then []
    else LayersBefore(cells, j - 1) + (if cells[j - 1].kind in HorizKinds then [cells[j - 1]] else [])
  }

  /** The k-th copied cell is the cell at the k-th horizontal position. */
  lemma {:induction false} LayersAt(cells: seq<Cell>, j: nat)
    requires j <= |cells|
    ensures var ids, hc := PositionsBefore(cells, HorizKinds, j), LayersBefore(cells, j);
      && |hc| == |ids|
      && forall k :: 0 <= k < |hc| ==> ids[k] < |cells| && hc[k] == cells[ids[k]]
  {
    PositionsSpec(cells, HorizKinds, j);
    if j > 0 {
      LayersAt(cells, j - 1);
    }
  }

  /** The surfaces before position j whose comment starts with "horiz",
      copied in order (the list `surfs`). */
  function SurfsBefore(ss: seq<Surface>, j: nat): seq<Surface>
    requires j <= |ss|
  {
    if j == 0 then []
    else SurfsBefore(ss, j - 1) + (if ss[j - 1].role.HorizPrefix() then [ss[j - 1]] else [])
  }

  /** The k-th copied surface is the surface at the k-th "horiz" position. */
  lemma {:induction false} SurfsAt(ss: seq<Surface>, j: nat)
    requires j <= |ss|
    ensures var sids, pl := PlanesBefore(ss, j), SurfsBefore(ss, j);
      && |pl| == |sids|
      && forall k :: 0 <= k < |pl| ==> sids[k] < |ss| && pl[k] == ss[sids[k]]
  {
    PlanesSpec(ss, j);
    if j > 0 {
      SurfsAt(ss, j - 1);
    }
  }

  /** The loop that copies the horizontal cells. */
  method CollectLayers(cells: seq<Cell>) returns (hc: seq<Cell>)
    ensures hc == LayersBefore(cells, |cells|)
  {
    hc := [];
    for j := 0 to |cells|
      invariant hc == LayersBefore(cells, j)
    {
      if cells[j].kind in HorizKinds {
        hc := hc + [cells[j]];
      }
    }
  }

  /** The loop that copies the "horiz" surfaces. */
  method CollectSurfs(ss: seq<Surface>) returns (pl: seq<Surface>)
    ensures pl == SurfsBefore(ss, |ss|)
  {
    pl := [];
    for j := 0 to |ss|
      invariant pl == SurfsBefore(ss, j)
    {
      if ss[j].role.HorizPrefix() {
        pl := pl + [ss[j]];
      }
    }
  }

  /** The loop `for j in range(1, len(surfs)): dels.append(surfs[j].d -
      surfs[j - 1].d)`. */
  method MeasureThicknesses(pl: seq<Surface>) returns (dels: seq<real>)
    ensures dels == Thicknesses(pl)
  {
    dels := [];
    var j := 1;
    while j < |pl|
      invariant 1 <= j <= (if |pl| == 0 then 1 else |pl|)
      invariant dels == Thicknesses(pl)[..j - 1]
    {
      dels := dels + [pl[j].d - pl[j - 1].d];
      j := j + 1;
    }
    assert dels == Thicknesses(pl);
  }

  /** Cell c after the write-back of nc: the k-th horizontal cell takes the
      material and density of nc[k], while nc lasts; any other cell is kept. */
  function PaintedCell(cells: seq<Cell>, nc: seq<Cell>, c: nat): Cell
    requires c < |cells|
  {
    var k := |PositionsBefore(cells, HorizKinds, c)|;
    if cells[c].kind in HorizKinds && k < |nc| then cells[c].(m := nc[k].m, d := nc[k].d) else cells[c]
  }

  /** The loop that copies `new_cells` back into the geometry, dropping the
      head of the list at each horizontal cell: it fails when the list runs
      out first (a list left over is only logged). */
  function WrittenLayers(cells: seq<Cell>, nc: seq<Cell>): (r: Result<seq<Cell>>)
  {
    if |nc| < |Positions(cells, HorizKinds)| then Err(IndexError(OutOfRange))
    else Ok(Painted(cells, nc))
  }

  function Painted(cells: seq<Cell>, nc: seq<Cell>): seq<Cell>
  {
    seq(|cells|, c requires 0 <= c < |cells| => PaintedCell(cells, nc, c))
  }

  method WriteLayers(cells: seq<Cell>, nc: seq<Cell>) returns (r: Result<seq<Cell>>)
    ensures r == WrittenLayers(cells, nc)
  {
    var out := cells;
    var rest := nc;
    for j := 0 to |cells|
      invariant |out| == |cells| && |PositionsBefore(cells, HorizKinds, j)| <= |nc|
      invariant rest == nc[|PositionsBefore(cells, HorizKinds, j)|..]
      invariant forall c :: 0 <= c < j ==> out[c] == PaintedCell(cells, nc, c)
      invariant forall c :: j <= c < |cells| ==> out[c] == cells[c]
    {
      if out[j].kind in HorizKinds {
        if rest == [] {
          PositionsGrow(cells, HorizKinds, j + 1, |cells|);
          return Err(IndexError(OutOfRange));
        }
        out := out[j := out[j].(m := rest[0].m, d := rest[0].d)];
        rest := rest[1..];
      }
    }
    assert out == Painted(cells, nc);
    r := Ok(out);
  }

  /** Surface t after the write-back of pl: the k-th "horiz" surface is
      replaced by pl[k], while pl lasts; any other surface is kept. */
  function ReplacedPlane(ss: seq<Surface>, pl: seq<Surface>, t: nat): Surface
    requires t < |ss|
  {
    var k := |PlanesBefore(ss, t)|;
    if ss[t].role.HorizPrefix() && k < |pl| then pl[k] else ss[t]
  }

  /** The loop that copies `surfs` back into the geometry, as WrittenLayers. */
  function WrittenPlanes(ss: seq<Surface>, pl: seq<Surface>): (r: Result<seq<Surface>>)
  {
    if |pl| < |HorizPlanes(ss)| then Err(IndexError(OutOfRange))
    else Ok(Replaced(ss, pl))
  }

  function Replaced(ss: seq<Surface>, pl: seq<Surface>): seq<Surface>
  {
    seq(|ss|, t requires 0 <= t < |ss| => ReplacedPlane(ss, pl, t))
  }

  method WritePlanes(ss: seq<Surface>, pl: seq<Surface>) returns (r: Result<seq<Surface>>)
    ensures r == WrittenPlanes(ss, pl)
  {
    var out := ss;
    var rest := pl;
    for j := 0 to |ss|
      invariant |out| == |ss| && |PlanesBefore(ss, j)| <= |pl|
      invariant rest == pl[|PlanesBefore(ss, j)|..]
      invariant forall t :: 0 <= t < j ==> out[t] == ReplacedPlane(ss, pl, t)
      invariant forall t :: j <= t < |ss| ==> out[t] == ss[t]
    {
      if out[j].role.HorizPrefix() {
        if rest == [] {
          PlanesGrow(ss, j + 1, |ss|);
          return Err(IndexError(OutOfRange));
        }
        out := out[j := rest[0]];
        rest := rest[1..];
      }
    }
    assert out == Replaced(ss, pl);
    r := Ok(out);
  }

  /** The starting layer `int(round(random() * (len(cells) - 6)))` a draw u
      gives for n horizontal cells. */
  function StartLayer(u: real, n: nat): int
  {
    Round(u * (n as real - 6.0))
  }

  /** The reorder of the chosen branch: operator A for p <= 0.5, operator B
      for p <= 1.0, and no change otherwise (the warning branch, where
      `new_cells` stays empty). */
  function ThreeOptMoved(hc: seq<Cell>, pl: seq<Surface>, rand: int, u2: real): (r: Result<(seq<Cell>, seq<Surface>)>)
    ensures r.Ok? ==> |r.value.1| == |pl|
  {
    var dels := Thicknesses(pl);
    if u2 <= 0.5 then Replayed(hc, dels, ([], pl), Steps(rand, |hc|, WindowA))
    else if u2 <= 1.0 then Replayed(hc, dels, ([], pl), Steps(rand, |hc|, WindowB))
    else Ok(([], pl))
  }

  /** One iteration of `Three_opt` on the copy of design q, with the draws
      u1 (the starting layer) and u2 (the operator). */
  function ThreeOptStep(q: Parent, u1: real, u2: real): (r: Result<Parent>)
    ensures r.Ok? ==> r.value.(cells := q.cells, surfaces := q.surfaces) == q
    ensures r.Ok? ==> |r.value.cells| == |q.cells| && |r.value.surfaces| == |q.surfaces|
  {
    var hc := LayersBefore(q.cells, |q.cells|);
    var pl := SurfsBefore(q.surfaces, |q.surfaces|);
    match ThreeOptMoved(hc, pl, StartLayer(u1, |hc|), u2)
    case Err(e) => Err(e)
    case Ok(m) => ThreeOptWrite(q, m)
  }

  /** The reordered cells and planes m copied back into design q. */
  function ThreeOptWrite(q: Parent, m: (seq<Cell>, seq<Surface>)): (r: Result<Parent>)
    ensures r.Ok? ==> r.value.(cells := q.cells, surfaces := q.surfaces) == q
    ensures r.Ok? ==> |r.value.cells| == |q.cells| && |r.value.surfaces| == |q.surfaces|
  {
    match WrittenLayers(q.cells, m.0)
    case Err(e) => Err(e)
    case Ok(cells) =>
      match WrittenPlanes(q.surfaces, m.1)
      case Err(e) => Err(e)
      case Ok(ss) => Ok(q.(cells := cells, surfaces := ss))
  }

  /** The iteration as the loop body performs it. */
  method ThreeOptOne(q: Parent, u1: real, u2: real) returns (r: Result<Parent>)
    ensures r == ThreeOptStep(q, u1, u2)
  {
    var hc := CollectLayers(q.cells);
    var pl := CollectSurfs(q.surfaces);
    var dels := MeasureThicknesses(pl);
    var rand := StartLayer(u1, |hc|);
    var moved: Result<(seq<Cell>, seq<Surface>)>;
    if u2 <= 0.5 {
      moved := Reorder(hc, dels, pl, Steps(rand, |hc|, WindowA));
    } else if u2 <= 1.0 {
      moved := Reorder(hc, dels, pl, Steps(rand, |hc|, WindowB));
    } else {
      moved := Ok(([], pl));
    }
    assert moved == ThreeOptMoved(hc, pl, rand, u2);
    if moved.Err? {
      return Err(moved.error);
    }
    assert ThreeOptStep(q, u1, u2) == ThreeOptWrite(q, moved.value);
    var cells := WriteLayers(q.cells, moved.value.0);
    if cells.Err? {
      return Err(cells.error);
    }
    var ss := WritePlanes(q.surfaces, moved.value.1);
    if ss.Err? {
      return Err(ss.error);
    }
    r := Ok(q.(cells := cells.value, surfaces := ss.value));
  }

  /** The first k iterations of `Three_opt`, each drawing two numbers. */
  function ThreeOptRun(x: seq<Parent>, us: seq<real>, k: nat): (r: Result<seq<Parent>>)
    ensures r.Ok? ==> |r.value| == k <= |x| && 2 * k <= |us|
    ensures r.Ok? ==> forall i :: 0 <= i < k ==> r.value[i].ident == x[i].ident && |r.value[i].cells| == |x[i].cells|
  {
    if k == 0 then Ok([])
    else
      match ThreeOptRun(x, us, k - 1)
      case Err(e) => Err(e)
      case Ok(run) =>
        if k - 1 >= |x| then Err(IndexError(OutOfRange))
        else if 2 * k - 1 >= |us| then Err(DrawsExhausted)
        else
          match ThreeOptStep(x[k - 1], us[2 * k - 2], us[2 * k - 1])
          case Err(e) => Err(e)
          case Ok(one) => Ok(run + [one])
  }

  /** Once an iteration fails, the run has failed with the same error. */
  lemma {:induction false} ThreeOptRunStops(x: seq<Parent>, us: seq<real>, k: nat, k': nat)
    requires k <= k' && ThreeOptRun(x, us, k).Err?
    ensures ThreeOptRun(x, us, k') == ThreeOptRun(x, us, k)
    decreases k' - k
  {
    if k < k' {
      ThreeOptRunStops(x, us, k + 1, k');
    }
  }

  /** A successful iteration extends a successful run by its copy. */
  lemma ThreeOptRunNext(x: seq<Parent>, us: seq<real>, i: nat, tmp: seq<Parent>, one: Parent)
    requires ThreeOptRun(x, us, i) == Ok(tmp) && i < |x| && 2 * i + 1 < |us|
    requires ThreeOptStep(x[i], us[2 * i], us[2 * i + 1]) == Ok(one)
    ensures ThreeOptRun(x, us, i + 1) == Ok(tmp + [one])
  {
    assert (i + 1) - 1 == i && 2 * (i + 1) - 2 == 2 * i && 2 * (i + 1) - 1 == 2 * i + 1;
  }

  /** A failed iteration fails the run with its error. */
  lemma ThreeOptRunFails(x: seq<Parent>, us: seq<real>, i: nat, tmp: seq<Parent>, e: Error)
    requires ThreeOptRun(x, us, i) == Ok(tmp) && i < |x| && 2 * i + 1 < |us|
    requires ThreeOptStep(x[i], us[2 * i], us[2 * i + 1]) == Err(e)
    ensures ThreeOptRun(x, us, i + 1) == Err(e)
  {
    assert (i + 1) - 1 == i && 2 * (i + 1) - 2 == 2 * i && 2 * (i + 1) - 1 == 2 * i + 1;
  }

  /** `Three_opt`: for each of the first int(p) designs, a copy whose
      horizontal layers are reordered in a window of five. */
  method ThreeOpt(x: seq<Parent>, p: int, us: seq<real>) returns (r: Result<seq<Parent>>)
    ensures r == ThreeOptRun(x, us, if p > 0 then p else 0)
  {
    var tmp: seq<Parent> := [];
    var count := if p > 0 then p else 0;
    for i := 0 to count
      invariant ThreeOptRun(x, us, i) == Ok(tmp)
    {
      var next := ThreeOptNext(x, us, i, tmp);
      if next.Err? {
        ThreeOptRunStops(x, us, i + 1, count);
        return next;
      }
      tmp := next.value;
    }
    r := Ok(tmp);
  }

  /** Iteration i of `Three_opt`'s loop after the copies tmp. */
  method ThreeOptNext(x: seq<Parent>, us: seq<real>, i: nat, tmp: seq<Parent>) returns (r: Result<seq<Parent>>)
    requires ThreeOptRun(x, us, i) == Ok(tmp)
    ensures r == ThreeOptRun(x, us, i + 1)
  {
    if i >= |x| || 2 * i + 1 >= |us| {
      return if i >= |x| then Err(IndexError(OutOfRange)) else Err(DrawsExhausted);
    }
    var one := ThreeOptOne(x[i], us[2 * i], us[2 * i + 1]);
    if one.Err? {
      ThreeOptRunFails(x, us, i, tmp, one.error);
      return Err(one.error);
    }
    ThreeOptRunNext(x, us, i, tmp, one.value);
    r := Ok(tmp + [one.value]);
  }

  /** The window of the operator a draw p <= 1.0 chooses. */
  function Window(p: real): seq<int>
  {
    if p <= 0.5 then WindowA else WindowB
  }

  /** The k-th horizontal position has k horizontal cells before it. */
  lemma RankOfPosition(cells: seq<Cell>, kinds: set<CellKind>, k: nat)
    requires k < |PositionsBefore(cells, kinds, |cells|)|
    ensures var ids := PositionsBefore(cells, kinds, |cells|);
      ids[k] < |cells| && |PositionsBefore(cells, kinds, ids[k])| == k
  {
    PositionsSpec(cells, kinds, |cells|);
    var ids := PositionsBefore(cells, kinds, |cells|);
    PositionsFound(cells, kinds, |cells|, ids[k]);
    var k2 := |PositionsBefore(cells, kinds, ids[k])|;
    assert ids[k2] == ids[k];
    if k2 < k {
      assert false;
    } else if k2 > k {
      assert false;
    }
  }

  /** The k-th "horiz" surface has k such surfaces before it. */
  lemma RankOfPlane(ss: seq<Surface>, k: nat)
    requires k < |PlanesBefore(ss, |ss|)|
    ensures var sids := PlanesBefore(ss, |ss|);
      sids[k] < |ss| && |PlanesBefore(ss, sids[k])| == k
  {
    PlanesSpec(ss, |ss|);
    var sids := PlanesBefore(ss, |ss|);
    var k2 := |PlanesBefore(ss, sids[k])|;
    assert sids[k2] == sids[k];
    if k2 < k {
      assert false;
    } else if k2 > k {
      assert false;
    }
  }

  /** With at least six layers, one plane above each, and rand in range,
      the chosen branch rebuilds every layer and plane. */
  lemma MovedNormal(hc: seq<Cell>, pl: seq<Surface>, rand: int, u2: real)
    requires |hc| >= 6 && |pl| == |hc| + 1 && 0 <= rand <= |hc| - 6 && u2 <= 1.0
    ensures var m := ThreeOptMoved(hc, pl, rand, u2);
      m.Ok? && Rebuilt(hc, Thicknesses(pl), pl, rand, Window(u2), |hc|, m.value)
  {
    var w := Window(u2);
    var steps := Steps(rand, |hc|, w);
    assert steps[0..] == steps;
    assert Rebuilt(hc, Thicknesses(pl), pl, rand, w, 0, ([], pl));
    ReplayRebuilds(hc, Thicknesses(pl), pl, rand, w, 0, ([], pl));
  }

  /** In the usual case the iteration succeeds, and its result is the
      reordered cells and planes written back over the design. */
  lemma ThreeOptWrites(q: Parent, u1: real, u2: real)
    requires |PositionsBefore(q.cells, HorizKinds, |q.cells|)| >= 6
    requires |PlanesBefore(q.surfaces, |q.surfaces|)| == |PositionsBefore(q.cells, HorizKinds, |q.cells|)| + 1
    requires 0.0 <= u1 < 1.0 && 0.0 <= u2 < 1.0
    ensures var hc, pl := LayersBefore(q.cells, |q.cells|), SurfsBefore(q.surfaces, |q.surfaces|);
      var rand := StartLayer(u1, |hc|);
      var m := ThreeOptMoved(hc, pl, rand, u2);
      && 0 <= rand <= |hc| - 6
      && m.Ok? && Rebuilt(hc, Thicknesses(pl), pl, rand, Window(u2), |hc|, m.value)
      && ThreeOptStep(q, u1, u2) == Ok(q.(cells := Painted(q.cells, m.value.0), surfaces := Replaced(q.surfaces, m.value.1)))
  {
    var hc, pl := LayersBefore(q.cells, |q.cells|), SurfsBefore(q.surfaces, |q.surfaces|);
    LayersAt(q.cells, |q.cells|);
    SurfsAt(q.surfaces, |q.surfaces|);
    assert |hc| >= 6 && |pl| == |hc| + 1;
    var rand := StartLayer(u1, |hc|);
    RoundOfDraw(u1, |hc|);
    MovedNormal(hc, pl, rand, u2);
  }

  /** In the usual case (at least six horizontal cells, a "horiz" plane
      below the first and one above each, draws in [0, 1)) the iteration
      succeeds and gives the k-th horizontal cell the material and density
      of the horizontal cell Src(k), a permutation of the window of five
      after the starting layer, while every other cell and field keeps its
      value. */
  lemma ThreeOptReordersLayers(q: Parent, u1: real, u2: real)
    requires |PositionsBefore(q.cells, HorizKinds, |q.cells|)| >= 6
    requires |PlanesBefore(q.surfaces, |q.surfaces|)| == |PositionsBefore(q.cells, HorizKinds, |q.cells|)| + 1
    requires 0.0 <= u1 < 1.0 && 0.0 <= u2 < 1.0
    ensures var ids := PositionsBefore(q.cells, HorizKinds, |q.cells|);
      var rand, w := StartLayer(u1, |ids|), Window(u2);
      var r := ThreeOptStep(q, u1, u2);
      && r.Ok? && r.value.(cells := q.cells, surfaces := q.surfaces) == q && |r.value.cells| == |q.cells|
      && (forall c :: 0 <= c < |q.cells| && q.cells[c].kind !in HorizKinds ==> r.value.cells[c] == q.cells[c])
      && (forall k :: 0 <= k < |ids| ==>
            && ids[k] < |q.cells| && 0 <= Src(rand, w, k) < |ids| && ids[Src(rand, w, k)] < |q.cells|
            && r.value.cells[ids[k]] == q.cells[ids[k]].(m := q.cells[ids[Src(rand, w, k)]].m, d := q.cells[ids[Src(rand, w, k)]].d))
  {
    var ids := PositionsBefore(q.cells, HorizKinds, |q.cells|);
    var hc, pl := LayersBefore(q.cells, |q.cells|), SurfsBefore(q.surfaces, |q.surfaces|);
    LayersAt(q.cells, |q.cells|);
    PositionsSpec(q.cells, HorizKinds, |q.cells|);
    ThreeOptWrites(q, u1, u2);
    var rand, w := StartLayer(u1, |ids|), Window(u2);
    SrcPermutes(rand, |ids|, w);
    var m := ThreeOptMoved(hc, pl, rand, u2).value;
    var cells := Painted(q.cells, m.0);
    forall k | 0 <= k < |ids|
      ensures cells[ids[k]] == q.cells[ids[k]].(m := q.cells[ids[Src(rand, w, k)]].m, d := q.cells[ids[Src(rand, w, k)]].d)
    {
      PaintedAt(q.cells, m.0, k);
      assert m.0[k] == hc[Src(rand, w, k)];
    }
  }

  /** Written back over cells, the k-th horizontal cell takes the material
      and density of nc[k]. */
  lemma PaintedAt(cells: seq<Cell>, nc: seq<Cell>, k: nat)
    requires k < |PositionsBefore(cells, HorizKinds, |cells|)| <= |nc|
    ensures var ids := PositionsBefore(cells, HorizKinds, |cells|);
      ids[k] < |cells| && Painted(cells, nc)[ids[k]] == cells[ids[k]].(m := nc[k].m, d := nc[k].d)
  {
    RankOfPosition(cells, HorizKinds, k);
    PositionsSpec(cells, HorizKinds, |cells|);
  }

  /** Written back over ss, the k-th "horiz" surface is pl[k]. */
  lemma ReplacedAt(ss: seq<Surface>, pl: seq<Surface>, k: nat)
    requires k < |PlanesBefore(ss, |ss|)| <= |pl|
    ensures var sids := PlanesBefore(ss, |ss|);
      sids[k] < |ss| && Replaced(ss, pl)[sids[k]] == pl[k]
  {
    RankOfPlane(ss, k);
    PlanesSpec(ss, |ss|);
  }

  /** Planes q1 rebuilt from the "horiz" surfaces pl of ss and written back
      over ss: every other surface stays, each "horiz" one keeps all but its
      position, the first stays, and the plane above layer k sits above the
      plane below it by the thickness layer Src(k) had. */
  lemma ReplacedRebuilt(ss: seq<Surface>, pl: seq<Surface>, q1: seq<Surface>, rand: int, w: seq<int>)
    requires |w| == 5
    requires var sids := PlanesBefore(ss, |ss|);
      |sids| == |pl| && forall k :: 0 <= k < |pl| ==> sids[k] < |ss| && pl[k] == ss[sids[k]]
    requires PlanesRebuilt(pl, q1, rand, w)
    ensures var sids, r := PlanesBefore(ss, |ss|), Replaced(ss, q1);
      && (forall t :: 0 <= t < |ss| && !ss[t].role.HorizPrefix() ==> r[t] == ss[t])
      && (forall k :: 0 <= k < |pl| ==> r[sids[k]] == ss[sids[k]].(d := r[sids[k]].d))
      && r[sids[0]] == ss[sids[0]]
      && (forall k :: 0 <= k < |pl| - 1 ==>
            && 0 <= Src(rand, w, k) < |pl| - 1
            && r[sids[k + 1]].d - r[sids[k]].d == ss[sids[Src(rand, w, k) + 1]].d - ss[sids[Src(rand, w, k)]].d)
  {
    ReplacedRebuiltPlanes(ss, pl, q1, rand, w);
    ReplacedRebuiltSteps(ss, pl, q1, rand, w);
  }

  /** Each "horiz" surface of ss is replaced by its rebuilt plane, which
      differs from it only in position. */
  lemma ReplacedRebuiltPlanes(ss: seq<Surface>, pl: seq<Surface>, q1: seq<Surface>, rand: int, w: seq<int>)
    requires |w| == 5 && |PlanesBefore(ss, |ss|)| == |pl|
    requires forall k :: 0 <= k < |pl| ==> PlanesBefore(ss, |ss|)[k] < |ss| && pl[k] == ss[PlanesBefore(ss, |ss|)[k]]
    requires PlanesRebuilt(pl, q1, rand, w)
    ensures forall k :: 0 <= k < |pl| ==>
      && Replaced(ss, q1)[PlanesBefore(ss, |ss|)[k]] == q1[k] && q1[k] == pl[k].(d := q1[k].d)
  {
    forall k | 0 <= k < |pl|
      ensures Replaced(ss, q1)[PlanesBefore(ss, |ss|)[k]] == q1[k] && q1[k] == pl[k].(d := q1[k].d)
    {
      ReplacedAt(ss, q1, k);
      if k > 0 {
        RebuiltAt(pl, q1, rand, w, k - 1);
      }
    }
  }

  /** The rebuilt plane above layer k sits above the one below it by the
      thickness layer Src(k) had in ss. */
  lemma ReplacedRebuiltSteps(ss: seq<Surface>, pl: seq<Surface>, q1: seq<Surface>, rand: int, w: seq<int>)
    requires |w| == 5 && |PlanesBefore(ss, |ss|)| == |pl|
    requires forall k :: 0 <= k < |pl| ==> PlanesBefore(ss, |ss|)[k] < |ss| && pl[k] == ss[PlanesBefore(ss, |ss|)[k]]
    requires PlanesRebuilt(pl, q1, rand, w)
    requires forall k :: 0 <= k < |pl| ==> Replaced(ss, q1)[PlanesBefore(ss, |ss|)[k]] == q1[k]
    ensures forall k :: 0 <= k < |pl| - 1 ==>
      && 0 <= Src(rand, w, k) < |pl| - 1
      && Replaced(ss, q1)[PlanesBefore(ss, |ss|)[k + 1]].d - Replaced(ss, q1)[PlanesBefore(ss, |ss|)[k]].d
         == ss[PlanesBefore(ss, |ss|)[Src(rand, w, k) + 1]].d - ss[PlanesBefore(ss, |ss|)[Src(rand, w, k)]].d
  {
    forall k | 0 <= k < |pl| - 1
      ensures 0 <= Src(rand, w, k) < |pl| - 1
      ensures Replaced(ss, q1)[PlanesBefore(ss, |ss|)[k + 1]].d - Replaced(ss, q1)[PlanesBefore(ss, |ss|)[k]].d
         == ss[PlanesBefore(ss, |ss|)[Src(rand, w, k) + 1]].d - ss[PlanesBefore(ss, |ss|)[Src(rand, w, k)]].d
    {
      RebuiltAt(pl, q1, rand, w, k);
    }
  }

  /** One plane of PlanesRebuilt: the plane above position j sits above the
      one below it by the thickness of layer Src(j). */
  lemma RebuiltAt(pl: seq<Surface>, q1: seq<Surface>, rand: int, w: seq<int>, j: nat)
    requires |w| == 5 && PlanesRebuilt(pl, q1, rand, w) && j < |pl| - 1
    ensures var s := Src(rand, w, j);
      && 0 <= s < |pl| - 1
      && q1[j + 1] == pl[j + 1].(d := q1[j].d + (pl[s + 1].d - pl[s].d))
  {
  }

  /** The facts of the usual case that the plane lemmas share: the
      iteration writes the rebuilt "horiz" surfaces back over the design. */
  lemma ThreeOptPlanesRebuilt(q: Parent, u1: real, u2: real)
    requires |PositionsBefore(q.cells, HorizKinds, |q.cells|)| >= 6
    requires |PlanesBefore(q.surfaces, |q.surfaces|)| == |PositionsBefore(q.cells, HorizKinds, |q.cells|)| + 1
    requires 0.0 <= u1 < 1.0 && 0.0 <= u2 < 1.0
    ensures var n, pl := |PositionsBefore(q.cells, HorizKinds, |q.cells|)|, SurfsBefore(q.surfaces, |q.surfaces|);
      var m := ThreeOptMoved(LayersBefore(q.cells, |q.cells|), pl, StartLayer(u1, n), u2);
      var sids := PlanesBefore(q.surfaces, |q.surfaces|);
      && m.Ok? && PlanesRebuilt(pl, m.value.1, StartLayer(u1, n), Window(u2))
      && |sids| == |pl| && (forall k :: 0 <= k < |pl| ==> sids[k] < |q.surfaces| && pl[k] == q.surfaces[sids[k]])
      && ThreeOptStep(q, u1, u2) == Ok(q.(cells := Painted(q.cells, m.value.0), surfaces := Replaced(q.surfaces, m.value.1)))
  {
    LayersAt(q.cells, |q.cells|);
    SurfsAt(q.surfaces, |q.surfaces|);
    ThreeOptWrites(q, u1, u2);
  }

  /** In the usual case the iteration leaves every surface but the "horiz"
      ones alone, and of those changes only the position. */
  lemma ThreeOptMovesOnlyPlanes(q: Parent, u1: real, u2: real)
    requires |PositionsBefore(q.cells, HorizKinds, |q.cells|)| >= 6
    requires |PlanesBefore(q.surfaces, |q.surfaces|)| == |PositionsBefore(q.cells, HorizKinds, |q.cells|)| + 1
    requires 0.0 <= u1 < 1.0 && 0.0 <= u2 < 1.0
    ensures var sids, r := PlanesBefore(q.surfaces, |q.surfaces|), ThreeOptStep(q, u1, u2);
      && r.Ok? && |r.value.surfaces| == |q.surfaces|
      && (forall t :: 0 <= t < |q.surfaces| && !q.surfaces[t].role.HorizPrefix() ==> r.value.surfaces[t] == q.surfaces[t])
      && (forall k :: 0 <= k < |sids| ==> sids[k] < |q.surfaces| && r.value.surfaces[sids[k]] == q.surfaces[sids[k]].(d := r.value.surfaces[sids[k]].d))
  {
    var n, pl := |PositionsBefore(q.cells, HorizKinds, |q.cells|)|, SurfsBefore(q.surfaces, |q.surfaces|);
    ThreeOptPlanesRebuilt(q, u1, u2);
    var m := ThreeOptMoved(LayersBefore(q.cells, |q.cells|), pl, StartLayer(u1, n), u2).value;
    ReplacedRebuilt(q.surfaces, pl, m.1, StartLayer(u1, n), Window(u2));
  }

  /** In the usual case the plane below the first layer stays, and the plane
      above layer k sits above the plane below it by the thickness layer
      Src(k) had. */
  lemma ThreeOptRebuildsPlanes(q: Parent, u1: real, u2: real)
    requires |PositionsBefore(q.cells, HorizKinds, |q.cells|)| >= 6
    requires |PlanesBefore(q.surfaces, |q.surfaces|)| == |PositionsBefore(q.cells, HorizKinds, |q.cells|)| + 1
    requires 0.0 <= u1 < 1.0 && 0.0 <= u2 < 1.0
    ensures var n, sids := |PositionsBefore(q.cells, HorizKinds, |q.cells|)|, PlanesBefore(q.surfaces, |q.surfaces|);
      var rand, w := StartLayer(u1, n), Window(u2);
      var r := ThreeOptStep(q, u1, u2);
      && r.Ok? && |r.value.surfaces| == |q.surfaces|
      && (forall k :: 0 <= k <= n ==> sids[k] < |q.surfaces|)
      && r.value.surfaces[sids[0]] == q.surfaces[sids[0]]
      && (forall k :: 0 <= k < n ==>
            && 0 <= Src(rand, w, k) < n
            && r.value.surfaces[sids[k + 1]].d - r.value.surfaces[sids[k]].d
               == q.surfaces[sids[Src(rand, w, k) + 1]].d - q.surfaces[sids[Src(rand, w, k)]].d)
  {
    var n, pl := |PositionsBefore(q.cells, HorizKinds, |q.cells|)|, SurfsBefore(q.surfaces, |q.surfaces|);
    ThreeOptPlanesRebuilt(q, u1, u2);
    var m := ThreeOptMoved(LayersBefore(q.cells, |q.cells|), pl, StartLayer(u1, n), u2).value;
    ReplacedRebuilt(q.surfaces, pl, m.1, StartLayer(u1, n), Window(u2));
  }

  /** In the usual case the planes up to the top of the starting layer and
      from the top of the window on stay where they were: the window's
      five thicknesses add up to the same height in either order. */
  lemma ThreeOptKeepsPlanes(q: Parent, u1: real, u2: real)
    requires |PositionsBefore(q.cells, HorizKinds, |q.cells|)| >= 6
    requires |PlanesBefore(q.surfaces, |q.surfaces|)| == |PositionsBefore(q.cells, HorizKinds, |q.cells|)| + 1
    requires 0.0 <= u1 < 1.0 && 0.0 <= u2 < 1.0
    ensures var n, sids := |PositionsBefore(q.cells, HorizKinds, |q.cells|)|, PlanesBefore(q.surfaces, |q.surfaces|);
      var rand := StartLayer(u1, n);
      var r := ThreeOptStep(q, u1, u2);
      && r.Ok? && |r.value.surfaces| == |q.surfaces|
      && (forall t :: 0 <= t <= n && (t <= rand + 1 || rand + 6 <= t) ==>
            sids[t] < |q.surfaces| && r.value.surfaces[sids[t]] == q.surfaces[sids[t]])
  {
    var n, sids := |PositionsBefore(q.cells, HorizKinds, |q.cells|)|, PlanesBefore(q.surfaces, |q.surfaces|);
    var hc, pl := LayersBefore(q.cells, |q.cells|), SurfsBefore(q.surfaces, |q.surfaces|);
    LayersAt(q.cells, |q.cells|);
    SurfsAt(q.surfaces, |q.surfaces|);
    ThreeOptWrites(q, u1, u2);
    var rand, w := StartLayer(u1, n), Window(u2);
    var m := ThreeOptMoved(hc, pl, rand, u2).value;
    assert PlanesRebuilt(pl, m.1, rand, w);
    var ss := Replaced(q.surfaces, m.1);
    forall t | 0 <= t <= n && (t <= rand + 1 || rand + 6 <= t)
      ensures sids[t] < |q.surfaces| && ss[sids[t]] == q.surfaces[sids[t]]
    {
      ReplacedAt(q.surfaces, m.1, t);
      PlaneKept(pl, m.1, rand, w, t);
    }
  }
}
