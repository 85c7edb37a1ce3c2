// The operators of Code/Metaheuristics.py that change which materials a
// design's layers are made of: `Mat_Levy_Flights` (a Levy step along the
// library's key list or along the materials sorted by moderating ratio),
// `Elite_Crossover` (a blend of the best design's ratios with an elite
// partner's) and `Partial_Inversion` (a swap or reversal of the layer
// materials along the ratio gradient). Random draws are parameters.
module MaterialSearch {
  import opened Wrappers
  import opened PyMath
  import opened Design
  import opened NuclearData
  import opened Sorting
  import LevyFlight
  import CellSearch

  const FlRange: string := "The probability that a parent is used for global Levy search must exist on [0,1]"
  const FeRange: string := "The probability that a parent is elite must exist on [0,1]"
  const EmptyMax: string := "max() arg is an empty sequence"
  const OutOfRange: string := "list index out of range"
  const NoRatio1MeV: string := "'int' object has no attribute 'mr_1MeV'"
  const NoRatio14MeV: string := "'int' object has no attribute 'mr_14MeV'"
  const OutOfInterval: string := "p is out of bounds."

  /** `next((i for i, item in enumerate(names) if item == x), -1)`: the first
      position of x, or -1. */
  function IndexOf<T(==)>(names: seq<T>, x: T): (r: int)
    ensures -1 <= r < |names|
    ensures r == -1 <==> x !in names
    ensures r >= 0 ==> names[r] == x && x !in names[..r]
  {
    if names == [] then -1
    else if names[0] == x then 0
    else
      var k := IndexOf(names[1..], x);
      assert k >= 0 ==> names[..k + 1] == [names[0]] + names[1..][..k];
      if k == -1 then -1 else k + 1
  }

  /** The sort keys `lambda x: x.mr_1MeV` and `lambda x: x.mr_14MeV`. */
  function By1MeV(m: ModeratingRatio): real { m.mr1MeV }
  function By14MeV(m: ModeratingRatio): real { m.mr14MeV }

  /** The names of the moderating-ratio records, in list order. */
  function Names(mr: seq<ModeratingRatio>): (r: seq<string>)
    ensures |r| == |mr| && forall k :: 0 <= k < |mr| ==> r[k] == mr[k].name
  {
    seq(|mr|, k requires 0 <= k < |mr| => mr[k].name)
  }

  /** Every name listed by the records. */
  function NameSet(mr: seq<ModeratingRatio>): set<string>
  {
    set m | m in mr :: m.name
  }

  /** Sorting the records in place keeps the set of names they list. */
  lemma SortKeepsNames(mr: seq<ModeratingRatio>, key: ModeratingRatio -> real)
    ensures NameSet(SortBy(mr, key)) == NameSet(mr)
  {
    var s := SortBy(mr, key);
    forall m | m in s ensures m in mr {
      assert m in multiset(s);
    }
    forall m | m in mr ensures m in s {
      assert m in multiset(mr);
    }
  }

  /** Two orders of the same records list the same names. */
  lemma SameNames(a: seq<ModeratingRatio>, b: seq<ModeratingRatio>)
    requires multiset(a) == multiset(b)
    ensures NameSet(a) == NameSet(b)
  {
    forall m | m in a ensures m in b { assert m in multiset(a); }
    forall m | m in b ensures m in a { assert m in multiset(b); }
  }

  // ---------------------------------------------------------------------------
  // Mat_Levy_Flights
  // ---------------------------------------------------------------------------

  /** The three ways of walking the materials, chosen by a uniform draw. */
  datatype Walk = ByKey | ByRatio1MeV | ByRatio14MeV

  /** The draw p picks the key list when p <= 0.33, the 1 MeV ordering when
      p <= 0.66, the 14 MeV ordering when p <= 1.0, and exits otherwise. */
  function WalkOf(p: real): (r: Result<Walk>)
    ensures r.Ok? <==> p <= 1.0
    ensures r.Ok? ==> (r.value == ByKey <==> p <= 0.33) && (r.value == ByRatio14MeV <==> 0.66 < p)
  {
    if p <= 0.33 then Ok(ByKey)
    else if p <= 0.66 then Ok(ByRatio1MeV)
    else if p <= 1.0 then Ok(ByRatio14MeV)
    else Err(SystemExit(OutOfInterval))
  }

  /** The cells after `for c in cells: if c.m == m: c.d = d`. */
  function WithDensity(cells: seq<Cell>, m: int, d: real): (r: seq<Cell>)
    ensures |r| == |cells|
  {
    seq(|cells|, k requires 0 <= k < |cells| => if cells[k].m == m then cells[k].(d := d) else cells[k])
  }

  /** The loop `for c in cells: if c.m == m: c.d = d`: the cells made of
      material m take density d, all others are left as they are. */
  method SetDensity(cells: seq<Cell>, m: int, d: real) returns (r: seq<Cell>)
    ensures r == WithDensity(cells, m, d)
    ensures forall k :: 0 <= k < |cells| ==> r[k] == if cells[k].m == m then cells[k].(d := d) else cells[k]
  {
    r := cells;
    for k := 0 to |cells|
      invariant |r| == |cells|
      invariant forall i :: 0 <= i < |cells| ==> r[i] == if i < k && cells[i].m == m then cells[i].(d := d) else cells[i]
    {
      if r[k].m == m {
        r := r[k := r[k].(d := d)];
      }
    }
  }

  /** `(ind + int(step)) % len(keys)`: Python's `%` with a positive modulus
      is never negative, as Dafny's is. */
  function Wrap(ind: int, step: real, modulus: nat): (r: nat)
    requires modulus > 0
    ensures r < modulus
  {
    (ind + Trunc(step)) % modulus
  }

  /** The redraw loop `while keys[levy] in exclude:` of one material at
      position ind of `names`: the position `(ind + int(step)) % len(keys)`
      when its name is not excluded, otherwise the same with the step
      redrawn from `resamples[k]`, `resamples[k + 1]`, ... Returns the
      position and the next unused redraw. */
  function LevyPick(ind: int, names: seq<string>, modulus: nat, step: real, exclude: seq<string>,
                    resamples: seq<real>, k: nat): (r: Result<(nat, nat)>)
    requires modulus > 0 && k <= |resamples|
    ensures r.Ok? ==> r.value.0 < |names| && names[r.value.0] !in exclude && k <= r.value.1 <= |resamples|
    ensures r.Err? ==> r.error == IndexError(OutOfRange) || r.error == DrawsExhausted
    decreases |resamples| - k
  {
    var levy := Wrap(ind, step, modulus);
    if levy >= |names| then Err(IndexError(OutOfRange))
    else if names[levy] !in exclude then Ok((levy, k))
    else if k == |resamples| then Err(DrawsExhausted)
    else LevyPick(ind, names, modulus, resamples[k], exclude, resamples, k + 1)
  }

  /** The pick is the wrapped step when its name is not excluded, and
      otherwise the wrapped redraw it stopped at, every earlier draw having
      landed on an excluded name. */
  lemma {:induction false} LevyPickWraps(ind: int, names: seq<string>, modulus: nat, step: real, exclude: seq<string>,
                                         resamples: seq<real>, k: nat)
    requires modulus > 0 && k <= |resamples|
    ensures var r := LevyPick(ind, names, modulus, step, exclude, resamples, k);
      && (r.Ok? && r.value.1 == k ==> r.value.0 == Wrap(ind, step, modulus))
      && (r.Ok? && r.value.1 > k ==> r.value.0 == Wrap(ind, resamples[r.value.1 - 1], modulus))
      && (r.Ok? && r.value.1 > k ==> Wrap(ind, step, modulus) < |names| && names[Wrap(ind, step, modulus)] in exclude)
      && (r.Ok? ==> forall t :: k <= t < r.value.1 - 1 ==>
            Wrap(ind, resamples[t], modulus) < |names| && names[Wrap(ind, resamples[t], modulus)] in exclude)
    decreases |resamples| - k
  {
    var levy := Wrap(ind, step, modulus);
    if levy < |names| && names[levy] in exclude && k < |resamples| {
      LevyPickWraps(ind, names, modulus, resamples[k], exclude, resamples, k + 1);
    }
  }

  /** The Levy step of one material: the position `(ind + int(step)) %
      len(keys)` in `names`, where ind is the material's position there (or
      -1), with the step redrawn from `resamples` (from `next` on) while the
      material at that position is excluded. Returns ind, the position and
      the next unused redraw. */
  method LevyMaterial(cur: string, names: seq<string>, modulus: nat, step: real, exclude: seq<string>,
                      resamples: seq<real>, next: nat) returns (r: Result<(int, nat, nat)>)
    requires next <= |resamples|
    ensures modulus == 0 ==> r == Err(ZeroDivisionError)
    ensures modulus > 0 ==> (r.Ok? <==> LevyPick(IndexOf(names, cur), names, modulus, step, exclude, resamples, next).Ok?)
    ensures modulus > 0 && r.Ok? ==>
              r.value.0 == IndexOf(names, cur)
              && (r.value.1, r.value.2) == LevyPick(IndexOf(names, cur), names, modulus, step, exclude, resamples, next).value
    ensures modulus > 0 && r.Err? ==> r.error == LevyPick(IndexOf(names, cur), names, modulus, step, exclude, resamples, next).error
  {
    if modulus == 0 {
      return Err(ZeroDivisionError);
    }
    var ind := IndexOf(names, cur);
    var s := step;
    var levy := Wrap(ind, s, modulus);
    var k := next;
    while true
      invariant next <= k <= |resamples| && levy == Wrap(ind, s, modulus)
      invariant LevyPick(ind, names, modulus, s, exclude, resamples, k) == LevyPick(ind, names, modulus, step, exclude, resamples, next)
      decreases |resamples| - k
    {
      if !(levy < |names|) {
        return Err(IndexError(OutOfRange));
      }
      if names[levy] !in exclude {
        return Ok((ind, levy, k));
      }
      if k == |resamples| {
        return Err(DrawsExhausted);
      }
      s := resamples[k];
      levy := Wrap(ind, s, modulus);
      k := k + 1;
    }
  }

  /** A cell after the edit: the same cell, or the same cell with the density
      of the material it is made of. */
  predicate CellFollows(c: Cell, c2: Cell, matls: seq<string>, dens: map<string, real>)
  {
    c2 == c || (1 <= c.m <= |matls| && matls[c.m - 1] in dens && c2 == c.(d := dens[matls[c.m - 1]]))
  }

  /** What `Mat_Levy_Flights` does to one design: only the materials from
      `fixed_mats` up to (not including) the fill at the end, and the
      densities of the cells, change; each of those materials is afterwards
      a non-excluded name of `catalogue`; a cell whose material number is
      outside that range keeps its density, any other either keeps it or
      takes the density of the material it is made of, and does so whenever
      that material was replaced. */
  predicate LevyEdit(q: Parent, r: Parent, catalogue: set<string>, dens: map<string, real>, exclude: seq<string>)
  {
    && r == q.(matls := r.matls, cells := r.cells)
    && |r.matls| == |q.matls| && |r.cells| == |q.cells|
    && (forall i :: 0 <= i < |q.matls| && !(q.fixedMats <= i < |q.matls| - 1) ==> r.matls[i] == q.matls[i])
    && (forall i :: 0 <= i < |q.matls| && q.fixedMats <= i < |q.matls| - 1 ==> r.matls[i] in catalogue && r.matls[i] !in exclude)
    && (forall c :: 0 <= c < |q.cells| ==> CellFollows(q.cells[c], r.cells[c], r.matls, dens))
    && (forall c :: 0 <= c < |q.cells| && !(q.fixedMats < q.cells[c].m < |q.matls|) ==> r.cells[c] == q.cells[c])
    && (forall c :: 0 <= c < |q.cells| && 0 < q.cells[c].m && q.fixedMats < q.cells[c].m < |q.matls| && r.matls[q.cells[c].m - 1] != q.matls[q.cells[c].m - 1] ==>
          r.matls[q.cells[c].m - 1] in dens && r.cells[c].d == dens[r.matls[q.cells[c].m - 1]])
  }

  /** One material of the edit: position j takes `name` when the pick
      moved it, and then every cell made of material j + 1 takes its
      density, a library lookup that fails (a KeyError) only when such a
      cell exists. */
  function LevyStepOf(matls: seq<string>, cells: seq<Cell>, j: int, name: string, moved: bool,
                      dens: map<string, real>): (r: Result<(seq<string>, seq<Cell>)>)
    requires 0 <= j < |matls|
    ensures r.Ok? ==> |r.value.0| == |matls| && |r.value.1| == |cells|
  {
    if !moved then Ok((matls, cells))
    else if name in dens then Ok((matls[j := name], WithDensity(cells, j + 1, dens[name])))
    else if exists c :: 0 <= c < |cells| && cells[c].m == j + 1 then Err(KeyError(name))
    else Ok((matls[j := name], cells))
  }

  /** A material that did not move leaves everything as it was; one that
      moved takes the new name, the cells made of it take that name's
      density and no other cell changes; the lookup fails, with a
      KeyError, exactly when the name is missing from the library and some
      cell is made of the material. */
  lemma LevyStepCells(matls: seq<string>, cells: seq<Cell>, j: int, name: string, moved: bool, dens: map<string, real>)
    requires 0 <= j < |matls|
    ensures var r := LevyStepOf(matls, cells, j, name, moved, dens);
      && (r.Ok? && !moved ==> r.value == (matls, cells))
      && (r.Ok? && moved ==> r.value.0 == matls[j := name])
      && (r.Ok? && moved ==> forall c :: 0 <= c < |cells| && cells[c].m == j + 1 ==>
            name in dens && r.value.1[c] == cells[c].(d := dens[name]))
      && (r.Ok? && moved ==> forall c :: 0 <= c < |cells| && cells[c].m != j + 1 ==> r.value.1[c] == cells[c])
      && (r.Err? <==> moved && name !in dens && exists c :: 0 <= c < |cells| && cells[c].m == j + 1)
      && (r.Err? ==> r.error == KeyError(name))
  {
  }

  /** One material of the edit, as `Mat_Levy_Flights` writes it. */
  method LevyStep(matls: seq<string>, cells: seq<Cell>, j: int, name: string, moved: bool,
                  dens: map<string, real>) returns (r: Result<(seq<string>, seq<Cell>)>)
    requires 0 <= j < |matls|
    ensures r == LevyStepOf(matls, cells, j, name, moved, dens)
  {
    if !moved {
      return Ok((matls, cells));
    }
    if name in dens {
      var cs := SetDensity(cells, j + 1, dens[name]);
      return Ok((matls[j := name], cs));
    }
    if exists c :: 0 <= c < |cells| && cells[c].m == j + 1 {
      return Err(KeyError(name));
    }
    return Ok((matls[j := name], cells));
  }

  /** The materials of the edit after positions `fixed_mats` to j - 1:
      those are non-excluded names, all others unchanged. */
  predicate MatlsUpTo(q: Parent, matls: seq<string>, j: int, names: seq<string>, exclude: seq<string>)
  {
    && |matls| == |q.matls|
    && (forall i :: 0 <= i < |matls| && !(q.fixedMats <= i < j) ==> matls[i] == q.matls[i])
    && (forall i :: 0 <= i < |matls| && q.fixedMats <= i < j ==> matls[i] in names && matls[i] !in exclude)
  }

  /** The cells of the edit after positions `fixed_mats` to j - 1: only
      cells made of those materials changed, and only in density. */
  predicate CellsUpTo(q: Parent, matls: seq<string>, cells: seq<Cell>, j: int, dens: map<string, real>)
  {
    && |cells| == |q.cells| && |matls| == |q.matls|
    && (forall c :: 0 <= c < |cells| ==> CellFollows(q.cells[c], cells[c], matls, dens))
    && (forall c :: 0 <= c < |cells| && !(q.fixedMats < q.cells[c].m <= j) ==> cells[c] == q.cells[c])
    && (forall c ::
          0 <= c < |cells| && 0 < q.cells[c].m && q.fixedMats < q.cells[c].m <= j && q.cells[c].m <= |matls|
          && matls[q.cells[c].m - 1] != q.matls[q.cells[c].m - 1] ==>
          matls[q.cells[c].m - 1] in dens && cells[c].d == dens[matls[q.cells[c].m - 1]])
  }

  /** Position j takes a non-excluded name. */
  lemma MatlsStep(q: Parent, matls: seq<string>, j: int, names: seq<string>, exclude: seq<string>,
                  name: string, moved: bool)
    requires MatlsUpTo(q, matls, j, names, exclude) && 0 <= q.fixedMats <= j < |matls|
    requires name in names && name !in exclude && (!moved ==> name == matls[j])
    ensures MatlsUpTo(q, if moved then matls[j := name] else matls, j + 1, names, exclude)
  {
  }

  /** The cells made of material j + 1 take the density of its new name
      when it moved. */
  lemma CellsStep(q: Parent, matls: seq<string>, cells: seq<Cell>, j: int, dens: map<string, real>,
                  name: string, moved: bool, cells': seq<Cell>)
    requires CellsUpTo(q, matls, cells, j, dens) && 0 <= q.fixedMats <= j < |matls| && matls[j] == q.matls[j]
    requires !moved ==> cells' == cells && name == matls[j]
    requires moved ==> |cells'| == |cells|
    requires moved ==> forall c :: 0 <= c < |cells| && cells[c].m == j + 1 ==>
      name in dens && cells'[c] == cells[c].(d := dens[name])
    requires moved ==> forall c :: 0 <= c < |cells| && cells[c].m != j + 1 ==> cells'[c] == cells[c]
    ensures CellsUpTo(q, if moved then matls[j := name] else matls, cells', j + 1, dens)
  {
    var matls' := if moved then matls[j := name] else matls;
    forall c | 0 <= c < |cells|
      ensures CellFollows(q.cells[c], cells'[c], matls', dens)
      ensures cells'[c].m == q.cells[c].m
    {
      assert cells[c].m == q.cells[c].m;
    }
  }

  /** One step of the walk keeps the state a partial edit. */
  lemma EditStep(q: Parent, matls: seq<string>, cells: seq<Cell>, j: int, names: seq<string>, exclude: seq<string>,
                 dens: map<string, real>, name: string, moved: bool)
    requires MatlsUpTo(q, matls, j, names, exclude) && CellsUpTo(q, matls, cells, j, dens)
    requires 0 <= q.fixedMats <= j < |matls|
    requires name in names && name !in exclude && (!moved ==> name == matls[j])
    requires LevyStepOf(matls, cells, j, name, moved, dens).Ok?
    ensures var t := LevyStepOf(matls, cells, j, name, moved, dens).value;
      MatlsUpTo(q, t.0, j + 1, names, exclude) && CellsUpTo(q, t.0, t.1, j + 1, dens)
  {
    var t := LevyStepOf(matls, cells, j, name, moved, dens).value;
    LevyStepCells(matls, cells, j, name, moved, dens);
    MatlsStep(q, matls, j, names, exclude, name, moved);
    assert matls[j] == q.matls[j];
    CellsStep(q, matls, cells, j, dens, name, moved, t.1);
  }

  /** After the last position the partial edit is the whole edit. */
  lemma UpToEdit(q: Parent, matls: seq<string>, cells: seq<Cell>, j: int, names: seq<string>,
                 dens: map<string, real>, exclude: seq<string>)
    requires MatlsUpTo(q, matls, j, names, exclude) && CellsUpTo(q, matls, cells, j, dens)
    requires j >= q.fixedMats && j >= |q.matls| - 1 && (q.fixedMats <= |q.matls| - 1 ==> j == |q.matls| - 1)
    ensures LevyEdit(q, q.(matls := matls, cells := cells), Elements(names), dens, exclude)
  {
  }

  /** The position the walk over one design's materials stops at:
      `len(matls) - 1`, the fill being left alone, or `fixed_mats` when
      that is further on. */
  function LevyEnd(q: Parent): int
  {
    if q.fixedMats < |q.matls| - 1 then |q.matls| - 1 else q.fixedMats
  }

  /** The Levy step of position j from the state s the earlier positions
      left: the pick for the material then at j, and the edit it makes. */
  function LevyEditStep(q: Parent, j: int, s: (seq<string>, seq<Cell>, nat), names: seq<string>, modulus: nat,
                        dens: map<string, real>, stepRow: seq<real>, exclude: seq<string>, resamples: seq<real>)
    : (r: Result<(seq<string>, seq<Cell>, nat)>)
    requires 0 <= q.fixedMats <= j < |s.0| && s.2 <= |resamples|
    ensures r.Ok? ==> |r.value.0| == |s.0| && |r.value.1| == |s.1| && s.2 <= r.value.2 <= |resamples|
  {
    if j - q.fixedMats >= |stepRow| then Err(IndexError(OutOfRange))
    else if modulus == 0 then Err(ZeroDivisionError)
    else
      var ind := IndexOf(names, s.0[j]);
      match LevyPick(ind, names, modulus, stepRow[j - q.fixedMats], exclude, resamples, s.2)
      case Err(e) => Err(e)
      case Ok(v) =>
        match LevyStepOf(s.0, s.1, j, names[v.0], v.0 != ind, dens)
        case Err(e) => Err(e)
        case Ok(t) => Ok((t.0, t.1, v.1))
  }

  /** After the step of position j the material there is `names[levy]`,
      levy being the wrapped pick that `LevyPickWraps` describes, and no
      other material has changed. */
  lemma LevyEditStepPicks(q: Parent, j: int, s: (seq<string>, seq<Cell>, nat), names: seq<string>, modulus: nat,
                          dens: map<string, real>, stepRow: seq<real>, exclude: seq<string>, resamples: seq<real>)
    requires 0 <= q.fixedMats <= j < |s.0| && s.2 <= |resamples|
    ensures var r := LevyEditStep(q, j, s, names, modulus, dens, stepRow, exclude, resamples);
      r.Ok? ==>
        && j - q.fixedMats < |stepRow| && modulus > 0
        && var pick := LevyPick(IndexOf(names, s.0[j]), names, modulus, stepRow[j - q.fixedMats], exclude, resamples, s.2);
          && pick.Ok? && r.value.0 == s.0[j := names[pick.value.0]] && r.value.2 == pick.value.1
  {
    if j - q.fixedMats < |stepRow| && modulus > 0 {
      var ind := IndexOf(names, s.0[j]);
      var pick := LevyPick(ind, names, modulus, stepRow[j - q.fixedMats], exclude, resamples, s.2);
      if pick.Ok? {
        LevyStepCells(s.0, s.1, j, names[pick.value.0], pick.value.0 != ind, dens);
        if pick.value.0 == ind {
          assert s.0[j := names[ind]] == s.0;
        }
      }
    }
  }

  /** The materials, the cells and the next unused redraw of one design
      after the Levy steps of positions `fixed_mats` to j - 1 along
      `names`, each step starting from the material then at its position.
      A material whose pick is its own position stays as it is, since
      `names[ind]` is that material. */
  function LevyEditTo(q: Parent, j: int, names: seq<string>, modulus: nat, dens: map<string, real>,
                      stepRow: seq<real>, exclude: seq<string>, resamples: seq<real>, next: nat)
    : (r: Result<(seq<string>, seq<Cell>, nat)>)
    requires 0 <= q.fixedMats <= j <= LevyEnd(q) && next <= |resamples|
    ensures r.Ok? ==> |r.value.0| == |q.matls| && |r.value.1| == |q.cells| && next <= r.value.2 <= |resamples|
    decreases j, 0
  {
    if j == q.fixedMats then Ok((q.matls, q.cells, next))
    else LevyEditAfter(q, j - 1, names, modulus, dens, stepRow, exclude, resamples, next)
  }

  /** The state after the Levy step of position j: that step applied to
      the state the earlier positions left. */
  function LevyEditAfter(q: Parent, j: int, names: seq<string>, modulus: nat, dens: map<string, real>,
                         stepRow: seq<real>, exclude: seq<string>, resamples: seq<real>, next: nat)
    : (r: Result<(seq<string>, seq<Cell>, nat)>)
    requires 0 <= q.fixedMats <= j < LevyEnd(q) && next <= |resamples|
    ensures r.Ok? ==> |r.value.0| == |q.matls| && |r.value.1| == |q.cells| && next <= r.value.2 <= |resamples|
    decreases j, 1
  {
    match LevyEditTo(q, j, names, modulus, dens, stepRow, exclude, resamples, next)
    case Err(e) => Err(e)
    case Ok(s) => LevyEditStep(q, j, s, names, modulus, dens, stepRow, exclude, resamples)
  }

  /** Once a step fails the walk stops with that error. */
  lemma {:induction false} LevyEditToErr(q: Parent, j: int, j': int, names: seq<string>, modulus: nat,
                                         dens: map<string, real>, stepRow: seq<real>, exclude: seq<string>,
                                         resamples: seq<real>, next: nat)
    requires 0 <= q.fixedMats <= j <= j' <= LevyEnd(q) && next <= |resamples|
    requires LevyEditTo(q, j, names, modulus, dens, stepRow, exclude, resamples, next).Err?
    ensures LevyEditTo(q, j', names, modulus, dens, stepRow, exclude, resamples, next)
      == LevyEditTo(q, j, names, modulus, dens, stepRow, exclude, resamples, next)
    decreases j'
  {
    if j' > j {
      LevyEditToErr(q, j, j' - 1, names, modulus, dens, stepRow, exclude, resamples, next);
    }
  }

  /** Before the first step nothing has changed. */
  lemma UpToStart(q: Parent, names: seq<string>, exclude: seq<string>, dens: map<string, real>)
    ensures MatlsUpTo(q, q.matls, q.fixedMats, names, exclude) && CellsUpTo(q, q.matls, q.cells, q.fixedMats, dens)
  {
  }

  /** One step from a partial edit is a partial edit one position on. */
  lemma LevyEditStepUpTo(q: Parent, j: int, s: (seq<string>, seq<Cell>, nat), names: seq<string>, modulus: nat,
                         dens: map<string, real>, stepRow: seq<real>, exclude: seq<string>, resamples: seq<real>, j': int)
    requires 0 <= q.fixedMats <= j < |s.0| && s.2 <= |resamples| && j' == j + 1
    requires MatlsUpTo(q, s.0, j, names, exclude) && CellsUpTo(q, s.0, s.1, j, dens)
    ensures var r := LevyEditStep(q, j, s, names, modulus, dens, stepRow, exclude, resamples);
      r.Ok? ==> MatlsUpTo(q, r.value.0, j', names, exclude) && CellsUpTo(q, r.value.0, r.value.1, j', dens)
  {
    if j - q.fixedMats < |stepRow| && modulus > 0 {
      var ind := IndexOf(names, s.0[j]);
      var pick := LevyPick(ind, names, modulus, stepRow[j - q.fixedMats], exclude, resamples, s.2);
      if pick.Ok? {
        var levy := pick.value.0;
        if LevyStepOf(s.0, s.1, j, names[levy], levy != ind, dens).Ok? {
          EditStep(q, s.0, s.1, j, names, exclude, dens, names[levy], levy != ind);
        }
      }
    }
  }

  /** Every state the walk reaches is a partial edit: the materials it
      moved are non-excluded names, and the cells made of them carry their
      densities. */
  lemma {:induction false} LevyEditToUpTo(q: Parent, j: int, names: seq<string>, modulus: nat, dens: map<string, real>,
                                          stepRow: seq<real>, exclude: seq<string>, resamples: seq<real>, next: nat)
    requires 0 <= q.fixedMats <= j <= LevyEnd(q) && next <= |resamples|
    ensures var r := LevyEditTo(q, j, names, modulus, dens, stepRow, exclude, resamples, next);
      r.Ok? ==> MatlsUpTo(q, r.value.0, j, names, exclude) && CellsUpTo(q, r.value.0, r.value.1, j, dens)
    decreases j
  {
    if j == q.fixedMats {
      UpToStart(q, names, exclude, dens);
    } else {
      LevyEditToUpTo(q, j - 1, names, modulus, dens, stepRow, exclude, resamples, next);
      LevyEditAfterUpTo(q, j - 1, names, modulus, dens, stepRow, exclude, resamples, next, j);
    }
  }

  /** The step of position j keeps the walk's state a partial edit. */
  lemma LevyEditAfterUpTo(q: Parent, j: int, names: seq<string>, modulus: nat, dens: map<string, real>,
                          stepRow: seq<real>, exclude: seq<string>, resamples: seq<real>, next: nat, j': int)
    requires 0 <= q.fixedMats <= j < LevyEnd(q) && next <= |resamples| && j' == j + 1
    requires var prev := LevyEditTo(q, j, names, modulus, dens, stepRow, exclude, resamples, next);
      prev.Ok? ==> MatlsUpTo(q, prev.value.0, j, names, exclude) && CellsUpTo(q, prev.value.0, prev.value.1, j, dens)
    ensures var r := LevyEditAfter(q, j, names, modulus, dens, stepRow, exclude, resamples, next);
      r.Ok? ==> MatlsUpTo(q, r.value.0, j', names, exclude) && CellsUpTo(q, r.value.0, r.value.1, j', dens)
  {
    var prev := LevyEditTo(q, j, names, modulus, dens, stepRow, exclude, resamples, next);
    if prev.Ok? {
      LevyEditStepUpTo(q, j, prev.value, names, modulus, dens, stepRow, exclude, resamples, j');
    }
  }

  /** The Levy step of position j of one design, from the state the
      earlier positions left. */
  method LevyPosition(q: Parent, matls: seq<string>, cells: seq<Cell>, j: int, names: seq<string>, modulus: nat,
                      dens: map<string, real>, stepRow: seq<real>, exclude: seq<string>, resamples: seq<real>,
                      next: nat, k: nat)
    returns (r: Result<(seq<string>, seq<Cell>, nat)>)
    requires 0 <= q.fixedMats <= j < |q.matls| - 1 && next <= |resamples|
    requires LevyEditTo(q, j, names, modulus, dens, stepRow, exclude, resamples, next) == Ok((matls, cells, k))
    ensures r == LevyEditTo(q, j + 1, names, modulus, dens, stepRow, exclude, resamples, next)
  {
    if j - q.fixedMats >= |stepRow| {
      return Err(IndexError(OutOfRange));
    }
    var pick := LevyMaterial(matls[j], names, modulus, stepRow[j - q.fixedMats], exclude, resamples, k);
    if pick.Err? {
      return Err(pick.error);
    }
    var ind, levy := pick.value.0, pick.value.1;
    var step := LevyStep(matls, cells, j, names[levy], levy != ind, dens);
    if step.Err? {
      return Err(step.error);
    }
    return Ok((step.value.0, step.value.1, pick.value.2));
  }

  /** The edit `Mat_Levy_Flights` makes to one design, walking `names`
      with `len(keys)` as the modulus, and the next unused redraw. */
  function LevyMaterialsOf(q: Parent, names: seq<string>, modulus: nat, dens: map<string, real>, stepRow: seq<real>,
                           exclude: seq<string>, resamples: seq<real>, next: nat): (r: Result<(Parent, nat)>)
    requires q.fixedMats >= 0 && next <= |resamples|
  {
    match LevyEditTo(q, LevyEnd(q), names, modulus, dens, stepRow, exclude, resamples, next)
    case Err(e) => Err(e)
    case Ok(s) => Ok((q.(matls := s.0, cells := s.1), s.2))
  }

  /** The edit changes only the movable materials, each to a non-excluded
      name of the walk, and the densities of the cells made of them; with
      an empty key list it fails as soon as there is a material to move. */
  lemma LevyMaterialsEdit(q: Parent, names: seq<string>, modulus: nat, dens: map<string, real>, stepRow: seq<real>,
                          exclude: seq<string>, resamples: seq<real>, next: nat)
    requires q.fixedMats >= 0 && next <= |resamples|
    ensures var r := LevyMaterialsOf(q, names, modulus, dens, stepRow, exclude, resamples, next);
      && (r.Ok? ==> next <= r.value.1 <= |resamples| && LevyEdit(q, r.value.0, Elements(names), dens, exclude))
      && (modulus == 0 && q.fixedMats < |q.matls| - 1 ==> r.Err?)
  {
    var e := LevyEditTo(q, LevyEnd(q), names, modulus, dens, stepRow, exclude, resamples, next);
    LevyEditToUpTo(q, LevyEnd(q), names, modulus, dens, stepRow, exclude, resamples, next);
    if e.Ok? {
      UpToEdit(q, e.value.0, e.value.1, LevyEnd(q), names, dens, exclude);
    }
    if modulus == 0 && q.fixedMats < |q.matls| - 1 {
      LevyEditToErr(q, q.fixedMats + 1, LevyEnd(q), names, modulus, dens, stepRow, exclude, resamples, next);
    }
  }

  /** The loop of `Mat_Levy_Flights` over the movable materials of one
      design. */
  method LevyMaterials(q: Parent, names: seq<string>, modulus: nat, dens: map<string, real>, stepRow: seq<real>,
                       exclude: seq<string>, resamples: seq<real>, next: nat) returns (r: Result<(Parent, nat)>)
    requires q.fixedMats >= 0 && next <= |resamples|
    ensures r == LevyMaterialsOf(q, names, modulus, dens, stepRow, exclude, resamples, next)
  {
    var matls := q.matls;
    var cells := q.cells;
    var k: nat := next;
    var j := q.fixedMats;
    while j < |q.matls| - 1
      invariant q.fixedMats <= j <= LevyEnd(q)
      invariant LevyEditTo(q, j, names, modulus, dens, stepRow, exclude, resamples, next) == Ok((matls, cells, k))
      decreases |q.matls| - j
    {
      var one := LevyPosition(q, matls, cells, j, names, modulus, dens, stepRow, exclude, resamples, next, k);
      if one.Err? {
        LevyEditToErr(q, j + 1, LevyEnd(q), names, modulus, dens, stepRow, exclude, resamples, next);
        return Err(one.error);
      }
      matls, cells, k := one.value.0, one.value.1, one.value.2;
      j := j + 1;
    }
    return Ok((q.(matls := matls, cells := cells), k));
  }

  /** The longest material list of a non-empty population. */
  function MaxMatls(x: seq<Parent>): (r: nat)
    requires |x| > 0
    ensures forall k :: 0 <= k < |x| ==> |x[k].matls| <= r
    ensures exists k :: 0 <= k < |x| && |x[k].matls| == r
  {
    if |x| == 1 then |x[0].matls|
    else
      var m := MaxMatls(x[..|x| - 1]);
      assert forall k :: 0 <= k < |x| - 1 ==> x[..|x| - 1][k] == x[k];
      if |x[|x| - 1].matls| > m then |x[|x| - 1].matls| else m
  }

  /** The walks through the names draw from a larger catalogue. */
  lemma LevyEditWiden(q: Parent, r: Parent, c1: set<string>, c2: set<string>, dens: map<string, real>, exclude: seq<string>)
    requires LevyEdit(q, r, c1, dens, exclude) && c1 <= c2
    ensures LevyEdit(q, r, c2, dens, exclude)
  {
  }

  /** The order the records are in after a walk: sorted in place by the
      walk's energy for a ratio walk, untouched for the key walk. */
  function WalkOrder(walk: Walk, sorted: seq<ModeratingRatio>): seq<ModeratingRatio>
  {
    match walk
    case ByKey => sorted
    case ByRatio1MeV => SortBy(sorted, By1MeV)
    case ByRatio14MeV => SortBy(sorted, By14MeV)
  }

  /** The names a walk visits: the library's keys, or the names of the
      records in the walk's order. */
  function WalkList(walk: Walk, keys: seq<string>, sorted: seq<ModeratingRatio>): seq<string>
  {
    if walk == ByKey then keys else Names(WalkOrder(walk, sorted))
  }

  /** The names a walk visits: the library's keys, or the ratio records
      after sorting them in place by the walk's energy. */
  method WalkNames(walk: Walk, keys: seq<string>, mr: seq<ModeratingRatio>)
    returns (names: seq<string>, sorted: seq<ModeratingRatio>)
    ensures names == WalkList(walk, keys, mr) && sorted == WalkOrder(walk, mr)
    ensures walk != ByKey ==> SortedBy(sorted, if walk == ByRatio1MeV then By1MeV else By14MeV)
    ensures multiset(sorted) == multiset(mr) && Elements(names) <= Elements(keys) + NameSet(mr)
  {
    match walk
    case ByKey =>
      names, sorted := keys, mr;
    case ByRatio1MeV =>
      sorted := SortBy(mr, By1MeV);
      SortBySorted(mr, By1MeV);
      SortKeepsNames(mr, By1MeV);
      names := Names(sorted);
    case ByRatio14MeV =>
      sorted := SortBy(mr, By14MeV);
      SortBySorted(mr, By14MeV);
      SortKeepsNames(mr, By14MeV);
      names := Names(sorted);
    assert forall n | n in names :: n in NameSet(sorted);
  }

  /** One parent of `Mat_Levy_Flights`: the walk its draw picks and the
      edit along it, with the order the records are left in. */
  function LevyOneOf(q: Parent, keys: seq<string>, dens: map<string, real>, sorted: seq<ModeratingRatio>,
                     exclude: seq<string>, draw: real, stepRow: seq<real>, resamples: seq<real>, next: nat)
    : (r: Result<(Parent, nat, seq<ModeratingRatio>)>)
    requires q.fixedMats >= 0 && next <= |resamples|
  {
    match WalkOf(draw)
    case Err(e) => Err(e)
    case Ok(w) =>
      match LevyMaterialsOf(q, WalkList(w, keys, sorted), |keys|, dens, stepRow, exclude, resamples, next)
      case Err(e) => Err(e)
      case Ok(v) => Ok((v.0, v.1, WalkOrder(w, sorted)))
  }

  /** A parent's edit along its walk moves materials only to names of the
      library or of the records, and the walk only reorders the records. */
  lemma LevyOneEdit(q: Parent, keys: seq<string>, dens: map<string, real>, sorted: seq<ModeratingRatio>,
                    exclude: seq<string>, draw: real, stepRow: seq<real>, resamples: seq<real>, next: nat)
    requires q.fixedMats >= 0 && next <= |resamples|
    ensures var r := LevyOneOf(q, keys, dens, sorted, exclude, draw, stepRow, resamples, next);
      r.Ok? ==>
        && next <= r.value.1 <= |resamples| && multiset(r.value.2) == multiset(sorted)
        && LevyEdit(q, r.value.0, Elements(keys) + NameSet(sorted), dens, exclude)
  {
    var w := WalkOf(draw);
    if w.Ok? {
      var names := WalkList(w.value, keys, sorted);
      LevyMaterialsEdit(q, names, |keys|, dens, stepRow, exclude, resamples, next);
      if w.value != ByKey {
        var key := if w.value == ByRatio1MeV then By1MeV else By14MeV;
        SortKeepsNames(sorted, key);
        assert names == Names(SortBy(sorted, key));
      }
      assert Elements(names) <= Elements(keys) + NameSet(sorted);
      var m := LevyMaterialsOf(q, names, |keys|, dens, stepRow, exclude, resamples, next);
      if m.Ok? {
        LevyEditWiden(q, m.value.0, Elements(names), Elements(keys) + NameSet(sorted), dens, exclude);
      }
    }
  }

  /** One parent of `Mat_Levy_Flights`: the walk its draw picks (sorting the
      records in place for a ratio walk) and the edit along it. `sorted` is
      a reordering of the caller's records `mr`. */
  method LevyOne(q: Parent, keys: seq<string>, dens: map<string, real>, sorted: seq<ModeratingRatio>,
                 ghost mr: seq<ModeratingRatio>, exclude: seq<string>, draw: real, stepRow: seq<real>,
                 resamples: seq<real>, next: nat)
    returns (r: Result<(Parent, nat)>, now: seq<ModeratingRatio>)
    requires q.fixedMats >= 0 && next <= |resamples| && multiset(sorted) == multiset(mr)
    ensures draw > 1.0 ==> r == Err(SystemExit(OutOfInterval))
    ensures multiset(now) == multiset(mr)
    ensures r.Err? ==> LevyOneOf(q, keys, dens, sorted, exclude, draw, stepRow, resamples, next) == Err(r.error)
    ensures r.Ok? ==> LevyOneOf(q, keys, dens, sorted, exclude, draw, stepRow, resamples, next) == Ok((r.value.0, r.value.1, now))
    ensures r.Ok? ==> next <= r.value.1 <= |resamples|
    ensures r.Ok? ==> LevyEdit(q, r.value.0, Elements(keys) + NameSet(mr), dens, exclude)
  {
    now := sorted;
    var walk := WalkOf(draw);
    if walk.Err? {
      return Err(walk.error), now;
    }
    var names;
    names, now := WalkNames(walk.value, keys, sorted);
    SameNames(sorted, mr);
    r := LevyMaterials(q, names, |keys|, dens, stepRow, exclude, resamples, next);
    LevyMaterialsEdit(q, names, |keys|, dens, stepRow, exclude, resamples, next);
    if r.Ok? {
      LevyEditWiden(q, r.value.0, Elements(names), Elements(keys) + NameSet(mr), dens, exclude);
    }
  }

  /** The designs, the next unused redraw and the record order after the
      first i parents of `Mat_Levy_Flights`: each parent takes the walk its
      draw picks from the order the one before it left, and a parent the
      draws or the Levy matrix have no entry for is an error. */
  function FlightsTo(x: seq<Parent>, keys: seq<string>, dens: map<string, real>, mr: seq<ModeratingRatio>,
                     exclude: seq<string>, walks: seq<real>, steps: seq<seq<real>>, resamples: seq<real>, i: nat)
    : (r: Result<(seq<Parent>, nat, seq<ModeratingRatio>)>)
    requires |steps| == |x| && forall k :: 0 <= k < |x| ==> x[k].fixedMats >= 0
    ensures r.Ok? ==> |r.value.0| == i <= |x| && i <= |walks| && r.value.1 <= |resamples|
    decreases i, 0
  {
    if i == 0 then Ok(([], 0, mr))
    else FlightAfter(x, keys, dens, mr, exclude, walks, steps, resamples, i - 1)
  }

  /** The state after parent i of `Mat_Levy_Flights`. */
  function FlightAfter(x: seq<Parent>, keys: seq<string>, dens: map<string, real>, mr: seq<ModeratingRatio>,
                       exclude: seq<string>, walks: seq<real>, steps: seq<seq<real>>, resamples: seq<real>, i: nat)
    : (r: Result<(seq<Parent>, nat, seq<ModeratingRatio>)>)
    requires |steps| == |x| && forall k :: 0 <= k < |x| ==> x[k].fixedMats >= 0
    ensures r.Ok? ==> |r.value.0| == i + 1 <= |x| && i + 1 <= |walks| && r.value.1 <= |resamples|
    decreases i, 1
  {
    match FlightsTo(x, keys, dens, mr, exclude, walks, steps, resamples, i)
    case Err(e) => Err(e)
    case Ok(s) =>
      if i >= |x| then Err(IndexError(OutOfRange))
      else if i >= |walks| then Err(DrawsExhausted)
      else
        match LevyOneOf(x[i], keys, dens, s.2, exclude, walks[i], steps[i], resamples, s.1)
        case Err(e) => Err(e)
        case Ok(v) => Ok((s.0 + [v.0], v.1, v.2))
  }

  /** Once a parent fails the flights stop with that error. */
  lemma {:induction false} FlightsErr(x: seq<Parent>, keys: seq<string>, dens: map<string, real>,
                                      mr: seq<ModeratingRatio>, exclude: seq<string>, walks: seq<real>,
                                      steps: seq<seq<real>>, resamples: seq<real>, i: nat, j: nat)
    requires |steps| == |x| && forall k :: 0 <= k < |x| ==> x[k].fixedMats >= 0
    requires i <= j && FlightsTo(x, keys, dens, mr, exclude, walks, steps, resamples, i).Err?
    ensures FlightsTo(x, keys, dens, mr, exclude, walks, steps, resamples, j)
      == FlightsTo(x, keys, dens, mr, exclude, walks, steps, resamples, i)
    decreases j
  {
    if j > i {
      FlightsErr(x, keys, dens, mr, exclude, walks, steps, resamples, i, j - 1);
      var e := FlightsTo(x, keys, dens, mr, exclude, walks, steps, resamples, j - 1);
      assert e.Err?;
      assert FlightAfter(x, keys, dens, mr, exclude, walks, steps, resamples, j - 1) == e;
    }
  }

  /** Appending the edit of the next parent keeps every design an edit of
      its parent. */
  lemma EditsAppend(x: seq<Parent>, ds: seq<Parent>, d: Parent, catalogue: set<string>, dens: map<string, real>,
                    exclude: seq<string>)
    requires |ds| < |x|
    requires forall k :: 0 <= k < |ds| ==> LevyEdit(x[k], ds[k], catalogue, dens, exclude)
    requires LevyEdit(x[|ds|], d, catalogue, dens, exclude)
    ensures forall k :: 0 <= k < |ds| + 1 ==> LevyEdit(x[k], (ds + [d])[k], catalogue, dens, exclude)
  {
    forall k | 0 <= k < |ds| + 1
      ensures LevyEdit(x[k], (ds + [d])[k], catalogue, dens, exclude)
    {
      if k < |ds| {
        assert (ds + [d])[k] == ds[k];
      }
    }
  }

  /** One more parent keeps every design an edit of its parent and the
      records a reordering of `mr`. */
  lemma FlightAfterEdit(x: seq<Parent>, keys: seq<string>, dens: map<string, real>, mr: seq<ModeratingRatio>,
                        exclude: seq<string>, walks: seq<real>, steps: seq<seq<real>>, resamples: seq<real>, i: nat,
                        ds: seq<Parent>, next: nat, order: seq<ModeratingRatio>)
    requires |steps| == |x| && forall k :: 0 <= k < |x| ==> x[k].fixedMats >= 0
    requires FlightsTo(x, keys, dens, mr, exclude, walks, steps, resamples, i) == Ok((ds, next, order))
    requires multiset(order) == multiset(mr)
    requires forall k :: 0 <= k < i ==> LevyEdit(x[k], ds[k], Elements(keys) + NameSet(mr), dens, exclude)
    ensures var f := FlightAfter(x, keys, dens, mr, exclude, walks, steps, resamples, i);
      f.Ok? ==>
        && multiset(f.value.2) == multiset(mr)
        && forall k :: 0 <= k < i + 1 ==> LevyEdit(x[k], f.value.0[k], Elements(keys) + NameSet(mr), dens, exclude)
  {
    if i < |x| && i < |walks| {
      LevyOneEdit(x[i], keys, dens, order, exclude, walks[i], steps[i], resamples, next);
      SameNames(order, mr);
      var v := LevyOneOf(x[i], keys, dens, order, exclude, walks[i], steps[i], resamples, next);
      if v.Ok? {
        assert FlightAfter(x, keys, dens, mr, exclude, walks, steps, resamples, i)
          == Ok((ds + [v.value.0], v.value.1, v.value.2));
        EditsAppend(x, ds, v.value.0, Elements(keys) + NameSet(mr), dens, exclude);
      }
    }
  }

  /** Every design of the flights is an edit of its parent into the names
      of the library or of the records, and the records are only ever
      reordered. */
  lemma {:induction false} FlightsEdit(x: seq<Parent>, keys: seq<string>, dens: map<string, real>,
                                       mr: seq<ModeratingRatio>, exclude: seq<string>, walks: seq<real>,
                                       steps: seq<seq<real>>, resamples: seq<real>, i: nat)
    requires |steps| == |x| && forall k :: 0 <= k < |x| ==> x[k].fixedMats >= 0
    ensures var f := FlightsTo(x, keys, dens, mr, exclude, walks, steps, resamples, i);
      f.Ok? ==>
        && multiset(f.value.2) == multiset(mr)
        && forall k :: 0 <= k < i ==> LevyEdit(x[k], f.value.0[k], Elements(keys) + NameSet(mr), dens, exclude)
  {
    if i > 0 {
      FlightsEdit(x, keys, dens, mr, exclude, walks, steps, resamples, i - 1);
      var s := FlightsTo(x, keys, dens, mr, exclude, walks, steps, resamples, i - 1);
      if s.Ok? {
        FlightAfterEdit(x, keys, dens, mr, exclude, walks, steps, resamples, i - 1, s.value.0, s.value.1, s.value.2);
      }
    }
  }

  /** Parent i of `Mat_Levy_Flights`, from the designs, the redraw and the
      record order the parents before it left. On an error `now` is the
      order the records were left in. */
  method LevyParent(x: seq<Parent>, keys: seq<string>, dens: map<string, real>, mr: seq<ModeratingRatio>,
                    exclude: seq<string>, walks: seq<real>, steps: seq<seq<real>>, resamples: seq<real>, i: nat,
                    ds: seq<Parent>, next: nat, sorted: seq<ModeratingRatio>)
    returns (r: Result<(seq<Parent>, nat, seq<ModeratingRatio>)>, now: seq<ModeratingRatio>)
    requires |steps| == |x| && forall k :: 0 <= k < |x| ==> x[k].fixedMats >= 0
    requires FlightsTo(x, keys, dens, mr, exclude, walks, steps, resamples, i) == Ok((ds, next, sorted))
    requires multiset(sorted) == multiset(mr)
    ensures r == FlightAfter(x, keys, dens, mr, exclude, walks, steps, resamples, i)
    ensures multiset(now) == multiset(mr) && (r.Ok? ==> now == r.value.2)
  {
    now := sorted;
    if i >= |x| {
      return Err(IndexError(OutOfRange)), now;
    }
    if i >= |walks| {
      return Err(DrawsExhausted), now;
    }
    var one;
    one, now := LevyOne(x[i], keys, dens, sorted, mr, exclude, walks[i], steps[i], resamples, next);
    if one.Err? {
      return Err(one.error), now;
    }
    return Ok((ds + [one.value.0], one.value.1, now)), now;
  }

  /** The loop of `Mat_Levy_Flights` over its first `count` parents. */
  method LevyParents(x: seq<Parent>, keys: seq<string>, dens: map<string, real>, mr: seq<ModeratingRatio>,
                     exclude: seq<string>, walks: seq<real>, steps: seq<seq<real>>, resamples: seq<real>, count: nat)
    returns (r: Result<seq<Parent>>, sorted: seq<ModeratingRatio>)
    requires |steps| == |x| && forall k :: 0 <= k < |x| ==> x[k].fixedMats >= 0
    ensures var f := FlightsTo(x, keys, dens, mr, exclude, walks, steps, resamples, count);
      && (f.Err? ==> r == Err(f.error))
      && (f.Ok? ==> r == Ok(f.value.0) && sorted == f.value.2)
    ensures multiset(sorted) == multiset(mr)
  {
    sorted := mr;
    var tmp: seq<Parent> := [];
    var next: nat := 0;
    for i := 0 to count
      invariant multiset(sorted) == multiset(mr)
      invariant FlightsTo(x, keys, dens, mr, exclude, walks, steps, resamples, i) == Ok((tmp, next, sorted))
    {
      var step, now := LevyParent(x, keys, dens, mr, exclude, walks, steps, resamples, i, tmp, next, sorted);
      if step.Err? {
        FlightsErr(x, keys, dens, mr, exclude, walks, steps, resamples, i + 1, count);
        return Err(step.error), now;
      }
      tmp, next, sorted := step.value.0, step.value.1, step.value.2;
    }
    return Ok(tmp), sorted;
  }

  /** `Mat_Levy_Flights`: copies of the first int(fl * p) parents, each with
      the materials between its fixed ones and its fill moved by a Levy
      step along the walk its draw in `walks` picks. `steps` is the Levy
      matrix (one row per parent, one column per movable material of the
      longest list), `resamples` the entries that redraws take in turn. The
      records `mr` come back in the order the last walk sorted them. The
      debug line after the draw formats `1.0/S.sf`, so sf = 0 fails there. */
  method MatLevyFlights(x: seq<Parent>, keys: seq<string>, dens: map<string, real>, mr: seq<ModeratingRatio>,
                        exclude: seq<string>, fl: real, p: int, sf: real, alpha: real, gamma: real, n: int,
                        walks: seq<real>, steps: seq<seq<real>>, resamples: seq<real>)
    returns (r: Result<seq<Parent>>, sorted: seq<ModeratingRatio>)
    requires forall k :: 0 <= k < |x| ==> x[k].fixedMats >= 0
    ensures !(0.0 <= fl <= 1.0) ==> r == Err(AssertionError(FlRange))
    ensures 0.0 <= fl <= 1.0 && x == [] ==> r == Err(ValueError(EmptyMax))
    ensures 0.0 <= fl <= 1.0 && x != [] ==>
      var shape := LevyFlight.LevyShape(MaxMatls(x) - x[|x| - 1].fixedMats + 1, |x|, alpha, gamma, n);
      && (shape.Err? ==> r == Err(shape.error))
      && (shape.Ok? && sf == 0.0 ==> r == Err(ZeroDivisionError))
      && (shape.Ok? && sf != 0.0 && |steps| != |x| ==> r == Err(DrawsExhausted))
      && (shape.Ok? && sf != 0.0 && |steps| == |x| ==>
            var f := FlightsTo(x, keys, dens, mr, exclude, walks, steps, resamples, CellSearch.Draws(fl, p));
            && (f.Err? ==> r == Err(f.error))
            && (f.Ok? ==> r == Ok(f.value.0) && sorted == f.value.2))
    ensures r.Ok? ==> |r.value| == CellSearch.Draws(fl, p) && forall k :: 0 <= k < |r.value| ==>
      LevyEdit(x[k], r.value[k], Elements(keys) + NameSet(mr), dens, exclude)
    ensures multiset(sorted) == multiset(mr)
  {
    sorted := mr;
    if !(0.0 <= fl <= 1.0) {
      return Err(AssertionError(FlRange)), sorted;
    }
    if x == [] {
      return Err(ValueError(EmptyMax)), sorted;
    }
    var shape := LevyFlight.LevyShape(MaxMatls(x) - x[|x| - 1].fixedMats + 1, |x|, alpha, gamma, n);
    if shape.Err? {
      return Err(shape.error), sorted;
    }
    if sf == 0.0 {
      return Err(ZeroDivisionError), sorted;
    }
    if |steps| != |x| {
      return Err(DrawsExhausted), sorted;
    }
    var count := CellSearch.Draws(fl, p);
    r, sorted := LevyParents(x, keys, dens, mr, exclude, walks, steps, resamples, count);
    FlightsEdit(x, keys, dens, mr, exclude, walks, steps, resamples, count);
  }

  // ---------------------------------------------------------------------------
  // Elite_Crossover
  // ---------------------------------------------------------------------------

  /** `next((item for item in mr if item.name == key), -1)`: the first record
      with that name; None stands for the -1. */
  function RatioOf(mr: seq<ModeratingRatio>, key: string): (r: Option<ModeratingRatio>)
    ensures r.Some? ==> r.value in mr && r.value.name == key
    ensures r.None? <==> key !in NameSet(mr)
  {
    if mr == [] then None
    else if mr[0].name == key then Some(mr[0])
    else
      assert NameSet(mr) == {mr[0].name} + NameSet(mr[1..]) by {
        assert mr == [mr[0]] + mr[1..];
      }
      RatioOf(mr[1..], key)
  }

  /** The 'vert' and 'horiz' cells, in order. */
  function Layers(cells: seq<Cell>): (r: seq<Cell>)
    ensures |r| <= |cells|
  {
    if cells == [] then []
    else Layers(cells[..|cells| - 1]) + (if IsLayer(cells[|cells| - 1]) then [cells[|cells| - 1]] else [])
  }

  /** The material keys of a design's layer cells, `matls[c.m - 1]` with
      Python's indexing, and the moderating-ratio record of each. */
  method LayerRatios(q: Parent, mr: seq<ModeratingRatio>)
    returns (r: Result<(seq<string>, seq<Option<ModeratingRatio>>)>)
    ensures r.Ok? <==> forall c :: 0 <= c < |q.cells| && IsLayer(q.cells[c]) ==> ValidIndex(q.cells[c].m - 1, |q.matls|)
    ensures r.Err? ==> r.error == IndexError(OutOfRange)
    ensures r.Ok? ==> |r.value.0| == |r.value.1| == |Layers(q.cells)|
    ensures r.Ok? ==> forall k :: 0 <= k < |r.value.0| ==>
      ValidIndex(Layers(q.cells)[k].m - 1, |q.matls|)
      && r.value.0[k] == q.matls[PyIdx(Layers(q.cells)[k].m - 1, |q.matls|)]
      && r.value.1[k] == RatioOf(mr, r.value.0[k])
    ensures r.Ok? ==> LayersIndexed(q) && r.value.0 == LayerKeys(q) && r.value.1 == LayerRecords(q, mr)
  {
    var keys: seq<string> := [];
    var ratios: seq<Option<ModeratingRatio>> := [];
    for i := 0 to |q.cells|
      invariant |keys| == |ratios| == |Layers(q.cells[..i])|
      invariant forall c :: 0 <= c < i && IsLayer(q.cells[c]) ==> ValidIndex(q.cells[c].m - 1, |q.matls|)
      invariant forall k :: 0 <= k < |keys| ==>
        ValidIndex(Layers(q.cells[..i])[k].m - 1, |q.matls|)
        && keys[k] == q.matls[PyIdx(Layers(q.cells[..i])[k].m - 1, |q.matls|)]
        && ratios[k] == RatioOf(mr, keys[k])
    {
      assert q.cells[..i + 1][..i] == q.cells[..i];
      var c := q.cells[i];
      if IsLayer(c) {
        if !ValidIndex(c.m - 1, |q.matls|) {
          return Err(IndexError(OutOfRange));
        }
        var key := q.matls[PyIdx(c.m - 1, |q.matls|)];
        keys := keys + [key];
        ratios := ratios + [RatioOf(mr, key)];
      }
    }
    assert q.cells[..|q.cells|] == q.cells;
    assert keys == LayerKeys(q);
    return Ok((keys, ratios));
  }

  /** The golden ratio (1 + sqrt 5) / 2: the positive root of x * x = x + 1. */
  predicate Golden(phi: real)
  {
    phi > 0.0 && phi * phi == phi + 1.0
  }

  /** `t + (r - t) / golden_ratio`: a step from t towards r. */
  function Blend(t: real, r: real, phi: real): real
    requires phi != 0.0
  {
    t + (r - t) / phi
  }

  /** The blended ratio lies between the two ratios it blends. */
  lemma BlendBetween(t: real, r: real, phi: real)
    requires Golden(phi)
    ensures t <= r ==> t <= Blend(t, r, phi) <= r
    ensures r <= t ==> r <= Blend(t, r, phi) <= t
  {
    assert phi * (phi - 1.0) == 1.0;
    var q := (r - t) / phi;
    assert q * phi == r - t;
    if t <= r {
      assert 0.0 <= q;
      assert q <= q * phi;
    } else {
      assert q <= 0.0;
      assert q * phi <= q;
    }
  }

  /** The position at which `j = 0; while key(mr[j]) < v: j += 1` stops:
      the first record whose key reaches v, or |mr| when none does. */
  function FirstAtLeast(mr: seq<ModeratingRatio>, key: ModeratingRatio -> real, v: real): (r: nat)
    ensures r <= |mr|
    ensures forall k :: 0 <= k < r ==> key(mr[k]) < v
    ensures r < |mr| ==> key(mr[r]) >= v
  {
    if mr == [] then 0
    else if key(mr[0]) >= v then 0
    else 1 + FirstAtLeast(mr[1..], key, v)
  }

  /** The record the scan settles on: the one it stopped at, or the one
      before it (`mr[j-1]`, the last record when j is 0) when that is
      strictly nearer to v. */
  function NearestIndex(mr: seq<ModeratingRatio>, key: ModeratingRatio -> real, v: real): (r: int)
    requires FirstAtLeast(mr, key, v) < |mr|
    ensures ValidIndex(r, |mr|) && -1 <= r
  {
    var j := FirstAtLeast(mr, key, v);
    if Abs(v - key(mr[j])) <= Abs(v - key(mr[PyIdx(j - 1, |mr|)])) then j else j - 1
  }

  /** The scan of `Elite_Crossover` for the record nearest to the blended
      ratio v, on the records sorted by `key`; it runs off the end (an
      IndexError) exactly when no record reaches v. */
  method Nearest(mr: seq<ModeratingRatio>, key: ModeratingRatio -> real, v: real) returns (r: Result<int>)
    ensures r.Ok? <==> exists k :: 0 <= k < |mr| && key(mr[k]) >= v
    ensures r.Ok? ==> FirstAtLeast(mr, key, v) < |mr| && r.value == NearestIndex(mr, key, v)
    ensures r.Err? ==> r.error == IndexError(OutOfRange)
  {
    var j := 0;
    while true
      invariant 0 <= j <= |mr| && j <= FirstAtLeast(mr, key, v)
      decreases |mr| - j
    {
      if j == |mr| {
        return Err(IndexError(OutOfRange));
      }
      if key(mr[j]) >= v {
        break;
      }
      j := j + 1;
    }
    assert key(mr[j]) >= v;
    if Abs(v - key(mr[j])) <= Abs(v - key(mr[PyIdx(j - 1, |mr|)])) {
      return Ok(j);
    }
    return Ok(j - 1);
  }

  /** On sorted records the scan finds a record nearest to v: no record's key
      is closer. */
  lemma NearestClosest(mr: seq<ModeratingRatio>, key: ModeratingRatio -> real, v: real, k: nat)
    requires SortedBy(mr, key) && FirstAtLeast(mr, key, v) < |mr| && k < |mr|
    ensures Abs(v - key(mr[PyIdx(NearestIndex(mr, key, v), |mr|)])) <= Abs(v - key(mr[k]))
  {
    var j := FirstAtLeast(mr, key, v);
    if j == 0 {
      assert key(mr[0]) <= key(mr[|mr| - 1]);
    } else {
      assert key(mr[j - 1]) < v;
      if k < j {
        assert key(mr[k]) <= key(mr[j - 1]);
      } else {
        assert key(mr[j]) <= key(mr[k]);
      }
    }
  }

  /** When the blended ratio comes from the ratios of two records of the
      list, some record reaches it, so the scan stays in range. */
  lemma BlendReached(mr: seq<ModeratingRatio>, key: ModeratingRatio -> real, a: ModeratingRatio, b: ModeratingRatio, phi: real)
    requires Golden(phi) && a in mr && b in mr
    ensures exists k :: 0 <= k < |mr| && key(mr[k]) >= Blend(key(a), key(b), phi)
  {
    BlendBetween(key(a), key(b), phi);
    if key(a) <= key(b) {
      var k :| 0 <= k < |mr| && mr[k] == b;
      assert key(mr[k]) >= Blend(key(a), key(b), phi);
    } else {
      var k :| 0 <= k < |mr| && mr[k] == a;
      assert key(mr[k]) >= Blend(key(a), key(b), phi);
    }
  }

  /** The exclusion walk from position pos after t moves: the name there
      when it is not excluded, a step to the next record (wrapping round to
      the first) otherwise, and no end once every record has been tried. */
  function SkipFrom(mr: seq<ModeratingRatio>, pos: int, exclude: seq<string>, t: nat): (r: Result<(string, int)>)
    requires -1 <= pos < |mr| && t < |mr|
    decreases |mr| - t
  {
    var name := mr[PyIdx(pos, |mr|)].name;
    if name !in exclude then Ok((name, pos))
    else if t == |mr| - 1 then Err(Diverges)
    else SkipFrom(mr, if pos + 1 < |mr| then pos + 1 else 0, exclude, t + 1)
  }

  /** The exclusion walk `while new_mat[-1] in exclude:` that moves on to
      `mr[j+1]`, wrapping round to `mr[0]`, starting at the record j (-1 is
      the last one). It never ends when every record is excluded. */
  method SkipExcluded(mr: seq<ModeratingRatio>, j: int, exclude: seq<string>) returns (r: Result<(string, int)>)
    requires -1 <= j < |mr| && |mr| > 0
    ensures r.Ok? ==> ValidIndex(r.value.1, |mr|) && r.value.0 == mr[PyIdx(r.value.1, |mr|)].name && r.value.0 !in exclude
    ensures mr[PyIdx(j, |mr|)].name !in exclude ==> r == Ok((mr[PyIdx(j, |mr|)].name, j))
    ensures r.Err? ==> r.error == Diverges && forall k :: 0 <= k < |mr| ==> mr[k].name in exclude
    ensures r == SkipFrom(mr, j, exclude, 0)
  {
    var n := |mr|;
    var s0 := PyIdx(j, n);
    var pos := j;
    var t := 0;
    while mr[PyIdx(pos, n)].name in exclude
      invariant 0 <= t < n && -1 <= pos < n
      invariant PyIdx(pos, n) == if s0 + t < n then s0 + t else s0 + t - n
      invariant t == 0 ==> pos == j
      invariant forall k :: 0 <= k < n && (s0 <= k < s0 + t || k < s0 + t - n) ==> mr[k].name in exclude
      invariant SkipFrom(mr, pos, exclude, t) == SkipFrom(mr, j, exclude, 0)
      decreases n - t
    {
      if t == n - 1 {
        return Err(Diverges);
      }
      if pos + 1 < n {
        pos := pos + 1;
      } else {
        pos := 0;
      }
      t := t + 1;
    }
    return Ok((mr[PyIdx(pos, n)].name, pos));
  }

  /** The ratio key and the attribute a missing record reports for the
      draw p: the 1 MeV ratio when p <= 0.5, the 14 MeV one otherwise. */
  function EnergyKey(p: real): ModeratingRatio -> real
  {
    if p <= 0.5 then By1MeV else By14MeV
  }

  function NoRatio(p: real): string
  {
    if p <= 0.5 then NoRatio1MeV else NoRatio14MeV
  }

  /** On the records sorted by the draw's energy, the scan for the blend of
      two listed records' ratios stops inside the list. */
  lemma EliteScanInRange(t: ModeratingRatio, u: ModeratingRatio, sorted: seq<ModeratingRatio>, p: real, phi: real)
    requires Golden(phi) && t in sorted && u in sorted
    ensures var key := EnergyKey(p);
      FirstAtLeast(SortBy(sorted, key), key, Blend(key(t), key(u), phi)) < |sorted|
  {
    var key := EnergyKey(p);
    var now := SortBy(sorted, key);
    assert t in multiset(now) && u in multiset(now);
    BlendReached(now, key, t, u, phi);
  }

  /** The new material `Elite_Crossover` picks for one layer whose best and
      partner records are t and u: the blend of their ratios at the draw's
      energy, the record nearest to it in the records sorted by that energy,
      and the exclusion walk from there. */
  function EliteName(t: ModeratingRatio, u: ModeratingRatio, sorted: seq<ModeratingRatio>, p: real, phi: real,
                     exclude: seq<string>): (r: Result<string>)
    requires Golden(phi) && t in sorted && u in sorted
  {
    var key := EnergyKey(p);
    var now := SortBy(sorted, key);
    EliteScanInRange(t, u, sorted, p, phi);
    match SkipFrom(now, NearestIndex(now, key, Blend(key(t), key(u), phi)), exclude, 0)
    case Err(e) => Err(e)
    case Ok(v) => Ok(v.0)
  }

  /** Sorting the records before the pick changes nothing: the pick sorts
      them by the same energy. */
  lemma EliteNameResorted(t: ModeratingRatio, u: ModeratingRatio, mr: seq<ModeratingRatio>, p: real, phi: real,
                          exclude: seq<string>)
    requires Golden(phi) && t in mr && u in mr
    ensures t in SortBy(mr, EnergyKey(p)) && u in SortBy(mr, EnergyKey(p))
    ensures EliteName(t, u, SortBy(mr, EnergyKey(p)), p, phi, exclude) == EliteName(t, u, mr, p, phi, exclude)
  {
    var key := EnergyKey(p);
    assert t in multiset(SortBy(mr, key)) && u in multiset(SortBy(mr, key));
    SortBySorted(mr, key);
    SortBySortedFixed(SortBy(mr, key), key);
  }

  /** One new material of `Elite_Crossover`: the records sorted in place by
      the draw's energy, the record nearest to the blend of the two parents'
      ratios, and the exclusion walk from there. */
  method EliteMaterial(t: ModeratingRatio, u: ModeratingRatio, sorted: seq<ModeratingRatio>,
                       ghost mr: seq<ModeratingRatio>, p: real, phi: real, exclude: seq<string>)
    returns (r: Result<string>, now: seq<ModeratingRatio>)
    requires Golden(phi) && t in sorted && u in sorted && multiset(sorted) == multiset(mr)
    ensures now == SortBy(sorted, EnergyKey(p)) && multiset(now) == multiset(mr)
    ensures r == EliteName(t, u, sorted, p, phi, exclude)
    ensures r.Ok? ==> r.value in NameSet(mr) && r.value !in exclude
    ensures r.Err? ==> r.error == Diverges && forall m :: m in mr ==> m.name in exclude
  {
    var key := EnergyKey(p);
    now := SortBy(sorted, key);
    EliteScanInRange(t, u, sorted, p, phi);
    var j := Nearest(now, key, Blend(key(t), key(u), phi));
    var pick := SkipExcluded(now, j.value, exclude);
    if pick.Err? {
      forall m | m in mr ensures m.name in exclude {
        assert m in multiset(now);
      }
      return Err(pick.error), now;
    }
    assert now[PyIdx(pick.value.1, |now|)] in multiset(mr);
    return Ok(pick.value.0), now;
  }

  /** `name` is the material `Elite_Crossover` picks for a layer whose best
      and partner records are t and u, with the records in the order `mr`. */
  predicate EliteOne(t: Option<ModeratingRatio>, u: Option<ModeratingRatio>, mr: seq<ModeratingRatio>, p: real,
                     phi: real, exclude: seq<string>, name: string)
  {
    && Golden(phi) && t.Some? && u.Some? && t.value in mr && u.value in mr
    && EliteName(t.value, u.value, mr, p, phi, exclude) == Ok(name)
  }

  /** Appending the pick for the next layer keeps every pick the elite one. */
  lemma ElitesAppend(tRatios: seq<Option<ModeratingRatio>>, rRatios: seq<Option<ModeratingRatio>>,
                     mr: seq<ModeratingRatio>, p: real, phi: real, exclude: seq<string>, names: seq<string>, name: string)
    requires |names| < |tRatios| && |names| < |rRatios|
    requires forall k {:trigger EliteOne(tRatios[k], rRatios[k], mr, p, phi, exclude, names[k])} ::
      0 <= k < |names| ==> EliteOne(tRatios[k], rRatios[k], mr, p, phi, exclude, names[k])
    requires forall k :: 0 <= k < |names| ==> names[k] in NameSet(mr) && names[k] !in exclude
    requires EliteOne(tRatios[|names|], rRatios[|names|], mr, p, phi, exclude, name)
    requires name in NameSet(mr) && name !in exclude
    ensures var now := names + [name];
      && (forall k {:trigger EliteOne(tRatios[k], rRatios[k], mr, p, phi, exclude, now[k])} ::
            0 <= k < |now| ==> EliteOne(tRatios[k], rRatios[k], mr, p, phi, exclude, now[k]))
      && (forall k :: 0 <= k < |now| ==> now[k] in NameSet(mr) && now[k] !in exclude)
  {
    var now := names + [name];
    forall k | 0 <= k < |now|
      ensures EliteOne(tRatios[k], rRatios[k], mr, p, phi, exclude, now[k])
      ensures now[k] in NameSet(mr) && now[k] !in exclude
    {
      if k < |names| {
        assert now[k] == names[k];
      }
    }
  }

  /** The materials `Elite_Crossover` computes, one per layer of the best
      design: `t_ratios` and `r_ratios` are the records of the best and the
      partner design's layer materials (None where a material has none), p
      the draw choosing the energy. Layer k gets the pick for its two
      records; since every layer sorts the records by the same energy, that
      is the pick with the records in the caller's order. The records come
      back sorted by that energy once there is a layer. The nearest-ratio
      scan never runs off the end, so an IndexError only comes from a
      partner with fewer layers or a draw above 1. */
  method EliteMaterials(tRatios: seq<Option<ModeratingRatio>>, rRatios: seq<Option<ModeratingRatio>>,
                        mr: seq<ModeratingRatio>, p: real, phi: real, exclude: seq<string>)
    returns (r: Result<seq<string>>, sorted: seq<ModeratingRatio>)
    requires Golden(phi)
    requires forall k :: 0 <= k < |tRatios| && tRatios[k].Some? ==> tRatios[k].value in mr
    requires forall k :: 0 <= k < |rRatios| && rRatios[k].Some? ==> rRatios[k].value in mr
    ensures multiset(sorted) == multiset(mr)
    ensures r.Ok? ==> |r.value| == |tRatios| <= |rRatios|
    ensures r.Ok? ==> forall k {:trigger EliteOne(tRatios[k], rRatios[k], mr, p, phi, exclude, r.value[k])} ::
      0 <= k < |r.value| ==> EliteOne(tRatios[k], rRatios[k], mr, p, phi, exclude, r.value[k])
    ensures r.Ok? ==> forall k :: 0 <= k < |r.value| ==> r.value[k] in NameSet(mr) && r.value[k] !in exclude
    ensures r.Ok? ==> sorted == if tRatios == [] then mr else SortBy(mr, EnergyKey(p))
    ensures r.Err? ==>
      || (tRatios != [] && 1.0 < p) || |rRatios| < |tRatios|
      || exists k :: 0 <= k < |tRatios| && k < |rRatios| && (tRatios[k].None? || rRatios[k].None? ||
           EliteName(tRatios[k].value, rRatios[k].value, mr, p, phi, exclude).Err?)
    ensures r.Err? && r.error.IndexError? ==> 1.0 < p || |rRatios| < |tRatios|
    ensures r.Err? ==> r.error.IndexError? || r.error == AttributeError(NoRatio(p)) || r.error == Diverges
    ensures r.Err? && r.error == Diverges ==> forall m :: m in mr ==> m.name in exclude
  {
    sorted := mr;
    var newMat: seq<string> := [];
    for i := 0 to |tRatios|
      invariant |newMat| == i && multiset(sorted) == multiset(mr)
      invariant sorted == if i == 0 then mr else SortBy(mr, EnergyKey(p))
      invariant i <= |rRatios| || i == 0
      invariant forall k {:trigger EliteOne(tRatios[k], rRatios[k], mr, p, phi, exclude, newMat[k])} ::
        0 <= k < i ==> EliteOne(tRatios[k], rRatios[k], mr, p, phi, exclude, newMat[k])
      invariant forall k :: 0 <= k < i ==> newMat[k] in NameSet(mr) && newMat[k] !in exclude
    {
      var name;
      name, sorted := EliteLayer(tRatios, rRatios, mr, p, phi, exclude, i, sorted);
      if name.Err? {
        return Err(name.error), sorted;
      }
      ElitesAppend(tRatios, rRatios, mr, p, phi, exclude, newMat, name.value);
      newMat := newMat + [name.value];
    }
    return Ok(newMat), sorted;
  }

  /** Layer i of `Elite_Crossover`'s loop, with the records in the order
      the layers before it left. */
  method EliteLayer(tRatios: seq<Option<ModeratingRatio>>, rRatios: seq<Option<ModeratingRatio>>,
                    mr: seq<ModeratingRatio>, p: real, phi: real, exclude: seq<string>, i: nat,
                    sorted: seq<ModeratingRatio>)
    returns (r: Result<string>, now: seq<ModeratingRatio>)
    requires Golden(phi) && i < |tRatios|
    requires forall k :: 0 <= k < |tRatios| && tRatios[k].Some? ==> tRatios[k].value in mr
    requires forall k :: 0 <= k < |rRatios| && rRatios[k].Some? ==> rRatios[k].value in mr
    requires sorted == mr || sorted == SortBy(mr, EnergyKey(p))
    ensures multiset(now) == multiset(mr)
    ensures r.Ok? ==> i < |rRatios| && EliteOne(tRatios[i], rRatios[i], mr, p, phi, exclude, r.value)
    ensures r.Ok? ==> r.value in NameSet(mr) && r.value !in exclude && now == SortBy(mr, EnergyKey(p))
    ensures r.Err? ==>
      || 1.0 < p || |rRatios| <= i || tRatios[i].None? || rRatios[i].None?
      || EliteName(tRatios[i].value, rRatios[i].value, mr, p, phi, exclude).Err?
    ensures r.Err? && r.error.IndexError? ==> 1.0 < p || |rRatios| <= i
    ensures r.Err? ==> r.error.IndexError? || r.error == AttributeError(NoRatio(p)) || r.error == Diverges
    ensures r.Err? && r.error == Diverges ==> forall m :: m in mr ==> m.name in exclude
  {
    now := sorted;
    if 1.0 < p {
      return Err(IndexError(OutOfRange)), now;
    }
    if tRatios[i].None? {
      return Err(AttributeError(NoRatio(p))), now;
    }
    if i >= |rRatios| {
      return Err(IndexError(OutOfRange)), now;
    }
    if rRatios[i].None? {
      return Err(AttributeError(NoRatio(p))), now;
    }
    var t, u := tRatios[i].value, rRatios[i].value;
    EliteNameResorted(t, u, mr, p, phi, exclude);
    r, now := EliteMaterial(t, u, sorted, mr, p, phi, exclude);
    SortBySorted(mr, EnergyKey(p));
    SortBySortedFixed(SortBy(mr, EnergyKey(p)), EnergyKey(p));
  }

  /** What the write-back of `Elite_Crossover` leaves: every layer cell is
      made of a listed material from `allowed`, not excluded, and has that
      material's density. */
  predicate LayersUse(q: Parent, allowed: set<string>, exclude: seq<string>, dens: map<string, real>)
  {
    forall c :: 0 <= c < |q.cells| && IsLayer(q.cells[c]) ==>
      && 1 <= q.cells[c].m <= |q.matls|
      && q.matls[q.cells[c].m - 1] in allowed && q.matls[q.cells[c].m - 1] !in exclude
      && q.matls[q.cells[c].m - 1] in dens && q.cells[c].d == dens[q.matls[q.cells[c].m - 1]]
  }

  /** The cells of the write-back of `Elite_Crossover` after its first i
      cells: only material numbers and densities change, only in the first
      i cells, and only in layer and 'eta fill' cells. */
  predicate CellsShaped(q: Parent, i: nat, cells: seq<Cell>)
  {
    && i <= |q.cells| && |cells| == |q.cells|
    && (forall c :: 0 <= c < |q.cells| ==> cells[c] == q.cells[c].(m := cells[c].m, d := cells[c].d))
    && (forall c :: i <= c < |q.cells| ==> cells[c] == q.cells[c])
    && (forall c :: 0 <= c < |q.cells| && !IsLayer(q.cells[c]) && q.cells[c].kind != FillCell ==> cells[c] == q.cells[c])
  }

  /** A rewritten 'eta fill' cell has the fill material's density. */
  predicate FillsWritten(q: Parent, dens: map<string, real>, fill: string, cells: seq<Cell>)
    requires |cells| == |q.cells|
  {
    forall c :: 0 <= c < |q.cells| && q.cells[c].kind == FillCell && cells[c] != q.cells[c] ==>
      fill in dens && cells[c].d == dens[fill]
  }

  /** The material list of the write-back, j being the next position: the
      materials before `fixed_mats` are kept and positions `fixed_mats` to
      j - 1 hold the new materials in order. */
  predicate MatlsWritten(q: Parent, newMat: seq<string>, matls: seq<string>, j: int)
  {
    && 0 <= q.fixedMats <= j && |q.matls| <= |matls| && j - q.fixedMats <= |newMat|
    && (q.fixedMats <= |q.matls| ==> j <= |matls|)
    && (forall k :: 0 <= k < |q.matls| && k < q.fixedMats ==> matls[k] == q.matls[k])
    && (q.fixedMats <= |q.matls| ==> forall k :: q.fixedMats <= k < j ==> matls[k] == newMat[k - q.fixedMats])
  }

  /** The n-th layer cell among the first i takes material number
      `fixed_mats + n + 1`, and j counts the layer cells seen. */
  predicate LayersNumbered(q: Parent, i: nat, cells: seq<Cell>, j: int)
    requires i <= |q.cells| && |cells| == |q.cells|
  {
    && j == q.fixedMats + |Layers(q.cells[..i])|
    && (forall c :: 0 <= c < i && IsLayer(q.cells[c]) ==> cells[c].m == q.fixedMats + 1 + |Layers(q.cells[..c])|)
  }

  /** Each layer cell among the first i has one of the new materials
      written so far and that material's density. */
  predicate LayersDense(q: Parent, newMat: seq<string>, dens: map<string, real>, i: nat, cells: seq<Cell>, j: int)
    requires i <= |q.cells| && |cells| == |q.cells|
  {
    q.fixedMats <= |q.matls| ==> forall c :: 0 <= c < i && IsLayer(q.cells[c]) ==>
      && q.fixedMats < cells[c].m <= j && cells[c].m - 1 - q.fixedMats < |newMat|
      && newMat[cells[c].m - 1 - q.fixedMats] in dens
      && cells[c].d == dens[newMat[cells[c].m - 1 - q.fixedMats]]
  }

  /** The state of the write-back after its first i cells. */
  predicate EliteWritten(q: Parent, newMat: seq<string>, dens: map<string, real>, fill: string, i: nat,
                         matls: seq<string>, cells: seq<Cell>, j: int)
  {
    && CellsShaped(q, i, cells) && FillsWritten(q, dens, fill, cells) && MatlsWritten(q, newMat, matls, j)
    && LayersNumbered(q, i, cells, j) && LayersDense(q, newMat, dens, i, cells, j)
  }

  /** Rewriting cell i, a layer or 'eta fill' cell, keeps the cells' shape. */
  lemma CellsShapedStep(q: Parent, i: nat, cells: seq<Cell>, m: int, d: real)
    requires CellsShaped(q, i, cells) && i < |q.cells| && (IsLayer(q.cells[i]) || q.cells[i].kind == FillCell)
    ensures CellsShaped(q, i + 1, cells[i := cells[i].(m := m, d := d)])
  {
  }

  lemma LayersNumberedStep(q: Parent, i: nat, cells: seq<Cell>, j: int, d: real)
    requires CellsShaped(q, i, cells) && i < |q.cells| && LayersNumbered(q, i, cells, j)
    ensures IsLayer(q.cells[i]) ==>
      LayersNumbered(q, i + 1, cells[i := cells[i].(m := j + 1, d := d)], j + 1)
    ensures !IsLayer(q.cells[i]) ==> LayersNumbered(q, i + 1, cells[i := cells[i].(d := d)], j)
    ensures !IsLayer(q.cells[i]) ==> LayersNumbered(q, i + 1, cells[i := cells[i].(m := j + 1, d := d)], j)
  {
    assert q.cells[..i + 1][..i] == q.cells[..i];
  }

  lemma LayersDenseStep(q: Parent, newMat: seq<string>, dens: map<string, real>, i: nat, cells: seq<Cell>, j: int)
    requires CellsShaped(q, i, cells) && i < |q.cells| && LayersDense(q, newMat, dens, i, cells, j)
    requires q.fixedMats <= j && j - q.fixedMats < |newMat| && newMat[j - q.fixedMats] in dens
    ensures IsLayer(q.cells[i]) ==>
      LayersDense(q, newMat, dens, i + 1, cells[i := cells[i].(m := j + 1, d := dens[newMat[j - q.fixedMats]])], j + 1)
  {
  }

  lemma LayersDenseSkip(q: Parent, newMat: seq<string>, dens: map<string, real>, i: nat, cells: seq<Cell>, j: int,
                        m: int, d: real)
    requires CellsShaped(q, i, cells) && i < |q.cells| && LayersDense(q, newMat, dens, i, cells, j)
    ensures !IsLayer(q.cells[i]) ==> LayersDense(q, newMat, dens, i + 1, cells[i := cells[i].(m := m, d := d)], j)
  {
  }

  lemma MatlsWrittenStep(q: Parent, newMat: seq<string>, matls: seq<string>, j: int)
    requires MatlsWritten(q, newMat, matls, j) && j - q.fixedMats < |newMat| && 0 <= j
    ensures j < |matls| ==> MatlsWritten(q, newMat, matls[j := newMat[j - q.fixedMats]], j + 1)
    ensures j >= |matls| ==> MatlsWritten(q, newMat, matls + [newMat[j - q.fixedMats]], j + 1)
  {
  }

  /** Cell i of the write-back, a layer cell: it takes the next new
      material, written over position j or appended, and its density. */
  method WriteLayer(q: Parent, newMat: seq<string>, dens: map<string, real>, fill: string, i: nat,
                    matls: seq<string>, cells: seq<Cell>, j: int) returns (r: Result<(seq<string>, seq<Cell>, int)>)
    requires q.fixedMats >= 0 && i < |q.cells| && IsLayer(q.cells[i])
    requires EliteWritten(q, newMat, dens, fill, i, matls, cells, j)
    ensures r.Ok? ==> EliteWritten(q, newMat, dens, fill, i + 1, r.value.0, r.value.1, r.value.2)
    ensures r.Err? ==> r.error == IndexError(OutOfRange) || r.error.KeyError?
  {
    if j - q.fixedMats >= |newMat| {
      return Err(IndexError(OutOfRange));
    }
    var name := newMat[j - q.fixedMats];
    if name !in dens {
      return Err(KeyError(name));
    }
    var matls' := if j < |matls| then matls[j := name] else matls + [name];
    MatlsWrittenStep(q, newMat, matls, j);
    var cells' := cells[i := cells[i].(m := j + 1, d := dens[name])];
    CellsShapedStep(q, i, cells, j + 1, dens[name]);
    LayersNumberedStep(q, i, cells, j, dens[name]);
    LayersDenseStep(q, newMat, dens, i, cells, j);
    return Ok((matls', cells', j + 1));
  }

  /** Cell i of the write-back, an 'eta fill' cell: when its material is
      not the fill material the fill is appended to the list and the cell
      takes material number j + 1 and the fill's density. */
  method WriteFill(q: Parent, newMat: seq<string>, dens: map<string, real>, fill: string, i: nat,
                   matls: seq<string>, cells: seq<Cell>, j: int) returns (r: Result<(seq<string>, seq<Cell>, int)>)
    requires i < |q.cells| && q.cells[i].kind == FillCell
    requires EliteWritten(q, newMat, dens, fill, i, matls, cells, j)
    ensures r.Ok? ==> EliteWritten(q, newMat, dens, fill, i + 1, r.value.0, r.value.1, r.value.2)
    ensures r.Err? ==> r.error == IndexError(OutOfRange) || r.error.KeyError?
  {
    var c := cells[i];
    if !ValidIndex(c.m - 1, |matls|) {
      return Err(IndexError(OutOfRange));
    }
    if matls[PyIdx(c.m - 1, |matls|)] == fill {
      LayersNumberedStep(q, i, cells, j, c.d);
      LayersDenseSkip(q, newMat, dens, i, cells, j, c.m, c.d);
      assert cells[i := c.(d := c.d)] == cells;
      assert cells[i := c.(m := c.m, d := c.d)] == cells;
      return Ok((matls, cells, j));
    }
    if fill !in dens {
      return Err(KeyError(fill));
    }
    var cells' := cells[i := c.(m := j + 1, d := dens[fill])];
    CellsShapedStep(q, i, cells, j + 1, dens[fill]);
    LayersNumberedStep(q, i, cells, j, dens[fill]);
    LayersDenseSkip(q, newMat, dens, i, cells, j, j + 1, dens[fill]);
    return Ok((matls + [fill], cells', j));
  }

  /** A cell that is neither a layer nor an 'eta fill' cell is left as it is. */
  lemma EliteWrittenSkip(q: Parent, newMat: seq<string>, dens: map<string, real>, fill: string, i: nat,
                         matls: seq<string>, cells: seq<Cell>, j: int)
    requires EliteWritten(q, newMat, dens, fill, i, matls, cells, j) && i < |q.cells|
    requires !IsLayer(q.cells[i]) && q.cells[i].kind != FillCell
    ensures EliteWritten(q, newMat, dens, fill, i + 1, matls, cells, j)
  {
    var c := cells[i];
    LayersNumberedStep(q, i, cells, j, c.d);
    LayersDenseSkip(q, newMat, dens, i, cells, j, c.m, c.d);
    assert cells[i := c.(d := c.d)] == cells;
    assert cells[i := c.(m := c.m, d := c.d)] == cells;
  }

  /** The written state after the last cell gives the write-back's result. */
  lemma EliteWrittenDone(q: Parent, newMat: seq<string>, dens: map<string, real>, fill: string,
                         matls: seq<string>, cells: seq<Cell>, j: int)
    requires q.fixedMats >= 0 && EliteWritten(q, newMat, dens, fill, |q.cells|, matls, cells, j)
    ensures |cells| == |q.cells| && |q.matls| <= |matls|
    ensures forall i :: 0 <= i < |q.matls| && i < q.fixedMats ==> matls[i] == q.matls[i]
    ensures forall c :: 0 <= c < |q.cells| ==>
      cells[c] == q.cells[c].(m := cells[c].m, d := cells[c].d)
    ensures forall c :: 0 <= c < |q.cells| && !IsLayer(q.cells[c]) && q.cells[c].kind != FillCell ==>
      cells[c] == q.cells[c]
    ensures forall c :: 0 <= c < |q.cells| && q.cells[c].kind == FillCell && cells[c] != q.cells[c] ==>
      fill in dens && cells[c].d == dens[fill]
    ensures q.fixedMats <= |q.matls| ==> forall c :: 0 <= c < |q.cells| && IsLayer(q.cells[c]) ==>
      && q.fixedMats < cells[c].m <= |matls| && cells[c].m - 1 - q.fixedMats < |newMat|
      && matls[cells[c].m - 1] == newMat[cells[c].m - 1 - q.fixedMats]
      && matls[cells[c].m - 1] in dens
      && cells[c].d == dens[matls[cells[c].m - 1]]
    ensures forall c :: 0 <= c < |q.cells| && IsLayer(q.cells[c]) ==>
      cells[c].m == q.fixedMats + 1 + |Layers(q.cells[..c])|
  {
  }

  /** Cell i of the write-back. */
  method WriteCell(q: Parent, newMat: seq<string>, dens: map<string, real>, fill: string, i: nat,
                   matls: seq<string>, cells: seq<Cell>, j: int) returns (r: Result<(seq<string>, seq<Cell>, int)>)
    requires q.fixedMats >= 0 && i < |q.cells|
    requires EliteWritten(q, newMat, dens, fill, i, matls, cells, j)
    ensures r.Ok? ==> EliteWritten(q, newMat, dens, fill, i + 1, r.value.0, r.value.1, r.value.2)
  {
    if IsLayer(q.cells[i]) {
      r := WriteLayer(q, newMat, dens, fill, i, matls, cells, j);
    } else if q.cells[i].kind == FillCell {
      r := WriteFill(q, newMat, dens, fill, i, matls, cells, j);
    } else {
      EliteWrittenSkip(q, newMat, dens, fill, i, matls, cells, j);
      r := Ok((matls, cells, j));
    }
  }

  /** The write-back of `Elite_Crossover` into the best design: the layer
      cells take the new materials in order, at positions `fixed_mats`,
      `fixed_mats + 1`, ... of the material list (appended past its end),
      and the density of each; an 'eta fill' cell whose material is not the
      fill material gets the fill material appended to the list and its
      density, and the material number j + 1 of the next layer position. */
  method WriteElite(q: Parent, newMat: seq<string>, dens: map<string, real>, fill: string) returns (r: Result<Parent>)
    requires q.fixedMats >= 0
    ensures r.Ok? ==> r.value == q.(matls := r.value.matls, cells := r.value.cells)
    ensures r.Ok? ==> |r.value.cells| == |q.cells| && |q.matls| <= |r.value.matls|
    ensures r.Ok? ==> forall i :: 0 <= i < |q.matls| && i < q.fixedMats ==> r.value.matls[i] == q.matls[i]
    ensures r.Ok? ==> forall c :: 0 <= c < |q.cells| ==>
      r.value.cells[c] == q.cells[c].(m := r.value.cells[c].m, d := r.value.cells[c].d)
    ensures r.Ok? ==> forall c :: 0 <= c < |q.cells| && !IsLayer(q.cells[c]) && q.cells[c].kind != FillCell ==>
      r.value.cells[c] == q.cells[c]
    ensures r.Ok? ==> forall c :: 0 <= c < |q.cells| && q.cells[c].kind == FillCell && r.value.cells[c] != q.cells[c] ==>
      fill in dens && r.value.cells[c].d == dens[fill]
    ensures r.Ok? && q.fixedMats <= |q.matls| ==> forall c :: 0 <= c < |q.cells| && IsLayer(q.cells[c]) ==>
      && q.fixedMats < r.value.cells[c].m <= |r.value.matls| && r.value.cells[c].m - 1 - q.fixedMats < |newMat|
      && r.value.matls[r.value.cells[c].m - 1] == newMat[r.value.cells[c].m - 1 - q.fixedMats]
      && r.value.matls[r.value.cells[c].m - 1] in dens
      && r.value.cells[c].d == dens[r.value.matls[r.value.cells[c].m - 1]]
    ensures r.Ok? ==> forall c :: 0 <= c < |q.cells| && IsLayer(q.cells[c]) ==>
      r.value.cells[c].m == q.fixedMats + 1 + |Layers(q.cells[..c])|
  {
    var matls := q.matls;
    var cells := q.cells;
    var j := q.fixedMats;
    assert q.cells[..0] == [];
    for i := 0 to |q.cells|
      invariant EliteWritten(q, newMat, dens, fill, i, matls, cells, j)
    {
      var step := WriteCell(q, newMat, dens, fill, i, matls, cells, j);
      if step.Err? {
        return Err(step.error);
      }
      matls, cells, j := step.value.0, step.value.1, step.value.2;
    }
    EliteWrittenDone(q, newMat, dens, fill, matls, cells, j);
    return Ok(q.(matls := matls, cells := cells));
  }

  /** Layer cell c of the child holds the elite pick for the c-th layer's
      records: the record of the best design's layer material and of the
      partner's material in the same layer position. */
  predicate EliteCell(best: Parent, partner: Parent, mr: seq<ModeratingRatio>, p: real, phi: real,
                      exclude: seq<string>, child: Parent, c: int)
  {
    && LayersIndexed(best) && LayersIndexed(partner)
    && 0 <= c < |best.cells| == |child.cells| && 0 < child.cells[c].m <= |child.matls|
    && var k := |Layers(best.cells[..c])|;
       && k < |Layers(best.cells)| && k < |Layers(partner.cells)|
       && EliteOne(LayerRecords(best, mr)[k], LayerRecords(partner, mr)[k], mr, p, phi, exclude,
                   child.matls[child.cells[c].m - 1])
  }

  /** The write-back of the elite picks puts the pick for layer k into the
      k-th layer cell. */
  lemma EliteCells(best: Parent, partner: Parent, mr: seq<ModeratingRatio>, p: real, phi: real,
                   exclude: seq<string>, tRatios: seq<Option<ModeratingRatio>>, rRatios: seq<Option<ModeratingRatio>>,
                   newMat: seq<string>, child: Parent)
    requires LayersIndexed(best) && LayersIndexed(partner) && 0 <= best.fixedMats <= |best.matls|
    requires tRatios == LayerRecords(best, mr) && rRatios == LayerRecords(partner, mr)
    requires |newMat| == |tRatios| <= |rRatios|
    requires forall k {:trigger EliteOne(tRatios[k], rRatios[k], mr, p, phi, exclude, newMat[k])} ::
      0 <= k < |newMat| ==> EliteOne(tRatios[k], rRatios[k], mr, p, phi, exclude, newMat[k])
    requires |child.cells| == |best.cells|
    requires forall c :: 0 <= c < |best.cells| && IsLayer(best.cells[c]) ==>
      && best.fixedMats < child.cells[c].m <= |child.matls| && child.cells[c].m - 1 - best.fixedMats < |newMat|
      && child.matls[child.cells[c].m - 1] == newMat[child.cells[c].m - 1 - best.fixedMats]
    requires forall c :: 0 <= c < |best.cells| && IsLayer(best.cells[c]) ==>
      child.cells[c].m == best.fixedMats + 1 + |Layers(best.cells[..c])|
    ensures forall c :: 0 <= c < |best.cells| && IsLayer(best.cells[c]) ==>
      EliteCell(best, partner, mr, p, phi, exclude, child, c)
  {
    forall c | 0 <= c < |best.cells| && IsLayer(best.cells[c])
      ensures EliteCell(best, partner, mr, p, phi, exclude, child, c)
    {
      var k := |Layers(best.cells[..c])|;
      assert child.cells[c].m - 1 - best.fixedMats == k;
      assert EliteOne(tRatios[k], rRatios[k], mr, p, phi, exclude, newMat[k]);
    }
  }

  /** The write-back of the elite picks, giving the child the partner's
      identity and particle count. */
  method EliteWriteBack(best: Parent, partner: Parent, mr: seq<ModeratingRatio>, fill: string, dens: map<string, real>,
                        exclude: seq<string>, pDraw: real, phi: real,
                        tRatios: seq<Option<ModeratingRatio>>, rRatios: seq<Option<ModeratingRatio>>, newMat: seq<string>)
    returns (r: Result<Parent>)
    requires LayersIndexed(best) && LayersIndexed(partner) && 0 <= best.fixedMats
    requires tRatios == LayerRecords(best, mr) && rRatios == LayerRecords(partner, mr)
    requires |newMat| == |tRatios| <= |rRatios|
    requires forall k {:trigger EliteOne(tRatios[k], rRatios[k], mr, pDraw, phi, exclude, newMat[k])} ::
      0 <= k < |newMat| ==> EliteOne(tRatios[k], rRatios[k], mr, pDraw, phi, exclude, newMat[k])
    requires forall k :: 0 <= k < |newMat| ==> newMat[k] in NameSet(mr) && newMat[k] !in exclude
    ensures r.Ok? ==> r.value == best.(matls := r.value.matls, cells := r.value.cells, ident := partner.ident, nps := partner.nps)
    ensures r.Ok? ==> |best.matls| <= |r.value.matls| && |r.value.cells| == |best.cells|
    ensures r.Ok? ==> forall k :: 0 <= k < |best.matls| && k < best.fixedMats ==> r.value.matls[k] == best.matls[k]
    ensures r.Ok? && best.fixedMats <= |best.matls| ==> LayersUse(r.value, NameSet(mr), exclude, dens)
    ensures r.Ok? && best.fixedMats <= |best.matls| ==> forall c :: 0 <= c < |best.cells| && IsLayer(best.cells[c]) ==>
      EliteCell(best, partner, mr, pDraw, phi, exclude, r.value, c)
  {
    var w := WriteElite(best, newMat, dens, fill);
    if w.Err? {
      return Err(w.error);
    }
    var child := w.value.(ident := partner.ident, nps := partner.nps);
    if best.fixedMats <= |best.matls| {
      assert LayersUse(child, NameSet(mr), exclude, dens);
      EliteCells(best, partner, mr, pDraw, phi, exclude, tRatios, rRatios, newMat, child);
    }
    return Ok(child);
  }

  /** The child of `Elite_Crossover`: the best design with the elite pick
      for each of its layers written back, and the partner's identity and
      particle count. */
  method EliteChild(best: Parent, partner: Parent, mr: seq<ModeratingRatio>, fill: string, dens: map<string, real>,
                    exclude: seq<string>, pDraw: real, phi: real)
    returns (r: Result<Parent>, sorted: seq<ModeratingRatio>)
    requires Golden(phi) && best.fixedMats >= 0
    ensures multiset(sorted) == multiset(mr)
    ensures r.Ok? ==> r.value == best.(matls := r.value.matls, cells := r.value.cells, ident := partner.ident, nps := partner.nps)
    ensures r.Ok? ==> |best.matls| <= |r.value.matls| && |r.value.cells| == |best.cells|
    ensures r.Ok? ==> forall k :: 0 <= k < |best.matls| && k < best.fixedMats ==> r.value.matls[k] == best.matls[k]
    ensures r.Ok? && best.fixedMats <= |best.matls| ==> LayersUse(r.value, NameSet(mr), exclude, dens)
    ensures r.Ok? && best.fixedMats <= |best.matls| ==> forall c :: 0 <= c < |best.cells| && IsLayer(best.cells[c]) ==>
      EliteCell(best, partner, mr, pDraw, phi, exclude, r.value, c)
  {
    sorted := mr;
    var top := LayerRatios(best, mr);
    if top.Err? {
      return Err(top.error), sorted;
    }
    var other := LayerRatios(partner, mr);
    if other.Err? {
      return Err(other.error), sorted;
    }
    var newMat;
    newMat, sorted := EliteMaterials(top.value.1, other.value.1, mr, pDraw, phi, exclude);
    if newMat.Err? {
      return Err(newMat.error), sorted;
    }
    r := EliteWriteBack(best, partner, mr, fill, dens, exclude, pDraw, phi, top.value.1, other.value.1, newMat.value);
  }

  /** The partner `r = int(random() * S.p * S.fe)`, taken as 1 when it is 0,
      so the best design is never its own partner. */
  function PartnerIndex(u: real, p: int, fe: real): (r: int)
    ensures r != 0
    ensures 0.0 <= u && 0 <= p && 0.0 <= fe ==> r >= 1
  {
    var t := Trunc(u * p as real * fe);
    assert 0.0 <= u && 0 <= p && 0.0 <= fe ==> 0.0 <= u * p as real * fe;
    if t == 0 then 1 else t
  }

  /** `Elite_Crossover`: one design, the best one x[0] with the materials of
      its layers replaced by the catalogue materials nearest to the blend of
      its ratios with those of the partner x[r], carrying the partner's
      identifier and particle count. `u` is the partner draw, `p_draw` the
      energy draw, `phi` the golden ratio; the records `mr` come back sorted
      by the last energy used. */
  method EliteCrossover(x: seq<Parent>, mr: seq<ModeratingRatio>, fill: string, dens: map<string, real>,
                        exclude: seq<string>, fe: real, p: int, u: real, pDraw: real, phi: real)
    returns (r: Result<seq<Parent>>, sorted: seq<ModeratingRatio>)
    requires Golden(phi) && forall k :: 0 <= k < |x| ==> x[k].fixedMats >= 0
    ensures !(0.0 <= fe <= 1.0) ==> r == Err(AssertionError(FeRange))
    ensures multiset(sorted) == multiset(mr)
    ensures r.Ok? ==> |x| > 0 && ValidIndex(PartnerIndex(u, p, fe), |x|) && |r.value| == 1
    ensures r.Ok? ==> var partner := x[PyIdx(PartnerIndex(u, p, fe), |x|)];
      r.value[0] == x[0].(matls := r.value[0].matls, cells := r.value[0].cells, ident := partner.ident, nps := partner.nps)
    ensures r.Ok? ==> |x[0].matls| <= |r.value[0].matls| && |r.value[0].cells| == |x[0].cells|
    ensures r.Ok? ==> forall k :: 0 <= k < |x[0].matls| && k < x[0].fixedMats ==> r.value[0].matls[k] == x[0].matls[k]
    ensures r.Ok? && x[0].fixedMats <= |x[0].matls| ==> LayersUse(r.value[0], NameSet(mr), exclude, dens)
    ensures r.Ok? && x[0].fixedMats <= |x[0].matls| ==> var partner := x[PyIdx(PartnerIndex(u, p, fe), |x|)];
      forall c :: 0 <= c < |x[0].cells| && IsLayer(x[0].cells[c]) ==>
        EliteCell(x[0], partner, mr, pDraw, phi, exclude, r.value[0], c)
  {
    sorted := mr;
    if !(0.0 <= fe <= 1.0) {
      return Err(AssertionError(FeRange)), sorted;
    }
    if x == [] {
      return Err(IndexError(OutOfRange)), sorted;
    }
    var ri := PartnerIndex(u, p, fe);
    if !ValidIndex(ri, |x|) {
      return Err(IndexError(OutOfRange)), sorted;
    }
    var best, partner := x[0], x[PyIdx(ri, |x|)];
    var child;
    child, sorted := EliteChild(best, partner, mr, fill, dens, exclude, pDraw, phi);
    if child.Err? {
      return Err(child.error), sorted;
    }
    return Ok([child.value]), sorted;
  }

  // ---------------------------------------------------------------------------
  // Partial_Inversion
  // ---------------------------------------------------------------------------

  /** Every layer cell names a material by a valid (Python) index. */
  predicate LayersIndexed(q: Parent)
  {
    forall c :: 0 <= c < |q.cells| && IsLayer(q.cells[c]) ==> ValidIndex(q.cells[c].m - 1, |q.matls|)
  }

  /** The material keys of the layer cells, `keys` in `Partial_Inversion`. */
  function LayerKeys(q: Parent): (r: seq<string>)
    requires LayersIndexed(q)
    ensures |r| == |Layers(q.cells)|
  {
    var ls := Layers(q.cells);
    assert forall k :: 0 <= k < |ls| ==> ValidIndex(ls[k].m - 1, |q.matls|) by {
      LayersIn(q.cells);
    }
    seq(|ls|, k requires 0 <= k < |ls| => q.matls[PyIdx(ls[k].m - 1, |q.matls|)])
  }

  /** Every layer is one of the cells. */
  lemma {:induction false} LayersIn(cells: seq<Cell>)
    ensures forall k :: 0 <= k < |Layers(cells)| ==> Layers(cells)[k] in cells && IsLayer(Layers(cells)[k])
  {
    if cells != [] {
      LayersIn(cells[..|cells| - 1]);
    }
  }

  /** `c_mr`: the ratio of each layer material at the draw's energy, -1
      where the records have none. */
  function RatioValues(ratios: seq<Option<ModeratingRatio>>, key: ModeratingRatio -> real): (r: seq<real>)
    ensures |r| == |ratios|
  {
    seq(|ratios|, k requires 0 <= k < |ratios| => if ratios[k].Some? then key(ratios[k].value) else -1.0)
  }

  /** `range(n)`. */
  function Range(n: nat): (r: seq<nat>)
    ensures |r| == n && forall k :: 0 <= k < n ==> r[k] == k
  {
    seq(n, k requires 0 <= k < n => k)
  }

  /** `sorted(range(len(v)), key=lambda k: v[k])`: the positions of v in
      ascending order of their values, ties in position order. */
  function ArgSort(v: seq<real>): (r: seq<nat>)
    ensures |r| == |v| && multiset(r) == multiset(Range(|v|))
  {
    SortBy(Range(|v|), (k: nat) => if k < |v| then v[k] else 0.0)
  }

  /** An argsort lists every position exactly once. */
  lemma ArgSortPositions(v: seq<real>)
    ensures forall k :: 0 <= k < |v| ==> ArgSort(v)[k] < |v|
    ensures forall k :: 0 <= k < |v| ==> k in ArgSort(v)
  {
    var s := ArgSort(v);
    forall k | 0 <= k < |v| ensures s[k] < |v| {
      assert s[k] in multiset(Range(|v|));
    }
    forall k | 0 <= k < |v| ensures k in s {
      assert Range(|v|)[k] == k;
      assert k in multiset(s);
    }
  }

  /** Where `while s[loc] + 1 == s[loc + 1]: loc += 1` stops: the first
      position from loc whose successor in s is not the next rank, or -1
      when the run reaches the end. */
  function RunEnd(s: seq<nat>, loc: nat): (r: int)
    requires loc < |s|
    ensures r == -1 || loc <= r < |s| - 1
    decreases |s| - loc
  {
    if loc + 1 == |s| then -1
    else if s[loc] + 1 != s[loc + 1] then loc
    else RunEnd(s, loc + 1)
  }

  /** The run stops at the first break: -1 exactly when every step from loc
      to the end goes to the next rank. */
  lemma {:induction false} RunEndBreak(s: seq<nat>, loc: nat)
    requires loc < |s|
    ensures RunEnd(s, loc) == -1 <==> forall k :: loc <= k < |s| - 1 ==> s[k] + 1 == s[k + 1]
    ensures RunEnd(s, loc) != -1 ==> s[RunEnd(s, loc)] + 1 != s[RunEnd(s, loc) + 1]
    ensures RunEnd(s, loc) != -1 ==> forall k :: loc <= k < RunEnd(s, loc) ==> s[k] + 1 == s[k + 1]
    decreases |s| - loc
  {
    if loc + 1 < |s| && s[loc] + 1 == s[loc + 1] {
      RunEndBreak(s, loc + 1);
    }
  }

  /** The walk of `Partial_Inversion` from the drawn position; an empty s
      fails at `s[loc]`. */
  method InversionPoint(s: seq<nat>, loc: nat) returns (r: Result<int>)
    requires loc < |s| || loc == 0
    ensures |s| == 0 ==> r == Err(IndexError(OutOfRange))
    ensures |s| > 0 ==> r == Ok(RunEnd(s, loc))
  {
    if |s| == 0 {
      return Err(IndexError(OutOfRange));
    }
    var l := loc;
    if l + 1 == |s| {
      return Ok(-1);
    }
    while s[l] + 1 == s[l + 1]
      invariant loc <= l < |s| - 1 && RunEnd(s, l) == RunEnd(s, loc)
      decreases |s| - l
    {
      l := l + 1;
      if l + 1 == |s| {
        return Ok(-1);
      }
    }
    return Ok(l);
  }

  /** Swap of two entries, `t = k[a]; k[a] = k[b]; k[b] = t`. */
  function Swapped<T>(k: seq<T>, a: nat, b: nat): (r: seq<T>)
    requires a < |k| && b < |k|
    ensures |r| == |k| && multiset(r) == multiset(k)
  {
    k[a := k[b]][b := k[a]]
  }

  function Reversed<T>(s: seq<T>): (r: seq<T>)
    ensures |r| == |s| && forall k :: 0 <= k < |s| ==> r[k] == s[|s| - 1 - k]
  {
    seq(|s|, k requires 0 <= k < |s| => s[|s| - 1 - k])
  }

  /** Reversing keeps the elements. */
  lemma {:induction false} ReversedPermutes<T>(s: seq<T>)
    ensures multiset(Reversed(s)) == multiset(s)
  {
    if s != [] {
      var t := s[1..];
      ReversedPermutes(t);
      assert Reversed(s) == Reversed(t) + [s[0]];
      assert s == [s[0]] + t;
    }
  }

  /** `keys[a:b] = reversed(keys[a:b])`. */
  function ReversedSlice<T>(k: seq<T>, a: nat, b: nat): (r: seq<T>)
    requires a <= b <= |k|
    ensures |r| == |k| && multiset(r) == multiset(k)
  {
    ReversedPermutes(k[a..b]);
    assert k == k[..a] + k[a..b] + k[b..];
    k[..a] + Reversed(k[a..b]) + k[b..]
  }

  /** The new layer keys of `Partial_Inversion` for argsort s, walked
      position loc and keys k: with ind the position of the rank after
      s[loc], the entries loc + 1 and ind are swapped when ind < loc, the
      stretch loc + 1 .. ind is reversed otherwise, and nothing is done
      (None) when the walk reached the end or s[loc] is the largest rank. */
  function Inversion(s: seq<nat>, loc: int, k: seq<string>): (r: Option<seq<string>>)
    requires |s| == |k| && (loc == -1 || 0 <= loc < |s| - 1)
    requires forall i :: 0 <= i < |s| ==> s[i] < |s| && i in s
    ensures r.None? <==> loc == -1 || s[loc] == |s| - 1
    ensures r.Some? ==> |r.value| == |k| && multiset(r.value) == multiset(k)
  {
    if loc == -1 || s[loc] == |s| - 1 then None
    else
      var ind := IndexOf(s, s[loc] + 1);
      assert ind >= 0 && s[ind] != s[loc];
      if ind < loc then Some(Swapped(k, loc + 1, ind))
      else Some(ReversedSlice(k, loc + 1, ind + 1))
  }

  /** The slice `[-n - 1:-1]` of a list of length len, clamped as Python
      clamps slice bounds. */
  function FillSliceStart(len: nat, n: nat): nat { if len >= n + 1 then len - n - 1 else 0 }
  function FillSliceEnd(len: nat): nat { if len >= 1 then len - 1 else 0 }

  /** `matls[-len(keys)-1:-1] = keys`. */
  function SliceAssigned(matls: seq<string>, keys: seq<string>): seq<string>
  {
    matls[..FillSliceStart(|matls|, |keys|)] + keys + matls[FillSliceEnd(|matls|)..]
  }

  /** When the list is longer than the keys, the assignment keeps its length,
      the materials before the slice and the fill at the end, and puts the
      keys in the slice. */
  lemma SliceKeepsFill(matls: seq<string>, keys: seq<string>)
    requires |matls| > |keys|
    ensures var r := SliceAssigned(matls, keys);
      && |r| == |matls| && r[|r| - 1] == matls[|matls| - 1]
      && r[..|matls| - |keys| - 1] == matls[..|matls| - |keys| - 1]
      && r[|matls| - |keys| - 1..|matls| - 1] == keys
  {
    var r := SliceAssigned(matls, keys);
    var a := |matls| - |keys| - 1;
    assert r == matls[..a] + keys + [matls[|matls| - 1]];
    assert r[..a] == matls[..a];
    assert r[a..|matls| - 1] == keys;
  }

  /** The cells after the density update of `Partial_Inversion`: the n-th
      layer cell takes material number `fixed_mats + n + 1` and the density
      of that material; other cells are unchanged. */
  predicate Redensified(cells: seq<Cell>, out: seq<Cell>, matls: seq<string>, fixed: nat, dens: map<string, real>)
  {
    && |out| == |cells|
    && (forall c :: 0 <= c < |cells| && !IsLayer(cells[c]) ==> out[c] == cells[c])
    && (forall c :: 0 <= c < |cells| && IsLayer(cells[c]) ==>
          && fixed < out[c].m <= |matls| && matls[out[c].m - 1] in dens
          && out[c] == cells[c].(m := out[c].m, d := dens[matls[out[c].m - 1]])
          && out[c].m == fixed + |Layers(cells[..c])| + 1)
  }

  /** The density update: `c.d = mats[matls[j]].density; c.m = j + 1` for
      each layer cell, j counting up from `fixed_mats`. */
  method Redensify(cells: seq<Cell>, matls: seq<string>, fixed: nat, dens: map<string, real>)
    returns (r: Result<seq<Cell>>)
    ensures r.Ok? ==> Redensified(cells, r.value, matls, fixed, dens)
  {
    var out := cells;
    var j := fixed;
    for i := 0 to |cells|
      invariant |out| == |cells| && j == fixed + |Layers(cells[..i])|
      invariant forall c :: i <= c < |cells| || (0 <= c < i && !IsLayer(cells[c])) ==> out[c] == cells[c]
      invariant forall c :: 0 <= c < i && IsLayer(cells[c]) ==>
        && fixed < out[c].m <= |matls| && matls[out[c].m - 1] in dens
        && out[c] == cells[c].(m := out[c].m, d := dens[matls[out[c].m - 1]])
        && out[c].m == fixed + |Layers(cells[..c])| + 1
    {
      assert cells[..i + 1][..i] == cells[..i];
      if IsLayer(cells[i]) {
        if j >= |matls| {
          return Err(IndexError(OutOfRange));
        }
        if matls[j] !in dens {
          return Err(KeyError(matls[j]));
        }
        out := out[i := cells[i].(m := j + 1, d := dens[matls[j]])];
        j := j + 1;
      }
    }
    return Ok(out);
  }

  /** The ratio records of the layer materials. */
  function LayerRecords(q: Parent, mr: seq<ModeratingRatio>): (r: seq<Option<ModeratingRatio>>)
    requires LayersIndexed(q)
    ensures |r| == |Layers(q.cells)|
  {
    var keys := LayerKeys(q);
    seq(|keys|, k requires 0 <= k < |keys| => RatioOf(mr, keys[k]))
  }

  /** The new layer keys `Partial_Inversion` computes for design q with the
      energy draw p and the position draw u, or None when it drops q. */
  function InversionOf(q: Parent, mr: seq<ModeratingRatio>, p: real, u: real): Option<seq<string>>
    requires LayersIndexed(q) && |Layers(q.cells)| > 0 && 0.0 <= u < 1.0
  {
    var vals := RatioValues(LayerRecords(q, mr), EnergyKey(p));
    var s := ArgSort(vals);
    ArgSortPositions(vals);
    Inversion(s, RunEnd(s, StartOf(u, |vals|)), LayerKeys(q))
  }

  /** `loc = int(random() * len(c_mr))`. */
  function StartOf(u: real, n: nat): (r: nat)
    requires 0.0 <= u < 1.0 && n > 0
    ensures r < n
  {
    assert 0.0 <= u * n as real < n as real;
    Trunc(u * n as real)
  }

  /** A design `Partial_Inversion` keeps: its new layer keys in the slice
      before the fill, and its layer cells renumbered from `fixed_mats`
      with the densities of their materials. */
  predicate InvertedFrom(q: Parent, c: Parent, mr: seq<ModeratingRatio>, dens: map<string, real>, p: real, u: real)
    requires 0.0 <= u < 1.0
  {
    && LayersIndexed(q) && |Layers(q.cells)| > 0 && q.fixedMats >= 0
    && InversionOf(q, mr, p, u).Some?
    && c == q.(matls := SliceAssigned(q.matls, InversionOf(q, mr, p, u).value), cells := c.cells)
    && Redensified(q.cells, c.cells, c.matls, q.fixedMats, dens)
  }

  /** A design `Partial_Inversion` drops: it has no inversion point. */
  predicate Dropped(q: Parent, mr: seq<ModeratingRatio>, p: real, u: real)
    requires 0.0 <= u < 1.0
  {
    LayersIndexed(q) && |Layers(q.cells)| > 0 && InversionOf(q, mr, p, u).None?
  }

  /** The inverted design lists the same layer materials, reordered, in the
      slice before the fill, and keeps the fill and the materials before
      the slice. */
  lemma InvertedPermutes(q: Parent, c: Parent, mr: seq<ModeratingRatio>, dens: map<string, real>, p: real, u: real)
    requires 0.0 <= u < 1.0 && InvertedFrom(q, c, mr, dens, p, u) && |q.matls| > |Layers(q.cells)|
    ensures var a := |q.matls| - |Layers(q.cells)| - 1;
      && |c.matls| == |q.matls| && c.matls[|c.matls| - 1] == q.matls[|q.matls| - 1]
      && c.matls[..a] == q.matls[..a]
      && multiset(c.matls[a..|c.matls| - 1]) == multiset(LayerKeys(q))
  {
    SliceKeepsFill(q.matls, InversionOf(q, mr, p, u).value);
  }

  /** One design of `Partial_Inversion`. */
  method InvertOne(q: Parent, mr: seq<ModeratingRatio>, dens: map<string, real>, p: real, u: real)
    returns (r: Result<Option<Parent>>)
    requires 0.0 <= p < 1.0 && 0.0 <= u < 1.0 && q.fixedMats >= 0
    ensures !LayersIndexed(q) || |Layers(q.cells)| == 0 ==> r == Err(IndexError(OutOfRange))
    ensures r.Ok? && r.value.Some? ==> InvertedFrom(q, r.value.value, mr, dens, p, u)
    ensures r.Ok? && r.value.None? ==> Dropped(q, mr, p, u)
    ensures LayersIndexed(q) && |Layers(q.cells)| > 0 && Dropped(q, mr, p, u) ==> r == Ok(None)
  {
    var lr := LayerRatios(q, mr);
    if lr.Err? {
      return Err(lr.error);
    }
    var keys := lr.value.0;
    assert keys == LayerKeys(q);
    assert lr.value.1 == LayerRecords(q, mr);
    var vals := RatioValues(lr.value.1, EnergyKey(p));
    var n := |vals|;
    var loc := if n == 0 then 0 else StartOf(u, n);
    var s := ArgSort(vals);
    ArgSortPositions(vals);
    var l := InversionPoint(s, loc);
    if l.Err? {
      return Err(l.error);
    }
    var inv := Inversion(s, l.value, keys);
    assert inv == InversionOf(q, mr, p, u);
    if inv.None? {
      return Ok(None);
    }
    var matls := SliceAssigned(q.matls, inv.value);
    var cells := Redensify(q.cells, matls, q.fixedMats, dens);
    if cells.Err? {
      return Err(cells.error);
    }
    return Ok(Some(q.(matls := matls, cells := cells.value)));
  }

  /** Design j of `Partial_Inversion` gave the result c. */
  predicate KeptAt(x: seq<Parent>, mr: seq<ModeratingRatio>, dens: map<string, real>,
                   energyDraws: seq<real>, locDraws: seq<real>, j: nat, c: Parent)
  {
    j < |x| && j < |energyDraws| && j < |locDraws| && 0.0 <= locDraws[j] < 1.0
    && InvertedFrom(x[j], c, mr, dens, energyDraws[j], locDraws[j])
  }

  /** Design j of `Partial_Inversion` was dropped. */
  predicate DroppedAt(x: seq<Parent>, mr: seq<ModeratingRatio>, energyDraws: seq<real>, locDraws: seq<real>, j: nat)
  {
    j < |x| && j < |energyDraws| && j < |locDraws| && 0.0 <= locDraws[j] < 1.0
    && Dropped(x[j], mr, energyDraws[j], locDraws[j])
  }

  /** The outcome of a filtering pass over the first i items: `out` holds,
      in order, a result for each item that was kept (`kept(j, out[k])`
      for the item j = from[k]); every other item satisfies `dropped`. */
  predicate Filtered<T>(kept: (nat, T) -> bool, dropped: nat -> bool, out: seq<T>, from: seq<nat>, i: nat)
  {
    && |out| == |from|
    && (forall k :: 0 <= k < |from| ==> from[k] < i)
    && (forall a, b :: 0 <= a < b < |from| ==> from[a] < from[b])
    && (forall k :: 0 <= k < |from| ==> kept(from[k], out[k]))
    && (forall j :: 0 <= j < i && j !in from ==> dropped(j))
  }

  /** The two outcomes of `Partial_Inversion` for a design, as the
      predicates a filtering pass takes. */
  function KeptBy(x: seq<Parent>, mr: seq<ModeratingRatio>, dens: map<string, real>,
                  energyDraws: seq<real>, locDraws: seq<real>): (nat, Parent) -> bool
  {
    (j: nat, c: Parent) => KeptAt(x, mr, dens, energyDraws, locDraws, j, c)
  }

  function DroppedBy(x: seq<Parent>, mr: seq<ModeratingRatio>, energyDraws: seq<real>, locDraws: seq<real>): nat -> bool
  {
    (j: nat) => DroppedAt(x, mr, energyDraws, locDraws, j)
  }

  /** Design i of `Partial_Inversion`. */
  method InvertStep(x: seq<Parent>, mr: seq<ModeratingRatio>, dens: map<string, real>, energyDraws: seq<real>,
                    locDraws: seq<real>, i: nat) returns (r: Result<Option<Parent>>)
    requires i < |x| && i < |energyDraws| && i < |locDraws| && x[i].fixedMats >= 0
    requires 0.0 <= energyDraws[i] < 1.0 && 0.0 <= locDraws[i] < 1.0
    ensures r.Ok? && r.value.Some? ==> KeptAt(x, mr, dens, energyDraws, locDraws, i, r.value.value)
    ensures r.Ok? && r.value.None? ==> DroppedAt(x, mr, energyDraws, locDraws, i)
  {
    r := InvertOne(x[i], mr, dens, energyDraws[i], locDraws[i]);
  }

  /** One more item of a filtering pass: its result is appended when
      there is one. */
  method Select<T>(kept: (nat, T) -> bool, dropped: nat -> bool, out: seq<T>, from: seq<nat>, i: nat, one: Option<T>)
    returns (out': seq<T>, from': seq<nat>)
    requires Filtered(kept, dropped, out, from, i)
    requires one.Some? ==> kept(i, one.value)
    requires one.None? ==> dropped(i)
    ensures Filtered(kept, dropped, out', from', i + 1)
  {
    if one.Some? {
      out', from' := out + [one.value], from + [i];
      assert forall k :: 0 <= k < |from| ==> from'[k] == from[k] && out'[k] == out[k];
    } else {
      out', from' := out, from;
    }
  }

  /** `Partial_Inversion`: for each of the first p designs, the inverted
      copy, or nothing when it has no inversion point. `from` gives the
      design each result was made from. */
  method PartialInversion(x: seq<Parent>, mr: seq<ModeratingRatio>, dens: map<string, real>, p: int,
                          energyDraws: seq<real>, locDraws: seq<real>)
    returns (r: Result<seq<Parent>>, from: seq<nat>)
    requires UnitDraws(energyDraws) && UnitDraws(locDraws)
    requires forall k :: 0 <= k < |x| ==> x[k].fixedMats >= 0
    ensures r.Ok? ==> p <= |x| && p <= |energyDraws| && p <= |locDraws|
    ensures r.Ok? ==> Filtered(KeptBy(x, mr, dens, energyDraws, locDraws), DroppedBy(x, mr, energyDraws, locDraws),
                               r.value, from, if p > 0 then p else 0)
  {
    var kept := KeptBy(x, mr, dens, energyDraws, locDraws);
    var dropped := DroppedBy(x, mr, energyDraws, locDraws);
    var out: seq<Parent> := [];
    from := [];
    var i: nat := 0;
    while i < p
      invariant i <= |x| && i <= |energyDraws| && i <= |locDraws| && (i == 0 || i <= p)
      invariant Filtered(kept, dropped, out, from, i)
    {
      if i >= |x| {
        return Err(IndexError(OutOfRange)), from;
      }
      if i >= |energyDraws| || i >= |locDraws| {
        return Err(DrawsExhausted), from;
      }
      var one := InvertStep(x, mr, dens, energyDraws, locDraws, i);
      if one.Err? {
        return Err(one.error), from;
      }
      out, from := Select(kept, dropped, out, from, i, one.value);
      i := i + 1;
    }
    return Ok(out), from;
  }
}
