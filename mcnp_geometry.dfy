// The MCNP geometry (Code/MCNP_Utilities.py): surface, cell and material
// lists that take each name once.
module McnpGeometry {
  import opened Wrappers
  import opened PyMath
  import opened PyText
  import opened McnpCards

  // ---------------------------------------------------------------------------
  // Geometry lists

  /** Whether an element named k is already in xs. */
  predicate NameIn<T>(xs: seq<T>, k: int, name: T -> int)
  {
    exists i :: 0 <= i < |xs| && name(xs[i]) == k
  }

  /** Appending `adds` one at a time, skipping any whose name is already
      present (including names added earlier from the same list). */
  function AppendNew<T>(existing: seq<T>, adds: seq<T>, name: T -> int): seq<T>
  {
    if adds == [] then existing
    else
      var prev := AppendNew(existing, adds[..|adds| - 1], name);
      var y := adds[|adds| - 1];
      if NameIn(prev, name(y), name) then prev else prev + [y]
  }

  predicate DistinctNames<T>(xs: seq<T>, name: T -> int)
  {
    forall i, j :: 0 <= i < j < |xs| ==> name(xs[i]) != name(xs[j])
  }

  /** The old list is kept as a prefix, names stay distinct, and every added
      name ends up present. */
  lemma {:induction false} AppendNewProperties<T>(existing: seq<T>, adds: seq<T>, name: T -> int)
    ensures var r := AppendNew(existing, adds, name);
      |existing| <= |r| && r[..|existing|] == existing &&
      (forall i :: |existing| <= i < |r| ==> r[i] in adds) &&
      (DistinctNames(existing, name) ==> DistinctNames(r, name)) &&
      (forall k :: 0 <= k < |adds| ==> NameIn(r, name(adds[k]), name))
  {
    if adds != [] {
      var p := adds[..|adds| - 1];
      AppendNewProperties(existing, p, name);
      var prev := AppendNew(existing, p, name);
      var y := adds[|adds| - 1];
      var r := AppendNew(existing, adds, name);
      forall i | |existing| <= i < |r| ensures r[i] in adds {
        if i < |prev| {
          assert r[i] == prev[i] && prev[i] in p;
        } else {
          assert r[i] == y;
        }
      }
      forall k | 0 <= k < |adds| ensures NameIn(r, name(adds[k]), name) {
        if k < |adds| - 1 {
          assert adds[k] == p[k];
          var i :| 0 <= i < |prev| && name(prev[i]) == name(p[k]);
          assert r[i] == prev[i];
        } else if !NameIn(prev, name(y), name) {
          assert r[|r| - 1] == y;
        }
      }
    }
  }

  /** Adding the same list again changes nothing. */
  lemma {:induction false} AppendNewIdempotent<T>(existing: seq<T>, adds: seq<T>, name: T -> int)
    ensures AppendNew(AppendNew(existing, adds, name), adds, name) == AppendNew(existing, adds, name)
  {
    var once := AppendNew(existing, adds, name);
    AppendNewProperties(existing, adds, name);
    AppendNewAllPresent(once, adds, name);
  }

  /** When every added name is present already, nothing is appended. */
  lemma {:induction false} AppendNewAllPresent<T>(xs: seq<T>, adds: seq<T>, name: T -> int)
    requires forall k :: 0 <= k < |adds| ==> NameIn(xs, name(adds[k]), name)
    ensures AppendNew(xs, adds, name) == xs
  {
    if adds != [] {
      AppendNewAllPresent(xs, adds[..|adds| - 1], name);
    }
  }

  /** The list branch of `add_surf`/`add_cell` as written: the duplicate
      warning formats `adds.name` on the list, which raises AttributeError
      after the elements before the duplicate were appended. */
  function AppendListAsWritten<T>(existing: seq<T>, adds: seq<T>, name: T -> int): (r: Result<seq<T>>)
    ensures r.Ok? ==> r.value == AppendNew(existing, adds, name)
  {
    if adds == [] then Ok(existing)
    else
      match AppendListAsWritten(existing, adds[..|adds| - 1], name)
      case Err(e) => Err(e)
      case Ok(prev) =>
        var y := adds[|adds| - 1];
        if NameIn(prev, name(y), name) then Err(AttributeError("'list' object has no attribute 'name'"))
        else Ok(prev + [y])
  }

  function SurfaceName(s: Surface): int { s.name }
  function CellName(c: Cell): int { c.name }

  /** Adding a list holding an existing surface fails as written, while the
      intended behaviour skips it. */
  lemma DuplicateInListFails()
    ensures var s := Surface(504, "px", DefaultArgs.(d := PyFloat(2.0)), "");
      AppendListAsWritten([s], [s], SurfaceName).Err? &&
      AppendNew([s], [s], SurfaceName) == [s]
  {
    var s := Surface(504, "px", DefaultArgs.(d := PyFloat(2.0)), "");
    assert [s][..0] == [];
    assert NameIn([s], 504, SurfaceName) by { assert SurfaceName([s][0]) == 504; }
  }

  /** The library keys of `adds`, in order, duplicates kept. */
  function KnownKeys(adds: seq<string>, lib: set<string>): (r: seq<string>)
    ensures |r| <= |adds|
    ensures forall k :: 0 <= k < |r| ==> r[k] in lib
  {
    if adds == [] then []
    else KnownKeys(adds[..|adds| - 1], lib) + (if adds[|adds| - 1] in lib then [adds[|adds| - 1]] else [])
  }

  /** Every library key of `adds` is kept, so a list of known keys is kept whole. */
  lemma {:induction false} KnownKeysAllKnown(adds: seq<string>, lib: set<string>)
    requires forall k :: 0 <= k < |adds| ==> adds[k] in lib
    ensures KnownKeys(adds, lib) == adds
  {
    if adds != [] {
      KnownKeysAllKnown(adds[..|adds| - 1], lib);
    }
  }

  class Geometry {
    var surfaces: seq<Surface>
    var cells: seq<Cell>
    var matls: seq<string>

    constructor ()
      ensures surfaces == [] && cells == [] && matls == []
    {
      surfaces := [];
      cells := [];
      matls := [];
    }

    /** `add_surf` with one surface: appended unless its name is taken. */
    method AddSurf(add: Surface)
      modifies this`surfaces
      ensures surfaces == AppendNew(old(surfaces), [add], SurfaceName)
    {
      if exists i :: 0 <= i < |surfaces| && surfaces[i].name == add.name {
        assert NameIn(surfaces, add.name, SurfaceName) by {
          var i :| 0 <= i < |surfaces| && surfaces[i].name == add.name;
          assert SurfaceName(surfaces[i]) == add.name;
        }
      } else {
        surfaces := surfaces + [add];
      }
      assert [add][..0] == [];
    }

    /** `add_surf` with a list, skipping taken names (the intended behaviour;
        see `AppendListAsWritten`). */
    method AddSurfs(adds: seq<Surface>)
      modifies this`surfaces
      ensures surfaces == AppendNew(old(surfaces), adds, SurfaceName)
    {
      var i := 0;
      while i < |adds|
        invariant i <= |adds|
        invariant surfaces == AppendNew(old(surfaces), adds[..i], SurfaceName)
      {
        assert adds[..i + 1][..i] == adds[..i];
        var y := adds[i];
        if exists j :: 0 <= j < |surfaces| && surfaces[j].name == y.name {
          assert NameIn(surfaces, y.name, SurfaceName) by {
            var j :| 0 <= j < |surfaces| && surfaces[j].name == y.name;
            assert SurfaceName(surfaces[j]) == y.name;
          }
        } else {
          surfaces := surfaces + [y];
        }
        i := i + 1;
      }
      assert adds[..i] == adds;
    }

    /** `add_cell` with one cell: appended unless its name is taken. */
    method AddCell(add: Cell)
      modifies this`cells
      ensures cells == AppendNew(old(cells), [add], CellName)
    {
      if exists i :: 0 <= i < |cells| && cells[i].name == add.name {
        assert NameIn(cells, add.name, CellName) by {
          var i :| 0 <= i < |cells| && cells[i].name == add.name;
          assert CellName(cells[i]) == add.name;
        }
      } else {
        cells := cells + [add];
      }
      assert [add][..0] == [];
    }

    /** `add_cell` with a list, skipping taken names (the intended behaviour;
        see `AppendListAsWritten`). */
    method AddCells(adds: seq<Cell>)
      modifies this`cells
      ensures cells == AppendNew(old(cells), adds, CellName)
    {
      var i := 0;
      while i < |adds|
        invariant i <= |adds|
        invariant cells == AppendNew(old(cells), adds[..i], CellName)
      {
        assert adds[..i + 1][..i] == adds[..i];
        var y := adds[i];
        if exists j :: 0 <= j < |cells| && cells[j].name == y.name {
          assert NameIn(cells, y.name, CellName) by {
            var j :| 0 <= j < |cells| && cells[j].name == y.name;
            assert CellName(cells[j]) == y.name;
          }
        } else {
          cells := cells + [y];
        }
        i := i + 1;
      }
      assert adds[..i] == adds;
    }

    /** `add_matls` with one key: appended when the library has it, even if
        already listed; otherwise only logged. */
    method AddMatl(lib: set<string>, add: string)
      modifies this`matls
      ensures matls == old(matls) + KnownKeys([add], lib)
    {
      if add in lib {
        matls := matls + [add];
      }
      assert [add][..0] == [];
    }

    /** `add_matls` with a list of keys. */
    method AddMatls(lib: set<string>, adds: seq<string>)
      modifies this`matls
      ensures matls == old(matls) + KnownKeys(adds, lib)
    {
      var i := 0;
      while i < |adds|
        invariant i <= |adds|
        invariant matls == old(matls) + KnownKeys(adds[..i], lib)
      {
        assert adds[..i + 1][..i] == adds[..i];
        if adds[i] in lib {
          matls := matls + [adds[i]];
        }
        i := i + 1;
      }
      assert adds[..i] == adds;
    }
  }

  /** Adding the same two known keys twice lists four materials. */
  lemma MaterialsAddedTwice(a: string, b: string, lib: set<string>)
    requires a in lib && b in lib
    ensures |KnownKeys([a, b], lib) + KnownKeys([a, b], lib)| == 4
  {
    KnownKeysAllKnown([a, b], lib);
  }
}
