// The material library's element densities and pruning (Code/NuclearData.py).
// A library maps material names to their mass densities; the other material
// data (composition, metadata) is not part of this model.
module NuclearData {
  import opened Wrappers
  import opened PyMath

  // ---------------------------------------------------------------------------
  // Tables

  /** The element densities (g/cm^3) `Set_Density` assigns. */
  const DensityTable: map<string, real> := map[
    "H" := 0.0000899, "He" := 0.0001785, "Li" := 0.535, "Be" := 1.848, "B" := 2.370,
    "C" := 2.260, "N" := 0.001251, "O" := 0.001429, "F" := 0.001696, "Ne" := 0.000900,
    "Na" := 0.968, "Mg" := 1.738, "Al" := 2.7, "Si" := 2.330, "P" := 1.823,
    "S" := 1.960, "Cl" := 0.003214, "Ar" := 0.001784, "K" := 0.856, "Ca" := 1.550,
    "Sc" := 2.985, "Ti" := 4.507, "V" := 6.110, "Cr" := 7.190, "Mn" := 7.470,
    "Fe" := 7.874, "Co" := 8.9, "Ni" := 8.908, "Cu" := 8.960, "Zn" := 7.140,
    "Ga" := 5.904, "Ge" := 5.323, "As" := 5.727, "Se" := 4.819, "Br" := 3.120,
    "Kr" := 0.00375, "Rb" := 1.532, "Sr" := 2.630, "Y" := 4.472, "Zr" := 6.511,
    "Nb" := 8.570, "Mo" := 10.280, "Ru" := 12.370, "Rh" := 12.450, "Pd" := 12.023,
    "Ag" := 10.490, "Cd" := 8.650, "In" := 7.310, "Sn" := 7.310, "Sb" := 6.697,
    "Te" := 6.240, "I" := 4.940, "Xe" := 0.0059, "Cs" := 1.879, "Ba" := 3.510,
    "La" := 6.146, "Ce" := 6.689, "Pr" := 6.640, "Nd" := 7.010, "Sm" := 7.353,
    "Eu" := 5.244, "Gd" := 7.901, "Tb" := 8.219, "Dy" := 8.551, "Ho" := 8.795,
    "Er" := 9.066, "Tm" := 9.320, "Yb" := 6.570, "Lu" := 9.841, "Hf" := 13.310,
    "Ta" := 16.650, "W" := 19.250, "Re" := 21.020, "Os" := 22.59, "Ir" := 22.56,
    "Pt" := 21.450, "Au" := 19.3, "Hg" := 13.534, "Tl" := 11.850, "Pb" := 11.340,
    "Bi" := 9.780, "Th" := 11.724, "U" := 19.050, "Pa" := 15.4]

  /** The element `Strip_Undesireables` always removes. */
  const Protactinium: string := "Pa"

  /** The gases, liquids and expensive elements removed on request. */
  const Gases: seq<string> := ["H", "He", "N", "O", "F", "Ne", "Cl", "Ar", "Kr", "Xe"]
  const Liquids: seq<string> := ["Br", "Hg", "Cs"]
  const Expensive: seq<string> :=
    ["Sc", "Ge", "As", "Se", "Rb", "Pd", "Ag", "Ho", "Tm", "Yb",
     "Lu", "Re", "Os", "Ir", "Rh", "Pt", "Tl", "Th", "U"]

  function Elements<T>(names: seq<T>): set<T>
  {
    set x | x in names
  }

  predicate NoDuplicates<T(==)>(names: seq<T>)
  {
    forall i, j :: 0 <= i < j < |names| ==> names[i] != names[j]
  }

  /** Every name `Strip_Undesireables` deletes for the given flags. */
  function Removed(gases: bool, liquids: bool, expensive: bool): set<string>
  {
    {Protactinium}
    + (if gases then Elements(Gases) else {})
    + (if liquids then Elements(Liquids) else {})
    + (if expensive then Elements(Expensive) else {})
  }

  /** The library after stripping: every other entry, unchanged. */
  function Stripped(lib: map<string, real>, gases: bool, liquids: bool, expensive: bool): (r: map<string, real>)
    ensures r.Keys == lib.Keys - Removed(gases, liquids, expensive)
    ensures forall n :: n in r ==> r[n] == lib[n]
  {
    lib - Removed(gases, liquids, expensive)
  }

  // ---------------------------------------------------------------------------
  // The library

  /** A material library: material name to density. */
  class MaterialLibrary {
    var density: map<string, real>

    constructor (density: map<string, real>)
      ensures this.density == density
    {
      this.density := density;
    }

    /** The loop of `Set_Density` over a table: each listed name present in
        the library gets the table's density; names not in the library are
        only logged. */
    method SetDensities(table: map<string, real>)
      modifies this
      ensures density.Keys == old(density).Keys
      ensures forall n :: n in density ==>
        density[n] == (if n in table then table[n] else old(density)[n])
    {
      var todo := table.Keys;
      while todo != {}
        invariant todo <= table.Keys
        invariant density.Keys == old(density).Keys
        invariant forall n :: n in density ==>
          density[n] == (if n in table && n !in todo then table[n] else old(density)[n])
        decreases todo
      {
        var n :| n in todo;
        if n in density {
          density := density[n := table[n]];
        }
        todo := todo - {n};
      }
    }

    /** `Set_Density`: the element densities of `DensityTable`. */
    method SetDensity()
      modifies this
      ensures density.Keys == old(density).Keys
      ensures forall n :: n in density ==>
        density[n] == (if n in DensityTable then DensityTable[n] else old(density)[n])
    {
      SetDensities(DensityTable);
    }

    /** Deletes every listed name present in the library; absent names are
        only logged. */
    method RemoveAll(names: seq<string>)
      modifies this
      ensures density == old(density) - Elements(names)
    {
      var i := 0;
      while i < |names|
        invariant i <= |names|
        invariant density == old(density) - Elements(names[..i])
      {
        assert Elements(names[..i + 1]) == Elements(names[..i]) + {names[i]} by {
          assert names[..i + 1] == names[..i] + [names[i]];
        }
        if names[i] in density {
          density := density - {names[i]};
        }
        i := i + 1;
      }
      assert names[..i] == names;
    }

    /** `Strip_Undesireables`: removes 'Pa' and, per flag, the gases, the
        liquids and the expensive elements. */
    method StripUndesireables(gases: bool, liquids: bool, expensive: bool)
      modifies this
      ensures density == Stripped(old(density), gases, liquids, expensive)
    {
      ghost var start := density;
      ghost var gone: set<string> := {Protactinium};
      if Protactinium in density {
        density := density - {Protactinium};
      }
      assert density == start - gone;
      if gases {
        RemoveAll(Gases);
        MinusTwice(start, gone, Elements(Gases));
        gone := gone + Elements(Gases);
      }
      if liquids {
        RemoveAll(Liquids);
        MinusTwice(start, gone, Elements(Liquids));
        gone := gone + Elements(Liquids);
      }
      if expensive {
        RemoveAll(Expensive);
        MinusTwice(start, gone, Elements(Expensive));
        gone := gone + Elements(Expensive);
      }
      assert gone == Removed(gases, liquids, expensive);
    }

    /** The check of `Build_Matlib`: the run stops (sys.exit) when an entry
        still has the unset density -1. */
    method CheckDensities() returns (r: Result<()>)
      ensures r.Err? <==> exists n :: n in density && density[n] == -1.0
      ensures r.Err? ==> r.error.SystemExit?
    {
      var todo := density.Keys;
      while todo != {}
        invariant todo <= density.Keys
        invariant forall n :: n in density && n !in todo ==> density[n] != -1.0
        decreases todo
      {
        var n :| n in todo;
        if density[n] == -1.0 {
          return Err(SystemExit(n + " does not have a density."));
        }
        todo := todo - {n};
      }
      return Ok(());
    }
  }

  /** `Build_Matlib` after the library has been made: densities, the check,
      then stripping. */
  method BuildMatlib(made: map<string, real>, gases: bool, liquids: bool, expensive: bool)
    returns (r: Result<map<string, real>>)
    ensures var dens := Densified(made);
      (r.Err? <==> exists n :: n in dens && dens[n] == -1.0)
      && (r.Ok? ==> r.value == Stripped(dens, gases, liquids, expensive))
  {
    var lib := new MaterialLibrary(made);
    lib.SetDensity();
    assert lib.density == Densified(made);
    var ok := lib.CheckDensities();
    if ok.Err? {
      return Err(ok.error);
    }
    lib.StripUndesireables(gases, liquids, expensive);
    return Ok(lib.density);
  }

  /** The library after `Set_Density`. */
  function Densified(made: map<string, real>): (r: map<string, real>)
    ensures r.Keys == made.Keys
  {
    map n | n in made :: if n in DensityTable then DensityTable[n] else made[n]
  }

  // ---------------------------------------------------------------------------
  // Moderating ratios

  datatype ModeratingRatio = ModeratingRatio(name: string, mr1MeV: real, mr14MeV: real)

  /** The `Moderating_Ratio` constructor: both ratios must be floats. An
      omitted ratio (None) takes the default int 0 and so fails the check. */
  function MakeModeratingRatio(name: string, mr1MeV: Option<PyNum>, mr14MeV: Option<PyNum>): (r: Result<ModeratingRatio>)
    ensures r.Ok? <==> mr1MeV.Some? && mr1MeV.value.PyFloat? && mr14MeV.Some? && mr14MeV.value.PyFloat?
    ensures r.Ok? ==> r.value == ModeratingRatio(name, mr1MeV.value.f, mr14MeV.value.f)
    ensures r.Err? ==> r.error.AssertionError?
  {
    var m1 := if mr1MeV.Some? then mr1MeV.value else PyInt(0);
    var m14 := if mr14MeV.Some? then mr14MeV.value else PyInt(0);
    if !m1.PyFloat? then Err(AssertionError("mr_1MeV must be of type float."))
    else if !m14.PyFloat? then Err(AssertionError("mr_14MeV must be of type float."))
    else Ok(ModeratingRatio(name, m1.f, m14.f))
  }

  // ---------------------------------------------------------------------------
  // Properties

  /** Setting the densities twice is the same as setting them once. */
  lemma DensifiedIdempotent(made: map<string, real>)
    ensures Densified(Densified(made)) == Densified(made)
  {
  }

  /** Setting the densities after stripping gives the stripped library with
      densities set: the two steps commute. */
  lemma DensifyStripCommute(made: map<string, real>, g: bool, l: bool, e: bool)
    ensures Densified(Stripped(made, g, l, e)) == Stripped(Densified(made), g, l, e)
  {
    var a, b := Densified(Stripped(made, g, l, e)), Stripped(Densified(made), g, l, e);
    assert a.Keys == b.Keys;
    assert forall n :: n in a ==> a[n] == b[n];
  }

  /** Removing two sets of keys in turn removes their union. */
  lemma MinusTwice<K, V>(m: map<K, V>, a: set<K>, b: set<K>)
    ensures (m - a) - b == m - (a + b)
  {
  }

  /** Stripping again with the same or fewer flags changes nothing more, and
      stripping with growing flags is the same as stripping once with the
      larger flags. */
  lemma StripCumulative(lib: map<string, real>, g1: bool, l1: bool, e1: bool, g2: bool, l2: bool, e2: bool)
    requires (g1 ==> g2) && (l1 ==> l2) && (e1 ==> e2)
    ensures Stripped(Stripped(lib, g1, l1, e1), g2, l2, e2) == Stripped(lib, g2, l2, e2)
  {
    assert Removed(g1, l1, e1) <= Removed(g2, l2, e2);
  }

  /** Stripping is idempotent. */
  lemma StripIdempotent(lib: map<string, real>, g: bool, l: bool, e: bool)
    ensures Stripped(Stripped(lib, g, l, e), g, l, e) == Stripped(lib, g, l, e)
  {
    StripCumulative(lib, g, l, e, g, l, e);
  }

  /** When every removable element is in the library, the library shrinks by
      exactly the number of removed names. */
  lemma StrippedSize(lib: map<string, real>, g: bool, l: bool, e: bool)
    requires Removed(g, l, e) <= lib.Keys
    ensures |Stripped(lib, g, l, e)| == |lib| - |Removed(g, l, e)|
  {
    var r := Removed(g, l, e);
    assert lib.Keys == Stripped(lib, g, l, e).Keys + r;
    assert |lib.Keys| == |lib|;
  }

  /** A list without duplicates has as many elements as entries. */
  lemma {:induction false} ElementsSize<T>(names: seq<T>)
    requires NoDuplicates(names)
    ensures |Elements(names)| == |names|
  {
    if names != [] {
      var front := names[..|names| - 1];
      ElementsSize(front);
      assert Elements(names) == Elements(front) + {names[|names| - 1]};
      assert names[|names| - 1] !in Elements(front);
    }
  }

  lemma GasesDistinct() ensures NoDuplicates(Gases) {}
  lemma LiquidsDistinct() ensures NoDuplicates(Liquids) {}
  lemma ExpensiveDistinct() ensures NoDuplicates(Expensive) {}
  lemma GasesLiquidsDisjoint() ensures Elements(Gases) !! Elements(Liquids) {}
  lemma GasesExpensiveDisjoint() ensures Elements(Gases) !! Elements(Expensive) {}
  lemma LiquidsExpensiveDisjoint() ensures Elements(Liquids) !! Elements(Expensive) {}
  lemma ProtactiniumListed()
    ensures Protactinium !in Elements(Gases) + Elements(Liquids) + Elements(Expensive)
  {
  }

  /** Each flag adds its whole list: 1 name always, 10 gases, 3 liquids and
      19 expensive elements. */
  lemma RemovedSize(gases: bool, liquids: bool, expensive: bool)
    ensures |Removed(gases, liquids, expensive)|
      == 1 + (if gases then 10 else 0) + (if liquids then 3 else 0) + (if expensive then 19 else 0)
  {
    var p := {Protactinium};
    var g := if gases then Elements(Gases) else {};
    var l := if liquids then Elements(Liquids) else {};
    var e := if expensive then Elements(Expensive) else {};
    ListSizes();
    ListsDisjoint();
    UnionSize(p, g, l, e);
  }

  lemma ListSizes()
    ensures |Elements(Gases)| == 10 && |Elements(Liquids)| == 3 && |Elements(Expensive)| == 19
  {
    GasesDistinct();
    LiquidsDistinct();
    ExpensiveDistinct();
    ElementsSize(Gases);
    ElementsSize(Liquids);
    ElementsSize(Expensive);
  }

  lemma ListsDisjoint()
    ensures Elements(Gases) !! Elements(Liquids) && Elements(Gases) !! Elements(Expensive)
    ensures Elements(Liquids) !! Elements(Expensive)
    ensures Protactinium !in Elements(Gases) + Elements(Liquids) + Elements(Expensive)
  {
    GasesLiquidsDisjoint();
    GasesExpensiveDisjoint();
    LiquidsExpensiveDisjoint();
    ProtactiniumListed();
  }

  lemma UnionSize<T>(p: set<T>, g: set<T>, l: set<T>, e: set<T>)
    requires p !! g && p !! l && p !! e && g !! l && g !! e && l !! e
    ensures |p + g + l + e| == |p| + |g| + |l| + |e|
  {
    DisjointUnionSize(p, g);
    DisjointUnionSize(p + g, l);
    DisjointUnionSize(p + g + l, e);
  }

  lemma DisjointUnionSize<T>(a: set<T>, b: set<T>)
    requires a !! b
    ensures |a + b| == |a| + |b|
  {
  }

  /** Stripping a full library with growing flags, one call after another,
      leaves l-1, l-11, l-14 and l-33 entries. */
  lemma StripSequenceSizes(lib: map<string, real>)
    requires Removed(true, true, true) <= lib.Keys
    ensures var s1 := Stripped(lib, false, false, false);
      var s2 := Stripped(s1, true, false, false);
      var s3 := Stripped(s2, true, true, false);
      var s4 := Stripped(s3, true, true, true);
      |s1| == |lib| - 1 && |s2| == |lib| - 11 && |s3| == |lib| - 14 && |s4| == |lib| - 33
  {
    RemovedSize(false, false, false);
    RemovedSize(true, false, false);
    RemovedSize(true, true, false);
    RemovedSize(true, true, true);
    var s1 := Stripped(lib, false, false, false);
    var s2 := Stripped(s1, true, false, false);
    var s3 := Stripped(s2, true, true, false);
    StripCumulative(lib, false, false, false, true, false, false);
    StripCumulative(lib, true, false, false, true, true, false);
    StripCumulative(lib, true, true, false, true, true, true);
    StrippedSize(lib, false, false, false);
    StrippedSize(lib, true, false, false);
    StrippedSize(lib, true, true, false);
    StrippedSize(lib, true, true, true);
  }
}
