// MCNP cards (Code/MCNP_Utilities.py): surface validation, cells and their
// density field, and the 75-column line wrap of both cards.
module McnpCards {
  import opened Wrappers
  import opened PyMath
  import opened PyText

  // ---------------------------------------------------------------------------
  // Surfaces

  /** The optional numeric arguments of `MCNP_Surface`; each defaults to the int -1. */
  datatype Field = R | D | XMin | XMax | YMin | YMax | ZMin | ZMax
                 | Vx | Vy | Vz | Hx | Hy | Hz | R1 | R2

  datatype SurfaceArgs = SurfaceArgs(
    r: PyNum, d: PyNum,
    xMin: PyNum, xMax: PyNum, yMin: PyNum, yMax: PyNum, zMin: PyNum, zMax: PyNum,
    vx: PyNum, vy: PyNum, vz: PyNum, hx: PyNum, hy: PyNum, hz: PyNum,
    r1: PyNum, r2: PyNum)
  {
    function Get(f: Field): PyNum
    {
      match f
      case R => r
      case D => d
      case XMin => xMin
      case XMax => xMax
      case YMin => yMin
      case YMax => yMax
      case ZMin => zMin
      case ZMax => zMax
      case Vx => vx
      case Vy => vy
      case Vz => vz
      case Hx => hx
      case Hy => hy
      case Hz => hz
      case R1 => r1
      case R2 => r2
    }
  }

  /** Every argument left at its default. */
  const Unset: PyNum := PyInt(-1)
  const DefaultArgs: SurfaceArgs :=
    SurfaceArgs(Unset, Unset, Unset, Unset, Unset, Unset, Unset, Unset,
                Unset, Unset, Unset, Unset, Unset, Unset, Unset, Unset)

  datatype Surface = Surface(name: int, sType: string, args: SurfaceArgs, comment: string)

  /** The surface families the constructor checks, by lower-cased type. */
  datatype SurfaceKind = Round | Plane | Rcc | Rpp | Trc

  function KindOf(sType: string): (k: Option<SurfaceKind>)
    ensures k.Some? <==> Lower(sType) in {"so", "cx", "cy", "cz", "px", "py", "pz", "rcc", "rpp", "trc"}
  {
    var t := Lower(sType);
    if t == "so" || t == "cx" || t == "cy" || t == "cz" then Some(Round)
    else if t == "px" || t == "py" || t == "pz" then Some(Plane)
    else if t == "rcc" then Some(Rcc)
    else if t == "rpp" then Some(Rpp)
    else if t == "trc" then Some(Trc)
    else None
  }

  /** The arguments each family uses, in the order the constructor checks
      their types (MCNP manual macrobody parameters). */
  function UsedFields(k: SurfaceKind): seq<Field>
  {
    match k
    case Round => [R]
    case Plane => [D]
    case Rcc => [Vx, Vy, Vz, Hx, Hy, Hz, R]
    case Rpp => [XMin, XMax, YMin, YMax, ZMin, ZMax]
    case Trc => [Vx, Vy, Vz, Hx, Hy, Hz, R1, R2]
  }

  /** The used arguments that must be strictly positive (radii). */
  function PositiveFields(k: SurfaceKind): seq<Field>
  {
    match k
    case Round => [R]
    case Plane => []
    case Rcc => [R]
    case Rpp => []
    case Trc => [R1, R2]
  }

  /** The arguments each family must leave at -1. */
  function UnusedFields(k: SurfaceKind): seq<Field>
  {
    match k
    case Round => [D, XMin, YMin, ZMin, XMax, YMax, ZMax, Vx, Vy, Vz, Hx, Hy, Hz, R1, R2]
    case Plane => [R, XMin, YMin, ZMin, XMax, YMax, ZMax, Vx, Vy, Vz, Hx, Hy, Hz, R1, R2]
    case Rcc => [D, XMin, YMin, ZMin, XMax, YMax, ZMax, R1, R2]
    case Rpp => [R, D, Vx, Vy, Vz, Hx, Hy, Hz, R1, R2]
    case Trc => [R, D, XMin, YMin, ZMin, XMax, YMax, ZMax]
  }

  /** For every family each argument is either used or left at -1, never
      both, and the radii are among the used ones. */
  lemma FieldTablesPartition(k: SurfaceKind, f: Field)
    ensures f in UsedFields(k) <==> f !in UnusedFields(k)
  {
    match k
    case Round => RoundTablesPartition(f);
    case Plane => PlaneTablesPartition(f);
    case Rcc => RccTablesPartition(f);
    case Rpp => RppTablesPartition(f);
    case Trc => TrcTablesPartition(f);
  }

  lemma RoundTablesPartition(f: Field)
    ensures f in UsedFields(Round) <==> f !in UnusedFields(Round)
  {
  }

  lemma PlaneTablesPartition(f: Field)
    ensures f in UsedFields(Plane) <==> f !in UnusedFields(Plane)
  {
  }

  lemma RccTablesPartition(f: Field)
    ensures f in UsedFields(Rcc) <==> f !in UnusedFields(Rcc)
  {
  }

  lemma RppTablesPartition(f: Field)
    ensures f in UsedFields(Rpp) <==> f !in UnusedFields(Rpp)
  {
  }

  lemma TrcTablesPartition(f: Field)
    ensures f in UsedFields(Trc) <==> f !in UnusedFields(Trc)
  {
  }

  /** The radii checked for positivity are used arguments of the family. */
  lemma RadiiAreUsed(k: SurfaceKind, f: Field)
    requires f in PositiveFields(k)
    ensures f in UsedFields(k)
  {
    match k
    case Round =>
    case Plane =>
    case Rcc =>
    case Rpp =>
    case Trc =>
  }

  predicate AllFloat(a: SurfaceArgs, fs: seq<Field>)
  {
    forall i :: 0 <= i < |fs| ==> a.Get(fs[i]).PyFloat?
  }

  predicate AllPositive(a: SurfaceArgs, fs: seq<Field>)
  {
    forall i :: 0 <= i < |fs| ==> a.Get(fs[i]).Value() > 0.0
  }

  predicate AllUnset(a: SurfaceArgs, fs: seq<Field>)
  {
    forall i :: 0 <= i < |fs| ==> a.Get(fs[i]).Value() == -1.0
  }

  /** A surface of family k: its used arguments are floats, its radii are
      positive and every other argument is still -1. */
  predicate WellFormed(a: SurfaceArgs, k: SurfaceKind)
  {
    AllFloat(a, UsedFields(k)) && AllPositive(a, PositiveFields(k)) && AllUnset(a, UnusedFields(k))
  }

  /** The first argument of fs that is not a float, if any. */
  function FirstNonFloat(a: SurfaceArgs, fs: seq<Field>): (r: Option<Field>)
    ensures r.None? <==> AllFloat(a, fs)
    ensures r.Some? ==> r.value in fs && !a.Get(r.value).PyFloat?
  {
    if fs == [] then None
    else if !a.Get(fs[0]).PyFloat? then Some(fs[0])
    else
      var rest := FirstNonFloat(a, fs[1..]);
      assert AllFloat(a, fs[1..]) ==> AllFloat(a, fs) by {
        if AllFloat(a, fs[1..]) {
          forall i | 0 <= i < |fs| ensures a.Get(fs[i]).PyFloat? {
            if i > 0 { assert fs[i] == fs[1..][i - 1]; }
          }
        }
      }
      rest
  }

  /** The argument's name in the constructor's messages. */
  function FieldName(f: Field): string
  {
    match f
    case R => "R"
    case D => "D"
    case XMin => "x_min"
    case XMax => "x_max"
    case YMin => "y_min"
    case YMax => "y_max"
    case ZMin => "z_min"
    case ZMax => "z_max"
    case Vx => "vx"
    case Vy => "vy"
    case Vz => "vz"
    case Hx => "hx"
    case Hy => "hy"
    case Hz => "hz"
    case R1 => "r1"
    case R2 => "r2"
  }

  function PositiveMsg(k: SurfaceKind): string
  {
    if k == Trc then "r1 and r2 must be greater than zero." else "r must be greater than zero."
  }

  function NotUsedMsg(sType: string): string
  {
    "All non used attributes for surface type " + sType + " must not be specified."
  }

  /** The assertions of the `MCNP_Surface` constructor, in the order it makes
      them: the used arguments' types, then the radii, then the unused
      arguments. An unknown type is only logged: the constructor names
      `sys.exit` without calling it, so the surface is kept. */
  function CheckSurface(s: Surface): (r: Result<Surface>)
    ensures r.Ok? ==> r.value == s
    ensures r.Ok? <==> KindOf(s.sType).None? || WellFormed(s.args, KindOf(s.sType).value)
    ensures r.Err? ==> r.error.AssertionError?
  {
    var a := s.args;
    match KindOf(s.sType)
    case None => Ok(s)
    case Some(k) =>
      match FirstNonFloat(a, UsedFields(k))
      case Some(f) => Err(AssertionError(FieldName(f) + " must be of type float."))
      case None =>
        if !AllPositive(a, PositiveFields(k)) then Err(AssertionError(PositiveMsg(k)))
        else if !AllUnset(a, UnusedFields(k)) then Err(AssertionError(NotUsedMsg(s.sType)))
        else Ok(s)
  }

  // ---------------------------------------------------------------------------
  // Cells

  datatype Cell = Cell(name: int, m: int, units: string, d: real, geom: string,
                       imp: (int, int), comment: string)

  /** The `MCNP_Cell` constructor: the density must be a float. */
  function MakeCell(name: int, m: int, units: string, dens: PyNum, geom: string,
                    imp: (int, int), comment: string): (r: Result<Cell>)
    ensures r.Ok? <==> dens.PyFloat?
    ensures r.Ok? ==> r.value == Cell(name, m, units, dens.f, geom, imp, comment)
  {
    if !dens.PyFloat? then Err(AssertionError("dens must be of type float."))
    else Ok(Cell(name, m, units, dens.f, geom, imp, comment))
  }

  /** The density units a cell card understands, matched after strip() and
      lower(). */
  datatype Units = Atom | Mass | Void

  function UnitsOf(units: string): (u: Option<Units>)
    ensures u == Some(Atom) <==> Lower(Strip(units)) == "atom"
    ensures u == Some(Mass) <==> Lower(Strip(units)) == "mass"
    ensures u == Some(Void) <==> Lower(Strip(units)) == "void"
  {
    var key := Lower(Strip(units));
    if key == "atom" then Some(Atom)
    else if key == "mass" then Some(Mass)
    else if key == "void" then Some(Void)
    else None
  }

  /** The density field the cell card prints: as given for atom densities,
      negated for mass densities and absent for void. Other units leave the
      card unassigned. */
  function DensityField(c: Cell): (r: Result<Option<real>>)
    ensures r.Err? <==> UnitsOf(c.units).None?
    ensures r.Ok? ==> (r.value.None? <==> UnitsOf(c.units) == Some(Void))
    ensures r.Ok? && r.value.Some? ==> r.value.value == c.d || r.value.value == -c.d
  {
    match UnitsOf(c.units)
    case Some(Atom) => Ok(Some(c.d))
    case Some(Mass) => Ok(Some(-c.d))
    case Some(Void) => Ok(None)
    case None => Err(UnboundLocalError("cell"))
  }

  /** A cell in atom units prints its density as given, a cell in mass
      units prints it negated. */
  lemma DensitySign(c: Cell)
    requires UnitsOf(c.units).Some? && UnitsOf(c.units).value != Void
    ensures DensityField(c) == Ok(Some(if UnitsOf(c.units) == Some(Atom) then c.d else -c.d))
  {
  }

  // ---------------------------------------------------------------------------
  // The 75-column wrap of surface and cell cards

  const WrapLimit: nat := 75
  const Continuation: string := "\n    "

  /** The wrap loop's state: finished chunks and the chunk being filled. */
  datatype WrapState = WrapState(done: seq<string>, tmp: string)

  /** One word: it joins the current chunk while the chunk plus the word is
      under 75 characters, otherwise the chunk is finished and the word starts
      the next one after a blank. */
  function WrapStep(st: WrapState, w: string): WrapState
  {
    if |st.tmp + w| < WrapLimit then
      WrapState(st.done, if st.tmp == "" then w else st.tmp + " " + w)
    else WrapState(st.done + [st.tmp], " " + w)
  }

  function WrapWords(words: seq<string>): WrapState
  {
    if words == [] then WrapState([], "")
    else WrapStep(WrapWords(words[..|words| - 1]), words[|words| - 1])
  }

  /** The finished chunks, each followed by the continuation break. */
  function Broken(done: seq<string>): string
  {
    if done == [] then "" else Broken(done[..|done| - 1]) + done[|done| - 1] + Continuation
  }

  /** The wrap at the end of `MCNP_Surface.__str__` and `MCNP_Cell.__str__`. */
  method Wrap(line: string) returns (r: string)
    ensures |line| <= WrapLimit ==> r == line
    ensures |line| > WrapLimit ==>
      var st := WrapWords(Split(line, ' '));
      r == Broken(st.done) + st.tmp
  {
    if |line| <= WrapLimit {
      return line;
    }
    var words := Split(line, ' ');
    var out := "";
    var tmp := "";
    var i := 0;
    while i < |words|
      invariant i <= |words|
      invariant out == Broken(WrapWords(words[..i]).done) && tmp == WrapWords(words[..i]).tmp
    {
      assert words[..i + 1][..i] == words[..i];
      var w := words[i];
      if |tmp + w| < WrapLimit {
        if tmp == "" {
          tmp := tmp + w;
        } else {
          tmp := tmp + " " + w;
        }
      } else {
        out := out + tmp + Continuation;
        tmp := " " + w;
      }
      i := i + 1;
    }
    assert words[..i] == words;
    r := out + tmp;
  }

  /** Removing the continuation breaks gives the words back, blanks and all,
      when the first word is non-empty and under 75 characters. */
  lemma {:induction false} WrapKeepsText(words: seq<string>)
    requires |words| >= 1 && words[0] != "" && |words[0]| < WrapLimit
    ensures WrapWords(words).tmp != ""
    ensures Concat(WrapWords(words).done) + WrapWords(words).tmp == Join(words, ' ')
  {
    var n := |words|;
    if n == 1 {
      assert words[..0] == [];
    } else {
      var p := words[..n - 1];
      WrapKeepsText(p);
      JoinSnoc(p, words[n - 1], ' ');
      assert p + [words[n - 1]] == words;
      var st := WrapWords(p);
      if |st.tmp + words[n - 1]| >= WrapLimit {
        assert (st.done + [st.tmp])[..|st.done|] == st.done;
      }
    }
  }

  /** Every chunk is at most 75 characters when every word is under 75. */
  lemma {:induction false} WrapChunksFit(words: seq<string>)
    requires forall k :: 0 <= k < |words| ==> |words[k]| < WrapLimit
    ensures |WrapWords(words).tmp| <= WrapLimit
    ensures forall k :: 0 <= k < |WrapWords(words).done| ==> |WrapWords(words).done[k]| <= WrapLimit
  {
    if words != [] {
      WrapChunksFit(words[..|words| - 1]);
    }
  }

  /** A long line wraps into chunks that concatenate back to the line. */
  lemma WrapLineKeepsText(line: string)
    requires |line| > WrapLimit && line[0] != ' '
    requires |Split(line, ' ')[0]| < WrapLimit
    ensures var st := WrapWords(Split(line, ' '));
      Concat(st.done) + st.tmp == line
  {
    var words := Split(line, ' ');
    JoinSplit(line, ' ');
    SplitHead(line, ' ');
    WrapKeepsText(words);
  }

  /** The first piece of a split starts the text. */
  lemma {:induction false} SplitHead(s: string, sep: char)
    requires s != [] && s[0] != sep
    ensures Split(s, sep)[0] != ""
  {
  }
}
