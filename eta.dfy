// The ETA design parameters of Code/ETA_Utilities.py: the defaults and
// checks of the `ETA_Parameters` constructor, the keyword file read by
// `read_constraints`, and the scaling of the minimum fission count by the
// source strength and the volume of the fissile TOAD foil.
module EtaUtilities {
  import opened Wrappers
  import opened PyText
  import opened KeywordFile

  /** The attributes of `ETA_Parameters` that the constraints file sets. */
  datatype EtaKey =
    | MinFiss | MaxWeight | Src
    | TccDist | TDs | TW | SnoutDist | TC | TM | RF | RO | Theta
    | DsMat | StructMat | FillMat | FissileMat
    | TNas | RNas | NasMat
    | NasMatF | TNasF | RNasF | ToadLoc
    | ToadMat | ToadMatF | TToad | RToad
    | HolderMat | HFillMat | TH
    | MaxVert | MaxHoriz

  function KindOf(k: EtaKey): Kind
  {
    match k
    case DsMat | StructMat | FillMat | FissileMat | NasMat | ToadLoc | ToadMat
       | HolderMat | HFillMat => TextKind
    case NasMatF | ToadMatF => TextListKind
    case TNasF | TToad => RealListKind
    case MaxVert | MaxHoriz => IntKind
    case _ => RealKind
  }

  /** The keywords of the constraints file, lower-cased, in the order the
      reader tests them. */
  const EtaTable: seq<(string, EtaKey)> := [
    ("minimum fissions", MinFiss), ("eta max weight", MaxWeight), ("source strength", Src),
    ("tcc to eta distance", TccDist), ("debris shield thickness", TDs),
    ("eta wall thickness", TW), ("snout distance", SnoutDist),
    ("eta back cover thickness", TC), ("eta to snout mount thickness", TM),
    ("eta face radius", RF), ("eta cone outer radius", RO), ("eta cone opening angle", Theta),
    ("debris shield material", DsMat), ("eta structural material", StructMat),
    ("eta void fill material", FillMat), ("fissile foil", FissileMat),
    ("nas thickness", TNas), ("nas radius", RNas), ("nas material", NasMat),
    ("nas activation foils", NasMatF), ("nas activation foil thickness", TNasF),
    ("nas activation foil radius", RNasF), ("toad follows material", ToadLoc),
    ("toad material", ToadMat), ("toad activation foils", ToadMatF),
    ("toad activation foil thickness", TToad), ("toad activation foil radius", RToad),
    ("holder material", HolderMat), ("holder fill material", HFillMat),
    ("holder wall thickness", TH),
    ("max vertical components", MaxVert), ("max horizontal components", MaxHoriz)]

  const AllKeys: set<EtaKey> := {
    MinFiss, MaxWeight, Src, TccDist, TDs, TW, SnoutDist, TC, TM, RF, RO, Theta,
    DsMat, StructMat, FillMat, FissileMat, TNas, RNas, NasMat,
    NasMatF, TNasF, RNasF, ToadLoc, ToadMat, ToadMatF, TToad, RToad,
    HolderMat, HFillMat, TH, MaxVert, MaxHoriz}

  lemma InAllKeys(k: EtaKey)
    ensures k in AllKeys
  {
  }

  /** The constructor's default arguments. */
  function DefaultValue(k: EtaKey): (v: Value)
    ensures HasKind(v, KindOf(k))
  {
    match k
    case MinFiss => RealV(5e8)
    case MaxWeight => RealV(125.0)
    case Src => RealV(5e15)
    case TccDist => RealV(15.24)
    case TDs => RealV(0.3)
    case TW => RealV(0.5)
    case SnoutDist => RealV(52.14)
    case TC => RealV(1.0)
    case TM => RealV(2.4)
    case RF => RealV(5.48)
    case RO => RealV(9.39)
    case Theta => RealV(70.22)
    case DsMat => TextV("Al")
    case StructMat => TextV("Al")
    case FillMat => TextV("Air (dry near sea level)")
    case FissileMat => TextV("Pb")
    case TNas => RealV(0.014)
    case RNas => RealV(2.69)
    case NasMat => TextV("Al")
    case TNasF => RealsV([0.1, 0.1, 0.1, 0.1, 0.01])
    case RNasF => RealV(2.5)
    case NasMatF => TextsV(["Zr", "Zn", "In", "Al", "Ta"])
    case ToadLoc => TextV("In")
    case ToadMat => TextV("Al")
    case TToad => RealsV([0.0254, 0.0127])
    case RToad => RealV(1.252)
    case ToadMatF => TextsV(["Au", "Pb"])
    case HolderMat => TextV("Al")
    case HFillMat => TextV("Fe")
    case TH => RealV(2.0)
    case MaxVert => IntV(3)
    case MaxHoriz => IntV(7)
  }

  function DefaultArgs(): map<EtaKey, Value>
  {
    map k | k in AllKeys :: DefaultValue(k)
  }

  /** Attributes for every keyword, each of its keyword's kind. */
  predicate Complete(attrs: map<EtaKey, Value>)
  {
    (forall k :: k in attrs) && Typed(KindOf, attrs)
  }

  lemma DefaultsComplete()
    ensures Complete(DefaultArgs())
  {
    forall k ensures k in DefaultArgs() {
      InAllKeys(k);
    }
  }

  /** The value of `math.pi` as a double. */
  const Pi: real := 3.141592653589793

  /** `src * r_toad**2 * pi * t`: source neutrons times the volume of a
      foil of thickness t. */
  function FissionScale(src: real, rToad: real, t: real): real
  {
    src * rToad * rToad * Pi * t
  }

  /** The index the read loop leaves in `ind`: the last foil named like the
      fissile material, None (`ind` unbound) when there is none. */
  function LastIndexOf(names: seq<string>, x: string): (r: Option<nat>)
    ensures r.None? <==> x !in names
    ensures r.Some? ==> r.value < |names| && names[r.value] == x
    ensures r.Some? ==> forall j :: r.value < j < |names| ==> names[j] != x
  {
    if names == [] then None
    else if names[|names| - 1] == x then Some(|names| - 1)
    else LastIndexOf(names[..|names| - 1], x)
  }

  /** The index of the fissile foil among the TOAD foils. */
  function FissileFoil(attrs: map<EtaKey, Value>): Option<nat>
    requires Complete(attrs)
  {
    LastIndexOf(attrs[ToadMatF].ss, attrs[FissileMat].s)
  }

  /** The source strength times the volume of TOAD foil i. */
  function FoilScale(attrs: map<EtaKey, Value>, i: nat): real
    requires Complete(attrs) && i < |attrs[TToad].rs|
  {
    FissionScale(attrs[Src].r, attrs[RToad].r, attrs[TToad].rs[i])
  }

  /** Whether min_fiss can be divided by the fissile foil's volume. */
  predicate Scalable(attrs: map<EtaKey, Value>)
    requires Complete(attrs)
  {
    FissileFoil(attrs).Some? && FissileFoil(attrs).value < |attrs[TToad].rs| &&
    FoilScale(attrs, FissileFoil(attrs).value) != 0.0
  }

  /** `min_fiss / (src * r_toad**2 * pi * t_toad[ind])` with ind the index
      of the fissile foil among the TOAD foils. */
  function ScaleMinFiss(attrs: map<EtaKey, Value>): (r: Result<map<EtaKey, Value>>)
    requires Complete(attrs)
    ensures r.Ok? <==> Scalable(attrs)
    ensures r.Ok? ==> Complete(r.value) && r.value == attrs[MinFiss := r.value[MinFiss]]
    ensures r.Ok? ==> r.value[MinFiss].r * FoilScale(attrs, FissileFoil(attrs).value) == attrs[MinFiss].r
    ensures r.Ok? ==> FissileFoil(r.value) == FissileFoil(attrs) && Scalable(r.value) &&
                      FoilScale(r.value, FissileFoil(attrs).value) == FoilScale(attrs, FissileFoil(attrs).value)
  {
    match FissileFoil(attrs)
    case None => Err(UnboundLocalError(IndUnbound))
    case Some(ind) =>
      if ind >= |attrs[TToad].rs| then Err(IndexError(OutOfRange))
      else
        var scale := FoilScale(attrs, ind);
        if scale == 0.0 then Err(ZeroDivisionError)
        else Ok(attrs[MinFiss := RealV(attrs[MinFiss].r / scale)])
  }

  const IndUnbound := "local variable 'ind' referenced before assignment"
  const OutOfRange := "list index out of range"
  const NasMismatch := "The number of thicknesses and materials for the NAS must be equal."
  const ToadMismatch := "The number of thicknesses and materials for the TOAD must be equal."

  /** The two length checks of the constructor. */
  function CheckFoils(args: map<EtaKey, Value>): (r: Result<()>)
    requires Complete(args)
    ensures r.Ok? <==> |args[TNasF].rs| == |args[NasMatF].ss| && |args[TToad].rs| == |args[ToadMatF].ss|
    ensures r.Err? ==> r.error.AssertionError?
  {
    if |args[TNasF].rs| != |args[NasMatF].ss| then
      Err(AssertionError(NasMismatch))
    else if |args[TToad].rs| != |args[ToadMatF].ss| then
      Err(AssertionError(ToadMismatch))
    else Ok(())
  }

  /** The constructor as written: the search for the fissile foil compares
      (index, name) pairs from `enumerate` with a name, never finds one and
      falls back to -1, so the last TOAD foil's thickness is used whatever
      the fissile material. */
  function ConstructAsWritten(args: map<EtaKey, Value>): (r: Result<map<EtaKey, Value>>)
    requires Complete(args)
    ensures r.Ok? ==> Complete(r.value) && r.value == args[MinFiss := r.value[MinFiss]]
    ensures r.Ok? ==> args[TToad].rs != [] &&
                      r.value[MinFiss].r * FoilScale(args, |args[TToad].rs| - 1) == args[MinFiss].r
  {
    match CheckFoils(args)
    case Err(e) => Err(e)
    case Ok(_) =>
      var t := args[TToad].rs;
      if t == [] then Err(IndexError(OutOfRange))
      else
        var scale := FoilScale(args, |t| - 1);
        if scale == 0.0 then Err(ZeroDivisionError)
        else Ok(args[MinFiss := RealV(args[MinFiss].r / scale)])
  }

  /** The constructor as intended: the thickness of the fissile foil, found
      as the read loop finds it. */
  function Construct(args: map<EtaKey, Value>): (r: Result<map<EtaKey, Value>>)
    requires Complete(args)
    ensures r.Ok? ==> Complete(r.value)
    ensures r.Err? <==> CheckFoils(args).Err? || ScaleMinFiss(args).Err?
  {
    match CheckFoils(args)
    case Err(e) => Err(e)
    case Ok(_) => ScaleMinFiss(args)
  }

  /** The constructor's default arguments for the foils and the source. */
  predicate DefaultFoils(a: map<EtaKey, Value>)
  {
    Complete(a) && CheckFoils(a).Ok? &&
    a[ToadMatF] == TextsV(["Au", "Pb"]) && a[TToad] == RealsV([0.0254, 0.0127]) &&
    a[Src] == RealV(5e15) && a[RToad] == RealV(1.252) && a[MinFiss] == RealV(5e8)
  }

  lemma DefaultsHaveFoils()
    ensures DefaultFoils(DefaultArgs()) && DefaultArgs()[FissileMat] == TextV("Pb")
  {
    DefaultsComplete();
    DefaultLists();
    DefaultSource();
  }

  lemma DefaultLists()
    ensures DefaultArgs()[TNasF] == RealsV([0.1, 0.1, 0.1, 0.1, 0.01])
    ensures DefaultArgs()[NasMatF] == TextsV(["Zr", "Zn", "In", "Al", "Ta"])
    ensures DefaultArgs()[TToad] == RealsV([0.0254, 0.0127])
    ensures DefaultArgs()[ToadMatF] == TextsV(["Au", "Pb"])
  {
    InAllKeys(TNasF);
    InAllKeys(NasMatF);
    InAllKeys(TToad);
    InAllKeys(ToadMatF);
  }

  lemma DefaultSource()
    ensures DefaultArgs()[Src] == RealV(5e15) && DefaultArgs()[RToad] == RealV(1.252)
    ensures DefaultArgs()[MinFiss] == RealV(5e8) && DefaultArgs()[FissileMat] == TextV("Pb")
  {
    InAllKeys(Src);
    InAllKeys(RToad);
    InAllKeys(MinFiss);
    InAllKeys(FissileMat);
  }

  /** With the default foils, the constructor divides min_fiss by the
      volume of foil i when it is the fissile one. */
  lemma DefaultScale(a: map<EtaKey, Value>, i: nat)
    requires DefaultFoils(a) && i < 2 && a[FissileMat] == TextV(["Au", "Pb"][i])
    ensures Construct(a).Ok?
    ensures Construct(a).value[MinFiss].r == 5e8 / FissionScale(5e15, 1.252, [0.0254, 0.0127][i])
  {
    assert FissileFoil(a) == Some(i) by {
      assert ["Au", "Pb"][..1] == ["Au"];
    }
  }

  /** The defaults give about 1.599e-06 minimum fissions, as the
      constructor's default min_fiss over the default source and the
      fissile (Pb) TOAD foil. */
  lemma DefaultMinFiss()
    ensures Complete(DefaultArgs())
    ensures Construct(DefaultArgs()).Ok?
    ensures 0.0000015989 < Construct(DefaultArgs()).value[MinFiss].r < 0.0000015990
  {
    DefaultsHaveFoils();
    DefaultScale(DefaultArgs(), 1);
    DefaultBounds();
  }

  lemma DefaultBounds()
    ensures 0.0000015989 < 5e8 / FissionScale(5e15, 1.252, 0.0127) < 0.0000015990
  {
  }

  /** With gold as the fissile foil, the constructor as written divides by
      the volume of the lead foil instead of the gold one. */
  lemma ConstructorUsesLastFoil()
    ensures Complete(DefaultArgs()[FissileMat := TextV("Au")])
    ensures var args := DefaultArgs()[FissileMat := TextV("Au")];
      ConstructAsWritten(args).Ok? && Construct(args).Ok? &&
      ConstructAsWritten(args).value[MinFiss].r == 5e8 / FissionScale(5e15, 1.252, 0.0127) &&
      Construct(args).value[MinFiss].r == 5e8 / FissionScale(5e15, 1.252, 0.0254) &&
      ConstructAsWritten(args).value[MinFiss].r != Construct(args).value[MinFiss].r
  {
    DefaultsHaveFoils();
    var args := DefaultArgs()[FissileMat := TextV("Au")];
    assert DefaultFoils(args);
    DefaultScale(args, 0);
  }

  /** The requests of the lines of a constraints file. */
  function EtaRequests(lines: seq<string>): (reqs: seq<Request<EtaKey>>)
    ensures |reqs| == |lines| && Kinded(reqs)
  {
    RequestsSound(EtaTable, PythonConversions, KindOf, lines);
    Requests(EtaTable, PythonConversions, KindOf, lines)
  }

  /** Every attribute request carries a value of its attribute's kind. */
  predicate Kinded(reqs: seq<Request<EtaKey>>)
  {
    forall j :: 0 <= j < |reqs| && reqs[j].Ok? && reqs[j].value.Some? ==>
      HasKind(reqs[j].value.value.1, KindOf(reqs[j].value.value.0))
  }

  /** The attributes after every request, before the scaling. */
  function Parsed(attrs: map<EtaKey, Value>, reqs: seq<Request<EtaKey>>): (r: Result<map<EtaKey, Value>>)
    requires Complete(attrs) && Kinded(reqs)
    ensures r.Ok? ==> Complete(r.value)
  {
    ApplyFromTyped(KindOf, attrs, reqs, 0);
    ApplyFrom(attrs, reqs, 0)
  }

  /** The reading of a constraints file as written: every line's request,
      then min_fiss divided by the fissile foil's volume, whether or not
      the file gave a new min_fiss. */
  function Read(attrs: map<EtaKey, Value>, reqs: seq<Request<EtaKey>>): (r: Result<map<EtaKey, Value>>)
    requires Complete(attrs) && Kinded(reqs)
    ensures r.Ok? ==> Complete(r.value) && Parsed(attrs, reqs).Ok? &&
                      r == ScaleMinFiss(Parsed(attrs, reqs).value)
    ensures r.Err? <==> Parsed(attrs, reqs).Err? || !Scalable(Parsed(attrs, reqs).value)
  {
    match Parsed(attrs, reqs)
    case Err(e) => Err(e)
    case Ok(a) => ScaleMinFiss(a)
  }

  /** Whether some request sets min_fiss. */
  predicate GivesMinFiss(reqs: seq<Request<EtaKey>>)
  {
    exists j :: 0 <= j < |reqs| && Sets(reqs[j], MinFiss)
  }

  /** A file that does not set min_fiss divides the constructor's already
      divided value a second time: min_fiss ends up as the raw argument
      over the product of two foil volumes. */
  lemma ReadDividesTwice(args: map<EtaKey, Value>, reqs: seq<Request<EtaKey>>)
    requires Complete(args) && Construct(args).Ok? && Kinded(reqs) && !GivesMinFiss(reqs)
    requires Read(Construct(args).value, reqs).Ok?
    ensures var a := Read(Construct(args).value, reqs).value;
      Scalable(args) && Scalable(a) &&
      a[MinFiss].r * FoilScale(a, FissileFoil(a).value) * FoilScale(args, FissileFoil(args).value) ==
        args[MinFiss].r
  {
    var c := Construct(args).value;
    ParsedKeepsMinFiss(c, reqs);
  }

  /** A file that does not set min_fiss leaves it as it was. */
  lemma ParsedKeepsMinFiss(attrs: map<EtaKey, Value>, reqs: seq<Request<EtaKey>>)
    requires Complete(attrs) && Kinded(reqs) && !GivesMinFiss(reqs) && Parsed(attrs, reqs).Ok?
    ensures Parsed(attrs, reqs).value[MinFiss] == attrs[MinFiss]
  {
    ApplyFromUntouched(attrs, reqs, 0, MinFiss);
  }

  /** The reading as intended: min_fiss is divided only when the file gives
      a new one, so it is divided exactly once whichever way it was set. */
  function ReadIntended(attrs: map<EtaKey, Value>, reqs: seq<Request<EtaKey>>): (r: Result<map<EtaKey, Value>>)
    requires Complete(attrs) && Kinded(reqs)
    ensures r.Ok? ==> Complete(r.value) && Parsed(attrs, reqs).Ok?
    ensures r.Ok? && GivesMinFiss(reqs) ==>
      var a := Parsed(attrs, reqs).value;
      Scalable(a) && r.value[MinFiss].r * FoilScale(a, FissileFoil(a).value) == a[MinFiss].r
  {
    match Parsed(attrs, reqs)
    case Err(e) => Err(e)
    case Ok(a) => if GivesMinFiss(reqs) then ScaleMinFiss(a) else Ok(a)
  }

  /** Without a new min_fiss in the file the intended reading keeps the
      constructor's value, which was divided once. */
  lemma ReadIntendedKeeps(args: map<EtaKey, Value>, reqs: seq<Request<EtaKey>>)
    requires Complete(args) && Construct(args).Ok? && Kinded(reqs) && !GivesMinFiss(reqs)
    requires ReadIntended(Construct(args).value, reqs).Ok?
    ensures Scalable(args)
    ensures ReadIntended(Construct(args).value, reqs).value[MinFiss].r *
      FoilScale(args, FissileFoil(args).value) == args[MinFiss].r
  {
    ApplyFromUntouched(Construct(args).value, reqs, 0, MinFiss);
  }

  /** The search loop for the fissile material among the TOAD foils: the
      last match wins, and `ind` stays unbound (None) without one. */
  method FindFoil(names: seq<string>, fissile: string) returns (ind: Option<nat>)
    ensures ind == LastIndexOf(names, fissile)
  {
    ind := None;
    for j := 0 to |names|
      invariant ind == LastIndexOf(names[..j], fissile)
    {
      if names[j] == fissile {
        ind := Some(j);
      }
      assert names[..j + 1][..j] == names[..j];
    }
    assert names[..|names|] == names;
  }

  /** The division of min_fiss by the volume of the fissile foil, found by
      the search loop. */
  method ScaleByFoil(a: map<EtaKey, Value>) returns (r: Result<map<EtaKey, Value>>)
    requires Complete(a)
    ensures r == ScaleMinFiss(a)
  {
    var ind := FindFoil(a[ToadMatF].ss, a[FissileMat].s);
    if ind.None? {
      return Err(UnboundLocalError(IndUnbound));
    }
    if ind.value >= |a[TToad].rs| {
      return Err(IndexError(OutOfRange));
    }
    var scale := FoilScale(a, ind.value);
    if scale == 0.0 {
      return Err(ZeroDivisionError);
    }
    return Ok(a[MinFiss := RealV(a[MinFiss].r / scale)]);
  }

  class EtaParameters {
    var attrs: map<EtaKey, Value>

    predicate Valid()
      reads this
    {
      Complete(attrs)
    }

    constructor (args: map<EtaKey, Value>)
      requires Complete(args) && Construct(args).Ok?
      ensures attrs == Construct(args).value && Valid()
    {
      attrs := Construct(args).value;
    }

    /** `read_constraints` over the lines of the file, then the division of
      min_fiss by the fissile foil's volume. */
    method ReadConstraints(lines: seq<string>) returns (r: Result<()>)
      requires Valid()
      modifies this
      ensures r.Err? <==> Read(old(attrs), EtaRequests(lines)).Err?
      ensures r.Err? ==> r.error == Read(old(attrs), EtaRequests(lines)).error
      ensures r.Ok? ==> attrs == Read(old(attrs), EtaRequests(lines)).value && Valid()
      ensures Parsed(old(attrs), EtaRequests(lines)).Err? ==> attrs == Reached(old(attrs), EtaRequests(lines), 0)
      ensures r.Err? && Parsed(old(attrs), EtaRequests(lines)).Ok? ==> attrs == Parsed(old(attrs), EtaRequests(lines)).value
    {
      ghost var reqs := EtaRequests(lines);
      var parsed, reached := ApplyLines(EtaTable, PythonConversions, KindOf, attrs, lines);
      assert parsed == Parsed(attrs, reqs);
      if parsed.Err? {
        attrs := reached;
        return Err(parsed.error);
      }
      attrs := parsed.value;
      var scaled := ScaleByFoil(parsed.value);
      if scaled.Err? {
        return Err(scaled.error);
      }
      attrs := scaled.value;
      return Ok(());
    }
  }
}
