// The population logic of Code/Gnowee_Utilities.py: the Gnowee settings and
// their keyword file, the fixed-material count of a new `Parent`, the penalty
// arithmetic of `Calc_Fitness`, the replacement and particle-count escalation
// of `Pop_Update`, and the event logic of `Timeline.update`.
module Population {
  import opened Wrappers
  import opened PyMath
  import opened KeywordFile
  import opened Design
  import opened Sorting
  import Utilities

  // ---------------------------------------------------------------------------
  // Gnowee_Settings

  /** The attributes of `Gnowee_Settings`: p, s, fd, fe, fl, gm, em, ct, sl,
      of, ot, a, g, n and sf. */
  datatype GnoweeKey =
    | PopulationSize | InitialSampling | FracDiscovered | FracElite | FracLevy
    | MaxGens | FevalMax | ConvTol | StallLimit | OptimalFitness | OptConvTol
    | Alpha | Gamma | LevyN | ScalingFactor

  function KindOf(k: GnoweeKey): Kind
  {
    match k
    case PopulationSize | MaxGens | FevalMax | StallLimit | LevyN => IntKind
    case InitialSampling => TextKind
    case _ => RealKind
  }

  /** The keywords of `read_settings`, lower-cased, in the order it tests them
      (the misspelt "indepentent" is the keyword the reader expects). */
  const GnoweeTable: seq<(string, GnoweeKey)> := [
    ("population size", PopulationSize), ("initial sampling method", InitialSampling),
    ("discovery fraction", FracDiscovered), ("elite fraction", FracElite),
    ("levy fraction", FracLevy), ("max generations", MaxGens),
    ("max function evaluations", FevalMax), ("stall convergence tolerance", ConvTol),
    ("stall iteration limit", StallLimit), ("optimal fitness", OptimalFitness),
    ("optimal convergence tolerance", OptConvTol), ("levy alpha", Alpha),
    ("levy gamma", Gamma), ("levy indepentent variables", LevyN),
    ("step size scaling factor", ScalingFactor)]

  /** The constructor's default arguments. */
  function DefaultValue(k: GnoweeKey): (v: Value)
    ensures HasKind(v, KindOf(k))
  {
    match k
    case PopulationSize => IntV(25)
    case InitialSampling => TextV("lhc")
    case FracDiscovered => RealV(0.25)
    case FracElite => RealV(0.2)
    case FracLevy => RealV(0.4)
    case MaxGens => IntV(10000)
    case FevalMax => IntV(100000)
    case ConvTol => RealV(0.000001)
    case StallLimit => IntV(200)
    case OptimalFitness => RealV(0.01)
    case OptConvTol => RealV(0.01)
    case Alpha => RealV(1.5)
    case Gamma => RealV(1.0)
    case LevyN => IntV(1)
    case ScalingFactor => RealV(10.0)
  }

  /** A value for every setting, each of its keyword's kind. */
  predicate Complete(attrs: map<GnoweeKey, Value>)
  {
    (forall k :: k in attrs) && Typed(KindOf, attrs)
  }

  function Defaults(): (attrs: map<GnoweeKey, Value>)
    ensures Complete(attrs)
    ensures forall k :: attrs[k] == DefaultValue(k)
  {
    map k: GnoweeKey | true :: DefaultValue(k)
  }

  /** Reading a settings file keeps every setting of its kind. */
  lemma ReadKeepsComplete(attrs: map<GnoweeKey, Value>, lines: seq<string>)
    requires Complete(attrs)
    ensures Complete(Reached(attrs, Requests(GnoweeTable, PythonConversions, KindOf, lines), 0))
  {
    var reqs := Requests(GnoweeTable, PythonConversions, KindOf, lines);
    RequestsSound(GnoweeTable, PythonConversions, KindOf, lines);
    ReachedTyped(KindOf, attrs, reqs, 0);
  }

  class GnoweeSettings {
    var attrs: map<GnoweeKey, Value>

    predicate Valid()
      reads this
    {
      Complete(attrs)
    }

    constructor ()
      ensures attrs == Defaults() && Valid()
    {
      attrs := Defaults();
    }

    /** `read_settings` over the lines of the file: every line's keyword sets
        its attribute; unknown keywords only warn; a value that does not
        convert stops the reading with the conversion's error. */
    method ReadSettings(lines: seq<string>) returns (r: Result<()>)
      requires Valid()
      modifies this
      ensures var reqs := Requests(GnoweeTable, PythonConversions, KindOf, lines);
        var read := ApplyFrom(old(attrs), reqs, 0);
        (r.Err? <==> read.Err?) && (r.Err? ==> r.error == read.error) &&
        attrs == Reached(old(attrs), reqs, 0)
      ensures Valid()
    {
      ReadKeepsComplete(attrs, lines);
      var read, reached := ApplyLines(GnoweeTable, PythonConversions, KindOf, attrs, lines);
      attrs := reached;
      if read.Err? {
        return Err(read.error);
      }
      return Ok(());
    }
  }

  // ---------------------------------------------------------------------------
  // Parent: the fixed-material count

  /** The materials a new `Parent` checks, in order: structural, debris
      shield, NAS, TOAD, the NAS foils, the TOAD foils, holder, holder fill. */
  function FixedCandidates(structMat: string, dsMat: string, nasMat: string, toadMat: string,
                           nasMatF: seq<string>, toadMatF: seq<string>,
                           holderMat: string, hFillMat: string): (s: seq<string>)
    ensures s != [] && s[0] == structMat
  {
    [structMat, dsMat, nasMat, toadMat] + nasMatF + toadMatF + [holderMat, hFillMat]
  }

  function Distinct(s: seq<string>): set<string>
  {
    set x | x in s
  }

  predicate NoDuplicates(s: seq<string>)
  {
    forall i, j :: 0 <= i < j < |s| ==> s[i] != s[j]
  }

  /** A list without repeats has as many distinct entries as entries. */
  lemma {:induction false} NoDuplicatesCard(s: seq<string>)
    requires NoDuplicates(s)
    ensures |Distinct(s)| == |s|
  {
    if s != [] {
      var init := s[..|s| - 1];
      NoDuplicatesCard(init);
      assert Distinct(s) == Distinct(init) + {s[|s| - 1]};
      assert s[|s| - 1] !in Distinct(init);
    }
  }

  /** The counting of `Parent.__init__`: the first material counts, and every
      later one counts when it is not yet in the list of those seen. */
  method CountFixedMats(names: seq<string>) returns (n: int)
    requires names != []
    ensures n == |Distinct(names)|
  {
    n := 1;
    var seen := [names[0]];
    for i := 1 to |names|
      invariant n == |seen| && NoDuplicates(seen)
      invariant Distinct(seen) == Distinct(names[..i])
    {
      assert names[..i + 1] == names[..i] + [names[i]];
      assert Distinct(names[..i + 1]) == Distinct(names[..i]) + {names[i]};
      if names[i] !in seen {
        assert Distinct(seen + [names[i]]) == Distinct(seen) + {names[i]};
        n := n + 1;
        seen := seen + [names[i]];
      }
    }
    assert names[..|names|] == names;
    NoDuplicatesCard(seen);
  }

  /** With the default ETA materials (Al throughout, NAS foils Zr, Zn, In, Al,
      Ta, TOAD foils Au, Pb, holder fill Fe) eight materials are fixed. */
  lemma DefaultFixedMats()
    ensures |Distinct(FixedCandidates("Al", "Al", "Al", "Al", ["Zr", "Zn", "In", "Al", "Ta"],
                                      ["Au", "Pb"], "Al", "Fe"))| == 8
  {
    var s := FixedCandidates("Al", "Al", "Al", "Al", ["Zr", "Zn", "In", "Al", "Ta"], ["Au", "Pb"], "Al", "Fe");
    assert Distinct(s) == Distinct(["Al", "Zr", "Zn", "In", "Ta", "Au", "Pb", "Fe"]);
    NoDuplicatesCard(["Al", "Zr", "Zn", "In", "Ta", "Au", "Pb", "Fe"]);
  }

  /** `Parent.__init__` without the geometry construction: the new design
      takes the given geometry, particle count and fitness, counts its fixed
      materials, and switches the settings' sampling method to 'random'. */
  method NewParent(gs: GnoweeSettings, ident: int, matls: seq<string>, cells: seq<Cell>,
                   surfaces: seq<Surface>, nps: real, fitness: real, fixed: seq<string>)
    returns (p: Parent)
    requires fixed != []
    modifies gs
    ensures gs.attrs == old(gs.attrs)[InitialSampling := TextV("random")]
    ensures p == Parent(ident, matls, cells, surfaces, nps, fitness, |Distinct(fixed)|)
  {
    gs.attrs := gs.attrs[InitialSampling := TextV("random")];
    var n := CountFixedMats(fixed);
    p := Parent(ident, matls, cells, surfaces, nps, fitness, n);
  }

  // ---------------------------------------------------------------------------
  // Calc_Fitness

  /** The penalty 1E15 of a hard constraint. */
  const Infeasible: real := 1000000000000000.0

  /** The fission-count adjustment: a failed design gets 1E15, too few
      fissions a positive penalty, more than required a small reward;
      dividing by a zero minimum raises ZeroDivisionError. */
  function FissionAdjustment(fissions: real, minFiss: real): (r: Result<real>)
    ensures r.Err? <==> minFiss == 0.0 && fissions > 0.0
    ensures r.Err? ==> r.error == ZeroDivisionError
    ensures fissions == 0.0 ==> r == Ok(Infeasible)
    ensures 0.0 < fissions < minFiss ==> r.Ok? && r.value > 0.0
    ensures 0.0 < minFiss < fissions ==> r.Ok? && r.value < 0.0
    ensures fissions == minFiss ==> r.Ok? && (r.value == 0.0 || fissions == 0.0)
  {
    if fissions == 0.0 then Ok(Infeasible)
    else if fissions > 0.0 && fissions < minFiss then
      FractionAboveOne(minFiss, fissions);
      Ok(0.1 * (minFiss / fissions - 1.0))
    else if fissions > minFiss then
      if minFiss == 0.0 then Err(ZeroDivisionError)
      else if minFiss > 0.0 then
        FractionAboveOne(fissions, minFiss);
        Ok(-0.01 * (fissions / minFiss - 1.0))
      else Ok(-0.01 * (fissions / minFiss - 1.0))
    else Ok(0.0)
  }

  lemma FractionAboveOne(a: real, b: real)
    requires 0.0 < b < a
    ensures a / b > 1.0
  {
    assert a / b * b == a;
  }

  /** Dividing by more gives less: a / b1 > a / b2 for 0 < b1 < b2 and a > 0. */
  lemma DivideByMore(a: real, b1: real, b2: real)
    requires a > 0.0 && 0.0 < b1 < b2
    ensures a / b1 > a / b2
  {
    assert a / b1 - a / b2 == a * (b2 - b1) / (b1 * b2);
    assert a * (b2 - b1) > 0.0;
  }

  /** With a positive minimum, more fissions never give a worse adjustment:
      the adjustment strictly decreases with the fission count. */
  lemma MoreFissionsBetter(f1: real, f2: real, minFiss: real)
    requires minFiss > 0.0 && 0.0 < f1 < f2
    ensures FissionAdjustment(f2, minFiss).value < FissionAdjustment(f1, minFiss).value
  {
    if f2 < minFiss {
      DivideByMore(minFiss, f1, f2);
    } else if f1 > minFiss {
      assert f1 / minFiss < f2 / minFiss by {
        assert f2 / minFiss - f1 / minFiss == (f2 - f1) / minFiss;
      }
    }
  }

  /** The weight constraint: over max_w kilograms costs 1E15. */
  function WeightAdjustment(weight: real, maxW: real): (r: real)
    ensures r == 0.0 || r == Infeasible
    ensures r == Infeasible <==> weight > 1000.0 * maxW
  {
    if weight / 1000.0 > maxW then Infeasible else 0.0
  }

  /** A heavier design never costs less. */
  lemma HeavierNotCheaper(w1: real, w2: real, maxW: real)
    requires w1 <= w2
    ensures WeightAdjustment(w1, maxW) <= WeightAdjustment(w2, maxW)
  {
  }

  /** The fitness `Calc_Fitness` stores for one design: its relative least
      squares score with both adjustments. It fails exactly where the
      fission adjustment divides by a zero minimum, and a design without
      fissions is at least 1E15 worse than its score. */
  function Penalised(rls: real, fissions: real, weight: real, minFiss: real, maxW: real): (r: Result<real>)
    ensures r.Err? <==> minFiss == 0.0 && fissions > 0.0
    ensures r.Ok? && fissions == 0.0 ==> r.value >= rls + Infeasible
  {
    match FissionAdjustment(fissions, minFiss)
    case Err(e) => Err(e)
    case Ok(a) => Ok(rls + a + WeightAdjustment(weight, maxW))
  }

  /** A better score gives a better fitness, all else equal. */
  lemma PenalisedFollowsScore(rls1: real, rls2: real, fissions: real, weight: real, minFiss: real, maxW: real)
    requires rls1 < rls2 && Penalised(rls1, fissions, weight, minFiss, maxW).Ok?
    ensures Penalised(rls1, fissions, weight, minFiss, maxW).value < Penalised(rls2, fissions, weight, minFiss, maxW).value
  {
  }

  /** With a positive minimum, more fissions give a strictly better fitness,
      all else equal. */
  lemma PenalisedMoreFissions(rls: real, f1: real, f2: real, weight: real, minFiss: real, maxW: real)
    requires minFiss > 0.0 && 0.0 < f1 < f2
    ensures Penalised(rls, f2, weight, minFiss, maxW).value < Penalised(rls, f1, weight, minFiss, maxW).value
  {
    MoreFissionsBetter(f1, f2, minFiss);
  }

  /** A heavier design never has a better fitness, all else equal. */
  lemma PenalisedHeavier(rls: real, fissions: real, w1: real, w2: real, minFiss: real, maxW: real)
    requires w1 <= w2 && Penalised(rls, fissions, w1, minFiss, maxW).Ok?
    ensures Penalised(rls, fissions, w1, minFiss, maxW).value <= Penalised(rls, fissions, w2, minFiss, maxW).value
  {
    HeavierNotCheaper(w1, w2, maxW);
  }

  /** Going over the weight limit costs exactly 1E15 more than sitting at it. */
  lemma OverweightCostsInfeasible(rls: real, fissions: real, weight: real, minFiss: real, maxW: real)
    requires weight / 1000.0 > maxW
    ensures var heavy := Penalised(rls, fissions, weight, minFiss, maxW);
      var limit := Penalised(rls, fissions, 1000.0 * maxW, minFiss, maxW);
      heavy.Ok? ==> heavy.value == limit.value + Infeasible
  {
  }

  /** What the output file of one design gives `Calc_Fitness`: the relative
      least squares score of its normalised tally, its fission count and its
      weight in grams. */
  datatype Reading = Reading(rls: real, fissions: real, weight: real)

  /** `next((c for c, parent in enumerate(pop) if parent.ident == i), -1)`. */
  function IndexOfIdent(pop: seq<Parent>, ident: int): (k: int)
    ensures -1 <= k < |pop|
    ensures k >= 0 ==> pop[k].ident == ident && forall j :: 0 <= j < k ==> pop[j].ident != ident
    ensures k == -1 <==> forall j :: 0 <= j < |pop| ==> pop[j].ident != ident
  {
    if pop == [] then -1
    else if pop[0].ident == ident then 0
    else
      var k := IndexOfIdent(pop[1..], ident);
      assert forall j :: 1 <= j < |pop| ==> pop[j] == pop[1..][j - 1];
      if k == -1 then -1 else k + 1
  }

  /** One pass of the loop of `Calc_Fitness`: the fitness of the design with
      the identifier, or of the last design when none has it, is replaced. */
  function ScoreOne(pop: seq<Parent>, id: int, rd: Reading, minFiss: real, maxW: real): (r: Result<seq<Parent>>)
    ensures r.Ok? ==> |r.value| == |pop|
  {
    match Penalised(rd.rls, rd.fissions, rd.weight, minFiss, maxW)
    case Err(e) => Err(e)
    case Ok(f) =>
      if pop == [] then Err(IndexError("list index out of range"))
      else
        var k := PyIdx(IndexOfIdent(pop, id), |pop|);
        Ok(pop[k := pop[k].(fit := f)])
  }

  /** The population after the first i identifiers, and the error that
      stopped the loop, if any. */
  function ScoredUpTo(pop: seq<Parent>, ids: seq<int>, rds: seq<Reading>, minFiss: real, maxW: real, i: nat)
    : (r: (seq<Parent>, Option<Error>))
    requires i <= |ids| == |rds|
    ensures |r.0| == |pop|
  {
    if i == 0 then (pop, None)
    else
      var prev := ScoredUpTo(pop, ids, rds, minFiss, maxW, i - 1);
      if prev.1.Some? then prev
      else
        match ScoreOne(prev.0, ids[i - 1], rds[i - 1], minFiss, maxW)
        case Err(e) => (prev.0, Some(e))
        case Ok(next) => (next, None)
  }

  /** `Calc_Fitness(ids, pop, obj, min_fiss, max_w)` given the reading of
      each design's output. */
  method CalcFitness(ids: seq<int>, pop: array<Parent>, readings: seq<Reading>,
                     minFiss: real, maxW: real) returns (r: Result<()>)
    requires |readings| == |ids|
    modifies pop
    ensures var s := ScoredUpTo(old(pop[..]), ids, readings, minFiss, maxW, |ids|);
      pop[..] == s.0 && (r.Err? <==> s.1.Some?) && (r.Err? ==> r.error == s.1.value)
  {
    for i := 0 to |ids|
      invariant ScoredUpTo(old(pop[..]), ids, readings, minFiss, maxW, i) == (pop[..], None)
    {
      var rd := readings[i];
      var fit := Penalised(rd.rls, rd.fissions, rd.weight, minFiss, maxW);
      if fit.Err? {
        ScoredStops(old(pop[..]), ids, readings, minFiss, maxW, i + 1, |ids|);
        return Err(fit.error);
      }
      if pop.Length == 0 {
        ScoredStops(old(pop[..]), ids, readings, minFiss, maxW, i + 1, |ids|);
        return Err(IndexError("list index out of range"));
      }
      var k := PyIdx(IndexOfIdent(pop[..], ids[i]), pop.Length);
      pop[k] := pop[k].(fit := fit.value);
    }
    return Ok(());
  }

  /** The first error stops the loop: nothing after it changes. */
  lemma {:induction false} ScoredStops(pop: seq<Parent>, ids: seq<int>, rds: seq<Reading>,
                                       minFiss: real, maxW: real, i: nat, j: nat)
    requires i <= j <= |ids| == |rds|
    requires ScoredUpTo(pop, ids, rds, minFiss, maxW, i).1.Some?
    ensures ScoredUpTo(pop, ids, rds, minFiss, maxW, j) == ScoredUpTo(pop, ids, rds, minFiss, maxW, i)
    decreases j - i
  {
    if i < j {
      ScoredStops(pop, ids, rds, minFiss, maxW, i, j - 1);
    }
  }

  /** Scoring changes nothing but fitnesses. */
  lemma {:induction false} ScoredOnlyFitness(pop: seq<Parent>, ids: seq<int>, rds: seq<Reading>,
                                             minFiss: real, maxW: real, i: nat)
    requires i <= |ids| == |rds|
    ensures var s := ScoredUpTo(pop, ids, rds, minFiss, maxW, i).0;
      forall k :: 0 <= k < |pop| ==> s[k] == pop[k].(fit := s[k].fit)
  {
    if i > 0 {
      ScoredOnlyFitness(pop, ids, rds, minFiss, maxW, i - 1);
    }
  }

  /** A design whose identifier is scored gets the penalised fitness; an
      identifier no design carries overwrites the fitness of the last one. */
  lemma ScoreOneTarget(pop: seq<Parent>, id: int, rd: Reading, minFiss: real, maxW: real)
    requires pop != [] && Penalised(rd.rls, rd.fissions, rd.weight, minFiss, maxW).Ok?
    ensures var r := ScoreOne(pop, id, rd, minFiss, maxW);
      var f := Penalised(rd.rls, rd.fissions, rd.weight, minFiss, maxW).value;
      r.Ok?
      && (forall k :: 0 <= k < |pop| && pop[k].ident == id && (forall j :: 0 <= j < k ==> pop[j].ident != id)
            ==> r.value[k].fit == f)
      && ((forall k :: 0 <= k < |pop| ==> pop[k].ident != id) ==> r.value[|pop| - 1].fit == f)
  {
  }

  // ---------------------------------------------------------------------------
  // Pop_Update

  /** The particle-count tier an accepted design is escalated to. */
  datatype Tier = Baseline | Tier10 | Tier100

  /** The escalation of an accepted design with fitness fit and particle count
      cur against the baseline: a fitness up to 0.135 asks for 100 times the
      baseline, one up to 0.5 for 10 times, each only when cur is below it. */
  function Escalation(fit: real, cur: real, base: real): (t: (Tier, real))
    ensures t.0 == Tier100 <==> fit <= 0.135 && cur < base * 100.0
    ensures t.0 == Tier10 <==> !(fit <= 0.135 && cur < base * 100.0) && fit <= 0.5 && cur < base * 10.0
    ensures t.0 == Tier100 ==> t.1 == base * 100.0
    ensures t.0 == Tier10 ==> t.1 == base * 10.0
    ensures t.0 == Baseline ==> t.1 == cur
  {
    if fit <= 0.135 && cur < base * 100.0 then (Tier100, base * 100.0)
    else if fit <= 0.5 && cur < base * 10.0 then (Tier10, base * 10.0)
    else (Baseline, cur)
  }

  /** Escalation never lowers the particle count. */
  lemma EscalationRaises(fit: real, cur: real, base: real)
    ensures Escalation(fit, cur, base).1 >= cur
  {
  }

  /** The three escalations the tests check, for a baseline of 1E6 particles:
      0.45 goes to 10 times, 0.105 and 0.0437254 to 100 times. */
  lemma EscalationExamples()
    ensures Escalation(0.45, 1000000.0, 1000000.0) == (Tier10, 10000000.0)
    ensures Escalation(0.105, 1000000.0, 1000000.0) == (Tier100, 100000000.0)
    ensures Escalation(0.0437254, 1000000.0, 1000000.0) == (Tier100, 100000000.0)
  {
  }

  /** The slot a candidate is compared with: by identifier (the last slot when
      none matches), or at `int(random() * len(old))` for random replacement. */
  function TargetOf(pop: seq<Parent>, cand: Parent, rr: bool, u: real): (k: nat)
    requires pop != [] && 0.0 <= u < 1.0
    ensures k < |pop|
  {
    if rr then
      Utilities.TruncBelow(u, |pop|);
      Trunc(u * |pop| as real)
    else PyIdx(IndexOfIdent(pop, cand.ident), |pop|)
  }

  /** The state of the replacement loop: the population, the number of
      accepted changes and the number of escalated designs. */
  datatype UpdateState = UpdateState(pop: seq<Parent>, changes: nat, escalated: nat)

  /** One candidate against its slot: a strictly better candidate replaces
      the slot's design, keeps the slot's identifier, and may be escalated. */
  function Accept(st: UpdateState, cand: Parent, k: nat, base: real): (r: UpdateState)
    requires k < |st.pop|
    ensures |r.pop| == |st.pop|
  {
    var slot := st.pop[k];
    if cand.fit < slot.fit then
      var esc := Escalation(cand.fit, cand.nps, base);
      UpdateState(st.pop[k := cand.(ident := slot.ident, nps := esc.1)],
                  st.changes + 1, st.escalated + (if esc.0 == Baseline then 0 else 1))
    else st
  }

  /** The loop of `Pop_Update` over the first i candidates. The targets are
      fixed by the original population: replacement keeps identifiers. */
  function UpdatedUpTo(pop: seq<Parent>, cands: seq<Parent>, rr: bool, draws: seq<real>,
                       base: real, i: nat): (r: UpdateState)
    requires pop != [] && i <= |cands| && (rr ==> |draws| >= |cands|)
    requires UnitDraws(draws)
    ensures |r.pop| == |pop|
  {
    if i == 0 then UpdateState(pop, 0, 0)
    else
      var prev := UpdatedUpTo(pop, cands, rr, draws, base, i - 1);
      Accept(prev, cands[i - 1], TargetOf(pop, cands[i - 1], rr, if rr then draws[i - 1] else 0.0), base)
  }

  /** `Pop_Update(old, new, nps, rr=rr)` without the re-runs of the escalated
      designs: one draw of `random()` per candidate when rr is set. Returns the
      number of changes and the number of escalated designs. */
  method PopUpdate(pop: array<Parent>, cands: seq<Parent>, base: real, rr: bool, draws: seq<real>)
    returns (r: Result<(nat, nat)>)
    requires UnitDraws(draws)
    modifies pop
    ensures pop.Length == 0 && cands != [] ==> r == Err(IndexError("list index out of range"))
    ensures rr && pop.Length > 0 && |draws| < |cands| ==> r == Err(DrawsExhausted)
    ensures r.Ok? && pop.Length > 0 ==>
      var st := UpdatedUpTo(old(pop[..]), cands, rr, draws, base, |cands|);
      pop[..] == st.pop && r.value == (st.changes, st.escalated)
    ensures r.Ok? && pop.Length == 0 ==> r.value == (0, 0)
  {
    if cands == [] {
      return Ok((0, 0));
    }
    if pop.Length == 0 {
      return Err(IndexError("list index out of range"));
    }
    if rr && |draws| < |cands| {
      return Err(DrawsExhausted);
    }
    ghost var pop0 := pop[..];
    var changes, escalated := 0, 0;
    for i := 0 to |cands|
      invariant UpdatedUpTo(pop0, cands, rr, draws, base, i) == UpdateState(pop[..], changes, escalated)
    {
      UpdateNeverWorse(pop0, cands, rr, draws, base, i);
      assert rr ==> 0.0 <= draws[i] < 1.0;
      var ind := Target(pop, pop0, cands[i], rr, if rr then draws[i] else 0.0);
      changes, escalated := AcceptAt(pop, cands[i], ind, base, changes, escalated);
    }
    return Ok((changes, escalated));
  }

  /** The body of the loop of `Pop_Update` for one candidate and its slot. */
  method AcceptAt(pop: array<Parent>, cand: Parent, ind: nat, base: real, changes: nat, escalated: nat)
    returns (changes': nat, escalated': nat)
    requires ind < pop.Length
    modifies pop
    ensures UpdateState(pop[..], changes', escalated')
      == Accept(UpdateState(old(pop[..]), changes, escalated), cand, ind, base)
  {
    changes', escalated' := changes, escalated;
    var slot := pop[ind];
    if cand.fit < slot.fit {
      var esc := Escalation(cand.fit, cand.nps, base);
      pop[ind] := cand.(ident := slot.ident, nps := esc.1);
      changes' := changes + 1;
      if esc.0 != Baseline {
        escalated' := escalated + 1;
      }
    }
  }

  predicate SameIdents(a: seq<Parent>, b: seq<Parent>)
  {
    |a| == |b| && forall k :: 0 <= k < |a| ==> a[k].ident == b[k].ident
  }

  /** No slot of `now` is less fit than the same slot of `pop`. */
  predicate NoWorse(now: seq<Parent>, pop: seq<Parent>)
  {
    |now| == |pop| && forall k :: 0 <= k < |pop| ==> now[k].fit <= pop[k].fit
  }

  /** The slot the loop of `Pop_Update` compares a candidate with. */
  method Target(pop: array<Parent>, ghost pop0: seq<Parent>, cand: Parent, rr: bool, u: real)
    returns (ind: nat)
    requires pop.Length > 0 && SameIdents(pop[..], pop0) && 0.0 <= u < 1.0
    ensures ind == TargetOf(pop0, cand, rr, u)
  {
    if rr {
      assert u * pop.Length as real < pop.Length as real;
      ind := Trunc(u * pop.Length as real);
    } else {
      IndexOfIdentSameIdents(pop[..], pop0, cand.ident);
      ind := PyIdx(IndexOfIdent(pop[..], cand.ident), pop.Length);
    }
  }

  /** The identifier search only looks at identifiers. */
  lemma {:induction false} IndexOfIdentSameIdents(a: seq<Parent>, b: seq<Parent>, ident: int)
    requires SameIdents(a, b)
    ensures IndexOfIdent(a, ident) == IndexOfIdent(b, ident)
  {
    if a != [] && a[0].ident != ident {
      IndexOfIdentSameIdents(a[1..], b[1..], ident);
    }
  }

  /** The replacement loop never raises the fitness of a slot, keeps every
      slot's identifier, and escalates only designs it accepted. */
  lemma {:induction false} UpdateNeverWorse(pop: seq<Parent>, cands: seq<Parent>, rr: bool,
                                            draws: seq<real>, base: real, i: nat)
    requires pop != [] && i <= |cands| && (rr ==> |draws| >= |cands|)
    requires UnitDraws(draws)
    ensures var st := UpdatedUpTo(pop, cands, rr, draws, base, i);
      NoWorse(st.pop, pop) && SameIdents(st.pop, pop) && st.escalated <= st.changes <= i
  {
    if i > 0 {
      UpdateNeverWorse(pop, cands, rr, draws, base, i - 1);
      var prev := UpdatedUpTo(pop, cands, rr, draws, base, i - 1);
      var t := TargetOf(pop, cands[i - 1], rr, if rr then draws[i - 1] else 0.0);
      AcceptNoWorse(prev, pop, cands[i - 1], t, base);
    }
  }

  lemma AcceptNoWorse(prev: UpdateState, pop: seq<Parent>, cand: Parent, t: nat, base: real)
    requires t < |pop| && NoWorse(prev.pop, pop) && SameIdents(prev.pop, pop)
    ensures var st := Accept(prev, cand, t, base);
      NoWorse(st.pop, pop) && SameIdents(st.pop, pop)
      && st.escalated - prev.escalated <= st.changes - prev.changes <= 1
  {
  }

  /** p is one of the first i candidates, up to its identifier and particle
      count (the two fields an accepted candidate takes from its slot and its
      escalation). */
  predicate Offered(p: Parent, cands: seq<Parent>, i: nat)
    requires i <= |cands|
  {
    i > 0 && (p == cands[i - 1].(ident := p.ident, nps := p.nps) || Offered(p, cands, i - 1))
  }

  lemma {:induction false} OfferedMeans(p: Parent, cands: seq<Parent>, i: nat)
    requires i <= |cands|
    ensures Offered(p, cands, i) <==> exists j :: 0 <= j < i && p == cands[j].(ident := p.ident, nps := p.nps)
  {
    if i > 0 {
      OfferedMeans(p, cands, i - 1);
    }
  }

  /** Every slot of `now` that differs from `pop` holds one of the first i
      candidates, renamed to the slot's identifier, with a fitness strictly
      below the slot's old one. */
  predicate FromCandidates(now: seq<Parent>, pop: seq<Parent>, cands: seq<Parent>, i: nat)
    requires |now| == |pop| && i <= |cands|
  {
    forall k :: 0 <= k < |pop| && now[k] != pop[k] ==>
      now[k].fit < pop[k].fit && now[k].ident == pop[k].ident && Offered(now[k], cands, i)
  }

  /** A slot that changed holds one of the candidates, renamed to the slot's
      identifier, with a fitness strictly below the slot's old one. */
  lemma {:induction false} UpdateTakesCandidates(pop: seq<Parent>, cands: seq<Parent>, rr: bool,
                                                 draws: seq<real>, base: real, i: nat)
    requires pop != [] && i <= |cands| && (rr ==> |draws| >= |cands|)
    requires UnitDraws(draws)
    ensures FromCandidates(UpdatedUpTo(pop, cands, rr, draws, base, i).pop, pop, cands, i)
  {
    if i > 0 {
      var prev := UpdatedUpTo(pop, cands, rr, draws, base, i - 1);
      var t := TargetOf(pop, cands[i - 1], rr, if rr then draws[i - 1] else 0.0);
      UpdateTakesCandidates(pop, cands, rr, draws, base, i - 1);
      UpdateNeverWorse(pop, cands, rr, draws, base, i - 1);
      AcceptTakesCandidate(prev, pop, cands, i, t, base);
    }
  }

  lemma AcceptTakesCandidate(prev: UpdateState, pop: seq<Parent>, cands: seq<Parent>, i: nat, t: nat,
                             base: real)
    requires 0 < i <= |cands| && t < |pop| == |prev.pop|
    requires FromCandidates(prev.pop, pop, cands, i - 1) && SameIdents(prev.pop, pop)
    requires NoWorse(prev.pop, pop)
    ensures FromCandidates(Accept(prev, cands[i - 1], t, base).pop, pop, cands, i)
  {
  }

  // ---------------------------------------------------------------------------
  // Timeline.update

  /** Recorded fitnesses strictly decrease along the timeline. */
  predicate Improving(tline: seq<Utilities.Event>)
  {
    forall a, b :: 0 <= a < b < |tline| ==> tline[b].f < tline[a].f
  }

  /** The event logic of `Timeline.update` for the best design of the sorted
      population: the first call records it at generation 0; a strictly better
      design is appended with the generation and evaluation counts carried
      forward; otherwise the counts are added into the last event. */
  function Recorded(tline: seq<Utilities.Event>, best: Parent, gen: int, feval: int)
    : (r: Result<seq<Utilities.Event>>)
  {
    if tline == [] then
      match Utilities.MakeEvent(0, feval, best.fit, best.nps, best.ident)
      case Err(e) => Err(e)
      case Ok(ev) => Ok([ev])
    else
      var last := tline[|tline| - 1];
      if best.fit < last.f then
        match Utilities.MakeEvent(last.g + gen, last.e + feval, best.fit, best.nps, best.ident)
        case Err(e) => Err(e)
        case Ok(ev) => Ok(tline + [ev])
      else Ok(tline[|tline| - 1 := last.(e := last.e + feval, g := last.g + gen)])
  }

  /** Recording keeps the fitnesses strictly decreasing; the timeline grows by
      one event exactly when it was empty or the design is strictly better,
      and every earlier event is kept. */
  lemma RecordedImproving(tline: seq<Utilities.Event>, best: Parent, gen: int, feval: int)
    requires Improving(tline)
    ensures var r := Recorded(tline, best, gen, feval);
      r.Ok? ==>
        Improving(r.value)
        && (|r.value| == |tline| + 1 <==> tline == [] || best.fit < tline[|tline| - 1].f)
        && (|r.value| == |tline| || |r.value| == |tline| + 1)
        && (tline != [] ==> r.value[..|tline| - 1] == tline[..|tline| - 1])
        && (|r.value| == |tline| + 1 ==> r.value[..|tline|] == tline && r.value[|tline|].f == best.fit)
  {
  }

  /** Once the timeline is started the last event counts every generation and
      evaluation reported since, whether or not it was replaced. */
  lemma RecordedCounts(tline: seq<Utilities.Event>, best: Parent, gen: int, feval: int)
    requires tline != []
    ensures var r := Recorded(tline, best, gen, feval);
      var last := tline[|tline| - 1];
      r.Ok? ==> r.value[|r.value| - 1].e == last.e + feval && r.value[|r.value| - 1].g == last.g + gen
  {
  }

  class Timeline {
    var tline: seq<Utilities.Event>

    predicate Valid()
      reads this
    {
      Improving(tline)
    }

    constructor ()
      ensures tline == [] && Valid()
    {
      tline := [];
    }

    /** `update(pop, gen, feval)`: sorts the population by fitness (stably)
        and records its best design; returns the sorted population. */
    method Update(pop: seq<Parent>, gen: int, feval: int) returns (r: Result<seq<Parent>>)
      requires Valid()
      modifies this
      ensures Valid()
      ensures pop == [] ==> r.Err? && r.error.IndexError? && tline == old(tline)
      ensures pop != [] ==>
        var rec := Recorded(old(tline), pop[FirstMin(pop, FitOf)], gen, feval);
        (r.Ok? <==> rec.Ok?) && (r.Ok? ==> tline == rec.value && r.value == SortBy(pop, FitOf))
        && (r.Err? ==> r.error == rec.error && tline == old(tline))
    {
      var sorted := SortBy(pop, FitOf);
      if sorted == [] {
        return Err(IndexError("list index out of range"));
      }
      SortByHead(pop, FitOf);
      var failure := Record(sorted[0], gen, feval);
      if failure.Some? {
        return Err(failure.value);
      }
      return Ok(sorted);
    }

    /** The event logic of `update` for the best design of the population. */
    method Record(best: Parent, gen: int, feval: int) returns (failure: Option<Error>)
      requires Valid()
      modifies this
      ensures Valid()
      ensures var rec := Recorded(old(tline), best, gen, feval);
        (rec.Ok? ==> failure == None && tline == rec.value)
        && (rec.Err? ==> failure == Some(rec.error) && tline == old(tline))
    {
      RecordedImproving(tline, best, gen, feval);
      if tline == [] {
        var ev := Utilities.MakeEvent(0, feval, best.fit, best.nps, best.ident);
        if ev.Err? {
          return Some(ev.error);
        }
        tline := tline + [ev.value];
      } else if best.fit < tline[|tline| - 1].f {
        var last := tline[|tline| - 1];
        var ev := Utilities.MakeEvent(last.g + gen, last.e + feval, best.fit, best.nps, best.ident);
        if ev.Err? {
          return Some(ev.error);
        }
        tline := tline + [ev.value];
      } else {
        var last := tline[|tline| - 1];
        tline := tline[|tline| - 1 := last.(e := last.e + feval, g := last.g + gen)];
      }
      return None;
    }
  }

  /** The timeline test: designs with fitness 15 and 10 and 1E6 particles,
      updated with gen 1 and feval 20, record the second design at
      generation 0 with 20 evaluations. */
  lemma TimelineExample(a: Parent, b: Parent)
    requires a.ident == 0 && a.fit == 15.0 && b.ident == 1 && b.fit == 10.0 && b.nps == 1000000.0
    ensures FirstMin([a, b], FitOf) == 1
    ensures Recorded([], [a, b][1], 1, 20) == Ok([Utilities.Event(0, 20, 10.0, 1000000.0, 1)])
  {
  }
}
