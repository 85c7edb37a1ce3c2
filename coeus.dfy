// The generational loop of `main` in Code/Coeus.py: the operator schedule of
// one generation, the timeline the operators' population updates leave, the
// loop test and the convergence test. Transport runs and the populations they
// score are parameters: each operator contributes the best design its
// population update kept.
module Coeus {
  import opened Wrappers
  import opened PyMath
  import opened Design
  import Utilities
  import Population

  const OutOfRange := "list index out of range"

  /** The Gnowee settings the loop reads: the population size p, the
      discovery, elite and Levy fractions, the generation and evaluation
      limits, the stall tolerance and limit, and the optimal fitness with its
      tolerance. */
  datatype Limits = Limits(p: int, fd: real, fe: real, fl: real, gm: int, em: int,
                           ct: real, sl: int, of: real, ot: real)

  // ---------------------------------------------------------------------------
  // The operators of one generation

  /** One call of `_run_transport_on_algo`: the operator's name and the
      generation and evaluation counts it adds to the timeline. */
  datatype Step = Step(algo: string, gen: nat, feval: int)

  /** The operators of one pass of the loop, in order, with the counts each
      passes on: 2-opt and 3-opt depend on the largest number of horizontal
      layers. */
  function Schedule(maxHoriz: int, lim: Limits): seq<Step>
  {
    [Step("mat_levy", 0, Trunc(lim.p as real * lim.fl)),
     Step("cell_levy", 0, Trunc(lim.p as real * lim.fl)),
     Step("elite_cross", 0, 1),
     Step("mutate", 0, lim.p),
     Step("crossover", 0, Trunc(lim.p as real * lim.fe))]
    + (if maxHoriz >= 4 then [Step("two_opt", 0, Trunc(lim.p as real * lim.fe))] else [])
    + (if maxHoriz >= 6 then [Step("three_op", 0, lim.p)] else [])
    + [Step("discard", 1, Trunc(lim.p as real * lim.fd))]
  }

  function Algos(steps: seq<Step>): set<string>
  {
    set k | 0 <= k < |steps| :: steps[k].algo
  }

  /** The generations the steps add together. */
  function Gens(steps: seq<Step>): nat
  {
    if steps == [] then 0 else Gens(steps[..|steps| - 1]) + steps[|steps| - 1].gen
  }

  /** The evaluations the steps add together. */
  function Fevals(steps: seq<Step>): int
  {
    if steps == [] then 0 else Fevals(steps[..|steps| - 1]) + steps[|steps| - 1].feval
  }

  lemma {:induction false} GensZero(steps: seq<Step>)
    requires forall k :: 0 <= k < |steps| ==> steps[k].gen == 0
    ensures Gens(steps) == 0
    decreases |steps|
  {
    if steps != [] {
      GensZero(steps[..|steps| - 1]);
    }
  }

  /** 2-opt runs exactly when some design may have four horizontal layers and
      3-opt exactly when it may have six; the discard step comes last. */
  lemma ScheduleOperators(maxHoriz: int, lim: Limits)
    ensures var s := Schedule(maxHoriz, lim);
      ("two_opt" in Algos(s) <==> maxHoriz >= 4)
      && ("three_op" in Algos(s) <==> maxHoriz >= 6)
      && s[|s| - 1].algo == "discard"
  {
    var s := Schedule(maxHoriz, lim);
    if maxHoriz >= 4 {
      assert s[5].algo == "two_opt";
    }
    if maxHoriz >= 6 {
      assert s[6].algo == "three_op";
    }
  }

  /** The discard step is the only one that advances the generation count, so
      one pass of the loop adds exactly one generation. */
  lemma ScheduleGenerations(maxHoriz: int, lim: Limits)
    ensures var s := Schedule(maxHoriz, lim);
      (forall k :: 0 <= k < |s| ==> (s[k].gen == 1 <==> s[k].algo == "discard"))
      && Gens(s) == 1
  {
    var s := Schedule(maxHoriz, lim);
    var front := s[..|s| - 1];
    assert forall k :: 0 <= k < |front| ==> front[k].gen == 0;
    GensZero(front);
  }

  // ---------------------------------------------------------------------------
  // The timeline after one generation

  /** The timeline after the steps, each recording with `Timeline.update` the
      best design its population update kept (`bests[k]` for step k). */
  function Generation(tline: seq<Utilities.Event>, steps: seq<Step>, bests: seq<Parent>)
    : Result<seq<Utilities.Event>>
    decreases |steps|
  {
    if |bests| < |steps| then Err(DrawsExhausted)
    else if steps == [] then Ok(tline)
    else
      match Generation(tline, steps[..|steps| - 1], bests)
      case Err(e) => Err(e)
      case Ok(t) =>
        var last := steps[|steps| - 1];
        Population.Recorded(t, bests[|steps| - 1], last.gen, last.feval)
  }

  /** The steps keep the timeline improving and non-empty, and the last event
      carries every generation and evaluation the steps report. */
  lemma {:induction false} GenerationCounts(tline: seq<Utilities.Event>, steps: seq<Step>, bests: seq<Parent>)
    requires tline != [] && Population.Improving(tline)
    ensures var r := Generation(tline, steps, bests);
      r.Ok? ==>
        r.value != [] && Population.Improving(r.value)
        && r.value[|r.value| - 1].g == tline[|tline| - 1].g + Gens(steps)
        && r.value[|r.value| - 1].e == tline[|tline| - 1].e + Fevals(steps)
    decreases |steps|
  {
    if |bests| >= |steps| && steps != [] {
      var front := steps[..|steps| - 1];
      GenerationCounts(tline, front, bests);
      var g := Generation(tline, front, bests);
      if g.Ok? {
        var last := steps[|steps| - 1];
        Population.RecordedImproving(g.value, bests[|steps| - 1], last.gen, last.feval);
        Population.RecordedCounts(g.value, bests[|steps| - 1], last.gen, last.feval);
      }
    }
  }

  /** One generation of operators on the history object. */
  method RunGeneration(t: Population.Timeline, steps: seq<Step>, bests: seq<Parent>) returns (r: Result<()>)
    requires t.Valid()
    modifies t
    ensures t.Valid()
    ensures var g := Generation(old(t.tline), steps, bests);
      (r.Ok? <==> g.Ok?) && (r.Ok? ==> t.tline == g.value) && (r.Err? ==> r.error == g.error)
  {
    if |bests| < |steps| {
      return Err(DrawsExhausted);
    }
    ghost var t0 := t.tline;
    for i := 0 to |steps|
      invariant t.Valid()
      invariant Generation(t0, steps[..i], bests) == Ok(t.tline)
    {
      assert steps[..i + 1][..i] == steps[..i];
      var failure := t.Record(bests[i], steps[i].gen, steps[i].feval);
      if failure.Some? {
        assert Generation(t0, steps[..i + 1], bests) == Err(failure.value);
        StepsFail(t0, steps, bests, i + 1);
        return Err(failure.value);
      }
    }
    assert steps[..|steps|] == steps;
    return Ok(());
  }

  /** Once a prefix of the steps fails, the whole generation fails the same
      way. */
  lemma {:induction false} StepsFail(tline: seq<Utilities.Event>, steps: seq<Step>, bests: seq<Parent>, i: nat)
    requires i <= |steps| <= |bests|
    requires Generation(tline, steps[..i], bests).Err?
    ensures Generation(tline, steps, bests) == Generation(tline, steps[..i], bests)
    decreases |steps| - i
  {
    if i < |steps| {
      assert steps[..i + 1][..i] == steps[..i];
      StepsFail(tline, steps, bests, i + 1);
    } else {
      assert steps[..i] == steps;
    }
  }

  // ---------------------------------------------------------------------------
  // As written: the update only when nothing was printed

  /** `Pop_Update` is handed seven arguments by position and `rr` by name,
      but has only seven parameters, the last of them `rr`. */
  const RrTwice := "Pop_Update() got multiple values for argument 'rr'"

  /** The population update of `_run_transport_on_algo` as written: transport,
      scoring and the timeline update sit under `if not ids`, so a step that
      printed designs leaves the timeline as it was. Under that test nothing
      was printed, so the particle counts are empty as well: the MCNP
      transport divides the cores by the zero designs to run, and without
      it the call to `Pop_Update` fails on `rr` given twice. Neither branch
      reaches the history update. */
  function RecordedAsWritten(tline: seq<Utilities.Event>, ids: seq<int>, mcnp: bool): (r: Result<seq<Utilities.Event>>)
    ensures ids != [] ==> r == Ok(tline)
    ensures ids == [] ==> r.Err? && (mcnp <==> r.error == ZeroDivisionError)
  {
    if ids != [] then Ok(tline)
    else if mcnp then Err(ZeroDivisionError)
    else Err(TypeError(RrTwice))
  }

  /** Any operator that printed a design leaves the timeline as it was, where
      the intended update advances the generation count, so the loop test
      cannot change its answer through the generation limit; and an operator
      that printed nothing fails. */
  lemma RecordedAsWrittenStalls(tline: seq<Utilities.Event>, best: Parent, mcnp: bool)
    requires tline != [] && tline[|tline| - 1].g >= 0 && tline[|tline| - 1].e >= 0
    ensures Population.Recorded(tline, best, 1, 0).Ok?
    ensures RecordedAsWritten(tline, [best.ident], mcnp) == Ok(tline)
    ensures RecordedAsWritten(tline, [], mcnp).Err?
    ensures Population.Recorded(tline, best, 1, 0).value[|tline| - 1].g == tline[|tline| - 1].g + 1
      || Population.Recorded(tline, best, 1, 0).value[|tline|].g == tline[|tline| - 1].g + 1
  {
  }

  // ---------------------------------------------------------------------------
  // The loop test and the convergence test

  /** The `while` test: the last event is within the generation and evaluation
      limits and the run has not converged. An empty timeline has no last
      event. */
  function Continues(tline: seq<Utilities.Event>, lim: Limits, converge: bool): Result<bool>
  {
    if tline == [] then Err(IndexError(OutOfRange))
    else Ok(tline[|tline| - 1].g <= lim.gm && tline[|tline| - 1].e <= lim.em && !converge)
  }

  /** Generational stall: past the stall limit and more than `sl` generations
      since the previous improvement. */
  predicate Stalled(tline: seq<Utilities.Event>, lim: Limits)
  {
    |tline| >= 2 && tline[|tline| - 1].g > lim.sl && tline[|tline| - 1].g > tline[|tline| - 2].g + lim.sl
  }

  /** The fitness is within `ot` of the optimal fitness, relatively. */
  predicate FitnessMet(f: real, lim: Limits)
    requires lim.of != 0.0
  {
    Abs((f - lim.of) / lim.of) <= lim.ot
  }

  /** The convergence test after each generation: the stall test, the
      relative-improvement test and the fitness test, each of which may set
      `converge`. */
  function ConvergenceTest(tline: seq<Utilities.Event>, lim: Limits, converge: bool): (r: Result<bool>)
    ensures tline == [] ==> r == Err(IndexError(OutOfRange))
    ensures tline != [] && tline[|tline| - 1].g > lim.sl && |tline| < 2 ==> r == Err(IndexError(OutOfRange))
    ensures lim.of == 0.0 ==> r.Err?
    ensures (tline != [] && lim.of != 0.0
      && (tline[|tline| - 1].g <= lim.sl || Stalled(tline, lim) || (|tline| >= 2 && tline[|tline| - 2].f != 0.0)))
      ==> r.Ok?
    ensures r.Ok? ==>
      lim.of != 0.0 && tline != [] &&
      (r.value <==> converge || Stalled(tline, lim) || FitnessMet(tline[|tline| - 1].f, lim))
  {
    if tline == [] then Err(IndexError(OutOfRange))
    else
      var last := tline[|tline| - 1];
      var stall: Result<bool> :=
        if last.g <= lim.sl then Ok(converge)
        else if |tline| < 2 then Err(IndexError(OutOfRange))
        else
          var prev := tline[|tline| - 2];
          if last.g > prev.g + lim.sl then Ok(true)
          else if prev.f == 0.0 then Err(ZeroDivisionError)
          else if (prev.f - last.f) / prev.f < lim.ct then Ok(if last.g > prev.g + lim.sl then true else converge)
          else Ok(converge);
      match stall
      case Err(e) => Err(e)
      case Ok(c) =>
        if lim.of == 0.0 then Err(ZeroDivisionError)
        else Ok(if Abs((last.f - lim.of) / lim.of) <= lim.ot then true else c)
  }

  // ---------------------------------------------------------------------------
  // The loop

  /** The number of passes the loop can make from a last event at generation
      g0: one per generation up to the limit. */
  function PassBound(g0: int, lim: Limits): nat
  {
    if g0 <= lim.gm then lim.gm - g0 + 1 else 0
  }

  /** The generational loop of `main` from the first recorded event: while the
      loop test holds, run one generation of operators with the next outcomes
      (`outcomes[n]` holds the best design after each step of pass n), then the
      convergence test. Returns the number of passes made and whether the run
      converged. */
  method Generations(t: Population.Timeline, maxHoriz: int, lim: Limits, outcomes: seq<seq<Parent>>)
    returns (r: Result<(nat, bool)>)
    requires t.Valid() && t.tline != []
    modifies t
    ensures t.Valid()
    ensures r.Ok? ==> t.tline != [] && Continues(t.tline, lim, r.value.1) == Ok(false)
    ensures r.Ok? ==> t.tline[|t.tline| - 1].g == old(t.tline[|t.tline| - 1].g) + r.value.0
    ensures r.Ok? ==> r.value.0 <= PassBound(old(t.tline[|t.tline| - 1].g), lim) && r.value.0 <= |outcomes|
  {
    var steps := Schedule(maxHoriz, lim);
    ScheduleGenerations(maxHoriz, lim);
    var g0 := t.tline[|t.tline| - 1].g;
    var converge := false;
    var passes: nat := 0;
    while true
      invariant t.Valid() && t.tline != []
      invariant t.tline[|t.tline| - 1].g == g0 + passes
      invariant passes <= PassBound(g0, lim) && passes <= |outcomes|
      decreases |outcomes| - passes
    {
      var go := Continues(t.tline, lim, converge);
      if !go.value {
        return Ok((passes, converge));
      }
      if passes == |outcomes| {
        return Err(DrawsExhausted);
      }
      GenerationCounts(t.tline, steps, outcomes[passes]);
      var ran := RunGeneration(t, steps, outcomes[passes]);
      if ran.Err? {
        return Err(ran.error);
      }
      var test := ConvergenceTest(t.tline, lim, converge);
      if test.Err? {
        return Err(test.error);
      }
      converge := test.value;
      passes := passes + 1;
    }
  }
}
