// Design constraints (Code/Constraints.py): a named comparison against a
// limit, with a penalty that grows with the square of the rounded-up violation.
module Constraints {
  import opened Wrappers
  import opened PyMath

  /** The default penalty for a violated constraint. */
  const DefaultPenalty: real := 1000000000000000.0

  /** The two entries of the constraint `_FUNC_DICT`. */
  datatype ConstraintKind = LessOrEqualFn | GreaterThanFn

  function ConstraintName(f: ConstraintKind): string
  {
    match f
    case LessOrEqualFn => "less_or_equal"
    case GreaterThanFn => "greater_than"
  }

  /** The `_FUNC_DICT` lookup of `set_constraint_func`; other names raise KeyError. */
  function LookupConstraint(name: string): (r: Result<ConstraintKind>)
    ensures r.Ok? ==> ConstraintName(r.value) == name
    ensures r.Err? <==> name != "less_or_equal" && name != "greater_than"
    ensures r.Err? ==> r.error == KeyError(name)
  {
    if name == "less_or_equal" then Ok(LessOrEqualFn)
    else if name == "greater_than" then Ok(GreaterThanFn)
    else Err(KeyError(name))
  }

  /** The handle the constructor leaves in `func`, as written: the constructor
      assigns the return value of `set_constraint_func`, which is None, over the
      handle that call has just stored. */
  function HandleAsWritten(methodName: Option<string>): (r: Option<ConstraintKind>)
    requires methodName.Some? ==> LookupConstraint(methodName.value).Ok?
    ensures r.None?
  {
    if methodName.Some? then
      var _ := LookupConstraint(methodName.value);
      None
    else None
  }

  /** The handle the constructor is meant to leave: the named function. */
  function HandleIntended(methodName: Option<string>): (r: Option<ConstraintKind>)
    requires methodName.Some? ==> LookupConstraint(methodName.value).Ok?
    ensures methodName.None? <==> r.None?
    ensures r.Some? ==> ConstraintName(r.value) == methodName.value
  {
    if methodName.Some? then Some(LookupConstraint(methodName.value).value) else None
  }

  /** Constructing with "less_or_equal" loses the handle as written, while the
      intended handle names that function. */
  lemma HandleLostOnConstruction()
    ensures HandleAsWritten(Some("less_or_equal")) == None
    ensures HandleIntended(Some("less_or_equal")) == Some(LessOrEqualFn)
  {
  }

  class Constraints {
    var func: Option<ConstraintKind>
    var constraint: real
    var tallyNum: string
    var penalty: real

    /** The constructor for a method name already known to be in `_FUNC_DICT`,
        storing the named constraint function (the intended behaviour; see
        `HandleAsWritten`); `New` is the constructor as called, with the
        KeyError of other names. */
    constructor (methodName: Option<string>, constraint: real, tallyNum: string, penalty: real)
      requires methodName.Some? ==> LookupConstraint(methodName.value).Ok?
      ensures func == HandleIntended(methodName)
      ensures this.constraint == constraint && this.tallyNum == tallyNum && this.penalty == penalty
    {
      func := HandleIntended(methodName);
      this.constraint := constraint;
      this.tallyNum := tallyNum;
      this.penalty := penalty;
    }

    /** `Constraints(...)`: an unknown method name raises KeyError from
        `set_constraint_func` and no object results; otherwise the fields
        are stored, with the intended handle. */
    static method New(methodName: Option<string>, constraint: real, tallyNum: string, penalty: real)
      returns (r: Result<Constraints>)
      ensures r.Err? <==> methodName.Some? && LookupConstraint(methodName.value).Err?
      ensures r.Err? ==> r.error == KeyError(methodName.value)
      ensures r.Ok? ==> fresh(r.value)
      ensures r.Ok? && methodName.None? ==> r.value.func.None?
      ensures r.Ok? && methodName.Some? ==> r.value.func.Some? && ConstraintName(r.value.func.value) == methodName.value
      ensures r.Ok? ==> r.value.constraint == constraint && r.value.tallyNum == tallyNum
      ensures r.Ok? ==> r.value.penalty == penalty
    {
      if methodName.Some? && LookupConstraint(methodName.value).Err? {
        return Err(KeyError(methodName.value));
      }
      var c := new Constraints(methodName, constraint, tallyNum, penalty);
      return Ok(c);
    }

    /** `set_constraint_func`: stores the named handle, or raises KeyError. */
    method SetConstraintFunc(name: string) returns (r: Result<()>)
      modifies this`func
      ensures r.Ok? <==> LookupConstraint(name).Ok?
      ensures r.Ok? ==> func.Some? && ConstraintName(func.value) == name
      ensures r.Err? ==> func == old(func)
    {
      var f := LookupConstraint(name);
      if f.Err? {
        return Err(f.error);
      }
      func := Some(f.value);
      return Ok(());
    }

    /** `get_penalty`: penalty * ceil(violation)^2. */
    function GetPenalty(violation: real): (r: real)
      reads this
      ensures 0.0 < violation <= 1.0 ==> r == penalty
      ensures violation == 0.0 ==> r == 0.0
    {
      if 0.0 < violation <= 1.0 then
        assert Ceil(violation) == 1;
        penalty * (Ceil(violation) * Ceil(violation)) as real
      else
        penalty * (Ceil(violation) * Ceil(violation)) as real
    }

    /** `less_or_equal`: no penalty exactly when the candidate is within the limit. */
    function LessOrEqual(candidate: real): (r: real)
      reads this
      ensures candidate <= constraint ==> r == 0.0
      ensures candidate > constraint ==> r == GetPenalty(candidate - constraint)
      ensures penalty > 0.0 ==> (r == 0.0 <==> candidate <= constraint)
    {
      if candidate <= constraint then 0.0
      else
        PenaltyPositive(penalty, candidate - constraint);
        GetPenalty(candidate - constraint)
    }

    /** `greater_than`: no penalty above the limit; at the limit the penalty is
        get_penalty(0) = 0, so only candidates below it pay. */
    function GreaterThan(candidate: real): (r: real)
      reads this
      ensures candidate > constraint ==> r == 0.0
      ensures candidate <= constraint ==> r == GetPenalty(constraint - candidate)
      ensures penalty > 0.0 ==> (r == 0.0 <==> candidate >= constraint)
    {
      if candidate > constraint then 0.0
      else if candidate == constraint then GetPenalty(0.0)
      else
        PenaltyPositive(penalty, constraint - candidate);
        GetPenalty(constraint - candidate)
    }
  }

  /** A positive violation costs at least the full penalty. */
  lemma PenaltyPositive(penalty: real, violation: real)
    requires violation > 0.0
    ensures Ceil(violation) >= 1
    ensures penalty > 0.0 ==> penalty * (Ceil(violation) * Ceil(violation)) as real >= penalty
  {
    var c := Ceil(violation);
    assert c * c >= 1 by {
      assert c >= 1;
      assert c * c >= c * 1;
    }
    if penalty > 0.0 {
      calc {
        penalty * (c * c) as real;
      >= { assert (c * c) as real >= 1.0; }
        penalty * 1.0;
      }
    }
  }

  /** The penalty never decreases as a non-negative violation grows. */
  lemma PenaltyMonotone(penalty: real, a: real, b: real)
    requires penalty >= 0.0 && 0.0 <= a <= b
    ensures penalty * (Ceil(a) * Ceil(a)) as real <= penalty * (Ceil(b) * Ceil(b)) as real
  {
    var ca, cb := Ceil(a), Ceil(b);
    assert 0 <= ca <= cb;
    assert ca * ca <= cb * cb by {
      assert ca * ca <= ca * cb;
      assert ca * cb <= cb * cb;
    }
    calc {
      penalty * (ca * ca) as real;
    <= { assert (ca * ca) as real <= (cb * cb) as real; }
      penalty * (cb * cb) as real;
    }
  }
}
