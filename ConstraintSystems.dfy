/**
 * The part of the engine's constraint system that the circuits touch: an
 * append-only store of public-input slots, witness slots and equality
 * constraints between sums of variables.
 *
 * `System` is the value view of the store, with the pure operations the
 * circuits are specified against; `ConstraintSystem` is the mutable store
 * the circuits borrow and append to.
 */
module ConstraintSystems {
  import opened Wrappers
  import opened Field

  /** The synthesis errors the circuits raise. */
  datatype SynthesisError = AssignmentMissing | Unsatisfiable

  /** A variable: the index of a public-input slot or of a witness slot. */
  datatype Var = Input(index: nat) | Witness(index: nat)

  /**
   * `lhs == rhs`, where each side is the field sum of its variables (every
   * linear combination these circuits build has unit coefficients).
   */
  datatype Constraint = Equal(lhs: seq<Var>, rhs: seq<Var>)

  /**
   * The store. In setup mode the engine only fixes the shape, so no slot holds
   * a value; in prove mode every slot holds one.
   */
  datatype System = System(
    setupMode: bool,
    inputs: seq<Option<Fe>>,
    witnesses: seq<Option<Fe>>,
    constraints: seq<Constraint>)

  /** A fresh, empty store in the given mode. */
  function Empty(setupMode: bool): (s: System)
    ensures Consistent(s) && s.setupMode == setupMode
    ensures s.inputs == [] && s.witnesses == [] && s.constraints == []
  {
    System(setupMode, [], [], [])
  }

  /** What a slot records for a value allocated in the given mode. */
  function Slot(setupMode: bool, x: Fe): Option<Fe> {
    if setupMode then None else Some(x)
  }

  /** The slots recorded for a run of values allocated one after the other. */
  function Slots(setupMode: bool, vals: seq<Fe>): (r: seq<Option<Fe>>)
    ensures |r| == |vals|
    ensures forall i | 0 <= i < |vals| :: r[i] == Slot(setupMode, vals[i])
  {
    seq(|vals|, i requires 0 <= i < |vals| => Slot(setupMode, vals[i]))
  }

  /** Every slot holds a value exactly when the store is in prove mode. */
  predicate FilledPerMode(setupMode: bool, slots: seq<Option<Fe>>) {
    forall i | 0 <= i < |slots| :: slots[i].None? == setupMode
  }

  predicate InRange(v: Var, s: System) {
    match v
    case Input(i) => i < |s.inputs|
    case Witness(i) => i < |s.witnesses|
  }

  /** Every variable a constraint mentions has been allocated. */
  predicate WellFormed(k: Constraint, s: System) {
    (forall j | 0 <= j < |k.lhs| :: InRange(k.lhs[j], s)) &&
    (forall j | 0 <= j < |k.rhs| :: InRange(k.rhs[j], s))
  }

  /** The invariant of the store. */
  predicate Consistent(s: System) {
    FilledPerMode(s.setupMode, s.inputs) &&
    FilledPerMode(s.setupMode, s.witnesses) &&
    forall k | 0 <= k < |s.constraints| :: WellFormed(s.constraints[k], s)
  }

  /** `t` is `s` with slots and constraints appended, in the same mode. */
  predicate Extends(s: System, t: System) {
    t.setupMode == s.setupMode &&
    s.inputs <= t.inputs && s.witnesses <= t.witnesses && s.constraints <= t.constraints
  }

  /** The two stores allocate the same number of variables and emit the same constraints. */
  predicate SameShape(s: System, t: System) {
    |s.inputs| == |t.inputs| && |s.witnesses| == |t.witnesses| && s.constraints == t.constraints
  }

  function Value(v: Var, s: System): Option<Fe> {
    match v
    case Input(i) => if i < |s.inputs| then s.inputs[i] else None
    case Witness(i) => if i < |s.witnesses| then s.witnesses[i] else None
  }

  /** The field sum of the variables, if every one of them has a value. */
  function LcValue(lc: seq<Var>, s: System): Option<Fe> {
    if lc == [] then Some(0)
    else
      match (Value(lc[0], s), LcValue(lc[1..], s))
      case (Some(x), Some(y)) => Some(Add(x, y))
      case _ => None
  }

  predicate Holds(k: Constraint, s: System) {
    var l, r := LcValue(k.lhs, s), LcValue(k.rhs, s);
    l.Some? && r.Some? && l.value == r.value
  }

  /**
   * The assignment satisfies every constraint. A store in setup mode has no
   * assignment, so it is never satisfied.
   */
  predicate IsSatisfied(s: System)
    ensures IsSatisfied(s) ==> !s.setupMode
    ensures !s.setupMode && s.constraints == [] ==> IsSatisfied(s)
  {
    !s.setupMode && forall k | 0 <= k < |s.constraints| :: Holds(s.constraints[k], s)
  }

  /** The outcome of emitting a circuit's constraints into a store. */
  datatype Synthesis = Synthesis(result: Result<(), SynthesisError>, after: System)

  /** The outcome of one allocation. */
  datatype Alloc = Alloc(result: Result<Var, SynthesisError>, after: System)

  /**
   * `new_input`: in setup mode the value is never looked at and the slot stays
   * empty; in prove mode an error in the value is returned and nothing is
   * allocated.
   */
  function AllocInput(s: System, value: Result<Fe, SynthesisError>): (a: Alloc)
    requires Consistent(s)
    ensures Consistent(a.after) && Extends(s, a.after)
    ensures a.result.Err? <==> !s.setupMode && value.Err?
    ensures a.result.Err? ==> a.result.error == value.error && a.after == s
    ensures a.result.Ok? ==>
      a.result.value == Input(|s.inputs|) &&
      a.after == s.(inputs := s.inputs + [if s.setupMode then None else Some(value.value)])
  {
    if s.setupMode then
      Alloc(Ok(Input(|s.inputs|)), s.(inputs := s.inputs + [None]))
    else
      match value
      case Err(e) => Alloc(Err(e), s)
      case Ok(x) => Alloc(Ok(Input(|s.inputs|)), s.(inputs := s.inputs + [Some(x)]))
  }

  /** `new_witness`: as `AllocInput`, on the witness slots. */
  function AllocWitness(s: System, value: Result<Fe, SynthesisError>): (a: Alloc)
    requires Consistent(s)
    ensures Consistent(a.after) && Extends(s, a.after)
    ensures a.result.Err? <==> !s.setupMode && value.Err?
    ensures a.result.Err? ==> a.result.error == value.error && a.after == s
    ensures a.result.Ok? ==>
      a.result.value == Witness(|s.witnesses|) &&
      a.after == s.(witnesses := s.witnesses + [if s.setupMode then None else Some(value.value)])
  {
    if s.setupMode then
      Alloc(Ok(Witness(|s.witnesses|)), s.(witnesses := s.witnesses + [None]))
    else
      match value
      case Err(e) => Alloc(Err(e), s)
      case Ok(x) => Alloc(Ok(Witness(|s.witnesses|)), s.(witnesses := s.witnesses + [Some(x)]))
  }

  /** `enforce_equal`: appends one constraint over variables already allocated. */
  function Enforce(s: System, k: Constraint): (t: System)
    requires Consistent(s) && WellFormed(k, s)
    ensures Consistent(t) && Extends(s, t)
    ensures t.inputs == s.inputs && t.witnesses == s.witnesses
    ensures t.constraints == s.constraints + [k]
  {
    s.(constraints := s.constraints + [k])
  }

  /** A sum over allocated variables evaluates the same in any extension of the store. */
  lemma {:induction false} LcValueStable(lc: seq<Var>, s: System, t: System)
    requires Extends(s, t)
    requires forall j | 0 <= j < |lc| :: InRange(lc[j], s)
    ensures LcValue(lc, s) == LcValue(lc, t)
  {
    if lc != [] {
      assert InRange(lc[0], s);
      assert Value(lc[0], s) == Value(lc[0], t);
      LcValueStable(lc[1..], s, t);
    }
  }

  /** Appending slots and constraints does not change whether an old constraint holds. */
  lemma HoldsStable(k: Constraint, s: System, t: System)
    requires Extends(s, t) && WellFormed(k, s)
    ensures Holds(k, s) <==> Holds(k, t)
  {
    LcValueStable(k.lhs, s, t);
    LcValueStable(k.rhs, s, t);
  }

  /**
   * An extension of a consistent store is satisfied exactly when the old store
   * was and every appended constraint holds.
   */
  lemma SatisfiedExtends(s: System, t: System)
    requires Consistent(s) && Extends(s, t)
    ensures IsSatisfied(t) <==>
      IsSatisfied(s) &&
      forall k | |s.constraints| <= k < |t.constraints| :: Holds(t.constraints[k], t)
  {
    forall k | 0 <= k < |s.constraints|
      ensures Holds(s.constraints[k], s) <==> Holds(t.constraints[k], t)
    {
      assert t.constraints[k] == s.constraints[k];
      HoldsStable(s.constraints[k], s, t);
    }
  }

  /** A variable with a value; a sum of one variable is that variable's value. */
  lemma SingleValue(v: Var, s: System, x: Fe)
    requires Value(v, s) == Some(x)
    ensures LcValue([v], s) == Some(x)
  {
    assert [v][1..] == [];
  }

  /** A sum of two variables is the field sum of their values. */
  lemma PairValue(v: Var, w: Var, s: System, x: Fe, y: Fe)
    requires Value(v, s) == Some(x) && Value(w, s) == Some(y)
    ensures LcValue([v, w], s) == Some(Add(x, y))
  {
    assert [v, w][1..] == [w];
    SingleValue(w, s, y);
  }

  /**
   * The store the engine lends to a circuit while it emits its constraints.
   * Its methods append and never remove.
   */
  class ConstraintSystem {
    const setupMode: bool
    var inputs: seq<Option<Fe>>
    var witnesses: seq<Option<Fe>>
    var constraints: seq<Constraint>

    function View(): System
      reads this
    {
      System(setupMode, inputs, witnesses, constraints)
    }

    predicate Valid()
      reads this
    {
      Consistent(View())
    }

    constructor (setupMode: bool)
      ensures Valid() && View() == Empty(setupMode)
    {
      this.setupMode := setupMode;
      inputs, witnesses, constraints := [], [], [];
    }

    method NewInput(value: Result<Fe, SynthesisError>) returns (r: Result<Var, SynthesisError>)
      requires Valid()
      modifies this
      ensures Valid()
      ensures r == AllocInput(old(View()), value).result
      ensures View() == AllocInput(old(View()), value).after
    {
      if setupMode {
        r := Ok(Input(|inputs|));
        inputs := inputs + [None];
      } else if value.Err? {
        r := Err(value.error);
      } else {
        r := Ok(Input(|inputs|));
        inputs := inputs + [Some(value.value)];
      }
    }

    method NewWitness(value: Result<Fe, SynthesisError>) returns (r: Result<Var, SynthesisError>)
      requires Valid()
      modifies this
      ensures Valid()
      ensures r == AllocWitness(old(View()), value).result
      ensures View() == AllocWitness(old(View()), value).after
    {
      if setupMode {
        r := Ok(Witness(|witnesses|));
        witnesses := witnesses + [None];
      } else if value.Err? {
        r := Err(value.error);
      } else {
        r := Ok(Witness(|witnesses|));
        witnesses := witnesses + [Some(value.value)];
      }
    }

    method EnforceEqual(lhs: seq<Var>, rhs: seq<Var>)
      requires Valid() && WellFormed(Equal(lhs, rhs), View())
      modifies this
      ensures Valid()
      ensures View() == Enforce(old(View()), Equal(lhs, rhs))
    {
      constraints := constraints + [Equal(lhs, rhs)];
    }
  }
}
