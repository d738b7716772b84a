/**
 * The sum relation: private `a` and `b`, public `c`, and the single
 * constraint `a + b == c` over the field.
 */
module Sum {
  import opened Wrappers
  import opened Field
  import opened ConstraintSystems

  /** The circuit's assignment; `None` is an unset value. */
  datatype SumCircuit = SumCircuit(a: Option<Fe>, b: Option<Fe>, c: Option<Fe>)

  /** The circuit built from machine integers, every value set. */
  function FromU32(a: U32, b: U32, c: U32): (circuit: SumCircuit)
    ensures circuit.a == Some(a as Fe) && circuit.b == Some(b as Fe) && circuit.c == Some(c as Fe)
  {
    SumCircuit(Some(FromU64(a)), Some(FromU64(b)), Some(FromU64(c)))
  }

  /** The template the key pair is derived from: nothing assigned. */
  function Template(): (circuit: SumCircuit)
    ensures circuit.a.None? && circuit.b.None? && circuit.c.None?
  {
    SumCircuit(None, None, None)
  }

  /** The one constraint, as emitted into a store that already had `w` witnesses and `i` inputs. */
  function SumConstraint(w: nat, i: nat): Constraint {
    Equal([Witness(w), Witness(w + 1)], [Input(i)])
  }

  /**
   * `generate_constraints` on the value view: allocate `a` and `b` as
   * witnesses and `c` as an input, stopping at the first failing allocation,
   * then enforce that the sum of the two witnesses equals the input.
   */
  function Synthesize(circuit: SumCircuit, s: System): (out: Synthesis)
    requires Consistent(s)
    ensures Consistent(out.after) && Extends(s, out.after)
    ensures out.result.Ok? <==>
      s.setupMode || (circuit.a.Some? && circuit.b.Some? && circuit.c.Some?)
    ensures out.result.Err? ==> out.result.error == AssignmentMissing
    ensures !s.setupMode && circuit.a.None? ==> out.after == s
    ensures out.result.Err? ==> out.after.inputs == s.inputs && out.after.constraints == s.constraints
    ensures out.result.Ok? ==>
      out.after.witnesses == s.witnesses + [Recorded(s.setupMode, circuit.a), Recorded(s.setupMode, circuit.b)] &&
      out.after.inputs == s.inputs + [Recorded(s.setupMode, circuit.c)] &&
      out.after.constraints == s.constraints + [SumConstraint(|s.witnesses|, |s.inputs|)]
  {
    var aVar := AllocWitness(s, OkOr(circuit.a, AssignmentMissing));
    if aVar.result.Err? then Synthesis(Err(aVar.result.error), aVar.after) else
    var bVar := AllocWitness(aVar.after, OkOr(circuit.b, AssignmentMissing));
    if bVar.result.Err? then Synthesis(Err(bVar.result.error), bVar.after) else
    var cVar := AllocInput(bVar.after, OkOr(circuit.c, AssignmentMissing));
    if cVar.result.Err? then Synthesis(Err(cVar.result.error), cVar.after) else
    Synthesis(Ok(()), Enforce(cVar.after, Equal([aVar.result.value, bVar.result.value], [cVar.result.value])))
  }

  /** What a slot records for an optional value: nothing in setup mode, the value in prove mode. */
  function Recorded(setupMode: bool, o: Option<Fe>): Option<Fe> {
    if setupMode then None else o
  }

  /** The imperative emitter, appending to the borrowed store. */
  method GenerateConstraints(circuit: SumCircuit, cs: ConstraintSystem) returns (r: Result<(), SynthesisError>)
    requires cs.Valid()
    modifies cs
    ensures cs.Valid()
    ensures r == Synthesize(circuit, old(cs.View())).result
    ensures cs.View() == Synthesize(circuit, old(cs.View())).after
  {
    var aVar := cs.NewWitness(OkOr(circuit.a, AssignmentMissing));
    if aVar.Err? {
      return Err(aVar.error);
    }
    var bVar := cs.NewWitness(OkOr(circuit.b, AssignmentMissing));
    if bVar.Err? {
      return Err(bVar.error);
    }
    var cVar := cs.NewInput(OkOr(circuit.c, AssignmentMissing));
    if cVar.Err? {
      return Err(cVar.error);
    }
    cs.EnforceEqual([aVar.value, bVar.value], [cVar.value]);
    r := Ok(());
  }

  /** In setup mode the unassigned template emits its constraints without error. */
  lemma SetupAcceptsTemplate(s: System)
    requires Consistent(s) && s.setupMode
    ensures Synthesize(Template(), s).result.Ok?
    ensures |Synthesize(Template(), s).after.constraints| == |s.constraints| + 1
  {
  }

  /** In prove mode an unset value makes synthesis fail with `AssignmentMissing`. */
  lemma ProveRequiresAssignment(circuit: SumCircuit, s: System)
    requires Consistent(s) && !s.setupMode
    requires circuit.a.None? || circuit.b.None? || circuit.c.None?
    ensures Synthesize(circuit, s).result == Err(AssignmentMissing)
  {
  }

  /**
   * The shape does not depend on the values or the mode: two successful
   * syntheses into stores of the same shape leave stores of the same shape.
   */
  lemma ShapeIsValueIndependent(c1: SumCircuit, c2: SumCircuit, s1: System, s2: System)
    requires Consistent(s1) && Consistent(s2) && SameShape(s1, s2)
    requires Synthesize(c1, s1).result.Ok? && Synthesize(c2, s2).result.Ok?
    ensures SameShape(Synthesize(c1, s1).after, Synthesize(c2, s2).after)
    ensures |Synthesize(c1, s1).after.constraints| == |s1.constraints| + 1
  {
  }

  /**
   * In prove mode, the store after synthesis is satisfied exactly when it was
   * before and `(a + b) mod P == c`.
   */
  lemma SatisfiedIff(circuit: SumCircuit, s: System)
    requires Consistent(s) && !s.setupMode
    requires circuit.a.Some? && circuit.b.Some? && circuit.c.Some?
    ensures Synthesize(circuit, s).result.Ok?
    ensures IsSatisfied(Synthesize(circuit, s).after) <==>
      IsSatisfied(s) && Add(circuit.a.value, circuit.b.value) == circuit.c.value
  {
    var t := Synthesize(circuit, s).after;
    var w, i := |s.witnesses|, |s.inputs|;
    assert Value(Witness(w), t) == circuit.a;
    assert Value(Witness(w + 1), t) == circuit.b;
    assert Value(Input(i), t) == circuit.c;
    PairValue(Witness(w), Witness(w + 1), t, circuit.a.value, circuit.b.value);
    SingleValue(Input(i), t, circuit.c.value);
    SatisfiedExtends(s, t);
    assert t.constraints[|s.constraints|] == SumConstraint(w, i);
  }

  /** From a fresh store, the machine-integer circuit is satisfied exactly when `a + b == c`. */
  lemma U32SatisfiedIff(a: U32, b: U32, c: U32)
    ensures Synthesize(FromU32(a, b, c), Empty(false)).result.Ok?
    ensures IsSatisfied(Synthesize(FromU32(a, b, c), Empty(false)).after) <==> a + b == c
  {
    SatisfiedIff(FromU32(a, b, c), Empty(false));
    AddU32Exact(a, b, c);
  }

  /** Every value is set, so `AssignmentMissing` cannot arise from the machine-integer circuit. */
  lemma FromU32Synthesizes(a: U32, b: U32, c: U32, s: System)
    requires Consistent(s)
    ensures Synthesize(FromU32(a, b, c), s).result.Ok?
  {
  }

  /** 10 + 32 == 42: the emitted system is satisfied. */
  lemma ScenarioSatisfied()
    ensures IsSatisfied(Synthesize(FromU32(10, 32, 42), Empty(false)).after)
  {
    U32SatisfiedIff(10, 32, 42);
  }

  /** 10 + 31 != 42: the emitted system is not satisfied. */
  lemma ScenarioUnsatisfied()
    ensures Synthesize(FromU32(10, 31, 42), Empty(false)).result.Ok?
    ensures !IsSatisfied(Synthesize(FromU32(10, 31, 42), Empty(false)).after)
  {
    U32SatisfiedIff(10, 31, 42);
  }
}
