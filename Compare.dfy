/**
 * The prefix relation: a public `shorter` string, a private `larger` one,
 * and one equality per position of `shorter` binding it to the same
 * position of `larger`.
 */
module Compare {
  import opened Wrappers
  import opened Field
  import opened ConstraintSystems

  /** A string as field elements, one per byte, in byte order. */
  datatype PrimeString = PrimeString(elems: seq<Fe>)

  /** `PrimeString::from`: each byte becomes the field element of the same numeric value. */
  function Encode(bytes: seq<Byte>): (p: PrimeString)
    ensures |p.elems| == |bytes|
    ensures forall i | 0 <= i < |bytes| :: p.elems[i] == bytes[i] as Fe
  {
    PrimeString(seq(|bytes|, i requires 0 <= i < |bytes| => FromU64(bytes[i])))
  }

  /** `From<PrimeString> for Vec`: the wrapped elements; wrapping them again gives the string back. */
  function ToVec(p: PrimeString): (v: seq<Fe>)
    ensures PrimeString(v) == p
  {
    p.elems
  }

  /** Since P > 255, two byte strings encode alike exactly when they are equal. */
  lemma EncodeInjective(s: seq<Byte>, t: seq<Byte>)
    ensures Encode(s) == Encode(t) <==> s == t
  {
    if Encode(s) == Encode(t) {
      forall i | 0 <= i < |s|
        ensures s[i] == t[i]
      {
        assert Encode(s).elems[i] == Encode(t).elems[i];
      }
    }
  }

  /** The encoding of `s` is a prefix of the encoding of `t` exactly when `s` is a prefix of `t`. */
  lemma EncodePrefix(s: seq<Byte>, t: seq<Byte>)
    ensures Encode(s).elems <= Encode(t).elems <==> s <= t
  {
    var es, et := Encode(s).elems, Encode(t).elems;
    if es <= et {
      forall i | 0 <= i < |s|
        ensures s[i] == t[i]
      {
        assert es[i] == et[i];
      }
    }
    if s <= t {
      forall i | 0 <= i < |es|
        ensures es[i] == et[i]
      {
        assert s[i] == t[i];
      }
    }
  }

  /** The bytes of an ASCII string (`str::as_bytes`, for characters below 128). */
  function AsciiBytes(str: string): (bytes: seq<Byte>)
    requires forall i | 0 <= i < |str| :: str[i] as int < 128
    ensures |bytes| == |str|
    ensures forall i | 0 <= i < |str| :: bytes[i] == str[i] as int
  {
    seq(|str|, i requires 0 <= i < |str| => str[i] as int)
  }

  /** The circuit's assignment; `None` is an unset string. */
  datatype CompareCircuit = CompareCircuit(shorter: Option<seq<Fe>>, larger: Option<seq<Fe>>)

  /** The derived `Default`: both sides unset. */
  function Default(): (circuit: CompareCircuit)
    ensures circuit.shorter.None? && circuit.larger.None?
  {
    CompareCircuit(None, None)
  }

  /** Variables `first`, `first + 1`, ... of one kind, as a run of `n` allocations returns them. */
  function InputVars(first: nat, n: nat): (vs: seq<Var>)
    ensures |vs| == n && forall k | 0 <= k < n :: vs[k] == Input(first + k)
  {
    seq(n, k requires 0 <= k < n => Input(first + k))
  }

  function WitnessVars(first: nat, n: nat): (vs: seq<Var>)
    ensures |vs| == n && forall k | 0 <= k < n :: vs[k] == Witness(first + k)
  {
    seq(n, k requires 0 <= k < n => Witness(first + k))
  }

  /** The constraints of the zipped loop: `larger[k] == shorter[k]` for each pair. */
  function ZipConstraints(shorterVars: seq<Var>, largerVars: seq<Var>): (ks: seq<Constraint>)
    ensures |ks| == if |shorterVars| < |largerVars| then |shorterVars| else |largerVars|
    ensures forall k | 0 <= k < |ks| :: ks[k] == Equal([largerVars[k]], [shorterVars[k]])
  {
    var n := if |shorterVars| < |largerVars| then |shorterVars| else |largerVars|;
    seq(n, k requires 0 <= k < n => Equal([largerVars[k]], [shorterVars[k]]))
  }

  /**
   * The constraints a successful synthesis emits into a store that had `w0`
   * witnesses and `i0` inputs: witness `w0 + k` equals input `i0 + k`.
   */
  function PrefixConstraints(w0: nat, i0: nat, n: nat): (ks: seq<Constraint>)
    ensures |ks| == n
    ensures forall k | 0 <= k < n :: ks[k] == Equal([Witness(w0 + k)], [Input(i0 + k)])
  {
    ZipConstraints(InputVars(i0, n), WitnessVars(w0, n))
  }

  lemma InputVarsStep(first: nat, n: nat)
    requires n > 0
    ensures [Input(first)] + InputVars(first + 1, n - 1) == InputVars(first, n)
  {
  }

  lemma WitnessVarsStep(first: nat, n: nat)
    requires n > 0
    ensures [Witness(first)] + WitnessVars(first + 1, n - 1) == WitnessVars(first, n)
  {
  }

  lemma SlotsStep(setupMode: bool, slots: seq<Option<Fe>>, vals: seq<Fe>)
    requires vals != []
    ensures (slots + [Slot(setupMode, vals[0])]) + Slots(setupMode, vals[1..]) == slots + Slots(setupMode, vals)
  {
    assert Slots(setupMode, vals) == [Slot(setupMode, vals[0])] + Slots(setupMode, vals[1..]);
  }

  /** The map/collect over `shorter`: every value becomes a public input, in order. */
  function AllocInputs(s: System, vals: seq<Fe>): (out: (seq<Var>, System))
    requires Consistent(s)
    ensures Consistent(out.1)
    ensures out.0 == InputVars(|s.inputs|, |vals|)
    ensures out.1 == s.(inputs := s.inputs + Slots(s.setupMode, vals))
    decreases |vals|
  {
    if vals == [] then ([], s)
    else
      var v := AllocInput(s, Ok(vals[0]));
      var rest := AllocInputs(v.after, vals[1..]);
      InputVarsStep(|s.inputs|, |vals|);
      SlotsStep(s.setupMode, s.inputs, vals);
      ([v.result.value] + rest.0, rest.1)
  }

  /** The map/collect over `larger.take(n)`: every value becomes a witness, in order. */
  function AllocWitnesses(s: System, vals: seq<Fe>): (out: (seq<Var>, System))
    requires Consistent(s)
    ensures Consistent(out.1)
    ensures out.0 == WitnessVars(|s.witnesses|, |vals|)
    ensures out.1 == s.(witnesses := s.witnesses + Slots(s.setupMode, vals))
    decreases |vals|
  {
    if vals == [] then ([], s)
    else
      var v := AllocWitness(s, Ok(vals[0]));
      var rest := AllocWitnesses(v.after, vals[1..]);
      WitnessVarsStep(|s.witnesses|, |vals|);
      SlotsStep(s.setupMode, s.witnesses, vals);
      ([v.result.value] + rest.0, rest.1)
  }

  predicate AllInRange(vs: seq<Var>, s: System) {
    forall k | 0 <= k < |vs| :: InRange(vs[k], s)
  }

  /** The zipped `for` loop: one `enforce_equal` per pair, in order. */
  function EnforcePairs(s: System, shorterVars: seq<Var>, largerVars: seq<Var>): (t: System)
    requires Consistent(s) && AllInRange(shorterVars, s) && AllInRange(largerVars, s)
    ensures Consistent(t)
    ensures t == s.(constraints := s.constraints + ZipConstraints(shorterVars, largerVars))
    decreases |shorterVars|
  {
    if shorterVars == [] || largerVars == [] then s
    else
      var s1 := Enforce(s, Equal([largerVars[0]], [shorterVars[0]]));
      EnforcePairsStep(s, s1, shorterVars, largerVars);
      EnforcePairs(s1, shorterVars[1..], largerVars[1..])
  }

  /** One step of the zipped loop: the first pair's constraint, then the rest of the pairs. */
  lemma EnforcePairsStep(s: System, s1: System, shorterVars: seq<Var>, largerVars: seq<Var>)
    requires shorterVars != [] && largerVars != []
    requires AllInRange(shorterVars, s) && AllInRange(largerVars, s)
    requires s1.inputs == s.inputs && s1.witnesses == s.witnesses
    requires s1.constraints == s.constraints + [Equal([largerVars[0]], [shorterVars[0]])]
    ensures AllInRange(shorterVars[1..], s1) && AllInRange(largerVars[1..], s1)
    ensures s1.constraints + ZipConstraints(shorterVars[1..], largerVars[1..]) ==
      s.constraints + ZipConstraints(shorterVars, largerVars)
  {
    TailInRange(shorterVars, s, s1);
    TailInRange(largerVars, s, s1);
    ZipStep(shorterVars, largerVars);
    AppendAssoc(s.constraints, Equal([largerVars[0]], [shorterVars[0]]), ZipConstraints(shorterVars[1..], largerVars[1..]));
  }

  lemma AppendAssoc<T>(xs: seq<T>, x: T, ys: seq<T>)
    ensures (xs + [x]) + ys == xs + ([x] + ys)
  {
  }

  lemma ZipStep(shorterVars: seq<Var>, largerVars: seq<Var>)
    requires shorterVars != [] && largerVars != []
    ensures ZipConstraints(shorterVars, largerVars) ==
      [Equal([largerVars[0]], [shorterVars[0]])] + ZipConstraints(shorterVars[1..], largerVars[1..])
  {
  }

  lemma TailInRange(vs: seq<Var>, s: System, s1: System)
    requires vs != [] && AllInRange(vs, s)
    requires s1.inputs == s.inputs && s1.witnesses == s.witnesses
    ensures AllInRange(vs[1..], s1)
  {
    forall k | 0 <= k < |vs| - 1
      ensures InRange(vs[1..][k], s1)
    {
      assert vs[1..][k] == vs[k + 1];
      assert InRange(vs[k + 1], s);
    }
  }

  /**
   * `generate_constraints` on the value view: unwrap both sides (in either
   * mode), reject a public string longer than the private one before
   * allocating anything, then allocate the public string as inputs, the same
   * number of leading private elements as witnesses, and bind them pairwise.
   */
  function Synthesize(circuit: CompareCircuit, s: System): (out: Synthesis)
    requires Consistent(s)
    ensures Consistent(out.after) && Extends(s, out.after)
    ensures circuit.shorter.None? ==> out == Synthesis(Err(AssignmentMissing), s)
    ensures circuit.shorter.Some? && circuit.larger.None? ==> out == Synthesis(Err(AssignmentMissing), s)
    ensures circuit.shorter.Some? && circuit.larger.Some? &&
            |circuit.shorter.value| > |circuit.larger.value| ==>
              out == Synthesis(Err(Unsatisfiable), s)
    ensures out.result.Ok? <==>
      circuit.shorter.Some? && circuit.larger.Some? && |circuit.shorter.value| <= |circuit.larger.value|
    ensures out.result.Ok? ==>
      var shorter, larger := circuit.shorter.value, circuit.larger.value;
      out.after.inputs == s.inputs + Slots(s.setupMode, shorter) &&
      out.after.witnesses == s.witnesses + Slots(s.setupMode, larger[..|shorter|]) &&
      out.after.constraints == s.constraints + PrefixConstraints(|s.witnesses|, |s.inputs|, |shorter|)
  {
    match OkOr(circuit.shorter, AssignmentMissing)
    case Err(e) => Synthesis(Err(e), s)
    case Ok(shorter) =>
      match OkOr(circuit.larger, AssignmentMissing)
      case Err(e) => Synthesis(Err(e), s)
      case Ok(larger) =>
        if |shorter| > |larger| then Synthesis(Err(Unsatisfiable), s)
        else
          var (shorterVars, s1) := AllocInputs(s, shorter);
          var (largerVars, s2) := AllocWitnesses(s1, larger[..|shorter|]);
          Synthesis(Ok(()), EnforcePairs(s2, shorterVars, largerVars))
  }

  /** The imperative emitter, appending to the borrowed store. */
  method GenerateConstraints(circuit: CompareCircuit, cs: ConstraintSystem) returns (r: Result<(), SynthesisError>)
    requires cs.Valid()
    modifies cs
    ensures cs.Valid()
    ensures r == Synthesize(circuit, old(cs.View())).result
    ensures cs.View() == Synthesize(circuit, old(cs.View())).after
  {
    if circuit.shorter.None? {
      return Err(AssignmentMissing);
    }
    var shorter := circuit.shorter.value;
    if circuit.larger.None? {
      return Err(AssignmentMissing);
    }
    var larger := circuit.larger.value;
    if |shorter| > |larger| {
      return Err(Unsatisfiable);
    }
    var shorterVars := NewInputs(cs, shorter);
    var largerVars := NewWitnesses(cs, larger[..|shorter|]);
    EnforcePairwise(cs, shorterVars, largerVars);
    r := Ok(());
  }

  /** The allocation pass over `shorter`, one `new_input` per element. */
  method NewInputs(cs: ConstraintSystem, vals: seq<Fe>) returns (vars: seq<Var>)
    requires cs.Valid()
    modifies cs
    ensures cs.Valid()
    ensures vars == AllocInputs(old(cs.View()), vals).0
    ensures cs.View() == AllocInputs(old(cs.View()), vals).1
  {
    ghost var s0 := cs.View();
    vars := [];
    for i := 0 to |vals|
      invariant cs.Valid()
      invariant cs.View() == s0.(inputs := s0.inputs + Slots(s0.setupMode, vals[..i]))
      invariant vars == InputVars(|s0.inputs|, i)
    {
      var v := cs.NewInput(Ok(vals[i]));
      vars := vars + [v.value];
      assert vals[..i + 1] == vals[..i] + [vals[i]];
    }
    assert vals[..|vals|] == vals;
  }

  /** The allocation pass over the leading elements of `larger`, one `new_witness` per element. */
  method NewWitnesses(cs: ConstraintSystem, vals: seq<Fe>) returns (vars: seq<Var>)
    requires cs.Valid()
    modifies cs
    ensures cs.Valid()
    ensures vars == AllocWitnesses(old(cs.View()), vals).0
    ensures cs.View() == AllocWitnesses(old(cs.View()), vals).1
  {
    ghost var s0 := cs.View();
    vars := [];
    for i := 0 to |vals|
      invariant cs.Valid()
      invariant cs.View() == s0.(witnesses := s0.witnesses + Slots(s0.setupMode, vals[..i]))
      invariant vars == WitnessVars(|s0.witnesses|, i)
    {
      var v := cs.NewWitness(Ok(vals[i]));
      vars := vars + [v.value];
      assert vals[..i + 1] == vals[..i] + [vals[i]];
    }
    assert vals[..|vals|] == vals;
  }

  /** The `for` loop over the zipped variables, one `enforce_equal` per pair. */
  method EnforcePairwise(cs: ConstraintSystem, shorterVars: seq<Var>, largerVars: seq<Var>)
    requires cs.Valid() && AllInRange(shorterVars, cs.View()) && AllInRange(largerVars, cs.View())
    modifies cs
    ensures cs.Valid()
    ensures cs.View() == EnforcePairs(old(cs.View()), shorterVars, largerVars)
  {
    ghost var s0 := cs.View();
    var pairs := if |shorterVars| < |largerVars| then |shorterVars| else |largerVars|;
    for k := 0 to pairs
      invariant cs.Valid()
      invariant cs.View() == s0.(constraints := s0.constraints + ZipConstraints(shorterVars[..k], largerVars[..k]))
    {
      cs.EnforceEqual([largerVars[k]], [shorterVars[k]]);
      assert ZipConstraints(shorterVars[..k + 1], largerVars[..k + 1]) ==
        ZipConstraints(shorterVars[..k], largerVars[..k]) + [Equal([largerVars[k]], [shorterVars[k]])];
    }
    assert ZipConstraints(shorterVars[..pairs], largerVars[..pairs]) == ZipConstraints(shorterVars, largerVars);
  }

  /** The derived default has no assignment, so it cannot serve as a setup template. */
  lemma DefaultRejectedInSetup(s: System)
    requires Consistent(s)
    ensures Synthesize(Default(), s) == Synthesis(Err(AssignmentMissing), s)
  {
  }

  /**
   * Two successful syntheses into stores of the same shape give stores of the
   * same shape exactly when their public strings have the same length.
   */
  lemma ShapeIsPublicLength(c1: CompareCircuit, c2: CompareCircuit, s1: System, s2: System)
    requires Consistent(s1) && Consistent(s2) && SameShape(s1, s2)
    requires Synthesize(c1, s1).result.Ok? && Synthesize(c2, s2).result.Ok?
    ensures SameShape(Synthesize(c1, s1).after, Synthesize(c2, s2).after) <==>
      |c1.shorter.value| == |c2.shorter.value|
  {
  }

  /**
   * In prove mode, the store after synthesis is satisfied exactly when it was
   * before and `shorter` is a prefix of `larger`.
   */
  lemma SatisfiedIff(circuit: CompareCircuit, s: System)
    requires Consistent(s) && !s.setupMode
    requires circuit.shorter.Some? && circuit.larger.Some?
    requires |circuit.shorter.value| <= |circuit.larger.value|
    ensures Synthesize(circuit, s).result.Ok?
    ensures IsSatisfied(Synthesize(circuit, s).after) <==>
      IsSatisfied(s) && circuit.shorter.value <= circuit.larger.value
  {
    var shorter, larger := circuit.shorter.value, circuit.larger.value;
    var t := Synthesize(circuit, s).after;
    PrefixSatisfied(s, t, shorter, larger);
  }

  /** `SatisfiedIff` over the closed form of the store that synthesis leaves. */
  lemma PrefixSatisfied(s: System, t: System, shorter: seq<Fe>, larger: seq<Fe>)
    requires Consistent(s) && !s.setupMode && Extends(s, t)
    requires |shorter| <= |larger|
    requires t.inputs == s.inputs + Slots(false, shorter)
    requires t.witnesses == s.witnesses + Slots(false, larger[..|shorter|])
    requires t.constraints == s.constraints + PrefixConstraints(|s.witnesses|, |s.inputs|, |shorter|)
    ensures IsSatisfied(t) <==> IsSatisfied(s) && shorter <= larger
  {
    var n := |shorter|;
    var c0 := |s.constraints|;
    forall j | 0 <= j < n
      ensures Holds(t.constraints[c0 + j], t) <==> larger[j] == shorter[j]
    {
      PairHolds(s, t, shorter, larger, j);
    }
    SatisfiedExtends(s, t);
    if IsSatisfied(t) {
      forall j | 0 <= j < n
        ensures shorter[j] == larger[j]
      {
        assert Holds(t.constraints[c0 + j], t);
      }
    }
    if IsSatisfied(s) && shorter <= larger {
      forall k | c0 <= k < |t.constraints|
        ensures Holds(t.constraints[k], t)
      {
        assert Holds(t.constraints[c0 + (k - c0)], t);
      }
    }
  }

  /** The `j`-th emitted constraint holds exactly when the strings agree at position `j`. */
  lemma PairHolds(s: System, t: System, shorter: seq<Fe>, larger: seq<Fe>, j: nat)
    requires j < |shorter| <= |larger|
    requires t.inputs == s.inputs + Slots(false, shorter)
    requires t.witnesses == s.witnesses + Slots(false, larger[..|shorter|])
    requires t.constraints == s.constraints + PrefixConstraints(|s.witnesses|, |s.inputs|, |shorter|)
    ensures Holds(t.constraints[|s.constraints| + j], t) <==> larger[j] == shorter[j]
  {
    var w0, i0 := |s.witnesses|, |s.inputs|;
    assert t.constraints[|s.constraints| + j] == Equal([Witness(w0 + j)], [Input(i0 + j)]);
    assert t.witnesses[w0 + j] == Some(larger[j]);
    assert t.inputs[i0 + j] == Some(shorter[j]);
    SingleValue(Witness(w0 + j), t, larger[j]);
    SingleValue(Input(i0 + j), t, shorter[j]);
  }

  /**
   * From a fresh store in prove mode, the encoded strings are accepted and the
   * system is satisfied exactly when the public bytes are a prefix of the
   * private bytes.
   */
  lemma EncodedSatisfiedIff(shorter: seq<Byte>, larger: seq<Byte>)
    requires |shorter| <= |larger|
    ensures Synthesize(CompareCircuit(Some(Encode(shorter).elems), Some(Encode(larger).elems)), Empty(false)).result.Ok?
    ensures IsSatisfied(Synthesize(CompareCircuit(Some(Encode(shorter).elems), Some(Encode(larger).elems)), Empty(false)).after)
      <==> shorter <= larger
  {
    SatisfiedIff(CompareCircuit(Some(Encode(shorter).elems), Some(Encode(larger).elems)), Empty(false));
    EncodePrefix(shorter, larger);
  }

  /** "abc" is a prefix of "abcdef": the emitted system is satisfied. */
  lemma ScenarioStartsWith()
    ensures IsSatisfied(Synthesize(
      CompareCircuit(Some(Encode(AsciiBytes("abc")).elems), Some(Encode(AsciiBytes("abcdef")).elems)),
      Empty(false)).after)
  {
    var s, l := AsciiBytes("abc"), AsciiBytes("abcdef");
    assert s <= l;
    EncodedSatisfiedIff(s, l);
  }

  /** "abc" is longer than "ab": synthesis fails with `Unsatisfiable` and emits nothing. */
  lemma ScenarioTooShort(s: System)
    requires Consistent(s)
    ensures Synthesize(
      CompareCircuit(Some(Encode(AsciiBytes("abc")).elems), Some(Encode(AsciiBytes("ab")).elems)), s)
      == Synthesis(Err(Unsatisfiable), s)
  {
  }
}
