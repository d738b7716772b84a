# trivial-circuits: a verified model of the constraint emitters and the C boundary

This project models the core of a small zero-knowledge library built on the
arkworks Groth16 prover over the BN254 curve. The library has two relation
circuits and one foreign-call entry point:

- the **sum circuit** proves knowledge of private `a` and `b` with a public `c = a + b`;
- the **compare (prefix) circuit** proves that a private string starts with a public one;
- the **C boundary** deserializes a proving key from a raw buffer, proves the sum
  circuit, and hands the serialized proof back as a leaked buffer, collapsing
  every failure to a null pointer.

The circuits do not prove anything themselves. They append variables and
equality constraints to a constraint system that the engine lends them. The
model states and proves what they append: the values, how many, in what order,
and which errors come first. It also proves when the resulting system is
satisfied. The engine's cryptography is a parameter.

Modules, one per source component:

- `Wrappers`: Rust's `Option` and `Result`, and `ok_or`.
- `Field`: the BN254 scalar modulus `P`. Field elements are canonical integers in `[0, P)`. Also field addition and the machine-integer conversions.
- `ConstraintSystems`: the constraint system the circuits borrow. `System` is its value view: input slots, witness slots, constraints and a setup-mode flag. `ConstraintSystem` is the mutable class with sequence fields, whose methods `NewInput`, `NewWitness` and `EnforceEqual` append.
  - In setup mode a slot holds no value and the value is never looked at.
  - In prove mode an error in the value is returned and nothing is allocated.
  - A constraint `Equal(lhs, rhs)` says that the field sums of two lists of variables agree.
  - `IsSatisfied` holds when the system is in prove mode and every constraint holds.
- `Sum`: `SumCircuit` and `generate_constraints`, as a pure function (`Synthesize`) and as an imperative method over the class (`GenerateConstraints`). The method is proved equal to the function. The lemmas are proved about the function.
- `Compare`: `PrimeString`, its byte encoder and `CompareCircuit`. The circuit's two allocation passes and its zipped `enforce_equal` loop are imperative methods with loop invariants. Each is proved against a recursive function.
- `Exports`: `convert_to_vec`, the `if let Ok` chain of `generate_proof_for_sum`, the out-parameter write, and `free_bytes`.
  - Raw memory is a `Heap` of byte blocks by address. A pointer is an address or `Null`.
  - `out_len` is a nullable `CInt` cell.
  - The engine is an `Engine` value. Its three function fields stand for `from_bytes`, `generate_proof` and `try_to_bytes`. Each may fail.

Points where the source's own comments or tests read differently from what its code does:

- The comments at src/circuits/sum.rs:63-65 read as two steps: add, then enforce. The code emits a single constraint. `a_var + b_var` only builds a linear combination, and `enforce_equal` adds the one constraint (src/circuits/sum.rs:64-66).
- `setup` at src/circuits/sum.rs:72-82 derives the keys from the all-`None` template, which works because the sum circuit reads its values only inside the allocation closures (`Sum.SetupAcceptsTemplate`). The compare circuit's derived `Default` (src/circuits/compare.rs:56) cannot be used that way. src/circuits/compare.rs:80-81 unwraps both strings eagerly, so the default fails with `AssignmentMissing` even in setup mode (`Compare.DefaultRejectedInSetup`). The compare test derives its keys from the assigned circuit instead (src/circuits/compare.rs:140).
- The test documentation at src/circuits/sum.rs:163-167 says proof generation for 10 + 31 = 42 "should fail". That failure is the engine's `is_satisfied` assertion, which src/circuits/sum.rs:169 expects to panic; the circuit itself returns `Ok`. The model shows that the circuit synthesizes and that the emitted system is not satisfied (`Sum.ScenarioUnsatisfied`).

## Model

| member | source | states |
|---|---|---|
| `Wrappers.OkOr` | src/circuits/sum.rs:52 | `ok_or` gives `Ok` exactly when the option is present, carrying its value, and the given error otherwise |
| `Field.Add` | src/circuits/sum.rs:64 | field addition equals the integer sum below `P` and the sum minus `P` at or above it |
| `Field.FromU64` | src/circuits/compare.rs:35 | converting a u64 (so also a byte or a u32) to the field keeps its numeric value, because every u64 is below `P` |
| `Field.AddU32Exact` | src/circuits/sum.rs:119-126 | for three u32 values, `a + b == c` in the field exactly when it holds over the naturals (no wrap-around, since `P > 2^33`) |
| `ConstraintSystems.AllocInput` | src/circuits/sum.rs:59-61 | `new_input` fails only in prove mode and only when the value is an error, and then leaves the store unchanged. Otherwise it returns the next input index and appends one slot: empty in setup mode, the value in prove mode. The store stays consistent |
| `ConstraintSystems.AllocWitness` | src/circuits/sum.rs:51-57 | the same for `new_witness` on the witness slots |
| `ConstraintSystems.ConstraintSystem.NewInput` | src/circuits/sum.rs:59-61 | the mutable store's `new_input` returns and leaves exactly what `AllocInput` describes |
| `ConstraintSystems.ConstraintSystem.NewWitness` | src/circuits/sum.rs:51-57 | the mutable store's `new_witness` returns and leaves exactly what `AllocWitness` describes |
| `ConstraintSystems.ConstraintSystem.EnforceEqual` | src/circuits/sum.rs:66 | `enforce_equal` appends one equality over allocated variables and keeps every slot |
| `ConstraintSystems.Enforce` | src/circuits/compare.rs:101 | `enforce_equal` on the value view: a constraint over allocated variables is appended last, the slots are kept, and the store stays consistent (`enforce_equal` at src/circuits/sum.rs:66 too) |
| `ConstraintSystems.IsSatisfied` | src/circuits/sum.rs:169 | the `cs.is_satisfied()` the engine asserts: a setup-mode store is never satisfied, and a prove-mode store with no constraints always is |
| `ConstraintSystems.SatisfiedExtends` | src/circuits/compare.rs:100-102 | appending to a consistent store keeps each old constraint's truth, so the new store is satisfied exactly when the old one was and every appended constraint holds |
| `Sum.FromU32` | src/exports.rs:40 | the circuit built from three u32 values has all three set, to those values |
| `Sum.Synthesize` | src/circuits/sum.rs:48-69 | synthesis fails exactly when the system is in prove mode and some value is unset, always with `AssignmentMissing`; an unset `a` leaves the store unchanged. On success it appends witnesses `a` then `b`, one input `c`, and exactly one constraint: witness `a` plus witness `b` equals input `c` |
| `Sum.GenerateConstraints` | src/circuits/sum.rs:48-69 | the imperative emitter returns and leaves exactly what `Sum.Synthesize` describes, and keeps the store consistent |
| `Sum.Template` | src/circuits/sum.rs:74-78 | the circuit `setup` is given has all three values unset |
| `Sum.SetupAcceptsTemplate` | src/circuits/sum.rs:72-82 | in setup mode the all-unset template synthesizes without error and emits one constraint, so a key pair can be derived from it |
| `Sum.ProveRequiresAssignment` | src/circuits/sum.rs:51-61 | in prove mode, any unset value yields `AssignmentMissing` |
| `Sum.ShapeIsValueIndependent` | src/circuits/sum.rs:64-66 | whatever the values and the mode, successful syntheses into stores of equal shape leave stores of equal shape, with one more constraint |
| `Sum.SatisfiedIff` | src/circuits/sum.rs:63-66 | in prove mode with all values set, the new store is satisfied exactly when the old one was and `(a + b) mod P == c` |
| `Sum.U32SatisfiedIff` | src/circuits/sum.rs:119-126 | from an empty prove-mode store, the u32 circuit is satisfied exactly when `a + b == c` over the naturals |
| `Sum.FromU32Synthesizes` | src/exports.rs:40 | the circuit the C boundary builds always synthesizes, so `AssignmentMissing` cannot arise there |
| `Sum.ScenarioSatisfied` | src/circuits/sum.rs:148-161 | (10, 32, 42) gives a satisfied system |
| `Sum.ScenarioUnsatisfied` | src/circuits/sum.rs:168-184 | (10, 31, 42) synthesizes but gives an unsatisfied system |
| `Compare.Encode` | src/circuits/compare.rs:30-38 | the encoding has one element per byte, and element `i` is byte `i`'s numeric value |
| `Compare.ToVec` | src/circuits/compare.rs:47-49 | the vector is the wrapped sequence: wrapping it again gives back the same `PrimeString` |
| `Compare.EncodeInjective` | src/circuits/compare.rs:35 | two byte strings encode alike exactly when they are equal |
| `Compare.EncodePrefix` | src/circuits/compare.rs:30-38 | one encoding is a prefix of another exactly when the first byte string is a prefix of the second |
| `Compare.AsciiBytes` | src/circuits/compare.rs:33 | `as_bytes` on an ASCII string literal (those of src/circuits/compare.rs:128-129) gives one byte per character, each the character's code |
| `Compare.Default` | src/circuits/compare.rs:56 | the derived `Default` has both strings unset |
| `Compare.AllocInputs` | src/circuits/compare.rs:88-91 | allocating a run of values as inputs returns consecutive input variables from the store's input count and appends one slot per value, in order |
| `Compare.AllocWitnesses` | src/circuits/compare.rs:94-98 | the same on the witness slots |
| `Compare.EnforcePairs` | src/circuits/compare.rs:100-102 | the zipped loop appends, in order, one constraint per pair, `larger[k] == shorter[k]`, and as many as the shorter of the two lists |
| `Compare.NewInputs` | src/circuits/compare.rs:88-91 | the imperative input pass returns and leaves exactly what `AllocInputs` describes |
| `Compare.NewWitnesses` | src/circuits/compare.rs:94-98 | the imperative witness pass returns and leaves exactly what `AllocWitnesses` describes |
| `Compare.EnforcePairwise` | src/circuits/compare.rs:100-102 | the imperative zipped loop leaves exactly what `EnforcePairs` describes |
| `Compare.Synthesize` | src/circuits/compare.rs:79-105 | an unset `shorter`, then an unset `larger`, gives `AssignmentMissing` in either mode, and a `shorter` longer than `larger` gives `Unsatisfiable`; each leaves the store unchanged. Otherwise it appends exactly `shorter` as inputs, exactly `larger[..len(shorter)]` as witnesses, and `len(shorter)` constraints, constraint `k` binding witness `k` to input `k` |
| `Compare.GenerateConstraints` | src/circuits/compare.rs:79-105 | the imperative emitter returns and leaves exactly what `Compare.Synthesize` describes |
| `Compare.DefaultRejectedInSetup` | src/circuits/compare.rs:80-81 | the derived default circuit fails with `AssignmentMissing` and changes nothing, even in setup mode |
| `Compare.ShapeIsPublicLength` | src/circuits/compare.rs:88-102 | successful syntheses into stores of equal shape leave stores of equal shape exactly when the public strings have equal length |
| `Compare.SatisfiedIff` | src/circuits/compare.rs:100-102 | in prove mode, the new store is satisfied exactly when the old one was and `shorter` is a prefix of `larger` |
| `Compare.EncodedSatisfiedIff` | src/circuits/compare.rs:127-146 | from an empty prove-mode store, the encoded strings synthesize and are satisfied exactly when the public bytes are a prefix of the private bytes |
| `Compare.ScenarioStartsWith` | src/circuits/compare.rs:127-146 | "abc" against "abcdef" gives a satisfied system |
| `Compare.ScenarioTooShort` | src/circuits/compare.rs:83-85 | "abc" against "ab" fails with `Unsatisfiable` and leaves the store unchanged |
| `Exports.AsCInt` | src/exports.rs:46 | `as c_int` gives a 32-bit signed value congruent to the length mod 2^32, and equal to it when the length is below 2^31 |
| `Exports.ConvertToVec` | src/exports.rs:5-13 | null gives the empty vector for any length; a non-null pointer gives exactly the first `length` bytes stored there |
| `Exports.ProofBytes` | src/exports.rs:36-44 | a key that fails to decode, or a proof that fails, gives `None`. Otherwise the result is the proof's encoding, or `None` when encoding fails |
| `Exports.GenerateProofForSum` | src/exports.rs:28-59 | on any failure: returns null, and neither the heap nor `*out_len` changes. On success: returns a fresh allocation holding the proof bytes, and `*out_len` (when `out_len` is not null) is the length as a `c_int`. Reading that many bytes back gives the proof when it is shorter than 2^31 |
| `Exports.Heap.Leak` | src/exports.rs:49-53 | a forgotten vector stays allocated at a fresh address holding its bytes |
| `Exports.Heap.Release` | src/exports.rs:72-77 | a vector rebuilt from its raw parts and dropped frees exactly its allocation |
| `Exports.FreeBytes` | src/exports.rs:71-78 | a null pointer changes nothing; a non-null one frees exactly its allocation |
| `Exports.NullKeyGivesNull` | src/exports.rs:36-37 | a null key pointer reads as the empty buffer, so an engine that rejects the empty key makes the call return null |
| `Exports.TrueSumGivesProof` | src/exports.rs:38-47 | with a decodable key, an engine that proves satisfied circuits and encodes proofs, and `a + b == c`, the call yields the proof's bytes |
| `Exports.ScenarioValidKey` | src/exports.rs:96-106 | under the same assumptions on the engine, a valid key with (10, 20, 30) yields a non-null result |

## Left out

- The proof-system engine: BN254 field and curve arithmetic, pairings, the Groth16 setup, prove and verify algorithms, and any zero-knowledge or soundness claim about proofs. Verification outcomes are modelled only as "the constraint system is satisfied". src/circuits/groth16.rs's `setup` and `verify_proof` are not used by the C boundary and are not modelled. Its `from_bytes`, `generate_proof` and `try_to_bytes` are the three function fields of `Exports.Engine`.
- The duplicate wrappers in src/circuits/sum.rs (`setup` beyond the setup-mode observation, `generate_proof`'s call into the prover, `TrySerializer`, `from_bytes`) and the `SumProof` and `Bn254Proof` newtype plumbing. They are one-line calls into the engine.
- The serialization round trip: it is the engine's promise, not this code's.
- Randomness: `thread_rng()` is ambient. An engine's prover is an arbitrary function, and every lemma holds for all engines.
- `Exports.FreeBytes`: the `capacity` argument is not modelled. A block records only its bytes, so the model cannot say that capacity must match. Double frees and mismatched lengths are excluded by its precondition and not modelled as undefined behaviour. The source test's mismatched free of the proof buffer (src/exports.rs:110) is not modelled.
- `ConstraintSystems.AllocInput` and `ConstraintSystems.AllocWitness`: when a prove-mode value is an error, the engine still bumps its variable counter. The model leaves the store unchanged instead. The store is discarded after any error, so nothing observable depends on this.
- The engine's implicit constant-one input variable and its R1CS encoding of an equality, `(lhs - rhs) * 1 = 0`, are not modelled. A constraint is an equality between two unit-coefficient sums, which is all these circuits build.
- `Compare.Encode` takes the string's bytes. `str::as_bytes`, the UTF-8 encoding of non-ASCII text, is not modelled. `Compare.AsciiBytes` gives the bytes of ASCII literals.
- `enforce_equal` and the `collect::<Result<…>>()?` over `Ok` closures cannot fail in this code. The model gives them no error path.
- `SumCircuit::new`, called at src/exports.rs:40, and `SumCircuit::default()`, called by the test at src/exports.rs:99, are not defined in src/circuits/sum.rs. The model reads `new` as the struct literal with the three fields in order (`Sum.FromU32`) and the default as the all-unset `Sum.Template`.
- src/lib.rs and src/circuits/mod.rs hold only module declarations and documentation.
