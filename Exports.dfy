/**
 * The C boundary: proof generation for the sum relation over raw byte
 * buffers, and the paired release of a returned buffer.
 *
 * Raw memory is a map from addresses to the byte buffers allocated there; a
 * pointer is an address or null. The proof-system engine is a parameter: its
 * key decoder, its prover and its proof encoder are arbitrary functions that
 * may fail.
 */
module Exports {
  import opened Wrappers
  import opened Field
  import opened ConstraintSystems
  import Sum

  datatype Ptr = Null | Addr(addr: nat)

  /** The native heap, as far as the boundary reads and hands out buffers. */
  class Heap {
    var blocks: map<nat, seq<Byte>>
    var next: nat

    predicate Valid()
      reads this
    {
      forall a | a in blocks :: a < next
    }

    constructor ()
      ensures Valid() && blocks == map[]
    {
      blocks, next := map[], 0;
    }

    /** A vector whose allocation is kept alive (`mem::forget`) and whose address is handed out. */
    method Leak(bytes: seq<Byte>) returns (p: Ptr)
      requires Valid()
      modifies this
      ensures Valid()
      ensures p.Addr? && p.addr !in old(blocks)
      ensures blocks == old(blocks)[p.addr := bytes]
    {
      p := Addr(next);
      blocks := blocks[next := bytes];
      next := next + 1;
    }

    /** A vector rebuilt from its raw parts and dropped. */
    method Release(addr: nat)
      requires Valid() && addr in blocks
      modifies this
      ensures Valid()
      ensures blocks == old(blocks) - {addr}
    {
      blocks := blocks - {addr};
    }
  }

  /** The `c_int` cell an out-parameter points at. */
  class CInt {
    var value: int

    constructor (value: int)
      ensures this.value == value
    {
      this.value := value;
    }
  }

  /** `as c_int` on a length: the low 32 bits, read as a two's-complement integer. */
  function AsCInt(n: nat): (r: int)
    ensures -0x8000_0000 <= r < 0x8000_0000
    ensures (n - r) % 0x1_0000_0000 == 0
    ensures n < 0x8000_0000 ==> r == n
  {
    var low := n % 0x1_0000_0000;
    if low < 0x8000_0000 then low else low - 0x1_0000_0000
  }

  /**
   * `convert_to_vec`: a copy of the `length` bytes at a non-null pointer, the
   * empty vector for null. The Safety section of `generate_proof_for_sum`
   * (src/exports.rs:20-21) requires `pk` to point at `pk_length` readable bytes.
   */
  function ConvertToVec(blocks: map<nat, seq<Byte>>, ptr: Ptr, length: nat): (v: seq<Byte>)
    requires ptr.Addr? ==> ptr.addr in blocks && length <= |blocks[ptr.addr]|
    ensures ptr.Null? ==> v == []
    ensures ptr.Addr? ==> |v| == length && forall i | 0 <= i < length :: v[i] == blocks[ptr.addr][i]
  {
    match ptr
    case Null => []
    case Addr(a) => blocks[a][..length]
  }

  /** The engine operations the boundary calls; each may fail with a message. */
  datatype Engine<!ProvingKey, !Proof> = Engine(
    fromBytes: seq<Byte> -> Result<ProvingKey, string>,
    generateProof: (ProvingKey, Sum.SumCircuit) -> Result<Proof, string>,
    toBytes: Proof -> Result<seq<Byte>, string>)

  /**
   * The nested `if let Ok` chain: decode the key, prove the circuit built
   * from `a`, `b`, `c`, encode the proof. Any failure becomes `None`.
   */
  function ProofBytes<ProvingKey, Proof>(engine: Engine<ProvingKey, Proof>, pkBytes: seq<Byte>, a: U32, b: U32, c: U32)
    : (r: Option<seq<Byte>>)
    ensures engine.fromBytes(pkBytes).Err? ==> r.None?
    ensures engine.fromBytes(pkBytes).Ok? ==>
      var proof := engine.generateProof(engine.fromBytes(pkBytes).value, Sum.FromU32(a, b, c));
      (proof.Err? ==> r.None?) &&
      (proof.Ok? ==> r == match engine.toBytes(proof.value)
                          case Ok(bytes) => Some(bytes)
                          case Err(_) => None)
  {
    match engine.fromBytes(pkBytes)
    case Err(_) => None
    case Ok(pk) =>
      match engine.generateProof(pk, Sum.FromU32(a, b, c))
      case Err(_) => None
      case Ok(proof) =>
        match engine.toBytes(proof)
        case Err(_) => None
        case Ok(bytes) => Some(bytes)
  }

  /**
   * `generate_proof_for_sum`. On success the proof's bytes are left in a new
   * allocation whose address is returned, and `*out_len` (when `out_len` is
   * not null) receives their length as a `c_int`; on any failure the result
   * is null and neither the heap nor `*out_len` changes.
   */
  method GenerateProofForSum<ProvingKey, Proof>(
    engine: Engine<ProvingKey, Proof>, heap: Heap,
    pk: Ptr, pkLength: nat, a: U32, b: U32, c: U32, outLen: CInt?)
    returns (ret: Ptr)
    requires heap.Valid()
    requires pk.Addr? ==> pk.addr in heap.blocks && pkLength <= |heap.blocks[pk.addr]|
    modifies heap, outLen
    ensures heap.Valid()
    ensures var r := ProofBytes(engine, ConvertToVec(old(heap.blocks), pk, pkLength), a, b, c);
      (r.None? ==> ret == Null && unchanged(heap) && (outLen != null ==> unchanged(outLen))) &&
      (r.Some? ==>
        ret.Addr? && ret.addr !in old(heap.blocks) &&
        heap.blocks == old(heap.blocks)[ret.addr := r.value] &&
        (outLen != null ==> outLen.value == AsCInt(|r.value|)))
    ensures ret.Addr? ==> ret.addr in heap.blocks
    ensures ret.Addr? && outLen != null && |heap.blocks[ret.addr]| < 0x8000_0000 ==>
      outLen.value == |heap.blocks[ret.addr]| &&
      ConvertToVec(heap.blocks, ret, outLen.value) == heap.blocks[ret.addr]
  {
    var pkBytes := ConvertToVec(heap.blocks, pk, pkLength);
    var key := engine.fromBytes(pkBytes);
    if key.Ok? {
      var proof := engine.generateProof(key.value, Sum.FromU32(a, b, c));
      if proof.Ok? {
        var proofBytes := engine.toBytes(proof.value);
        if proofBytes.Ok? {
          if outLen != null {
            outLen.value := AsCInt(|proofBytes.value|);
          }
          ret := heap.Leak(proofBytes.value);
          return;
        }
      }
    }
    ret := Null;
  }

  /**
   * `free_bytes`: a non-null pointer's allocation is released; null changes
   * nothing. The Safety section of `free_bytes` (src/exports.rs:66-70)
   * requires a non-null pointer to be a live allocation of exactly `len` bytes.
   */
  method FreeBytes(heap: Heap, ptr: Ptr, len: int, capacity: int)
    requires heap.Valid()
    requires ptr.Addr? ==> ptr.addr in heap.blocks && len == |heap.blocks[ptr.addr]|
    modifies heap
    ensures heap.Valid()
    ensures ptr.Null? ==> unchanged(heap)
    ensures ptr.Addr? ==> heap.blocks == old(heap.blocks) - {ptr.addr}
  {
    if ptr.Addr? {
      heap.Release(ptr.addr);
    }
  }

  /** The engine's prover succeeds on every circuit whose prove-mode system is satisfied. */
  ghost predicate ProvesSatisfied<ProvingKey(!new), Proof(!new)>(engine: Engine<ProvingKey, Proof>) {
    forall pk: ProvingKey, circuit: Sum.SumCircuit ::
      IsSatisfied(Sum.Synthesize(circuit, Empty(false)).after) ==> engine.generateProof(pk, circuit).Ok?
  }

  /** The engine can encode every proof. */
  ghost predicate EncodesProofs<ProvingKey(!new), Proof(!new)>(engine: Engine<ProvingKey, Proof>) {
    forall proof: Proof :: engine.toBytes(proof).Ok?
  }

  /** A null key pointer reads as the empty buffer; an engine that rejects it makes the call return null. */
  lemma NullKeyGivesNull<ProvingKey, Proof>(
    engine: Engine<ProvingKey, Proof>, blocks: map<nat, seq<Byte>>, pkLength: nat, a: U32, b: U32, c: U32)
    requires engine.fromBytes([]).Err?
    ensures ProofBytes(engine, ConvertToVec(blocks, Null, pkLength), a, b, c) == None
  {
  }

  /**
   * With a key the engine decodes, an engine that proves satisfied circuits
   * and encodes proofs, and `a + b == c`, the call yields the proof's bytes.
   */
  lemma TrueSumGivesProof<ProvingKey(!new), Proof(!new)>(engine: Engine<ProvingKey, Proof>, pkBytes: seq<Byte>, a: U32, b: U32, c: U32)
    requires engine.fromBytes(pkBytes).Ok?
    requires ProvesSatisfied(engine) && EncodesProofs(engine)
    requires a + b == c
    ensures ProofBytes(engine, pkBytes, a, b, c).Some?
  {
    Sum.U32SatisfiedIff(a, b, c);
    var circuit := Sum.FromU32(a, b, c);
    assert engine.generateProof(engine.fromBytes(pkBytes).value, circuit).Ok?;
  }

  /** With a valid key, (10, 20, 30) yields a proof. */
  lemma ScenarioValidKey<ProvingKey(!new), Proof(!new)>(engine: Engine<ProvingKey, Proof>, pkBytes: seq<Byte>)
    requires engine.fromBytes(pkBytes).Ok?
    requires ProvesSatisfied(engine) && EncodesProofs(engine)
    ensures ProofBytes(engine, pkBytes, 10, 20, 30).Some?
  {
    TrueSumGivesProof(engine, pkBytes, 10, 20, 30);
  }
}
