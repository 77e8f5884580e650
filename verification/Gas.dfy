/** What a batch costs: a pure function of its shape. */
module Gas {
  import opened Bytes
  import opened Accounts
  import opened Indexes
  import opened EntityDb
  import opened Operations

  const G_EXECUTE_BASE: nat := 5000
  const G_CREATE: nat := 80000
  const G_UPDATE: nat := 30000
  const G_EXTEND: nat := 25000
  const G_TRANSFER: nat := 25000
  const G_DELETE: nat := 62000
  const G_EXPIRE: nat := 62000
  const G_BYTE: nat := 16
  const G_ANNOTATION: nat := 5000
  const G_ART_INDEXED_ANNOTATION: nat := 6000
  const G_PAYLOAD_REFERENCE_VERIFY: nat := 50000

  /** `application/vnd.atlas.payload-reference+json`. */
  const PAYLOAD_REFERENCE_CONTENT_TYPE: Key := [
    97, 112, 112, 108, 105, 99, 97, 116, 105, 111, 110, 47, 118, 110, 100, 46, 97, 116, 108, 97, 115, 46,
    112, 97, 121, 108, 111, 97, 100, 45, 114, 101, 102, 101, 114, 101, 110, 99, 101, 43, 106, 115, 111, 110]

  function Clip(n: nat): (r: nat)
    ensures r <= U64_MAX && r <= n
  {
    if n <= U64_MAX then n else U64_MAX
  }

  // Saturating u64 arithmetic.
  function SatAdd(a: nat, b: nat): nat { Clip(a + b) }
  function SatMul(a: nat, b: nat): nat { Clip(a * b) }

  predicate Indexed(a: WireAttribute) { a.valueType == ATTR_UINT || a.valueType == ATTR_STRING }

  function CountIndexed(attrs: seq<WireAttribute>): (n: nat)
    ensures n <= |attrs|
  {
    if attrs == [] then 0 else CountIndexed(attrs[..|attrs| - 1]) + if Indexed(attrs[|attrs| - 1]) then 1 else 0
  }

  function BaseGas(kind: byte): nat {
    if kind == OP_CREATE then G_CREATE
    else if kind == OP_UPDATE then G_UPDATE
    else if kind == OP_EXTEND then G_EXTEND
    else if kind == OP_TRANSFER then G_TRANSFER
    else if kind == OP_DELETE then G_DELETE
    else if kind == OP_EXPIRE then G_EXPIRE
    else G_CREATE
  }

  function VerifyGas(op: Operation): nat {
    if MimeBytes(op.contentType) == PAYLOAD_REFERENCE_CONTENT_TYPE then G_PAYLOAD_REFERENCE_VERIFY else 0
  }

  /** `op_gas`, in the code's saturating arithmetic. */
  function OpGas(op: Operation): nat {
    var base := BaseGas(op.kind);
    if op.kind != OP_CREATE && op.kind != OP_UPDATE then base
    else
      var annotations := |op.attributes|;
      var annotationBytes := SatMul(annotations, 32 + 128);
      var g0 := SatAdd(base, SatMul(|op.payload|, G_BYTE));
      var g1 := SatAdd(g0, SatMul(annotationBytes, G_BYTE));
      var g2 := SatAdd(g1, SatMul(annotations, G_ANNOTATION));
      var g3 := SatAdd(g2, SatMul(CountIndexed(op.attributes), G_ART_INDEXED_ANNOTATION));
      SatAdd(g3, VerifyGas(op))
  }

  /** `total_gas`: a saturating fold from the fixed overhead. */
  function TotalGas(ops: seq<Operation>): nat {
    if ops == [] then G_EXECUTE_BASE
    else SatAdd(TotalGas(ops[..|ops| - 1]), OpGas(ops[|ops| - 1]))
  }

  // ── The exact costs ──────────────────────────────────────────────────

  const REFERENCE_TYPE: string := "application/vnd.atlas.payload-reference+json"

  /** The 128 bytes spell the media type of a payload reference, padded. */
  predicate SpellsReference(w: Words) {
    forall i :: 0 <= i < 128 ==> Join4(w)[i] == if i < |REFERENCE_TYPE| then REFERENCE_TYPE[i] as int else 0
  }

  /** Positions of the attributes that are numbers or strings. */
  function OrderedAt(attrs: seq<WireAttribute>): set<nat> {
    set i: nat | i < |attrs| && (attrs[i].valueType == 1 || attrs[i].valueType == 2)
  }

  /** What one operation costs without any clipping: so much for its kind, and
      with content for each payload byte, each attribute, more for each number
      and string, and for the signed reference. */
  function ExactGas(op: Operation): nat {
    var content := 16 * |op.payload| + 7560 * |op.attributes| + 6000 * |OrderedAt(op.attributes)|
                   + if SpellsReference(op.contentType) then 50000 else 0;
    if op.kind == 1 then 80000 + content
    else if op.kind == 2 then 30000 + content
    else if op.kind == 3 || op.kind == 4 then 25000
    else if op.kind == 5 || op.kind == 6 then 62000
    else 80000
  }

  lemma ReferenceBytes()
    ensures |PAYLOAD_REFERENCE_CONTENT_TYPE| == |REFERENCE_TYPE| == 44
    ensures forall i :: 0 <= i < 44 ==> PAYLOAD_REFERENCE_CONTENT_TYPE[i] == REFERENCE_TYPE[i] as int
  {}

  /** What the code compares is what the 128 bytes spell. */
  lemma ReferenceExact(w: Words)
    ensures MimeBytes(w) == PAYLOAD_REFERENCE_CONTENT_TYPE <==> SpellsReference(w)
  {
    ReferenceBytes();
    hide REFERENCE_TYPE, PAYLOAD_REFERENCE_CONTENT_TYPE;
    var v, t := Join4(w), PAYLOAD_REFERENCE_CONTENT_TYPE;
    if SpellsReference(w) {
      assert 'n' as int != 0;
      ReferenceLast();
      assert Strip(v)[..44] == t;
    }
  }

  lemma ReferenceLast()
    ensures PAYLOAD_REFERENCE_CONTENT_TYPE[43] != 0
  {}

  lemma {:induction false} CountExact(attrs: seq<WireAttribute>)
    ensures CountIndexed(attrs) == |OrderedAt(attrs)|
  {
    if attrs != [] {
      var n := |attrs| - 1;
      CountExact(attrs[..n]);
      assert OrderedAt(attrs) == OrderedAt(attrs[..n]) + if Indexed(attrs[n]) then {n} else {};
    }
  }

  /** The exact costs of a bag of operations, in no order. */
  ghost function BagGas(bag: multiset<Operation>): nat {
    if bag == multiset{} then 0
    else
      var op :| op in bag;
      ExactGas(op) + BagGas(bag - multiset{op})
  }

  lemma SaturatingSum(a: nat, b: nat)
    ensures SatAdd(Clip(a), Clip(b)) == Clip(a + b)
  {}

  lemma SatStep(g: nat, x: nat, n: nat, t: nat)
    requires g == Clip(x) && t == Clip(n)
    ensures SatAdd(g, t) == Clip(x + n)
  {}

  /** The saturating sum of an operation is its exact cost, clipped once. */
  lemma OpGasExact(op: Operation)
    ensures OpGas(op) == if ExactGas(op) < U64 then ExactGas(op) else U64 - 1
  {
    hide *;
    var p, n, i := |op.payload|, |op.attributes|, CountIndexed(op.attributes);
    ExactGasUnfold(op);
    OpGasUnfold(op);
    ClipIs(ExactGas(op));
    if op.kind == OP_CREATE || op.kind == OP_UPDATE { SixTerms(op, p, n, i, BaseGas(op.kind), VerifyGas(op)); }
  }

  lemma ClipIs(n: nat)
    ensures Clip(n) == if n < U64 then n else U64 - 1
  {}

  lemma SixTerms(op: Operation, p: nat, n: nat, i: nat, base: nat, v: nat)
    requires op.kind == OP_CREATE || op.kind == OP_UPDATE
    requires p == |op.payload| && n == |op.attributes| && i == CountIndexed(op.attributes)
    requires base == BaseGas(op.kind) && v == VerifyGas(op) && base == Clip(base) && v == Clip(v)
    ensures OpGas(op) == Clip(base + 16 * p + 2560 * n + 5000 * n + 6000 * i + v)
  {
    OpGasUnfold(op);
    Products(p, n, i);
    hide *;
    var a, b, c, d := SatMul(p, G_BYTE), SatMul(SatMul(n, 32 + 128), G_BYTE), SatMul(n, G_ANNOTATION), SatMul(i, G_ART_INDEXED_ANNOTATION);
    var g0 := SatAdd(base, a);
    SatStep(base, base, 16 * p, a);
    var g1 := SatAdd(g0, b);
    SatStep(g0, base + 16 * p, 2560 * n, b);
    var g2 := SatAdd(g1, c);
    SatStep(g1, base + 16 * p + 2560 * n, 5000 * n, c);
    var g3 := SatAdd(g2, d);
    SatStep(g2, base + 16 * p + 2560 * n + 5000 * n, 6000 * i, d);
    SatStep(g3, base + 16 * p + 2560 * n + 5000 * n + 6000 * i, v, v);
  }

  lemma ExactGasUnfold(op: Operation)
    ensures BaseGas(op.kind) == Clip(BaseGas(op.kind)) && VerifyGas(op) == Clip(VerifyGas(op))
    ensures ExactGas(op) == if op.kind != OP_CREATE && op.kind != OP_UPDATE then BaseGas(op.kind)
      else BaseGas(op.kind) + 16 * |op.payload| + 2560 * |op.attributes| + 5000 * |op.attributes| + 6000 * CountIndexed(op.attributes) + VerifyGas(op)
  {
    ReferenceExact(op.contentType);
    CountExact(op.attributes);
    hide CountIndexed, OrderedAt, SpellsReference, MimeBytes, PAYLOAD_REFERENCE_CONTENT_TYPE;
  }

  lemma Products(p: nat, n: nat, x: nat)
    ensures SatMul(p, G_BYTE) == Clip(16 * p)
    ensures SatMul(SatMul(n, 32 + 128), G_BYTE) == Clip(2560 * n)
    ensures SatMul(n, G_ANNOTATION) == Clip(5000 * n)
    ensures SatMul(x, G_ART_INDEXED_ANNOTATION) == Clip(6000 * x)
  {}

  lemma OpGasUnfold(op: Operation)
    ensures BaseGas(op.kind) <= U64_MAX && VerifyGas(op) <= U64_MAX
    ensures if op.kind != OP_CREATE && op.kind != OP_UPDATE then OpGas(op) == BaseGas(op.kind)
      else OpGas(op) == SatAdd(SatAdd(SatAdd(SatAdd(SatAdd(BaseGas(op.kind), SatMul(|op.payload|, G_BYTE)),
        SatMul(SatMul(|op.attributes|, 32 + 128), G_BYTE)), SatMul(|op.attributes|, G_ANNOTATION)),
        SatMul(CountIndexed(op.attributes), G_ART_INDEXED_ANNOTATION)), VerifyGas(op))
  {}

  /** The choice of the next operation does not matter to the sum. */
  lemma {:induction false} BagStep(bag: multiset<Operation>, op: Operation)
    requires op in bag
    ensures BagGas(bag) == ExactGas(op) + BagGas(bag - multiset{op})
    decreases |bag|
  {
    var p :| p in bag && BagGas(bag) == ExactGas(p) + BagGas(bag - multiset{p});
    if p != op {
      BagStep(bag - multiset{p}, op);
      BagStep(bag - multiset{op}, p);
      assert bag - multiset{p} - multiset{op} == bag - multiset{op} - multiset{p};
    }
  }

  lemma TotalGasStep(ops: seq<Operation>)
    requires ops != []
    ensures TotalGas(ops) == SatAdd(TotalGas(ops[..|ops| - 1]), OpGas(ops[|ops| - 1]))
  {}

  /** Taking the last operation off a batch takes it out of the bag. */
  lemma BagOfBatch(ops: seq<Operation>)
    requires ops != []
    ensures BagGas(multiset(ops)) == BagGas(multiset(ops[..|ops| - 1])) + ExactGas(ops[|ops| - 1])
  {
    hide *;
    var pre, op := ops[..|ops| - 1], ops[|ops| - 1];
    assert ops == pre + [op];
    assert multiset(ops) == multiset(pre) + multiset{op};
    BagStep(multiset(ops), op);
    assert multiset(ops) - multiset{op} == multiset(pre);
  }

  lemma NoOperations()
    ensures TotalGas([]) == Clip(5000 + BagGas(multiset([])))
  {}

  /** The nested saturating sum is the overhead of 5000 and the exact costs,
      clipped once. */
  lemma {:induction false} TotalGasExact(ops: seq<Operation>)
    ensures TotalGas(ops) == Clip(5000 + BagGas(multiset(ops)))
  {
    hide *;
    if ops == [] {
      NoOperations();
    } else {
      var pre, op := ops[..|ops| - 1], ops[|ops| - 1];
      TotalGasExact(pre);
      TotalGasStep(ops);
      OpGasExact(op);
      ClipIs(ExactGas(op));
      SaturatingSum(5000 + BagGas(multiset(pre)), ExactGas(op));
      BagOfBatch(ops);
    }
  }

  /** Order does not matter, and more operations never cost less. */
  lemma TotalGasOrder(ops: seq<Operation>, other: seq<Operation>)
    ensures multiset(ops) == multiset(other) ==> TotalGas(ops) == TotalGas(other)
    ensures TotalGas(ops) <= TotalGas(ops + other)
  {
    hide *;
    TotalGasExact(ops);
    TotalGasExact(other);
    Monotone(ops, other);
  }

  lemma SatAddGrows(a: nat, b: nat)
    requires a <= U64_MAX
    ensures a <= SatAdd(a, b) <= U64_MAX
  {}

  lemma {:induction false} Monotone(ops: seq<Operation>, more: seq<Operation>)
    ensures TotalGas(ops) <= TotalGas(ops + more) <= U64_MAX
  {
    hide *;
    if more == [] {
      assert ops + more == ops;
      TotalGasExact(ops);
    } else {
      var all := ops + more;
      Monotone(ops, more[..|more| - 1]);
      assert all[..|all| - 1] == ops + more[..|more| - 1];
      TotalGasStep(all);
      SatAddGrows(TotalGas(all[..|all| - 1]), OpGas(all[|all| - 1]));
    }
  }
}
