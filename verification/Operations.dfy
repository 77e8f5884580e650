/** Calldata: the operations of a batch and the attributes they carry. */
module Operations {
  import opened Bytes
  import opened Accounts

  const U64_MAX: nat := 0xFFFF_FFFF_FFFF_FFFF
  const U32_MAX: nat := 0xFFFF_FFFF

  type Words = w: seq<B256> | |w| == 4 witness [ZeroWord(), ZeroWord(), ZeroWord(), ZeroWord()]

  datatype WireAttribute = WireAttribute(name: B256, valueType: byte, value: Words)

  const OP_CREATE: byte := 1
  const OP_UPDATE: byte := 2
  const OP_EXTEND: byte := 3
  const OP_TRANSFER: byte := 4
  const OP_DELETE: byte := 5
  const OP_EXPIRE: byte := 6

  datatype Operation = Operation(
    kind: byte, entityKey: B256, payload: Key, contentType: Words,
    attributes: seq<WireAttribute>, btl: nat, newOwner: Address)

  function Join4(w: Words): (s: Key)
    ensures |s| == 128
  {
    var (a: Key, b: Key, c: Key, d: Key) := (w[0], w[1], w[2], w[3]);
    a + b + c + d
  }

  /** Everything up to the last byte that is not zero. */
  function Strip(v: Key): (r: Key)
    ensures |r| <= |v| && r == v[..|r|]
    ensures forall i :: |r| <= i < |v| ==> v[i] == 0
    ensures r != [] ==> r[|r| - 1] != 0
  {
    if v != [] && v[|v| - 1] == 0 then Strip(v[..|v| - 1]) else v
  }

  function Pad(v: Key, n: nat): Key
    requires |v| <= n
  {
    v + Zeros(n - |v|)
  }

  lemma PadStrip(v: Key)
    ensures Pad(Strip(v), |v|) == v
  {}

  /** `mime128_to_bytes`. */
  function MimeBytes(w: Words): Key { Strip(Join4(w)) }

  /** `strip_trailing_zeros`, as the loop that pops. */
  method StripTrailingZeros(v: Key) returns (r: Key)
    ensures r == Strip(v)
  {
    r := v;
    while r != [] && r[|r| - 1] == 0
      invariant Strip(r) == Strip(v)
    {
      r := r[..|r| - 1];
    }
  }

  // ── Errors ───────────────────────────────────────────────────────────

  /** The reverts a caller can decode. */
  datatype Error =
    | Ident32Empty
    | Ident32InvalidByte(position: nat, value: byte)
    | EmptyBatch
    | InvalidOpType(kind: byte)
    | ZeroBtl
    | EntityNotFound(key: B256)
    | NotOwner(key: B256, caller: Address, owner: Address)
    | EntityExpired(key: B256, expiresAt: nat)
    | ExpiryNotExtended(key: B256, newExpiresAt: nat, currentExpiresAt: nat)
    | TransferToZeroAddress(key: B256)
    | TransferToSelf(key: B256)
    | EntityNotExpired(key: B256, expiresAt: nat)
    | AttributeValueMalformed(name: B256, valueType: byte, word: nat)
    | AttributeStringInvalidByte(name: B256, position: nat, value: byte)
    | PayloadReferenceRequired(contentType: Key)
    | PayloadReferenceRejected
    | PayloadReferenceNonceUsed(nonce: B256)
    | PaymentBelowMinimum(payment: nat, minimum: nat)
    | PaymentInsufficientBalance(payer: Address, payment: nat, balance: nat)
    | PaymentTransferFailed(provider: Address, amount: nat)

  /** A step of the precompile: a value, a decodable revert, or a fatal stop. */
  datatype Result<T> = Ok(value: T) | Revert(error: Error) | Fatal {
    predicate IsFailure() { !Ok? }

    function PropagateFailure<U>(): Result<U>
      requires IsFailure()
    {
      if Revert? then Revert(error) else Fatal
    }

    function Extract(): T
      requires Ok?
    {
      value
    }
  }
}
