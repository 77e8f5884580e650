/** The six operations in plain numbers and fields: exactly when each succeeds,
    every field of the state it leaves, and the answer otherwise. */
module Rules {
  import opened Options
  import opened Bytes
  import opened Accounts
  import opened Indexes
  import opened EntityDb
  import opened Operations
  import opened Gas
  import opened Attributes
  import opened Payment
  import opened Lifecycle

  /** The first 20 bytes of the key are the address of a record. */
  function At(key: B256): Address { key[..20] }

  function Capped64(n: nat): nat { if n < 0x1_0000_0000_0000_0000 then n else 0xFFFF_FFFF_FFFF_FFFF }
  function Capped32(n: nat): nat { if n < 0x1_0000_0000 then n else 0xFFFF_FFFF }

  /** There, not expired, and the caller's. */
  predicate Owns(c: Chain, env: Env, key: B256) {
    At(key) in c.ents && env.block < c.ents[At(key)].expiresAt && c.ents[At(key)].owner == env.caller
  }

  /** What the caller is told when it is not. */
  function NotOwned(c: Chain, env: Env, key: B256): Error {
    if At(key) !in c.ents then EntityNotFound(key)
    else if c.ents[At(key)].expiresAt <= env.block then EntityExpired(key, Capped32(c.ents[At(key)].expiresAt))
    else NotOwner(key, env.caller, c.ents[At(key)].owner)
  }

  lemma LoadRule(c: Chain, env: Env, key: B256)
    ensures LoadForOwner(c, env, key) == if Owns(c, env, key) then Ok(c.ents[At(key)]) else Revert(NotOwned(c, env, key))
  {}

  // ── TRANSFER, EXTEND, DELETE, EXPIRE ─────────────────────────────────

  predicate TransferOpen(c: Chain, env: Env, op: Operation) {
    Owns(c, env, op.entityKey) && op.newOwner != Zeros(20) && op.newOwner != c.ents[At(op.entityKey)].owner
  }

  /** TRANSFER, kind 4. */
  lemma TransferRule(c: Chain, w: World, env: Env, op: Operation)
    requires op.kind == 4
    ensures ApplyOp(c, w, env, op).Ok? <==> TransferOpen(c, env, op)
    ensures TransferOpen(c, env, op) ==>
      var a := At(op.entityKey);
      var e := c.ents[a];
      ApplyOp(c, w, env, op) == Ok(Chain(
        c.ents[a := Entity(e.payload, e.creator, e.createdAt, op.newOwner, e.expiresAt, e.contentType, e.key, e.attributes, env.block)],
        c.nonces, c.used, c.balances, c.logs + [Event(op.entityKey, 4, op.newOwner, Capped32(e.expiresAt))]))
    ensures !TransferOpen(c, env, op) ==>
      ApplyOp(c, w, env, op) == Revert(
        if !Owns(c, env, op.entityKey) then NotOwned(c, env, op.entityKey)
        else if op.newOwner == Zeros(20) then TransferToZeroAddress(op.entityKey)
        else TransferToSelf(op.entityKey))
  {
    LoadRule(c, env, op.entityKey);
  }

  predicate ExtendOpen(c: Chain, env: Env, op: Operation) {
    op.btl > 0 && Owns(c, env, op.entityKey) && Capped64(env.block + op.btl) > c.ents[At(op.entityKey)].expiresAt
  }

  /** EXTEND, kind 3. */
  lemma ExtendRule(c: Chain, w: World, env: Env, op: Operation)
    requires op.kind == 3
    ensures ApplyOp(c, w, env, op).Ok? <==> ExtendOpen(c, env, op)
    ensures ExtendOpen(c, env, op) ==>
      var a, until := At(op.entityKey), Capped64(env.block + op.btl);
      var e := c.ents[a];
      ApplyOp(c, w, env, op) == Ok(Chain(
        c.ents[a := Entity(e.payload, e.creator, e.createdAt, e.owner, until, e.contentType, e.key, e.attributes, env.block)],
        c.nonces, c.used, c.balances, c.logs + [Event(op.entityKey, 3, e.owner, Capped32(until))]))
    ensures !ExtendOpen(c, env, op) ==>
      ApplyOp(c, w, env, op) == Revert(
        if op.btl == 0 then ZeroBtl
        else if !Owns(c, env, op.entityKey) then NotOwned(c, env, op.entityKey)
        else ExpiryNotExtended(op.entityKey, Capped32(Capped64(env.block + op.btl)), Capped32(c.ents[At(op.entityKey)].expiresAt)))
  {
    LoadRule(c, env, op.entityKey);
  }

  /** DELETE, kind 5. */
  lemma DeleteRule(c: Chain, w: World, env: Env, op: Operation)
    requires op.kind == 5
    ensures ApplyOp(c, w, env, op).Ok? <==> Owns(c, env, op.entityKey)
    ensures Owns(c, env, op.entityKey) ==>
      var a := At(op.entityKey);
      ApplyOp(c, w, env, op) == Ok(Chain(c.ents - {a}, c.nonces, c.used, c.balances,
        c.logs + [Event(op.entityKey, 5, c.ents[a].owner, Capped32(c.ents[a].expiresAt))]))
    ensures !Owns(c, env, op.entityKey) ==> ApplyOp(c, w, env, op) == Revert(NotOwned(c, env, op.entityKey))
  {
    LoadRule(c, env, op.entityKey);
  }

  predicate ExpireOpen(c: Chain, env: Env, op: Operation) {
    At(op.entityKey) in c.ents && c.ents[At(op.entityKey)].expiresAt <= env.block
  }

  /** EXPIRE, kind 6. */
  lemma ExpireRule(c: Chain, w: World, env: Env, op: Operation)
    requires op.kind == 6
    ensures ApplyOp(c, w, env, op).Ok? <==> ExpireOpen(c, env, op)
    ensures ExpireOpen(c, env, op) ==>
      var a := At(op.entityKey);
      ApplyOp(c, w, env, op) == Ok(Chain(c.ents - {a}, c.nonces, c.used, c.balances,
        c.logs + [Event(op.entityKey, 6, c.ents[a].owner, Capped32(c.ents[a].expiresAt))]))
    ensures !ExpireOpen(c, env, op) ==>
      ApplyOp(c, w, env, op) == Revert(
        if At(op.entityKey) !in c.ents then EntityNotFound(op.entityKey)
        else EntityNotExpired(op.entityKey, Capped32(c.ents[At(op.entityKey)].expiresAt)))
  {}

  /** Any other kind. */
  lemma OtherKind(c: Chain, w: World, env: Env, op: Operation)
    requires op.kind == 0 || op.kind > 6
    ensures ApplyOp(c, w, env, op) == Revert(InvalidOpType(op.kind))
  {}

  // ── Receipt and payment ──────────────────────────────────────────────

  /** The calldata says it is a payload reference, the payload validates as one,
      and its nonce is fresh. */
  predicate ReceiptOpen(c: Chain, w: World, env: Env, op: Operation) {
    SpellsReference(op.contentType) && w.validate(op.payload).Some? && (env.caller, w.validate(op.payload).value.nonce) !in c.used
  }

  /** The payment goes through: switched off, or well configured, large enough,
      covered, and without overflow at the provider. */
  ghost predicate Payable(b: Balances, env: Env, auth: Auth) {
    env.params.enabled ==>
      && env.params.shareBps <= 10000 && auth.payment >= env.params.minimum && Balance(b, env.caller) >= auth.payment * env.baseFee
      && exists s: nat :: ShareIs(s, auth.payment * env.baseFee, env.params.shareBps)
           && (s == 0 || env.caller == auth.provider || Balance(b, auth.provider) + s < Pow256(32))
  }

  /** The balances afterwards. */
  ghost predicate PaidFor(b: Balances, b': Balances, env: Env, auth: Auth) {
    if !env.params.enabled then b' == b
    else
      exists s: nat :: ShareIs(s, auth.payment * env.baseFee, env.params.shareBps)
        && Paid(b, b', env.caller, auth.provider, auth.payment * env.baseFee, s)
  }

  lemma PayRule(b: Balances, env: Env, auth: Auth)
    ensures var r := Pay(b, env.caller, auth, env.baseFee, env.params);
      (r.Ok? <==> Payable(b, env, auth)) && (r.Ok? ==> PaidFor(b, r.value, env, auth))
  {
    var paid := auth.payment * env.baseFee;
    var s := ProviderAmount(paid, env.params.shareBps);
    if env.params.shareBps <= 10000 { ShareExact(paid, env.params.shareBps, s); }
    PayExact(b, env.caller, auth, env.baseFee, env.params, s);
    forall x: nat | env.params.shareBps <= 10000 && ShareIs(x, paid, env.params.shareBps) ensures x == s {
      ShareExact(paid, env.params.shareBps, x);
    }
    hide Pay, ProviderAmount, ShareIs, Paid, Pow256;
  }

  /** The receipt is taken if and only if it is open and paid for; then its nonce
      is spent and the payment made, and nothing else has changed. */
  lemma SettleRule(c: Chain, w: World, env: Env, op: Operation)
    ensures Settle(c, w, env, op).Ok? <==> ReceiptOpen(c, w, env, op) && Payable(c.balances, env, w.validate(op.payload).value)
    ensures Settle(c, w, env, op).Ok? ==>
      var (c1, auth) := Settle(c, w, env, op).value;
      && auth == w.validate(op.payload).value
      && c1 == Chain(c.ents, c.nonces, c.used + {(env.caller, auth.nonce)}, c1.balances, c.logs)
      && PaidFor(c.balances, c1.balances, env, auth)
    ensures !ReceiptOpen(c, w, env, op) ==>
      Settle(c, w, env, op) == Revert(
        if !SpellsReference(op.contentType) then PayloadReferenceRequired(MimeBytes(op.contentType))
        else if w.validate(op.payload).None? then PayloadReferenceRejected
        else PayloadReferenceNonceUsed(w.validate(op.payload).value.nonce))
  {
    ReferenceExact(op.contentType);
    if w.validate(op.payload).Some? { PayRule(c.balances, env, w.validate(op.payload).value); }
    hide Pay, Payable, PaidFor, SpellsReference, MimeBytes, PAYLOAD_REFERENCE_CONTENT_TYPE;
  }

  function AsFailure<T>(r: Result<T>): Result<Chain> { if r.Revert? then Revert(r.error) else Fatal }

  // ── CREATE and UPDATE ────────────────────────────────────────────────

  /** Every name is an identifier and every value acceptable. */
  ghost predicate AttributesOpen(attrs: seq<WireAttribute>) {
    && (forall i :: 0 <= i < |attrs| ==> IsIdent(attrs[i].name))
    && (forall i :: 0 <= i < |attrs| ==> Acceptable(attrs[i]))
  }

  /** The stored attributes are those of the calldata, one by one. */
  ghost predicate StoredAs(attrs: seq<WireAttribute>, stored: seq<Attribute>) {
    |stored| == |attrs| && forall i :: 0 <= i < |attrs| ==> Faithful(attrs[i], stored[i])
  }

  lemma AttributesRule(attrs: seq<WireAttribute>)
    ensures CheckNames(attrs).Ok? && Convert(attrs).Ok? <==> AttributesOpen(attrs)
    ensures AttributesOpen(attrs) ==> StoredAs(attrs, Convert(attrs).value)
  {
    ListAccepted(attrs);
    NamesAccepted(attrs);
    if CheckNames(attrs).Ok? && Convert(attrs).Ok? { ConvertExact(attrs); }
    hide CheckNames, Convert, IsIdent, Acceptable, Faithful;
  }

  ghost predicate UpdateOpen(c: Chain, w: World, env: Env, op: Operation) {
    && AttributesOpen(op.attributes) && Owns(c, env, op.entityKey)
    && ReceiptOpen(c, w, env, op) && Payable(c.balances, env, w.validate(op.payload).value)
  }

  /** What an UPDATE leaves: payload, content type and attributes are the new
      ones, the block is noted, the other five fields and all other entities are
      as before. */
  ghost predicate Updated(c: Chain, c': Chain, w: World, env: Env, op: Operation)
    requires At(op.entityKey) in c.ents && w.validate(op.payload).Some?
  {
    var a, auth := At(op.entityKey), w.validate(op.payload).value;
    && a in c'.ents && c'.ents == c.ents[a := c'.ents[a]]
    && (var e, e' := c.ents[a], c'.ents[a];
        && e'.payload == op.payload && e'.contentType == auth.contentType && StoredAs(op.attributes, e'.attributes)
        && e'.lastModified == env.block
        && e'.creator == e.creator && e'.createdAt == e.createdAt && e'.owner == e.owner && e'.expiresAt == e.expiresAt
        && e'.key == e.key
        && c'.logs == c.logs + [Event(op.entityKey, 2, e.owner, Capped32(e.expiresAt))])
    && c'.nonces == c.nonces && c'.used == c.used + {(env.caller, auth.nonce)} && PaidFor(c.balances, c'.balances, env, auth)
  }

  /** UPDATE, kind 2. */
  lemma UpdateRule(c: Chain, w: World, env: Env, op: Operation)
    requires op.kind == 2
    ensures ApplyOp(c, w, env, op).Ok? <==> UpdateOpen(c, w, env, op)
    ensures UpdateOpen(c, w, env, op) ==> Updated(c, ApplyOp(c, w, env, op).value, w, env, op)
  {
    AttributesRule(op.attributes);
    LoadRule(c, env, op.entityKey);
    SettleRule(c, w, env, op);
    hide AttributesOpen, StoredAs, CheckNames, Convert, Settle, LoadForOwner, ReceiptOpen, Payable, PaidFor, Owns, NotOwned;
    UpdateDone(c, w, env, op);
  }

  lemma UpdateDone(c: Chain, w: World, env: Env, op: Operation)
    requires op.kind == 2
    ensures ApplyOp(c, w, env, op).Ok? <==>
      CheckNames(op.attributes).Ok? && LoadForOwner(c, env, op.entityKey).Ok? && Convert(op.attributes).Ok? && Settle(c, w, env, op).Ok?
    ensures ApplyOp(c, w, env, op).Ok? ==>
      var (c1, auth) := Settle(c, w, env, op).value;
      var e := LoadForOwner(c, env, op.entityKey).value;
      var stored := Convert(op.attributes).value;
      ApplyOp(c, w, env, op).value == Chain(
        c1.ents[At(op.entityKey) := Entity(op.payload, e.creator, e.createdAt, e.owner, e.expiresAt, auth.contentType, e.key, stored, env.block)],
        c1.nonces, c1.used, c1.balances, c1.logs + [Event(op.entityKey, 2, e.owner, Capped32(e.expiresAt))])
  {
    hide CheckNames, Convert, Settle, LoadForOwner;
  }

  /** The answer when an UPDATE fails: the first of names, ownership, values,
      receipt and payment that is not in order. */
  lemma UpdateRefused(c: Chain, w: World, env: Env, op: Operation)
    requires op.kind == 2 && !UpdateOpen(c, w, env, op)
    ensures ApplyOp(c, w, env, op) ==
      if !CheckNames(op.attributes).Ok? then AsFailure(CheckNames(op.attributes))
      else if !Owns(c, env, op.entityKey) then Revert(NotOwned(c, env, op.entityKey))
      else if !Convert(op.attributes).Ok? then AsFailure(Convert(op.attributes))
      else AsFailure(Settle(c, w, env, op))
  {
    UpdateRule(c, w, env, op);
    LoadRule(c, env, op.entityKey);
    hide UpdateOpen, Updated, CheckNames, Convert, Settle, LoadForOwner, Owns, NotOwned;
  }

  ghost predicate CreateOpen(c: Chain, w: World, env: Env, op: Operation) {
    && op.btl > 0 && AttributesOpen(op.attributes)
    && ReceiptOpen(c, w, env, op) && Payable(c.balances, env, w.validate(op.payload).value)
    && NonceIn(c.nonces, env.caller) != 0xFFFF_FFFF
  }

  /** What a CREATE leaves: all nine fields of the record, under the key minted
      from the caller's nonce, and the nonce one higher. */
  ghost predicate Made(c: Chain, c': Chain, w: World, env: Env, op: Operation)
    requires w.validate(op.payload).Some?
  {
    var auth, n := w.validate(op.payload).value, NonceIn(c.nonces, env.caller);
    var key, until := w.mint(env.caller, n), Capped64(env.block + op.btl);
    && At(key) in c'.ents && c'.ents == c.ents[At(key) := c'.ents[At(key)]]
    && (var e := c'.ents[At(key)];
        && e.payload == op.payload && e.contentType == auth.contentType && StoredAs(op.attributes, e.attributes)
        && e.creator == env.caller && e.owner == env.caller && e.key == key
        && e.createdAt == env.block && e.lastModified == env.block && e.expiresAt == until)
    && c'.nonces == c.nonces[env.caller := n + 1] && c'.used == c.used + {(env.caller, auth.nonce)}
    && PaidFor(c.balances, c'.balances, env, auth)
    && c'.logs == c.logs + [Event(key, 1, env.caller, Capped32(until))]
  }

  /** CREATE, kind 1. */
  lemma CreateRule(c: Chain, w: World, env: Env, op: Operation)
    requires op.kind == 1
    ensures ApplyOp(c, w, env, op).Ok? <==> CreateOpen(c, w, env, op)
    ensures CreateOpen(c, w, env, op) ==> Made(c, ApplyOp(c, w, env, op).value, w, env, op)
  {
    AttributesRule(op.attributes);
    SettleRule(c, w, env, op);
    hide AttributesOpen, StoredAs, CheckNames, Convert, Settle, ReceiptOpen, Payable, PaidFor;
    CreateDone(c, w, env, op);
  }

  lemma CreateDone(c: Chain, w: World, env: Env, op: Operation)
    requires op.kind == 1
    ensures ApplyOp(c, w, env, op).Ok? <==>
      op.btl > 0 && CheckNames(op.attributes).Ok? && Convert(op.attributes).Ok? && Settle(c, w, env, op).Ok?
      && NonceIn(Settle(c, w, env, op).value.0.nonces, env.caller) != 0xFFFF_FFFF
    ensures ApplyOp(c, w, env, op).Ok? ==>
      var (c1, auth) := Settle(c, w, env, op).value;
      var n, until, stored := NonceIn(c1.nonces, env.caller), Capped64(env.block + op.btl), Convert(op.attributes).value;
      var key := w.mint(env.caller, n);
      ApplyOp(c, w, env, op).value == Chain(
        c1.ents[At(key) := Entity(op.payload, env.caller, env.block, env.caller, until, auth.contentType, key, stored, env.block)],
        c1.nonces[env.caller := n + 1], c1.used, c1.balances, c1.logs + [Event(key, 1, env.caller, Capped32(until))])
  {
    hide CheckNames, Convert, Settle;
  }

  /** The answer when a CREATE fails: the first of lifetime, names, values,
      receipt and payment that is not in order; a stop at the last nonce. */
  lemma CreateRefused(c: Chain, w: World, env: Env, op: Operation)
    requires op.kind == 1 && !CreateOpen(c, w, env, op)
    ensures ApplyOp(c, w, env, op) ==
      if op.btl == 0 then Revert(ZeroBtl)
      else if !CheckNames(op.attributes).Ok? then AsFailure(CheckNames(op.attributes))
      else if !Convert(op.attributes).Ok? then AsFailure(Convert(op.attributes))
      else if !Settle(c, w, env, op).Ok? then AsFailure(Settle(c, w, env, op))
      else Fatal
  {
    CreateRule(c, w, env, op);
    hide CreateOpen, Made, CheckNames, Convert, Settle;
  }

  // ── Events ───────────────────────────────────────────────────────────

  /** The event of an operation done in state `c`. */
  ghost predicate Logs(c: Chain, w: World, env: Env, op: Operation, v: Event) {
    && v.kind == op.kind
    && (if op.kind == 1
        then
          && v.key == w.mint(env.caller, NonceIn(c.nonces, env.caller)) && v.owner == env.caller
          && v.expiresAt == Capped32(Capped64(env.block + op.btl))
        else
          && At(op.entityKey) in c.ents && v.key == op.entityKey
          && v.owner == (if op.kind == 4 then op.newOwner else c.ents[At(op.entityKey)].owner)
          && v.expiresAt == Capped32(if op.kind == 3 then Capped64(env.block + op.btl) else c.ents[At(op.entityKey)].expiresAt))
  }

  lemma OneEvent(c: Chain, w: World, env: Env, op: Operation) returns (v: Event)
    requires ApplyOp(c, w, env, op).Ok?
    ensures ApplyOp(c, w, env, op).value.logs == c.logs + [v] && Logs(c, w, env, op, v)
  {
    KindOf(c, w, env, op);
    hide ApplyOp, Payable, PaidFor, StoredAs, AttributesOpen, ReceiptOpen;
    if op.kind == 1 {
      CreateRule(c, w, env, op);
    } else if op.kind == 2 {
      UpdateRule(c, w, env, op);
    } else if op.kind == 3 {
      ExtendRule(c, w, env, op);
    } else if op.kind == 4 {
      TransferRule(c, w, env, op);
    } else if op.kind == 5 {
      DeleteRule(c, w, env, op);
    } else {
      ExpireRule(c, w, env, op);
    }
    v := ApplyOp(c, w, env, op).value.logs[|c.logs|];
  }

  lemma KindOf(c: Chain, w: World, env: Env, op: Operation)
    requires ApplyOp(c, w, env, op).Ok?
    ensures 1 <= op.kind <= 6
  {
    hide Lifecycle.ApplyCreate, Lifecycle.ApplyUpdate, Lifecycle.ApplyExtend, Lifecycle.ApplyTransfer, Lifecycle.ApplyDelete, Lifecycle.ApplyExpire;
  }

  /** Event `i` is that of step `i`, in the state the steps before it leave. */
  ghost predicate EventAt(c: Chain, w: World, steps: seq<Step>, added: seq<Event>, i: nat) {
    && i < |steps| && i < |added| && Follow(c, w, steps[..i]).Ok?
    && Logs(Follow(c, w, steps[..i]).value, w, steps[i].env, steps[i].op, added[i])
  }

  /** A path of operations appends exactly one event for each, in order. */
  lemma {:induction false} EventsExact(c: Chain, w: World, steps: seq<Step>) returns (added: seq<Event>)
    requires Follow(c, w, steps).Ok?
    ensures Follow(c, w, steps).value.logs == c.logs + added && |added| == |steps|
    ensures forall i: nat :: i < |steps| ==> EventAt(c, w, steps, added, i)
  {
    hide *;
    if steps == [] {
      FollowNone(c, w);
      added := [];
    } else {
      var pre, last := steps[..|steps| - 1], steps[|steps| - 1];
      FollowLast(c, w, steps);
      var before := EventsExact(c, w, pre);
      var v := OneEvent(Follow(c, w, pre).value, w, last.env, last.op);
      added := before + [v];
      forall i: nat | i < |steps| ensures EventAt(c, w, steps, added, i) {
        if i < |pre| { EventStays(c, w, steps, before, v, i); } else { EventNow(c, w, steps, added, i); }
      }
    }
  }

  lemma EventStays(c: Chain, w: World, steps: seq<Step>, before: seq<Event>, v: Event, i: nat)
    requires steps != [] && EventAt(c, w, steps[..|steps| - 1], before, i)
    ensures EventAt(c, w, steps, before + [v], i)
  {
    hide Follow, Logs;
    assert steps[..|steps| - 1][..i] == steps[..i];
  }

  lemma EventNow(c: Chain, w: World, steps: seq<Step>, added: seq<Event>, i: nat)
    requires |added| == |steps| == i + 1 && Follow(c, w, steps[..i]).Ok?
    requires Logs(Follow(c, w, steps[..i]).value, w, steps[i].env, steps[i].op, added[i])
    ensures EventAt(c, w, steps, added, i)
  {
    hide Follow, Logs;
  }

  lemma FollowNone(c: Chain, w: World)
    ensures Follow(c, w, []) == Ok(c)
  {}

  lemma FollowLast(c: Chain, w: World, steps: seq<Step>)
    requires steps != [] && Follow(c, w, steps).Ok?
    ensures var pre, last := steps[..|steps| - 1], steps[|steps| - 1];
      Follow(c, w, pre).Ok? && ApplyOp(Follow(c, w, pre).value, w, last.env, last.op) == Follow(c, w, steps)
  {
    hide ApplyOp;
  }

  // ── Batches ──────────────────────────────────────────────────────────

  /** What a batch costs: 5000 and the exact costs of its operations. */
  ghost function Cost(ops: seq<Operation>): nat { Capped64(5000 + BagGas(multiset(ops))) }

  /** A batch is done if and only if it is not empty, paid in gas, and every
      operation succeeds in the state its predecessors leave; otherwise nothing
      has changed, and the answer says why. */
  lemma BatchRule(c: Chain, w: World, env: Env, ops: seq<Operation>, gas: nat)
    ensures var (c', v) := Execute(c, w, env, ops, gas);
      var f := Follow(c, w, StepsOf(env, ops));
      && (v.Done? <==> ops != [] && Cost(ops) <= gas && f.Ok?)
      && (v.Done? ==> c' == f.value && v.gasUsed == Cost(ops))
      && (!v.Done? ==>
            && c' == c
            && v == (if ops == [] then Reverted(EmptyBatch)
                     else if Cost(ops) > gas then OutOfGas
                     else if f.Revert? then Reverted(f.error) else Halted))
  {
    TotalGasExact(ops);
    BatchIsPath(c, w, env, ops);
    hide ApplyAll, Follow, TotalGas, BagGas;
  }
}
