/** The precompile's rules as a state machine: what each operation demands, what
    it changes, and what holds over whole runs. */
module Lifecycle {
  import opened Options
  import opened Bytes
  import opened Accounts
  import opened Indexes
  import opened EntityDb
  import opened Operations
  import opened Gas
  import opened Attributes
  import opened Payment

  /** What is fixed outside: how a caller's nonce is hashed into an entity key,
      and which payloads are valid signed references. */
  datatype World = World(mint: (Address, nat) -> B256, validate: Key -> Option<Auth>)

  datatype Env = Env(block: nat, caller: Address, baseFee: nat, params: Params)

  datatype Event = Event(key: B256, kind: byte, owner: Address, expiresAt: nat)

  datatype Chain = Chain(
    ents: map<Address, Entity>, nonces: map<Address, nat>, used: set<(Address, B256)>,
    balances: Balances, logs: seq<Event>)

  function NonceIn(nonces: map<Address, nat>, a: Address): nat { if a in nonces then nonces[a] else 0 }

  function Clip32(n: nat): nat { if n <= U32_MAX then n else U32_MAX }

  function Emit(c: Chain, key: B256, kind: byte, owner: Address, expiresAt: nat): Chain {
    c.(logs := c.logs + [Event(key, kind, owner, Clip32(expiresAt))])
  }

  function Put(ents: map<Address, Entity>, key: B256, e: Entity): map<Address, Entity> {
    ents[EntityAddress(key) := e]
  }

  function Drop(ents: map<Address, Entity>, key: B256): map<Address, Entity> {
    ents - {EntityAddress(key)}
  }

  // ── One operation ────────────────────────────────────────────────────

  function Load(c: Chain, key: B256): Result<Entity> {
    if EntityAddress(key) in c.ents then Ok(c.ents[EntityAddress(key)]) else Revert(EntityNotFound(key))
  }

  /** `load_entity_for_owner`: there, not expired, and the caller's. */
  function LoadForOwner(c: Chain, env: Env, key: B256): Result<Entity> {
    var e :- Load(c, key);
    if e.expiresAt <= env.block then Revert(EntityExpired(key, Clip32(e.expiresAt)))
    else if e.owner != env.caller then Revert(NotOwner(key, env.caller, e.owner))
    else Ok(e)
  }

  /** `validate_required_payload_reference`, up to the nonce write. */
  function Receipt(c: Chain, w: World, env: Env, op: Operation): Result<Auth> {
    var contentType := MimeBytes(op.contentType);
    if contentType != PAYLOAD_REFERENCE_CONTENT_TYPE then Revert(PayloadReferenceRequired(contentType))
    else if w.validate(op.payload).None? then Revert(PayloadReferenceRejected)
    else
      var auth := w.validate(op.payload).value;
      if (env.caller, auth.nonce) in c.used then Revert(PayloadReferenceNonceUsed(auth.nonce)) else Ok(auth)
  }

  /** Consume the nonce and pay. */
  function Settle(c: Chain, w: World, env: Env, op: Operation): Result<(Chain, Auth)> {
    var auth :- Receipt(c, w, env, op);
    var b :- Pay(c.balances, env.caller, auth, env.baseFee, env.params);
    Ok((c.(used := c.used + {(env.caller, auth.nonce)}, balances := b), auth))
  }

  function ApplyCreate(c: Chain, w: World, env: Env, op: Operation): Result<Chain> {
    if op.btl == 0 then Revert(ZeroBtl)
    else
      var _ :- CheckNames(op.attributes);
      var expiresAt := SatAdd(env.block, op.btl);
      var attributes :- Convert(op.attributes);
      var settled :- Settle(c, w, env, op);
      var (c1, auth) := settled;
      var n := NonceIn(c1.nonces, env.caller);
      if n == U32_MAX then Fatal
      else
        var key := w.mint(env.caller, n);
        var e := NewEntity(env.caller, key, expiresAt, env.block, op.payload, auth.contentType, attributes);
        Ok(Emit(c1.(nonces := c1.nonces[env.caller := n + 1], ents := Put(c1.ents, key, e)), key, OP_CREATE, env.caller, expiresAt))
  }

  function ApplyUpdate(c: Chain, w: World, env: Env, op: Operation): Result<Chain> {
    var _ :- CheckNames(op.attributes);
    var e :- LoadForOwner(c, env, op.entityKey);
    var attributes :- Convert(op.attributes);
    var settled :- Settle(c, w, env, op);
    var (c1, auth) := settled;
    var e1 := UpdatedEntity(e, env.block, op.payload, auth.contentType, attributes);
    Ok(Emit(c1.(ents := Put(c1.ents, op.entityKey, e1)), op.entityKey, OP_UPDATE, e.owner, e.expiresAt))
  }

  function ApplyExtend(c: Chain, env: Env, op: Operation): Result<Chain> {
    if op.btl == 0 then Revert(ZeroBtl)
    else
      var e :- LoadForOwner(c, env, op.entityKey);
      var expiresAt := SatAdd(env.block, op.btl);
      if expiresAt <= e.expiresAt then Revert(ExpiryNotExtended(op.entityKey, Clip32(expiresAt), Clip32(e.expiresAt)))
      else
        var e1 := e.(expiresAt := expiresAt, lastModified := env.block);
        Ok(Emit(c.(ents := Put(c.ents, op.entityKey, e1)), op.entityKey, OP_EXTEND, e.owner, expiresAt))
  }

  function ApplyTransfer(c: Chain, env: Env, op: Operation): Result<Chain> {
    var e :- LoadForOwner(c, env, op.entityKey);
    if op.newOwner == ZeroAddress() then Revert(TransferToZeroAddress(op.entityKey))
    else if op.newOwner == e.owner then Revert(TransferToSelf(op.entityKey))
    else
      var e1 := e.(owner := op.newOwner, lastModified := env.block);
      Ok(Emit(c.(ents := Put(c.ents, op.entityKey, e1)), op.entityKey, OP_TRANSFER, op.newOwner, e.expiresAt))
  }

  function ApplyDelete(c: Chain, env: Env, op: Operation): Result<Chain> {
    var e :- LoadForOwner(c, env, op.entityKey);
    Ok(Emit(c.(ents := Drop(c.ents, op.entityKey)), op.entityKey, OP_DELETE, e.owner, e.expiresAt))
  }

  function ApplyExpire(c: Chain, env: Env, op: Operation): Result<Chain> {
    var e :- Load(c, op.entityKey);
    if e.expiresAt > env.block then Revert(EntityNotExpired(op.entityKey, Clip32(e.expiresAt)))
    else Ok(Emit(c.(ents := Drop(c.ents, op.entityKey)), op.entityKey, OP_EXPIRE, e.owner, e.expiresAt))
  }

  function ApplyOp(c: Chain, w: World, env: Env, op: Operation): Result<Chain> {
    if op.kind == OP_CREATE then ApplyCreate(c, w, env, op)
    else if op.kind == OP_UPDATE then ApplyUpdate(c, w, env, op)
    else if op.kind == OP_EXTEND then ApplyExtend(c, env, op)
    else if op.kind == OP_TRANSFER then ApplyTransfer(c, env, op)
    else if op.kind == OP_DELETE then ApplyDelete(c, env, op)
    else if op.kind == OP_EXPIRE then ApplyExpire(c, env, op)
    else Revert(InvalidOpType(op.kind))
  }

  // ── What one operation may do to one entity ──────────────────────────

  predicate Targets(op: Operation, a: Address) { EntityAddress(op.entityKey) == a }

  /** A live entity that stays live: nothing changes unless its owner acts on it
      before expiry; identity never changes, expiry only grows, and only by
      EXTEND; the owner changes only by TRANSFER, to somebody. */
  predicate Evolves(e: Entity, e': Entity, env: Env, op: Operation, a: Address) {
    && e'.creator == e.creator && e'.createdAt == e.createdAt && e'.key == e.key
    && (e' != e ==> env.caller == e.owner && env.block < e.expiresAt && Targets(op, a))
    && (e'.expiresAt == e.expiresAt || (op.kind == OP_EXTEND && e'.expiresAt > e.expiresAt))
    && (e'.owner == e.owner || (op.kind == OP_TRANSFER && e'.owner == op.newOwner != ZeroAddress()))
  }

  /** An entity may go by its owner's DELETE before expiry, or by anybody's
      EXPIRE from expiry on. */
  predicate MayGo(e: Entity, env: Env, op: Operation) {
    (op.kind == OP_DELETE && env.caller == e.owner && env.block < e.expiresAt) || (op.kind == OP_EXPIRE && e.expiresAt <= env.block)
  }

  /** A new entity is its creator's, from this block on, under the key of the
      creator's next nonce. */
  predicate Born(c: Chain, w: World, env: Env, op: Operation, a: Address, e: Entity) {
    && op.kind == OP_CREATE && e.creator == e.owner == env.caller && e.createdAt == env.block
    && e.key == w.mint(env.caller, NonceIn(c.nonces, env.caller)) && a == EntityAddress(e.key)
    && (e.expiresAt > env.block || e.expiresAt == U64_MAX)
  }

  /** What a successful operation did to the entity under `a`. */
  predicate StepOk(c: Chain, c': Chain, w: World, env: Env, op: Operation, a: Address) {
    if a in c.ents && a in c'.ents then Evolves(c.ents[a], c'.ents[a], env, op, a) || Born(c, w, env, op, a, c'.ents[a])
    else if a in c.ents then MayGo(c.ents[a], env, op) && Targets(op, a)
    else if a in c'.ents then Born(c, w, env, op, a, c'.ents[a])
    else true
  }

  lemma CreateExact(c: Chain, w: World, env: Env, op: Operation, a: Address)
    requires op.kind == OP_CREATE && ApplyCreate(c, w, env, op).Ok?
    ensures StepOk(c, ApplyCreate(c, w, env, op).value, w, env, op, a)
  {
    hide CheckNames, Convert, Pay, Receipt;
  }

  lemma UpdateExact(c: Chain, w: World, env: Env, op: Operation, a: Address)
    requires op.kind == OP_UPDATE && ApplyUpdate(c, w, env, op).Ok?
    ensures StepOk(c, ApplyUpdate(c, w, env, op).value, w, env, op, a)
  {
    hide CheckNames, Convert, Pay, Receipt;
  }

  /** Every successful operation obeys the rules, at every address. */
  lemma StepExact(c: Chain, w: World, env: Env, op: Operation, a: Address)
    requires ApplyOp(c, w, env, op).Ok?
    ensures StepOk(c, ApplyOp(c, w, env, op).value, w, env, op, a)
  {
    hide ApplyCreate, ApplyUpdate;
    if op.kind == OP_CREATE {
      CreateExact(c, w, env, op, a);
    } else if op.kind == OP_UPDATE {
      UpdateExact(c, w, env, op, a);
    }
  }

  /** DELETE and EXPIRE exclude each other: at a given block exactly one of the
      two is open, DELETE to the owner, EXPIRE to everybody. */
  lemma OneWayOut(c: Chain, w: World, env: Env, op: Operation)
    requires op.kind == OP_DELETE || op.kind == OP_EXPIRE
    ensures var a := EntityAddress(op.entityKey);
      ApplyOp(c, w, env, op).Ok? <==> a in c.ents && MayGo(c.ents[a], env, op)
    ensures forall e: Entity, op': Operation, env': Env ::
      MayGo(e, env, op) && MayGo(e, env', op') && env'.block == env.block ==> op'.kind == op.kind
  {}

  // ── Minted keys ──────────────────────────────────────────────────────

  /** The caller's nonce for this address has been passed. */
  ghost predicate Known(nonces: map<Address, nat>, w: World, a: Address) {
    exists b: Address, n: nat :: n < NonceIn(nonces, b) && EntityAddress(w.mint(b, n)) == a
  }

  /** The key about to be minted, if any, is new: no hash collision. */
  ghost predicate NoCollision(c: Chain, w: World, env: Env, op: Operation) {
    op.kind == OP_CREATE ==> !Known(c.nonces, w, EntityAddress(w.mint(env.caller, NonceIn(c.nonces, env.caller))))
  }

  /** Every live entity was minted. */
  ghost predicate AllKnown(c: Chain, w: World) {
    forall a :: a in c.ents ==> Known(c.nonces, w, a)
  }

  /** Nonces: a CREATE passes exactly one, the caller's; nothing else does. */
  lemma NonceStep(c: Chain, w: World, env: Env, op: Operation)
    requires ApplyOp(c, w, env, op).Ok?
    ensures ApplyOp(c, w, env, op).value.nonces ==
      if op.kind == OP_CREATE then c.nonces[env.caller := NonceIn(c.nonces, env.caller) + 1] else c.nonces
  {
    hide CheckNames, Convert, Pay, Receipt;
  }

  lemma KnownGrows(c: Chain, w: World, env: Env, op: Operation, a: Address)
    requires ApplyOp(c, w, env, op).Ok?
    ensures Known(c.nonces, w, a) ==> Known(ApplyOp(c, w, env, op).value.nonces, w, a)
    ensures op.kind == OP_CREATE ==>
      Known(ApplyOp(c, w, env, op).value.nonces, w, EntityAddress(w.mint(env.caller, NonceIn(c.nonces, env.caller))))
  {
    hide ApplyOp;
    NonceStep(c, w, env, op);
    var d := ApplyOp(c, w, env, op).value.nonces;
    if Known(c.nonces, w, a) {
      var b: Address, n: nat :| n < NonceIn(c.nonces, b) && EntityAddress(w.mint(b, n)) == a;
      assert n < NonceIn(d, b);
    }
    if op.kind == OP_CREATE {
      assert NonceIn(c.nonces, env.caller) < NonceIn(d, env.caller);
    }
  }

  /** Under an address that was minted before, an entity is never born. */
  lemma StepKnown(c: Chain, w: World, env: Env, op: Operation, a: Address)
    requires ApplyOp(c, w, env, op).Ok? && NoCollision(c, w, env, op) && Known(c.nonces, w, a)
    ensures var c' := ApplyOp(c, w, env, op).value;
      && (a in c'.ents ==> a in c.ents && Evolves(c.ents[a], c'.ents[a], env, op, a))
      && (a in c.ents && a !in c'.ents ==> MayGo(c.ents[a], env, op) && Targets(op, a))
      && Known(c'.nonces, w, a)
  {
    hide *;
    StepExact(c, w, env, op, a);
    KnownGrows(c, w, env, op, a);
    NotBorn(c, w, env, op, a);
    StepOkParts(c, ApplyOp(c, w, env, op).value, w, env, op, a);
  }

  lemma StepOkParts(c: Chain, c': Chain, w: World, env: Env, op: Operation, a: Address)
    requires StepOk(c, c', w, env, op, a)
    ensures a in c.ents && a in c'.ents ==> Evolves(c.ents[a], c'.ents[a], env, op, a) || Born(c, w, env, op, a, c'.ents[a])
    ensures a in c.ents && a !in c'.ents ==> MayGo(c.ents[a], env, op) && Targets(op, a)
    ensures a !in c.ents && a in c'.ents ==> Born(c, w, env, op, a, c'.ents[a])
  {}

  lemma NotBorn(c: Chain, w: World, env: Env, op: Operation, a: Address)
    requires NoCollision(c, w, env, op) && Known(c.nonces, w, a)
    ensures forall e :: !Born(c, w, env, op, a, e)
  {}

  // ── Paths of successful operations ───────────────────────────────────

  datatype Step = Step(env: Env, op: Operation)

  function Follow(c: Chain, w: World, steps: seq<Step>): Result<Chain> {
    if steps == [] then Ok(c)
    else
      var d :- Follow(c, w, steps[..|steps| - 1]);
      ApplyOp(d, w, steps[|steps| - 1].env, steps[|steps| - 1].op)
  }

  predicate Timely(steps: seq<Step>) {
    forall i, j :: 0 <= i < j < |steps| ==> steps[i].env.block <= steps[j].env.block
  }

  ghost predicate CollisionFree(c: Chain, w: World, steps: seq<Step>)
    decreases |steps|
  {
    steps != [] ==>
      var pre, last := steps[..|steps| - 1], steps[|steps| - 1];
      && CollisionFree(c, w, pre)
      && (Follow(c, w, pre).Ok? ==> NoCollision(Follow(c, w, pre).value, w, last.env, last.op))
  }

  lemma FollowStep(c: Chain, w: World, steps: seq<Step>)
    requires steps != [] && Follow(c, w, steps).Ok? && CollisionFree(c, w, steps)
    ensures var pre, last := steps[..|steps| - 1], steps[|steps| - 1];
      && Follow(c, w, pre).Ok? && CollisionFree(c, w, pre)
      && ApplyOp(Follow(c, w, pre).value, w, last.env, last.op) == Follow(c, w, steps)
      && NoCollision(Follow(c, w, pre).value, w, last.env, last.op)
  {}

  /** A key once minted and gone never comes back; an entity that is still there
      is the one that was there, no earlier to expire. */
  lemma {:induction false} History(c: Chain, w: World, steps: seq<Step>, a: Address)
    requires Follow(c, w, steps).Ok? && CollisionFree(c, w, steps) && Known(c.nonces, w, a)
    ensures var d := Follow(c, w, steps).value;
      && Known(d.nonces, w, a)
      && (a in d.ents ==>
           && a in c.ents
           && d.ents[a].creator == c.ents[a].creator && d.ents[a].createdAt == c.ents[a].createdAt
           && d.ents[a].key == c.ents[a].key && d.ents[a].expiresAt >= c.ents[a].expiresAt)
  {
    if steps != [] {
      FollowStep(c, w, steps);
      hide *;
      var pre, last := steps[..|steps| - 1], steps[|steps| - 1];
      History(c, w, pre, a);
      StepKnown(Follow(c, w, pre).value, w, last.env, last.op, a);
      if a in Follow(c, w, steps).value.ents { EvolvesParts(Follow(c, w, pre).value.ents[a], Follow(c, w, steps).value.ents[a], last.env, last.op, a); }
    }
  }

  /** Every live entity was minted: this holds along every path. */
  lemma {:induction false} AllKnownKept(c: Chain, w: World, steps: seq<Step>)
    requires Follow(c, w, steps).Ok? && AllKnown(c, w)
    ensures AllKnown(Follow(c, w, steps).value, w)
  {
    if steps != [] {
      hide ApplyOp, Known, StepOk;
      var pre, last := steps[..|steps| - 1], steps[|steps| - 1];
      AllKnownKept(c, w, pre);
      var d, d' := Follow(c, w, pre).value, Follow(c, w, steps).value;
      forall a | a in d'.ents ensures Known(d'.nonces, w, a) {
        KnownGrows(d, w, last.env, last.op, a);
        if a !in d.ents {
          StepExact(d, w, last.env, last.op, a);
          StepOkParts(d, d', w, last.env, last.op, a);
        }
      }
    }
  }

  lemma EvolvesParts(e: Entity, e': Entity, env: Env, op: Operation, a: Address)
    requires Evolves(e, e', env, op, a)
    ensures e'.creator == e.creator && e'.createdAt == e.createdAt && e'.key == e.key && e'.expiresAt >= e.expiresAt
    ensures e' != e ==> env.caller == e.owner && env.block < e.expiresAt
  {}

  /** Nobody but the owner can touch an entity before it expires: along any path
      on which the owner does nothing and which ends before expiry, it stays
      exactly as it is. */
  lemma {:induction false} Untouched(c: Chain, w: World, steps: seq<Step>, a: Address)
    requires Follow(c, w, steps).Ok? && CollisionFree(c, w, steps) && Known(c.nonces, w, a) && a in c.ents
    requires Timely(steps) && (steps != [] ==> steps[|steps| - 1].env.block < c.ents[a].expiresAt)
    requires forall i :: 0 <= i < |steps| ==> steps[i].env.caller != c.ents[a].owner
    ensures var d := Follow(c, w, steps).value; a in d.ents && d.ents[a] == c.ents[a]
  {
    if steps != [] {
      FollowStep(c, w, steps);
      TimelyPre(steps);
      hide *;
      var pre, last, e := steps[..|steps| - 1], steps[|steps| - 1], c.ents[a];
      assert pre != [] ==> pre[|pre| - 1].env.block <= last.env.block;
      Untouched(c, w, pre, a);
      History(c, w, pre, a);
      StepKnown(Follow(c, w, pre).value, w, last.env, last.op, a);
      NotMayGo(e, last.env, last.op);
      if a in Follow(c, w, steps).value.ents {
        EvolvesParts(e, Follow(c, w, steps).value.ents[a], last.env, last.op, a);
      }
    }
  }

  lemma TimelyPre(steps: seq<Step>)
    requires steps != [] && Timely(steps)
    ensures Timely(steps[..|steps| - 1])
    ensures forall i :: 0 <= i < |steps| ==> steps[0].env.block <= steps[i].env.block <= steps[|steps| - 1].env.block
  {}

  lemma NotMayGo(e: Entity, env: Env, op: Operation)
    ensures env.caller != e.owner && env.block < e.expiresAt ==> !MayGo(e, env, op)
    ensures e.expiresAt <= env.block && op.kind != OP_EXPIRE ==> !MayGo(e, env, op)
  {}

  /** Some operation of the path is an EXPIRE of `a`. */
  predicate Expires(steps: seq<Step>, a: Address) {
    exists i :: 0 <= i < |steps| && steps[i].op.kind == OP_EXPIRE && Targets(steps[i].op, a)
  }

  lemma ExpiresMore(steps: seq<Step>, a: Address)
    requires steps != []
    ensures Expires(steps, a) <==>
      Expires(steps[..|steps| - 1], a) || (steps[|steps| - 1].op.kind == OP_EXPIRE && Targets(steps[|steps| - 1].op, a))
  {
    var pre := steps[..|steps| - 1];
    if Expires(pre, a) {
      var i :| 0 <= i < |pre| && pre[i].op.kind == OP_EXPIRE && Targets(pre[i].op, a);
      assert steps[i] == pre[i];
    }
    if i :| 0 <= i < |steps| && steps[i].op.kind == OP_EXPIRE && Targets(steps[i].op, a) {
      if i < |pre| { assert pre[i] == steps[i]; }
    }
  }

  /** From its expiry on an entity is frozen: along any path that starts at or
      after expiry, it is unchanged, or an EXPIRE took it away. */
  lemma {:induction false} Frozen(c: Chain, w: World, steps: seq<Step>, a: Address)
    requires Follow(c, w, steps).Ok? && CollisionFree(c, w, steps) && Known(c.nonces, w, a) && a in c.ents
    requires Timely(steps) && (steps != [] ==> c.ents[a].expiresAt <= steps[0].env.block)
    ensures var d := Follow(c, w, steps).value;
      if a in d.ents then d.ents[a] == c.ents[a] else Expires(steps, a)
  {
    if steps != [] {
      FollowStep(c, w, steps);
      TimelyPre(steps);
      ExpiresMore(steps, a);
      hide *;
      var pre, last, e := steps[..|steps| - 1], steps[|steps| - 1], c.ents[a];
      assert pre != [] ==> pre[0] == steps[0];
      Frozen(c, w, pre, a);
      History(c, w, pre, a);
      StepKnown(Follow(c, w, pre).value, w, last.env, last.op, a);
      NotMayGo(e, last.env, last.op);
      if a in Follow(c, w, steps).value.ents {
        EvolvesParts(e, Follow(c, w, steps).value.ents[a], last.env, last.op, a);
      }
    }
  }

  // ── One receipt, one operation ───────────────────────────────────────

  /** The receipts spent along a path, in order. */
  function Spent(w: World, steps: seq<Step>): seq<(Address, B256)> {
    if steps == [] then []
    else
      var last := steps[|steps| - 1];
      Spent(w, steps[..|steps| - 1]) +
      if (last.op.kind == OP_CREATE || last.op.kind == OP_UPDATE) && w.validate(last.op.payload).Some?
      then [(last.env.caller, w.validate(last.op.payload).value.nonce)] else []
  }

  lemma SpendStep(c: Chain, w: World, env: Env, op: Operation)
    requires ApplyOp(c, w, env, op).Ok?
    ensures var c' := ApplyOp(c, w, env, op).value;
      if op.kind == OP_CREATE || op.kind == OP_UPDATE
      then
        && w.validate(op.payload).Some?
        && (env.caller, w.validate(op.payload).value.nonce) !in c.used
        && c'.used == c.used + {(env.caller, w.validate(op.payload).value.nonce)}
      else c'.used == c.used
  {
    hide CheckNames, Convert, Pay;
  }

  predicate Distinct<T(==)>(s: seq<T>) { forall i, j :: 0 <= i < j < |s| ==> s[i] != s[j] }

  /** Each (caller, payload nonce) backs at most one successful operation, ever:
      no receipt is spent twice along a path, and none spent before it. */
  lemma {:induction false} SpentOnce(c: Chain, w: World, steps: seq<Step>)
    requires Follow(c, w, steps).Ok?
    ensures var s := Spent(w, steps);
      && Distinct(s) && (forall x :: x in s ==> x !in c.used)
      && (forall x :: x in Follow(c, w, steps).value.used <==> x in c.used || x in s)
  {
    if steps != [] {
      var pre, last := steps[..|steps| - 1], steps[|steps| - 1];
      SpentOnce(c, w, pre);
      SpendStep(Follow(c, w, pre).value, w, last.env, last.op);
      hide ApplyOp;
    }
  }

  // ── Batches and runs ─────────────────────────────────────────────────

  datatype Verdict = Done(gasUsed: nat) | Reverted(error: Error) | OutOfGas | Halted

  function ApplyAll(c: Chain, w: World, env: Env, ops: seq<Operation>): Result<Chain> {
    if ops == [] then Ok(c)
    else
      var d :- ApplyAll(c, w, env, ops[..|ops| - 1]);
      ApplyOp(d, w, env, ops[|ops| - 1])
  }

  /** `dispatch_execute`: all operations, or none. */
  function Execute(c: Chain, w: World, env: Env, ops: seq<Operation>, gas: nat): (Chain, Verdict) {
    if ops == [] then (c, Reverted(Error.EmptyBatch))
    else if TotalGas(ops) > gas then (c, OutOfGas)
    else
      match ApplyAll(c, w, env, ops)
      case Ok(d) => (d, Done(TotalGas(ops)))
      case Revert(e) => (c, Reverted(e))
      case Fatal => (c, Halted)
  }

  datatype Call = Call(env: Env, ops: seq<Operation>, gas: nat)

  function Run(c: Chain, w: World, calls: seq<Call>): Chain {
    if calls == [] then c
    else
      var last := calls[|calls| - 1];
      Execute(Run(c, w, calls[..|calls| - 1]), w, last.env, last.ops, last.gas).0
  }

  function StepsOf(env: Env, ops: seq<Operation>): (r: seq<Step>)
    ensures |r| == |ops|
  {
    seq(|ops|, i requires 0 <= i < |ops| => Step(env, ops[i]))
  }

  /** The operations of the batches that went through. */
  function Committed(c: Chain, w: World, calls: seq<Call>): seq<Step> {
    if calls == [] then []
    else
      var pre, last := calls[..|calls| - 1], calls[|calls| - 1];
      Committed(c, w, pre) +
      if Execute(Run(c, w, pre), w, last.env, last.ops, last.gas).1.Done? then StepsOf(last.env, last.ops) else []
  }

  lemma {:induction false} FollowCat(c: Chain, w: World, a: seq<Step>, b: seq<Step>)
    requires Follow(c, w, a).Ok?
    ensures Follow(c, w, a + b) == Follow(Follow(c, w, a).value, w, b)
  {
    if b == [] {
      assert a + b == a;
    } else {
      FollowCat(c, w, a, b[..|b| - 1]);
      assert (a + b)[..|a + b| - 1] == a + b[..|b| - 1];
      hide ApplyOp;
    }
  }

  lemma {:induction false} BatchIsPath(c: Chain, w: World, env: Env, ops: seq<Operation>)
    ensures ApplyAll(c, w, env, ops) == Follow(c, w, StepsOf(env, ops))
  {
    if ops != [] {
      BatchIsPath(c, w, env, ops[..|ops| - 1]);
      assert StepsOf(env, ops)[..|ops| - 1] == StepsOf(env, ops[..|ops| - 1]);
      hide ApplyOp;
    }
  }

  /** A run is the path of its committed operations: a batch that fails anywhere
      leaves no trace. */
  lemma {:induction false} RunIsPath(c: Chain, w: World, calls: seq<Call>)
    ensures Follow(c, w, Committed(c, w, calls)) == Ok(Run(c, w, calls))
  {
    if calls != [] {
      hide ApplyOp, TotalGas;
      var pre, last := calls[..|calls| - 1], calls[|calls| - 1];
      RunIsPath(c, w, pre);
      var d := Run(c, w, pre);
      if Execute(d, w, last.env, last.ops, last.gas).1.Done? {
        BatchIsPath(d, w, last.env, last.ops);
        FollowCat(c, w, Committed(c, w, pre), StepsOf(last.env, last.ops));
      } else {
        assert Committed(c, w, calls) == Committed(c, w, pre) + [];
        assert Committed(c, w, pre) + [] == Committed(c, w, pre);
      }
    }
  }
}
