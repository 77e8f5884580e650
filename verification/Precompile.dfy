/** The precompile over the entity database: every operation through the real
    handlers, in the order the code takes its steps. */
module Precompile {
  import opened Options
  import opened Bytes
  import opened Accounts
  import opened Indexes
  import opened EntityDb
  import opened IndexRuns
  import opened Operations
  import opened Gas
  import opened Attributes
  import opened Payment
  import opened Lifecycle
  import Rules
  import opened ChainDb

  ghost function ViewOf(db: StateDb): View
    reads db
  {
    View(db.State(), db.ents, db.model)
  }

  /** Database, balances and logs are in order and spell out the abstract state. */
  ghost predicate Good(v: View, balances: Balances, logs: seq<Event>, c: Chain, w: World) {
    Steady(v) && Shows(v, c) && c.balances == balances && c.logs == logs && Sensible(w)
  }

  lemma GoodParts(v: View, balances: Balances, logs: seq<Event>, c: Chain, w: World)
    requires Good(v, balances, logs, c, w)
    ensures Steady(v) && Shows(v, c) && c.balances == balances && c.logs == logs && Sensible(w)
  {}

  lemma GoodWhole(v: View, balances: Balances, logs: seq<Event>, c: Chain, w: World)
    requires Steady(v) && Shows(v, c) && c.balances == balances && c.logs == logs && Sensible(w)
    ensures Good(v, balances, logs, c, w)
  {}

  class Precompile {
    const world: World
    const db: StateDb
    var balances: Balances
    var logs: seq<Event>
    ghost var chain: Chain

    /** An empty registry. */
    constructor (world: World, balances: Balances)
      requires Sensible(world)
      ensures this.world == world && fresh(db) && chain == EmptyChain(balances) && ViewOf(db) == EMPTY_VIEW
      ensures Good(ViewOf(db), this.balances, logs, chain, world)
    {
      var d := new StateDb();
      this.world, this.db, this.balances, this.logs := world, d, balances, [];
      chain := EmptyChain(balances);
      new;
      EmptyShows(balances);
      hide Steady, Shows, Sensible;
      StateIs(db);
      GoodWhole(EMPTY_VIEW, balances, [], chain, world);
    }

    /** `apply_payload_provider_payment`. */
    method ApplyPayment(env: Env, auth: Auth) returns (r: Result<()>)
      modifies this`balances
      ensures r.Ok? <==> Pay(old(balances), env.caller, auth, env.baseFee, env.params).Ok?
      ensures r.Ok? ==> Pay(old(balances), env.caller, auth, env.baseFee, env.params) == Ok(balances)
      ensures !r.Ok? ==> r == Pay(old(balances), env.caller, auth, env.baseFee, env.params).PropagateFailure<()>()
      ensures r.Ok? <==> Rules.Payable(old(balances), env, auth)
      ensures r.Ok? ==> Rules.PaidFor(old(balances), balances, env, auth)
    {
      hide Rules.Payable, Rules.PaidFor;
      Rules.PayRule(balances, env, auth);
      if !env.params.enabled { return Ok(()); }
      if env.params.shareBps > BPS_DENOMINATOR { return Fatal; }
      if auth.payment < env.params.minimum { return Revert(PaymentBelowMinimum(auth.payment, env.params.minimum)); }
      var payment := Wei(auth, env.baseFee);
      if Balance(balances, env.caller) < payment {
        return Revert(PaymentInsufficientBalance(env.caller, payment, Balance(balances, env.caller)));
      }
      var share := ProviderAmount(payment, env.params.shareBps);
      var burn := BurnAmount(payment, env.params.shareBps);
      if share > 0 {
        var moved := Transfer(balances, env.caller, auth.provider, share);
        if !moved.Ok? { return moved.PropagateFailure<()>(); }
        balances := moved.value;
      }
      if burn > 0 {
        var left := Balance(balances, env.caller);
        if left < burn { return Revert(PaymentInsufficientBalance(env.caller, payment, left)); }
        balances := balances[env.caller := left - burn];
      }
      r := Ok(());
    }

    /** Validate the receipt, spend its nonce, pay. */
    method TakeReceipt(env: Env, op: Operation) returns (r: Result<Auth>)
      requires Good(ViewOf(db), balances, logs, chain, world)
      modifies this`balances, this`chain, db`storage
      ensures r.Ok? <==> Settle(old(chain), world, env, op).Ok?
      ensures r.Ok? ==> Settle(old(chain), world, env, op) == Ok((chain, r.value)) && world.validate(op.payload) == Some(r.value)
      ensures r.Ok? ==> chain == old(chain).(used := old(chain).used + {(env.caller, r.value.nonce)}, balances := balances)
      ensures r.Ok? ==> ViewOf(db) == Advance(old(ViewOf(db)), Spend(env, r.value))
      ensures !r.Ok? ==> r == Settle(old(chain), world, env, op).PropagateFailure<Auth>()
    {
      hide Good, Steady, Shows, Sensible, Pay, Advance, ViewOf, Strip, PayloadNonceUsed, NonceOf, Settle;
      ghost var v, c := ViewOf(db), chain;
      GoodParts(v, balances, logs, chain, world);
      ViewIs(db);
      var contentType := StripTrailingZeros(Join4(op.contentType));
      SettleIs(c, world, env, op);
      if contentType != PAYLOAD_REFERENCE_CONTENT_TYPE { return Revert(PayloadReferenceRequired(contentType)); }
      var auth := world.validate(op.payload);
      if auth.None? { return Revert(PayloadReferenceRejected); }
      var used := db.PayloadReferenceNonceUsed(env.caller, auth.value.nonce);
      UsedIs(v, c, env.caller, auth.value.nonce);
      if used { return Revert(PayloadReferenceNonceUsed(auth.value.nonce)); }
      SpendAdvance(v, env, auth.value);
      db.ConsumePayloadReferenceNonce(env.caller, auth.value.nonce);
      ViewIs(db);
      var paid := ApplyPayment(env, auth.value);
      if !paid.Ok? { return paid.PropagateFailure<Auth>(); }
      chain := chain.(used := chain.used + {(env.caller, auth.value.nonce)}, balances := balances);
      r := Ok(auth.value);
    }

    /** Load for the owner: there, not expired, the caller's. */
    method LoadEntityForOwner(env: Env, key: B256) returns (r: Result<Entity>)
      requires Good(ViewOf(db), balances, logs, chain, world)
      ensures r == LoadForOwner(chain, env, key)
    {
      hide Good, Load;
      var e := LoadEntity(key);
      if !e.Ok? { return e; }
      if e.value.expiresAt <= env.block { return Revert(EntityExpired(key, Clip32(e.value.expiresAt))); }
      if e.value.owner != env.caller { return Revert(NotOwner(key, env.caller, e.value.owner)); }
      r := e;
    }

    method LoadEntity(key: B256) returns (r: Result<Entity>)
      requires Good(ViewOf(db), balances, logs, chain, world)
      ensures r == Load(chain, key)
    {
      SteadyParts(ViewOf(db));
      FoundIs(db.code, db.ents, EntityAddress(key));
      hide Steady;
      var found := EntityIn(db.code, EntityAddress(key));
      r := if found.None? then Revert(EntityNotFound(key)) else Ok(found.value);
    }

    /** Log the event and record what the operation has done. */
    method EmitEntityOp(key: B256, kind: byte, owner: Address, expiresAt: nat, ghost c: Chain)
      requires c.balances == balances && c.logs == logs
      modifies this`logs, this`chain
      ensures chain == Emit(c, key, kind, owner, expiresAt) && chain.balances == balances && chain.logs == logs
    {
      logs := logs + [Event(key, kind, owner, Clip32(expiresAt))];
      chain := Emit(c, key, kind, owner, expiresAt);
    }

    method ApplyDelete(env: Env, op: Operation) returns (r: Result<()>)
      requires Good(ViewOf(db), balances, logs, chain, world) && op.kind == OP_DELETE
      modifies this, db
      ensures r.Ok? <==> ApplyOp(old(chain), world, env, op).Ok?
      ensures !r.Ok? ==> r == ApplyOp(old(chain), world, env, op).PropagateFailure<()>()
      ensures r.Ok? ==> ApplyOp(old(chain), world, env, op) == Ok(chain) && balances == chain.balances && logs == chain.logs
      ensures r.Ok? ==> ViewOf(db) == Visit(old(ViewOf(db)), DbOpsOf(old(chain), world, env, op))
      ensures r.Ok? <==> Rules.Owns(old(chain), env, op.entityKey)
    {
      hide Good, Steady, Shows, Sensible, Advance, StepDb, EntsAfter, ModelAfter, ViewOf, LoadForOwner, Load, Steps, Settle, CheckNames, Convert, Rules.Owns;
      Rules.DeleteRule(chain, world, env, op);
      GoodParts(ViewOf(db), balances, logs, chain, world);
      ghost var v, c := ViewOf(db), chain;
      ViewIs(db);
      var e := LoadEntityForOwner(env, op.entityKey);
      if !e.Ok? { return e.PropagateFailure<()>(); }
      OwnerLoaded(c, env, op.entityKey);
      DeleteWorks(v, c, op.entityKey);
      var ok := db.Delete(op.entityKey);
      DoneView(v, db, DeleteOp(op.entityKey));
      EmitEntityOp(op.entityKey, OP_DELETE, e.value.owner, e.value.expiresAt, c.(ents := Drop(c.ents, op.entityKey)));
      DeleteVisit(v, c, world, env, op);
      r := Ok(());
    }

    method ApplyExpire(env: Env, op: Operation) returns (r: Result<()>)
      requires Good(ViewOf(db), balances, logs, chain, world) && op.kind == OP_EXPIRE
      modifies this, db
      ensures r.Ok? <==> ApplyOp(old(chain), world, env, op).Ok?
      ensures !r.Ok? ==> r == ApplyOp(old(chain), world, env, op).PropagateFailure<()>()
      ensures r.Ok? ==> ApplyOp(old(chain), world, env, op) == Ok(chain) && balances == chain.balances && logs == chain.logs
      ensures r.Ok? ==> ViewOf(db) == Visit(old(ViewOf(db)), DbOpsOf(old(chain), world, env, op))
      ensures r.Ok? <==> Rules.ExpireOpen(old(chain), env, op)
    {
      hide Good, Steady, Shows, Sensible, Advance, StepDb, EntsAfter, ModelAfter, ViewOf, LoadForOwner, Load, Steps, Settle, CheckNames, Convert, Rules.ExpireOpen;
      Rules.ExpireRule(chain, world, env, op);
      GoodParts(ViewOf(db), balances, logs, chain, world);
      ghost var v, c := ViewOf(db), chain;
      ViewIs(db);
      var e := LoadEntity(op.entityKey);
      if !e.Ok? { return e.PropagateFailure<()>(); }
      if e.value.expiresAt > env.block { return Revert(EntityNotExpired(op.entityKey, Clip32(e.value.expiresAt))); }
      Loaded(c, op.entityKey);
      DeleteWorks(v, c, op.entityKey);
      var ok := db.Expire(op.entityKey);
      DoneView(v, db, DeleteOp(op.entityKey));
      EmitEntityOp(op.entityKey, OP_EXPIRE, e.value.owner, e.value.expiresAt, c.(ents := Drop(c.ents, op.entityKey)));
      DeleteVisit(v, c, world, env, op);
      r := Ok(());
    }

    method ApplyExtend(env: Env, op: Operation) returns (r: Result<()>)
      requires Good(ViewOf(db), balances, logs, chain, world) && op.kind == OP_EXTEND
      modifies this, db
      ensures r.Ok? <==> ApplyOp(old(chain), world, env, op).Ok?
      ensures !r.Ok? ==> r == ApplyOp(old(chain), world, env, op).PropagateFailure<()>()
      ensures r.Ok? ==> ApplyOp(old(chain), world, env, op) == Ok(chain) && balances == chain.balances && logs == chain.logs
      ensures r.Ok? ==> ViewOf(db) == Visit(old(ViewOf(db)), DbOpsOf(old(chain), world, env, op))
      ensures r.Ok? <==> Rules.ExtendOpen(old(chain), env, op)
    {
      hide Good, Steady, Shows, Sensible, Advance, StepDb, EntsAfter, ModelAfter, ViewOf, LoadForOwner, Load, Steps, Settle, CheckNames, Convert, Rules.ExtendOpen;
      Rules.ExtendRule(chain, world, env, op);
      GoodParts(ViewOf(db), balances, logs, chain, world);
      if op.btl == 0 { return Revert(ZeroBtl); }
      ghost var v, c := ViewOf(db), chain;
      ViewIs(db);
      var e := LoadEntityForOwner(env, op.entityKey);
      if !e.Ok? { return e.PropagateFailure<()>(); }
      var expiresAt := SatAdd(env.block, op.btl);
      if expiresAt <= e.value.expiresAt {
        return Revert(ExpiryNotExtended(op.entityKey, Clip32(expiresAt), Clip32(e.value.expiresAt)));
      }
      OwnerLoaded(c, env, op.entityKey);
      ghost var dop := ExtendOp(op.entityKey, env.block, expiresAt);
      MoveWorks(v, c, dop);
      var ok := db.Extend(op.entityKey, env.block, expiresAt);
      DoneView(v, db, dop);
      EmitEntityOp(op.entityKey, OP_EXTEND, e.value.owner, expiresAt, c.(ents := Put(c.ents, op.entityKey, NewRecord(e.value, dop))));
      MoveVisit(v, c, world, env, op, dop);
      r := Ok(());
    }

    method ApplyTransfer(env: Env, op: Operation) returns (r: Result<()>)
      requires Good(ViewOf(db), balances, logs, chain, world) && op.kind == OP_TRANSFER
      modifies this, db
      ensures r.Ok? <==> ApplyOp(old(chain), world, env, op).Ok?
      ensures !r.Ok? ==> r == ApplyOp(old(chain), world, env, op).PropagateFailure<()>()
      ensures r.Ok? ==> ApplyOp(old(chain), world, env, op) == Ok(chain) && balances == chain.balances && logs == chain.logs
      ensures r.Ok? ==> ViewOf(db) == Visit(old(ViewOf(db)), DbOpsOf(old(chain), world, env, op))
      ensures r.Ok? <==> Rules.TransferOpen(old(chain), env, op)
    {
      hide Good, Steady, Shows, Sensible, Advance, StepDb, EntsAfter, ModelAfter, ViewOf, LoadForOwner, Load, Steps, Settle, CheckNames, Convert, Rules.TransferOpen;
      Rules.TransferRule(chain, world, env, op);
      GoodParts(ViewOf(db), balances, logs, chain, world);
      ghost var v, c := ViewOf(db), chain;
      ViewIs(db);
      var e := LoadEntityForOwner(env, op.entityKey);
      if !e.Ok? { return e.PropagateFailure<()>(); }
      if op.newOwner == ZeroAddress() { return Revert(TransferToZeroAddress(op.entityKey)); }
      if op.newOwner == e.value.owner { return Revert(TransferToSelf(op.entityKey)); }
      OwnerLoaded(c, env, op.entityKey);
      ghost var dop := TransferOp(op.entityKey, env.block, op.newOwner);
      MoveWorks(v, c, dop);
      var ok := db.Transfer(op.entityKey, env.block, op.newOwner);
      DoneView(v, db, dop);
      EmitEntityOp(op.entityKey, OP_TRANSFER, op.newOwner, e.value.expiresAt, c.(ents := Put(c.ents, op.entityKey, NewRecord(e.value, dop))));
      MoveVisit(v, c, world, env, op, dop);
      r := Ok(());
    }

    method ApplyUpdate(env: Env, op: Operation) returns (r: Result<()>)
      requires Good(ViewOf(db), balances, logs, chain, world) && op.kind == OP_UPDATE && Supported(chain, world, env, op)
      requires env.block < U64
      modifies this, db
      ensures r.Ok? <==> ApplyOp(old(chain), world, env, op).Ok?
      ensures !r.Ok? ==> r == ApplyOp(old(chain), world, env, op).PropagateFailure<()>()
      ensures r.Ok? ==> ApplyOp(old(chain), world, env, op) == Ok(chain) && balances == chain.balances && logs == chain.logs
      ensures r.Ok? ==> ViewOf(db) == Visit(old(ViewOf(db)), DbOpsOf(old(chain), world, env, op))
      ensures r.Ok? <==> Rules.UpdateOpen(old(chain), world, env, op)
      ensures r.Ok? ==> Rules.Updated(old(chain), chain, world, env, op)
    {
      hide Good, Steady, Shows, Sensible, Advance, StepDb, EntsAfter, ModelAfter, ViewOf, LoadForOwner, Load, Steps, Settle, CheckNames, Convert, Rules.UpdateOpen, Rules.Updated;
      Rules.UpdateRule(chain, world, env, op);
      GoodParts(ViewOf(db), balances, logs, chain, world);
      ghost var v, c0 := ViewOf(db), chain;
      var names := ValidateAttributeNames(op.attributes);
      if !names.Ok? { return names; }
      var e := LoadEntityForOwner(env, op.entityKey);
      if !e.Ok? { return e.PropagateFailure<()>(); }
      var attributes := Convert(op.attributes);
      if !attributes.Ok? { return attributes.PropagateFailure<()>(); }
      var auth := TakeReceipt(env, op);
      if !auth.Ok? { return auth.PropagateFailure<()>(); }
      ghost var u, c := ViewOf(db), chain;
      ghost var dop := UpdateOp(op.entityKey, env.block, op.payload, auth.value.contentType, attributes.value);
      UpdateWorks(v, c0, world, env, op, e.value, auth.value, attributes.value, c);
      ViewIs(db);
      var ok := db.Update(op.entityKey, env.block, op.payload, auth.value.contentType, attributes.value);
      DoneView(u, db, dop);
      EmitEntityOp(op.entityKey, OP_UPDATE, e.value.owner, e.value.expiresAt, c.(ents := Put(c.ents, op.entityKey, NewRecord(e.value, dop))));
      r := Ok(());
    }

    method ApplyCreate(env: Env, op: Operation) returns (r: Result<()>)
      requires Good(ViewOf(db), balances, logs, chain, world) && op.kind == OP_CREATE && Supported(chain, world, env, op)
      requires env.block < U64 && EntityCount(db.storage) + 1 < U64
      modifies this, db
      ensures r.Ok? <==> ApplyOp(old(chain), world, env, op).Ok?
      ensures !r.Ok? ==> r == ApplyOp(old(chain), world, env, op).PropagateFailure<()>()
      ensures r.Ok? ==> ApplyOp(old(chain), world, env, op) == Ok(chain) && balances == chain.balances && logs == chain.logs
      ensures r.Ok? ==> ViewOf(db) == Visit(old(ViewOf(db)), DbOpsOf(old(chain), world, env, op))
      ensures r.Ok? <==> Rules.CreateOpen(old(chain), world, env, op)
      ensures r.Ok? ==> Rules.Made(old(chain), chain, world, env, op)
    {
      hide Good, Steady, Shows, Sensible, Advance, StepDb, EntsAfter, ModelAfter, ViewOf, LoadForOwner, Load, Steps, Settle, CheckNames, Convert, NewEntity, Rules.CreateOpen, Rules.Made;
      Rules.CreateRule(chain, world, env, op);
      GoodParts(ViewOf(db), balances, logs, chain, world);
      ghost var v, c0 := ViewOf(db), chain;
      ViewIs(db);
      if op.btl == 0 { return Revert(ZeroBtl); }
      var names := ValidateAttributeNames(op.attributes);
      if !names.Ok? { return names; }
      var expiresAt := SatAdd(env.block, op.btl);
      var attributes := Convert(op.attributes);
      if !attributes.Ok? { return attributes.PropagateFailure<()>(); }
      var auth := TakeReceipt(env, op);
      if !auth.Ok? { return auth.PropagateFailure<()>(); }
      UnfoldCreate(c0, world, env, op);
      r := MintAndCreate(env, op, auth.value, attributes.value, v, c0);
    }

    /** The second half of a CREATE: mint the key, store the entity. */
    method MintAndCreate(env: Env, op: Operation, auth: Auth, attributes: seq<Attribute>, ghost v: View, ghost c0: Chain) returns (r: Result<()>)
      requires Steady(v) && Shows(v, c0) && Sensible(world) && op.kind == OP_CREATE && Supported(c0, world, env, op)
      requires env.block < U64 && EntityCount(v.d.storage) + 1 < U64
      requires op.btl != 0 && CheckNames(op.attributes).Ok? && Convert(op.attributes) == Ok(attributes)
      requires Settle(c0, world, env, op) == Ok((chain, auth)) && world.validate(op.payload) == Some(auth)
      requires chain == c0.(used := c0.used + {(env.caller, auth.nonce)}, balances := balances) && chain.logs == logs
      requires ViewOf(db) == Advance(v, Spend(env, auth))
      modifies this, db
      ensures r.Ok? <==> ApplyOp(c0, world, env, op).Ok?
      ensures !r.Ok? ==> r == ApplyOp(c0, world, env, op).PropagateFailure<()>()
      ensures r.Ok? ==> ApplyOp(c0, world, env, op) == Ok(chain) && balances == chain.balances && logs == chain.logs
      ensures r.Ok? ==> ViewOf(db) == Visit(v, DbOpsOf(c0, world, env, op))
    {
      hide Steady, Shows, Sensible, Advance, StepDb, EntsAfter, ModelAfter, ViewOf, Supported, Settle, CheckNames, Convert, ApplyOp, DbOpsOf,
        NonceOf, PayloadNonceUsed, EntityCount, SatAdd, NewEntity, Ids, SameIds, Visit;
      ghost var c := chain;
      var expiresAt := SatAdd(env.block, op.btl);
      ViewIs(db);
      SpendState(v, c0, env, auth, c);
      var current := db.BumpNonce(env.caller);
      if current.None? {
        CreateStuck(c0, world, env, op, c, auth, attributes);
        return Fatal;
      }
      var n := current.value;
      var key := world.mint(env.caller, n);
      ghost var e := NewEntity(env.caller, key, expiresAt, env.block, op.payload, auth.contentType, attributes);
      CreateResult(c0, world, env, op, c, auth, attributes, n);
      ViewIs(db);
      CountAdvance(Advance(v, Spend(env, auth)), env, n);
      ghost var u := ViewOf(db);
      CreateWorks(v, c0, world, env, op, auth, attributes, n, e);
      var ok := db.Create(env.caller, key, expiresAt, env.block, op.payload, auth.contentType, attributes);
      DoneView(u, db, CreateOp(e));
      EmitEntityOp(key, OP_CREATE, env.caller, expiresAt, c.(nonces := c.nonces[env.caller := n + 1], ents := Put(c.ents, key, e)));
      r := Ok(());
    }

    /** One operation: the answer is the state machine's, and the database has
        gone through the operations it stands for. */
    method ApplyOperation(env: Env, op: Operation) returns (r: Result<()>)
      requires Good(ViewOf(db), balances, logs, chain, world) && Supported(chain, world, env, op)
      requires env.block < U64 && EntityCount(db.storage) + 1 < U64
      modifies this, db
      ensures r.Ok? <==> ApplyOp(old(chain), world, env, op).Ok?
      ensures !r.Ok? ==> r == ApplyOp(old(chain), world, env, op).PropagateFailure<()>()
      ensures r.Ok? ==> ApplyOp(old(chain), world, env, op) == Ok(chain)
      ensures r.Ok? ==> ViewOf(db) == Visit(old(ViewOf(db)), DbOpsOf(old(chain), world, env, op))
      ensures r.Ok? ==> Good(ViewOf(db), balances, logs, chain, world)
      ensures r.Ok? ==> EntityCount(db.storage) <= EntityCount(old(db.storage)) + 1
    {
      hide Good, Steady, Shows, Supported, Lifecycle.ApplyCreate, Lifecycle.ApplyUpdate, Lifecycle.ApplyExtend,
        Lifecycle.ApplyTransfer, Lifecycle.ApplyDelete, Lifecycle.ApplyExpire, Visit, DbOpsOf, EntityCount, ViewOf;
      ghost var v, c := ViewOf(db), chain;
      GoodParts(v, balances, logs, chain, world);
      ViewIs(db);
      if op.kind == OP_CREATE {
        r := ApplyCreate(env, op);
      } else if op.kind == OP_UPDATE {
        r := ApplyUpdate(env, op);
      } else if op.kind == OP_EXTEND {
        r := ApplyExtend(env, op);
      } else if op.kind == OP_TRANSFER {
        r := ApplyTransfer(env, op);
      } else if op.kind == OP_DELETE {
        r := ApplyDelete(env, op);
      } else if op.kind == OP_EXPIRE {
        r := ApplyExpire(env, op);
      } else {
        r := Revert(InvalidOpType(op.kind));
      }
      ViewIs(db);
      if r.Ok? { StaysGood(v, c, world, env, op, chain, balances, logs); }
    }

    /** A batch: all operations take effect, or database, balances and logs are as
        before. The answer is the state machine's, always. */
    method Execute(env: Env, ops: seq<Operation>, gas: nat) returns (v: Verdict)
      requires Good(ViewOf(db), balances, logs, chain, world) && AllSupported(chain, world, env, ops)
      requires env.block < U64 && EntityCount(db.storage) + |ops| < U64
      modifies this, db
      ensures (chain, v) == Lifecycle.Execute(old(chain), world, env, ops, gas)
      ensures Good(ViewOf(db), balances, logs, chain, world)
      ensures v.Done? ==> Follow(old(chain), world, StepsOf(env, ops)) == Ok(chain)
      ensures v.Done? ==> ViewOf(db) == Visit(old(ViewOf(db)), PathOps(old(chain), world, StepsOf(env, ops)))
      ensures !v.Done? ==> ViewOf(db) == old(ViewOf(db)) && balances == old(balances) && logs == old(logs)
    {
      hide *;
      ExecuteIs(chain, world, env, ops, gas);
      if ops == [] { return Reverted(Error.EmptyBatch); }
      var gasUsed := TotalGas(ops);
      if gasUsed > gas { return OutOfGas; }
      var code0, storage0, balances0, logs0 := db.code, db.storage, balances, logs;
      ghost var lossy0, ents0, model0, chain0, v0 := db.lossy, db.ents, db.model, chain, ViewOf(db);
      ViewIs(db);
      NothingDone(v0, chain, world, env);
      assert ops[..0] == [];
      for i := 0 to |ops|
        invariant Follow(chain0, world, StepsOf(env, ops[..i])) == Ok(chain)
        invariant ViewOf(db) == Visit(v0, PathOps(chain0, world, StepsOf(env, ops[..i])))
        invariant Good(ViewOf(db), balances, logs, chain, world)
        invariant EntityCount(db.storage) <= EntityCount(storage0) + i
      {
        NextSupported(chain0, world, env, ops, i);
        var r := ApplyOperation(env, ops[i]);
        NextDone(v0, chain0, world, env, ops, i);
        if !r.Ok? {
          BatchFails(chain0, world, env, ops, i, r);
          db.code, db.storage, balances, logs := code0, storage0, balances0, logs0;
          db.lossy, db.ents, db.model, chain := lossy0, ents0, model0, chain0;
          ViewIs(db);
          return if r.Revert? then Reverted(r.error) else Halted;
        }
      }
      assert ops[..|ops|] == ops;
      v := Done(gasUsed);
    }
  }

  /** Every operation of the batch is supported when its turn comes. */
  ghost predicate AllSupported(c: Chain, w: World, env: Env, ops: seq<Operation>) {
    forall i :: 0 <= i < |ops| && ApplyAll(c, w, env, ops[..i]).Ok? ==> Supported(ApplyAll(c, w, env, ops[..i]).value, w, env, ops[i])
  }

  lemma ViewIs(db: StateDb)
    ensures ViewOf(db) == View(Db(db.code, db.storage, db.lossy), db.ents, db.model)
    ensures db.State() == Db(db.code, db.storage, db.lossy) == ViewOf(db).d
  {}

  /** The rule of a receipt, step by step. */
  lemma SettleIs(c: Chain, w: World, env: Env, op: Operation)
    ensures MimeBytes(op.contentType) != PAYLOAD_REFERENCE_CONTENT_TYPE ==>
      Settle(c, w, env, op) == Revert(PayloadReferenceRequired(MimeBytes(op.contentType)))
    ensures MimeBytes(op.contentType) == PAYLOAD_REFERENCE_CONTENT_TYPE && w.validate(op.payload).None? ==>
      Settle(c, w, env, op) == Revert(PayloadReferenceRejected)
    ensures MimeBytes(op.contentType) == PAYLOAD_REFERENCE_CONTENT_TYPE && w.validate(op.payload).Some? ==>
      var auth := w.validate(op.payload).value;
      var p := Pay(c.balances, env.caller, auth, env.baseFee, env.params);
      Settle(c, w, env, op) ==
        if (env.caller, auth.nonce) in c.used then Revert(PayloadReferenceNonceUsed(auth.nonce))
        else if p.Ok? then Ok((c.(used := c.used + {(env.caller, auth.nonce)}, balances := p.value), auth))
        else p.PropagateFailure<(Chain, Auth)>()
    ensures MimeBytes(op.contentType) == Strip(Join4(op.contentType))
  {
    hide Pay;
  }

  lemma UsedIs(v: View, c: Chain, a: Address, n: B256)
    requires Shows(v, c)
    ensures PayloadNonceUsed(v.d.storage, a, n) <==> (a, n) in c.used
  {
    hide NonceOf;
  }

  lemma SpendAdvance(v: View, env: Env, auth: Auth)
    ensures Advance(v, Spend(env, auth))
         == View(v.d.(storage := v.d.storage[PayloadNonceSlot(env.caller, auth.nonce) := Zeros(31) + [1]]), v.ents, v.m)
  {
    SlotAdvance(v, PayloadNonceSlot(env.caller, auth.nonce), Zeros(31) + [1]);
  }

  /** What a handler has done, as a step of the view. */
  lemma DoneView(v: View, db: StateDb, op: DbOp)
    requires StepDb(v.d, op) == Some(db.State()) && db.ents == EntsAfter(v.ents, op)
    requires db.model == ModelAfter(v.m, Ids(v.d.storage), v.ents, op)
    ensures ViewOf(db) == Advance(v, op)
  {
    hide StepDb, EntsAfter, ModelAfter;
  }

  lemma Loaded(c: Chain, key: B256)
    requires Load(c, key).Ok?
    ensures EntityAddress(key) in c.ents && Load(c, key) == Ok(c.ents[EntityAddress(key)])
  {}

  lemma OwnerLoaded(c: Chain, env: Env, key: B256)
    requires LoadForOwner(c, env, key).Ok?
    ensures EntityAddress(key) in c.ents && LoadForOwner(c, env, key) == Ok(c.ents[EntityAddress(key)])
  {}

  lemma Works(v: View, op: DbOp, c': Chain)
    requires Steady(v) && Steps(v, op, c')
    ensures StepDb(v.d, op) == Some(Advance(v, op).d)
  {
    hide *;
    StepsParts(v, op, c');
    AdvanceSteady(v, op);
  }

  lemma DeleteWorks(v: View, c: Chain, key: B256)
    requires Steady(v) && Shows(v, c) && EntityAddress(key) in c.ents
    ensures StepDb(v.d, DeleteOp(key)) == Some(Advance(v, DeleteOp(key)).d)
  {
    hide *;
    DeleteSteps(v, c, key, c.(ents := Drop(c.ents, key)));
    Works(v, DeleteOp(key), c.(ents := Drop(c.ents, key)));
  }

  lemma OneVisit(v: View, op: DbOp)
    ensures Visit(v, [op]) == Advance(v, op)
  {
    assert [op][..0] == [];
    hide Advance;
    assert Visit(v, []) == v;
  }

  lemma DeleteVisit(v: View, c: Chain, w: World, env: Env, op: Operation)
    requires (op.kind == OP_DELETE || op.kind == OP_EXPIRE) && ApplyOp(c, w, env, op).Ok?
    ensures Visit(v, DbOpsOf(c, w, env, op)) == Advance(v, DeleteOp(op.entityKey))
  {
    hide *;
    GoneIs(c, w, env, op);
    OneVisit(v, DeleteOp(op.entityKey));
  }

  lemma MoveWorks(v: View, c: Chain, op: DbOp)
    requires Steady(v) && Shows(v, c) && (op.ExtendOp? || op.TransferOp?) && EntityAddress(op.key) in c.ents
    requires op.ExtendOp? ==> op.expiresAt < U64
    ensures StepDb(v.d, op) == Some(Advance(v, op).d)
  {
    var c' := c.(ents := c.ents[op.Target() := NewRecord(c.ents[op.Target()], op)]);
    assert Fitting(v.d.storage, v.ents, op) && ShortOp(op);
    hide *;
    ChangeSteps(v, c, op, c');
    Works(v, op, c');
  }

  lemma MoveVisit(v: View, c: Chain, w: World, env: Env, op: Operation, dop: DbOp)
    requires (op.kind == OP_EXTEND && dop == ExtendOp(op.entityKey, env.block, SatAdd(env.block, op.btl)))
          || (op.kind == OP_TRANSFER && dop == TransferOp(op.entityKey, env.block, op.newOwner))
    requires ApplyOp(c, w, env, op).Ok?
    ensures Visit(v, DbOpsOf(c, w, env, op)) == Advance(v, dop)
  {
    hide ApplyOp, Advance, Visit;
    OneVisit(v, dop);
  }

  /** The state after the receipt is spent. */
  lemma SpendState(v: View, c0: Chain, env: Env, auth: Auth, c: Chain)
    requires Steady(v) && Shows(v, c0) && c == c0.(used := c0.used + {(env.caller, auth.nonce)}, balances := c.balances)
    ensures var u := Advance(v, Spend(env, auth));
      && NonceOf(u.d.storage, env.caller) == NonceIn(c.nonces, env.caller)
      && Visit(v, [Spend(env, auth)]) == u
  {
    OneVisit(v, Spend(env, auth));
    SpendLeads(v, c0, env, auth, c.balances);
    hide Steady, Leads, Visit, Advance, NonceOf, PayloadNonceUsed;
  }

  lemma CountAdvance(v: View, env: Env, n: nat)
    ensures Advance(v, Count(env, n))
         == View(v.d.(storage := v.d.storage[NonceSlot(env.caller) := U32ToStorage(n + 1)]), v.ents, v.m)
  {
    SlotAdvance(v, NonceSlot(env.caller), U32ToStorage(n + 1));
  }

  /** A caller at the last nonce cannot create. */
  lemma CreateStuck(c0: Chain, w: World, env: Env, op: Operation, c: Chain, auth: Auth, attributes: seq<Attribute>)
    requires op.kind == OP_CREATE && op.btl != 0 && CheckNames(op.attributes).Ok?
    requires Convert(op.attributes) == Ok(attributes) && Settle(c0, w, env, op) == Ok((c, auth))
    requires NonceIn(c.nonces, env.caller) == U32_MAX
    ensures ApplyOp(c0, w, env, op).Fatal?
  {
    hide Settle, CheckNames, Convert;
  }

  lemma CreateResult(c0: Chain, w: World, env: Env, op: Operation, c: Chain, auth: Auth, attributes: seq<Attribute>, n: nat)
    requires op.kind == OP_CREATE && op.btl != 0 && CheckNames(op.attributes).Ok?
    requires Convert(op.attributes) == Ok(attributes) && Settle(c0, w, env, op) == Ok((c, auth))
    requires c.nonces == c0.nonces && NonceIn(c.nonces, env.caller) == n && n != U32_MAX
    ensures var key := w.mint(env.caller, n);
      var e := NewEntity(env.caller, key, SatAdd(env.block, op.btl), env.block, op.payload, auth.contentType, attributes);
      ApplyOp(c0, w, env, op) ==
        Ok(Emit(c.(nonces := c.nonces[env.caller := n + 1], ents := Put(c.ents, key, e)), key, OP_CREATE, env.caller, SatAdd(env.block, op.btl)))
  {
    hide Settle, CheckNames, Convert, NewEntity, SatAdd;
  }

  lemma UnfoldCreate(c: Chain, w: World, env: Env, op: Operation)
    requires op.kind == OP_CREATE
    ensures ApplyOp(c, w, env, op) == Lifecycle.ApplyCreate(c, w, env, op)
  {
    hide Lifecycle.ApplyCreate;
  }

  /** The last operation of a possible run goes through. */
  lemma LastWorks(v: View, ops: seq<DbOp>, op: DbOp)
    requires Steady(v) && Possible(v, ops + [op])
    ensures StepDb(Visit(v, ops).d, op) == Some(Advance(Visit(v, ops), op).d)
    ensures Visit(v, ops + [op]) == Advance(Visit(v, ops), op)
  {
    hide *;
    VisitLast(v, ops, op);
    RunSteady(v, ops);
    AdvanceSteady(Visit(v, ops), op);
  }

  /** The handler call of a CREATE goes through and completes its operations. */
  lemma CreateWorks(v: View, c0: Chain, w: World, env: Env, op: Operation, auth: Auth, attributes: seq<Attribute>, n: nat, e: Entity)
    requires Steady(v) && Shows(v, c0) && Sensible(w) && Supported(c0, w, env, op) && op.kind == OP_CREATE && ApplyOp(c0, w, env, op).Ok?
    requires env.block < U64 && EntityCount(v.d.storage) + 1 < U64
    requires w.validate(op.payload) == Some(auth) && Convert(op.attributes) == Ok(attributes) && n == NonceIn(c0.nonces, env.caller)
    requires e == NewEntity(env.caller, w.mint(env.caller, n), SatAdd(env.block, op.btl), env.block, op.payload, auth.contentType, attributes)
    ensures var u := Advance(Advance(v, Spend(env, auth)), Count(env, n));
      && StepDb(u.d, CreateOp(e)) == Some(Advance(u, CreateOp(e)).d) && EntityCount(u.d.storage) + 1 < U64
      && Visit(v, DbOpsOf(c0, w, env, op)) == Advance(u, CreateOp(e))
  {
    hide *;
    CreateOps(c0, w, env, op);
    OpRefines(v, c0, w, env, op);
    LeadsParts(v, DbOpsOf(c0, w, env, op), ApplyOp(c0, w, env, op).value, 1);
    var s, n', x := Spend(env, auth), Count(env, n), CreateOp(e);
    assert [s, n', x] == [s, n'] + [x] && [s, n'] == [s] + [n'];
    LastWorks(v, [s, n'], x);
    VisitLast(v, [s], n');
    OneVisit(v, s);
    CountKept(v, env, auth, n);
  }

  lemma CountKept(v: View, env: Env, auth: Auth, n: nat)
    ensures EntityCount(Advance(Advance(v, Spend(env, auth)), Count(env, n)).d.storage) == EntityCount(v.d.storage)
  {
    SpendAdvance(v, env, auth);
    CountAdvance(Advance(v, Spend(env, auth)), env, n);
    SlotsDisjoint(0, env.caller, env.caller, env.caller, auth.nonce);
  }

  lemma UpdateResult(c0: Chain, w: World, env: Env, op: Operation, c: Chain, e: Entity, auth: Auth, attributes: seq<Attribute>)
    requires op.kind == OP_UPDATE && CheckNames(op.attributes).Ok? && LoadForOwner(c0, env, op.entityKey) == Ok(e)
    requires Convert(op.attributes) == Ok(attributes) && Settle(c0, w, env, op) == Ok((c, auth))
    ensures ApplyOp(c0, w, env, op).Ok?
  {
    hide Settle, CheckNames, Convert, UpdatedEntity, LoadForOwner;
  }

  /** The handler call of an UPDATE goes through. */
  lemma UpdateWorks(v: View, c0: Chain, w: World, env: Env, op: Operation, e: Entity, auth: Auth, attributes: seq<Attribute>, c: Chain)
    requires Steady(v) && Shows(v, c0) && Sensible(w) && Supported(c0, w, env, op) && op.kind == OP_UPDATE && env.block < U64
    requires CheckNames(op.attributes).Ok? && LoadForOwner(c0, env, op.entityKey) == Ok(e)
    requires Convert(op.attributes) == Ok(attributes) && Settle(c0, w, env, op) == Ok((c, auth)) && w.validate(op.payload) == Some(auth)
    ensures var u := Advance(v, Spend(env, auth));
      var dop := UpdateOp(op.entityKey, env.block, op.payload, auth.contentType, attributes);
      && StepDb(u.d, dop) == Some(Advance(u, dop).d)
      && ApplyOp(c0, w, env, op).Ok? && Visit(v, DbOpsOf(c0, w, env, op)) == Advance(u, dop)
  {
    hide *;
    UpdateResult(c0, w, env, op, c, e, auth, attributes);
    UpdatedIs(c0, w, env, op);
    UpdateRefines(v, c0, w, env, op);
    LeadsParts(v, DbOpsOf(c0, w, env, op), ApplyOp(c0, w, env, op).value, 0);
    var s, x := Spend(env, auth), UpdateOp(op.entityKey, env.block, op.payload, auth.contentType, attributes);
    assert [s, x] == [s] + [x];
    LastWorks(v, [s], x);
    OneVisit(v, s);
  }

  /** What one operation leaves behind is in order again. */
  lemma StaysGood(v: View, c: Chain, w: World, env: Env, op: Operation, c': Chain, balances: Balances, logs: seq<Event>)
    requires Steady(v) && Shows(v, c) && Sensible(w) && Supported(c, w, env, op) && ApplyOp(c, w, env, op) == Ok(c')
    requires env.block < U64 && EntityCount(v.d.storage) + 1 < U64 && c'.balances == balances && c'.logs == logs
    ensures Good(Visit(v, DbOpsOf(c, w, env, op)), balances, logs, c', w)
    ensures EntityCount(Visit(v, DbOpsOf(c, w, env, op)).d.storage) <= EntityCount(v.d.storage) + 1
  {
    hide *;
    OpRefines(v, c, w, env, op);
    LeadsParts(v, DbOpsOf(c, w, env, op), c', 1);
    GoodWhole(Visit(v, DbOpsOf(c, w, env, op)), balances, logs, c', w);
  }

  // ── Batches ──────────────────────────────────────────────────────────

  lemma ExecuteIs(c: Chain, w: World, env: Env, ops: seq<Operation>, gas: nat)
    ensures ops == [] ==> Lifecycle.Execute(c, w, env, ops, gas) == (c, Reverted(Error.EmptyBatch))
    ensures ops != [] && TotalGas(ops) > gas ==> Lifecycle.Execute(c, w, env, ops, gas) == (c, OutOfGas)
    ensures ops != [] && TotalGas(ops) <= gas ==>
      var f := Follow(c, w, StepsOf(env, ops));
      Lifecycle.Execute(c, w, env, ops, gas) ==
        if f.Ok? then (f.value, Done(TotalGas(ops))) else if f.Revert? then (c, Reverted(f.error)) else (c, Halted)
  {
    BatchIsPath(c, w, env, ops);
    hide ApplyAll, Follow, TotalGas;
  }

  lemma NothingDone(v: View, c: Chain, w: World, env: Env)
    ensures Follow(c, w, StepsOf(env, [])) == Ok(c) && PathOps(c, w, StepsOf(env, [])) == [] && Visit(v, []) == v
  {
    assert StepsOf(env, []) == [];
  }

  lemma NextSupported(c: Chain, w: World, env: Env, ops: seq<Operation>, i: nat)
    requires i < |ops| && AllSupported(c, w, env, ops) && Follow(c, w, StepsOf(env, ops[..i])).Ok?
    ensures Supported(Follow(c, w, StepsOf(env, ops[..i])).value, w, env, ops[i])
  {
    BatchIsPath(c, w, env, ops[..i]);
    hide Supported, ApplyAll, Follow;
  }

  /** One more operation of the batch. */
  lemma NextDone(v: View, c: Chain, w: World, env: Env, ops: seq<Operation>, i: nat)
    requires i < |ops| && Follow(c, w, StepsOf(env, ops[..i])).Ok?
    ensures var d := Follow(c, w, StepsOf(env, ops[..i])).value;
      && Follow(c, w, StepsOf(env, ops[..i + 1])) == ApplyOp(d, w, env, ops[i])
      && (ApplyOp(d, w, env, ops[i]).Ok? ==>
           Visit(v, PathOps(c, w, StepsOf(env, ops[..i + 1]))) ==
           Visit(Visit(v, PathOps(c, w, StepsOf(env, ops[..i]))), DbOpsOf(d, w, env, ops[i])))
  {
    var steps := StepsOf(env, ops[..i + 1]);
    assert steps[..i] == StepsOf(env, ops[..i]) && steps[i] == Step(env, ops[i]);
    hide ApplyOp, DbOpsOf, Visit;
    var d := Follow(c, w, StepsOf(env, ops[..i])).value;
    if ApplyOp(d, w, env, ops[i]).Ok? {
      PathStep(c, w, steps);
      VisitCat(v, PathOps(c, w, StepsOf(env, ops[..i])), DbOpsOf(d, w, env, ops[i]));
    }
  }

  /** A batch fails as its first failing operation does. */
  lemma {:induction false} BatchFails(c: Chain, w: World, env: Env, ops: seq<Operation>, i: nat, r: Result<()>)
    requires i < |ops| && Follow(c, w, StepsOf(env, ops[..i])).Ok? && !r.Ok?
    requires var d := Follow(c, w, StepsOf(env, ops[..i])).value;
      !ApplyOp(d, w, env, ops[i]).Ok? && r == ApplyOp(d, w, env, ops[i]).PropagateFailure<()>()
    ensures var f := Follow(c, w, StepsOf(env, ops)); !f.Ok? && (r.Revert? <==> f.Revert?) && (r.Revert? ==> r.error == f.error)
    decreases |ops|
  {
    hide ApplyOp;
    var n := |ops| - 1;
    assert StepsOf(env, ops)[..n] == StepsOf(env, ops[..n]);
    if i < n {
      assert ops[..n][..i] == ops[..i];
      BatchFails(c, w, env, ops[..n], i, r);
    }
  }
}
