/** The registry's rules over the real database: which database operations a
    successful registry operation amounts to, and what follows for whole runs. */
module ChainDb {
  import opened Options
  import opened Bytes
  import opened Accounts
  import opened Indexes
  import opened EntityDb
  import opened IndexRuns
  import opened Operations
  import opened Gas
  import opened Attributes
  import opened Payment
  import opened Lifecycle

  /** Entities, nonces and spent receipts are as in the abstract state. */
  ghost predicate Shows(v: View, c: Chain) {
    && v.ents == c.ents
    && (forall a: Address :: NonceOf(v.d.storage, a) == NonceIn(c.nonces, a))
    && (forall a: Address, n: B256 :: PayloadNonceUsed(v.d.storage, a, n) <==> (a, n) in c.used)
  }

  /** What the database counts on for this operation: a minted key does not
      collide with a live entity, or with no entity at all. */
  ghost predicate Supported(c: Chain, w: World, env: Env, op: Operation) {
    op.kind == OP_CREATE ==>
      var a := EntityAddress(w.mint(env.caller, NonceIn(c.nonces, env.caller)));
      a !in c.ents && a != ZeroAddress()
  }

  /** Receipts carry content types of at most 128 bytes. */
  ghost predicate Sensible(w: World) {
    forall p :: w.validate(p).Some? ==> |w.validate(p).value.contentType| <= 128
  }

  // ── The database side of one operation ───────────────────────────────

  function Spend(env: Env, auth: Auth): DbOp { SlotOp(PayloadNonceSlot(env.caller, auth.nonce), Zeros(31) + [1]) }

  function Count(env: Env, n: nat): DbOp { SlotOp(NonceSlot(env.caller), U32ToStorage(n + 1)) }

  /** The database operations of a registry operation that succeeds. */
  function DbOpsOf(c: Chain, w: World, env: Env, op: Operation): seq<DbOp>
    requires ApplyOp(c, w, env, op).Ok?
  {
    if op.kind == OP_CREATE then
      var auth, attributes, n := w.validate(op.payload).value, Convert(op.attributes).value, NonceIn(c.nonces, env.caller);
      [Spend(env, auth), Count(env, n),
       CreateOp(NewEntity(env.caller, w.mint(env.caller, n), SatAdd(env.block, op.btl), env.block, op.payload, auth.contentType, attributes))]
    else if op.kind == OP_UPDATE then
      var auth, attributes := w.validate(op.payload).value, Convert(op.attributes).value;
      [Spend(env, auth), UpdateOp(op.entityKey, env.block, op.payload, auth.contentType, attributes)]
    else if op.kind == OP_EXTEND then [ExtendOp(op.entityKey, env.block, SatAdd(env.block, op.btl))]
    else if op.kind == OP_TRANSFER then [TransferOp(op.entityKey, env.block, op.newOwner)]
    else [DeleteOp(op.entityKey)]
  }

  // ── Steps on both sides ──────────────────────────────────────────────

  /** `op` may be done now, and leads from a state that shows `c` to one that
      shows `c'`. */
  ghost predicate Steps(v: View, op: DbOp, c': Chain) {
    && Fitting(v.d.storage, v.ents, op) && ShortOp(op) && PlanOf(v.d.code, v.d.storage, op).Some?
    && Shows(Advance(v, op), c')
  }

  lemma StepsParts(v: View, op: DbOp, c': Chain)
    requires Steps(v, op, c')
    ensures Fitting(v.d.storage, v.ents, op) && ShortOp(op) && PlanOf(v.d.code, v.d.storage, op).Some?
    ensures Shows(Advance(v, op), c')
  {}

  lemma SlotAdvance(v: View, slot: Key, word: B256)
    ensures Advance(v, SlotOp(slot, word)) == View(v.d.(storage := v.d.storage[slot := word]), v.ents, v.m)
    ensures Fitting(v.d.storage, v.ents, SlotOp(slot, word)) <==> SameIds(Ids(v.d.storage), Ids(v.d.storage[slot := word]))
    ensures ShortOp(SlotOp(slot, word)) && PlanOf(v.d.code, v.d.storage, SlotOp(slot, word)).Some?
  {
    SlotIs(v.d, slot, word);
  }

  /** Spending a receipt. */
  lemma SpendSteps(v: View, c: Chain, env: Env, auth: Auth, b: Balances)
    requires Shows(v, c)
    ensures Steps(v, Spend(env, auth), c.(used := c.used + {(env.caller, auth.nonce)}, balances := b))
    ensures EntityCount(Advance(v, Spend(env, auth)).d.storage) == EntityCount(v.d.storage)
  {
    SlotAdvance(v, PayloadNonceSlot(env.caller, auth.nonce), Zeros(31) + [1]);
    PayloadNonceWrite(v.d.storage, env.caller, auth.nonce);
    hide NonceOf, PayloadNonceUsed, Advance, Fitting, SameIds;
    SameCount(v.d.storage, v.d.storage[PayloadNonceSlot(env.caller, auth.nonce) := Zeros(31) + [1]]);
  }

  lemma SameCount(st: Storage, st': Storage)
    requires SameIds(Ids(st), Ids(st'))
    ensures EntityCount(st') == EntityCount(st) && forall a :: IdOf(st', a) == IdOf(st, a)
  {
    forall a ensures IdOf(st', a) == IdOf(st, a) {
      IdsRead(st, a);
      IdsRead(st', a);
    }
    IdsRead(st, ZeroAddress());
    IdsRead(st', ZeroAddress());
  }

  /** Counting a creation. */
  lemma CountSteps(v: View, c: Chain, env: Env, n: nat)
    requires Shows(v, c) && n == NonceIn(c.nonces, env.caller) && n < U32_MAX
    ensures Steps(v, Count(env, n), c.(nonces := c.nonces[env.caller := n + 1]))
    ensures EntityCount(Advance(v, Count(env, n)).d.storage) == EntityCount(v.d.storage)
  {
    CountIs(env, n);
    hide *;
    var st' := v.d.storage[NonceSlot(env.caller) := U32ToStorage(n + 1)];
    SlotAdvance(v, NonceSlot(env.caller), U32ToStorage(n + 1));
    NonceWrite(v.d.storage, env.caller, n + 1);
    SameCount(v.d.storage, st');
    CountShows(v, c, View(v.d.(storage := st'), v.ents, v.m), env.caller, n);
    SlotSteps(v, Count(env, n), c.(nonces := c.nonces[env.caller := n + 1]));
  }

  lemma CountIs(env: Env, n: nat)
    ensures Count(env, n) == SlotOp(NonceSlot(env.caller), U32ToStorage(n + 1)) && (n < U32_MAX ==> n + 1 < 0x1_0000_0000)
  {}

  lemma CountShows(v: View, c: Chain, u: View, caller: Address, n: nat)
    requires Shows(v, c) && u.ents == v.ents && NonceOf(u.d.storage, caller) == n + 1
    requires forall a: Address :: a != caller ==> NonceOf(u.d.storage, a) == NonceOf(v.d.storage, a)
    requires forall a: Address, m: B256 :: PayloadNonceUsed(u.d.storage, a, m) == PayloadNonceUsed(v.d.storage, a, m)
    ensures Shows(u, c.(nonces := c.nonces[caller := n + 1]))
  {
    hide NonceOf, PayloadNonceUsed;
  }

  lemma SlotSteps(v: View, op: DbOp, c': Chain)
    requires Fitting(v.d.storage, v.ents, op) && ShortOp(op) && PlanOf(v.d.code, v.d.storage, op).Some? && Shows(Advance(v, op), c')
    ensures Steps(v, op, c')
  {}

  /** Creating an entity. */
  lemma CreateSteps(v: View, c: Chain, e: Entity)
    requires Steady(v) && Shows(v, c) && EntityOk(e, EntityAddress(e.key)) && ShortValues(e.contentType, e.attributes)
    requires EntityAddress(e.key) !in c.ents && EntityAddress(e.key) != ZeroAddress() && EntityCount(v.d.storage) + 1 < U64
    ensures Steps(v, CreateOp(e), c.(ents := Put(c.ents, e.key, e)))
    ensures EntityCount(Advance(v, CreateOp(e)).d.storage) == EntityCount(v.d.storage) + 1
  {
    var a := EntityAddress(e.key);
    hide *;
    SteadyParts(v);
    ShowsEnts(v, c);
    CreateAllows(v, e, a);
    AdvanceSteady(v, CreateOp(e));
    AdvanceParts(v, CreateOp(e));
    CreateReads(v.d.storage, a);
    IdsRead(v.d.storage, a);
    IdsRead(Advance(v, CreateOp(e)).d.storage, a);
    CreateShows(v, c, e);
  }

  lemma ShowsEnts(v: View, c: Chain)
    requires Shows(v, c)
    ensures v.ents == c.ents
  {}

  lemma CreateAllows(v: View, e: Entity, a: Address)
    requires EntityOk(e, a) && ShortValues(e.contentType, e.attributes) && a == EntityAddress(e.key)
    requires a !in v.ents && a != ZeroAddress() && EntityCount(v.d.storage) + 1 < U64
    ensures Fitting(v.d.storage, v.ents, CreateOp(e)) && ShortOp(CreateOp(e)) && PlanOf(v.d.code, v.d.storage, CreateOp(e)).Some?
  {
    hide EntityOk, EntityCount;
  }

  lemma AdvanceParts(v: View, op: DbOp)
    requires StepDb(v.d, op).Some?
    ensures Advance(v, op).ents == EntsAfter(v.ents, op) && Advance(v, op).d.storage == NextStorage(v.d.storage, op)
    ensures op.CreateOp? ==> NextStorage(v.d.storage, op) == CreateStorage(v.d.storage, EntityCount(v.d.storage), op.Target())
    ensures op.DeleteOp? ==> NextStorage(v.d.storage, op) == DeleteStorage(v.d.storage, IdOf(v.d.storage, op.Target()), op.Target())
    ensures op.CreateOp? ==> EntsAfter(v.ents, op) == v.ents[op.Target() := op.record] && op.Target() == EntityAddress(op.record.key)
    ensures op.DeleteOp? ==> EntsAfter(v.ents, op) == v.ents - {op.Target()} && op.Target() == EntityAddress(op.key)
  {
    StepIs(v.d, op);
  }

  lemma CreateShows(v: View, c: Chain, e: Entity)
    requires Shows(v, c) && Advance(v, CreateOp(e)).ents == v.ents[EntityAddress(e.key) := e]
    requires SameNonces(v.d.storage, Advance(v, CreateOp(e)).d.storage)
    requires Fitting(v.d.storage, v.ents, CreateOp(e)) && ShortOp(CreateOp(e)) && PlanOf(v.d.code, v.d.storage, CreateOp(e)).Some?
    requires Created(Ids(v.d.storage), Ids(Advance(v, CreateOp(e)).d.storage), EntityAddress(e.key))
    ensures Steps(v, CreateOp(e), c.(ents := Put(c.ents, e.key, e)))
    ensures Ids(Advance(v, CreateOp(e)).d.storage).count == Ids(v.d.storage).count + 1
  {
    hide Advance, Fitting, PlanOf, NonceOf, PayloadNonceUsed;
  }

  /** Changing a live entity. */
  lemma ChangeSteps(v: View, c: Chain, op: DbOp, c': Chain)
    requires Steady(v) && Shows(v, c) && (op.UpdateOp? || op.ExtendOp? || op.TransferOp?) && op.Target() in c.ents
    requires Fitting(v.d.storage, v.ents, op) && ShortOp(op)
    requires c'.ents == c.ents[op.Target() := NewRecord(c.ents[op.Target()], op)] && c'.nonces == c.nonces && c'.used == c.used
    ensures Steps(v, op, c') && Advance(v, op).d.storage == v.d.storage
  {
    hide Steady, Fitting, ShortOp, NewRecord;
    SteadyParts(v);
    RecordThere(v, op.Target(), op);
    AdvanceSteady(v, op);
    AdvanceParts(v, op);
    ChangeParts(v, op);
    hide *;
    ChangeShows(v, c, op, c');
  }

  lemma RecordThere(v: View, a: Address, op: DbOp)
    requires Steady(v) && a in v.ents && !op.CreateOp? && !op.SlotOp? && op.Target() == a
    ensures PlanOf(v.d.code, v.d.storage, op) == Some(PlanFor(v.ents[a], IdOf(v.d.storage, a), op))
  {
    SteadyParts(v);
    FoundIs(v.d.code, v.ents, a);
    hide Steady, IdOf, PlanFor;
  }

  lemma ChangeParts(v: View, op: DbOp)
    requires op.UpdateOp? || op.ExtendOp? || op.TransferOp?
    ensures NextStorage(v.d.storage, op) == v.d.storage
    ensures op.Target() in v.ents ==> EntsAfter(v.ents, op) == v.ents[op.Target() := NewRecord(v.ents[op.Target()], op)]
  {
    hide NewRecord;
  }

  lemma ChangeShows(v: View, c: Chain, op: DbOp, c': Chain)
    requires Shows(v, c) && Advance(v, op).ents == c'.ents && Advance(v, op).d.storage == v.d.storage
    requires c'.nonces == c.nonces && c'.used == c.used
    requires Fitting(v.d.storage, v.ents, op) && ShortOp(op) && PlanOf(v.d.code, v.d.storage, op).Some?
    ensures Steps(v, op, c')
  {
    hide Advance, Fitting, PlanOf, NonceOf, PayloadNonceUsed;
  }

  /** Removing a live entity, under any key with its first twenty bytes. */
  lemma DeleteSteps(v: View, c: Chain, key: B256, c': Chain)
    requires Steady(v) && Shows(v, c) && EntityAddress(key) in c.ents
    requires c'.ents == Drop(c.ents, key) && c'.nonces == c.nonces && c'.used == c.used
    ensures Steps(v, DeleteOp(key), c') && EntityCount(Advance(v, DeleteOp(key)).d.storage) == EntityCount(v.d.storage)
  {
    var a, op := EntityAddress(key), DeleteOp(key);
    ShowsEnts(v, c);
    DeleteAllowed(v, key);
    hide *;
    SteadyParts(v);
    RecordThere(v, a, op);
    AdvanceSteady(v, op);
    AdvanceParts(v, op);
    IdBound(v.d.storage, a);
    DeleteReads(v.d.storage, a);
    IdsRead(v.d.storage, a);
    IdsRead(Advance(v, op).d.storage, a);
    DeleteShows(v, c, key, c');
  }

  lemma DeleteAllowed(v: View, key: B256)
    ensures Fitting(v.d.storage, v.ents, DeleteOp(key)) && ShortOp(DeleteOp(key)) && DeleteOp(key).Target() == EntityAddress(key)
  {}

  lemma DeleteShows(v: View, c: Chain, key: B256, c': Chain)
    requires Shows(v, c) && Advance(v, DeleteOp(key)).ents == v.ents - {EntityAddress(key)}
    requires c'.ents == Drop(c.ents, key) && c'.nonces == c.nonces && c'.used == c.used
    requires SameNonces(v.d.storage, Advance(v, DeleteOp(key)).d.storage)
    requires Deleted(Ids(v.d.storage), Ids(Advance(v, DeleteOp(key)).d.storage), EntityAddress(key))
    requires Fitting(v.d.storage, v.ents, DeleteOp(key)) && ShortOp(DeleteOp(key)) && PlanOf(v.d.code, v.d.storage, DeleteOp(key)).Some?
    ensures Steps(v, DeleteOp(key), c') && Ids(Advance(v, DeleteOp(key)).d.storage).count == Ids(v.d.storage).count
  {
    hide Advance, Fitting, PlanOf, NonceOf, PayloadNonceUsed;
  }

  // ── One operation of the registry ────────────────────────────────────

  /** The operations may be done one after the other, and lead from a state that
      shows one abstract state to one that shows another. */
  ghost predicate Leads(v: View, ops: seq<DbOp>, c': Chain, more: nat) {
    && Possible(v, ops) && Shows(Visit(v, ops), c')
    && EntityCount(Visit(v, ops).d.storage) <= EntityCount(v.d.storage) + more
  }

  lemma LeadsNone(v: View, c: Chain)
    requires Shows(v, c)
    ensures Leads(v, [], c, 0)
  {}

  lemma LeadsMore(v: View, ops: seq<DbOp>, c: Chain, more: nat, op: DbOp, c': Chain, one: nat)
    requires Leads(v, ops, c, more) && Steps(Visit(v, ops), op, c')
    requires EntityCount(Advance(Visit(v, ops), op).d.storage) <= EntityCount(Visit(v, ops).d.storage) + one
    ensures Leads(v, ops + [op], c', more + one) && Visit(v, ops + [op]) == Advance(Visit(v, ops), op)
  {
    assert (ops + [op])[..|ops|] == ops;
    hide Advance, Fitting, PlanOf, Shows, EntityCount;
  }

  lemma LeadsParts(v: View, ops: seq<DbOp>, c: Chain, more: nat)
    requires Leads(v, ops, c, more)
    ensures Possible(v, ops) && Shows(Visit(v, ops), c)
    ensures EntityCount(Visit(v, ops).d.storage) <= EntityCount(v.d.storage) + more
  {}

  /** What succeeded, said by its parts. */
  lemma Settled(c: Chain, w: World, env: Env, op: Operation)
    requires (op.kind == OP_CREATE || op.kind == OP_UPDATE) && ApplyOp(c, w, env, op).Ok?
    ensures CheckNames(op.attributes).Ok? && Convert(op.attributes).Ok? && w.validate(op.payload).Some?
    ensures Settle(c, w, env, op).Ok? && Settle(c, w, env, op).value.1 == w.validate(op.payload).value
    ensures var auth, c1 := w.validate(op.payload).value, Settle(c, w, env, op).value.0;
      c1 == c.(used := c.used + {(env.caller, auth.nonce)}, balances := c1.balances)
  {
    hide CheckNames, Convert, Pay, MimeBytes;
  }

  lemma CreatedIs(c: Chain, w: World, env: Env, op: Operation)
    requires op.kind == OP_CREATE && ApplyOp(c, w, env, op).Ok?
    ensures var c1, n := Settle(c, w, env, op).value.0, NonceIn(c.nonces, env.caller);
      var key := w.mint(env.caller, n);
      var e := NewEntity(env.caller, key, SatAdd(env.block, op.btl), env.block, op.payload, w.validate(op.payload).value.contentType,
                         Convert(op.attributes).value);
      && n != U32_MAX
      && ApplyOp(c, w, env, op) ==
           Ok(Emit(c1.(nonces := c1.nonces[env.caller := n + 1], ents := Put(c1.ents, key, e)), key, OP_CREATE, env.caller, SatAdd(env.block, op.btl)))
  {
    Settled(c, w, env, op);
    hide Settle, CheckNames, Convert, NewEntity, SatAdd;
  }

  lemma NonceSmall(v: View, c: Chain, a: Address)
    requires Shows(v, c)
    ensures NonceIn(c.nonces, a) <= U32_MAX
  {
    NonceBound(v.d.storage, a);
  }

  /** What a new entity's record satisfies. */
  lemma NewOk(w: World, env: Env, op: Operation, key: B256, auth: Auth)
    requires Sensible(w) && w.validate(op.payload) == Some(auth) && CheckNames(op.attributes).Ok? && Convert(op.attributes).Ok?
    requires env.block < U64
    ensures var e := NewEntity(env.caller, key, SatAdd(env.block, op.btl), env.block, op.payload, auth.contentType, Convert(op.attributes).value);
      EntityOk(e, EntityAddress(key)) && ShortValues(e.contentType, e.attributes) && e.key == key
    ensures UserAttributes(Convert(op.attributes).value) && ShortValues(auth.contentType, Convert(op.attributes).value)
  {
    ConvertExact(op.attributes);
    ConvertShort(op.attributes);
    hide CheckNames, Convert;
  }

  lemma CreateRefines(v: View, c: Chain, w: World, env: Env, op: Operation)
    requires Steady(v) && Shows(v, c) && Supported(c, w, env, op) && Sensible(w) && op.kind == OP_CREATE && ApplyOp(c, w, env, op).Ok?
    requires env.block < U64 && EntityCount(v.d.storage) + 1 < U64
    ensures Leads(v, DbOpsOf(c, w, env, op), ApplyOp(c, w, env, op).value, 1)
  {
    hide *;
    Settled(c, w, env, op);
    CreateOps(c, w, env, op);
    CreatedIs(c, w, env, op);
    SupportedParts(c, w, env, op);
    NonceSmall(v, c, env.caller);
    var auth, n, c1 := w.validate(op.payload).value, NonceIn(c.nonces, env.caller), Settle(c, w, env, op).value.0;
    var key := w.mint(env.caller, n);
    var e := NewEntity(env.caller, key, SatAdd(env.block, op.btl), env.block, op.payload, auth.contentType, Convert(op.attributes).value);
    var c2 := c1.(nonces := c1.nonces[env.caller := n + 1]);
    NewOk(w, env, op, key, auth);
    PutIs(c2, key, e);
    SpendLeads(v, c, env, auth, c1.balances);
    CountLeads(v, c, env, auth, c1, n);
    CreateLeads(v, env, auth, n, c2, e);
    LeadsLogs(v, DbOpsOf(c, w, env, op), c2.(ents := Put(c2.ents, key, e)), ApplyOp(c, w, env, op).value, 1);
  }

  /** First the receipt is spent. */
  lemma SpendLeads(v: View, c: Chain, env: Env, auth: Auth, b: Balances)
    requires Steady(v) && Shows(v, c)
    ensures Leads(v, [Spend(env, auth)], c.(used := c.used + {(env.caller, auth.nonce)}, balances := b), 0)
    ensures Steady(Visit(v, [Spend(env, auth)])) && Shows(Visit(v, [Spend(env, auth)]), c.(used := c.used + {(env.caller, auth.nonce)}, balances := b))
  {
    hide *;
    var c1 := c.(used := c.used + {(env.caller, auth.nonce)}, balances := b);
    LeadsNone(v, c);
    VisitNone(v);
    SpendSteps(v, c, env, auth, b);
    LeadsMore(v, [], c, 0, Spend(env, auth), c1, 0);
    assert [] + [Spend(env, auth)] == [Spend(env, auth)];
    LeadsParts(v, [Spend(env, auth)], c1, 0);
    RunSteady(v, [Spend(env, auth)]);
  }

  /** Then the creation is counted. */
  lemma CountLeads(v: View, c: Chain, env: Env, auth: Auth, c1: Chain, n: nat)
    requires Steady(v) && Leads(v, [Spend(env, auth)], c1, 0) && n == NonceIn(c1.nonces, env.caller) && n < U32_MAX
    ensures Leads(v, [Spend(env, auth), Count(env, n)], c1.(nonces := c1.nonces[env.caller := n + 1]), 0)
  {
    hide *;
    LeadsParts(v, [Spend(env, auth)], c1, 0);
    CountSteps(Visit(v, [Spend(env, auth)]), c1, env, n);
    LeadsMore(v, [Spend(env, auth)], c1, 0, Count(env, n), c1.(nonces := c1.nonces[env.caller := n + 1]), 0);
    assert [Spend(env, auth)] + [Count(env, n)] == [Spend(env, auth), Count(env, n)];
  }

  /** Then the entity is created. */
  lemma CreateLeads(v: View, env: Env, auth: Auth, n: nat, c: Chain, e: Entity)
    requires Steady(v) && Leads(v, [Spend(env, auth), Count(env, n)], c, 0)
    requires EntityOk(e, EntityAddress(e.key)) && ShortValues(e.contentType, e.attributes)
    requires EntityAddress(e.key) !in c.ents && EntityAddress(e.key) != ZeroAddress() && EntityCount(v.d.storage) + 1 < U64
    ensures Leads(v, [Spend(env, auth), Count(env, n), CreateOp(e)], c.(ents := Put(c.ents, e.key, e)), 1)
  {
    hide *;
    var ops := [Spend(env, auth), Count(env, n)];
    LeadsParts(v, ops, c, 0);
    RunSteady(v, ops);
    CreateSteps(Visit(v, ops), c, e);
    LeadsMore(v, ops, c, 0, CreateOp(e), c.(ents := Put(c.ents, e.key, e)), 1);
    assert ops + [CreateOp(e)] == [Spend(env, auth), Count(env, n), CreateOp(e)];
  }

  lemma CreateOps(c: Chain, w: World, env: Env, op: Operation)
    requires op.kind == OP_CREATE && ApplyOp(c, w, env, op).Ok?
    ensures var auth, attributes, n := w.validate(op.payload).value, Convert(op.attributes).value, NonceIn(c.nonces, env.caller);
      DbOpsOf(c, w, env, op) == [Spend(env, auth), Count(env, n),
        CreateOp(NewEntity(env.caller, w.mint(env.caller, n), SatAdd(env.block, op.btl), env.block, op.payload, auth.contentType, attributes))]
    ensures forall c1: Chain, key: B256, kind: byte, owner: Address, t: nat ::
      Emit(c1, key, kind, owner, t) == c1.(logs := Emit(c1, key, kind, owner, t).logs)
  {
    Settled(c, w, env, op);
    hide ApplyOp, Convert;
  }

  lemma PutIs(c: Chain, key: B256, e: Entity)
    ensures Put(c.ents, key, e) == c.ents[EntityAddress(key) := e]
  {}

  lemma VisitNone(v: View)
    ensures Visit(v, []) == v
  {}

  /** Balances and logs are not the database's. */
  lemma LeadsLogs(v: View, ops: seq<DbOp>, c: Chain, c': Chain, more: nat)
    requires Leads(v, ops, c, more) && c'.ents == c.ents && c'.nonces == c.nonces && c'.used == c.used
    ensures Leads(v, ops, c', more)
  {
    hide Possible, Visit, EntityCount, NonceOf, PayloadNonceUsed;
  }

  lemma SupportedParts(c: Chain, w: World, env: Env, op: Operation)
    requires Supported(c, w, env, op) && ApplyOp(c, w, env, op).Ok?
    ensures op.kind == OP_CREATE ==>
      var a := EntityAddress(w.mint(env.caller, NonceIn(c.nonces, env.caller)));
      a !in c.ents && a != ZeroAddress()
  {
    hide ApplyOp;
  }

  lemma UpdatedIs(c: Chain, w: World, env: Env, op: Operation)
    requires op.kind == OP_UPDATE && ApplyOp(c, w, env, op).Ok?
    ensures var a, auth, attributes := EntityAddress(op.entityKey), w.validate(op.payload).value, Convert(op.attributes).value;
      var dop := UpdateOp(op.entityKey, env.block, op.payload, auth.contentType, attributes);
      var c' := ApplyOp(c, w, env, op).value;
      && a in c.ents && c'.ents == c.ents[a := NewRecord(c.ents[a], dop)] && c'.nonces == c.nonces
      && c'.used == c.used + {(env.caller, auth.nonce)} && dop.Target() == a
      && DbOpsOf(c, w, env, op) == [Spend(env, auth), dop]
  {
    Settled(c, w, env, op);
    hide Settle, CheckNames, Convert, UpdatedEntity;
  }

  lemma UpdateRefines(v: View, c: Chain, w: World, env: Env, op: Operation)
    requires Steady(v) && Shows(v, c) && Supported(c, w, env, op) && Sensible(w) && op.kind == OP_UPDATE && ApplyOp(c, w, env, op).Ok?
    requires env.block < U64
    ensures Leads(v, DbOpsOf(c, w, env, op), ApplyOp(c, w, env, op).value, 0)
  {
    hide *;
    Settled(c, w, env, op);
    UpdatedIs(c, w, env, op);
    SupportedParts(c, w, env, op);
    var auth, attributes, c' := w.validate(op.payload).value, Convert(op.attributes).value, ApplyOp(c, w, env, op).value;
    var dop := UpdateOp(op.entityKey, env.block, op.payload, auth.contentType, attributes);
    var c1 := c.(used := c.used + {(env.caller, auth.nonce)});
    NewOk(w, env, op, op.entityKey, auth);
    SpendLeads(v, c, env, auth, c.balances);
    UpdateAllows(Visit(v, [Spend(env, auth)]), dop);
    ChangeSteps(Visit(v, [Spend(env, auth)]), c1, dop, c');
    LeadsMore(v, [Spend(env, auth)], c1, 0, dop, c', 0);
    assert [Spend(env, auth)] + [dop] == [Spend(env, auth), dop];
  }

  lemma UpdateAllows(v: View, op: DbOp)
    requires op.UpdateOp? && UserAttributes(op.attributes) && ShortValues(op.contentType, op.attributes)
    ensures Fitting(v.d.storage, v.ents, op) && ShortOp(op)
  {
    hide UserAttributes, ShortValues;
  }

  /** EXTEND and TRANSFER. */
  lemma MovedIs(c: Chain, w: World, env: Env, op: Operation)
    requires (op.kind == OP_EXTEND || op.kind == OP_TRANSFER) && ApplyOp(c, w, env, op).Ok? && env.block < U64
    ensures var a, c', ops := EntityAddress(op.entityKey), ApplyOp(c, w, env, op).value, DbOpsOf(c, w, env, op);
      && |ops| == 1 && (ops[0].ExtendOp? || ops[0].TransferOp?) && ops[0].Target() == a
      && a in c.ents && c'.ents == c.ents[a := NewRecord(c.ents[a], ops[0])] && c'.nonces == c.nonces && c'.used == c.used
      && (forall st: Storage :: Fitting(st, c.ents, ops[0])) && ShortOp(ops[0])
  {}

  lemma MoveRefines(v: View, c: Chain, w: World, env: Env, op: Operation)
    requires Steady(v) && Shows(v, c) && (op.kind == OP_EXTEND || op.kind == OP_TRANSFER) && ApplyOp(c, w, env, op).Ok? && env.block < U64
    ensures Leads(v, DbOpsOf(c, w, env, op), ApplyOp(c, w, env, op).value, 0)
  {
    hide *;
    MovedIs(c, w, env, op);
    var ops, c' := DbOpsOf(c, w, env, op), ApplyOp(c, w, env, op).value;
    OneOp(ops);
    ShowsEnts(v, c);
    ChangeSteps(v, c, ops[0], c');
    OneLeads(v, c, ops[0], c');
  }

  /** DELETE and EXPIRE. */
  lemma GoneIs(c: Chain, w: World, env: Env, op: Operation)
    requires (op.kind == OP_DELETE || op.kind == OP_EXPIRE) && ApplyOp(c, w, env, op).Ok?
    ensures var c' := ApplyOp(c, w, env, op).value;
      && EntityAddress(op.entityKey) in c.ents && c'.ents == Drop(c.ents, op.entityKey)
      && c'.nonces == c.nonces && c'.used == c.used && DbOpsOf(c, w, env, op) == [DeleteOp(op.entityKey)]
  {}

  lemma GoneRefines(v: View, c: Chain, w: World, env: Env, op: Operation)
    requires Steady(v) && Shows(v, c) && (op.kind == OP_DELETE || op.kind == OP_EXPIRE) && ApplyOp(c, w, env, op).Ok?
    ensures Leads(v, DbOpsOf(c, w, env, op), ApplyOp(c, w, env, op).value, 0)
  {
    hide *;
    GoneIs(c, w, env, op);
    DeleteSteps(v, c, op.entityKey, ApplyOp(c, w, env, op).value);
    OneLeads(v, c, DeleteOp(op.entityKey), ApplyOp(c, w, env, op).value);
  }

  lemma OneOp(ops: seq<DbOp>)
    requires |ops| == 1
    ensures ops == [ops[0]]
  {}

  lemma OneLeads(v: View, c: Chain, op: DbOp, c': Chain)
    requires Shows(v, c) && Steps(v, op, c') && EntityCount(Advance(v, op).d.storage) == EntityCount(v.d.storage)
    ensures Leads(v, [op], c', 0)
  {
    hide *;
    LeadsNone(v, c);
    VisitNone(v);
    LeadsMore(v, [], c, 0, op, c', 0);
    assert [] + [op] == [op];
  }

  lemma OpKinds(c: Chain, w: World, env: Env, op: Operation)
    requires ApplyOp(c, w, env, op).Ok?
    ensures op.kind == OP_CREATE || op.kind == OP_UPDATE || op.kind == OP_EXTEND || op.kind == OP_TRANSFER
         || op.kind == OP_DELETE || op.kind == OP_EXPIRE
  {
    hide ApplyCreate, ApplyUpdate, ApplyExtend, ApplyTransfer, ApplyDelete, ApplyExpire;
  }

  /** Every successful operation of the registry is a possible run of database
      operations, and the two states keep telling the same story. */
  lemma OpRefines(v: View, c: Chain, w: World, env: Env, op: Operation)
    requires Steady(v) && Shows(v, c) && Supported(c, w, env, op) && Sensible(w) && ApplyOp(c, w, env, op).Ok?
    requires env.block < U64 && EntityCount(v.d.storage) + 1 < U64
    ensures Leads(v, DbOpsOf(c, w, env, op), ApplyOp(c, w, env, op).value, 1)
    ensures Steady(Visit(v, DbOpsOf(c, w, env, op)))
  {
    hide *;
    OpKinds(c, w, env, op);
    var ops, c' := DbOpsOf(c, w, env, op), ApplyOp(c, w, env, op).value;
    if op.kind == OP_CREATE {
      CreateRefines(v, c, w, env, op);
    } else {
      if op.kind == OP_UPDATE {
        UpdateRefines(v, c, w, env, op);
      } else if op.kind == OP_EXTEND || op.kind == OP_TRANSFER {
        MoveRefines(v, c, w, env, op);
      } else {
        GoneRefines(v, c, w, env, op);
      }
      LeadsLoose(v, ops, c', 0, 1);
    }
    LeadsParts(v, ops, c', 1);
    RunSteady(v, ops);
  }

  lemma LeadsLoose(v: View, ops: seq<DbOp>, c: Chain, more: nat, most: nat)
    requires Leads(v, ops, c, more) && more <= most
    ensures Leads(v, ops, c, most)
  {}

  // ── Paths and runs ───────────────────────────────────────────────────

  /** The database operations of a path of successful operations. */
  function PathOps(c: Chain, w: World, steps: seq<Step>): seq<DbOp>
    requires Follow(c, w, steps).Ok?
  {
    if steps == [] then []
    else
      var pre, last := steps[..|steps| - 1], steps[|steps| - 1];
      PathOps(c, w, pre) + DbOpsOf(Follow(c, w, pre).value, w, last.env, last.op)
  }

  /** Every operation of the path is supported when its turn comes. */
  ghost predicate SupportedPath(c: Chain, w: World, steps: seq<Step>) {
    steps != [] ==>
      var pre, last := steps[..|steps| - 1], steps[|steps| - 1];
      && SupportedPath(c, w, pre) && last.env.block < U64
      && (Follow(c, w, pre).Ok? ==> Supported(Follow(c, w, pre).value, w, last.env, last.op))
  }

  lemma PathStep(c: Chain, w: World, steps: seq<Step>)
    requires steps != [] && Follow(c, w, steps).Ok?
    ensures var pre, last := steps[..|steps| - 1], steps[|steps| - 1];
      && Follow(c, w, pre).Ok? && ApplyOp(Follow(c, w, pre).value, w, last.env, last.op) == Follow(c, w, steps)
      && PathOps(c, w, steps) == PathOps(c, w, pre) + DbOpsOf(Follow(c, w, pre).value, w, last.env, last.op)
    ensures SupportedPath(c, w, steps) ==>
      var pre, last := steps[..|steps| - 1], steps[|steps| - 1];
      SupportedPath(c, w, pre) && last.env.block < U64 && Supported(Follow(c, w, pre).value, w, last.env, last.op)
  {
    hide ApplyOp, DbOpsOf, Supported;
  }

  lemma NoSteps(c: Chain, w: World)
    ensures Follow(c, w, []) == Ok(c) && PathOps(c, w, []) == []
  {}

  lemma VisitLast(v: View, a: seq<DbOp>, op: DbOp)
    ensures Visit(v, a + [op]) == Advance(Visit(v, a), op)
    ensures var u := Visit(v, a);
      Possible(v, a + [op]) <==>
        (Possible(v, a) && Fitting(u.d.storage, u.ents, op) && ShortOp(op) && PlanOf(u.d.code, u.d.storage, op).Some?)
  {
    assert (a + [op])[..|a|] == a;
    hide Advance, Fitting, PlanOf, ShortOp;
  }

  lemma {:induction false} VisitCat(v: View, a: seq<DbOp>, b: seq<DbOp>)
    ensures Visit(v, a + b) == Visit(Visit(v, a), b)
    ensures Possible(v, a) && Possible(Visit(v, a), b) ==> Possible(v, a + b)
  {
    hide *;
    if b == [] {
      assert a + b == a;
      VisitNone(Visit(v, a));
    } else {
      var pre, op := b[..|b| - 1], b[|b| - 1];
      assert a + b == (a + pre) + [op] && b == pre + [op];
      VisitCat(v, a, pre);
      VisitLast(v, a + pre, op);
      VisitLast(Visit(v, a), pre, op);
    }
  }

  /** Every path of the registry is a possible run of the database, which never
      fails, keeps records, ids and trees in order, and shows the abstract state,
      whatever names and values the attributes have. */
  lemma {:induction false} PathRefines(v: View, c: Chain, w: World, steps: seq<Step>)
    requires Steady(v) && Shows(v, c) && Sensible(w) && Follow(c, w, steps).Ok? && SupportedPath(c, w, steps)
    requires EntityCount(v.d.storage) + |steps| < U64
    ensures var u := Visit(v, PathOps(c, w, steps));
      && Possible(v, PathOps(c, w, steps)) && Steady(u) && Shows(u, Follow(c, w, steps).value)
      && EntityCount(u.d.storage) <= EntityCount(v.d.storage) + |steps|
  {
    hide *;
    if steps == [] {
      NoSteps(c, w);
      LeadsNone(v, c);
      LeadsParts(v, [], c, 0);
      VisitNone(v);
    } else {
      var pre, last := steps[..|steps| - 1], steps[|steps| - 1];
      PathStep(c, w, steps);
      PathRefines(v, c, w, pre);
      var u, d := Visit(v, PathOps(c, w, pre)), Follow(c, w, pre).value;
      OpRefines(u, d, w, last.env, last.op);
      LeadsParts(u, DbOpsOf(d, w, last.env, last.op), ApplyOp(d, w, last.env, last.op).value, 1);
      VisitCat(v, PathOps(c, w, pre), DbOpsOf(d, w, last.env, last.op));
    }
  }

  /** The abstract state of the empty registry. */
  function EmptyChain(b: Balances): Chain { Chain(map[], map[], {}, b, []) }

  lemma EmptyShows(b: Balances)
    ensures Sane(EMPTY_VIEW) && Steady(EMPTY_VIEW) && Shows(EMPTY_VIEW, EmptyChain(b)) && EntityCount(EMPTY_VIEW.d.storage) == 0
  {
    EmptySane();
    SaneSteady(EMPTY_VIEW);
    EmptyCount();
    ZeroWordReads();
    hide Sane, Steady;
  }

  // ── Slot writes come first ───────────────────────────────────────────

  /** All operations but the last are slot writes. */
  predicate SlotsFirst(ops: seq<DbOp>) { forall i :: 0 <= i < |ops| - 1 ==> ops[i].SlotOp? }

  lemma {:induction false} SlotsKeep(v: View, ops: seq<DbOp>)
    requires forall i :: 0 <= i < |ops| ==> ops[i].SlotOp?
    ensures Visit(v, ops).ents == v.ents
  {
    if ops != [] {
      SlotsKeep(v, ops[..|ops| - 1]);
      SlotAdvance(Visit(v, ops[..|ops| - 1]), ops[|ops| - 1].slot, ops[|ops| - 1].word);
      hide Advance;
    }
  }

  lemma OpsSlotsFirst(c: Chain, w: World, env: Env, op: Operation)
    requires ApplyOp(c, w, env, op).Ok?
    ensures SlotsFirst(DbOpsOf(c, w, env, op))
  {
    OpKinds(c, w, env, op);
    if op.kind == OP_CREATE || op.kind == OP_UPDATE { Settled(c, w, env, op); }
    hide ApplyOp, Convert;
  }

  // ── While every pair has one flag ────────────────────────────────────

  /** The tree flag is a function of the pair, over all live entities. */
  ghost predicate EntityFlagsAgree(ents: map<Address, Entity>) {
    forall a, b, k, v :: a in ents && b in ents && Annotation(k, v, true) in Annotations(ents[a])
      ==> Annotation(k, v, false) !in Annotations(ents[b])
  }

  /** Where an indexed annotation comes from: an entity, or a `$key` pair that
      was left behind. */
  lemma Origin(ents: map<Address, Entity>, m: Model, x: IdMap, a: Address, e: Entity, id: nat, t: Annotation) returns (b: Address)
    requires ModelIs(m, AnnotationsOf(ents), x) && (a in ents ==> x.idOf(a) == id)
    requires t in Carried(m[id := Annotations(e)]) && (t.key != ANNOT_KEY || t.tier2)
    ensures b in ents[a := e] && t in Annotations(ents[a := e][b])
  {
    hide Annotations;
    var n := m[id := Annotations(e)];
    var i :| i in n && t in n[i];
    if i == id {
      b := a;
    } else {
      assert !Stray(x, i, m[i]);
      b :| b in AnnotationsOf(ents) && x.idOf(b) == i;
    }
  }

  /** Flags that agree over the entities agree over the index model. */
  lemma FlagsCarry(ents: map<Address, Entity>, m: Model, x: IdMap, a: Address, e: Entity, id: nat)
    requires ModelIs(m, AnnotationsOf(ents), x) && EntityFlagsAgree(ents[a := e]) && (a in ents ==> x.idOf(a) == id)
    requires ProperModel(m) && UserAttributes(e.attributes)
    ensures FlagsAgree(m[id := Annotations(e)])
  {
    var n := m[id := Annotations(e)];
    ProperEntity(e);
    ProperReplace(m, id, Annotations(e));
    KeyFlag(n);
    hide Annotations, ModelIs, Carried, ProperModel;
    forall k, v ensures !(Annotation(k, v, true) in Carried(n) && Annotation(k, v, false) in Carried(n)) {
      if k != ANNOT_KEY && Annotation(k, v, true) in Carried(n) && Annotation(k, v, false) in Carried(n) {
        var b := Origin(ents, m, x, a, e, id, Annotation(k, v, true));
        var c := Origin(ents, m, x, a, e, id, Annotation(k, v, false));
        assert false;
      }
    }
  }

  lemma KeyFlag(m: Model)
    requires ProperModel(m)
    ensures forall v :: Annotation(ANNOT_KEY, v, true) !in Carried(m)
  {
    DollarKeys();
  }

  /** The model flags agree after an operation that leaves entities whose flags
      agree. */
  lemma OpAllowed(v: View, op: DbOp)
    requires Sane(v) && Fitting(v.d.storage, v.ents, op) && EntityFlagsAgree(EntsAfter(v.ents, op))
    ensures Allowed(v.d.storage, v.ents, v.m, op)
  {
    SaneParts(v);
    hide Sane, Consistent, FlagsAgree, EntityFlagsAgree, Annotations, EntityCount, Ids, IdOf, NewRecord, ModelIs, ProperModel, IdsAgree;
    Parts(v.d.code, Ids(v.d.storage), v.ents, v.m, v.d.lossy);
    if op.CreateOp? {
      FlagsCarry(v.ents, v.m, Ids(v.d.storage), op.Target(), op.record, EntityCount(v.d.storage));
    } else if op.UpdateOp? && op.Target() in v.ents {
      IdsRead(v.d.storage, op.Target());
      FlagsCarry(v.ents, v.m, Ids(v.d.storage), op.Target(), NewRecord(v.ents[op.Target()], op), IdOf(v.d.storage, op.Target()));
    }
  }

  /** Slot writes, and then an operation after which every pair has one flag. */
  lemma {:induction false} OpsPermitted(v: View, ops: seq<DbOp>)
    requires Sane(v) && Possible(v, ops) && SlotsFirst(ops) && EntityFlagsAgree(v.ents) && EntityFlagsAgree(Visit(v, ops).ents)
    ensures Permitted(v, ops)
  {
    if ops != [] {
      var pre, op := ops[..|ops| - 1], ops[|ops| - 1];
      PossibleStep(v, ops);
      SlotsKeep(v, pre);
      hide Sane, Steady, StepDb, Possible, Fitting, PlanOf, FlagsAgree, EntityFlagsAgree, Allowed, EntsAfter;
      OpsPermitted(v, pre);
      RunSane(v, pre);
      var u := Visit(v, pre);
      SaneSteady(u);
      AdvanceSteady(u, op);
      AdvanceParts(u, op);
      OpAllowed(u, op);
    }
  }

  lemma PermittedLast(v: View, a: seq<DbOp>, op: DbOp)
    ensures var u := Visit(v, a);
      Permitted(v, a + [op]) <==>
        (Permitted(v, a) && Allowed(u.d.storage, u.ents, u.m, op) && ShortOp(op) && PlanOf(u.d.code, u.d.storage, op).Some?)
  {
    assert (a + [op])[..|a|] == a;
    hide Advance, Allowed, PlanOf, ShortOp;
  }

  lemma {:induction false} PermittedCat(v: View, a: seq<DbOp>, b: seq<DbOp>)
    requires Permitted(v, a) && Permitted(Visit(v, a), b)
    ensures Permitted(v, a + b)
  {
    hide *;
    if b == [] {
      assert a + b == a;
    } else {
      var pre, op := b[..|b| - 1], b[|b| - 1];
      assert a + b == (a + pre) + [op] && b == pre + [op];
      PermittedLast(Visit(v, a), pre, op);
      PermittedCat(v, a, pre);
      VisitCat(v, a, pre);
      PermittedLast(v, a + pre, op);
    }
  }

  /** At every point of the path each name and value is in use under one flag. */
  ghost predicate FlagsAlong(c: Chain, w: World, steps: seq<Step>)
    requires Follow(c, w, steps).Ok?
  {
    && EntityFlagsAgree(Follow(c, w, steps).value.ents)
    && (steps != [] ==> FlagsAlong(c, w, steps[..|steps| - 1]))
  }

  lemma FlagsParts(c: Chain, w: World, steps: seq<Step>)
    requires Follow(c, w, steps).Ok? && FlagsAlong(c, w, steps)
    ensures EntityFlagsAgree(Follow(c, w, steps).value.ents)
    ensures steps != [] ==> Follow(c, w, steps[..|steps| - 1]).Ok? && FlagsAlong(c, w, steps[..|steps| - 1])
  {
    hide EntityFlagsAgree, ApplyOp;
  }

  /** Along such a path the indexes tell the truth. */
  lemma {:induction false} PathPermitted(v: View, c: Chain, w: World, steps: seq<Step>)
    requires Sane(v) && Shows(v, c) && Sensible(w) && Follow(c, w, steps).Ok? && SupportedPath(c, w, steps)
    requires EntityCount(v.d.storage) + |steps| < U64 && FlagsAlong(c, w, steps)
    ensures Permitted(v, PathOps(c, w, steps)) && Sane(Visit(v, PathOps(c, w, steps)))
  {
    hide *;
    FlagsParts(c, w, steps);
    SaneSteady(v);
    PathRefines(v, c, w, steps);
    if steps == [] {
      NoSteps(c, w);
      NonePermitted(v);
    } else {
      var pre, last := steps[..|steps| - 1], steps[|steps| - 1];
      PathStep(c, w, steps);
      PathPermitted(v, c, w, pre);
      PathRefines(v, c, w, pre);
      FlagsParts(c, w, pre);
      var u, d := Visit(v, PathOps(c, w, pre)), Follow(c, w, pre).value;
      var ops := DbOpsOf(d, w, last.env, last.op);
      OpRefines(u, d, w, last.env, last.op);
      LeadsParts(u, ops, ApplyOp(d, w, last.env, last.op).value, 1);
      ShowsEnts(u, d);
      ShowsEnts(Visit(u, ops), ApplyOp(d, w, last.env, last.op).value);
      OpsSlotsFirst(d, w, last.env, last.op);
      OpsPermitted(u, ops);
      PermittedCat(v, PathOps(c, w, pre), ops);
    }
    RunSane(v, PathOps(c, w, steps));
  }

  lemma NonePermitted(v: View)
    ensures Permitted(v, []) && Visit(v, []) == v
  {}

  // ── Keys with few values ─────────────────────────────────────────────

  /** A key with few values before and after has few values in between. */
  lemma OpTame(v: View, ops: seq<DbOp>, k: Key)
    requires SlotsFirst(ops) && |OrderedValues(v.ents, k)| <= 16 && |OrderedValues(Visit(v, ops).ents, k)| <= 16
    ensures Tame(v, ops, k, Few)
  {
    hide Visit, OrderedValues, Tame;
    forall i | 0 <= i <= |ops| ensures |OrderedValues(Visit(v, ops[..i]).ents, k)| <= 16 {
      if i == |ops| { assert ops[..i] == ops; } else { SlotsKeep(v, ops[..i]); }
    }
    FewTame(v, ops, k);
  }

  lemma TameLast(v: View, a: seq<DbOp>, op: DbOp, k: Key, kind: Kind)
    ensures Tame(v, a + [op], k, kind) <==>
      (Within(OrderedValues(Visit(v, a + [op]).ents, k), kind) && Tame(v, a, k, kind) && CleanOp(Visit(v, a).d, op, k, kind))
  {
    assert (a + [op])[..|a|] == a;
    hide Visit, Within, OrderedValues, CleanOp;
  }

  lemma {:induction false} TameCat(v: View, a: seq<DbOp>, b: seq<DbOp>, k: Key, kind: Kind)
    requires Tame(v, a, k, kind) && Tame(Visit(v, a), b, k, kind)
    ensures Tame(v, a + b, k, kind)
  {
    hide *;
    if b == [] {
      assert a + b == a;
    } else {
      var pre, op := b[..|b| - 1], b[|b| - 1];
      assert a + b == (a + pre) + [op] && b == pre + [op];
      TameLast(Visit(v, a), pre, op, k, kind);
      TameCat(v, a, pre, k, kind);
      VisitCat(v, a, pre);
      VisitCat(v, a, b);
      TameLast(v, a + pre, op, k, kind);
    }
  }

  /** The live entities never have more than sixteen ordered values under `k`. */
  ghost predicate FewAlong(c: Chain, w: World, steps: seq<Step>, k: Key)
    requires Follow(c, w, steps).Ok?
  {
    && |OrderedValues(Follow(c, w, steps).value.ents, k)| <= 16
    && (steps != [] ==> FewAlong(c, w, steps[..|steps| - 1], k))
  }

  lemma FewParts(c: Chain, w: World, steps: seq<Step>, k: Key)
    requires Follow(c, w, steps).Ok? && FewAlong(c, w, steps, k)
    ensures |OrderedValues(Follow(c, w, steps).value.ents, k)| <= 16
    ensures steps != [] ==> Follow(c, w, steps[..|steps| - 1]).Ok? && FewAlong(c, w, steps[..|steps| - 1], k)
  {
    hide OrderedValues, ApplyOp;
  }

  lemma {:induction false} PathTame(v: View, c: Chain, w: World, steps: seq<Step>, k: Key)
    requires Steady(v) && Shows(v, c) && Sensible(w) && Follow(c, w, steps).Ok? && SupportedPath(c, w, steps)
    requires EntityCount(v.d.storage) + |steps| < U64 && FewAlong(c, w, steps, k)
    ensures Tame(v, PathOps(c, w, steps), k, Few)
  {
    hide *;
    FewParts(c, w, steps, k);
    PathRefines(v, c, w, steps);
    ShowsEnts(Visit(v, PathOps(c, w, steps)), Follow(c, w, steps).value);
    if steps == [] {
      NoSteps(c, w);
      VisitNone(v);
      ShowsEnts(v, c);
      NoOps();
      OpTame(v, [], k);
    } else {
      var pre, last := steps[..|steps| - 1], steps[|steps| - 1];
      PathStep(c, w, steps);
      PathTame(v, c, w, pre, k);
      PathRefines(v, c, w, pre);
      FewParts(c, w, pre, k);
      var u, d := Visit(v, PathOps(c, w, pre)), Follow(c, w, pre).value;
      var ops := DbOpsOf(d, w, last.env, last.op);
      ShowsEnts(u, d);
      VisitCat(v, PathOps(c, w, pre), ops);
      OpsSlotsFirst(d, w, last.env, last.op);
      OpTame(u, ops, k);
      TameCat(v, PathOps(c, w, pre), ops, k, Few);
    }
  }

  lemma NoOps()
    ensures SlotsFirst([])
  {}

  /** Over every run of batches from the empty registry in which each name and
      value is in use under one flag, the indexes tell the truth about the state
      of the registry. */
  lemma TrueOnRun(w: World, b: Balances, calls: seq<Call>)
    requires Sensible(w) && |Committed(EmptyChain(b), w, calls)| < U64
    requires SupportedPath(EmptyChain(b), w, Committed(EmptyChain(b), w, calls))
    requires Follow(EmptyChain(b), w, Committed(EmptyChain(b), w, calls)).Ok? ==>
      FlagsAlong(EmptyChain(b), w, Committed(EmptyChain(b), w, calls))
    ensures Follow(EmptyChain(b), w, Committed(EmptyChain(b), w, calls)).Ok?
    ensures var ops := PathOps(EmptyChain(b), w, Committed(EmptyChain(b), w, calls));
      && Permitted(EMPTY_VIEW, ops) && Sane(Visit(EMPTY_VIEW, ops))
      && Visit(EMPTY_VIEW, ops).ents == Run(EmptyChain(b), w, calls).ents
  {
    hide *;
    var c, steps := EmptyChain(b), Committed(EmptyChain(b), w, calls);
    RunIsPath(c, w, calls);
    EmptyShows(b);
    PathRefines(EMPTY_VIEW, c, w, steps);
    PathPermitted(EMPTY_VIEW, c, w, steps);
    ShowsEnts(Visit(EMPTY_VIEW, PathOps(c, w, steps)), Run(c, w, calls));
  }

  /** And if the live entities never have more than sixteen ordered values under a
      key, its tree holds exactly those values: ranges and prefixes on it are
      answered exactly. */
  lemma FewOnRun(w: World, b: Balances, calls: seq<Call>, k: Key)
    requires Sensible(w) && ZeroFree(k) && |Committed(EmptyChain(b), w, calls)| < U64
    requires SupportedPath(EmptyChain(b), w, Committed(EmptyChain(b), w, calls))
    requires Follow(EmptyChain(b), w, Committed(EmptyChain(b), w, calls)).Ok? ==>
      && FlagsAlong(EmptyChain(b), w, Committed(EmptyChain(b), w, calls))
      && FewAlong(EmptyChain(b), w, Committed(EmptyChain(b), w, calls), k)
    ensures Follow(EmptyChain(b), w, Committed(EmptyChain(b), w, calls)).Ok?
    ensures var v := Visit(EMPTY_VIEW, PathOps(EmptyChain(b), w, Committed(EmptyChain(b), w, calls)));
      && Sane(v) && k !in v.d.lossy && TreeHolds(v.d.code, k, OrderedValues(Run(EmptyChain(b), w, calls).ents, k))
  {
    hide *;
    var c, steps := EmptyChain(b), Committed(EmptyChain(b), w, calls);
    EmptyShows(b);
    EmptySane();
    TrueOnRun(w, b, calls);
    PathTame(EMPTY_VIEW, c, w, steps, k);
    var ops := PathOps(c, w, steps);
    var v := Visit(EMPTY_VIEW, ops);
    RunExact(EMPTY_VIEW, ops, k, Few);
    ExactParts(Tiers(v.d.code, v.d.lossy), k, Few);
    ExactTree(v, k);
  }
}
