/** Entities, the id map and the indexes, and the six handlers that keep them in
    agreement. */
module EntityDb {
  import opened Options
  import opened Bytes
  import opened Accounts
  import opened ArtNode
  import opened ArtOrder
  import opened ArtSer
  import opened ArtSound
  import opened ArtStore
  import opened Indexes

  // ── Storage, read through its slots ──────────────────────────────────

  type Storage = map<Key, B256>

  function Read(st: Storage, slot: Key): B256 { if slot in st then st[slot] else ZeroWord() }

  function EntityCount(st: Storage): nat { StorageToU64(Read(st, COUNT_SLOT)) }
  function IdOf(st: Storage, a: Address): nat { StorageToU64(Read(st, AddrToIdSlot(a))) }
  function NonceOf(st: Storage, caller: Address): nat { StorageToU32(Read(st, NonceSlot(caller))) }
  predicate PayloadNonceUsed(st: Storage, caller: Address, nonce: B256) {
    Read(st, PayloadNonceSlot(caller, nonce)) != ZeroWord()
  }
  function AddrWord(st: Storage, id: nat): B256 { Read(st, IdToAddrSlot(id)) }

  /** The id map as the slots spell it. */
  datatype IdMap = IdMap(count: nat, idOf: Address -> nat, word: nat -> B256)

  function Ids(st: Storage): IdMap {
    IdMap(EntityCount(st), (a: Address) => IdOf(st, a), (id: nat) => AddrWord(st, id))
  }

  /** A live entity has an id below the counter, and that id leads back. */
  ghost predicate HasId(x: IdMap, a: Address) {
    x.idOf(a) < x.count && x.word(x.idOf(a)) == AddressToStorage(a)
  }

  /** An id that is mapped belongs to a live entity. */
  ghost predicate IdLive(live: set<Address>, x: IdMap, id: nat) {
    x.word(id) != ZeroWord() ==>
      StorageToAddress(x.word(id)) in live && x.idOf(StorageToAddress(x.word(id))) == id
  }

  /** The id map: inverse on live entities, and nothing else is mapped. */
  ghost predicate IdsAgree(live: set<Address>, x: IdMap) {
    && x.count < U64
    && (forall a :: a in live ==> HasId(x, a) && a != ZeroAddress())
    && (forall id: nat :: id < U64 ==> IdLive(live, x, id))
  }

  /** The annotations of every live entity, by address. */
  type AnnotationMap = map<Address, set<Annotation>>

  ghost function AnnotationsOf(ents: map<Address, Entity>): AnnotationMap {
    map a | a in ents :: Annotations(ents[a])
  }

  /** `id` belongs to one of these entities. */
  ghost predicate Owned(g: AnnotationMap, x: IdMap, id: nat) { exists a :: a in g && x.idOf(a) == id }

  /** `id` was given out and cleared again, and left nothing but a `$key` pair. */
  ghost predicate Stray(x: IdMap, id: nat, s: set<Annotation>) {
    id < x.count && x.word(id) == ZeroWord() && exists v: B256 :: s == {Annotation(ANNOT_KEY, v, false)}
  }

  /** The index model is the live entities' annotations, by id, and what
      deletions under another key have left behind. */
  ghost predicate ModelIs(m: Model, g: AnnotationMap, x: IdMap) {
    && (forall a :: a in g ==> x.idOf(a) in m && m[x.idOf(a)] == g[a])
    && (forall id :: id in m ==> Owned(g, x, id) || Stray(x, id, m[id]))
  }

  /** What holds of a stored entity under address `a`. */
  predicate EntityOk(e: Entity, a: Address) {
    EntityAddress(e.key) == a && UserAttributes(e.attributes) && e.createdAt < U64 && e.expiresAt < U64
  }

  ghost predicate EntitiesOk(ents: map<Address, Entity>) {
    forall a :: a in ents ==> EntityOk(ents[a], a)
  }

  ghost predicate CodeIs(code: Codes, ents: map<Address, Entity>) {
    forall a :: (EntityAccount(a) in code <==> a in ents)
      && (a in ents ==> code[EntityAccount(a)] == EntityCode(ents[a]))
  }

  lemma IdsInjective(live: set<Address>, x: IdMap, a: Address, b: Address)
    requires IdsAgree(live, x) && a in live && b in live && x.idOf(a) == x.idOf(b)
    ensures a == b
  {
    assert HasId(x, a) && HasId(x, b);
    AddressRoundTrip(a);
    AddressRoundTrip(b);
  }

  /** The three slot writes of a creation. */
  function CreateStorage(st: Storage, id: nat, a: Address): Storage {
    st[COUNT_SLOT := U64ToStorage(id + 1)][IdToAddrSlot(id) := AddressToStorage(a)][AddrToIdSlot(a) := U64ToStorage(id)]
  }

  /** The two slot writes of a deletion. */
  function DeleteStorage(st: Storage, id: nat, a: Address): Storage {
    st[IdToAddrSlot(id) := ZeroWord()][AddrToIdSlot(a) := ZeroWord()]
  }

  /** Both kinds of nonce read as in `s1`. */
  ghost predicate SameNonces(s1: Storage, s2: Storage) {
    && (forall c: Address :: NonceOf(s2, c) == NonceOf(s1, c))
    && (forall c: Address, n: B256 :: PayloadNonceUsed(s2, c, n) == PayloadNonceUsed(s1, c, n))
  }

  /** `y` is `x` with one more pair. */
  ghost predicate Created(x: IdMap, y: IdMap, a: Address) {
    && y.count == x.count + 1 && y.idOf(a) == x.count && y.word(x.count) == AddressToStorage(a)
    && (forall b: Address :: b != a ==> y.idOf(b) == x.idOf(b))
    && (forall i: nat :: i < U64 && i != x.count ==> y.word(i) == x.word(i))
  }

  /** `y` is `x` with one pair cleared. */
  ghost predicate Deleted(x: IdMap, y: IdMap, a: Address) {
    && y.count == x.count && y.word(x.idOf(a)) == ZeroWord() && y.idOf(a) == 0
    && (forall b: Address :: b != a ==> y.idOf(b) == x.idOf(b))
    && (forall i: nat :: i < U64 && i != x.idOf(a) ==> y.word(i) == x.word(i))
  }

  lemma CreateReads(st: Storage, a: Address)
    requires EntityCount(st) + 1 < U64
    ensures var s := CreateStorage(st, EntityCount(st), a);
      Created(Ids(st), Ids(s), a) && SameNonces(st, s)
  {
    var id := EntityCount(st);
    var s := CreateStorage(st, id, a);
    U64RoundTrip(id);
    U64RoundTrip(id + 1);
    SlotsDisjoint(id, a, a, a, ZeroWord());
    forall b: Address | b != a ensures IdOf(s, b) == IdOf(st, b) {
      if AddrToIdSlot(a) == AddrToIdSlot(b) { AddrToIdInjective(a, b); }
    }
    forall i: nat | i < U64 && i != id ensures AddrWord(s, i) == AddrWord(st, i) {
      if IdToAddrSlot(i) == IdToAddrSlot(id) { IdToAddrInjective(i, id); }
    }
  }

  lemma DeleteReads(st: Storage, a: Address)
    requires IdOf(st, a) < U64
    ensures var s := DeleteStorage(st, IdOf(st, a), a);
      Deleted(Ids(st), Ids(s), a) && SameNonces(st, s)
  {
    var id := IdOf(st, a);
    var s := DeleteStorage(st, id, a);
    ZeroWordReads();
    SlotsDisjoint(id, a, a, a, ZeroWord());
    forall b: Address | b != a ensures IdOf(s, b) == IdOf(st, b) {
      if AddrToIdSlot(a) == AddrToIdSlot(b) { AddrToIdInjective(a, b); }
    }
    forall i: nat | i < U64 && i != id ensures AddrWord(s, i) == AddrWord(st, i) {
      if IdToAddrSlot(i) == IdToAddrSlot(id) { IdToAddrInjective(i, id); }
    }
  }

  /** Creation extends the id map by one fresh pair. */
  lemma CreateIds(live: set<Address>, x: IdMap, y: IdMap, a: Address)
    requires IdsAgree(live, x) && a !in live && a != ZeroAddress() && x.count + 1 < U64 && Created(x, y, a)
    ensures IdsAgree(live + {a}, y)
  {
    AddressRoundTrip(a);
    forall b | b in live ensures HasId(y, b) { assert HasId(x, b); }
    forall i: nat | i < U64 ensures IdLive(live + {a}, y, i) { assert IdLive(live, x, i); }
  }

  /** Deletion takes one pair out of the id map. */
  lemma DeleteIds(live: set<Address>, x: IdMap, y: IdMap, a: Address)
    requires IdsAgree(live, x) && a in live && Deleted(x, y, a)
    ensures IdsAgree(live - {a}, y)
  {
    assert HasId(x, a);
    forall b | b in live - {a} ensures HasId(y, b) {
      assert HasId(x, b);
      if x.idOf(b) == x.idOf(a) { IdsInjective(live, x, a, b); }
    }
    forall i: nat | i < U64 ensures IdLive(live - {a}, y, i) { assert IdLive(live, x, i); }
  }

  /** The one invariant: entities, id map, bitmaps and trees tell one story. */
  ghost predicate Consistent(code: Codes, x: IdMap, ents: map<Address, Entity>, m: Model, lossy: set<Key>) {
    && IndexesAgree(code, m, lossy) && FlagsAgree(m) && ProperModel(m)
    && CodeIs(code, ents) && EntitiesOk(ents)
    && IdsAgree(ents.Keys, x) && ModelIs(m, AnnotationsOf(ents), x)
  }

  lemma Parts(code: Codes, x: IdMap, ents: map<Address, Entity>, m: Model, lossy: set<Key>)
    requires Consistent(code, x, ents, m, lossy)
    ensures IndexesAgree(code, m, lossy) && FlagsAgree(m) && ProperModel(m)
    ensures CodeIs(code, ents) && EntitiesOk(ents)
    ensures IdsAgree(ents.Keys, x) && ModelIs(m, AnnotationsOf(ents), x)
  {}

  /** The part of it that is not about indexes: records and id map. */
  ghost predicate Filed(code: Codes, x: IdMap, ents: map<Address, Entity>) {
    CodeIs(code, ents) && EntitiesOk(ents) && IdsAgree(ents.Keys, x)
  }

  lemma FiledParts(code: Codes, x: IdMap, ents: map<Address, Entity>)
    requires Filed(code, x, ents)
    ensures CodeIs(code, ents) && EntitiesOk(ents) && IdsAgree(ents.Keys, x)
  {}

  lemma FiledWhole(code: Codes, x: IdMap, ents: map<Address, Entity>)
    requires CodeIs(code, ents) && EntitiesOk(ents) && IdsAgree(ents.Keys, x)
    ensures Filed(code, x, ents)
  {}

  lemma Whole(code: Codes, x: IdMap, ents: map<Address, Entity>, m: Model, lossy: set<Key>)
    requires IndexesAgree(code, m, lossy) && FlagsAgree(m) && ProperModel(m)
    requires CodeIs(code, ents) && EntitiesOk(ents)
    requires IdsAgree(ents.Keys, x) && ModelIs(m, AnnotationsOf(ents), x)
    ensures Consistent(code, x, ents, m, lossy)
  {}

  lemma EntityOkUsers(e: Entity, a: Address)
    requires EntityOk(e, a)
    ensures UserAttributes(e.attributes)
  {}

  /** What the model says of a live entity. */
  lemma ModelAt(m: Model, ents: map<Address, Entity>, x: IdMap, a: Address)
    requires ModelIs(m, AnnotationsOf(ents), x) && a in ents
    ensures x.idOf(a) in m && m[x.idOf(a)] == Annotations(ents[a])
  {
    assert AnnotationsOf(ents)[a] == Annotations(ents[a]);
  }

  /** The entity record in the code of its account, if any. */
  function EntityIn(code: Codes, a: Address): Option<Entity> {
    var acc := EntityAccount(a);
    if acc in code && code[acc].EntityCode? then Some(code[acc].entity) else None
  }

  lemma FoundIs(code: Codes, ents: map<Address, Entity>, a: Address)
    requires CodeIs(code, ents) && EntitiesOk(ents)
    ensures EntityIn(code, a) == if a in ents then Some(ents[a]) else None
    ensures a in ents ==> EntityOk(ents[a], a) && UserAttributes(ents[a].attributes)
  {}

  lemma IdBound(st: Storage, a: Address)
    ensures IdOf(st, a) < U64
  {
    Pow256Eight();
    FromBigEndianBound(Read(st, AddrToIdSlot(a))[24..]);
  }

  // ── Operations on the database, as values ────────────────────────────

  datatype Db = Db(code: Codes, storage: Storage, lossy: set<Key>)

  /** The five state changes of the handlers, and a slot write of a nonce. */
  datatype DbOp =
    | CreateOp(record: Entity)
    | UpdateOp(key: B256, block: nat, payload: Key, contentType: Key, attributes: seq<Attribute>)
    | ExtendOp(key: B256, block: nat, expiresAt: nat)
    | TransferOp(key: B256, block: nat, owner: Address)
    | DeleteOp(key: B256)
    | SlotOp(slot: Key, word: B256)
  {
    /** The address of the entity it is about. */
    function Target(): Address
      requires !SlotOp?
    {
      EntityAddress(if CreateOp? then record.key else key)
    }
  }

  function NewEntity(sender: Address, key: B256, expiresAt: nat, block: nat, payload: Key, contentType: Key, attributes: seq<Attribute>): Entity {
    Entity(payload, sender, block, sender, expiresAt, contentType, key, attributes, block)
  }

  function UpdatedEntity(e: Entity, block: nat, payload: Key, contentType: Key, attributes: seq<Attribute>): Entity {
    e.(payload := payload, contentType := contentType, attributes := attributes, lastModified := block)
  }

  /** The record that takes the place of `e`. */
  function NewRecord(e: Entity, op: DbOp): Entity {
    match op
    case UpdateOp(_, block, payload, contentType, attributes) => UpdatedEntity(e, block, payload, contentType, attributes)
    case ExtendOp(_, block, expiresAt) => e.(expiresAt := expiresAt, lastModified := block)
    case TransferOp(_, block, owner) => e.(owner := owner, lastModified := block)
    case CreateOp(r) => r
    case _ => e
  }

  /** What an operation does to the pairs of one id: `gone` without `kept` is
      removed, then `come` without `had` is added. */
  datatype Plan = Plan(id: nat, gone: seq<Annotation>, kept: set<Annotation>, come: seq<Annotation>, had: set<Annotation>)

  /** The plan; none if there is no record to work on. */
  function PlanOf(code: Codes, st: Storage, op: DbOp): Option<Plan> {
    if op.CreateOp? then Some(Plan(EntityCount(st), [], {}, AnnotationList(op.record), {}))
    else if op.SlotOp? then Some(Plan(0, [], {}, [], {}))
    else if EntityIn(code, op.Target()).None? then None
    else Some(PlanFor(EntityIn(code, op.Target()).value, IdOf(st, op.Target()), op))
  }

  /** `apply_annotation_diff`: only what differs is touched. */
  function DiffPlan(id: nat, gone: seq<Annotation>, come: seq<Annotation>): Plan {
    Plan(id, gone, Elements(come), come, Elements(gone))
  }

  function MovePair(id: nat, k: Key, v: Key, w: Key, tier2: bool): Plan {
    Plan(id, [Annotation(k, v, tier2)], {}, [Annotation(k, w, tier2)], {})
  }

  function PlanFor(e: Entity, id: nat, op: DbOp): Plan {
    match op
    case UpdateOp(_, _, _, contentType, attributes) =>
      DiffPlan(id, UpdatableAnnotations(e.contentType, e.attributes), UpdatableAnnotations(contentType, attributes))
    case ExtendOp(_, _, expiresAt) => MovePair(id, ANNOT_EXPIRATION, BigEndian(e.expiresAt, 8), BigEndian(expiresAt, 8), true)
    case TransferOp(_, _, owner) => MovePair(id, ANNOT_OWNER, e.owner, owner, false)
    case DeleteOp(key) => Plan(id, AnnotationList(e.(key := key)), {}, [], {})
    case _ => Plan(id, [], {}, [], {})
  }

  /** Removals, then additions. */
  ghost function Reindex(t: Tiers, plan: Plan): Option<Tiers> {
    var p := DropPairs(t, plan.gone, plan.kept, plan.id);
    if p.None? then None else AddPairs(p.value, plan.come, plan.had, plan.id)
  }

  /** The record written, or the account cleared. */
  function NextCode(c: Codes, c0: Codes, op: DbOp): Codes {
    if op.SlotOp? then c
    else if op.DeleteOp? then c - {EntityAccount(op.Target())}
    else if op.CreateOp? then c[EntityAccount(op.Target()) := EntityCode(op.record)]
    else if EntityIn(c0, op.Target()).None? then c
    else c[EntityAccount(op.Target()) := EntityCode(NewRecord(EntityIn(c0, op.Target()).value, op))]
  }

  function NextStorage(st: Storage, op: DbOp): Storage {
    match op
    case CreateOp(_) => CreateStorage(st, EntityCount(st), op.Target())
    case DeleteOp(_) => DeleteStorage(st, IdOf(st, op.Target()), op.Target())
    case SlotOp(slot, word) => st[slot := word]
    case _ => st
  }

  /** One operation: nothing if there is no record to work on, or a tree on the
      way cannot be read or written. */
  ghost function StepDb(d: Db, op: DbOp): Option<Db> {
    var plan := PlanOf(d.code, d.storage, op);
    if plan.None? then None
    else
      var p := Reindex(Tiers(d.code, d.lossy), plan.value);
      if p.None? then None
      else Some(Db(NextCode(p.value.code, d.code, op), NextStorage(d.storage, op), p.value.lossy))
  }

  /** A run of operations. */
  ghost function RunDb(d: Db, ops: seq<DbOp>): Option<Db> {
    if ops == [] then Some(d)
    else
      var p := RunDb(d, ops[..|ops| - 1]);
      if p.None? then None else StepDb(p.value, ops[|ops| - 1])
  }

  /** The live entities afterwards. */
  ghost function EntsAfter(ents: map<Address, Entity>, op: DbOp): map<Address, Entity> {
    if op.SlotOp? then ents
    else if op.CreateOp? then ents[op.Target() := op.record]
    else if op.DeleteOp? then ents - {op.Target()}
    else if op.Target() in ents then ents[op.Target() := NewRecord(ents[op.Target()], op)]
    else ents
  }

  /** The index model afterwards. */
  ghost function ModelAfter(m: Model, x: IdMap, ents: map<Address, Entity>, op: DbOp): Model {
    if op.SlotOp? then m
    else if op.CreateOp? then m[x.count := Annotations(op.record)]
    else if op.Target() !in ents then m
    else if !op.DeleteOp? then m[x.idOf(op.Target()) := Annotations(NewRecord(ents[op.Target()], op))]
    else if ents[op.Target()].key == op.key then m - {x.idOf(op.Target())}
    else m[x.idOf(op.Target()) := {Annotation(ANNOT_KEY, ents[op.Target()].key, false)}]
  }

  /** What an operation may count on: sizes of numbers, proper attribute names,
      a new entity at a new address, and slot writes outside the id map. */
  ghost predicate Fitting(st: Storage, ents: map<Address, Entity>, op: DbOp) {
    match op
    case CreateOp(e) =>
      EntityOk(e, op.Target()) && op.Target() !in ents && op.Target() != ZeroAddress() && EntityCount(st) + 1 < U64
    case UpdateOp(_, _, _, _, attributes) => UserAttributes(attributes)
    case ExtendOp(_, _, expiresAt) => expiresAt < U64
    case SlotOp(slot, word) => SameIds(Ids(st), Ids(st[slot := word]))
    case _ => true
  }

  /** What the indexes count on as well: no pair gets two tree flags. */
  ghost predicate Allowed(st: Storage, ents: map<Address, Entity>, m: Model, op: DbOp) {
    && Fitting(st, ents, op)
    && (op.CreateOp? ==> FlagsAgree(m[EntityCount(st) := Annotations(op.record)]))
    && (op.UpdateOp? && op.Target() in ents ==>
          FlagsAgree(m[IdOf(st, op.Target()) := Annotations(NewRecord(ents[op.Target()], op))]))
  }

  /** An operation that leaves every pair under one flag is allowed. */
  lemma AllowedBy(st: Storage, ents: map<Address, Entity>, m: Model, op: DbOp)
    requires Fitting(st, ents, op) && FlagsAgree(ModelAfter(m, Ids(st), ents, op))
    ensures Allowed(st, ents, m, op)
  {
    if !op.SlotOp? { IdsRead(st, op.Target()); }
    hide FlagsAgree, Annotations, NewRecord, Fitting, IdOf, EntityCount;
  }

  // ── Every operation keeps the invariant ──────────────────────────────

  lemma StepIs(d: Db, op: DbOp)
    requires StepDb(d, op).Some?
    ensures PlanOf(d.code, d.storage, op).Some?
    ensures var plan := PlanOf(d.code, d.storage, op).value;
      && DropPairs(Tiers(d.code, d.lossy), plan.gone, plan.kept, plan.id).Some?
      && AddPairs(DropPairs(Tiers(d.code, d.lossy), plan.gone, plan.kept, plan.id).value, plan.come, plan.had, plan.id).Some?
      && var q := AddPairs(DropPairs(Tiers(d.code, d.lossy), plan.gone, plan.kept, plan.id).value, plan.come, plan.had, plan.id).value;
      StepDb(d, op).value == Db(NextCode(q.code, d.code, op), NextStorage(d.storage, op), q.lossy)
  {
    hide DropPairs, AddPairs, NextCode, NextStorage, PlanOf;
  }

  /** The index side of one operation, for a plan that is sound for the model. */
  lemma ReindexAgrees(t: Tiers, m: Model, plan: Plan, s: set<Annotation>)
    requires IndexesAgree(t.code, m, t.lossy) && Reindex(t, plan).Some? && plan.id in m && FlagsAgree(m) && FlagsAgree(m[plan.id := s])
    requires (forall a :: a in plan.gone ==> ZeroFree(a.key)) && (forall a :: a in plan.come ==> ZeroFree(a.key))
    requires forall a :: a in Elements(plan.gone) - plan.kept ==> !BitClash(m, plan.id, a)
    requires s == m[plan.id] - (Elements(plan.gone) - plan.kept) + (Elements(plan.come) - plan.had)
    ensures var p := Reindex(t, plan).value;
      IndexesAgree(p.code, m[plan.id := s], p.lossy) && SameEntities(t.code, p.code) && t.lossy <= p.lossy
  {
    var id, gone, come := plan.id, Elements(plan.gone) - plan.kept, Elements(plan.come) - plan.had;
    ReindexIs(t, plan);
    hide *;
    var q := DropPairs(t, plan.gone, plan.kept, id).value;
    DropPairsAgree(t, m, plan.gone, plan.kept, id);
    ReplaceFlags(m, id, gone, come, s);
    AddPairsAgree(q, MinusAll(m, id, gone), plan.come, plan.had, id);
    AroundTwice(t, q, Reindex(t, plan).value);
  }

  lemma ReindexIs(t: Tiers, plan: Plan)
    requires Reindex(t, plan).Some?
    ensures DropPairs(t, plan.gone, plan.kept, plan.id).Some?
    ensures Reindex(t, plan) == AddPairs(DropPairs(t, plan.gone, plan.kept, plan.id).value, plan.come, plan.had, plan.id)
  {
    hide DropPairs, AddPairs;
  }

  lemma AroundTwice(t: Tiers, q: Tiers, p: Tiers)
    requires Around(t, q) && Around(q, p)
    ensures SameEntities(t.code, p.code) && t.lossy <= p.lossy
  {
    SameEntitiesTwice(t.code, q.code, p.code);
  }

  lemma ReplaceFlags(m: Model, id: nat, gone: set<Annotation>, come: set<Annotation>, s: set<Annotation>)
    requires id in m && s == m[id] - gone + come && FlagsAgree(m[id := s])
    ensures Added(MinusAll(m, id, gone), id, come) == m[id := s]
    ensures FlagsAgree(PlusAll(MinusAll(m, id, gone), id, come))
    ensures id in MinusAll(m, id, gone)
  {
    if come == {} { assert m[id] - gone + {} == m[id] - gone; }
    assert PlusAll(MinusAll(m, id, gone), id, come) == m[id := s];
  }

  /** What an id holds it does not hold under the other flag. */
  lemma OwnFlags(m: Model, id: nat, s: set<Annotation>)
    requires id in m && FlagsAgree(m) && s <= m[id]
    ensures forall a :: a in s ==> !BitClash(m, id, a)
  {
    forall a | a in s ensures !BitClash(m, id, a) {
      assert a == Annotation(a.key, a.value, a.tier2);
      CarriedAt(m, id, a);
      if Annotation(a.key, a.value, !a.tier2) in m[id] { CarriedAt(m, id, Annotation(a.key, a.value, !a.tier2)); }
    }
  }

  lemma IdsRead(st: Storage, a: Address)
    ensures Ids(st).idOf(a) == IdOf(st, a) && Ids(st).count == EntityCount(st)
  {}

  lemma CreateKeeps(d: Db, ents: map<Address, Entity>, m: Model, e: Entity)
    requires Consistent(d.code, Ids(d.storage), ents, m, d.lossy) && Allowed(d.storage, ents, m, CreateOp(e))
    requires StepDb(d, CreateOp(e)).Some?
    ensures var p := StepDb(d, CreateOp(e)).value;
      Consistent(p.code, Ids(p.storage), ents[EntityAddress(e.key) := e], m[EntityCount(d.storage) := Annotations(e)], p.lossy)
  {
    var t, id, addr, p := Tiers(d.code, d.lossy), EntityCount(d.storage), EntityAddress(e.key), StepDb(d, CreateOp(e)).value;
    StepIs(d, CreateOp(e));
    NoAnnotations(t, {}, id);
    var q := AddPairs(t, AnnotationList(e), {}, id).value;
    assert p == Db(q.code[EntityAccount(addr) := EntityCode(e)], CreateStorage(d.storage, id, addr), q.lossy);
    hide *;
    CreateAllowed(d.storage, ents, m, e);
    Parts(d.code, Ids(d.storage), ents, m, d.lossy);
    IdsRead(d.storage, addr);
    CreateReads(d.storage, addr);
    EntityOkUsers(e, addr);
    ProperEntity(e);
    AnnotationsAdded(ents, addr, e);
    FreshId(m, AnnotationsOf(ents), Ids(d.storage));
    FirstIndexing(m, id, e);
    AddPairsAgree(t, m, AnnotationList(e), {}, id);
    AroundTwice(t, t, q);
    EntityAdded(d.code, q.code, Ids(d.storage), Ids(p.storage), ents, m, q.lossy, addr, e, Annotations(e));
  }

  lemma CreateAllowed(st: Storage, ents: map<Address, Entity>, m: Model, e: Entity)
    requires Allowed(st, ents, m, CreateOp(e))
    ensures var a := EntityAddress(e.key);
      EntityOk(e, a) && a !in ents && a != ZeroAddress() && EntityCount(st) + 1 < U64 && FlagsAgree(m[EntityCount(st) := Annotations(e)])
  {}

  /** Indexing a new entity from scratch. */
  lemma FirstIndexing(m: Model, id: nat, e: Entity)
    requires id !in m && FlagsAgree(m[id := Annotations(e)]) && Annotations(e) != {}
    ensures Added(m, id, Elements(AnnotationList(e)) - {}) == m[id := Annotations(e)]
    ensures FlagsAgree(PlusAll(m, id, Elements(AnnotationList(e)) - {}))
  {
    assert {} + (Annotations(e) - {}) == Annotations(e);
    assert Annotations(e) - {} == Annotations(e);
  }

  /** The plan of a change to a live entity, against the model. */
  ghost predicate PlanFits(m: Model, plan: Plan, e: Entity, e': Entity, a: Address) {
    && EntityOk(e', a) && plan.id in m && m[plan.id] == Annotations(e)
    && (forall a :: a in plan.gone ==> ZeroFree(a.key)) && (forall a :: a in plan.come ==> ZeroFree(a.key))
    && Elements(plan.gone) - plan.kept <= Annotations(e)
    && Annotations(e') == Annotations(e) - (Elements(plan.gone) - plan.kept) + (Elements(plan.come) - plan.had)
    && FlagsAgree(m[plan.id := Annotations(e')])
  }

  lemma FitsParts(m: Model, plan: Plan, e: Entity, e': Entity, a: Address)
    requires PlanFits(m, plan, e, e', a)
    ensures EntityOk(e', a) && plan.id in m && m[plan.id] == Annotations(e) && FlagsAgree(m[plan.id := Annotations(e')])
    ensures (forall a :: a in plan.gone ==> ZeroFree(a.key)) && (forall a :: a in plan.come ==> ZeroFree(a.key))
    ensures Elements(plan.gone) - plan.kept <= Annotations(e)
    ensures Annotations(e') == Annotations(e) - (Elements(plan.gone) - plan.kept) + (Elements(plan.come) - plan.had)
  {}

  lemma ChangeFits(d: Db, ents: map<Address, Entity>, m: Model, op: DbOp)
    requires Consistent(d.code, Ids(d.storage), ents, m, d.lossy) && Allowed(d.storage, ents, m, op)
    requires (op.UpdateOp? || op.ExtendOp? || op.TransferOp?) && op.Target() in ents
    ensures var e := ents[op.Target()];
      PlanFits(m, PlanFor(e, IdOf(d.storage, op.Target()), op), e, NewRecord(e, op), op.Target())
  {
    var a, e, id := op.Target(), ents[op.Target()], IdOf(d.storage, op.Target());
    if op.UpdateOp? { UpdateAllowed(d.storage, ents, m, op); } else { MovePlan(op); }
    if op.UpdateOp? { UpdatePlan(op); }
    ExtendAllowed(d.storage, ents, m, op);
    hide *;
    Parts(d.code, Ids(d.storage), ents, m, d.lossy);
    FoundIs(d.code, ents, a);
    IdsRead(d.storage, a);
    ModelAt(m, ents, Ids(d.storage), a);
    if op.UpdateOp? {
      UpdateFits(m, id, e, a, op);
    } else if op.ExtendOp? {
      ExtendSets(e, a, op.expiresAt, op.block);
      MoveFits(m, id, e, NewRecord(e, op), a, ANNOT_EXPIRATION, BigEndian(e.expiresAt, 8), BigEndian(op.expiresAt, 8), true);
    } else {
      TransferSets(e, a, op.owner, op.block);
      MoveFits(m, id, e, NewRecord(e, op), a, ANNOT_OWNER, e.owner, op.owner, false);
    }
  }

  lemma UpdateAllowed(st: Storage, ents: map<Address, Entity>, m: Model, op: DbOp)
    requires Allowed(st, ents, m, op) && op.UpdateOp? && op.Target() in ents
    ensures UserAttributes(op.attributes) && FlagsAgree(m[IdOf(st, op.Target()) := Annotations(NewRecord(ents[op.Target()], op))])
  {
    hide FlagsAgree, Annotations, IdOf;
  }

  lemma ExtendAllowed(st: Storage, ents: map<Address, Entity>, m: Model, op: DbOp)
    requires Allowed(st, ents, m, op)
    ensures op.ExtendOp? ==> op.expiresAt < U64
  {
    hide FlagsAgree, Annotations, IdOf;
  }

  lemma UpdateFits(m: Model, id: nat, e: Entity, a: Address, op: DbOp)
    requires op.UpdateOp? && EntityOk(e, a) && UserAttributes(op.attributes) && id in m && m[id] == Annotations(e)
    requires FlagsAgree(m[id := Annotations(NewRecord(e, op))])
    ensures PlanFits(m, PlanFor(e, id, op), e, NewRecord(e, op), a)
  {
    hide Annotations, FlagsAgree, UpdatableAnnotations, EntityOk;
    UpdateSets(e, a, op.block, op.payload, op.contentType, op.attributes);
  }

  lemma MoveFits(m: Model, id: nat, e: Entity, e': Entity, addr: Address, k: Key, v: Key, w: Key, tier2: bool)
    requires id in m && m[id] == Annotations(e) && FlagsAgree(m) && ProperModel(m) && EntityOk(e', addr)
    requires Dollar(k) && Proper(Annotation(k, v, tier2)) && Annotation(k, v, tier2) in Annotations(e)
    requires Annotations(e') == Annotations(e) - {Annotation(k, v, tier2)} + {Annotation(k, w, tier2)}
    ensures PlanFits(m, MovePair(id, k, v, w, tier2), e, e', addr)
  {
    var a, b := Annotation(k, v, tier2), Annotation(k, w, tier2);
    hide Annotations, EntityOk;
    assert Elements([a]) == {a} && Elements([b]) == {b};
    assert {a} - {} == {a} && {b} - {} == {b};
    MoveFlags(m, id, a, b);
  }

  lemma MoveFlags(m: Model, id: nat, a: Annotation, b: Annotation)
    requires id in m && FlagsAgree(m) && ProperModel(m) && Dollar(b.key) && Proper(a) && a.key == b.key && a.tier2 == b.tier2
    ensures FlagsAgree(m[id := m[id] - {a} + {b}])
  {
    CarriedMinus(m, id, a);
    var n := Minus(m, id, a);
    assert Carried(n) <= Carried(m);
    FlagsSubset(n, m);
    FlagsPlusDollar(n, id, b);
    assert Plus(n, id, b) == m[id := m[id] - {a} + {b}];
  }

  lemma ChangeKeeps(d: Db, ents: map<Address, Entity>, m: Model, op: DbOp)
    requires Consistent(d.code, Ids(d.storage), ents, m, d.lossy) && Allowed(d.storage, ents, m, op)
    requires (op.UpdateOp? || op.ExtendOp? || op.TransferOp?) && StepDb(d, op).Some?
    ensures op.Target() in ents && StepDb(d, op).value.storage == d.storage
    ensures var a, p := op.Target(), StepDb(d, op).value;
      Consistent(p.code, Ids(p.storage), ents[a := NewRecord(ents[a], op)],
                 m[IdOf(d.storage, a) := Annotations(NewRecord(ents[a], op))], p.lossy)
  {
    var t, a, p := Tiers(d.code, d.lossy), op.Target(), StepDb(d, op).value;
    StepIs(d, op);
    var plan := PlanOf(d.code, d.storage, op).value;
    Parts(d.code, Ids(d.storage), ents, m, d.lossy);
    FoundIs(d.code, ents, a);
    var e, e' := ents[a], NewRecord(ents[a], op);
    var q := Reindex(t, plan).value;
    assert p == Db(q.code[EntityAccount(a) := EntityCode(e')], d.storage, q.lossy);
    hide *;
    ChangeFits(d, ents, m, op);
    FitsParts(m, plan, e, e', a);
    OwnFlags(m, plan.id, Elements(plan.gone) - plan.kept);
    ReindexAgrees(t, m, plan, Annotations(e'));
    IdsRead(d.storage, a);
    EntityChanged(d.code, q.code, Ids(d.storage), ents, m, q.lossy, a, e', Annotations(e'), m[plan.id := Annotations(e')]);
  }

  /** What a deletion with key `key` takes from the index. */
  lemma DeletionSet(m: Model, id: nat, e: Entity, addr: Address, key: B256)
    requires EntityOk(e, addr) && FlagsAgree(m) && ProperModel(m) && id in m && m[id] == Annotations(e)
    ensures var r := Elements(AnnotationList(e.(key := key))) - {};
      && (forall a :: a in r ==> !BitClash(m, id, a))
      && MinusAll(m, id, r) == m[id := if key == e.key then {} else {Annotation(ANNOT_KEY, e.key, false)}]
    ensures forall a :: a in AnnotationList(e.(key := key)) ==> ZeroFree(a.key)
    ensures Annotation(ANNOT_KEY, e.key, false) in m[id]
  {
    var e' := e.(key := key);
    var a, b := Annotation(ANNOT_KEY, e.key, false), Annotation(ANNOT_KEY, key, false);
    DollarKeys();
    ProperEntity(e');
    OneMoved(e, e', 4);
    var r := Annotations(e');
    assert r - {} == r;
    assert AnnotationList(e)[4] == a && a in Annotations(e);
    if key == e.key { assert e' == e && m[id] - r == {}; } else { assert m[id] - r == {a}; }
    OwnFlags(m, id, m[id]);
    forall y | y in r ensures !BitClash(m, id, y) {
      if y == b && Annotation(b.key, b.value, true) in m[id] { CarriedAt(m, id, Annotation(b.key, b.value, true)); }
    }
  }

  lemma DeleteKeeps(d: Db, ents: map<Address, Entity>, m: Model, key: B256)
    requires Consistent(d.code, Ids(d.storage), ents, m, d.lossy) && StepDb(d, DeleteOp(key)).Some?
    ensures EntityAddress(key) in ents
    ensures var p := StepDb(d, DeleteOp(key)).value;
      Consistent(p.code, Ids(p.storage), ents - {EntityAddress(key)}, ModelAfter(m, Ids(d.storage), ents, DeleteOp(key)), p.lossy)
  {
    var t, op, a, p := Tiers(d.code, d.lossy), DeleteOp(key), EntityAddress(key), StepDb(d, DeleteOp(key)).value;
    StepIs(d, op);
    Parts(d.code, Ids(d.storage), ents, m, d.lossy);
    FoundIs(d.code, ents, a);
    var e, id, x := ents[a], IdOf(d.storage, a), Ids(d.storage);
    var q := DropPairs(t, AnnotationList(e.(key := key)), {}, id).value;
    NoAnnotations(q, {}, id);
    assert p == Db(q.code - {EntityAccount(a)}, DeleteStorage(d.storage, id, a), q.lossy);
    DeletedModel(m, x, ents, key);
    hide *;
    IdsRead(d.storage, a);
    IdBound(d.storage, a);
    DeleteReads(d.storage, a);
    ModelAt(m, ents, x, a);
    DeletionSet(m, id, e, a, key);
    DropPairsAgree(t, m, AnnotationList(e.(key := key)), {}, id);
    AroundTwice(t, t, q);
    if e.key == key {
      EntityRemoved(d.code, q.code, x, Ids(p.storage), ents, m, q.lossy, a);
    } else {
      EntityLeft(d.code, q.code, x, Ids(p.storage), ents, m, q.lossy, a, e.key);
    }
  }

  lemma DeletedModel(m: Model, x: IdMap, ents: map<Address, Entity>, key: B256)
    requires EntityAddress(key) in ents
    ensures var e, id := ents[EntityAddress(key)], x.idOf(EntityAddress(key));
      ModelAfter(m, x, ents, DeleteOp(key)) ==
        if e.key == key then m[id := {}] - {id} else m[id := {Annotation(ANNOT_KEY, e.key, false)}]
  {
    var id := x.idOf(EntityAddress(key));
    assert m[id := {}] - {id} == m - {id};
  }

  /** Every operation keeps the invariant, and works only on a live entity. */
  lemma StepKeeps(d: Db, ents: map<Address, Entity>, m: Model, op: DbOp)
    requires Consistent(d.code, Ids(d.storage), ents, m, d.lossy) && Allowed(d.storage, ents, m, op) && StepDb(d, op).Some?
    ensures var p := StepDb(d, op).value;
      Consistent(p.code, Ids(p.storage), EntsAfter(ents, op), ModelAfter(m, Ids(d.storage), ents, op), p.lossy)
    ensures op.CreateOp? || op.SlotOp? || op.Target() in ents
  {
    if op.SlotOp? {
      SlotIs(d, op.slot, op.word);
      SameIdsConsistent(d.code, Ids(d.storage), Ids(d.storage[op.slot := op.word]), ents, m, d.lossy);
    } else if op.CreateOp? {
      IdsRead(d.storage, op.Target());
      hide Consistent, Allowed, StepDb, Annotations;
      CreateKeeps(d, ents, m, op.record);
    } else if op.DeleteOp? {
      hide Consistent, Allowed, StepDb, Annotations;
      DeleteKeeps(d, ents, m, op.key);
    } else {
      IdsRead(d.storage, op.Target());
      hide Consistent, Allowed, StepDb, Annotations;
      ChangeKeeps(d, ents, m, op);
    }
  }

  lemma SlotIs(d: Db, slot: Key, word: B256)
    ensures StepDb(d, SlotOp(slot, word)) == Some(d.(storage := d.storage[slot := word]))
  {
    NoAnnotations(Tiers(d.code, d.lossy), {}, 0);
  }

  // ── Records and ids, whatever the indexes say ────────────────────────

  lemma ReindexAside(t: Tiers, plan: Plan)
    requires Reindex(t, plan).Some?
    ensures SameEntities(t.code, Reindex(t, plan).value.code)
  {
    ReindexIs(t, plan);
    hide AddPairs, DropPairs, Reindex, SameEntities;
    var q := DropPairs(t, plan.gone, plan.kept, plan.id).value;
    AllAside(t, plan.gone, plan.kept, plan.id);
    AllAside(q, plan.come, plan.had, plan.id);
    SameEntitiesTwice(t.code, q.code, Reindex(t, plan).value.code);
  }

  /** Every operation keeps records and id map, whether or not some pair has got
      two tree flags. */
  lemma StepFiles(d: Db, ents: map<Address, Entity>, op: DbOp)
    requires Filed(d.code, Ids(d.storage), ents) && Fitting(d.storage, ents, op) && StepDb(d, op).Some?
    ensures var p := StepDb(d, op).value;
      Filed(p.code, Ids(p.storage), EntsAfter(ents, op)) && p.storage == NextStorage(d.storage, op)
    ensures op.CreateOp? || op.SlotOp? || op.Target() in ents
  {
    var p, plan := StepDb(d, op).value, PlanOf(d.code, d.storage, op).value;
    var t, q := Tiers(d.code, d.lossy), Reindex(Tiers(d.code, d.lossy), plan).value;
    assert p == Db(NextCode(q.code, d.code, op), NextStorage(d.storage, op), q.lossy);
    hide Reindex, StepDb, Filed, NextCode, NextStorage, CodeIs, EntitiesOk, IdsAgree;
    ReindexAside(t, plan);
    FiledParts(d.code, Ids(d.storage), ents);
    if !op.CreateOp? && !op.SlotOp? { FoundIs(d.code, ents, op.Target()); }
    if op.SlotOp? {
      SlotFiled(d, q.code, ents, op);
    } else if op.CreateOp? {
      CreateFiled(d, q.code, ents, op);
    } else if op.DeleteOp? {
      DeleteFiled(d, q.code, ents, op);
    } else {
      ChangeFiled(d, q.code, ents, op);
    }
  }

  /** The record under `a` is now `e`, and no other record has changed. */
  ghost predicate Recorded(c0: Codes, c: Codes, a: Address, e: Option<Entity>) {
    EntityIn(c, a) == e && forall b: Address :: b != a ==> EntityIn(c, b) == EntityIn(c0, b)
  }

  /** Which record each operation writes, field by field. */
  lemma StepWrites(d: Db, op: DbOp)
    requires StepDb(d, op).Some? && !op.SlotOp?
    ensures var c, a := StepDb(d, op).value.code, op.Target();
      && (op.CreateOp? ==> Recorded(d.code, c, a, Some(op.record)))
      && (op.DeleteOp? ==> Recorded(d.code, c, a, None))
      && (!op.CreateOp? ==> EntityIn(d.code, a).Some?)
    ensures !op.CreateOp? && !op.DeleteOp? ==>
      var c, e := StepDb(d, op).value.code, EntityIn(d.code, op.Target()).value;
      Recorded(d.code, c, op.Target(), Some(
        match op
        case UpdateOp(_, block, payload, contentType, attributes) =>
          Entity(payload, e.creator, e.createdAt, e.owner, e.expiresAt, contentType, e.key, attributes, block)
        case ExtendOp(_, block, expiresAt) =>
          Entity(e.payload, e.creator, e.createdAt, e.owner, expiresAt, e.contentType, e.key, e.attributes, block)
        case TransferOp(_, block, owner) =>
          Entity(e.payload, e.creator, e.createdAt, owner, e.expiresAt, e.contentType, e.key, e.attributes, block)
        case _ => e))
  {
    var plan := PlanOf(d.code, d.storage, op).value;
    var q := Reindex(Tiers(d.code, d.lossy), plan).value;
    assert StepDb(d, op).value.code == NextCode(q.code, d.code, op);
    ReindexAside(Tiers(d.code, d.lossy), plan);
    hide Reindex, StepDb;
  }

  lemma SlotFiled(d: Db, c: Codes, ents: map<Address, Entity>, op: DbOp)
    requires Filed(d.code, Ids(d.storage), ents) && op.SlotOp? && Fitting(d.storage, ents, op) && SameEntities(d.code, c)
    ensures Filed(NextCode(c, d.code, op), Ids(NextStorage(d.storage, op)), EntsAfter(ents, op))
  {
    CountBound(ents.Keys, Ids(d.storage));
    SameIdsAgree(ents.Keys, Ids(d.storage), Ids(d.storage[op.slot := op.word]));
  }

  lemma CreateNext(d: Db, c: Codes, ents: map<Address, Entity>, op: DbOp)
    requires op.CreateOp? && Fitting(d.storage, ents, op)
    ensures NextCode(c, d.code, op) == c[EntityAccount(op.Target()) := EntityCode(op.record)]
    ensures NextStorage(d.storage, op) == CreateStorage(d.storage, EntityCount(d.storage), op.Target())
    ensures EntsAfter(ents, op) == ents[op.Target() := op.record]
    ensures EntityOk(op.record, op.Target()) && op.Target() !in ents && op.Target() != ZeroAddress() && EntityCount(d.storage) + 1 < U64
  {
    hide CreateStorage, EntityCount, EntityOk;
  }

  lemma CreateFiled(d: Db, c: Codes, ents: map<Address, Entity>, op: DbOp)
    requires Filed(d.code, Ids(d.storage), ents) && op.CreateOp? && Fitting(d.storage, ents, op) && SameEntities(d.code, c)
    ensures Filed(NextCode(c, d.code, op), Ids(NextStorage(d.storage, op)), EntsAfter(ents, op))
  {
    var a, e, st := op.Target(), op.record, d.storage;
    IdsRead(st, a);
    CreateNext(d, c, ents, op);
    hide *;
    FiledParts(d.code, Ids(st), ents);
    CreateReads(st, a);
    CreateIds(ents.Keys, Ids(st), Ids(CreateStorage(st, EntityCount(st), a)), a);
    CodeAdded(d.code, c, ents, a, e);
    EntitiesAdded(ents, a, e);
    assert ents[a := e].Keys == ents.Keys + {a};
    FiledWhole(c[EntityAccount(a) := EntityCode(e)], Ids(CreateStorage(st, EntityCount(st), a)), ents[a := e]);
  }

  lemma DeleteFiled(d: Db, c: Codes, ents: map<Address, Entity>, op: DbOp)
    requires Filed(d.code, Ids(d.storage), ents) && op.DeleteOp? && op.Target() in ents && SameEntities(d.code, c)
    ensures Filed(NextCode(c, d.code, op), Ids(NextStorage(d.storage, op)), EntsAfter(ents, op))
  {
    var a, st := op.Target(), d.storage;
    IdBound(st, a);
    hide Filed, CodeIs, EntitiesOk, IdsAgree, SameEntities, DeleteStorage, Ids, Deleted, IdOf;
    FiledParts(d.code, Ids(st), ents);
    DeleteReads(st, a);
    DeleteIds(ents.Keys, Ids(st), Ids(DeleteStorage(st, IdOf(st, a), a)), a);
    CodeRemoved(d.code, c, ents, a);
    EntitiesRemoved(ents, a);
    assert (ents - {a}).Keys == ents.Keys - {a};
    FiledWhole(c - {EntityAccount(a)}, Ids(DeleteStorage(st, IdOf(st, a), a)), ents - {a});
  }

  lemma ChangeFiled(d: Db, c: Codes, ents: map<Address, Entity>, op: DbOp)
    requires Filed(d.code, Ids(d.storage), ents) && (op.UpdateOp? || op.ExtendOp? || op.TransferOp?) && op.Target() in ents
    requires Fitting(d.storage, ents, op) && SameEntities(d.code, c)
    ensures Filed(NextCode(c, d.code, op), Ids(NextStorage(d.storage, op)), EntsAfter(ents, op))
  {
    var a, e := op.Target(), NewRecord(ents[op.Target()], op);
    FoundIs(d.code, ents, a);
    assert EntityOk(e, a);
    hide Filed, CodeIs, EntitiesOk, IdsAgree, SameEntities, Ids, EntityOk, NewRecord;
    FiledParts(d.code, Ids(d.storage), ents);
    CodeAdded(d.code, c, ents, a, e);
    EntitiesAdded(ents, a, e);
    assert ents[a := e].Keys == ents.Keys;
    FiledWhole(c[EntityAccount(a) := EntityCode(e)], Ids(d.storage), ents[a := e]);
  }

  // ── No operation fails on its trees ──────────────────────────────────

  /** Content type and ordered attribute values have at most 255 bytes. */
  predicate ShortValues(contentType: Key, attributes: seq<Attribute>) {
    |contentType| <= 255 && forall i :: 0 <= i < |attributes| && attributes[i].valueType != ATTR_ENTITY_KEY ==> |attributes[i].value| <= 255
  }

  predicate ShortOp(op: DbOp) {
    match op
    case CreateOp(e) => ShortValues(e.contentType, e.attributes)
    case UpdateOp(_, _, _, contentType, attributes) => ShortValues(contentType, attributes)
    case _ => true
  }

  lemma ShortPlan(code: Codes, st: Storage, op: DbOp)
    requires ShortOp(op) && PlanOf(code, st, op).Some?
    ensures forall a :: a in PlanOf(code, st, op).value.come ==> Short(a)
  {}

  lemma RecordReads(c: Codes, c0: Codes, op: DbOp)
    requires Readable(c)
    ensures Readable(NextCode(c, c0, op))
  {
    var d := NextCode(c, c0, op);
    forall k ensures TreeAt(d, k).Some? && Sound(TreeAt(d, k).value.root, 255) {
      assert TreeAt(d, k) == TreeAt(c, k);
    }
  }

  /** On readable trees an operation fails only for want of a record, and all
      trees stay readable. */
  lemma StepReads(d: Db, op: DbOp)
    requires Readable(d.code) && ShortOp(op)
    ensures StepDb(d, op).Some? <==> PlanOf(d.code, d.storage, op).Some?
    ensures StepDb(d, op).Some? ==> Readable(StepDb(d, op).value.code)
  {
    if PlanOf(d.code, d.storage, op).Some? {
      var t, plan := Tiers(d.code, d.lossy), PlanOf(d.code, d.storage, op).value;
      ShortPlan(d.code, d.storage, op);
      hide Readable, DropPairs, AddPairs, NextCode, NextStorage, PlanOf, ShortOp;
      DropPairsRead(t, plan.gone, plan.kept, plan.id);
      var p := DropPairs(t, plan.gone, plan.kept, plan.id).value;
      AddPairsRead(p, plan.come, plan.had, plan.id);
      RecordReads(AddPairs(p, plan.come, plan.had, plan.id).value.code, d.code, op);
    }
  }

  // ── The database ─────────────────────────────────────────────────────

  class StateDb {
    var code: Codes
    var storage: Storage
    /** Keys whose tree has gone through a write that was not exact: a growth
        that dropped a branch, a removal that left a hole or passed on a wrong
        counter, a value over 255 bytes, or 2^32 values. */
    ghost var lossy: set<Key>
    /** The live entities by address, and their annotations by id. */
    ghost var ents: map<Address, Entity>
    ghost var model: Model

    constructor ()
      ensures Consistent(code, Ids(storage), ents, model, lossy) && Readable(code)
      ensures ents == map[] && model == map[] && lossy == {} && code == map[] && storage == map[]
    {
      code, storage := map[], map[];
      ents, model, lossy := map[], map[], {};
      new;
      EmptyConsistent();
    }

    ghost function State(): Db
      reads this
    {
      Db(code, storage, lossy)
    }

    // ── Index maintenance ──────────────────────────────────────────────

    /** Read the tree of `k`, insert `v`, write it back. */
    method TreeInsertValue(k: Key, v: Key) returns (ok: bool)
      modifies this`code, this`lossy
      ensures ok <==> InsertTree(Tiers(old(code), old(lossy)), k, v).Some?
      ensures ok ==> InsertTree(Tiers(old(code), old(lossy)), k, v) == Some(Tiers(code, lossy))
      ensures !ok ==> code == old(code) && lossy == old(lossy)
    {
      var t := TreeAt(code, k);
      if t.None? { return false; }
      var r := TreeInsert(t.value, v).0;
      if !Writable(r.root) { return false; }
      if !InsertClean(t.value, v) { lossy := lossy + {k}; }
      code := code[IndexAccount(k) := Index(ToBytes(r))];
      ok := true;
    }

    /** Read the tree of `k`, remove `v`, write it back or clear the account. */
    method TreeRemoveValue(k: Key, v: Key) returns (ok: bool)
      modifies this`code, this`lossy
      ensures ok <==> RemoveTree(Tiers(old(code), old(lossy)), k, v).Some?
      ensures ok ==> RemoveTree(Tiers(old(code), old(lossy)), k, v) == Some(Tiers(code, lossy))
      ensures !ok ==> code == old(code) && lossy == old(lossy)
    {
      var t := TreeAt(code, k);
      if t.None? { return false; }
      var r := TreeRemove(t.value, v).0;
      if r.len == 0 {
        code := code - {IndexAccount(k)};
      } else {
        if !Writable(r.root) { return false; }
        if !RemoveClean(t.value, v) { lossy := lossy + {k}; }
        code := code[IndexAccount(k) := Index(ToBytes(r))];
      }
      ok := true;
    }

    /** Add `id` to a pair, and the value to its tree if it is new there. */
    method InsertIntoIndexes(k: Key, v: Key, id: nat, tier2: bool) returns (ok: bool)
      modifies this`code, this`lossy
      ensures ok <==> AddPair(Tiers(old(code), old(lossy)), Annotation(k, v, tier2), id).Some?
      ensures ok ==> AddPair(Tiers(old(code), old(lossy)), Annotation(k, v, tier2), id) == Some(Tiers(code, lossy))
    {
      hide *;
      AddPairIs(Tiers(code, lossy), Annotation(k, v, tier2), id);
      var bitmap := Bits(code, k, v);
      var wasEmpty := bitmap == {};
      bitmap := bitmap + {id};
      code := code[PairAccount(k, v) := Bitmap(bitmap)];
      ok := true;
      if tier2 && wasEmpty { ok := TreeInsertValue(k, v); }
    }

    /** Drop `id` from a pair, and the value from its tree if it was the last;
        the pair need not be there. */
    method RemoveFromIndexes(k: Key, v: Key, id: nat, tier2: bool) returns (ok: bool)
      modifies this`code, this`lossy
      ensures ok <==> DropPair(Tiers(old(code), old(lossy)), Annotation(k, v, tier2), id).Some?
      ensures ok ==> DropPair(Tiers(old(code), old(lossy)), Annotation(k, v, tier2), id) == Some(Tiers(code, lossy))
    {
      hide *;
      DropPairIs(Tiers(code, lossy), Annotation(k, v, tier2), id);
      var bitmap := Bits(code, k, v);
      if bitmap == {} { return true; }
      bitmap := bitmap - {id};
      code := code[PairAccount(k, v) := Bitmap(bitmap)];
      ok := true;
      if tier2 && bitmap == {} { ok := TreeRemoveValue(k, v); }
    }

    /** Insert every annotation of `anns` that is not in `skip`. */
    method IndexAll(anns: seq<Annotation>, skip: set<Annotation>, id: nat) returns (ok: bool)
      modifies this`code, this`lossy
      ensures ok <==> AddPairs(Tiers(old(code), old(lossy)), anns, skip, id).Some?
      ensures ok ==> AddPairs(Tiers(old(code), old(lossy)), anns, skip, id) == Some(Tiers(code, lossy))
    {
      hide *;
      ghost var t := Tiers(code, lossy);
      NoAnnotations(t, skip, id);
      assert anns[..0] == [];
      for i := 0 to |anns|
        invariant AddPairs(t, anns[..i], skip, id) == Some(Tiers(code, lossy))
      {
        var a := anns[i];
        PairsAt(t, anns, skip, id, i);
        if a !in skip {
          assert a == Annotation(a.key, a.value, a.tier2);
          ok := InsertIntoIndexes(a.key, a.value, id, a.tier2);
          if !ok {
            PairsFail(t, anns, skip, id, i + 1);
            return;
          }
        }
      }
      assert anns[..|anns|] == anns;
      ok := true;
    }

    /** Remove every annotation of `anns` that is not in `skip`. */
    method UnindexAll(anns: seq<Annotation>, skip: set<Annotation>, id: nat) returns (ok: bool)
      modifies this`code, this`lossy
      ensures ok <==> DropPairs(Tiers(old(code), old(lossy)), anns, skip, id).Some?
      ensures ok ==> DropPairs(Tiers(old(code), old(lossy)), anns, skip, id) == Some(Tiers(code, lossy))
    {
      hide *;
      ghost var t := Tiers(code, lossy);
      NoAnnotations(t, skip, id);
      assert anns[..0] == [];
      for i := 0 to |anns|
        invariant DropPairs(t, anns[..i], skip, id) == Some(Tiers(code, lossy))
      {
        var a := anns[i];
        PairsAt(t, anns, skip, id, i);
        if a !in skip {
          assert a == Annotation(a.key, a.value, a.tier2);
          ok := RemoveFromIndexes(a.key, a.value, id, a.tier2);
          if !ok {
            PairsFail(t, anns, skip, id, i + 1);
            return;
          }
        }
      }
      assert anns[..|anns|] == anns;
      ok := true;
    }

    // ── Handlers ───────────────────────────────────────────────────────

    /** Take the next id and map it to `addr`, both ways. */
    method AllocateId(addr: Address) returns (id: nat)
      requires EntityCount(storage) + 1 < U64
      modifies this`storage
      ensures id == EntityCount(old(storage)) && storage == CreateStorage(old(storage), id, addr)
    {
      id := EntityCount(storage);
      storage := storage[COUNT_SLOT := U64ToStorage(id + 1)];
      storage := storage[IdToAddrSlot(id) := AddressToStorage(addr)];
      storage := storage[AddrToIdSlot(addr) := U64ToStorage(id)];
    }

    method Create(sender: Address, entityKey: B256, expiresAt: nat, currentBlock: nat,
                  payload: Key, contentType: Key, attributes: seq<Attribute>) returns (ok: bool)
      requires EntityCount(storage) + 1 < U64
      modifies this
      ensures ok <==> StepDb(old(State()), CreateOp(NewEntity(sender, entityKey, expiresAt, currentBlock, payload, contentType, attributes))).Some?
      ensures ok ==> StepDb(old(State()), CreateOp(NewEntity(sender, entityKey, expiresAt, currentBlock, payload, contentType, attributes))) == Some(State())
      ensures ok ==> ents == EntsAfter(old(ents), CreateOp(NewEntity(sender, entityKey, expiresAt, currentBlock, payload, contentType, attributes))) && model == ModelAfter(old(model), Ids(old(storage)), old(ents), CreateOp(NewEntity(sender, entityKey, expiresAt, currentBlock, payload, contentType, attributes)))
      ensures ok ==> Recorded(old(code), code, EntityAddress(entityKey), Some(
        Entity(payload, sender, currentBlock, sender, expiresAt, contentType, entityKey, attributes, currentBlock)))
    {
      hide *;
      var e := NewEntity(sender, entityKey, expiresAt, currentBlock, payload, contentType, attributes);
      ghost var d, op := State(), CreateOp(e);
      StateIs(this);
      CreateIs(d, e);
      NewKey(sender, entityKey, expiresAt, currentBlock, payload, contentType, attributes);
      var addr := EntityAddress(entityKey);
      var id := AllocateId(addr);
      ok := IndexAll(AnnotationList(e), {}, id);
      if !ok { return; }
      code := code[EntityAccount(addr) := EntityCode(e)];
      ents, model := EntsAfter(ents, op), ModelAfter(model, Ids(old(storage)), ents, op);
      StateIs(this);
      TargetIs(op);
      StepWrites(d, op);
    }

    method Update(entityKey: B256, currentBlock: nat, payload: Key, contentType: Key, attributes: seq<Attribute>)
      returns (ok: bool)
      modifies this
      ensures ok <==> StepDb(old(State()), UpdateOp(entityKey, currentBlock, payload, contentType, attributes)).Some?
      ensures ok ==> StepDb(old(State()), UpdateOp(entityKey, currentBlock, payload, contentType, attributes)) == Some(State())
      ensures ok ==> ents == EntsAfter(old(ents), UpdateOp(entityKey, currentBlock, payload, contentType, attributes)) && model == ModelAfter(old(model), Ids(old(storage)), old(ents), UpdateOp(entityKey, currentBlock, payload, contentType, attributes))
      ensures EntityIn(old(code), EntityAddress(entityKey)).None? ==> unchanged(this)
      ensures ok ==> EntityIn(old(code), EntityAddress(entityKey)).Some?
      ensures ok ==>
        var e := EntityIn(old(code), EntityAddress(entityKey)).value;
        Recorded(old(code), code, EntityAddress(entityKey), Some(
          Entity(payload, e.creator, e.createdAt, e.owner, e.expiresAt, contentType, e.key, attributes, currentBlock)))
    {
      hide *;
      ghost var d, op := State(), UpdateOp(entityKey, currentBlock, payload, contentType, attributes);
      StateIs(this);
      ChangeIs(d, op);
      UpdatePlan(op);
      var addr := EntityAddress(entityKey);
      var id := IdOf(storage, addr);
      var found := EntityIn(code, addr);
      if found == None { return false; }
      var e := found.value;
      var oldAnns := UpdatableAnnotations(e.contentType, e.attributes);
      var newAnns := UpdatableAnnotations(contentType, attributes);
      ok := UnindexAll(oldAnns, Elements(newAnns), id);
      if !ok { return; }
      ok := IndexAll(newAnns, Elements(oldAnns), id);
      if !ok { return; }
      code := code[EntityAccount(addr) := EntityCode(UpdatedEntity(e, currentBlock, payload, contentType, attributes))];
      ents, model := EntsAfter(ents, op), ModelAfter(model, Ids(old(storage)), ents, op);
      StateIs(this);
      StepWrites(d, op);
    }

    method Extend(entityKey: B256, currentBlock: nat, newExpiresAt: nat) returns (ok: bool)
      modifies this
      ensures ok <==> StepDb(old(State()), ExtendOp(entityKey, currentBlock, newExpiresAt)).Some?
      ensures ok ==> StepDb(old(State()), ExtendOp(entityKey, currentBlock, newExpiresAt)) == Some(State())
      ensures ok ==> ents == EntsAfter(old(ents), ExtendOp(entityKey, currentBlock, newExpiresAt)) && model == ModelAfter(old(model), Ids(old(storage)), old(ents), ExtendOp(entityKey, currentBlock, newExpiresAt))
      ensures EntityIn(old(code), EntityAddress(entityKey)).None? ==> unchanged(this)
      ensures ok ==> EntityIn(old(code), EntityAddress(entityKey)).Some?
      ensures ok ==>
        var e := EntityIn(old(code), EntityAddress(entityKey)).value;
        Recorded(old(code), code, EntityAddress(entityKey), Some(
          Entity(e.payload, e.creator, e.createdAt, e.owner, newExpiresAt, e.contentType, e.key, e.attributes, currentBlock)))
    {
      hide *;
      ghost var d, op := State(), ExtendOp(entityKey, currentBlock, newExpiresAt);
      StateIs(this);
      ChangeIs(d, op);
      MovePlan(op);
      var addr := EntityAddress(entityKey);
      var id := IdOf(storage, addr);
      var found := EntityIn(code, addr);
      if found == None { return false; }
      var e := found.value;
      OnePair(Tiers(code, lossy), Annotation(ANNOT_EXPIRATION, BigEndian(e.expiresAt, 8), true), id);
      ok := RemoveFromIndexes(ANNOT_EXPIRATION, BigEndian(e.expiresAt, 8), id, true);
      if !ok { return; }
      OnePair(Tiers(code, lossy), Annotation(ANNOT_EXPIRATION, BigEndian(newExpiresAt, 8), true), id);
      ok := InsertIntoIndexes(ANNOT_EXPIRATION, BigEndian(newExpiresAt, 8), id, true);
      if !ok { return; }
      code := code[EntityAccount(addr) := EntityCode(e.(expiresAt := newExpiresAt, lastModified := currentBlock))];
      ents, model := EntsAfter(ents, op), ModelAfter(model, Ids(old(storage)), ents, op);
      StateIs(this);
      StepWrites(d, op);
    }

    method Transfer(entityKey: B256, currentBlock: nat, newOwner: Address) returns (ok: bool)
      modifies this
      ensures ok <==> StepDb(old(State()), TransferOp(entityKey, currentBlock, newOwner)).Some?
      ensures ok ==> StepDb(old(State()), TransferOp(entityKey, currentBlock, newOwner)) == Some(State())
      ensures ok ==> ents == EntsAfter(old(ents), TransferOp(entityKey, currentBlock, newOwner)) && model == ModelAfter(old(model), Ids(old(storage)), old(ents), TransferOp(entityKey, currentBlock, newOwner))
      ensures EntityIn(old(code), EntityAddress(entityKey)).None? ==> unchanged(this)
      ensures ok ==> EntityIn(old(code), EntityAddress(entityKey)).Some?
      ensures ok ==>
        var e := EntityIn(old(code), EntityAddress(entityKey)).value;
        Recorded(old(code), code, EntityAddress(entityKey), Some(
          Entity(e.payload, e.creator, e.createdAt, newOwner, e.expiresAt, e.contentType, e.key, e.attributes, currentBlock)))
    {
      hide *;
      ghost var d, op := State(), TransferOp(entityKey, currentBlock, newOwner);
      StateIs(this);
      ChangeIs(d, op);
      MovePlan(op);
      var addr := EntityAddress(entityKey);
      var id := IdOf(storage, addr);
      var found := EntityIn(code, addr);
      if found == None { return false; }
      var e := found.value;
      OnePair(Tiers(code, lossy), Annotation(ANNOT_OWNER, e.owner, false), id);
      ok := RemoveFromIndexes(ANNOT_OWNER, e.owner, id, false);
      if !ok { return; }
      OnePair(Tiers(code, lossy), Annotation(ANNOT_OWNER, newOwner, false), id);
      ok := InsertIntoIndexes(ANNOT_OWNER, newOwner, id, false);
      if !ok { return; }
      code := code[EntityAccount(addr) := EntityCode(e.(owner := newOwner, lastModified := currentBlock))];
      ents, model := EntsAfter(ents, op), ModelAfter(model, Ids(old(storage)), ents, op);
      StateIs(this);
      StepWrites(d, op);
    }

    /** Removing an entity. The pairs to clear are spelled with the key the
        caller passed. */
    method Delete(entityKey: B256) returns (ok: bool)
      modifies this
      ensures ok <==> StepDb(old(State()), DeleteOp(entityKey)).Some?
      ensures ok ==> StepDb(old(State()), DeleteOp(entityKey)) == Some(State())
      ensures ok ==> ents == EntsAfter(old(ents), DeleteOp(entityKey)) && model == ModelAfter(old(model), Ids(old(storage)), old(ents), DeleteOp(entityKey))
      ensures EntityIn(old(code), EntityAddress(entityKey)).None? ==> unchanged(this)
      ensures ok ==> Recorded(old(code), code, EntityAddress(entityKey), None)
    {
      hide *;
      ghost var d, op := State(), DeleteOp(entityKey);
      StateIs(this);
      DeleteIs(d, entityKey);
      var addr := EntityAddress(entityKey);
      var id := IdOf(storage, addr);
      var found := EntityIn(code, addr);
      if found == None { return false; }
      ok := UnindexAll(AnnotationList(found.value.(key := entityKey)), {}, id);
      if !ok { return; }
      storage := storage[IdToAddrSlot(id) := ZeroWord()];
      storage := storage[AddrToIdSlot(addr) := ZeroWord()];
      code := code - {EntityAccount(addr)};
      ents, model := EntsAfter(ents, op), ModelAfter(model, Ids(old(storage)), ents, op);
      StateIs(this);
      TargetIs(op);
      StepWrites(d, op);
    }

    /** The same state path, whoever asks. */
    method Expire(entityKey: B256) returns (ok: bool)
      modifies this
      ensures ok <==> StepDb(old(State()), DeleteOp(entityKey)).Some?
      ensures ok ==> StepDb(old(State()), DeleteOp(entityKey)) == Some(State())
      ensures ok ==> ents == EntsAfter(old(ents), DeleteOp(entityKey)) && model == ModelAfter(old(model), Ids(old(storage)), old(ents), DeleteOp(entityKey))
      ensures EntityIn(old(code), EntityAddress(entityKey)).None? ==> unchanged(this)
      ensures ok ==> Recorded(old(code), code, EntityAddress(entityKey), None)
    {
      hide *;
      ok := Delete(entityKey);
    }

    // ── Nonces ─────────────────────────────────────────────────────────

    /** Read-then-increment; fails, and changes nothing, at 2^32 - 1. */
    method BumpNonce(caller: Address) returns (r: Option<nat>)
      modifies this`storage
      ensures r.None? <==> NonceOf(old(storage), caller) + 1 == 0x1_0000_0000
      ensures r.None? ==> storage == old(storage)
      ensures r.Some? ==> r.value == NonceOf(old(storage), caller)
      ensures r.Some? ==> storage == old(storage)[NonceSlot(caller) := U32ToStorage(r.value + 1)]
      ensures r.Some? ==> NonceOf(storage, caller) == r.value + 1
      ensures SameIds(Ids(old(storage)), Ids(storage))
      ensures forall c: Address :: c != caller ==> NonceOf(storage, c) == NonceOf(old(storage), c)
      ensures forall c: Address, n: B256 :: PayloadNonceUsed(storage, c, n) == PayloadNonceUsed(old(storage), c, n)
    {
      var current := NonceOf(storage, caller);
      NonceBound(storage, caller);
      if current + 1 == 0x1_0000_0000 { return None; }
      hide NonceOf, PayloadNonceUsed, Ids, SameIds;
      NonceWrite(storage, caller, current + 1);
      storage := storage[NonceSlot(caller) := U32ToStorage(current + 1)];
      r := Some(current);
    }

    method PayloadReferenceNonceUsed(caller: Address, nonce: B256) returns (r: bool)
      ensures r == PayloadNonceUsed(storage, caller, nonce)
    {
      var slot := PayloadNonceSlot(caller, nonce);
      r := (if slot in storage then storage[slot] else ZeroWord()) != ZeroWord();
    }

    /** Spends one nonce of one caller. */
    method ConsumePayloadReferenceNonce(caller: Address, nonce: B256)
      modifies this`storage
      ensures storage == old(storage)[PayloadNonceSlot(caller, nonce) := Zeros(31) + [1]]
      ensures forall c: Address, n: B256 ::
        PayloadNonceUsed(storage, c, n) <==> PayloadNonceUsed(old(storage), c, n) || (c == caller && n == nonce)
      ensures SameIds(Ids(old(storage)), Ids(storage))
      ensures forall c: Address :: NonceOf(storage, c) == NonceOf(old(storage), c)
    {
      hide NonceOf, PayloadNonceUsed, Ids, SameIds;
      PayloadNonceWrite(storage, caller, nonce);
      storage := storage[PayloadNonceSlot(caller, nonce) := Zeros(31) + [1]];
    }
  }

  lemma StateIs(db: StateDb)
    ensures db.State() == Db(db.code, db.storage, db.lossy)
  {}

  lemma PairsAt(t: Tiers, anns: seq<Annotation>, skip: set<Annotation>, id: nat, i: nat)
    requires i < |anns|
    ensures var p := AddPairs(t, anns[..i], skip, id);
      AddPairs(t, anns[..i + 1], skip, id) == if p.None? || anns[i] in skip then p else AddPair(p.value, anns[i], id)
    ensures var p := DropPairs(t, anns[..i], skip, id);
      DropPairs(t, anns[..i + 1], skip, id) == if p.None? || anns[i] in skip then p else DropPair(p.value, anns[i], id)
  {
    assert anns[..i + 1][..i] == anns[..i];
    AddPairsStep(t, anns[..i + 1], skip, id);
  }

  lemma {:induction false} PairsFail(t: Tiers, anns: seq<Annotation>, skip: set<Annotation>, id: nat, i: nat)
    requires i <= |anns|
    ensures AddPairs(t, anns[..i], skip, id).None? ==> AddPairs(t, anns, skip, id).None?
    ensures DropPairs(t, anns[..i], skip, id).None? ==> DropPairs(t, anns, skip, id).None?
    decreases |anns| - i
  {
    hide *;
    if i == |anns| {
      assert anns[..i] == anns;
    } else {
      PairsAt(t, anns, skip, id, i);
      PairsFail(t, anns, skip, id, i + 1);
    }
  }

  lemma OnePair(t: Tiers, a: Annotation, id: nat)
    ensures DropPairs(t, [a], {}, id) == DropPair(t, a, id) && AddPairs(t, [a], {}, id) == AddPair(t, a, id)
  {
    NoAnnotations(t, {}, id);
    assert [a][..0] == [];
    AddPairsStep(t, [a], {}, id);
  }

  lemma NewKey(sender: Address, key: B256, expiresAt: nat, block: nat, payload: Key, contentType: Key, attributes: seq<Attribute>)
    ensures NewEntity(sender, key, expiresAt, block, payload, contentType, attributes)
         == Entity(payload, sender, block, sender, expiresAt, contentType, key, attributes, block)
  {}

  lemma TargetIs(op: DbOp)
    ensures op.CreateOp? ==> op.Target() == EntityAddress(op.record.key)
    ensures op.DeleteOp? ==> op.Target() == EntityAddress(op.key)
  {}

  // The steps, unfolded for the methods.

  lemma CreateIs(d: Db, e: Entity)
    ensures var p := AddPairs(Tiers(d.code, d.lossy), AnnotationList(e), {}, EntityCount(d.storage));
      var a := EntityAddress(e.key);
      StepDb(d, CreateOp(e)) == if p.None? then None
        else Some(Db(p.value.code[EntityAccount(a) := EntityCode(e)], CreateStorage(d.storage, EntityCount(d.storage), a), p.value.lossy))
  {
    hide AddPairs, CreateStorage, EntityCount;
    NoAnnotations(Tiers(d.code, d.lossy), {}, EntityCount(d.storage));
  }

  lemma ChangeIs(d: Db, op: DbOp)
    requires op.UpdateOp? || op.ExtendOp? || op.TransferOp?
    ensures var f, id := EntityIn(d.code, op.Target()), IdOf(d.storage, op.Target());
      f.None? ==> StepDb(d, op) == None
    ensures var f, id := EntityIn(d.code, op.Target()), IdOf(d.storage, op.Target());
      f.Some? ==>
        var plan := PlanFor(f.value, id, op);
        var q := DropPairs(Tiers(d.code, d.lossy), plan.gone, plan.kept, plan.id);
        && (q.None? ==> StepDb(d, op) == None)
        && (q.Some? ==>
          var p := AddPairs(q.value, plan.come, plan.had, plan.id);
          StepDb(d, op) == if p.None? then None
            else Some(Db(p.value.code[EntityAccount(op.Target()) := EntityCode(NewRecord(f.value, op))], d.storage, p.value.lossy)))
    ensures op.Target() == EntityAddress(op.key)
  {
    hide AddPairs, DropPairs, NewRecord, PlanFor, IdOf;
  }

  lemma UpdatePlan(op: DbOp)
    requires op.UpdateOp?
    ensures forall e, id :: PlanFor(e, id, op) == DiffPlan(id, UpdatableAnnotations(e.contentType, e.attributes), UpdatableAnnotations(op.contentType, op.attributes))
    ensures forall e :: NewRecord(e, op) == UpdatedEntity(e, op.block, op.payload, op.contentType, op.attributes)
    ensures forall id, gone, come :: DiffPlan(id, gone, come) == Plan(id, gone, Elements(come), come, Elements(gone))
  {}

  lemma MovePlan(op: DbOp)
    requires op.ExtendOp? || op.TransferOp?
    ensures op.ExtendOp? ==> forall e, id :: PlanFor(e, id, op) == MovePair(id, ANNOT_EXPIRATION, BigEndian(e.expiresAt, 8), BigEndian(op.expiresAt, 8), true)
    ensures op.ExtendOp? ==> forall e :: NewRecord(e, op) == e.(expiresAt := op.expiresAt, lastModified := op.block)
    ensures op.TransferOp? ==> forall e, id :: PlanFor(e, id, op) == MovePair(id, ANNOT_OWNER, e.owner, op.owner, false)
    ensures op.TransferOp? ==> forall e :: NewRecord(e, op) == e.(owner := op.owner, lastModified := op.block)
    ensures forall id, k, v, w, f :: MovePair(id, k, v, w, f) == Plan(id, [Annotation(k, v, f)], {}, [Annotation(k, w, f)], {})
  {
    hide BigEndian;
  }

  lemma DeleteIs(d: Db, key: B256)
    ensures var a := EntityAddress(key);
      var f, id := EntityIn(d.code, a), IdOf(d.storage, a);
      && (f.None? ==> StepDb(d, DeleteOp(key)) == None)
      && (f.Some? ==>
        var p := DropPairs(Tiers(d.code, d.lossy), AnnotationList(f.value.(key := key)), {}, id);
        StepDb(d, DeleteOp(key)) == if p.None? then None
          else Some(Db(p.value.code - {EntityAccount(a)},
                       d.storage[IdToAddrSlot(id) := ZeroWord()][AddrToIdSlot(a) := ZeroWord()], p.value.lossy)))
  {
    hide AddPairs, DropPairs, IdOf, AnnotationList;
    var a := EntityAddress(key);
    var f, id := EntityIn(d.code, a), IdOf(d.storage, a);
    if f.Some? {
      var p := DropPairs(Tiers(d.code, d.lossy), AnnotationList(f.value.(key := key)), {}, id);
      if p.Some? { NoAnnotations(p.value, {}, id); }
    }
  }

  lemma EmptyConsistent()
    ensures Consistent(map[], Ids(map[]), map[], map[], {}) && Readable(map[])
  {
    var m: Model := map[];
    assert Carried(m) == {};
    ZeroWordReads();
    EmptyReadable();
  }

  lemma EmptyReadable()
    ensures Readable(map[])
  {
    forall k ensures TreeAt(map[], k).Some? && Sound(TreeAt(map[], k).value.root, 255) {}
  }

  /** An id that carries nothing can be dropped from the model. */
  lemma DropEmpty(c: Codes, m: Model, id: nat, lossy: set<Key>)
    requires id in m && m[id] == {} && IndexesAgree(c, m, lossy) && FlagsAgree(m) && ProperModel(m)
    ensures IndexesAgree(c, m - {id}, lossy) && FlagsAgree(m - {id}) && ProperModel(m - {id})
  {
    var n := m - {id};
    forall a ensures a in Carried(n) <==> a in Carried(m) {
      if a in Carried(m) {
        var i :| i in m && a in m[i];
        CarriedAt(n, i, a);
      }
    }
    assert Carried(n) == Carried(m);
    forall k, v, i ensures Carries(n, i, k, v) <==> Carries(m, i, k, v) {}
    forall k ensures TreeValues(n, k) == TreeValues(m, k) {}
    forall k | ZeroFree(k) && k !in lossy ensures TreeHolds(c, k, TreeValues(n, k)) {
      assert TreeHolds(c, k, TreeValues(m, k));
    }
  }

  /** A removed entity, with all its annotations, keeps the invariant. */
  lemma EntityRemoved(c0: Codes, c: Codes, x: IdMap, y: IdMap, ents: map<Address, Entity>, m: Model, lossy: set<Key>, a: Address)
    requires CodeIs(c0, ents) && EntitiesOk(ents) && IdsAgree(ents.Keys, x) && ModelIs(m, AnnotationsOf(ents), x)
    requires ProperModel(m) && FlagsAgree(m) && a in ents && Deleted(x, y, a)
    requires SameEntities(c0, c) && IndexesAgree(c, m[x.idOf(a) := {}], lossy)
    ensures Consistent(c - {EntityAccount(a)}, y, ents - {a}, m[x.idOf(a) := {}] - {x.idOf(a)}, lossy)
  {
    hide *;
    var id := x.idOf(a);
    var n := m[id := {}];
    ClearFlags(m, id);
    DropEmpty(c, n, id, lossy);
    EntityWrite(c, c - {EntityAccount(a)}, a, n - {id}, lossy);
    CodeRemoved(c0, c, ents, a);
    DeleteIds(ents.Keys, x, y, a);
    AnnotationsRemoved(ents, a);
    DeleteModel(m, AnnotationsOf(ents), x, y, a);
    assert (ents - {a}).Keys == ents.Keys - {a};
    assert n - {id} == m - {id};
    EntitiesRemoved(ents, a);
    Whole(c - {EntityAccount(a)}, y, ents - {a}, n - {id}, lossy);
  }

  lemma ClearFlags(m: Model, id: nat)
    requires FlagsAgree(m) && ProperModel(m)
    ensures FlagsAgree(m[id := {}]) && ProperModel(m[id := {}])
  {
    CarriedReplace(m, id, {});
    assert Carried(m[id := {}]) <= Carried(m);
    FlagsSubset(m[id := {}], m);
  }

  lemma CodeRemoved(c0: Codes, c: Codes, ents: map<Address, Entity>, a: Address)
    requires CodeIs(c0, ents) && SameEntities(c0, c)
    ensures CodeIs(c - {EntityAccount(a)}, ents - {a})
  {}

  lemma EntitiesRemoved(ents: map<Address, Entity>, a: Address)
    requires EntitiesOk(ents)
    ensures EntitiesOk(ents - {a})
  {}

  lemma DeleteModel(m: Model, g: AnnotationMap, x: IdMap, y: IdMap, a: Address)
    requires IdsAgree(g.Keys, x) && ModelIs(m, g, x) && Deleted(x, y, a) && a in g
    ensures ModelIs(m - {x.idOf(a)}, g - {a}, y)
  {
    var h, id := g - {a}, x.idOf(a);
    var n := m - {id};
    forall b | b in h ensures y.idOf(b) in n && n[y.idOf(b)] == h[b] {
      if x.idOf(b) == id { IdsInjective(g.Keys, x, a, b); }
    }
    forall i | i in n ensures Owned(h, y, i) || Stray(y, i, n[i]) { OwnedOrStray(m, g, x, y, a, i); }
  }

  /** An id other than that of the entity that goes keeps its standing. */
  lemma OwnedOrStray(m: Model, g: AnnotationMap, x: IdMap, y: IdMap, a: Address, i: nat)
    requires IdsAgree(g.Keys, x) && ModelIs(m, g, x) && Deleted(x, y, a) && a in g && i in m && i != x.idOf(a)
    ensures Owned(g - {a}, y, i) || Stray(y, i, m[i])
  {
    if Owned(g, x, i) {
      var b :| b in g && x.idOf(b) == i;
      assert b in g - {a} && y.idOf(b) == i;
    }
  }

  /** An entity removed under another key leaves its `$key` pair. */
  lemma EntityLeft(c0: Codes, c: Codes, x: IdMap, y: IdMap, ents: map<Address, Entity>, m: Model, lossy: set<Key>, a: Address, v: B256)
    requires CodeIs(c0, ents) && EntitiesOk(ents) && IdsAgree(ents.Keys, x) && ModelIs(m, AnnotationsOf(ents), x)
    requires ProperModel(m) && FlagsAgree(m) && a in ents && Deleted(x, y, a) && x.idOf(a) in m && Annotation(ANNOT_KEY, v, false) in m[x.idOf(a)]
    requires SameEntities(c0, c) && IndexesAgree(c, m[x.idOf(a) := {Annotation(ANNOT_KEY, v, false)}], lossy)
    ensures Consistent(c - {EntityAccount(a)}, y, ents - {a}, m[x.idOf(a) := {Annotation(ANNOT_KEY, v, false)}], lossy)
  {
    hide *;
    var s := {Annotation(ANNOT_KEY, v, false)};
    var n := m[x.idOf(a) := s];
    LessFlags(m, x.idOf(a), s);
    EntityWrite(c, c - {EntityAccount(a)}, a, n, lossy);
    CodeRemoved(c0, c, ents, a);
    DeleteIds(ents.Keys, x, y, a);
    AnnotationsRemoved(ents, a);
    StrayModel(m, AnnotationsOf(ents), x, y, a, v);
    assert (ents - {a}).Keys == ents.Keys - {a};
    EntitiesRemoved(ents, a);
    Whole(c - {EntityAccount(a)}, y, ents - {a}, n, lossy);
  }

  lemma LessFlags(m: Model, id: nat, s: set<Annotation>)
    requires FlagsAgree(m) && ProperModel(m) && id in m && s <= m[id]
    ensures FlagsAgree(m[id := s]) && ProperModel(m[id := s])
  {
    CarriedReplace(m, id, s);
    forall a | a in s ensures a in Carried(m) { CarriedAt(m, id, a); }
    FlagsSubset(m[id := s], m);
  }

  lemma StrayModel(m: Model, g: AnnotationMap, x: IdMap, y: IdMap, a: Address, v: B256)
    requires IdsAgree(g.Keys, x) && ModelIs(m, g, x) && Deleted(x, y, a) && a in g
    ensures ModelIs(m[x.idOf(a) := {Annotation(ANNOT_KEY, v, false)}], g - {a}, y)
  {
    var h, id := g - {a}, x.idOf(a);
    var n := m[id := {Annotation(ANNOT_KEY, v, false)}];
    assert HasId(x, a);
    forall b | b in h ensures y.idOf(b) in n && n[y.idOf(b)] == h[b] {
      if x.idOf(b) == id { IdsInjective(g.Keys, x, a, b); }
    }
    forall i | i in n ensures Owned(h, y, i) || Stray(y, i, n[i]) {
      if i != id { OwnedOrStray(m, g, x, y, a, i); } else { assert Stray(y, id, n[id]); }
    }
  }

  lemma AnnotationsRemoved(ents: map<Address, Entity>, a: Address)
    ensures AnnotationsOf(ents).Keys == ents.Keys
    ensures AnnotationsOf(ents - {a}) == AnnotationsOf(ents) - {a}
  {}

  // ── Nonce writes ─────────────────────────────────────────────────────

  lemma NonceBound(st: Storage, caller: Address)
    ensures NonceOf(st, caller) < 0x1_0000_0000
  {
    Pow256Eight();
    FromBigEndianBound(Read(st, NonceSlot(caller))[28..]);
  }

  ghost predicate SameIds(x: IdMap, y: IdMap) {
    && y.count == x.count
    && (forall a :: y.idOf(a) == x.idOf(a))
    && (forall i: nat :: i < U64 ==> y.word(i) == x.word(i))
  }

  lemma NonceWrite(st: Storage, caller: Address, n: nat)
    requires n < 0x1_0000_0000
    ensures var s := st[NonceSlot(caller) := U32ToStorage(n)];
      && NonceOf(s, caller) == n && SameIds(Ids(st), Ids(s))
      && (forall c: Address :: c != caller ==> NonceOf(s, c) == NonceOf(st, c))
      && (forall c: Address, m: B256 :: PayloadNonceUsed(s, c, m) == PayloadNonceUsed(st, c, m))
  {
    var s := st[NonceSlot(caller) := U32ToStorage(n)];
    U32RoundTrip(n);
    forall c: Address | c != caller ensures NonceOf(s, c) == NonceOf(st, c) {
      if NonceSlot(c) == NonceSlot(caller) { NonceInjective(c, caller); }
    }
  }

  lemma PayloadNonceWrite(st: Storage, caller: Address, nonce: B256)
    ensures var s := st[PayloadNonceSlot(caller, nonce) := Zeros(31) + [1]];
      && SameIds(Ids(st), Ids(s))
      && (forall c: Address :: NonceOf(s, c) == NonceOf(st, c))
      && (forall c: Address, n: B256 :: PayloadNonceUsed(s, c, n) <==> PayloadNonceUsed(st, c, n) || (c == caller && n == nonce))
  {
    var s := st[PayloadNonceSlot(caller, nonce) := Zeros(31) + [1]];
    assert (Zeros(31) + [1])[31] != ZeroWord()[31];
    forall c: Address, n: B256 ensures PayloadNonceUsed(s, c, n) <==> PayloadNonceUsed(st, c, n) || (c == caller && n == nonce) {
      if PayloadNonceSlot(c, n) == PayloadNonceSlot(caller, nonce) { PayloadNonceInjective(c, n, caller, nonce); }
    }
  }

  lemma SameIdsConsistent(code: Codes, x: IdMap, y: IdMap, ents: map<Address, Entity>, m: Model, lossy: set<Key>)
    requires Consistent(code, x, ents, m, lossy) && SameIds(x, y)
    ensures Consistent(code, y, ents, m, lossy)
  {
    hide *;
    Parts(code, x, ents, m, lossy);
    SameIdsAgree(ents.Keys, x, y);
    CountBound(ents.Keys, x);
    SameIdsModel(m, AnnotationsOf(ents), x, y);
    Whole(code, y, ents, m, lossy);
  }

  lemma CountBound(live: set<Address>, x: IdMap)
    requires IdsAgree(live, x)
    ensures x.count < U64
  {}

  lemma SameIdsAgree(live: set<Address>, x: IdMap, y: IdMap)
    requires IdsAgree(live, x) && SameIds(x, y)
    ensures IdsAgree(live, y)
  {
    forall a | a in live ensures HasId(y, a) { assert HasId(x, a); }
    forall i: nat | i < U64 ensures IdLive(live, y, i) { assert IdLive(live, x, i); }
  }

  lemma SameIdsModel(m: Model, g: AnnotationMap, x: IdMap, y: IdMap)
    requires ModelIs(m, g, x) && SameIds(x, y) && x.count < U64
    ensures ModelIs(m, g, y)
  {
    forall id | id in m ensures Owned(g, y, id) || Stray(y, id, m[id]) {
      if Owned(g, x, id) {
        var a :| a in g && x.idOf(a) == id;
        assert y.idOf(a) == id;
      }
    }
  }

  /** The annotations an update never touches. */
  function FixedAnnotations(e: Entity): seq<Annotation> {
    BuiltInAnnotations(e.creator, e.owner, e.key, e.createdAt, e.expiresAt, e.contentType)[..6]
  }

  lemma AnnotationSplit(e: Entity)
    requires UserAttributes(e.attributes)
    ensures Annotations(e) == Elements(FixedAnnotations(e)) + Elements(UpdatableAnnotations(e.contentType, e.attributes))
    ensures forall a :: a in FixedAnnotations(e) ==> Dollar(a.key) && a.key != ANNOT_CONTENT_TYPE
  {
    DollarKeys();
    var f, u := FixedAnnotations(e), UpdatableAnnotations(e.contentType, e.attributes);
    assert AnnotationList(e) == f + u;
  }

  lemma ProperUpdatable(contentType: Key, attributes: seq<Attribute>)
    requires UserAttributes(attributes)
    ensures forall a :: a in UpdatableAnnotations(contentType, attributes) ==>
      Proper(a) && ZeroFree(a.key) && (Dollar(a.key) ==> a.key == ANNOT_CONTENT_TYPE)
  {
    DollarKeys();
    ProperUsers(attributes);
    var u := UpdatableAnnotations(contentType, attributes);
    assert u[0] == Annotation(ANNOT_CONTENT_TYPE, contentType, true);
    forall a | a in u ensures a == u[0] || a in UserAnnotations(attributes) {}
  }

  /** Removing what only the old list has and adding what only the new list has
      turns the old annotation set into the new one. */
  lemma UpdateSets(e: Entity, addr: Address, block: nat, payload: Key, contentType: Key, attributes: seq<Attribute>)
    requires EntityOk(e, addr) && UserAttributes(attributes)
    ensures var e', o, n := UpdatedEntity(e, block, payload, contentType, attributes),
        Elements(UpdatableAnnotations(e.contentType, e.attributes)), Elements(UpdatableAnnotations(contentType, attributes));
      && EntityOk(e', addr)
      && o - n <= Annotations(e) && Annotations(e') == Annotations(e) - (o - n) + (n - o)
    ensures forall a :: a in UpdatableAnnotations(e.contentType, e.attributes) ==> ZeroFree(a.key)
    ensures forall a :: a in UpdatableAnnotations(contentType, attributes) ==> ZeroFree(a.key)
  {
    var e' := UpdatedEntity(e, block, payload, contentType, attributes);
    AnnotationSplit(e);
    AnnotationSplit(e');
    ProperUpdatable(e.contentType, e.attributes);
    ProperUpdatable(contentType, attributes);
    var f := Elements(FixedAnnotations(e));
    var o, n := Elements(UpdatableAnnotations(e.contentType, e.attributes)), Elements(UpdatableAnnotations(contentType, attributes));
    assert FixedAnnotations(e') == FixedAnnotations(e);
    forall a ensures a in Annotations(e') <==> a in Annotations(e) - (o - n) + (n - o) {
      assert a in f ==> a !in o && a !in n;
    }
  }

  lemma ExtendSets(e: Entity, addr: Address, expiresAt: nat, block: nat)
    requires EntityOk(e, addr) && expiresAt < U64
    ensures EntityOk(e.(expiresAt := expiresAt, lastModified := block), addr)
    ensures var e' := e.(expiresAt := expiresAt, lastModified := block);
      Annotations(e') == Annotations(e) - {Annotation(ANNOT_EXPIRATION, BigEndian(e.expiresAt, 8), true)}
                                        + {Annotation(ANNOT_EXPIRATION, BigEndian(expiresAt, 8), true)}
    ensures Proper(Annotation(ANNOT_EXPIRATION, BigEndian(e.expiresAt, 8), true)) && Dollar(ANNOT_EXPIRATION)
    ensures Annotation(ANNOT_EXPIRATION, BigEndian(e.expiresAt, 8), true) in Annotations(e)
  {
    DollarKeys();
    assert AnnotationList(e)[5] in Annotations(e);
    OneMoved(e, e.(expiresAt := expiresAt, lastModified := block), 5);
  }

  lemma TransferSets(e: Entity, addr: Address, owner: Address, block: nat)
    requires EntityOk(e, addr)
    ensures EntityOk(e.(owner := owner, lastModified := block), addr)
    ensures var e' := e.(owner := owner, lastModified := block);
      Annotations(e') == Annotations(e) - {Annotation(ANNOT_OWNER, e.owner, false)} + {Annotation(ANNOT_OWNER, owner, false)}
    ensures Proper(Annotation(ANNOT_OWNER, e.owner, false)) && Dollar(ANNOT_OWNER)
    ensures Annotation(ANNOT_OWNER, e.owner, false) in Annotations(e)
  {
    DollarKeys();
    assert AnnotationList(e)[3] in Annotations(e);
    OneMoved(e, e.(owner := owner, lastModified := block), 3);
  }

  /** Two entities whose annotation lists differ in one built-in entry. */
  lemma OneMoved(e: Entity, e': Entity, i: nat)
    requires UserAttributes(e.attributes) && i < 7
    requires AnnotationList(e') == AnnotationList(e)[i := AnnotationList(e')[i]]
    requires AnnotationList(e')[i].key == AnnotationList(e)[i].key
    ensures Annotations(e') == Annotations(e) - {AnnotationList(e)[i]} + {AnnotationList(e')[i]}
  {
    DollarKeys();
    ProperUsers(e.attributes);
    var l, l' := AnnotationList(e), AnnotationList(e');
    forall j | 0 <= j < |l| && j != i ensures l[j].key != l[i].key {
      if j >= 7 { assert l[j] in UserAnnotations(e.attributes); }
    }
    forall a ensures a in Annotations(e') <==> a in Annotations(e) - {l[i]} + {l'[i]} {
      if a in Annotations(e') {
        var j :| 0 <= j < |l'| && l'[j] == a;
        assert j != i ==> a == l[j];
      }
      if a in Annotations(e) && a != l[i] {
        var j :| 0 <= j < |l| && l[j] == a;
        assert l'[j] == a;
      }
    }
  }

  /** A changed record, with its annotations moved along, keeps the invariant. */
  lemma EntityChanged(c0: Codes, c: Codes, x: IdMap, ents: map<Address, Entity>, m: Model, lossy: set<Key>,
                      a: Address, e: Entity, s: set<Annotation>, n: Model)
    requires CodeIs(c0, ents) && EntitiesOk(ents) && IdsAgree(ents.Keys, x) && ModelIs(m, AnnotationsOf(ents), x) && ProperModel(m)
    requires a in ents && EntityOk(e, a) && s == Annotations(e) && n == m[x.idOf(a) := s]
    requires SameEntities(c0, c) && IndexesAgree(c, n, lossy) && FlagsAgree(n)
    ensures Consistent(c[EntityAccount(a) := EntityCode(e)], x, ents[a := e], n, lossy)
  {
    hide *;
    EntityOkUsers(e, a);
    EntityWrite(c, c[EntityAccount(a) := EntityCode(e)], a, m[x.idOf(a) := s], lossy);
    ProperEntity(e);
    ProperReplace(m, x.idOf(a), s);
    AnnotationsAdded(ents, a, e);
    ChangeModel(m, AnnotationsOf(ents), x, a, s);
    assert ents[a := e].Keys == ents.Keys;
    CodeAdded(c0, c, ents, a, e);
    EntitiesAdded(ents, a, e);
    Whole(c[EntityAccount(a) := EntityCode(e)], x, ents[a := e], n, lossy);
  }

  lemma ChangeModel(m: Model, g: AnnotationMap, x: IdMap, a: Address, s: set<Annotation>)
    requires IdsAgree(g.Keys, x) && ModelIs(m, g, x) && a in g
    ensures ModelIs(m[x.idOf(a) := s], g[a := s], x)
  {
    var n, h := m[x.idOf(a) := s], g[a := s];
    forall b | b in h ensures x.idOf(b) in n && n[x.idOf(b)] == h[b] {
      if b != a && x.idOf(b) == x.idOf(a) { IdsInjective(g.Keys, x, a, b); }
    }
    forall id | id in n ensures Owned(h, x, id) || Stray(x, id, n[id]) {
      if id == x.idOf(a) {
        assert a in h;
      } else if Owned(g, x, id) {
        var b :| b in g && x.idOf(b) == id;
        assert b in h;
      }
    }
  }

  lemma AnnotationsAdded(ents: map<Address, Entity>, a: Address, e: Entity)
    ensures AnnotationsOf(ents).Keys == ents.Keys
    ensures AnnotationsOf(ents[a := e]) == AnnotationsOf(ents)[a := Annotations(e)]
  {}

  /** A new entity, indexed and mapped, keeps the invariant. */
  lemma EntityAdded(c0: Codes, c: Codes, x: IdMap, y: IdMap, ents: map<Address, Entity>, m: Model, lossy: set<Key>,
                    a: Address, e: Entity, s: set<Annotation>)
    requires CodeIs(c0, ents) && EntitiesOk(ents) && IdsAgree(ents.Keys, x) && ModelIs(m, AnnotationsOf(ents), x) && ProperModel(m)
    requires a !in ents && a != ZeroAddress() && x.count + 1 < U64 && EntityOk(e, a) && Created(x, y, a)
    requires s == Annotations(e) && SameEntities(c0, c) && IndexesAgree(c, m[x.count := s], lossy) && FlagsAgree(m[x.count := s])
    ensures Consistent(c[EntityAccount(a) := EntityCode(e)], y, ents[a := e], m[x.count := s], lossy)
  {
    hide *;
    EntityOkUsers(e, a);
    EntityWrite(c, c[EntityAccount(a) := EntityCode(e)], a, m[x.count := s], lossy);
    ProperEntity(e);
    ProperReplace(m, x.count, s);
    CreateIds(ents.Keys, x, y, a);
    AnnotationsAdded(ents, a, e);
    CreateModel(m, AnnotationsOf(ents), x, y, a, s);
    assert ents[a := e].Keys == ents.Keys + {a};
    CodeAdded(c0, c, ents, a, e);
    EntitiesAdded(ents, a, e);
    Whole(c[EntityAccount(a) := EntityCode(e)], y, ents[a := e], m[x.count := s], lossy);
  }

  lemma EntitiesAdded(ents: map<Address, Entity>, a: Address, e: Entity)
    requires EntitiesOk(ents) && EntityOk(e, a)
    ensures EntitiesOk(ents[a := e])
  {}

  lemma CodeAdded(c0: Codes, c: Codes, ents: map<Address, Entity>, a: Address, e: Entity)
    requires CodeIs(c0, ents) && SameEntities(c0, c)
    ensures CodeIs(c[EntityAccount(a) := EntityCode(e)], ents[a := e])
  {}

  /** The counter is not the id of any live entity. */
  lemma FreshId(m: Model, g: AnnotationMap, x: IdMap)
    requires IdsAgree(g.Keys, x) && ModelIs(m, g, x)
    ensures x.count !in m
  {
    forall id | id in m ensures id < x.count {
      if Owned(g, x, id) {
        var a :| a in g && x.idOf(a) == id;
        assert HasId(x, a);
      }
    }
  }

  /** Everything an entity is indexed under is proper. */
  lemma ProperEntity(e: Entity)
    requires UserAttributes(e.attributes)
    ensures forall a :: a in AnnotationList(e) ==> Proper(a) && ZeroFree(a.key)
    ensures forall a :: a in Annotations(e) ==> Proper(a)
    ensures Annotations(e) != {}
  {
    ProperBuiltIns(e.creator, e.owner, e.key, e.createdAt, e.expiresAt, e.contentType);
    ProperUsers(e.attributes);
    assert AnnotationList(e)[0] in Annotations(e);
  }

  /** An entity account write touches no index. */
  lemma EntityWrite(c: Codes, d: Codes, a: Address, m: Model, lossy: set<Key>)
    requires IndexesAgree(c, m, lossy)
    requires forall x :: x != EntityAccount(a) ==> (x in d <==> x in c) && (x in c ==> d[x] == c[x])
    requires EntityAccount(a) in d ==> d[EntityAccount(a)].EntityCode?
    ensures IndexesAgree(d, m, lossy)
  {
    forall k, v ensures Bits(d, k, v) == Bits(c, k, v) {}
    forall k | ZeroFree(k) && k !in lossy ensures TreeHolds(d, k, TreeValues(m, k)) {
      assert TreeHolds(c, k, TreeValues(m, k));
    }
  }

  lemma CreateModel(m: Model, g: AnnotationMap, x: IdMap, y: IdMap, a: Address, s: set<Annotation>)
    requires IdsAgree(g.Keys, x) && ModelIs(m, g, x) && Created(x, y, a) && a !in g
    ensures ModelIs(m[x.count := s], g[a := s], y)
  {
    var n, h := m[x.count := s], g[a := s];
    forall b | b in h ensures y.idOf(b) in n && n[y.idOf(b)] == h[b] {
      if b != a { assert HasId(x, b); }
    }
    forall id | id in n ensures Owned(h, y, id) || Stray(y, id, n[id]) {
      if id == x.count {
        assert a in h && y.idOf(a) == id;
      } else if Owned(g, x, id) {
        var b :| b in g && x.idOf(b) == id;
        assert b in h && y.idOf(b) == id;
      }
    }
  }

  lemma ProperReplace(m: Model, id: nat, s: set<Annotation>)
    requires ProperModel(m) && forall a :: a in s ==> Proper(a)
    ensures ProperModel(m[id := s])
  {
    CarriedReplace(m, id, s);
  }

}
