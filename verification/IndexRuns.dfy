/** Runs of database operations: keys whose tree stays exact whatever happens,
    and the runs on which the two tiers stop agreeing. */
module IndexRuns {
  import opened Options
  import opened Bytes
  import opened Accounts
  import opened ArtNode
  import opened ArtSet
  import opened ArtOrder
  import opened ArtSer
  import opened ArtSound
  import opened ArtStore
  import opened ArtFew
  import opened Indexes
  import opened EntityDb

  // ── Values that keep a tree exact ────────────────────────────────────

  /** Two kinds of keys: those with few values, and those with values of text. */
  datatype Kind = Few | Text

  /** At most sixteen values; or fewer than 2^32, none with a byte 0xFF. */
  ghost predicate Within(s: set<Key>, kind: Kind) {
    match kind
    case Few => |s| <= 16
    case Text => |s| < U32 && forall v :: v in s ==> NoFF(v)
  }

  ghost predicate Calm(code: Codes, k: Key, kind: Kind) {
    kind.Few? ==> TreeAt(code, k).Some? && Slim(TreeAt(code, k).value.root)
  }

  /** If the removal reaches the tree of `k`, it is clean. With few values it
      always is. */
  ghost predicate CleanDrop(t: Tiers, a: Annotation, id: nat, k: Key, kind: Kind) {
    kind.Text? && TakesFrom(t, a, id, k) ==> RemoveClean(TreeAt(t.code, k).value, a.value)
  }

  /** The removal is of the last holder, and takes the value from the tree. */
  predicate TakesFrom(t: Tiers, a: Annotation, id: nat, k: Key) {
    a.key == k && a.tier2 && Bits(t.code, k, a.value) == {id} && TreeAt(t.code, k).Some?
  }

  ghost predicate CleanDrops(t: Tiers, anns: seq<Annotation>, skip: set<Annotation>, id: nat, k: Key, kind: Kind) {
    anns != [] ==>
      var pre, a := anns[..|anns| - 1], anns[|anns| - 1];
      && CleanDrops(t, pre, skip, id, k, kind)
      && (a !in skip && DropPairs(t, pre, skip, id).Some? ==> CleanDrop(DropPairs(t, pre, skip, id).value, a, id, k, kind))
  }

  lemma WithinLess(s: set<Key>, u: set<Key>, kind: Kind)
    requires Within(u, kind) && s <= u
    ensures Within(s, kind)
  {
    Smaller(s, u);
  }

  lemma {:induction false} Smaller(s: set<Key>, u: set<Key>)
    requires s <= u
    ensures |s| <= |u|
  {
    if s != {} {
      var x :| x in s;
      Smaller(s - {x}, u - {x});
    }
  }

  // ── One pair ─────────────────────────────────────────────────────────

  /** The tree of another key is not touched. */
  lemma TreeElsewhere(c: Codes, a: Account, x: Code, k: Key)
    requires a != IndexAccount(k)
    ensures TreeAt(c[a := x], k) == TreeAt(c, k) && TreeAt(c - {a}, k) == TreeAt(c, k)
  {}

  lemma OtherIndex(k: Key, k': Key, v: Key)
    ensures PairAccount(k', v) != IndexAccount(k) && (k != k' ==> IndexAccount(k') != IndexAccount(k))
  {
    PairIndexDisjoint(k', v, k);
    if k != k' && IndexAccount(k) == IndexAccount(k') { IndexInjective(k, k'); }
  }

  lemma InsertTreeKeeps(t: Tiers, k: Key, v: Key, s: set<Key>, kind: Kind)
    requires k !in t.lossy && TreeHolds(t.code, k, s) && Calm(t.code, k, kind)
    requires |v| <= 255 && Within(s + {v}, kind)
    ensures InsertTree(t, k, v).Some?
    ensures k !in InsertTree(t, k, v).value.lossy && Calm(InsertTree(t, k, v).value.code, k, kind)
  {
    TreeAtHolds(t.code, k, s);
    var tree := TreeAt(t.code, k).value;
    TreeParts(tree, s);
    AddedLength(s, v);
    TreeAtRoom(t.code, k, v);
    InsertSound(tree.root, v, 255);
    hide Sound, Has, Loses, Overflows, Insert, NoFF, TreeIs;
    SoundWritable(TreeInsert(tree, v).0.root);
    if kind.Few? {
      FewInsert(tree, s, v);
      SlimBytes(TreeInsert(tree, v).0);
    } else {
      NoFFNoLoss(tree.root, v);
    }
  }

  lemma RemoveTreeKeeps(t: Tiers, k: Key, v: Key, s: set<Key>, kind: Kind)
    requires k !in t.lossy && TreeHolds(t.code, k, s) && Calm(t.code, k, kind) && RemoveTree(t, k, v).Some?
    requires kind.Text? ==> RemoveClean(TreeAt(t.code, k).value, v)
    ensures k !in RemoveTree(t, k, v).value.lossy && Calm(RemoveTree(t, k, v).value.code, k, kind)
  {
    TreeAtHolds(t.code, k, s);
    var tree := TreeAt(t.code, k).value;
    TreeParts(tree, s);
    RemoveSound(tree.root, v, 255);
    if kind.Few? {
      FewRemove(tree, v);
      SlimBytes(TreeRemove(tree, v).0);
    }
  }

  lemma InsertElsewhere(t: Tiers, k': Key, v: Key, k: Key)
    requires InsertTree(t, k', v).Some? && k' != k
    ensures TreeAt(InsertTree(t, k', v).value.code, k) == TreeAt(t.code, k)
    ensures k in InsertTree(t, k', v).value.lossy <==> k in t.lossy
  {
    OtherIndex(k, k', v);
    TreeElsewhere(t.code, IndexAccount(k'), Index(ToBytes(TreeInsert(TreeAt(t.code, k').value, v).0)), k);
  }

  lemma RemoveElsewhere(t: Tiers, k': Key, v: Key, k: Key)
    requires RemoveTree(t, k', v).Some? && k' != k
    ensures TreeAt(RemoveTree(t, k', v).value.code, k) == TreeAt(t.code, k)
    ensures k in RemoveTree(t, k', v).value.lossy <==> k in t.lossy
  {
    OtherIndex(k, k', v);
    TreeElsewhere(t.code, IndexAccount(k'), Index(ToBytes(TreeRemove(TreeAt(t.code, k').value, v).0)), k);
  }

  /** The key is exact, and its tree is of the kind. */
  ghost predicate Exact(t: Tiers, k: Key, kind: Kind) { k !in t.lossy && Calm(t.code, k, kind) }

  lemma SameExact(t: Tiers, p: Tiers, k: Key, kind: Kind)
    requires Exact(t, k, kind) && (k in p.lossy <==> k in t.lossy) && TreeAt(p.code, k) == TreeAt(t.code, k)
    ensures Exact(p, k, kind)
  {}

  lemma ExactParts(t: Tiers, k: Key, kind: Kind)
    ensures Exact(t, k, kind) <==> k !in t.lossy && Calm(t.code, k, kind)
  {}

  lemma AddPairKeeps(t: Tiers, m: Model, a: Annotation, id: nat, k: Key, kind: Kind)
    requires IndexesAgree(t.code, m, t.lossy) && ZeroFree(a.key) && ZeroFree(k) && AddPair(t, a, id).Some? && Short(a)
    requires Exact(t, k, kind) && Within(TreeValues(Plus(m, id, a), k), kind)
    ensures Exact(AddPair(t, a, id).value, k, kind)
  {
    var ids, s := Bits(t.code, a.key, a.value), TreeValues(m, k);
    var p := t.(code := t.code[PairAccount(a.key, a.value) := Bitmap(ids + {id})]);
    ShortIs(a);
    hide *;
    AddPairIs(t, a, id);
    OtherIndex(k, a.key, a.value);
    TreeElsewhere(t.code, PairAccount(a.key, a.value), Bitmap(ids + {id}), k);
    SameExact(t, p, k, kind);
    if a.tier2 && ids == {} {
      if a.key == k {
        IndexesParts(t.code, m, t.lossy, k);
        PairWritten(t.code, m, id, a, ids + {id}, t.lossy);
        TreeValuesPlus(m, id, a, k);
        ExactParts(t, k, kind);
        ExactParts(p, k, kind);
        InsertTreeKeeps(p, k, a.value, s, kind);
        ExactParts(AddPair(t, a, id).value, k, kind);
      } else {
        InsertElsewhere(p, a.key, a.value, k);
        SameExact(p, AddPair(t, a, id).value, k, kind);
      }
    }
  }

  lemma ShortIs(a: Annotation)
    ensures Short(a) <==> (a.tier2 ==> |a.value| <= 255)
  {}

  lemma DropPairKeeps(t: Tiers, m: Model, a: Annotation, id: nat, k: Key, kind: Kind)
    requires IndexesAgree(t.code, m, t.lossy) && ZeroFree(a.key) && ZeroFree(k) && DropPair(t, a, id).Some?
    requires Exact(t, k, kind) && CleanDrop(t, a, id, k, kind)
    ensures Exact(DropPair(t, a, id).value, k, kind)
  {
    var ids, s := Bits(t.code, a.key, a.value), TreeValues(m, k);
    var p := t.(code := t.code[PairAccount(a.key, a.value) := Bitmap(ids - {id})]);
    CleanIs(t, a, id, k, kind);
    hide *;
    DropPairIs(t, a, id);
    OtherIndex(k, a.key, a.value);
    TreeElsewhere(t.code, PairAccount(a.key, a.value), Bitmap(ids - {id}), k);
    SameExact(t, p, k, kind);
    if ids != {} && a.tier2 && ids - {id} == {} {
      if a.key == k {
        IndexesParts(t.code, m, t.lossy, k);
        PairCleared(t.code, a, ids - {id});
        ExactParts(t, k, kind);
        ExactParts(p, k, kind);
        TreeAtHolds(p.code, k, s);
        OnlyOne(ids, id);
        RemoveTreeKeeps(p, k, a.value, s, kind);
        ExactParts(DropPair(t, a, id).value, k, kind);
      } else {
        RemoveElsewhere(p, a.key, a.value, k);
        SameExact(p, DropPair(t, a, id).value, k, kind);
      }
    }
  }

  lemma OnlyOne(ids: set<nat>, id: nat)
    requires ids != {} && ids - {id} == {}
    ensures ids == {id}
  {}

  lemma CleanIs(t: Tiers, a: Annotation, id: nat, k: Key, kind: Kind)
    requires CleanDrop(t, a, id, k, kind)
    ensures kind.Text? && a.key == k && a.tier2 && Bits(t.code, k, a.value) == {id} && TreeAt(t.code, k).Some? ==> RemoveClean(TreeAt(t.code, k).value, a.value)
  {}

  // ── Lists of pairs ───────────────────────────────────────────────────

  lemma MoreValues(m: Model, id: nat, s: set<Annotation>, u: set<Annotation>, k: Key)
    requires s <= u
    ensures TreeValues(Added(m, id, s), k) <= TreeValues(Added(m, id, u), k)
  {
    CarriedPlusAll(m, id, s);
    CarriedPlusAll(m, id, u);
    forall v | v in TreeValues(Added(m, id, s), k) ensures v in TreeValues(Added(m, id, u), k) {
      TreeValueIn(Added(m, id, s), k, v);
      TreeValueIn(Added(m, id, u), k, v);
    }
  }

  lemma {:induction false} AddPairsKeep(t: Tiers, m: Model, anns: seq<Annotation>, skip: set<Annotation>, id: nat, k: Key, kind: Kind)
    requires IndexesAgree(t.code, m, t.lossy) && AddPairs(t, anns, skip, id).Some? && ZeroFree(k)
    requires (forall a :: a in anns ==> ZeroFree(a.key) && Short(a)) && FlagsAgree(PlusAll(m, id, Elements(anns) - skip))
    requires Exact(t, k, kind) && Within(TreeValues(Added(m, id, Elements(anns) - skip), k), kind)
    ensures Exact(AddPairs(t, anns, skip, id).value, k, kind)
  {
    hide *;
    if anns == [] {
      NoAnnotations(t, skip, id);
    } else {
      var pre, a := anns[..|anns| - 1], anns[|anns| - 1];
      var done := Elements(pre) - skip;
      AddPairsStep(t, anns, skip, id);
      ElementsLast(anns, skip);
      FewerFlags(m, id, done, Elements(anns) - skip);
      MoreValues(m, id, done, Elements(anns) - skip, k);
      WithinLess(TreeValues(Added(m, id, done), k), TreeValues(Added(m, id, Elements(anns) - skip), k), kind);
      AddPairsKeep(t, m, pre, skip, id, k, kind);
      AddPairsAgree(t, m, pre, skip, id);
      if a !in skip {
        AddedStep(m, id, done, a);
        AddPairKeeps(AddPairs(t, pre, skip, id).value, Added(m, id, done), a, id, k, kind);
      }
    }
  }

  lemma CleanStep(t: Tiers, anns: seq<Annotation>, skip: set<Annotation>, id: nat, k: Key, kind: Kind)
    requires CleanDrops(t, anns, skip, id, k, kind) && anns != []
    ensures var pre, a := anns[..|anns| - 1], anns[|anns| - 1];
      && CleanDrops(t, pre, skip, id, k, kind)
      && (a !in skip && DropPairs(t, pre, skip, id).Some? ==> CleanDrop(DropPairs(t, pre, skip, id).value, a, id, k, kind))
  {}

  lemma {:induction false} DropPairsKeep(t: Tiers, m: Model, anns: seq<Annotation>, skip: set<Annotation>, id: nat, k: Key, kind: Kind)
    requires IndexesAgree(t.code, m, t.lossy) && DropPairs(t, anns, skip, id).Some? && id in m && FlagsAgree(m) && ZeroFree(k)
    requires (forall a :: a in anns ==> ZeroFree(a.key)) && (forall a :: a in Elements(anns) - skip ==> !BitClash(m, id, a))
    requires Exact(t, k, kind) && CleanDrops(t, anns, skip, id, k, kind)
    ensures Exact(DropPairs(t, anns, skip, id).value, k, kind)
  {
    hide *;
    if anns == [] {
      NoAnnotations(t, skip, id);
    } else {
      var pre, a := anns[..|anns| - 1], anns[|anns| - 1];
      AddPairsStep(t, anns, skip, id);
      ElementsLast(anns, skip);
      CleanStep(t, anns, skip, id, k, kind);
      DropPairsKeep(t, m, pre, skip, id, k, kind);
      DropPairsAgree(t, m, pre, skip, id);
      if a !in skip {
        DropPairKeeps(DropPairs(t, pre, skip, id).value, MinusAll(m, id, Elements(pre) - skip), a, id, k, kind);
      }
    }
  }

  // ── One operation ────────────────────────────────────────────────────

  ghost predicate CleanOp(d: Db, op: DbOp, k: Key, kind: Kind) {
    PlanOf(d.code, d.storage, op).Some? ==>
      var plan := PlanOf(d.code, d.storage, op).value;
      CleanDrops(Tiers(d.code, d.lossy), plan.gone, plan.kept, plan.id, k, kind)
  }

  /** A record write touches no tree. */
  lemma RecordTree(c: Codes, c0: Codes, op: DbOp, k: Key)
    ensures TreeAt(NextCode(c, c0, op), k) == TreeAt(c, k)
  {}

  lemma CreateKeepsExact(d: Db, ents: map<Address, Entity>, m: Model, e: Entity, k: Key, kind: Kind)
    requires Consistent(d.code, Ids(d.storage), ents, m, d.lossy) && Allowed(d.storage, ents, m, CreateOp(e))
    requires StepDb(d, CreateOp(e)).Some? && ShortOp(CreateOp(e)) && ZeroFree(k)
    requires Exact(Tiers(d.code, d.lossy), k, kind)
    requires Within(TreeValues(m[EntityCount(d.storage) := Annotations(e)], k), kind)
    ensures Exact(Tiers(StepDb(d, CreateOp(e)).value.code, StepDb(d, CreateOp(e)).value.lossy), k, kind)
  {
    var t, op, id := Tiers(d.code, d.lossy), CreateOp(e), EntityCount(d.storage);
    StepIs(d, op);
    ShortPlan(d.code, d.storage, op);
    NoAnnotations(t, {}, id);
    var q, p := AddPairs(t, AnnotationList(e), {}, id).value, StepDb(d, op).value;
    assert p.code == NextCode(q.code, d.code, op) && p.lossy == q.lossy;
    hide *;
    CreateAllowed(d.storage, ents, m, e);
    Parts(d.code, Ids(d.storage), ents, m, d.lossy);
    IdsRead(d.storage, EntityAddress(e.key));
    EntityOkUsers(e, EntityAddress(e.key));
    ProperEntity(e);
    AnnotationsAdded(ents, EntityAddress(e.key), e);
    FreshId(m, AnnotationsOf(ents), Ids(d.storage));
    FirstIndexing(m, id, e);
    AddPairsKeep(t, m, AnnotationList(e), {}, id, k, kind);
    RecordTree(q.code, d.code, op, k);
    SameExact(q, Tiers(p.code, p.lossy), k, kind);
  }

  lemma ChangeKeepsExact(d: Db, ents: map<Address, Entity>, m: Model, op: DbOp, k: Key, kind: Kind)
    requires Consistent(d.code, Ids(d.storage), ents, m, d.lossy) && Allowed(d.storage, ents, m, op)
    requires (op.UpdateOp? || op.ExtendOp? || op.TransferOp?) && op.Target() in ents
    requires StepDb(d, op).Some? && ShortOp(op) && ZeroFree(k)
    requires Exact(Tiers(d.code, d.lossy), k, kind) && CleanOp(d, op, k, kind)
    requires Within(TreeValues(m[IdOf(d.storage, op.Target()) := Annotations(NewRecord(ents[op.Target()], op))], k), kind)
    ensures Exact(Tiers(StepDb(d, op).value.code, StepDb(d, op).value.lossy), k, kind)
  {
    var t, a, p := Tiers(d.code, d.lossy), op.Target(), StepDb(d, op).value;
    StepIs(d, op);
    var plan := PlanOf(d.code, d.storage, op).value;
    Parts(d.code, Ids(d.storage), ents, m, d.lossy);
    FoundIs(d.code, ents, a);
    ShortPlan(d.code, d.storage, op);
    var e, e', id := ents[a], NewRecord(ents[a], op), plan.id;
    var gone, come := Elements(plan.gone) - plan.kept, Elements(plan.come) - plan.had;
    var r := DropPairs(t, plan.gone, plan.kept, id).value;
    var q := AddPairs(r, plan.come, plan.had, id).value;
    assert plan == PlanFor(e, IdOf(d.storage, a), op) && id == IdOf(d.storage, a);
    assert p.code == NextCode(q.code, d.code, op) && p.lossy == q.lossy;
    assert CleanDrops(t, plan.gone, plan.kept, plan.id, k, kind);
    hide *;
    ChangeFits(d, ents, m, op);
    FitsParts(m, plan, e, e', a);
    OwnFlags(m, id, gone);
    DropPairsKeep(t, m, plan.gone, plan.kept, id, k, kind);
    DropPairsAgree(t, m, plan.gone, plan.kept, id);
    ReplaceFlags(m, id, gone, come, Annotations(e'));
    AddPairsKeep(r, MinusAll(m, id, gone), plan.come, plan.had, id, k, kind);
    RecordTree(q.code, d.code, op, k);
    SameExact(q, Tiers(p.code, p.lossy), k, kind);
  }

  lemma DeleteKeepsExact(d: Db, ents: map<Address, Entity>, m: Model, key: B256, k: Key, kind: Kind)
    requires Consistent(d.code, Ids(d.storage), ents, m, d.lossy) && EntityAddress(key) in ents
    requires StepDb(d, DeleteOp(key)).Some? && ZeroFree(k)
    requires Exact(Tiers(d.code, d.lossy), k, kind) && CleanOp(d, DeleteOp(key), k, kind)
    ensures Exact(Tiers(StepDb(d, DeleteOp(key)).value.code, StepDb(d, DeleteOp(key)).value.lossy), k, kind)
  {
    var t, op, a, p := Tiers(d.code, d.lossy), DeleteOp(key), EntityAddress(key), StepDb(d, DeleteOp(key)).value;
    StepIs(d, op);
    Parts(d.code, Ids(d.storage), ents, m, d.lossy);
    FoundIs(d.code, ents, a);
    var e, id := ents[a], IdOf(d.storage, a);
    var q := DropPairs(t, AnnotationList(e.(key := key)), {}, id).value;
    NoAnnotations(q, {}, id);
    assert p.code == NextCode(q.code, d.code, op) && p.lossy == q.lossy;
    assert CleanDrops(t, AnnotationList(e.(key := key)), {}, id, k, kind);
    hide *;
    IdsRead(d.storage, a);
    ModelAt(m, ents, Ids(d.storage), a);
    DeletionSet(m, id, e, a, key);
    DropPairsKeep(t, m, AnnotationList(e.(key := key)), {}, id, k, kind);
    RecordTree(q.code, d.code, op, k);
    SameExact(q, Tiers(p.code, p.lossy), k, kind);
  }

  lemma StepKeepsExact(d: Db, ents: map<Address, Entity>, m: Model, op: DbOp, k: Key, kind: Kind)
    requires Consistent(d.code, Ids(d.storage), ents, m, d.lossy) && Allowed(d.storage, ents, m, op)
    requires StepDb(d, op).Some? && ShortOp(op) && ZeroFree(k)
    requires Exact(Tiers(d.code, d.lossy), k, kind) && CleanOp(d, op, k, kind)
    requires Within(TreeValues(ModelAfter(m, Ids(d.storage), ents, op), k), kind)
    ensures Exact(Tiers(StepDb(d, op).value.code, StepDb(d, op).value.lossy), k, kind)
  {
    StepKeeps(d, ents, m, op);
    if op.SlotOp? {
      SlotIs(d, op.slot, op.word);
    } else {
      IdsRead(d.storage, op.Target());
      hide Consistent, Allowed, StepDb, Exact, Within, TreeValues, CleanOp, Annotations;
      if op.CreateOp? {
        CreateKeepsExact(d, ents, m, op.record, k, kind);
      } else if op.DeleteOp? {
        DeleteKeepsExact(d, ents, m, op.key, k, kind);
      } else {
        ChangeKeepsExact(d, ents, m, op, k, kind);
      }
    }
  }

  // ── Runs ─────────────────────────────────────────────────────────────

  /** A database together with the entities and the index model it stands for. */
  datatype View = View(d: Db, ents: map<Address, Entity>, m: Model)

  ghost predicate Sane(v: View) {
    Consistent(v.d.code, Ids(v.d.storage), v.ents, v.m, v.d.lossy) && Readable(v.d.code)
  }

  const EMPTY_VIEW: View := View(Db(map[], map[], {}), map[], map[])

  ghost function Advance(v: View, op: DbOp): View {
    if StepDb(v.d, op).None? then v
    else View(StepDb(v.d, op).value, EntsAfter(v.ents, op), ModelAfter(v.m, Ids(v.d.storage), v.ents, op))
  }

  ghost function Visit(v: View, ops: seq<DbOp>): View {
    if ops == [] then v else Advance(Visit(v, ops[..|ops| - 1]), ops[|ops| - 1])
  }

  /** Every operation is allowed when its turn comes, and has a record to work on. */
  ghost predicate Permitted(v: View, ops: seq<DbOp>) {
    ops != [] ==>
      var u, op := Visit(v, ops[..|ops| - 1]), ops[|ops| - 1];
      && Permitted(v, ops[..|ops| - 1])
      && Allowed(u.d.storage, u.ents, u.m, op) && ShortOp(op) && PlanOf(u.d.code, u.d.storage, op).Some?
  }

  lemma AdvanceSane(v: View, op: DbOp)
    requires Sane(v) && Allowed(v.d.storage, v.ents, v.m, op) && ShortOp(op) && PlanOf(v.d.code, v.d.storage, op).Some?
    ensures Sane(Advance(v, op)) && StepDb(v.d, op) == Some(Advance(v, op).d)
    ensures Advance(v, op) == View(StepDb(v.d, op).value, EntsAfter(v.ents, op), ModelAfter(v.m, Ids(v.d.storage), v.ents, op))
  {
    hide Consistent, Readable, Allowed, ShortOp, PlanOf, StepDb;
    StepReads(v.d, op);
    StepKeeps(v.d, v.ents, v.m, op);
  }

  lemma VisitStep(v: View, ops: seq<DbOp>)
    requires ops != [] && Permitted(v, ops)
    ensures var u, op := Visit(v, ops[..|ops| - 1]), ops[|ops| - 1];
      && Permitted(v, ops[..|ops| - 1]) && Visit(v, ops) == Advance(u, op)
      && Allowed(u.d.storage, u.ents, u.m, op) && ShortOp(op) && PlanOf(u.d.code, u.d.storage, op).Some?
  {}

  /** No permitted run fails, and the invariant holds all along. */
  lemma {:induction false} RunSane(v: View, ops: seq<DbOp>)
    requires Sane(v) && Permitted(v, ops)
    ensures Sane(Visit(v, ops)) && RunDb(v.d, ops) == Some(Visit(v, ops).d)
  {
    if ops != [] {
      VisitStep(v, ops);
      RunSane(v, ops[..|ops| - 1]);
      hide Sane, StepDb, Permitted, Allowed, PlanOf;
      AdvanceSane(Visit(v, ops[..|ops| - 1]), ops[|ops| - 1]);
    }
  }

  // ── Runs on which a pair may get two tree flags ──────────────────────

  /** Records and id map are in order and every tree can be read: what no
      operation ever breaks. */
  ghost predicate Steady(v: View) {
    Filed(v.d.code, Ids(v.d.storage), v.ents) && Readable(v.d.code)
  }

  lemma SteadyParts(v: View)
    requires Steady(v)
    ensures Filed(v.d.code, Ids(v.d.storage), v.ents) && Readable(v.d.code)
    ensures CodeIs(v.d.code, v.ents) && EntitiesOk(v.ents) && IdsAgree(v.ents.Keys, Ids(v.d.storage))
  {}

  lemma SaneSteady(v: View)
    requires Sane(v)
    ensures Steady(v)
  {
    hide Readable, CodeIs, EntitiesOk, IdsAgree, ModelIs, IndexesAgree, FlagsAgree, ProperModel;
  }

  /** Every operation fits when its turn comes, and has a record to work on. */
  ghost predicate Possible(v: View, ops: seq<DbOp>) {
    ops != [] ==>
      var u, op := Visit(v, ops[..|ops| - 1]), ops[|ops| - 1];
      && Possible(v, ops[..|ops| - 1])
      && Fitting(u.d.storage, u.ents, op) && ShortOp(op) && PlanOf(u.d.code, u.d.storage, op).Some?
  }

  lemma PossibleStep(v: View, ops: seq<DbOp>)
    requires ops != [] && Possible(v, ops)
    ensures var u, op := Visit(v, ops[..|ops| - 1]), ops[|ops| - 1];
      && Possible(v, ops[..|ops| - 1]) && Visit(v, ops) == Advance(u, op)
      && Fitting(u.d.storage, u.ents, op) && ShortOp(op) && PlanOf(u.d.code, u.d.storage, op).Some?
  {}

  lemma AdvanceSteady(v: View, op: DbOp)
    requires Steady(v) && Fitting(v.d.storage, v.ents, op) && ShortOp(op) && PlanOf(v.d.code, v.d.storage, op).Some?
    ensures Steady(Advance(v, op)) && StepDb(v.d, op) == Some(Advance(v, op).d)
  {
    hide Filed, Readable, Fitting, ShortOp, PlanOf, StepDb;
    StepReads(v.d, op);
    StepFiles(v.d, v.ents, op);
  }

  /** No run fails, and records and id map stay in order, whatever flags the
      pairs get. */
  lemma {:induction false} RunSteady(v: View, ops: seq<DbOp>)
    requires Steady(v) && Possible(v, ops)
    ensures Steady(Visit(v, ops)) && RunDb(v.d, ops) == Some(Visit(v, ops).d)
  {
    if ops != [] {
      PossibleStep(v, ops);
      RunSteady(v, ops[..|ops| - 1]);
      hide Steady, StepDb, Possible, Fitting, PlanOf;
      AdvanceSteady(Visit(v, ops[..|ops| - 1]), ops[|ops| - 1]);
    }
  }

  /** As long as every pair has one flag, such a run is permitted, and the indexes
      tell the truth. */
  lemma {:induction false} OneFlagRun(v: View, ops: seq<DbOp>)
    requires Possible(v, ops) && forall i :: 0 <= i <= |ops| ==> FlagsAgree(Visit(v, ops[..i]).m)
    requires Steady(v)
    ensures Permitted(v, ops)
  {
    if ops != [] {
      var pre, op := ops[..|ops| - 1], ops[|ops| - 1];
      PossibleStep(v, ops);
      assert ops[..|ops|] == ops;
      forall i | 0 <= i <= |pre| ensures FlagsAgree(Visit(v, pre[..i]).m) { assert pre[..i] == ops[..i]; }
      OneFlagRun(v, pre);
      RunSteady(v, pre);
      hide Steady, StepDb, Possible, Fitting, PlanOf, FlagsAgree, Allowed, ModelAfter;
      var u := Visit(v, pre);
      AdvanceSteady(u, op);
      AllowedBy(u.d.storage, u.ents, u.m, op);
    }
  }

  /** The ordered values of the live entities under `k`. */
  ghost function OrderedValues(ents: map<Address, Entity>, k: Key): set<Key> {
    set a, x | a in ents && x in Annotations(ents[a]) && x.key == k && x.tier2 :: x.value
  }

  lemma OrderedIn(ents: map<Address, Entity>, k: Key, w: Key)
    ensures w in OrderedValues(ents, k) <==> exists a :: a in ents && Annotation(k, w, true) in Annotations(ents[a])
  {
    if w in OrderedValues(ents, k) {
      var a, x :| a in ents && x in Annotations(ents[a]) && x.key == k && x.tier2 && x.value == w;
      assert x == Annotation(k, w, true);
    }
  }

  /** The index model has no others. */
  lemma OrderedModel(v: View, k: Key)
    requires Sane(v)
    ensures TreeValues(v.m, k) == OrderedValues(v.ents, k)
  {
    var x, g := Ids(v.d.storage), AnnotationsOf(v.ents);
    Parts(v.d.code, x, v.ents, v.m, v.d.lossy);
    forall w ensures w in TreeValues(v.m, k) <==> w in OrderedValues(v.ents, k) {
      OrderedIn(v.ents, k, w);
      OrderedOwner(v.m, v.ents, x, k, w);
    }
  }

  lemma OrderedOwner(m: Model, ents: map<Address, Entity>, x: IdMap, k: Key, w: Key)
    requires ModelIs(m, AnnotationsOf(ents), x)
    ensures w in TreeValues(m, k) <==> exists a :: a in ents && Annotation(k, w, true) in Annotations(ents[a])
  {
    hide Annotations;
    var g := AnnotationsOf(ents);
    TreeValueIn(m, k, w);
    if w in TreeValues(m, k) {
      var id :| id in m && Annotation(k, w, true) in m[id];
      assert Owned(g, x, id);
      var a :| a in g && x.idOf(a) == id;
      assert a in ents && Annotation(k, w, true) in Annotations(ents[a]);
    }
    if a :| a in ents && Annotation(k, w, true) in Annotations(ents[a]) {
      assert a in g && m[x.idOf(a)] == g[a];
      CarriedAt(m, x.idOf(a), Annotation(k, w, true));
    }
  }

  /** The values under `k` stay within bounds all along, and with values of text
      every removal that reaches the tree is clean. */
  ghost predicate Tame(v: View, ops: seq<DbOp>, k: Key, kind: Kind) {
    && Within(OrderedValues(Visit(v, ops).ents, k), kind)
    && (ops != [] ==>
         Tame(v, ops[..|ops| - 1], k, kind) && CleanOp(Visit(v, ops[..|ops| - 1]).d, ops[|ops| - 1], k, kind))
  }

  lemma TameStep(v: View, ops: seq<DbOp>, k: Key, kind: Kind)
    requires Tame(v, ops, k, kind)
    ensures Within(OrderedValues(Visit(v, ops).ents, k), kind)
    ensures ops != [] ==> Tame(v, ops[..|ops| - 1], k, kind) && CleanOp(Visit(v, ops[..|ops| - 1]).d, ops[|ops| - 1], k, kind)
  {}

  lemma {:induction false} RunExact(v: View, ops: seq<DbOp>, k: Key, kind: Kind)
    requires Sane(v) && Permitted(v, ops) && ZeroFree(k) && Tame(v, ops, k, kind)
    requires Exact(Tiers(v.d.code, v.d.lossy), k, kind)
    ensures Exact(Tiers(Visit(v, ops).d.code, Visit(v, ops).d.lossy), k, kind)
  {
    TameStep(v, ops, k, kind);
    RunSane(v, ops);
    if ops == [] {
      assert Visit(v, ops) == v;
    } else {
      VisitStep(v, ops);
      RunSane(v, ops[..|ops| - 1]);
      hide *;
      var u, op := Visit(v, ops[..|ops| - 1]), ops[|ops| - 1];
      RunExact(v, ops[..|ops| - 1], k, kind);
      AdvanceSane(u, op);
      SaneParts(u);
      OrderedModel(Visit(v, ops), k);
      StepKeepsExact(u.d, u.ents, u.m, op, k, kind);
    }
  }

  lemma SaneParts(v: View)
    requires Sane(v)
    ensures Consistent(v.d.code, Ids(v.d.storage), v.ents, v.m, v.d.lossy) && Readable(v.d.code)
  {}

  lemma EmptySane()
    ensures Sane(EMPTY_VIEW)
    ensures forall k, kind :: Exact(Tiers(EMPTY_VIEW.d.code, EMPTY_VIEW.d.lossy), k, kind)
  {
    EmptyConsistent();
  }

  /** An exact key: its tree holds the ordered values of the live entities. */
  lemma ExactTree(v: View, k: Key)
    requires Sane(v) && ZeroFree(k) && k !in v.d.lossy
    ensures TreeHolds(v.d.code, k, OrderedValues(v.ents, k))
  {
    OrderedModel(v, k);
    Parts(v.d.code, Ids(v.d.storage), v.ents, v.m, v.d.lossy);
    IndexesParts(v.d.code, v.m, v.d.lossy, k);
  }

  /** Over every run from the empty database in which the live entities never
      have more than sixteen ordered values under a key, the tree of the key
      holds exactly those values. */
  lemma FewStayExact(ops: seq<DbOp>, k: Key)
    requires Permitted(EMPTY_VIEW, ops) && ZeroFree(k)
    requires forall i :: 0 <= i <= |ops| ==> |OrderedValues(Visit(EMPTY_VIEW, ops[..i]).ents, k)| <= 16
    ensures var v := Visit(EMPTY_VIEW, ops);
      Sane(v) && k !in v.d.lossy && TreeHolds(v.d.code, k, OrderedValues(v.ents, k))
  {
    EmptySane();
    FewTame(EMPTY_VIEW, ops, k);
    RunSane(EMPTY_VIEW, ops);
    RunExact(EMPTY_VIEW, ops, k, Few);
    ExactTree(Visit(EMPTY_VIEW, ops), k);
  }

  lemma {:induction false} FewTame(v: View, ops: seq<DbOp>, k: Key)
    requires forall i :: 0 <= i <= |ops| ==> |OrderedValues(Visit(v, ops[..i]).ents, k)| <= 16
    ensures Tame(v, ops, k, Few)
  {
    assert ops[..|ops|] == ops;
    hide OrderedValues, Visit, CleanOp;
    if ops != [] {
      var pre := ops[..|ops| - 1];
      forall i | 0 <= i <= |pre| ensures |OrderedValues(Visit(v, pre[..i]).ents, k)| <= 16 { assert pre[..i] == ops[..i]; }
      FewTame(v, pre, k);
      FewClean(Visit(v, pre).d, ops[|ops| - 1], k);
    }
  }

  lemma FewClean(d: Db, op: DbOp, k: Key)
    ensures CleanOp(d, op, k, Few)
  {
    if PlanOf(d.code, d.storage, op).Some? {
      var plan := PlanOf(d.code, d.storage, op).value;
      FewDrops(Tiers(d.code, d.lossy), plan.gone, plan.kept, plan.id, k);
    }
  }

  lemma {:induction false} FewDrops(t: Tiers, anns: seq<Annotation>, skip: set<Annotation>, id: nat, k: Key)
    ensures CleanDrops(t, anns, skip, id, k, Few)
  {
    hide DropPairs;
    if anns != [] { FewDrops(t, anns[..|anns| - 1], skip, id, k); }
  }

  /** Over every run from the empty database, a key whose ordered values have no
      byte 0xFF, such as UTF-8 text, and whose removals leave no hole and hand on
      no wrong counter, is exact. */
  lemma TextStaysExact(ops: seq<DbOp>, k: Key)
    requires Permitted(EMPTY_VIEW, ops) && ZeroFree(k)
    requires forall i :: 0 <= i <= |ops| ==> Within(OrderedValues(Visit(EMPTY_VIEW, ops[..i]).ents, k), Text)
    requires forall i :: 0 <= i < |ops| ==> CleanOp(Visit(EMPTY_VIEW, ops[..i]).d, ops[i], k, Text)
    ensures var v := Visit(EMPTY_VIEW, ops);
      Sane(v) && k !in v.d.lossy && TreeHolds(v.d.code, k, OrderedValues(v.ents, k))
  {
    EmptySane();
    TextTame(EMPTY_VIEW, ops, k);
    RunSane(EMPTY_VIEW, ops);
    RunExact(EMPTY_VIEW, ops, k, Text);
    ExactTree(Visit(EMPTY_VIEW, ops), k);
  }

  lemma {:induction false} TextTame(v: View, ops: seq<DbOp>, k: Key)
    requires forall i :: 0 <= i <= |ops| ==> Within(OrderedValues(Visit(v, ops[..i]).ents, k), Text)
    requires forall i :: 0 <= i < |ops| ==> CleanOp(Visit(v, ops[..i]).d, ops[i], k, Text)
    ensures Tame(v, ops, k, Text)
  {
    hide CleanOp, Within, OrderedValues, Visit;
    assert ops[..|ops|] == ops;
    if ops != [] {
      var pre := ops[..|ops| - 1];
      forall i | 0 <= i <= |pre| ensures Within(OrderedValues(Visit(v, pre[..i]).ents, k), Text) { assert pre[..i] == ops[..i]; }
      forall i | 0 <= i < |pre| ensures CleanOp(Visit(v, pre[..i]).d, pre[i], k, Text) { assert pre[..i] == ops[..i]; }
      TextTame(v, pre, k);
    }
  }

  // ── Runs on which the tiers stop agreeing ────────────────────────────

  /** The index model of the empty database. */
  function NoModel(): Model { map[] }

  function NoTiers(): Tiers { Tiers(map[], {}) }

  lemma NothingIndexed()
    ensures IndexesAgree(NoTiers().code, NoModel(), {}) && Readable(NoTiers().code) && NoTiers().lossy == {}
    ensures forall k, v :: Bits(NoTiers().code, k, v) == {}
    ensures forall k :: TreeValues(NoModel(), k) == {}
  {
    EmptyConsistent();
    assert Carried(NoModel()) == {};
    forall k ensures TreeValues(NoModel(), k) == {} {}
  }

  /** One pair indexed in an empty database. */
  lemma FirstPair(a: Annotation)
    requires ZeroFree(a.key) && Short(a)
    ensures var m := Plus(NoModel(), 0, a);
      && AddPair(NoTiers(), a, 0).Some?
      && var p := AddPair(NoTiers(), a, 0).value;
      && IndexesAgree(p.code, m, p.lossy) && Readable(p.code) && p.lossy == {}
      && TreeValues(m, a.key) == (if a.tier2 then {a.value} else {}) && m == map[0 := {a}]
  {
    NothingIndexed();
    TreeValuesPlus(NoModel(), 0, a, a.key);
    hide *;
    AddPairReads(NoTiers(), a, 0);
    AddPairExact(NoTiers(), NoModel(), a, 0);
    FirstLossless(a);
    FirstClash(a);
    PlusNothing(a);
  }

  lemma PlusNothing(a: Annotation)
    ensures Plus(NoModel(), 0, a) == map[0 := {a}]
    ensures TreeValues(NoModel(), a.key) == {} ==> TreeValues(NoModel(), a.key) + (if a.tier2 then {a.value} else {}) == if a.tier2 then {a.value} else {}
  {
    assert {} + {a} == {a};
  }

  lemma FirstClash(a: Annotation)
    ensures !Clash(NoTiers().code, NoModel(), a.key, a.value, a.tier2)
  {}

  lemma FirstLossless(a: Annotation)
    requires Short(a) && AddPair(NoTiers(), a, 0).Some?
    ensures AddPair(NoTiers(), a, 0).value.lossy == {}
  {
    var p := NoTiers().(code := NoTiers().code[PairAccount(a.key, a.value) := Bitmap({} + {0})]);
    PairIndexDisjoint(a.key, a.value, a.key);
    assert TreeAt(p.code, a.key) == Some(EmptyTree);
    assert !Loses(Empty, a.value);
  }

  /** The pair again, for another id and under the other flag: the tree is not
      looked at. */
  lemma SecondPair(a: Annotation, b: Annotation)
    requires ZeroFree(a.key) && Short(a) && b == Annotation(a.key, a.value, !a.tier2)
    ensures var m := Plus(NoModel(), 0, a);
      && AddPair(NoTiers(), a, 0).Some? && AddPair(AddPair(NoTiers(), a, 0).value, b, 1).Some?
      && var t, p := AddPair(NoTiers(), a, 0).value, AddPair(AddPair(NoTiers(), a, 0).value, b, 1).value;
      && BitsAgree(p.code, map[0 := {a}, 1 := {b}]) && Plus(m, 1, b) == map[0 := {a}, 1 := {b}]
      && 1 in Bits(p.code, a.key, a.value) && TreeHolds(p.code, a.key, if a.tier2 then {a.value} else {}) && p.lossy == {}
      && (IndexesAgree(p.code, map[0 := {a}, 1 := {b}], {}) <==> a.tier2)
  {
    var m := Plus(NoModel(), 0, a);
    FirstPair(a);
    var t := AddPair(NoTiers(), a, 0).value;
    var ids := Bits(t.code, a.key, a.value);
    hide *;
    IndexesParts(t.code, m, t.lossy, a.key);
    BitsHave(t.code, m, 0, a);
    AddPairIs(t, b, 1);
    PairWritten(t.code, m, 1, b, ids + {1}, t.lossy);
    TwoIds(m, a, b);
    FlagClash(t.code, m, a, b);
    AddPairExact(t, m, b, 1);
    BitsHave(AddPair(t, b, 1).value.code, Plus(m, 1, b), 1, b);
  }

  lemma TwoIds(m: Model, a: Annotation, b: Annotation)
    requires m == map[0 := {a}]
    ensures Plus(m, 1, b) == map[0 := {a}, 1 := {b}]
  {
    assert {} + {b} == {b};
  }

  lemma FlagClash(code: Codes, m: Model, a: Annotation, b: Annotation)
    requires b == Annotation(a.key, a.value, !a.tier2) && 0 in Bits(code, a.key, a.value)
    requires TreeValues(m, a.key) == if a.tier2 then {a.value} else {}
    ensures Clash(code, m, b.key, b.value, b.tier2) <==> !a.tier2
  {}

  lemma LetterA()
    ensures ZeroFree([97])
  {}

  /** One name and value, first as an entity key and then as a number: the
      bitmap has the number's entity, the tree has nothing. */
  lemma ClashRun(v: Key)
    requires |v| <= 255
    ensures var a, b := Annotation([97], v, false), Annotation([97], v, true);
      && AddPair(NoTiers(), a, 0).Some? && AddPair(AddPair(NoTiers(), a, 0).value, b, 1).Some?
      && var p := AddPair(AddPair(NoTiers(), a, 0).value, b, 1).value;
      && 1 in Bits(p.code, [97], v) && TreeHolds(p.code, [97], {}) && v in TreeValues(map[0 := {a}, 1 := {b}], [97])
      && !IndexesAgree(p.code, map[0 := {a}, 1 := {b}], p.lossy)
  {
    var a, b := Annotation([97], v, false), Annotation([97], v, true);
    var m: Model := map[0 := {a}, 1 := {b}];
    CarriedAt(m, 1, b);
    TreeValueIn(m, [97], v);
    ShortIs(a);
    hide *;
    LetterA();
    SecondPair(a, b);
  }

  lemma BitsHave(code: Codes, m: Model, id: nat, a: Annotation)
    requires BitsAgree(code, m) && id in m && a in m[id] && ZeroFree(a.key)
    ensures id in Bits(code, a.key, a.value)
  {
    assert a == Annotation(a.key, a.value, a.tier2);
    assert Carries(m, id, a.key, a.value);
  }

  /** First as a number and then as an entity key, and the number's entity goes:
      the value stays in the tree, though nobody holds it as a number. */
  lemma DropClashRun(v: Key)
    requires |v| <= 255
    ensures var a, b := Annotation([97], v, true), Annotation([97], v, false);
      && AddPair(NoTiers(), a, 0).Some? && AddPair(AddPair(NoTiers(), a, 0).value, b, 1).Some?
      && DropPair(AddPair(AddPair(NoTiers(), a, 0).value, b, 1).value, a, 0).Some?
      && var p := DropPair(AddPair(AddPair(NoTiers(), a, 0).value, b, 1).value, a, 0).value;
      && TreeHolds(p.code, [97], {v}) && TreeValues(map[0 := {}, 1 := {b}], [97]) == {}
      && !IndexesAgree(p.code, map[0 := {}, 1 := {b}], p.lossy)
  {
    var a, b := Annotation([97], v, true), Annotation([97], v, false);
    var n: Model := map[0 := {a}, 1 := {b}];
    ShortIs(a);
    NumberGone(n, a, b);
    hide *;
    LetterA();
    SecondPair(a, b);
    var q := AddPair(AddPair(NoTiers(), a, 0).value, b, 1).value;
    LastStays(q, v);
    IndexesParts(q.code, n, q.lossy, [97]);
    PairCleared(q.code, a, Bits(q.code, [97], v) - {0});
    DropPairExact(q, n, a, 0);
  }

  lemma NumberGone(n: Model, a: Annotation, b: Annotation)
    requires a.tier2 && b == Annotation(a.key, a.value, false) && n == map[0 := {a}, 1 := {b}]
    ensures Minus(n, 0, a) == map[0 := {}, 1 := {b}] && TreeValues(map[0 := {}, 1 := {b}], a.key) == {}
    ensures TreeClash(n, 0, a)
  {
    var m: Model := map[0 := {}, 1 := {b}];
    assert {a} - {a} == {};
    assert Minus(n, 0, a) == m;
    assert Carries(n, 1, a.key, a.value);
    forall v ensures v !in TreeValues(m, a.key) { TreeValueIn(m, a.key, v); }
  }

  lemma LastStays(q: Tiers, v: Key)
    requires 1 in Bits(q.code, [97], v)
    ensures DropPair(q, Annotation([97], v, true), 0)
         == Some(q.(code := q.code[PairAccount([97], v) := Bitmap(Bits(q.code, [97], v) - {0})]))
  {
    assert 1 in Bits(q.code, [97], v) - {0};
  }

  /** After a deletion the id is still in the `$key` bitmap of its entity if and
      only if the caller's key is not the one on record. */
  lemma DeleteLeaves(d: Db, ents: map<Address, Entity>, m: Model, key: B256)
    requires Consistent(d.code, Ids(d.storage), ents, m, d.lossy) && StepDb(d, DeleteOp(key)).Some?
    ensures EntityAddress(key) in ents
    ensures var p, id := StepDb(d, DeleteOp(key)).value, IdOf(d.storage, EntityAddress(key));
      id in Bits(p.code, ANNOT_KEY, ents[EntityAddress(key)].key) <==> ents[EntityAddress(key)].key != key
  {
    hide *;
    var a, x, p := EntityAddress(key), Ids(d.storage), StepDb(d, DeleteOp(key)).value;
    var n := ModelAfter(m, x, ents, DeleteOp(key));
    DeleteKeeps(d, ents, m, key);
    var e, id := ents[a], IdOf(d.storage, a);
    IdsRead(d.storage, a);
    ModelDeleted(m, x, ents, key);
    Parts(p.code, Ids(p.storage), ents - {a}, n, p.lossy);
    IndexesParts(p.code, n, p.lossy, ANNOT_KEY);
    BitsCarry(p.code, n, id, e.key);
    CarriesIs(n, id, e.key);
  }

  lemma ModelDeleted(m: Model, x: IdMap, ents: map<Address, Entity>, key: B256)
    requires EntityAddress(key) in ents
    ensures var e, id := ents[EntityAddress(key)], x.idOf(EntityAddress(key));
      ModelAfter(m, x, ents, DeleteOp(key)) == if e.key == key then m - {id} else m[id := {Annotation(ANNOT_KEY, e.key, false)}]
    ensures ZeroFree(ANNOT_KEY)
  {
    DollarKeys();
  }

  lemma BitsCarry(code: Codes, m: Model, id: nat, v: Key)
    requires BitsAgree(code, m)
    ensures id in Bits(code, ANNOT_KEY, v) <==> Carries(m, id, ANNOT_KEY, v)
  {
    DollarKeys();
  }

  lemma CarriesIs(m: Model, id: nat, v: Key)
    ensures id !in m ==> !Carries(m, id, ANNOT_KEY, v)
    ensures id in m && m[id] == {Annotation(ANNOT_KEY, v, false)} ==> Carries(m, id, ANNOT_KEY, v)
  {}

  /** An entity created in the empty database and deleted under a key with the
      same first twenty bytes: its record is gone, its id is free, and the id is
      still in a `$key` bitmap. */
  lemma StrayRun(e: Entity, key: B256)
    requires EntityOk(e, EntityAddress(e.key)) && EntityAddress(e.key) != ZeroAddress() && ShortOp(CreateOp(e))
    requires FlagsAgree(map[0 := Annotations(e)]) && EntityAddress(key) == EntityAddress(e.key) && key != e.key
    ensures var ops := [CreateOp(e), DeleteOp(key)];
      && Permitted(EMPTY_VIEW, ops)
      && var v := Visit(EMPTY_VIEW, ops);
      && v.ents == map[] && AddrWord(v.d.storage, 0) == ZeroWord() && 0 in Bits(v.d.code, ANNOT_KEY, e.key)
  {
    var v0, v1 := EMPTY_VIEW, Advance(EMPTY_VIEW, CreateOp(e));
    EmptySane();
    EmptyCount();
    FirstModel(e);
    assert Allowed(v0.d.storage, v0.ents, v0.m, CreateOp(e)) && PlanOf(v0.d.code, v0.d.storage, CreateOp(e)).Some?;
    AdvanceSane(v0, CreateOp(e));
    CreatedFirst(e, v1);
    assert Allowed(v1.d.storage, v1.ents, v1.m, DeleteOp(key)) && ShortOp(DeleteOp(key));
    AdvanceSane(v1, DeleteOp(key));
    DeleteLeaves(v1.d, v1.ents, v1.m, key);
    StrayVisit(e, key, v1);
    StrayGone(e, v1, Advance(v1, DeleteOp(key)), EntityAddress(key));
  }

  lemma StrayGone(e: Entity, v: View, w: View, a: Address)
    requires v.ents == map[a := e] && IdOf(v.d.storage, a) == 0
    requires w.d.storage == DeleteStorage(v.d.storage, 0, a) && w.ents == v.ents - {a}
    ensures w.ents == map[] && AddrWord(w.d.storage, 0) == ZeroWord()
  {
    DeleteReads(v.d.storage, a);
    IdsRead(v.d.storage, a);
    assert Ids(w.d.storage).word(0) == ZeroWord();
  }

  lemma EmptyCount()
    ensures EntityCount(map[]) == 0 && EntityCount(map[]) + 1 < U64
  {
    ZeroWordReads();
  }

  lemma FirstModel(e: Entity)
    ensures NoModel()[0 := Annotations(e)] == map[0 := Annotations(e)]
  {}

  lemma CreatedFirst(e: Entity, v: View)
    requires Sane(v) && Sane(EMPTY_VIEW) && StepDb(EMPTY_VIEW.d, CreateOp(e)) == Some(v.d) && v.ents == map[EntityAddress(e.key) := e]
    ensures IdOf(v.d.storage, EntityAddress(e.key)) == 0 && EntityIn(v.d.code, EntityAddress(e.key)) == Some(e)
  {
    EmptyCount();
    CreateIs(EMPTY_VIEW.d, e);
    CreateReads(map[], EntityAddress(e.key));
    IdsRead(v.d.storage, EntityAddress(e.key));
    IdsRead(map[], EntityAddress(e.key));
    Parts(v.d.code, Ids(v.d.storage), v.ents, v.m, v.d.lossy);
    FoundIs(v.d.code, v.ents, EntityAddress(e.key));
  }

  lemma StrayVisit(e: Entity, key: B256, v1: View)
    requires v1 == Advance(EMPTY_VIEW, CreateOp(e))
    requires Allowed(EMPTY_VIEW.d.storage, EMPTY_VIEW.ents, EMPTY_VIEW.m, CreateOp(e)) && ShortOp(CreateOp(e))
    requires PlanOf(EMPTY_VIEW.d.code, EMPTY_VIEW.d.storage, CreateOp(e)).Some?
    requires Allowed(v1.d.storage, v1.ents, v1.m, DeleteOp(key)) && PlanOf(v1.d.code, v1.d.storage, DeleteOp(key)).Some?
    ensures Permitted(EMPTY_VIEW, [CreateOp(e), DeleteOp(key)])
    ensures Visit(EMPTY_VIEW, [CreateOp(e), DeleteOp(key)]) == Advance(v1, DeleteOp(key))
  {
    var ops := [CreateOp(e), DeleteOp(key)];
    assert ops[..1] == [CreateOp(e)] && [CreateOp(e)][..0] == [];
    hide Advance, Allowed, PlanOf;
    assert Visit(EMPTY_VIEW, []) == EMPTY_VIEW;
    assert Visit(EMPTY_VIEW, [CreateOp(e)]) == v1;
    assert Permitted(EMPTY_VIEW, []);
    assert Permitted(EMPTY_VIEW, [CreateOp(e)]);
  }

  function Repeat(b: byte, n: nat): (k: Key)
    ensures |k| == n && forall i :: 0 <= i < n ==> k[i] == b
  {
    seq(n, _ => b)
  }

  /** Without attributes no pair has two flags. */
  lemma BuiltInFlags(e: Entity)
    requires e.attributes == []
    ensures FlagsAgree(map[0 := Annotations(e)])
  {
    ProperEntity(e);
    ProperBuiltIns(e.creator, e.owner, e.key, e.createdAt, e.expiresAt, e.contentType);
    var m: Model := map[0 := Annotations(e)];
    assert UserAnnotations(e.attributes) == [];
    forall x | x in Carried(m) ensures Proper(x) && Dollar(x.key) {
      assert x in Annotations(e);
    }
  }

  /** Such a run: keys of 32 bytes 1, and of twenty bytes 1 and twelve bytes 2. */
  lemma StrayInstance()
    ensures var key, other := Repeat(1, 32), Repeat(1, 20) + Repeat(2, 12);
      var e := Entity([], Repeat(1, 20), 0, Repeat(1, 20), 1, [], key, [], 0);
      && Permitted(EMPTY_VIEW, [CreateOp(e), DeleteOp(other)])
      && var v := Visit(EMPTY_VIEW, [CreateOp(e), DeleteOp(other)]);
      && v.ents == map[] && AddrWord(v.d.storage, 0) == ZeroWord() && 0 in Bits(v.d.code, ANNOT_KEY, key)
  {
    var key: B256, other: B256 := Repeat(1, 32), Repeat(1, 20) + Repeat(2, 12);
    var e := Entity([], Repeat(1, 20), 0, Repeat(1, 20), 1, [], key, [], 0);
    assert EntityAddress(key) == Repeat(1, 20) && EntityAddress(other) == Repeat(1, 20);
    assert Repeat(1, 20)[0] != ZeroAddress()[0] && key[31] != other[31];
    assert EntityOk(e, EntityAddress(e.key)) && ShortOp(CreateOp(e));
    BuiltInFlags(e);
    hide *;
    StrayRun(e, other);
  }
}
