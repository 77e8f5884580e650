/** Answering a query from the indexes alone. */
module Interpreter {
  import opened Options
  import opened Bytes
  import opened Accounts
  import opened ArtNode
  import opened ArtOrder
  import opened ArtWalk
  import opened ArtSer
  import opened ArtStore
  import opened Indexes
  import opened EntityDb
  import opened Query

  // ── What the evaluator computes ──────────────────────────────────────

  /** The union of the pair bitmaps of `vals`. */
  function UnionBits(code: Codes, k: Key, vals: seq<Key>): set<nat> {
    set v, id | v in vals && id in Bits(code, k, v) :: id
  }

  function AllIds(code: Codes): set<nat> { Bits(code, ANNOT_ALL, []) }

  /** The values of the tree of `k` that pass the test, as the code walks the
      tree. A tree that does not decode has none. */
  function Scan(code: Codes, k: Key, test: Key -> bool): seq<Key> {
    match TreeAt(code, k)
    case None => []
    case Some(t) => Filter(Walk(t.root), test)
  }

  /** The ids a query denotes, without the empty-left shortcut. */
  function Denote(code: Codes, q: Query): set<nat> {
    match q
    case All => AllIds(code)
    case Eq(k, v) => Bits(code, PairKey(k), v)
    case Neq(k, v) => AllIds(code) - Bits(code, PairKey(k), v)
    case In(k, vs) => UnionBits(code, PairKey(k), vs)
    case NotIn(k, vs) => AllIds(code) - UnionBits(code, PairKey(k), vs)
    case And(l, r) => Denote(code, l) * Denote(code, r)
    case Or(l, r) => Denote(code, l) + Denote(code, r)
    case Not(i) => AllIds(code) - Denote(code, i)
    case NotGlob(k, v) => AllIds(code) - UnionBits(code, PairKey(k), Scan(code, PairKey(k), Wants(Glob(k, v))))
    case _ => UnionBits(code, PairKey(q.key), Scan(code, PairKey(q.key), Wants(q)))
  }

  lemma UnionStep(code: Codes, k: Key, vals: seq<Key>, i: nat)
    requires i < |vals|
    ensures UnionBits(code, k, vals[..i + 1]) == UnionBits(code, k, vals[..i]) + Bits(code, k, vals[i])
  {
    assert vals[..i + 1] == vals[..i] + [vals[i]];
    assert vals[i] in vals[..i + 1];
  }

  /** Or the bitmaps of a list of values together, one by one. */
  method ReadIn(code: Codes, k: Key, vals: seq<Key>) returns (acc: set<nat>)
    ensures acc == UnionBits(code, k, vals)
  {
    acc := {};
    for i := 0 to |vals|
      invariant acc == UnionBits(code, k, vals[..i])
    {
      UnionStep(code, k, vals, i);
      acc := acc + Bits(code, k, vals[i]);
    }
    assert vals[..|vals|] == vals;
  }

  /** Or the bitmaps of the tree values that pass the test. */
  method ReadScan(code: Codes, k: Key, test: Key -> bool) returns (ok: bool, acc: set<nat>)
    ensures ok <==> TreeAt(code, k).Some?
    ensures ok ==> acc == UnionBits(code, k, Scan(code, k, test))
  {
    var t := TreeAt(code, k);
    if t.None? { return false, {}; }
    acc := ReadIn(code, k, Filter(Walk(t.value.root), test));
    ok := true;
  }

  /** The evaluator: fails only on a tree that does not decode, and the shortcut
      for an empty left side of AND changes no answer. */
  method Eval(code: Codes, q: Query) returns (ok: bool, r: set<nat>)
    ensures ok ==> r == Denote(code, q)
    ensures (forall k :: k in TreeKeys(q) ==> TreeAt(code, k).Some?) ==> ok
    decreases q
  {
    match q {
      case All => return true, AllIds(code);
      case Eq(k, v) => return true, Bits(code, PairKey(k), v);
      case Neq(k, v) =>
        var all := AllIds(code);
        return true, all - Bits(code, PairKey(k), v);
      case In(k, vs) =>
        r := ReadIn(code, PairKey(k), vs);
        return true, r;
      case NotIn(k, vs) =>
        var all := AllIds(code);
        r := ReadIn(code, PairKey(k), vs);
        return true, all - r;
      case And(left, right) =>
        var l;
        ok, l := Eval(code, left);
        if !ok || l == {} { return ok, l; }
        ok, r := Eval(code, right);
        return ok, l * r;
      case Or(left, right) =>
        var l;
        ok, l := Eval(code, left);
        if !ok { return ok, l; }
        ok, r := Eval(code, right);
        return ok, l + r;
      case Not(inner) =>
        var all := AllIds(code);
        ok, r := Eval(code, inner);
        return ok, all - r;
      case NotGlob(k, v) =>
        var all := AllIds(code);
        ok, r := ReadScan(code, PairKey(k), Wants(Glob(k, v)));
        return ok, all - r;
      case _ =>
        ok, r := ReadScan(code, PairKey(q.key), Wants(q));
    }
  }

  // ── What the answer means ────────────────────────────────────────────

  /** The ids of the live entities that satisfy `q`. */
  ghost predicate Matches(ents: map<Address, Entity>, x: IdMap, q: Query, id: nat) {
    exists a :: a in ents && x.idOf(a) == id && Satisfies(ents[a], q)
  }

  /** The indexed values of an entity are the ones on its record. */
  lemma AnnotationsAre(e: Entity, k: AnnotKey, v: Key)
    requires KeyOk(k) && UserAttributes(e.attributes)
    ensures HasValue(e, k, v) <==>
      Annotation(PairKey(k), v, true) in Annotations(e) || Annotation(PairKey(k), v, false) in Annotations(e)
    ensures HasOrdered(e, k, v) <==> Annotation(PairKey(k), v, true) in Annotations(e)
  {
    hide *;
    forall f ensures Annotation(PairKey(k), v, f) in Annotations(e) <==>
      if f then HasOrdered(e, k, v) else HasValue(e, k, v) && HasUnordered(e, k, v)
    {
      if k.UserKeyName? { UserAnnotation(e, k, v, f); } else { BuiltInAnnotation(e, k, v, f); }
    }
    EitherOrder(e, k, v);
  }

  predicate HasUnordered(e: Entity, k: AnnotKey, v: Key) {
    match k
    case UserKeyName(s) => exists a :: a in e.attributes && a.key == s && a.value == v && a.valueType == ATTR_ENTITY_KEY
    case BuiltInKey(b) => b == Owner || b == Creator || b == EntityKey
  }

  lemma EitherOrder(e: Entity, k: AnnotKey, v: Key)
    ensures HasValue(e, k, v) <==> HasOrdered(e, k, v) || (HasValue(e, k, v) && HasUnordered(e, k, v))
  {}

  lemma BuiltInAnnotation(e: Entity, k: AnnotKey, v: Key, f: bool)
    requires k.BuiltInKey? && UserAttributes(e.attributes)
    ensures Annotation(PairKey(k), v, f) in Annotations(e) <==>
      if f then HasOrdered(e, k, v) else HasValue(e, k, v) && HasUnordered(e, k, v)
  {
    BuiltInPart(e, k, v, f);
    DistinctDollars();
    hide Annotations, AnnotationList, UserAttributes;
  }

  lemma BuiltInPart(e: Entity, k: AnnotKey, v: Key, f: bool)
    requires k.BuiltInKey? && UserAttributes(e.attributes)
    ensures Annotation(PairKey(k), v, f) in Annotations(e) <==>
      Annotation(PairKey(k), v, f) in BuiltInAnnotations(e.creator, e.owner, e.key, e.createdAt, e.expiresAt, e.contentType)
  {
    DollarKeys();
    var b, u := BuiltInAnnotations(e.creator, e.owner, e.key, e.createdAt, e.expiresAt, e.contentType), UserAnnotations(e.attributes);
    ProperUsers(e.attributes);
    hide BuiltInAnnotations;
    assert AnnotationList(e) == b + u;
  }

  lemma UserAnnotation(e: Entity, k: AnnotKey, v: Key, f: bool)
    requires k.UserKeyName? && KeyOk(k) && UserAttributes(e.attributes)
    ensures Annotation(PairKey(k), v, f) in Annotations(e) <==>
      if f then HasOrdered(e, k, v) else HasValue(e, k, v) && HasUnordered(e, k, v)
  {
    DollarKeys();
    var b, u := BuiltInAnnotations(e.creator, e.owner, e.key, e.createdAt, e.expiresAt, e.contentType), UserAnnotations(e.attributes);
    ProperBuiltIns(e.creator, e.owner, e.key, e.createdAt, e.expiresAt, e.contentType);
    assert AnnotationList(e) == b + u;
    assert Annotation(k.name, v, f) in Annotations(e) <==> Annotation(k.name, v, f) in u;
    if a :| a in e.attributes && a.key == k.name && a.value == v && f == (a.valueType != ATTR_ENTITY_KEY) {
      var i :| 0 <= i < |e.attributes| && e.attributes[i] == a;
      assert u[i] == Annotation(k.name, v, f);
    }
  }

  lemma DistinctDollars()
    ensures ANNOT_ALL != ANNOT_KEY && |ANNOT_ALL| == |ANNOT_KEY| == 4
    ensures |ANNOT_OWNER| == 6 && |ANNOT_CREATOR| == 8 && |ANNOT_EXPIRATION| == 11
    ensures |ANNOT_CONTENT_TYPE| == 12 && |ANNOT_CREATED_AT_BLOCK| == 15
  {
    assert ANNOT_ALL[1] != ANNOT_KEY[1];
  }

  /** The state hypotheses under which indexes can be trusted. */
  ghost predicate Trusted(code: Codes, x: IdMap, ents: map<Address, Entity>, m: Model, lossy: set<Key>, q: Query) {
    Consistent(code, x, ents, m, lossy) && KeysOk(q) && TreeKeys(q) !! lossy
  }

  /** An id in some bitmap is a live entity's, or one that only a `$key` pair
      still has. */
  lemma IdStanding(code: Codes, x: IdMap, ents: map<Address, Entity>, m: Model, lossy: set<Key>, k: Key, v: Key, id: nat)
    requires Consistent(code, x, ents, m, lossy) && ZeroFree(k)
    ensures id in Bits(code, k, v) <==> Carries(m, id, k, v)
    ensures id in m ==> Owned(AnnotationsOf(ents), x, id) || Stray(x, id, m[id])
    ensures forall a :: a in ents ==> x.idOf(a) in m && m[x.idOf(a)] == Annotations(ents[a]) && EntityOk(ents[a], a)
  {
    hide Annotations;
    var g := AnnotationsOf(ents);
    forall a | a in ents ensures x.idOf(a) in m && m[x.idOf(a)] == Annotations(ents[a]) && EntityOk(ents[a], a) { assert a in g; }
  }

  /** `$all` holds exactly the ids of the live entities. */
  lemma AllMean(code: Codes, x: IdMap, ents: map<Address, Entity>, m: Model, lossy: set<Key>, id: nat)
    requires Consistent(code, x, ents, m, lossy)
    ensures id in AllIds(code) <==> exists a :: a in ents && x.idOf(a) == id
  {
    DollarKeys();
    IdStanding(code, x, ents, m, lossy, ANNOT_ALL, [], id);
    if id in AllIds(code) { NotStray(AnnotationsOf(ents), x, m, id); }
    if a :| a in ents && x.idOf(a) == id { AllHave(ents[a]); }
  }

  lemma AllHave(e: Entity)
    ensures Annotation(ANNOT_ALL, [], false) in Annotations(e)
  {
    assert AnnotationList(e)[0] == Annotation(ANNOT_ALL, [], false);
  }

  /** What carries `$all` is a live entity's. */
  lemma NotStray(g: AnnotationMap, x: IdMap, m: Model, id: nat)
    requires Carries(m, id, ANNOT_ALL, []) && (Owned(g, x, id) || Stray(x, id, m[id]))
    ensures Owned(g, x, id)
  {
    DollarKeys();
  }

  /** Among the live ids, a pair bitmap holds those of the entities with that
      value. */
  lemma BitsMean(code: Codes, x: IdMap, ents: map<Address, Entity>, m: Model, lossy: set<Key>, k: AnnotKey, v: Key, id: nat)
    requires Consistent(code, x, ents, m, lossy) && KeyOk(k)
    ensures id in Bits(code, PairKey(k), v) && id in AllIds(code) <==> exists a :: a in ents && x.idOf(a) == id && HasValue(ents[a], k, v)
  {
    DollarKeys();
    IdStanding(code, x, ents, m, lossy, PairKey(k), v, id);
    AllMean(code, x, ents, m, lossy, id);
    hide Consistent, Annotations, AllIds, HasValue;
    if id in Bits(code, PairKey(k), v) && id in AllIds(code) {
      var a :| a in ents && x.idOf(a) == id;
      ValueIn(ents[a], k, v);
    }
    if a :| a in ents && x.idOf(a) == id && HasValue(ents[a], k, v) {
      ValueIn(ents[a], k, v);
    }
  }

  lemma ValueIn(e: Entity, k: AnnotKey, v: Key)
    requires KeyOk(k) && UserAttributes(e.attributes)
    ensures HasValue(e, k, v) <==>
      Annotation(PairKey(k), v, true) in Annotations(e) || Annotation(PairKey(k), v, false) in Annotations(e)
  {
    AnnotationsAre(e, k, v);
  }

  /** The tree of a key lists the ordered values of the live entities. */
  lemma TreeMean(code: Codes, x: IdMap, ents: map<Address, Entity>, m: Model, lossy: set<Key>, k: AnnotKey, w: Key)
    requires Consistent(code, x, ents, m, lossy) && KeyOk(k) && PairKey(k) !in lossy
    ensures TreeAt(code, PairKey(k)).Some? && Ok(TreeAt(code, PairKey(k)).value.root)
    ensures Has(TreeAt(code, PairKey(k)).value.root, w) <==> exists a :: a in ents && HasOrdered(ents[a], k, w)
  {
    DollarKeys();
    var s, g := TreeValues(m, PairKey(k)), AnnotationsOf(ents);
    IdStanding(code, x, ents, m, lossy, PairKey(k), w, 0);
    assert TreeHolds(code, PairKey(k), s);
    TreeAtHolds(code, PairKey(k), s);
    TreeValueIn(m, PairKey(k), w);
    hide Consistent, Annotations, HasOrdered;
    if w in s {
      var id :| id in m && Annotation(PairKey(k), w, true) in m[id];
      IdStanding(code, x, ents, m, lossy, PairKey(k), w, id);
      assert Owned(g, x, id);
      var a :| a in g && x.idOf(a) == id;
      OrderedIn(ents[a], k, w);
      assert a in ents && HasOrdered(ents[a], k, w);
    }
    if a :| a in ents && HasOrdered(ents[a], k, w) {
      OrderedIn(ents[a], k, w);
      CarriedAt(m, x.idOf(a), Annotation(PairKey(k), w, true));
    }
  }

  lemma OrderedIn(e: Entity, k: AnnotKey, w: Key)
    requires KeyOk(k) && UserAttributes(e.attributes)
    ensures HasOrdered(e, k, w) <==> Annotation(PairKey(k), w, true) in Annotations(e)
  {
    AnnotationsAre(e, k, w);
  }

  /** Under the flag agreement a value that is ordered on one entity is ordered
      wherever it occurs. */
  lemma OrderedEverywhere(code: Codes, x: IdMap, ents: map<Address, Entity>, m: Model, lossy: set<Key>, k: AnnotKey, w: Key, a: Address, b: Address)
    requires Consistent(code, x, ents, m, lossy) && KeyOk(k)
    requires a in ents && HasValue(ents[a], k, w) && b in ents && HasOrdered(ents[b], k, w)
    ensures HasOrdered(ents[a], k, w)
  {
    hide Consistent;
    CarriedBy(code, x, ents, m, lossy, k, w, a);
    CarriedBy(code, x, ents, m, lossy, k, w, b);
  }

  lemma CarriedBy(code: Codes, x: IdMap, ents: map<Address, Entity>, m: Model, lossy: set<Key>, k: AnnotKey, w: Key, a: Address)
    requires Consistent(code, x, ents, m, lossy) && KeyOk(k) && a in ents
    ensures FlagsAgree(m)
    ensures HasOrdered(ents[a], k, w) ==> Annotation(PairKey(k), w, true) in Carried(m)
    ensures HasValue(ents[a], k, w) && !HasOrdered(ents[a], k, w) ==> Annotation(PairKey(k), w, false) in Carried(m)
  {
    var g := AnnotationsOf(ents);
    assert a in g && m[x.idOf(a)] == Annotations(ents[a]) && EntityOk(ents[a], a);
    AnnotationsAre(ents[a], k, w);
    forall f | Annotation(PairKey(k), w, f) in Annotations(ents[a]) ensures Annotation(PairKey(k), w, f) in Carried(m) {
      CarriedAt(m, x.idOf(a), Annotation(PairKey(k), w, f));
    }
  }

  /** A range or prefix leaf selects the entities with an ordered value in it. */
  lemma ScanMeans(code: Codes, x: IdMap, ents: map<Address, Entity>, m: Model, lossy: set<Key>, k: AnnotKey, test: Key -> bool, id: nat)
    requires Consistent(code, x, ents, m, lossy) && KeyOk(k) && PairKey(k) !in lossy
    ensures id in UnionBits(code, PairKey(k), Scan(code, PairKey(k), test)) && id in AllIds(code) <==>
      exists a :: a in ents && x.idOf(a) == id && exists w :: HasOrdered(ents[a], k, w) && test(w)
  {
    hide *;
    var vals := Scan(code, PairKey(k), test);
    UnionIn(code, PairKey(k), vals, id);
    if id in UnionBits(code, PairKey(k), vals) && id in AllIds(code) {
      var w :| w in vals && id in Bits(code, PairKey(k), w);
      TreeMean(code, x, ents, m, lossy, k, w);
      ScanIn(code, PairKey(k), test, w);
      BitsMean(code, x, ents, m, lossy, k, w, id);
      var a :| a in ents && x.idOf(a) == id && HasValue(ents[a], k, w);
      var b :| b in ents && HasOrdered(ents[b], k, w);
      OrderedEverywhere(code, x, ents, m, lossy, k, w, a, b);
      assert HasOrdered(ents[a], k, w) && test(w);
    }
    if a :| a in ents && x.idOf(a) == id && exists w :: HasOrdered(ents[a], k, w) && test(w) {
      var w :| HasOrdered(ents[a], k, w) && test(w);
      TreeMean(code, x, ents, m, lossy, k, w);
      ScanIn(code, PairKey(k), test, w);
      BitsMean(code, x, ents, m, lossy, k, w, id);
      EitherOrder(ents[a], k, w);
      assert w in vals && id in Bits(code, PairKey(k), w);
    }
  }

  lemma UnionIn(code: Codes, k: Key, vals: seq<Key>, id: nat)
    ensures id in UnionBits(code, k, vals) <==> exists w :: w in vals && id in Bits(code, k, w)
  {}

  lemma ScanIn(code: Codes, k: Key, test: Key -> bool, w: Key)
    requires TreeAt(code, k).Some? && Ok(TreeAt(code, k).value.root)
    ensures w in Scan(code, k, test) <==> Has(TreeAt(code, k).value.root, w) && test(w)
  {
    WalkOk(TreeAt(code, k).value.root);
    ScanExact(TreeAt(code, k).value.root, test);
  }

  /** The answer to a query is the set of ids of the live entities that satisfy
      it, for every query whose keys are well formed. */
  lemma {:induction false} AnswerExact(code: Codes, x: IdMap, ents: map<Address, Entity>, m: Model, lossy: set<Key>, q: Query, id: nat)
    requires Trusted(code, x, ents, m, lossy, q)
    ensures id in Denote(code, q) && id in AllIds(code) <==> Matches(ents, x, q, id)
    decreases q
  {
    hide *;
    LeafKeys(code, x, ents, m, lossy, q);
    AllMean(code, x, ents, m, lossy, id);
    match q {
      case All => AllLeaf(code, x, ents, id);
      case And(l, r) =>
        AnswerExact(code, x, ents, m, lossy, l, id);
        AnswerExact(code, x, ents, m, lossy, r, id);
        AndStep(code, x, ents, m, lossy, l, r, id);
      case Or(l, r) =>
        AnswerExact(code, x, ents, m, lossy, l, id);
        AnswerExact(code, x, ents, m, lossy, r, id);
        OrStep(code, x, ents, l, r, id);
      case Not(i) =>
        AnswerExact(code, x, ents, m, lossy, i, id);
        NotStep(code, x, ents, m, lossy, i, id);
      case Eq(k, v) =>
        BitsMean(code, x, ents, m, lossy, k, v, id);
        EqLeaf(code, x, ents, k, v, id);
      case Neq(k, v) =>
        BitsMean(code, x, ents, m, lossy, k, v, id);
        NeqLeaf(code, x, ents, m, lossy, k, v, id);
      case In(k, vs) => InLeaf(code, x, ents, m, lossy, k, vs, id);
      case NotIn(k, vs) => NotInLeaf(code, x, ents, m, lossy, k, vs, id);
      case NotGlob(k, v) =>
        ScanMeans(code, x, ents, m, lossy, k, Wants(Glob(k, v)), id);
        NotGlobLeaf(code, x, ents, m, lossy, k, v, id);
      case _ =>
        ScanMeans(code, x, ents, m, lossy, q.key, Wants(q), id);
        RangeLeaf(code, x, ents, q, id);
    }
  }

  lemma LeafKeys(code: Codes, x: IdMap, ents: map<Address, Entity>, m: Model, lossy: set<Key>, q: Query)
    requires Trusted(code, x, ents, m, lossy, q)
    ensures Consistent(code, x, ents, m, lossy)
    ensures q.And? || q.Or? ==> Trusted(code, x, ents, m, lossy, q.left) && Trusted(code, x, ents, m, lossy, q.right)
    ensures q.Not? ==> Trusted(code, x, ents, m, lossy, q.inner)
    ensures !q.All? && !q.And? && !q.Or? && !q.Not? ==> KeyOk(q.key)
    ensures q.Gt? || q.Gte? || q.Lt? || q.Lte? || q.Glob? || q.NotGlob? ==> PairKey(q.key) !in lossy
  {
    match q case All => case And(_, _) => case Or(_, _) => case Not(_) =>
      case Eq(_, _) => case Neq(_, _) => case In(_, _) => case NotIn(_, _) =>
      case _ => assert PairKey(q.key) in TreeKeys(q);
  }

  /** Two live entities with one id are the same entity. */
  lemma OneAddress(code: Codes, x: IdMap, ents: map<Address, Entity>, m: Model, lossy: set<Key>, a: Address, b: Address)
    requires Consistent(code, x, ents, m, lossy) && a in ents && b in ents && x.idOf(a) == x.idOf(b)
    ensures a == b
  {
    IdsInjective(ents.Keys, x, a, b);
  }

  /** Negation against `$all` is negation per entity. */
  lemma Complement(code: Codes, x: IdMap, ents: map<Address, Entity>, m: Model, lossy: set<Key>, p: Query, q: Query, id: nat)
    requires Consistent(code, x, ents, m, lossy)
    requires forall a :: a in ents ==> (Satisfies(ents[a], q) <==> !Satisfies(ents[a], p))
    ensures Matches(ents, x, q, id) <==> id in AllIds(code) && !Matches(ents, x, p, id)
  {
    hide Consistent, Satisfies, AllIds;
    AllMean(code, x, ents, m, lossy, id);
    forall a, b | a in ents && b in ents && x.idOf(a) == id && x.idOf(b) == id ensures a == b {
      OneAddress(code, x, ents, m, lossy, a, b);
    }
  }

  lemma AllLeaf(code: Codes, x: IdMap, ents: map<Address, Entity>, id: nat)
    requires id in AllIds(code) <==> exists a :: a in ents && x.idOf(a) == id
    ensures id in Denote(code, All) && id in AllIds(code) <==> Matches(ents, x, All, id)
  {
    if a :| a in ents && x.idOf(a) == id { assert Satisfies(ents[a], All); }
  }

  lemma EqLeaf(code: Codes, x: IdMap, ents: map<Address, Entity>, k: AnnotKey, v: Key, id: nat)
    requires id in Bits(code, PairKey(k), v) && id in AllIds(code) <==> exists a :: a in ents && x.idOf(a) == id && HasValue(ents[a], k, v)
    ensures id in Denote(code, Eq(k, v)) && id in AllIds(code) <==> Matches(ents, x, Eq(k, v), id)
    ensures id in Denote(code, Eq(k, v)) <==> id in Bits(code, PairKey(k), v)
  {
    if a :| a in ents && x.idOf(a) == id && HasValue(ents[a], k, v) { assert Satisfies(ents[a], Eq(k, v)); }
  }

  lemma NeqLeaf(code: Codes, x: IdMap, ents: map<Address, Entity>, m: Model, lossy: set<Key>, k: AnnotKey, v: Key, id: nat)
    requires Consistent(code, x, ents, m, lossy)
    requires id in Bits(code, PairKey(k), v) && id in AllIds(code) <==> exists a :: a in ents && x.idOf(a) == id && HasValue(ents[a], k, v)
    ensures id in Denote(code, Neq(k, v)) && id in AllIds(code) <==> Matches(ents, x, Neq(k, v), id)
  {
    hide *;
    NeqIs(code, k, v, id);
    EqLeaf(code, x, ents, k, v, id);
    Complement(code, x, ents, m, lossy, Eq(k, v), Neq(k, v), id);
  }

  lemma NeqIs(code: Codes, k: AnnotKey, v: Key, id: nat)
    ensures id in Denote(code, Neq(k, v)) <==> id in AllIds(code) && id !in Bits(code, PairKey(k), v)
    ensures forall e :: Satisfies(e, Neq(k, v)) <==> !Satisfies(e, Eq(k, v))
  {}

  lemma InLeaf(code: Codes, x: IdMap, ents: map<Address, Entity>, m: Model, lossy: set<Key>, k: AnnotKey, vs: seq<Key>, id: nat)
    requires Consistent(code, x, ents, m, lossy) && KeyOk(k)
    ensures id in Denote(code, In(k, vs)) && id in AllIds(code) <==> Matches(ents, x, In(k, vs), id)
    ensures id in Denote(code, In(k, vs)) <==> id in UnionBits(code, PairKey(k), vs)
  {
    hide Consistent;
    UnionIn(code, PairKey(k), vs, id);
    if id in UnionBits(code, PairKey(k), vs) && id in AllIds(code) {
      var w :| w in vs && id in Bits(code, PairKey(k), w);
      BitsMean(code, x, ents, m, lossy, k, w, id);
      var a :| a in ents && x.idOf(a) == id && HasValue(ents[a], k, w);
      assert Satisfies(ents[a], In(k, vs));
    }
    if a :| a in ents && x.idOf(a) == id && Satisfies(ents[a], In(k, vs)) {
      var w :| w in vs && HasValue(ents[a], k, w);
      BitsMean(code, x, ents, m, lossy, k, w, id);
    }
  }

  lemma NotInLeaf(code: Codes, x: IdMap, ents: map<Address, Entity>, m: Model, lossy: set<Key>, k: AnnotKey, vs: seq<Key>, id: nat)
    requires Consistent(code, x, ents, m, lossy) && KeyOk(k)
    ensures id in Denote(code, NotIn(k, vs)) && id in AllIds(code) <==> Matches(ents, x, NotIn(k, vs), id)
  {
    hide Consistent;
    InLeaf(code, x, ents, m, lossy, k, vs, id);
    Complement(code, x, ents, m, lossy, In(k, vs), NotIn(k, vs), id);
  }

  lemma RangeLeaf(code: Codes, x: IdMap, ents: map<Address, Entity>, q: Query, id: nat)
    requires q.Gt? || q.Gte? || q.Lt? || q.Lte? || q.Glob?
    requires id in UnionBits(code, PairKey(q.key), Scan(code, PairKey(q.key), Wants(q))) && id in AllIds(code) <==>
      exists a :: a in ents && x.idOf(a) == id && exists w :: HasOrdered(ents[a], q.key, w) && Wants(q)(w)
    ensures id in Denote(code, q) && id in AllIds(code) <==> Matches(ents, x, q, id)
    ensures id in Denote(code, q) <==> id in UnionBits(code, PairKey(q.key), Scan(code, PairKey(q.key), Wants(q)))
  {}

  lemma NotGlobLeaf(code: Codes, x: IdMap, ents: map<Address, Entity>, m: Model, lossy: set<Key>, k: AnnotKey, v: Key, id: nat)
    requires Consistent(code, x, ents, m, lossy)
    requires id in UnionBits(code, PairKey(k), Scan(code, PairKey(k), Wants(Glob(k, v)))) && id in AllIds(code) <==>
      exists a :: a in ents && x.idOf(a) == id && exists w :: HasOrdered(ents[a], k, w) && Wants(Glob(k, v))(w)
    ensures id in Denote(code, NotGlob(k, v)) && id in AllIds(code) <==> Matches(ents, x, NotGlob(k, v), id)
  {
    hide Consistent;
    RangeLeaf(code, x, ents, Glob(k, v), id);
    Complement(code, x, ents, m, lossy, Glob(k, v), NotGlob(k, v), id);
  }

  lemma AndStep(code: Codes, x: IdMap, ents: map<Address, Entity>, m: Model, lossy: set<Key>, l: Query, r: Query, id: nat)
    requires Consistent(code, x, ents, m, lossy)
    requires id in Denote(code, l) && id in AllIds(code) <==> Matches(ents, x, l, id)
    requires id in Denote(code, r) && id in AllIds(code) <==> Matches(ents, x, r, id)
    ensures id in Denote(code, And(l, r)) && id in AllIds(code) <==> Matches(ents, x, And(l, r), id)
  {
    hide Consistent;
    if Matches(ents, x, l, id) && Matches(ents, x, r, id) {
      var a :| a in ents && x.idOf(a) == id && Satisfies(ents[a], l);
      var b :| b in ents && x.idOf(b) == id && Satisfies(ents[b], r);
      OneAddress(code, x, ents, m, lossy, a, b);
      assert Satisfies(ents[a], And(l, r));
    }
  }

  lemma OrStep(code: Codes, x: IdMap, ents: map<Address, Entity>, l: Query, r: Query, id: nat)
    requires id in Denote(code, l) && id in AllIds(code) <==> Matches(ents, x, l, id)
    requires id in Denote(code, r) && id in AllIds(code) <==> Matches(ents, x, r, id)
    ensures id in Denote(code, Or(l, r)) && id in AllIds(code) <==> Matches(ents, x, Or(l, r), id)
  {
    if a :| a in ents && x.idOf(a) == id && (Satisfies(ents[a], l) || Satisfies(ents[a], r)) {
      assert Satisfies(ents[a], Or(l, r));
    }
  }

  lemma NotStep(code: Codes, x: IdMap, ents: map<Address, Entity>, m: Model, lossy: set<Key>, i: Query, id: nat)
    requires Consistent(code, x, ents, m, lossy)
    requires id in Denote(code, i) && id in AllIds(code) <==> Matches(ents, x, i, id)
    ensures id in Denote(code, Not(i)) && id in AllIds(code) <==> Matches(ents, x, Not(i), id)
  {
    hide Consistent;
    Complement(code, x, ents, m, lossy, i, Not(i), id);
  }

  /** Every tree a query reads decodes. */
  lemma TreesDecode(code: Codes, x: IdMap, ents: map<Address, Entity>, m: Model, lossy: set<Key>, q: Query)
    requires Consistent(code, x, ents, m, lossy) && TreeKeys(q) !! lossy && forall k :: k in TreeKeys(q) ==> ZeroFree(k)
    ensures forall k :: k in TreeKeys(q) ==> TreeAt(code, k).Some?
  {
    forall k | k in TreeKeys(q) ensures TreeAt(code, k).Some? {
      assert TreeHolds(code, k, TreeValues(m, k));
      TreeAtHolds(code, k, TreeValues(m, k));
    }
  }

  lemma {:induction false} TreeKeysZeroFree(q: Query)
    requires KeysOk(q)
    ensures forall k :: k in TreeKeys(q) ==> ZeroFree(k)
    decreases q
  {
    DollarKeys();
    match q {
      case And(l, r) => TreeKeysZeroFree(l); TreeKeysZeroFree(r);
      case Or(l, r) => TreeKeysZeroFree(l); TreeKeysZeroFree(r);
      case Not(i) => TreeKeysZeroFree(i);
      case _ =>
    }
  }

  /** An id that a query denotes is a live entity's, or is one that only a
      `$key` pair still has, which resolves to nothing. */
  lemma {:induction false} DenotedIds(code: Codes, x: IdMap, ents: map<Address, Entity>, m: Model, lossy: set<Key>, q: Query, id: nat)
    requires Consistent(code, x, ents, m, lossy) && KeysOk(q) && id in Denote(code, q)
    ensures id in AllIds(code) || (id in m && Stray(x, id, m[id]))
    decreases q
  {
    hide *;
    DenoteCases(code, q, id);
    if q.And? {
      DenotedIds(code, x, ents, m, lossy, q.left, id);
    } else if q.Or? {
      if id in Denote(code, q.left) {
        DenotedIds(code, x, ents, m, lossy, q.left, id);
      } else {
        DenotedIds(code, x, ents, m, lossy, q.right, id);
      }
    } else if !q.All? && !q.Not? && id !in AllIds(code) {
      var v :| id in Bits(code, PairKey(q.key), v);
      IdIn(code, x, ents, m, lossy, PairKey(q.key), v, id);
    }
  }

  lemma DenoteCases(code: Codes, q: Query, id: nat)
    requires id in Denote(code, q) && KeysOk(q)
    ensures q.And? ==> id in Denote(code, q.left) && KeysOk(q.left)
    ensures q.Or? ==> KeysOk(q.left) && KeysOk(q.right) && (id in Denote(code, q.left) || id in Denote(code, q.right))
    ensures !q.And? && !q.Or? && id !in AllIds(code) ==>
      !q.All? && !q.Not? && ZeroFree(PairKey(q.key)) && exists v :: id in Bits(code, PairKey(q.key), v)
  {
    DollarKeys();
  }

  lemma IdIn(code: Codes, x: IdMap, ents: map<Address, Entity>, m: Model, lossy: set<Key>, k: Key, v: Key, id: nat)
    requires Consistent(code, x, ents, m, lossy) && ZeroFree(k) && id in Bits(code, k, v)
    ensures id in AllIds(code) || (id in m && Stray(x, id, m[id]))
  {
    IdStanding(code, x, ents, m, lossy, k, v, id);
    AllMean(code, x, ents, m, lossy, id);
    hide Consistent, Bits, AllIds, Stray;
    if Owned(AnnotationsOf(ents), x, id) {
      var a :| a in AnnotationsOf(ents) && x.idOf(a) == id;
      assert a in ents;
    }
  }

  /** Only `$key` bitmaps have ids of no entity. */
  lemma NoStrayBits(code: Codes, x: IdMap, ents: map<Address, Entity>, m: Model, lossy: set<Key>, k: AnnotKey, v: Key, id: nat)
    requires Consistent(code, x, ents, m, lossy) && KeyOk(k) && k != BuiltInKey(EntityKey) && id in Bits(code, PairKey(k), v)
    ensures id in AllIds(code)
  {
    DollarKeys();
    DistinctDollars();
    IdStanding(code, x, ents, m, lossy, PairKey(k), v, id);
    IdIn(code, x, ents, m, lossy, PairKey(k), v, id);
  }

  /** Evaluation on a database in order succeeds, with exactly the right ids
      among those of the live entities. */
  method Answer(db: StateDb, q: Query) returns (ok: bool, r: set<nat>)
    ensures Trusted(db.code, Ids(db.storage), db.ents, db.model, db.lossy, q) ==> ok
    ensures Trusted(db.code, Ids(db.storage), db.ents, db.model, db.lossy, q) ==>
      forall id: nat :: id in r && id in AllIds(db.code) <==> Matches(db.ents, Ids(db.storage), q, id)
    ensures Trusted(db.code, Ids(db.storage), db.ents, db.model, db.lossy, q) ==>
      forall id: nat :: id in r && id !in AllIds(db.code) ==> AddrWord(db.storage, id) == ZeroWord()
  {
    hide *;
    ok, r := Eval(db.code, q);
    if Trusted(db.code, Ids(db.storage), db.ents, db.model, db.lossy, q) {
      TrustedParts(db.code, Ids(db.storage), db.ents, db.model, db.lossy, q);
      TreeKeysZeroFree(q);
      TreesDecode(db.code, Ids(db.storage), db.ents, db.model, db.lossy, q);
      forall id: nat ensures id in r && id in AllIds(db.code) <==> Matches(db.ents, Ids(db.storage), q, id) {
        AnswerExact(db.code, Ids(db.storage), db.ents, db.model, db.lossy, q, id);
      }
      forall id: nat | id in r && id !in AllIds(db.code) ensures AddrWord(db.storage, id) == ZeroWord() {
        DenotedIds(db.code, Ids(db.storage), db.ents, db.model, db.lossy, q, id);
        StrayWord(db.storage, id, db.model[id]);
      }
    }
  }

  lemma StrayWord(st: Storage, id: nat, s: set<Annotation>)
    requires Stray(Ids(st), id, s)
    ensures AddrWord(st, id) == ZeroWord()
  {}

  lemma TrustedParts(code: Codes, x: IdMap, ents: map<Address, Entity>, m: Model, lossy: set<Key>, q: Query)
    requires Trusted(code, x, ents, m, lossy, q)
    ensures Consistent(code, x, ents, m, lossy) && TreeKeys(q) !! lossy && KeysOk(q)
  {}
}
