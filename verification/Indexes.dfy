/** Bitmaps and value trees: what they hold for a set of annotated ids, and what
    one more or one less annotation does to them. */
module Indexes {
  import opened Options
  import opened Bytes
  import opened Accounts
  import opened ArtNode
  import opened ArtOrder
  import ArtSet
  import opened ArtSer
  import opened ArtSound
  import opened ArtStore

  // ── Data ─────────────────────────────────────────────────────────────

  const ATTR_UINT: nat := 1
  const ATTR_STRING: nat := 2
  const ATTR_ENTITY_KEY: nat := 3

  datatype Attribute = Attribute(key: Key, valueType: nat, value: Key)

  datatype Entity = Entity(
    payload: Key, creator: Address, createdAt: nat, owner: Address, expiresAt: nat,
    contentType: Key, key: B256, attributes: seq<Attribute>, lastModified: nat)

  /** An index entry: pair key and value, and whether the value belongs in the
      tree of its key. */
  datatype Annotation = Annotation(key: Key, value: Key, tier2: bool)

  /** Account code. Bitmaps and entities are kept decoded (their byte forms are
      library codecs); value trees are kept as the bytes written. */
  datatype Code = Bitmap(ids: set<nat>) | Index(data: Key) | EntityCode(entity: Entity)

  type Codes = map<Account, Code>

  // `$all`, `$creator`, `$createdAtBlock`, `$owner`, `$key`, `$expiration`, `$contentType`
  const ANNOT_ALL: Key := [36, 97, 108, 108]
  const ANNOT_CREATOR: Key := [36, 99, 114, 101, 97, 116, 111, 114]
  const ANNOT_CREATED_AT_BLOCK: Key := [36, 99, 114, 101, 97, 116, 101, 100, 65, 116, 66, 108, 111, 99, 107]
  const ANNOT_OWNER: Key := [36, 111, 119, 110, 101, 114]
  const ANNOT_KEY: Key := [36, 107, 101, 121]
  const ANNOT_EXPIRATION: Key := [36, 101, 120, 112, 105, 114, 97, 116, 105, 111, 110]
  const ANNOT_CONTENT_TYPE: Key := [36, 99, 111, 110, 116, 101, 110, 116, 84, 121, 112, 101]

  function UserAnnotations(attrs: seq<Attribute>): (r: seq<Annotation>)
    ensures |r| == |attrs|
  {
    seq(|attrs|, i requires 0 <= i < |attrs| =>
      Annotation(attrs[i].key, attrs[i].value, attrs[i].valueType != ATTR_ENTITY_KEY))
  }

  function BuiltInAnnotations(creator: Address, owner: Address, key: B256, createdAt: nat, expiresAt: nat, contentType: Key): seq<Annotation> {
    [Annotation(ANNOT_ALL, [], false),
     Annotation(ANNOT_CREATOR, creator, false),
     Annotation(ANNOT_CREATED_AT_BLOCK, BigEndian(createdAt, 8), true),
     Annotation(ANNOT_OWNER, owner, false),
     Annotation(ANNOT_KEY, key, false),
     Annotation(ANNOT_EXPIRATION, BigEndian(expiresAt, 8), true),
     Annotation(ANNOT_CONTENT_TYPE, contentType, true)]
  }

  function UpdatableAnnotations(contentType: Key, attrs: seq<Attribute>): seq<Annotation> {
    [Annotation(ANNOT_CONTENT_TYPE, contentType, true)] + UserAnnotations(attrs)
  }

  function Elements<T>(s: seq<T>): set<T> { set x | x in s }

  /** Everything an entity is indexed under. */
  function AnnotationList(e: Entity): seq<Annotation> {
    BuiltInAnnotations(e.creator, e.owner, e.key, e.createdAt, e.expiresAt, e.contentType) + UserAnnotations(e.attributes)
  }

  function Annotations(e: Entity): set<Annotation> { Elements(AnnotationList(e)) }

  lemma NamesSpelt()
    ensures ANNOT_ALL == Ascii("$all") && ANNOT_CREATOR == Ascii("$creator") && ANNOT_CREATED_AT_BLOCK == Ascii("$createdAtBlock")
    ensures ANNOT_OWNER == Ascii("$owner") && ANNOT_KEY == Ascii("$key") && ANNOT_EXPIRATION == Ascii("$expiration")
    ensures ANNOT_CONTENT_TYPE == Ascii("$contentType")
  {}

  /** What an entity is indexed under, spelled out: seven built-in pairs, of which
      block numbers and content type have a tree, and one pair for each attribute,
      with a tree unless it is an entity key. */
  lemma PairsExact(e: Entity, a: Annotation)
    ensures a in Annotations(e) <==>
      || a == Annotation(Ascii("$all"), [], false) || a == Annotation(Ascii("$creator"), e.creator, false)
      || a == Annotation(Ascii("$createdAtBlock"), BigEndian(e.createdAt, 8), true)
      || a == Annotation(Ascii("$owner"), e.owner, false) || a == Annotation(Ascii("$key"), e.key, false)
      || a == Annotation(Ascii("$expiration"), BigEndian(e.expiresAt, 8), true)
      || a == Annotation(Ascii("$contentType"), e.contentType, true)
      || exists i :: 0 <= i < |e.attributes| && a == Annotation(e.attributes[i].key, e.attributes[i].value, e.attributes[i].valueType != 3)
  {
    NamesSpelt();
    hide Ascii, ANNOT_ALL, ANNOT_CREATOR, ANNOT_CREATED_AT_BLOCK, ANNOT_OWNER, ANNOT_KEY, ANNOT_EXPIRATION, ANNOT_CONTENT_TYPE;
    var b := BuiltInAnnotations(e.creator, e.owner, e.key, e.createdAt, e.expiresAt, e.contentType);
    var u := UserAnnotations(e.attributes);
    assert AnnotationList(e) == b + u && |b| == 7;
    if i :| 0 <= i < |e.attributes| && a == Annotation(e.attributes[i].key, e.attributes[i].value, e.attributes[i].valueType != 3) {
      assert u[i] == a;
    }
    if a in u { var i :| 0 <= i < |u| && u[i] == a; }
  }

  // ── What the indexes say ─────────────────────────────────────────────

  /** Ids in the pair bitmap of `(k, v)`; an absent account is empty. */
  function Bits(code: Codes, k: Key, v: Key): set<nat> {
    var a := PairAccount(k, v);
    if a in code && code[a].Bitmap? then code[a].ids else {}
  }

  /** The value tree of `k` is in order and holds exactly `s`. */
  ghost predicate TreeHolds(code: Codes, k: Key, s: set<Key>) {
    var a := IndexAccount(k);
    if a in code then code[a].Index? && Holds(code[a].data, s) else s == {}
  }

  /** Live ids with the annotations of their entities. */
  type Model = map<nat, set<Annotation>>

  ghost predicate Carries(m: Model, id: nat, k: Key, v: Key) {
    id in m && (Annotation(k, v, true) in m[id] || Annotation(k, v, false) in m[id])
  }

  ghost function Carried(m: Model): set<Annotation> { set id, a | id in m && a in m[id] :: a }

  ghost function TreeValues(m: Model, k: Key): set<Key> {
    set a | a in Carried(m) && a.key == k && a.tier2 :: a.value
  }

  /** The tree flag is a function of the pair, over all live entities. */
  ghost predicate FlagsAgree(m: Model) {
    forall k, v :: !(Annotation(k, v, true) in Carried(m) && Annotation(k, v, false) in Carried(m))
  }

  ghost predicate BitsAgree(code: Codes, m: Model) {
    forall k, v, id :: ZeroFree(k) ==> (id in Bits(code, k, v) <==> Carries(m, id, k, v))
  }

  ghost predicate TreesAgree(code: Codes, m: Model, lossy: set<Key>) {
    forall k :: ZeroFree(k) && k !in lossy ==> TreeHolds(code, k, TreeValues(m, k))
  }

  /** Derived accounts hold the kind of code their preimage says. */
  ghost predicate Typed(code: Codes) {
    && (forall k, v :: PairAccount(k, v) in code ==> code[PairAccount(k, v)].Bitmap?)
    && (forall k :: IndexAccount(k) in code ==> code[IndexAccount(k)].Index?)
    && (forall a :: EntityAccount(a) in code ==> code[EntityAccount(a)].EntityCode?)
  }

  ghost predicate IndexesAgree(code: Codes, m: Model, lossy: set<Key>) {
    Typed(code) && BitsAgree(code, m) && TreesAgree(code, m, lossy)
  }

  // ── One annotation more, one annotation less ─────────────────────────

  ghost function Plus(m: Model, id: nat, a: Annotation): Model {
    m[id := (if id in m then m[id] else {}) + {a}]
  }

  ghost function Minus(m: Model, id: nat, a: Annotation): Model
    requires id in m
  {
    m[id := m[id] - {a}]
  }

  lemma CarriedPlus(m: Model, id: nat, a: Annotation)
    ensures Carried(Plus(m, id, a)) == Carried(m) + {a}
  {
    var p := Plus(m, id, a);
    forall x ensures x in Carried(p) <==> x in Carried(m) || x == a {
      if x in Carried(m) {
        var i :| i in m && x in m[i];
        assert i in p && x in p[i];
      }
      if x == a { assert id in p && a in p[id]; }
    }
  }

  lemma CarriedMinus(m: Model, id: nat, a: Annotation)
    requires id in m
    ensures forall x :: x in Carried(Minus(m, id, a)) <==>
      x in Carried(m) && (x == a ==> exists i :: i in m && i != id && a in m[i])
  {
    var p := Minus(m, id, a);
    forall x ensures x in Carried(p) <==> x in Carried(m) && (x == a ==> exists i :: i in m && i != id && a in m[i]) {
      if x in Carried(p) {
        var i :| i in p && x in p[i];
        assert i in m && x in m[i];
      }
      if x in Carried(m) && x != a {
        var i :| i in m && x in m[i];
        assert i in p && x in p[i];
      }
      if x == a && exists i :: i in m && i != id && a in m[i] {
        var i :| i in m && i != id && a in m[i];
        assert i in p && a in p[i];
      }
    }
  }

  /** Writing one pair bitmap changes no other bitmap, no tree and no entity. */
  lemma PairWrite(code: Codes, k: Key, v: Key, s: set<nat>)
    requires Typed(code) && ZeroFree(k)
    ensures var c := code[PairAccount(k, v) := Bitmap(s)];
      && Typed(c)
      && (forall k', v' :: ZeroFree(k') ==> Bits(c, k', v') == if k' == k && v' == v then s else Bits(code, k', v'))
      && (forall k', t :: TreeHolds(c, k', t) == TreeHolds(code, k', t))
  {
    var c := code[PairAccount(k, v) := Bitmap(s)];
    forall k', v' | ZeroFree(k') ensures Bits(c, k', v') == if k' == k && v' == v then s else Bits(code, k', v') {
      if PairAccount(k, v) == PairAccount(k', v') { PairInjective(k, v, k', v'); }
    }
    forall k' ensures IndexAccount(k') != PairAccount(k, v) { PairIndexDisjoint(k, v, k'); }
  }

  /** Writing or clearing one tree changes no other tree and no bitmap. */
  lemma IndexWrite(code: Codes, c: Codes, k: Key)
    requires Typed(code)
    requires (forall a :: a != IndexAccount(k) ==> (a in c <==> a in code) && (a in code ==> c[a] == code[a]))
    requires IndexAccount(k) in c ==> c[IndexAccount(k)].Index?
    ensures Typed(c)
    ensures forall k', v' :: Bits(c, k', v') == Bits(code, k', v')
    ensures forall k', t :: k' != k ==> TreeHolds(c, k', t) == TreeHolds(code, k', t)
  {
    forall k', v' ensures PairAccount(k', v') != IndexAccount(k) { PairIndexDisjoint(k', v', k); }
    forall k' | k' != k ensures IndexAccount(k') != IndexAccount(k) {
      if IndexAccount(k') == IndexAccount(k) { IndexInjective(k', k); }
    }
  }

  // ── Well-formed annotations ──────────────────────────────────────────

  /** What the precompile guarantees for user attribute names: they start with
      a letter and have no zero byte. */
  predicate UserKey(k: Key) { k != [] && 97 <= k[0] <= 122 && ZeroFree(k) }

  predicate UserAttributes(attrs: seq<Attribute>) {
    forall i :: 0 <= i < |attrs| ==> UserKey(attrs[i].key)
  }

  predicate Dollar(k: Key) { k != [] && k[0] == 36 }

  /** Keys have no zero byte, and built-in keys carry their fixed tree flag. */
  predicate Proper(a: Annotation) {
    && ZeroFree(a.key)
    && (Dollar(a.key) ==> a.tier2 == (a.key == ANNOT_CREATED_AT_BLOCK || a.key == ANNOT_EXPIRATION || a.key == ANNOT_CONTENT_TYPE))
  }

  ghost predicate ProperModel(m: Model) { forall a :: a in Carried(m) ==> Proper(a) }

  lemma DollarKeys()
    ensures |ANNOT_ALL| == 4 && |ANNOT_CREATOR| == 8 && |ANNOT_CREATED_AT_BLOCK| == 15 && |ANNOT_OWNER| == 6
         && |ANNOT_KEY| == 4 && |ANNOT_EXPIRATION| == 11 && |ANNOT_CONTENT_TYPE| == 12 && ANNOT_ALL != ANNOT_KEY
    ensures Dollar(ANNOT_ALL) && Dollar(ANNOT_CREATOR) && Dollar(ANNOT_CREATED_AT_BLOCK) && Dollar(ANNOT_OWNER)
         && Dollar(ANNOT_KEY) && Dollar(ANNOT_EXPIRATION) && Dollar(ANNOT_CONTENT_TYPE)
    ensures ZeroFree(ANNOT_ALL) && ZeroFree(ANNOT_CREATOR) && ZeroFree(ANNOT_CREATED_AT_BLOCK) && ZeroFree(ANNOT_OWNER)
         && ZeroFree(ANNOT_KEY) && ZeroFree(ANNOT_EXPIRATION) && ZeroFree(ANNOT_CONTENT_TYPE)
  {
    assert ANNOT_ALL[1] != ANNOT_KEY[1];
  }

  lemma ProperBuiltIns(creator: Address, owner: Address, key: B256, createdAt: nat, expiresAt: nat, contentType: Key)
    ensures forall a :: a in BuiltInAnnotations(creator, owner, key, createdAt, expiresAt, contentType) ==> Proper(a) && Dollar(a.key)
  {
    DollarKeys();
  }

  lemma ProperUsers(attrs: seq<Attribute>)
    requires UserAttributes(attrs)
    ensures forall a :: a in UserAnnotations(attrs) ==> Proper(a) && !Dollar(a.key)
  {}

  lemma FlagsSubset(m: Model, n: Model)
    requires FlagsAgree(n) && Carried(m) <= Carried(n)
    ensures FlagsAgree(m)
  {}

  /** Built-in annotations can never disagree on their flag. */
  lemma FlagsPlusDollar(m: Model, id: nat, a: Annotation)
    requires FlagsAgree(m) && ProperModel(m) && Proper(a) && Dollar(a.key)
    ensures FlagsAgree(Plus(m, id, a))
  {
    CarriedPlus(m, id, a);
  }

  /** `c2` has the entity accounts of `c1`. */
  ghost predicate SameEntities(c1: Codes, c2: Codes) {
    forall a :: (EntityAccount(a) in c2 <==> EntityAccount(a) in c1)
      && (EntityAccount(a) in c1 ==> c2[EntityAccount(a)] == c1[EntityAccount(a)])
  }

  function TreeAt(code: Codes, k: Key): Option<Tree> {
    var a := IndexAccount(k);
    if a !in code then Some(EmptyTree)
    else if code[a].Index? then FromBytes(code[a].data) else None
  }

  /** A tree that is read before every write never overflows a counter. */
  lemma TreeAtRoom(code: Codes, k: Key, v: Key)
    requires TreeAt(code, k).Some?
    ensures !ArtSet.Overflows(TreeAt(code, k).value.root, v)
  {
    var a := IndexAccount(k);
    if a in code { StoredRoom(code[a].data, v); }
  }

  lemma TreeAtHolds(code: Codes, k: Key, s: set<Key>)
    requires TreeHolds(code, k, s)
    ensures TreeAt(code, k).Some? && TreeIs(TreeAt(code, k).value, s)
  {
    EmptyHolds();
  }

  // ── The indexes as a value ───────────────────────────────────────────

  /** The account code, and the keys whose tree has been through a write after
      which it no longer held what it should. */
  datatype Tiers = Tiers(code: Codes, lossy: set<Key>)

  /** Read the tree of `k`, insert `v`, write it back. Fails on a tree that
      cannot be read, and where writing stops. */
  ghost function InsertTree(d: Tiers, k: Key, v: Key): Option<Tiers> {
    if TreeAt(d.code, k).None? then None
    else
      var t := TreeAt(d.code, k).value;
      var r := TreeInsert(t, v).0;
      if !Writable(r.root) then None
      else
        Some(d.(code := d.code[IndexAccount(k) := Index(ToBytes(r))], lossy := if InsertClean(t, v) then d.lossy else d.lossy + {k}))
  }

  /** Read the tree of `k`, remove `v`, write it back or clear the account. */
  ghost function RemoveTree(d: Tiers, k: Key, v: Key): Option<Tiers> {
    if TreeAt(d.code, k).None? then None
    else
      var t := TreeAt(d.code, k).value;
      var r := TreeRemove(t, v).0;
      if r.len == 0 then Some(d.(code := d.code - {IndexAccount(k)}))
      else if !Writable(r.root) then None
      else
        Some(d.(code := d.code[IndexAccount(k) := Index(ToBytes(r))], lossy := if RemoveClean(t, v) then d.lossy else d.lossy + {k}))
  }

  /** `insert_into_indexes`. */
  ghost function AddPair(d: Tiers, a: Annotation, id: nat): Option<Tiers> {
    var ids := Bits(d.code, a.key, a.value);
    var p := d.(code := d.code[PairAccount(a.key, a.value) := Bitmap(ids + {id})]);
    if a.tier2 && ids == {} then InsertTree(p, a.key, a.value) else Some(p)
  }

  /** `remove_from_indexes`. */
  ghost function DropPair(d: Tiers, a: Annotation, id: nat): Option<Tiers> {
    var ids := Bits(d.code, a.key, a.value);
    var p := d.(code := d.code[PairAccount(a.key, a.value) := Bitmap(ids - {id})]);
    if ids == {} then Some(d)
    else if a.tier2 && ids - {id} == {} then RemoveTree(p, a.key, a.value)
    else Some(p)
  }

  /** Index every annotation of `anns` that is not in `skip`. */
  ghost function AddPairs(d: Tiers, anns: seq<Annotation>, skip: set<Annotation>, id: nat): Option<Tiers> {
    if anns == [] then Some(d)
    else
      var p := AddPairs(d, anns[..|anns| - 1], skip, id);
      if p.None? || anns[|anns| - 1] in skip then p else AddPair(p.value, anns[|anns| - 1], id)
  }

  ghost function DropPairs(d: Tiers, anns: seq<Annotation>, skip: set<Annotation>, id: nat): Option<Tiers> {
    if anns == [] then Some(d)
    else
      var p := DropPairs(d, anns[..|anns| - 1], skip, id);
      if p.None? || anns[|anns| - 1] in skip then p else DropPair(p.value, anns[|anns| - 1], id)
  }

  // ── Records ──────────────────────────────────────────────────────────

  lemma NoRecord(k: Key, v: Key)
    ensures !PairAccount(k, v).EntityAccount? && !IndexAccount(k).EntityAccount?
  {}

  /** Whatever the indexes say, an operation on a pair leaves the records of the
      entities alone. */
  lemma PairsAside(d: Tiers, a: Annotation, id: nat)
    ensures AddPair(d, a, id).Some? ==> SameEntities(d.code, AddPair(d, a, id).value.code)
    ensures DropPair(d, a, id).Some? ==> SameEntities(d.code, DropPair(d, a, id).value.code)
  {
    NoRecord(a.key, a.value);
    hide TreeAt, TreeInsert, TreeRemove, Writable, InsertClean, RemoveClean, Bits, PairAccount, IndexAccount, ToBytes;
  }

  lemma {:induction false} AllAside(d: Tiers, anns: seq<Annotation>, skip: set<Annotation>, id: nat)
    ensures AddPairs(d, anns, skip, id).Some? ==> SameEntities(d.code, AddPairs(d, anns, skip, id).value.code)
    ensures DropPairs(d, anns, skip, id).Some? ==> SameEntities(d.code, DropPairs(d, anns, skip, id).value.code)
  {
    if anns != [] {
      var pre, a := anns[..|anns| - 1], anns[|anns| - 1];
      AllAside(d, pre, skip, id);
      hide AddPair, DropPair;
      if AddPairs(d, pre, skip, id).Some? { PairsAside(AddPairs(d, pre, skip, id).value, a, id); }
      if DropPairs(d, pre, skip, id).Some? { PairsAside(DropPairs(d, pre, skip, id).value, a, id); }
    }
  }

  // ── One tree write ───────────────────────────────────────────────────

  /** `p` is `d` with another tree under `k`. */
  ghost predicate OnlyTree(d: Tiers, p: Tiers, k: Key) {
    && Typed(p.code) && d.lossy <= p.lossy <= d.lossy + {k}
    && (forall k', v' :: Bits(p.code, k', v') == Bits(d.code, k', v'))
    && (forall k', t :: k' != k ==> TreeHolds(p.code, k', t) == TreeHolds(d.code, k', t))
    && SameEntities(d.code, p.code)
  }

  /** An insertion keeps the tree exact if and only if its key does not become
      lossy, and touches nothing else. */
  lemma InsertTreeExact(d: Tiers, k: Key, v: Key, s: set<Key>)
    requires Typed(d.code) && InsertTree(d, k, v).Some?
    ensures OnlyTree(d, InsertTree(d, k, v).value, k)
    ensures k !in d.lossy && TreeHolds(d.code, k, s) ==>
      (TreeHolds(InsertTree(d, k, v).value.code, k, s + {v}) <==> k !in InsertTree(d, k, v).value.lossy)
  {
    var t, p := TreeAt(d.code, k).value, InsertTree(d, k, v).value;
    IndexWrite(d.code, p.code, k);
    if k !in d.lossy && TreeHolds(d.code, k, s) {
      TreeAtHolds(d.code, k, s);
      StoreInsertExact(t, s, v);
    }
  }

  lemma RemoveTreeExact(d: Tiers, k: Key, v: Key, s: set<Key>)
    requires Typed(d.code) && RemoveTree(d, k, v).Some?
    ensures OnlyTree(d, RemoveTree(d, k, v).value, k)
    ensures k !in d.lossy && TreeHolds(d.code, k, s) ==>
      (TreeHolds(RemoveTree(d, k, v).value.code, k, s - {v}) <==> k !in RemoveTree(d, k, v).value.lossy)
  {
    var t, p := TreeAt(d.code, k).value, RemoveTree(d, k, v).value;
    IndexWrite(d.code, p.code, k);
    if k !in d.lossy && TreeHolds(d.code, k, s) {
      TreeAtHolds(d.code, k, s);
      StoreRemoveExact(t, s, v);
      NoneLeft(s - {v});
    }
  }

  lemma NoneLeft(s: set<Key>)
    ensures |s| == 0 <==> s == {}
  {}

  // ── One annotation more ──────────────────────────────────────────────

  lemma BitsPlus(code: Codes, m: Model, id: nat, a: Annotation)
    requires Typed(code) && BitsAgree(code, m) && ZeroFree(a.key)
    ensures BitsAgree(code[PairAccount(a.key, a.value) := Bitmap(Bits(code, a.key, a.value) + {id})], Plus(m, id, a))
  {
    var c := code[PairAccount(a.key, a.value) := Bitmap(Bits(code, a.key, a.value) + {id})];
    PairWrite(code, a.key, a.value, Bits(code, a.key, a.value) + {id});
    forall k, v, i | ZeroFree(k) ensures i in Bits(c, k, v) <==> Carries(Plus(m, id, a), i, k, v) {
      assert i in Bits(code, k, v) <==> Carries(m, i, k, v);
    }
  }

  lemma TreeValuesPlus(m: Model, id: nat, a: Annotation, k: Key)
    ensures TreeValues(Plus(m, id, a), k) == TreeValues(m, k) + if a.tier2 && a.key == k then {a.value} else {}
  {
    CarriedPlus(m, id, a);
    var p := Plus(m, id, a);
    forall v ensures v in TreeValues(p, k) <==> v in TreeValues(m, k) || (a.tier2 && a.key == k && v == a.value) {
      TreeValueIn(p, k, v);
      TreeValueIn(m, k, v);
    }
  }

  lemma TreeValueIn(m: Model, k: Key, v: Key)
    ensures v in TreeValues(m, k) <==> Annotation(k, v, true) in Carried(m)
  {
    if v in TreeValues(m, k) {
      var a :| a in Carried(m) && a.key == k && a.tier2 && a.value == v;
      assert a == Annotation(k, v, true);
    }
  }

  lemma CarriedIn(m: Model, id: nat, k: Key, v: Key)
    requires Carries(m, id, k, v)
    ensures Annotation(k, v, true) in Carried(m) || Annotation(k, v, false) in Carried(m)
  {}

  /** The trees after one more annotation. */
  lemma TreesPlus(c0: Codes, m: Model, id: nat, a: Annotation, c: Codes, l0: set<Key>, lossy: set<Key>)
    requires TreesAgree(c0, m, l0) && l0 <= lossy
    requires forall k, t :: k != a.key ==> TreeHolds(c, k, t) == TreeHolds(c0, k, t)
    requires a.key !in lossy && ZeroFree(a.key) ==>
      TreeHolds(c, a.key, TreeValues(m, a.key) + if a.tier2 then {a.value} else {})
    ensures TreesAgree(c, Plus(m, id, a), lossy)
  {
    forall k | ZeroFree(k) && k !in lossy ensures TreeHolds(c, k, TreeValues(Plus(m, id, a), k)) {
      TreeValuesPlus(m, id, a, k);
      assert TreeHolds(c0, k, TreeValues(m, k));
      if k != a.key { assert TreeValues(m, k) + {} == TreeValues(m, k); }
    }
  }

  /** A value that wants a place in the tree, has none, and is not new. */
  ghost predicate Clash(code: Codes, m: Model, k: Key, v: Key, tier2: bool) {
    tier2 && Bits(code, k, v) != {} && v !in TreeValues(m, k)
  }

  lemma TreeHoldsOnce(code: Codes, k: Key, s: set<Key>, t: set<Key>)
    requires TreeHolds(code, k, s) && TreeHolds(code, k, t)
    ensures s == t
  {}

  /** When one more annotation keeps the agreement. */
  lemma InsertExact(c0: Codes, m: Model, id: nat, a: Annotation, c: Codes, l0: set<Key>, lossy: set<Key>)
    requires IndexesAgree(c0, m, l0) && l0 <= lossy && ZeroFree(a.key)
    requires Typed(c) && BitsAgree(c, Plus(m, id, a))
    requires forall k, t :: k != a.key ==> TreeHolds(c, k, t) == TreeHolds(c0, k, t)
    requires a.key !in lossy ==>
      TreeHolds(c, a.key, TreeValues(m, a.key) + if a.tier2 && Bits(c0, a.key, a.value) == {} then {a.value} else {})
    ensures IndexesAgree(c, Plus(m, id, a), lossy) <==> a.key in lossy || !Clash(c0, m, a.key, a.value, a.tier2)
  {
    var s, t := TreeValues(m, a.key), if a.tier2 && Bits(c0, a.key, a.value) == {} then {a.value} else {};
    ClashIs(c0, m, a);
    hide *;
    AgreeParts(c0, m, l0);
    if a.key in lossy || !Clash(c0, m, a.key, a.value, a.tier2) {
      TreesPlus(c0, m, id, a, c, l0, lossy);
      AgreeWhole(c, Plus(m, id, a), lossy);
    } else if IndexesAgree(c, Plus(m, id, a), lossy) {
      IndexesParts(c, Plus(m, id, a), lossy, a.key);
      TreeValuesPlus(m, id, a, a.key);
      TreeHoldsOnce(c, a.key, s + t, s + {a.value});
    }
  }

  /** A clash, by what is put into the tree and what should be in it. */
  lemma ClashIs(code: Codes, m: Model, a: Annotation)
    ensures var s, t := TreeValues(m, a.key), if a.tier2 && Bits(code, a.key, a.value) == {} then {a.value} else {};
      if Clash(code, m, a.key, a.value, a.tier2) then a.tier2 && a.value !in s + t
      else s + t == s + if a.tier2 then {a.value} else {}
  {}

  lemma AgreeParts(c: Codes, m: Model, lossy: set<Key>)
    requires IndexesAgree(c, m, lossy)
    ensures Typed(c) && BitsAgree(c, m) && TreesAgree(c, m, lossy)
  {}

  lemma AgreeWhole(c: Codes, m: Model, lossy: set<Key>)
    requires Typed(c) && BitsAgree(c, m) && TreesAgree(c, m, lossy)
    ensures IndexesAgree(c, m, lossy)
  {}

  lemma PairWritten(c0: Codes, m: Model, id: nat, a: Annotation, ids: set<nat>, l0: set<Key>)
    requires Typed(c0) && BitsAgree(c0, m) && ZeroFree(a.key) && ids == Bits(c0, a.key, a.value) + {id}
    ensures var c := c0[PairAccount(a.key, a.value) := Bitmap(ids)];
      && Typed(c) && SameEntities(c0, c) && BitsAgree(c, Plus(m, id, a))
      && (forall k, t :: TreeHolds(c, k, t) == TreeHolds(c0, k, t))
    ensures TreeValues(m, a.key) + {} == TreeValues(m, a.key)
  {
    PairWrite(c0, a.key, a.value, ids);
    BitsPlus(c0, m, id, a);
  }

  lemma IndexesParts(c: Codes, m: Model, lossy: set<Key>, k: Key)
    requires IndexesAgree(c, m, lossy) && ZeroFree(k)
    ensures Typed(c) && BitsAgree(c, m) && (k !in lossy ==> TreeHolds(c, k, TreeValues(m, k)))
  {}

  /** What both pair operations leave alone. */
  ghost predicate Beside(d: Tiers, p: Tiers, k: Key) {
    && SameEntities(d.code, p.code) && d.lossy <= p.lossy <= d.lossy + {k} && Typed(p.code)
    && (forall k', t :: k' != k ==> TreeHolds(p.code, k', t) == TreeHolds(d.code, k', t))
  }

  /** One more annotation: the bitmaps follow, and both tiers still agree if and
      only if a value that wants a place in the tree has one already or is new to
      its bitmap. */
  lemma AddPairExact(d: Tiers, m: Model, a: Annotation, id: nat)
    requires IndexesAgree(d.code, m, d.lossy) && ZeroFree(a.key) && AddPair(d, a, id).Some?
    ensures var p := AddPair(d, a, id).value;
      && Beside(d, p, a.key) && BitsAgree(p.code, Plus(m, id, a))
      && (IndexesAgree(p.code, Plus(m, id, a), p.lossy) <==> a.key in p.lossy || !Clash(d.code, m, a.key, a.value, a.tier2))
  {
    var p, ids, s := AddPair(d, a, id).value, Bits(d.code, a.key, a.value), TreeValues(m, a.key);
    var d1 := d.(code := d.code[PairAccount(a.key, a.value) := Bitmap(ids + {id})]);
    AddPairIs(d, a, id);
    hide *;
    IndexesParts(d.code, m, d.lossy, a.key);
    PairWritten(d.code, m, id, a, ids + {id}, d.lossy);
    if a.tier2 && ids == {} {
      InsertTreeExact(d1, a.key, a.value, s);
      TreeWritten(d, d1, p, a.key, Plus(m, id, a));
    } else {
      PairOnly(d, d1, a.key);
    }
    BesideParts(d, p, a.key);
    InsertExact(d.code, m, id, a, p.code, d.lossy, p.lossy);
  }

  lemma AddPairIs(d: Tiers, a: Annotation, id: nat)
    ensures var ids := Bits(d.code, a.key, a.value);
      var p := d.(code := d.code[PairAccount(a.key, a.value) := Bitmap(ids + {id})]);
      AddPair(d, a, id) == if a.tier2 && ids == {} then InsertTree(p, a.key, a.value) else Some(p)
  {}

  lemma BesideParts(d: Tiers, p: Tiers, k: Key)
    requires Beside(d, p, k)
    ensures SameEntities(d.code, p.code) && d.lossy <= p.lossy <= d.lossy + {k} && Typed(p.code)
    ensures forall k', t :: k' != k ==> TreeHolds(p.code, k', t) == TreeHolds(d.code, k', t)
  {}

  lemma PairOnly(d: Tiers, p: Tiers, k: Key)
    requires Typed(p.code) && SameEntities(d.code, p.code) && p == d.(code := p.code)
    requires forall k, t :: TreeHolds(p.code, k, t) == TreeHolds(d.code, k, t)
    ensures Beside(d, p, k)
  {}

  lemma TreeWritten(d: Tiers, d1: Tiers, p: Tiers, k: Key, m: Model)
    requires OnlyTree(d1, p, k) && SameEntities(d.code, d1.code) && d1 == d.(code := d1.code)
    requires forall k, t :: TreeHolds(d1.code, k, t) == TreeHolds(d.code, k, t)
    ensures Beside(d, p, k) && (BitsAgree(d1.code, m) ==> BitsAgree(p.code, m))
    ensures forall k', v' :: Bits(p.code, k', v') == Bits(d1.code, k', v')
  {
    SameEntitiesTwice(d.code, d1.code, p.code);
  }

  /** No clash where the flag is a function of the pair. */
  lemma NoClash(code: Codes, m: Model, id: nat, a: Annotation)
    requires BitsAgree(code, m) && FlagsAgree(Plus(m, id, a)) && ZeroFree(a.key)
    ensures !Clash(code, m, a.key, a.value, a.tier2)
  {
    if a.tier2 && Bits(code, a.key, a.value) != {} { PresentInTree(code, m, id, a); }
  }

  /** A value whose bitmap was not empty is already in the tree. */
  lemma PresentInTree(code: Codes, m: Model, id: nat, a: Annotation)
    requires BitsAgree(code, m) && FlagsAgree(Plus(m, id, a)) && ZeroFree(a.key) && a.tier2
    requires Bits(code, a.key, a.value) != {}
    ensures a.value in TreeValues(m, a.key)
  {
    var i :| i in Bits(code, a.key, a.value);
    CarriedIn(m, i, a.key, a.value);
    CarriedPlus(m, id, a);
    TreeValueIn(m, a.key, a.value);
  }

  lemma SameEntitiesTwice(c0: Codes, c1: Codes, c2: Codes)
    requires SameEntities(c0, c1) && SameEntities(c1, c2)
    ensures SameEntities(c0, c2)
  {}

  // ── One annotation less ──────────────────────────────────────────────

  /** The id holds the pair under the other flag too: its bit goes, and that
      annotation stays. */
  ghost predicate BitClash(m: Model, id: nat, a: Annotation)
    requires id in m
  {
    Annotation(a.key, a.value, !a.tier2) in m[id]
  }

  /** Somebody else holds this annotation. */
  ghost predicate OtherHas(m: Model, id: nat, a: Annotation) {
    exists i :: i in m && i != id && a in m[i]
  }

  /** Others hold the pair, but only under the other flag: the value stays in a
      tree in which nobody wants it. */
  ghost predicate TreeClash(m: Model, id: nat, a: Annotation)
    requires id in m
  {
    a.tier2 && a in m[id] && !OtherHas(m, id, a) && exists i :: i != id && Carries(m, i, a.key, a.value)
  }

  lemma DropBits(c0: Codes, m: Model, id: nat, a: Annotation, c: Codes)
    requires BitsAgree(c0, m) && ZeroFree(a.key) && id in m
    requires forall k, v :: ZeroFree(k) ==>
      Bits(c, k, v) == if k == a.key && v == a.value then Bits(c0, k, v) - {id} else Bits(c0, k, v)
    ensures BitsAgree(c, Minus(m, id, a)) <==> !BitClash(m, id, a)
  {
    assert a == Annotation(a.key, a.value, a.tier2);
    if BitClash(m, id, a) {
      assert Carries(Minus(m, id, a), id, a.key, a.value) && id !in Bits(c, a.key, a.value);
    } else {
      forall k, v, i | ZeroFree(k) ensures i in Bits(c, k, v) <==> Carries(Minus(m, id, a), i, k, v) {
        assert i in Bits(c0, k, v) <==> Carries(m, i, k, v);
      }
    }
  }

  lemma TreeValuesMinus(m: Model, id: nat, a: Annotation, k: Key)
    requires id in m
    ensures TreeValues(Minus(m, id, a), k) ==
      TreeValues(m, k) - if a.tier2 && a.key == k && !OtherHas(m, id, a) then {a.value} else {}
  {
    CarriedMinus(m, id, a);
    assert a == Annotation(a.key, a.value, a.tier2);
    forall v ensures v in TreeValues(Minus(m, id, a), k) <==>
      v in TreeValues(m, k) && !(a.tier2 && a.key == k && v == a.value && !OtherHas(m, id, a)) {
      TreeValueIn(Minus(m, id, a), k, v);
      TreeValueIn(m, k, v);
    }
  }

  lemma NobodyHas(m: Model, id: nat, a: Annotation)
    requires id in m && !OtherHas(m, id, a)
    ensures a in Carried(m) <==> a in m[id]
  {
    if a in m[id] { CarriedAt(m, id, a); }
  }

  lemma OnlyHolder(code: Codes, m: Model, id: nat, a: Annotation)
    requires BitsAgree(code, m) && ZeroFree(a.key)
    ensures Bits(code, a.key, a.value) - {id} != {} <==> exists i :: i != id && Carries(m, i, a.key, a.value)
  {
    if Bits(code, a.key, a.value) - {id} != {} {
      var i :| i in Bits(code, a.key, a.value) - {id};
      assert i != id && Carries(m, i, a.key, a.value);
    }
    if i :| i != id && Carries(m, i, a.key, a.value) {
      assert i in Bits(code, a.key, a.value) - {id};
    }
  }

  /** What the code takes out of the tree for a removed annotation. */
  ghost function TakenOut(code: Codes, id: nat, a: Annotation): set<Key> {
    var ids := Bits(code, a.key, a.value);
    if a.tier2 && ids != {} && ids - {id} == {} then {a.value} else {}
  }

  /** It is what should go, unless others hold the pair unordered. */
  lemma DropTree(c0: Codes, m: Model, id: nat, a: Annotation)
    requires BitsAgree(c0, m) && ZeroFree(a.key) && id in m && !BitClash(m, id, a)
    ensures (TreeValues(Minus(m, id, a), a.key) == TreeValues(m, a.key) - TakenOut(c0, id, a)) <==> !TreeClash(m, id, a)
  {
    TreeValuesMinus(m, id, a, a.key);
    TreeValueIn(m, a.key, a.value);
    var ids := Bits(c0, a.key, a.value);
    assert a == Annotation(a.key, a.value, a.tier2);
    forall i: nat ensures i in ids <==> Carries(m, i, a.key, a.value) {}
    if OtherHas(m, id, a) {
      var i :| i in m && i != id && a in m[i];
      assert i in ids - {id};
    } else {
      NobodyHas(m, id, a);
      if a in m[id] {
        assert id in ids;
        OnlyHolder(c0, m, id, a);
      }
    }
  }

  /** One annotation less: both tiers still agree if and only if the id does not
      hold the pair under the other flag, and no value is left in the tree for
      holders under the other flag alone. */
  lemma DropPairExact(d: Tiers, m: Model, a: Annotation, id: nat)
    requires IndexesAgree(d.code, m, d.lossy) && ZeroFree(a.key) && id in m && DropPair(d, a, id).Some?
    ensures var p := DropPair(d, a, id).value;
      && Beside(d, p, a.key)
      && (IndexesAgree(p.code, Minus(m, id, a), p.lossy) <==> !BitClash(m, id, a) && (a.key in p.lossy || !TreeClash(m, id, a)))
  {
    var p, ids, s := DropPair(d, a, id).value, Bits(d.code, a.key, a.value), TreeValues(m, a.key);
    var d1 := d.(code := d.code[PairAccount(a.key, a.value) := Bitmap(ids - {id})]);
    DropPairIs(d, a, id);
    hide *;
    IndexesParts(d.code, m, d.lossy, a.key);
    if ids == {} {
      NothingDropped(d, a, id);
    } else {
      PairCleared(d.code, a, ids - {id});
      if a.tier2 && ids - {id} == {} {
        RemoveTreeExact(d1, a.key, a.value, s);
        TreeWritten(d, d1, p, a.key, m);
      } else {
        PairOnly(d, d1, a.key);
      }
    }
    BesideParts(d, p, a.key);
    DropBits(d.code, m, id, a, p.code);
    TakenIs(d.code, id, a, s);
    DroppedAgree(d, m, a, id, p);
  }

  lemma TakenIs(code: Codes, id: nat, a: Annotation, s: set<Key>)
    ensures var ids := Bits(code, a.key, a.value);
      s - TakenOut(code, id, a) == if a.tier2 && ids != {} && ids - {id} == {} then s - {a.value} else s
  {}

  lemma DropPairIs(d: Tiers, a: Annotation, id: nat)
    ensures var ids := Bits(d.code, a.key, a.value);
      var p := d.(code := d.code[PairAccount(a.key, a.value) := Bitmap(ids - {id})]);
      DropPair(d, a, id) == if ids == {} then Some(d) else if a.tier2 && ids - {id} == {} then RemoveTree(p, a.key, a.value) else Some(p)
  {}

  lemma NothingDropped(d: Tiers, a: Annotation, id: nat)
    requires Typed(d.code) && Bits(d.code, a.key, a.value) == {}
    ensures Beside(d, d, a.key) && Bits(d.code, a.key, a.value) - {id} == Bits(d.code, a.key, a.value)
  {}

  lemma PairCleared(c0: Codes, a: Annotation, ids: set<nat>)
    requires Typed(c0) && ZeroFree(a.key)
    ensures var c := c0[PairAccount(a.key, a.value) := Bitmap(ids)];
      && Typed(c) && SameEntities(c0, c)
      && (forall k, t :: TreeHolds(c, k, t) == TreeHolds(c0, k, t))
      && (forall k, v :: ZeroFree(k) ==> Bits(c, k, v) == if k == a.key && v == a.value then ids else Bits(c0, k, v))
  {
    PairWrite(c0, a.key, a.value, ids);
  }

  lemma DroppedAgree(d: Tiers, m: Model, a: Annotation, id: nat, p: Tiers)
    requires IndexesAgree(d.code, m, d.lossy) && ZeroFree(a.key) && id in m && Beside(d, p, a.key)
    requires BitsAgree(p.code, Minus(m, id, a)) <==> !BitClash(m, id, a)
    requires a.key !in p.lossy ==> TreeHolds(p.code, a.key, TreeValues(m, a.key) - TakenOut(d.code, id, a))
    ensures IndexesAgree(p.code, Minus(m, id, a), p.lossy) <==> !BitClash(m, id, a) && (a.key in p.lossy || !TreeClash(m, id, a))
  {
    var n, left := Minus(m, id, a), TreeValues(m, a.key) - TakenOut(d.code, id, a);
    if !BitClash(m, id, a) {
      DropTree(d.code, m, id, a);
      if a.key in p.lossy || !TreeClash(m, id, a) {
        forall k | ZeroFree(k) && k !in p.lossy ensures TreeHolds(p.code, k, TreeValues(n, k)) {
          TreeValuesMinus(m, id, a, k);
          if k != a.key {
            assert TreeValues(m, k) - {} == TreeValues(m, k);
            assert TreeHolds(d.code, k, TreeValues(m, k));
          }
        }
      } else if IndexesAgree(p.code, n, p.lossy) {
        TreeHoldsOnce(p.code, a.key, left, TreeValues(n, a.key));
      }
    }
  }

  // ── Several annotations at once ──────────────────────────────────────

  ghost function PlusAll(m: Model, id: nat, s: set<Annotation>): Model {
    m[id := (if id in m then m[id] else {}) + s]
  }

  ghost function MinusAll(m: Model, id: nat, s: set<Annotation>): Model
    requires id in m
  {
    m[id := m[id] - s]
  }

  lemma PlusAllStep(m: Model, id: nat, s: set<Annotation>, a: Annotation)
    ensures Plus(PlusAll(m, id, s), id, a) == PlusAll(m, id, s + {a})
    ensures Plus(m, id, a) == PlusAll(m, id, {} + {a})
    ensures id in m ==> PlusAll(m, id, {}) == m
  {
    var base: set<Annotation> := if id in m then m[id] else {};
    assert base + s + {a} == base + (s + {a});
    assert base + {} == base && {} + {a} == {a};
  }

  lemma MinusAllStep(m: Model, id: nat, s: set<Annotation>, a: Annotation)
    requires id in m
    ensures Minus(MinusAll(m, id, s), id, a) == MinusAll(m, id, s + {a})
    ensures MinusAll(m, id, {}) == m
  {
    assert m[id] - s - {a} == m[id] - (s + {a});
    assert m[id] - {} == m[id];
  }

  lemma CarriedPlusAll(m: Model, id: nat, s: set<Annotation>)
    ensures Carried(PlusAll(m, id, s)) == Carried(m) + s
  {
    var p := PlusAll(m, id, s);
    forall x ensures x in Carried(p) <==> x in Carried(m) || x in s {
      if x in Carried(m) {
        var i :| i in m && x in m[i];
        assert i in p && x in p[i];
      }
      if x in s { assert id in p && x in p[id]; }
    }
  }

  lemma CarriedAt(m: Model, id: nat, x: Annotation)
    requires id in m && x in m[id]
    ensures x in Carried(m)
  {}

  /** Replacing the annotations of one id. */
  lemma CarriedReplace(m: Model, id: nat, s: set<Annotation>)
    ensures Carried(m[id := s]) <= Carried(m) + s
    ensures s <= Carried(m[id := s])
  {
    var p := m[id := s];
    forall x | x in Carried(p) ensures x in Carried(m) || x in s {
      var i :| i in p && x in p[i];
      if i != id { CarriedAt(m, i, x); }
    }
    forall x | x in s ensures x in Carried(p) { CarriedAt(p, id, x); }
  }

  // ── Lists of annotations ─────────────────────────────────────────────

  ghost function Added(m: Model, id: nat, s: set<Annotation>): Model { if s == {} then m else PlusAll(m, id, s) }

  /** What an operation on the pairs of one id leaves alone. */
  ghost predicate Around(d: Tiers, p: Tiers) {
    SameEntities(d.code, p.code) && d.lossy <= p.lossy
  }

  lemma AroundStep(d: Tiers, e: Tiers, p: Tiers, k: Key)
    requires Around(d, e) && Beside(e, p, k)
    ensures Around(d, p)
  {
    SameEntitiesTwice(d.code, e.code, p.code);
  }

  lemma AddPairsStep(d: Tiers, anns: seq<Annotation>, skip: set<Annotation>, id: nat)
    requires anns != []
    ensures var p := AddPairs(d, anns[..|anns| - 1], skip, id);
      AddPairs(d, anns, skip, id) == if p.None? || anns[|anns| - 1] in skip then p else AddPair(p.value, anns[|anns| - 1], id)
    ensures var p := DropPairs(d, anns[..|anns| - 1], skip, id);
      DropPairs(d, anns, skip, id) == if p.None? || anns[|anns| - 1] in skip then p else DropPair(p.value, anns[|anns| - 1], id)
  {
    hide AddPair, DropPair;
  }

  lemma ElementsLast(anns: seq<Annotation>, skip: set<Annotation>)
    requires anns != []
    ensures Elements(anns) == Elements(anns[..|anns| - 1]) + {anns[|anns| - 1]} && anns[|anns| - 1] in anns
    ensures Elements(anns) - skip ==
      (Elements(anns[..|anns| - 1]) - skip) + if anns[|anns| - 1] in skip then {} else {anns[|anns| - 1]}
    ensures forall a :: a in anns[..|anns| - 1] ==> a in anns
  {
    assert anns == anns[..|anns| - 1] + [anns[|anns| - 1]];
  }

  lemma NoAnnotations(d: Tiers, skip: set<Annotation>, id: nat)
    ensures AddPairs(d, [], skip, id) == Some(d) && DropPairs(d, [], skip, id) == Some(d) && Elements<Annotation>([]) - skip == {}
    ensures Around(d, d)
  {}

  /** Indexing a list, its repetitions and its order notwithstanding, indexes
      its set, where the tree flag stays a function of the pair. */
  lemma {:induction false} AddPairsAgree(d: Tiers, m: Model, anns: seq<Annotation>, skip: set<Annotation>, id: nat)
    requires IndexesAgree(d.code, m, d.lossy) && AddPairs(d, anns, skip, id).Some?
    requires (forall a :: a in anns ==> ZeroFree(a.key)) && FlagsAgree(PlusAll(m, id, Elements(anns) - skip))
    ensures var p := AddPairs(d, anns, skip, id).value;
      IndexesAgree(p.code, Added(m, id, Elements(anns) - skip), p.lossy) && Around(d, p)
  {
    hide *;
    if anns == [] {
      NoAnnotations(d, skip, id);
      NothingAdded(m, id);
    } else {
      var pre, a := anns[..|anns| - 1], anns[|anns| - 1];
      var done := Elements(pre) - skip;
      AddPairsStep(d, anns, skip, id);
      ElementsLast(anns, skip);
      FewerFlags(m, id, done, Elements(anns) - skip);
      AddPairsAgree(d, m, pre, skip, id);
      var e := AddPairs(d, pre, skip, id).value;
      if a in skip {
        assert done + {} == done;
      } else {
        IndexFlags(m, Added(m, id, done), id, Elements(anns) - skip, done, a);
        AgreeParts(e.code, Added(m, id, done), e.lossy);
        NoClash(e.code, Added(m, id, done), id, a);
        AddPairExact(e, Added(m, id, done), a, id);
        AroundStep(d, e, AddPairs(d, anns, skip, id).value, a.key);
        AddedStep(m, id, done, a);
      }
    }
  }

  lemma NothingAdded(m: Model, id: nat)
    ensures Added(m, id, {}) == m && (id in m ==> MinusAll(m, id, {}) == m)
  {
    if id in m { assert m[id] - {} == m[id]; }
  }

  lemma AddedStep(m: Model, id: nat, s: set<Annotation>, a: Annotation)
    ensures Plus(Added(m, id, s), id, a) == Added(m, id, s + {a})
  {
    PlusAllStep(m, id, s, a);
  }

  lemma FewerFlags(m: Model, id: nat, some: set<Annotation>, all: set<Annotation>)
    requires FlagsAgree(PlusAll(m, id, all)) && some <= all
    ensures FlagsAgree(PlusAll(m, id, some))
  {
    CarriedPlusAll(m, id, all);
    CarriedPlusAll(m, id, some);
    FlagsSubset(PlusAll(m, id, some), PlusAll(m, id, all));
  }

  /** Removing a list removes its set. */
  lemma {:induction false} DropPairsAgree(d: Tiers, m: Model, anns: seq<Annotation>, skip: set<Annotation>, id: nat)
    requires IndexesAgree(d.code, m, d.lossy) && DropPairs(d, anns, skip, id).Some? && id in m && FlagsAgree(m)
    requires (forall a :: a in anns ==> ZeroFree(a.key)) && (forall a :: a in Elements(anns) - skip ==> !BitClash(m, id, a))
    ensures var p := DropPairs(d, anns, skip, id).value;
      IndexesAgree(p.code, MinusAll(m, id, Elements(anns) - skip), p.lossy) && Around(d, p)
  {
    hide *;
    if anns == [] {
      NoAnnotations(d, skip, id);
      NothingAdded(m, id);
    } else {
      var pre, a := anns[..|anns| - 1], anns[|anns| - 1];
      var done := Elements(pre) - skip;
      AddPairsStep(d, anns, skip, id);
      ElementsLast(anns, skip);
      DropPairsAgree(d, m, pre, skip, id);
      var e := DropPairs(d, pre, skip, id).value;
      if a in skip {
        assert done + {} == done;
      } else {
        NoDropClash(m, id, done, a);
        DropPairExact(e, MinusAll(m, id, done), a, id);
        AroundStep(d, e, DropPairs(d, anns, skip, id).value, a.key);
        MinusAllStep(m, id, done, a);
      }
    }
  }

  /** Where the flag is a function of the pair, removal never clashes. */
  lemma NoDropClash(m: Model, id: nat, done: set<Annotation>, a: Annotation)
    requires id in m && FlagsAgree(m) && !BitClash(m, id, a)
    ensures var n := MinusAll(m, id, done); id in n && !BitClash(n, id, a) && !TreeClash(n, id, a)
  {
    var n := MinusAll(m, id, done);
    if a in n[id] && exists i :: i != id && Carries(n, i, a.key, a.value) {
      var i :| i != id && Carries(n, i, a.key, a.value);
      SameFlag(m, id, i, a);
      assert i in n && i != id && a in n[i];
      assert OtherHas(n, id, a);
    }
  }

  lemma SameFlag(m: Model, id: nat, i: nat, a: Annotation)
    requires FlagsAgree(m) && id in m && a in m[id] && Carries(m, i, a.key, a.value)
    ensures a in m[i]
  {
    assert a == Annotation(a.key, a.value, a.tier2);
    CarriedAt(m, id, a);
    if Annotation(a.key, a.value, !a.tier2) in m[i] { CarriedAt(m, i, Annotation(a.key, a.value, !a.tier2)); }
  }

  lemma IndexFlags(m0: Model, m: Model, id: nat, all: set<Annotation>, done: set<Annotation>, a: Annotation)
    requires FlagsAgree(PlusAll(m0, id, all)) && done <= all && a in all
    requires m == Added(m0, id, done)
    ensures FlagsAgree(Plus(m, id, a))
  {
    CarriedPlusAll(m0, id, all);
    CarriedPlusAll(m0, id, done);
    CarriedPlus(m, id, a);
    FlagsSubset(Plus(m, id, a), PlusAll(m0, id, all));
  }


  // ── Every tree can be read ───────────────────────────────────────────

  /** Every tree decodes, to a sound tree with paths up to 255 bytes. */
  ghost predicate Readable(code: Codes) {
    forall k :: TreeAt(code, k).Some? && Sound(TreeAt(code, k).value.root, 255)
  }

  /** A value that goes into a tree has at most 255 bytes. */
  predicate Short(a: Annotation) { a.tier2 ==> |a.value| <= 255 }

  lemma WrittenReads(d: Codes, k: Key, t: Tree)
    requires Readable(d) && Sound(t.root, 255)
    ensures Readable(d[IndexAccount(k) := Index(ToBytes(t))]) && Writable(t.root)
  {
    SoundWritable(t.root);
    SoundFits(t.root);
    TreeReads(t);
    ReloadSound(t.root, 255);
    var c := d[IndexAccount(k) := Index(ToBytes(t))];
    forall k' ensures TreeAt(c, k').Some? && Sound(TreeAt(c, k').value.root, 255) {
      if k' != k && IndexAccount(k') == IndexAccount(k) { IndexInjective(k', k); }
      assert k' != k ==> TreeAt(c, k') == TreeAt(d, k');
    }
  }

  lemma ClearedReads(d: Codes, k: Key)
    requires Readable(d)
    ensures Readable(d - {IndexAccount(k)})
  {
    var c := d - {IndexAccount(k)};
    forall k' ensures TreeAt(c, k').Some? && Sound(TreeAt(c, k').value.root, 255) {
      assert TreeAt(c, k') == TreeAt(d, k') || TreeAt(c, k') == Some(EmptyTree);
    }
  }

  lemma PairReads(d: Codes, k: Key, v: Key, ids: set<nat>)
    requires Readable(d)
    ensures Readable(d[PairAccount(k, v) := Bitmap(ids)])
  {
    var c := d[PairAccount(k, v) := Bitmap(ids)];
    forall k' ensures TreeAt(c, k').Some? && Sound(TreeAt(c, k').value.root, 255) {
      PairIndexDisjoint(k, v, k');
      assert TreeAt(c, k') == TreeAt(d, k');
    }
  }

  lemma InsertTreeReads(d: Tiers, k: Key, v: Key)
    requires Readable(d.code) && |v| <= 255
    ensures InsertTree(d, k, v).Some? && Readable(InsertTree(d, k, v).value.code)
  {
    var t := TreeAt(d.code, k).value;
    TreeAtRoom(d.code, k, v);
    InsertSound(t.root, v, 255);
    WrittenReads(d.code, k, TreeInsert(t, v).0);
  }

  lemma RemoveTreeReads(d: Tiers, k: Key, v: Key)
    requires Readable(d.code)
    ensures RemoveTree(d, k, v).Some? && Readable(RemoveTree(d, k, v).value.code)
  {
    var t := TreeAt(d.code, k).value;
    RemoveSound(t.root, v, 255);
    WrittenReads(d.code, k, TreeRemove(t, v).0);
    ClearedReads(d.code, k);
  }

  /** On readable trees no operation on pairs fails, and trees stay readable,
      exact or not. */
  lemma {:induction false} AddPairsRead(d: Tiers, anns: seq<Annotation>, skip: set<Annotation>, id: nat)
    requires Readable(d.code) && forall a :: a in anns ==> Short(a)
    ensures AddPairs(d, anns, skip, id).Some? && Readable(AddPairs(d, anns, skip, id).value.code)
  {
    hide *;
    if anns == [] {
      NoAnnotations(d, skip, id);
    } else {
      AddPairsStep(d, anns, skip, id);
      ElementsLast(anns, skip);
      AddPairsRead(d, anns[..|anns| - 1], skip, id);
      var p, a := AddPairs(d, anns[..|anns| - 1], skip, id).value, anns[|anns| - 1];
      AddPairReads(p, a, id);
    }
  }

  lemma AddPairReads(d: Tiers, a: Annotation, id: nat)
    requires Readable(d.code) && Short(a)
    ensures AddPair(d, a, id).Some? && Readable(AddPair(d, a, id).value.code)
  {
    var ids := Bits(d.code, a.key, a.value);
    hide Readable, InsertTree, Bits;
    PairReads(d.code, a.key, a.value, ids + {id});
    var p := d.(code := d.code[PairAccount(a.key, a.value) := Bitmap(ids + {id})]);
    if a.tier2 && ids == {} { InsertTreeReads(p, a.key, a.value); }
  }

  lemma DropPairReads(d: Tiers, a: Annotation, id: nat)
    requires Readable(d.code)
    ensures DropPair(d, a, id).Some? && Readable(DropPair(d, a, id).value.code)
  {
    var ids := Bits(d.code, a.key, a.value);
    hide Readable, RemoveTree, Bits;
    PairReads(d.code, a.key, a.value, ids - {id});
    var p := d.(code := d.code[PairAccount(a.key, a.value) := Bitmap(ids - {id})]);
    if ids != {} && a.tier2 && ids - {id} == {} { RemoveTreeReads(p, a.key, a.value); }
  }

  lemma {:induction false} DropPairsRead(d: Tiers, anns: seq<Annotation>, skip: set<Annotation>, id: nat)
    requires Readable(d.code)
    ensures DropPairs(d, anns, skip, id).Some? && Readable(DropPairs(d, anns, skip, id).value.code)
  {
    hide *;
    if anns == [] {
      NoAnnotations(d, skip, id);
    } else {
      AddPairsStep(d, anns, skip, id);
      DropPairsRead(d, anns[..|anns| - 1], skip, id);
      DropPairReads(DropPairs(d, anns[..|anns| - 1], skip, id).value, anns[|anns| - 1], id);
    }
  }
}
