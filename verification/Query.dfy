/** Parsed queries and what they ask of one entity. */
module Query {
  import opened Bytes
  import opened Accounts
  import opened Indexes
  import opened EntityDb

  datatype BuiltIn = Owner | Creator | EntityKey | Expiration | ContentType | CreatedAtBlock

  datatype AnnotKey = BuiltInKey(builtIn: BuiltIn) | UserKeyName(name: Key)

  datatype Query =
    | All
    | Eq(key: AnnotKey, value: Key)
    | Neq(key: AnnotKey, value: Key)
    | In(key: AnnotKey, values: seq<Key>)
    | NotIn(key: AnnotKey, values: seq<Key>)
    | Gt(key: AnnotKey, value: Key)
    | Gte(key: AnnotKey, value: Key)
    | Lt(key: AnnotKey, value: Key)
    | Lte(key: AnnotKey, value: Key)
    | Glob(key: AnnotKey, value: Key)
    | NotGlob(key: AnnotKey, value: Key)
    | And(left: Query, right: Query)
    | Or(left: Query, right: Query)
    | Not(inner: Query)

  function PairKey(k: AnnotKey): Key {
    match k
    case BuiltInKey(Owner) => ANNOT_OWNER
    case BuiltInKey(Creator) => ANNOT_CREATOR
    case BuiltInKey(EntityKey) => ANNOT_KEY
    case BuiltInKey(Expiration) => ANNOT_EXPIRATION
    case BuiltInKey(ContentType) => ANNOT_CONTENT_TYPE
    case BuiltInKey(CreatedAtBlock) => ANNOT_CREATED_AT_BLOCK
    case UserKeyName(s) => s
  }

  // ── The reference meaning: one entity, one query ─────────────────────

  /** The entity has value `v` under key `k`. */
  predicate HasValue(e: Entity, k: AnnotKey, v: Key) {
    match k
    case BuiltInKey(Owner) => v == e.owner
    case BuiltInKey(Creator) => v == e.creator
    case BuiltInKey(EntityKey) => v == e.key
    case BuiltInKey(Expiration) => v == BigEndian(e.expiresAt, 8)
    case BuiltInKey(ContentType) => v == e.contentType
    case BuiltInKey(CreatedAtBlock) => v == BigEndian(e.createdAt, 8)
    case UserKeyName(s) => exists a :: a in e.attributes && a.key == s && a.value == v
  }

  /** Values under `k` that range and prefix queries see: addresses, entity
      keys and `ENTITY_KEY` attributes are not among them. */
  predicate HasOrdered(e: Entity, k: AnnotKey, v: Key) {
    match k
    case BuiltInKey(Expiration) => v == BigEndian(e.expiresAt, 8)
    case BuiltInKey(ContentType) => v == e.contentType
    case BuiltInKey(CreatedAtBlock) => v == BigEndian(e.createdAt, 8)
    case BuiltInKey(_) => false
    case UserKeyName(s) => exists a :: a in e.attributes && a.key == s && a.value == v && a.valueType != ATTR_ENTITY_KEY
  }

  /** The order test of a range or prefix leaf. */
  function Wants(q: Query): (p: Key -> bool)
    requires q.Gt? || q.Gte? || q.Lt? || q.Lte? || q.Glob?
  {
    match q
    case Gt(_, v) => (w: Key) => Bytes.Lt(v, w)
    case Gte(_, v) => (w: Key) => w == v || Bytes.Lt(v, w)
    case Lt(_, v) => (w: Key) => Bytes.Lt(w, v)
    case Lte(_, v) => (w: Key) => w == v || Bytes.Lt(w, v)
    case Glob(_, v) => (w: Key) => v <= w
  }

  ghost predicate Satisfies(e: Entity, q: Query) {
    match q
    case All => true
    case Eq(k, v) => HasValue(e, k, v)
    case Neq(k, v) => !HasValue(e, k, v)
    case In(k, vs) => exists v :: v in vs && HasValue(e, k, v)
    case NotIn(k, vs) => !exists v :: v in vs && HasValue(e, k, v)
    case And(l, r) => Satisfies(e, l) && Satisfies(e, r)
    case Or(l, r) => Satisfies(e, l) || Satisfies(e, r)
    case Not(i) => !Satisfies(e, i)
    case NotGlob(k, v) => !exists w :: HasOrdered(e, k, w) && v <= w
    case _ => exists w :: HasOrdered(e, q.key, w) && Wants(q)(w)
  }

  // ── Conditions on a query ────────────────────────────────────────────

  /** Names written in a query never start with `$` and have no zero byte. */
  predicate KeyOk(k: AnnotKey) {
    match k
    case BuiltInKey(_) => true
    case UserKeyName(s) => ZeroFree(s) && !Dollar(s)
  }

  predicate KeysOk(q: Query) {
    match q
    case All => true
    case And(l, r) => KeysOk(l) && KeysOk(r)
    case Or(l, r) => KeysOk(l) && KeysOk(r)
    case Not(i) => KeysOk(i)
    case _ => KeyOk(q.key)
  }

  /** Keys whose value tree the query reads. */
  function TreeKeys(q: Query): set<Key> {
    match q
    case All => {}
    case And(l, r) => TreeKeys(l) + TreeKeys(r)
    case Or(l, r) => TreeKeys(l) + TreeKeys(r)
    case Not(i) => TreeKeys(i)
    case Eq(_, _) => {}
    case Neq(_, _) => {}
    case In(_, _) => {}
    case NotIn(_, _) => {}
    case _ => {PairKey(q.key)}
  }
}
