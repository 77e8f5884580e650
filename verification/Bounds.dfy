/** What an answer is worth when trees it reads may be out of order: bitmaps stay
    exact, so there is a query every answered entity satisfies, and one whose
    entities are all answered. */
module Bounds {
  import opened Options
  import opened Bytes
  import opened Accounts
  import opened ArtNode
  import opened ArtOrder
  import opened ArtWalk
  import opened Indexes
  import opened EntityDb
  import opened Query
  import opened Interpreter

  predicate Scanning(q: Query) { q.Gt? || q.Gte? || q.Lt? || q.Lte? || q.Glob? }

  /** A value under the key passes the test of the leaf, ordered or not. */
  ghost predicate Passes(e: Entity, k: AnnotKey, test: Key -> bool) {
    exists w :: HasValue(e, k, w) && test(w)
  }

  /** With `up`, what an answered entity is sure to satisfy; without, what makes
      sure that an entity is answered. A leaf is exact unless it reads a lossy
      tree; negation changes sides. */
  ghost predicate Bound(e: Entity, q: Query, lossy: set<Key>, up: bool) {
    if q.And? then Bound(e, q.left, lossy, up) && Bound(e, q.right, lossy, up)
    else if q.Or? then Bound(e, q.left, lossy, up) || Bound(e, q.right, lossy, up)
    else if q.Not? then !Bound(e, q.inner, lossy, !up)
    else if TreeKeys(q) !! lossy then Satisfies(e, q)
    else if Scanning(q) then up && Passes(e, q.key, Wants(q))
    else if q.NotGlob? then up || !Passes(e, q.key, Wants(Glob(q.key, q.value)))
    else Satisfies(e, q)
  }

  /** Where no lossy tree is read, the two bounds meet in the query itself. */
  lemma {:induction false} BoundsMeet(e: Entity, q: Query, lossy: set<Key>, up: bool)
    requires TreeKeys(q) !! lossy
    ensures Bound(e, q, lossy, up) <==> Satisfies(e, q)
    decreases q
  {
    if q.And? || q.Or? {
      BoundsMeet(e, q.left, lossy, up);
      BoundsMeet(e, q.right, lossy, up);
    } else if q.Not? {
      BoundsMeet(e, q.inner, lossy, !up);
    }
  }

  lemma {:induction false} FilterPasses(ks: seq<Key>, pred: Key -> bool)
    ensures forall k :: k in Filter(ks, pred) ==> pred(k)
  {
    if ks != [] { FilterPasses(ks[..|ks| - 1], pred); }
  }

  /** Whatever a tree lists, an entity whose id a scan returns does carry a value
      that passes. */
  lemma ScanCarries(code: Codes, x: IdMap, ents: map<Address, Entity>, m: Model, lossy: set<Key>, k: AnnotKey, test: Key -> bool, a: Address)
    requires Consistent(code, x, ents, m, lossy) && KeyOk(k) && a in ents
    requires x.idOf(a) in UnionBits(code, PairKey(k), Scan(code, PairKey(k), test))
    ensures Passes(ents[a], k, test)
  {
    var id, vals := x.idOf(a), Scan(code, PairKey(k), test);
    LiveId(code, x, ents, m, lossy, a);
    if TreeAt(code, PairKey(k)).Some? { FilterPasses(Walk(TreeAt(code, PairKey(k)).value.root), test); }
    UnionIn(code, PairKey(k), vals, id);
    var w :| w in vals && id in Bits(code, PairKey(k), w);
    assert test(w);
    hide *;
    BitsMean(code, x, ents, m, lossy, k, w, id);
    var b :| b in ents && x.idOf(b) == id && HasValue(ents[b], k, w);
    OneAddress(code, x, ents, m, lossy, a, b);
    PassesBy(ents[a], k, test, w);
  }

  lemma PassesBy(e: Entity, k: AnnotKey, test: Key -> bool, w: Key)
    requires HasValue(e, k, w) && test(w)
    ensures Passes(e, k, test)
  {}

  lemma LiveId(code: Codes, x: IdMap, ents: map<Address, Entity>, m: Model, lossy: set<Key>, a: Address)
    requires Consistent(code, x, ents, m, lossy) && a in ents
    ensures x.idOf(a) in AllIds(code)
  {
    AllMean(code, x, ents, m, lossy, x.idOf(a));
  }

  /** A leaf that reads no lossy tree is answered exactly. */
  lemma LeafExact(code: Codes, x: IdMap, ents: map<Address, Entity>, m: Model, lossy: set<Key>, q: Query, a: Address)
    requires Consistent(code, x, ents, m, lossy) && KeysOk(q) && a in ents && TreeKeys(q) !! lossy
    ensures x.idOf(a) in Denote(code, q) <==> Satisfies(ents[a], q)
  {
    LiveId(code, x, ents, m, lossy, a);
    AnswerExact(code, x, ents, m, lossy, q, x.idOf(a));
    hide Consistent, Denote, Satisfies, AllIds;
    if b :| b in ents && x.idOf(b) == x.idOf(a) && Satisfies(ents[b], q) { OneAddress(code, x, ents, m, lossy, a, b); }
  }

  /** For every query and every consistent state, lossy trees or not: who meets
      the lower bound is answered, and who is answered meets the upper one. */
  lemma {:induction false} AnswerBounds(code: Codes, x: IdMap, ents: map<Address, Entity>, m: Model, lossy: set<Key>, q: Query, a: Address)
    requires Consistent(code, x, ents, m, lossy) && KeysOk(q) && a in ents
    ensures Bound(ents[a], q, lossy, false) ==> x.idOf(a) in Denote(code, q)
    ensures x.idOf(a) in Denote(code, q) ==> Bound(ents[a], q, lossy, true)
    decreases q
  {
    hide Consistent;
    LiveId(code, x, ents, m, lossy, a);
    if q.And? || q.Or? {
      AnswerBounds(code, x, ents, m, lossy, q.left, a);
      AnswerBounds(code, x, ents, m, lossy, q.right, a);
    } else if q.Not? {
      AnswerBounds(code, x, ents, m, lossy, q.inner, a);
    } else {
      LeafBounds(code, x, ents, m, lossy, q, a);
    }
  }

  lemma LeafBounds(code: Codes, x: IdMap, ents: map<Address, Entity>, m: Model, lossy: set<Key>, q: Query, a: Address)
    requires Consistent(code, x, ents, m, lossy) && KeysOk(q) && a in ents && !q.And? && !q.Or? && !q.Not?
    requires x.idOf(a) in AllIds(code)
    ensures Bound(ents[a], q, lossy, false) ==> x.idOf(a) in Denote(code, q)
    ensures x.idOf(a) in Denote(code, q) ==> Bound(ents[a], q, lossy, true)
  {
    if TreeKeys(q) !! lossy {
      LeafExact(code, x, ents, m, lossy, q, a);
    } else if Scanning(q) {
      if x.idOf(a) in Denote(code, q) { ScanCarries(code, x, ents, m, lossy, q.key, Wants(q), a); }
    } else {
      assert q.NotGlob?;
      if x.idOf(a) !in Denote(code, q) { ScanCarries(code, x, ents, m, lossy, q.key, Wants(Glob(q.key, q.value)), a); }
    }
  }
}
