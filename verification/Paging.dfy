/** Pages of answers, newest entity first. */
module Paging {
  import opened Options
  import opened Bytes
  import opened Accounts
  import opened Indexes
  import opened EntityDb
  import opened Query
  import opened Interpreter

  /** `resolve_id`: the slot, then the record; a cleared slot or an account
      without code resolves to nothing. */
  function Resolve(code: Codes, st: Storage, id: nat): Option<Entity> {
    var raw := AddrWord(st, id);
    if raw == ZeroWord() then None else EntityIn(code, StorageToAddress(raw))
  }

  datatype Page = Page(entries: seq<Entity>, next: Option<nat>)

  predicate Descending(ids: seq<nat>) { forall i, j :: 0 <= i < j < |ids| ==> ids[i] > ids[j] }

  // ── Ids in order ─────────────────────────────────────────────────────

  ghost predicate IsMax(s: set<nat>, x: nat) { x in s && forall y :: y in s ==> y <= x }

  lemma {:induction false} MaxExists(s: set<nat>)
    requires s != {}
    ensures exists x :: IsMax(s, x)
  {
    var y :| y in s;
    if s == {y} {
      assert IsMax(s, y);
    } else {
      MaxExists(s - {y});
      var z :| IsMax(s - {y}, z);
      assert s == s - {y} + {y};
      assert IsMax(s, if z < y then y else z);
    }
  }

  /** The members of `s`, largest first. */
  ghost function Down(s: set<nat>): (r: seq<nat>)
    ensures Descending(r) && forall x: nat :: x in r <==> x in s
    decreases |s|
  {
    if s == {} then []
    else
      MaxExists(s);
      var x :| IsMax(s, x);
      var r := Down(s - {x});
      assert forall i :: 0 <= i < |r| ==> r[i] in r;
      [x] + r
  }

  lemma {:induction false} DescendingUnique(a: seq<nat>, b: seq<nat>)
    requires Descending(a) && Descending(b) && forall x: nat :: x in a <==> x in b
    ensures a == b
  {
    assert a != [] ==> a[0] in b;
    assert b != [] ==> b[0] in a;
    if a != [] {
      SameHead(a, b);
      forall x: nat ensures x in a[1..] <==> x in b[1..] {
        InTail(a, x);
        InTail(b, x);
      }
      DescendingUnique(a[1..], b[1..]);
      assert a == [a[0]] + a[1..] && b == [b[0]] + b[1..];
    }
  }

  lemma SameHead(a: seq<nat>, b: seq<nat>)
    requires Descending(a) && Descending(b) && a != [] && b != [] && a[0] in b && b[0] in a
    ensures a[0] == b[0]
  {
    var i :| 0 <= i < |b| && b[i] == a[0];
    var j :| 0 <= j < |a| && a[j] == b[0];
  }

  lemma InTail(a: seq<nat>, x: nat)
    requires Descending(a) && a != []
    ensures x in a[1..] <==> x in a && x != a[0]
  {
    assert a == [a[0]] + a[1..];
  }

  // ── One page ─────────────────────────────────────────────────────────

  /** The records of the ids that resolve, in the order of the ids. */
  function Resolved(code: Codes, st: Storage, ids: seq<nat>): seq<Entity> {
    if ids == [] then []
    else
      Resolved(code, st, ids[..|ids| - 1]) +
      match Resolve(code, st, ids[|ids| - 1]) case Some(e) => [e] case None => []
  }

  /** Ids below the cursor. */
  function Before(s: set<nat>, cursor: Option<nat>): set<nat> {
    set id | id in s && (cursor.Some? ==> id < cursor.value)
  }

  /** `page` takes the first `n` of the ids `d`: either all of them, or up to an
      id that resolves, filled the page, and is the next cursor. */
  ghost predicate Takes(code: Codes, st: Storage, d: seq<nat>, size: nat, page: Page, n: nat) {
    && n <= |d| && page.entries == Resolved(code, st, d[..n]) && |page.entries| <= size
    && match page.next
       case None => n == |d| && (n > 0 && |page.entries| == size ==> Resolve(code, st, d[n - 1]).Some?)
       case Some(c) => 0 < n < |d| && c == d[n - 1] && Resolve(code, st, c).Some? && |page.entries| == size
  }

  ghost predicate PageIs(code: Codes, st: Storage, hits: set<nat>, size: nat, cursor: Option<nat>, page: Page) {
    exists n: nat :: Takes(code, st, Down(Before(hits, cursor)), size, page, n)
  }

  function Reverse(s: seq<nat>): (r: seq<nat>)
    ensures |r| == |s|
  {
    seq(|s|, i requires 0 <= i < |s| => s[|s| - 1 - i])
  }

  /** The members of `s`, smallest first. */
  ghost predicate IsAscending(ids: seq<nat>, s: set<nat>) {
    && (forall i, j :: 0 <= i < j < |ids| ==> ids[i] < ids[j])
    && (forall x: nat :: x in ids <==> x in s)
  }

  lemma DownReverse(ids: seq<nat>, s: set<nat>)
    requires IsAscending(ids, s)
    ensures Reverse(ids) == Down(s)
  {
    var r := Reverse(ids);
    forall x: nat ensures x in r <==> x in ids {
      if x in ids {
        var i :| 0 <= i < |ids| && ids[i] == x;
        assert r[|ids| - 1 - i] == x;
      }
    }
    DescendingUnique(r, Down(s));
  }

  /** The members of a bitmap, ascending. */
  method Ascending(s: set<nat>) returns (ids: seq<nat>)
    ensures IsAscending(ids, s)
  {
    ids := [];
    var rest := s;
    while rest != {}
      invariant rest <= s
      invariant forall x: nat :: x in s <==> x in ids || x in rest
      invariant forall i, x: nat :: 0 <= i < |ids| && x in rest ==> x < ids[i]
      invariant forall i, j :: 0 <= i < j < |ids| ==> ids[i] < ids[j]
      decreases |rest|
    {
      MaxExists(rest);
      var x: nat :| x in rest && forall y: nat :: y in rest ==> y <= x;
      ids := [x] + ids;
      rest := rest - {x};
    }
  }

  /** Popping the ids at or above the cursor off the tail. */
  lemma Popped(ids: seq<nat>, s: set<nat>, c: nat, n: nat)
    requires IsAscending(ids, s) && n <= |ids|
    requires forall i :: n <= i < |ids| ==> ids[i] >= c
    requires n > 0 ==> ids[n - 1] < c
    ensures IsAscending(ids[..n], Before(s, Some(c)))
  {
    forall x: nat ensures x in ids[..n] <==> x in Before(s, Some(c)) {
      assert ids == ids[..n] + ids[n..];
      if x in ids[..n] {
        var i :| 0 <= i < n && ids[i] == x;
        assert ids[i] in ids;
      }
    }
  }

  /** Evaluate, cut at the cursor, and resolve up to `size` entities, newest
      first. */
  method Execute(db: StateDb, q: Query, size: nat, cursor: Option<nat>) returns (ok: bool, page: Page)
    ensures size == 0 ==> !ok
    ensures size > 0 && (forall k :: k in TreeKeys(q) ==> TreeAt(db.code, k).Some?) ==> ok
    ensures ok ==> PageIs(db.code, db.storage, Denote(db.code, q), size, cursor, page)
  {
    page := Page([], None);
    if size == 0 { return false, page; }
    var bitmap;
    ok, bitmap := Eval(db.code, q);
    if !ok { return; }
    var ids := Ascending(bitmap);
    if cursor.Some? {
      ghost var all := ids;
      while ids != [] && ids[|ids| - 1] >= cursor.value
        invariant |ids| <= |all| && ids == all[..|ids|]
        invariant forall i :: |ids| <= i < |all| ==> all[i] >= cursor.value
      {
        ids := ids[..|ids| - 1];
      }
      Popped(all, bitmap, cursor.value, |ids|);
    } else {
      assert Before(bitmap, None) == bitmap;
    }
    DownReverse(ids, Before(bitmap, cursor));
    page := Fill(db.code, db.storage, ids, size);
    assert Takes(db.code, db.storage, Reverse(ids), size, page, Taken(db.code, db.storage, Reverse(ids), size, page));
  }

  ghost function Taken(code: Codes, st: Storage, d: seq<nat>, size: nat, page: Page): nat
    requires exists n: nat :: Takes(code, st, d, size, page, n)
  {
    var n: nat :| Takes(code, st, d, size, page, n);
    n
  }

  /** Walk the ascending list from its end until the page is full. */
  method Fill(code: Codes, st: Storage, ids: seq<nat>, size: nat) returns (page: Page)
    requires size > 0
    ensures exists n: nat :: Takes(code, st, Reverse(ids), size, page, n)
  {
    var entries, last, more := [], None, false;
    ghost var d := Reverse(ids);
    var i := |ids|;
    assert d[..0] == [];
    while i > 0
      invariant 0 <= i <= |ids| && !more
      invariant entries == Resolved(code, st, d[..|ids| - i]) && |entries| <= size
      invariant last.Some? ==> Resolve(code, st, last.value).Some?
      invariant |entries| == size ==> i < |ids| && last == Some(d[|ids| - i - 1])
      decreases i
    {
      if |entries| >= size {
        more := true;
        break;
      }
      var id := ids[i - 1];
      assert d[..|ids| - i + 1][..|ids| - i] == d[..|ids| - i] && d[|ids| - i] == id;
      var found := Resolve(code, st, id);
      if found.Some? {
        entries := entries + [found.value];
        last := Some(id);
      }
      i := i - 1;
    }
    page := Page(entries, if more then last else None);
    assert Takes(code, st, d, size, page, |ids| - i);
  }

  // ── Walking the pages ────────────────────────────────────────────────

  /** Page after page on a fixed state: each starts at the previous cursor, and
      the last one has none. */
  ghost predicate Walk(code: Codes, st: Storage, hits: set<nat>, size: nat, cursor: Option<nat>, pages: seq<Page>)
    decreases |pages|
  {
    && pages != [] && PageIs(code, st, hits, size, cursor, pages[0])
    && (if pages[0].next.None? then |pages| == 1
        else |pages| > 1 && Walk(code, st, hits, size, pages[0].next, pages[1..]))
  }

  function Entries(pages: seq<Page>): seq<Entity> {
    if pages == [] then [] else pages[0].entries + Entries(pages[1..])
  }

  lemma {:induction false} ResolvedCat(code: Codes, st: Storage, a: seq<nat>, b: seq<nat>)
    ensures Resolved(code, st, a + b) == Resolved(code, st, a) + Resolved(code, st, b)
  {
    if b == [] {
      assert a + b == a;
    } else {
      ResolvedCat(code, st, a, b[..|b| - 1]);
      assert (a + b)[..|a + b| - 1] == a + b[..|b| - 1];
    }
  }

  /** The ids below the last one taken are the ones not taken yet. */
  lemma RestOfIds(hits: set<nat>, cursor: Option<nat>, n: nat)
    requires 0 < n <= |Down(Before(hits, cursor))|
    ensures var d := Down(Before(hits, cursor)); Down(Before(hits, Some(d[n - 1]))) == d[n..]
  {
    hide Down;
    var d := Down(Before(hits, cursor));
    var c := d[n - 1];
    forall x: nat ensures x in d[n..] <==> x in Before(hits, Some(c)) {
      if x in d[n..] {
        var i :| n <= i < |d| && d[i] == x;
        assert d[i] in d && d[i] < c;
      }
      if x in Before(hits, Some(c)) {
        assert c in d;
        assert x in d;
        var i :| 0 <= i < |d| && d[i] == x;
        assert i >= n;
        assert d[n..][i - n] == x;
      }
    }
    DescendingUnique(Down(Before(hits, Some(c))), d[n..]);
  }

  /** What one page takes, and what it leaves to the next. */
  lemma FirstPage(code: Codes, st: Storage, hits: set<nat>, size: nat, cursor: Option<nat>, page: Page) returns (n: nat)
    requires size > 0 && PageIs(code, st, hits, size, cursor, page)
    ensures var d := Down(Before(hits, cursor));
      && n <= |d|
      && (if page.next.None? then page.entries == Resolved(code, st, d)
          else
            var rest := Down(Before(hits, page.next));
            && |page.entries| == size && |rest| < |d|
            && Resolved(code, st, d) == page.entries + Resolved(code, st, rest))
  {
    hide *;
    var d := Down(Before(hits, cursor));
    n := PageTakes(code, st, hits, size, cursor, page);
    TakesLength(code, st, d, size, page, n);
    if page.next.None? {
      TakesAll(code, st, d, size, page, n);
    } else {
      TakesSome(code, st, d, size, page, n);
      RestOfIds(hits, cursor, n);
    }
  }

  lemma PageTakes(code: Codes, st: Storage, hits: set<nat>, size: nat, cursor: Option<nat>, page: Page) returns (n: nat)
    requires PageIs(code, st, hits, size, cursor, page)
    ensures Takes(code, st, Down(Before(hits, cursor)), size, page, n)
  {
    hide Takes, Down;
    n :| Takes(code, st, Down(Before(hits, cursor)), size, page, n);
  }

  lemma TakesLength(code: Codes, st: Storage, d: seq<nat>, size: nat, page: Page, n: nat)
    requires Takes(code, st, d, size, page, n)
    ensures n <= |d|
  {
    hide Resolve, Resolved;
  }

  lemma TakesAll(code: Codes, st: Storage, d: seq<nat>, size: nat, page: Page, n: nat)
    requires Takes(code, st, d, size, page, n) && page.next.None?
    ensures page.entries == Resolved(code, st, d)
  {
    hide Resolve, Resolved;
    assert d[..|d|] == d;
  }

  /** A page that is not the last leaves the ids after its cursor. */
  lemma TakesSome(code: Codes, st: Storage, d: seq<nat>, size: nat, page: Page, n: nat)
    requires Takes(code, st, d, size, page, n) && page.next.Some?
    ensures 0 < n < |d| && page.next == Some(d[n - 1]) && |page.entries| == size
    ensures Resolved(code, st, d) == page.entries + Resolved(code, st, d[n..])
  {
    hide Resolve, Resolved;
    ResolvedCat(code, st, d[..n], d[n..]);
    assert d[..n] + d[n..] == d;
  }

  /** Following the cursors yields every resolvable match once, newest first,
      whatever the page size; and every page but the last is full. */
  lemma {:induction false} WalkComplete(code: Codes, st: Storage, hits: set<nat>, size: nat, cursor: Option<nat>, pages: seq<Page>)
    requires size > 0 && Walk(code, st, hits, size, cursor, pages)
    ensures Entries(pages) == Resolved(code, st, Down(Before(hits, cursor)))
    ensures forall i :: 0 <= i < |pages| - 1 ==> |pages[i].entries| == size
    ensures |pages| <= |Down(Before(hits, cursor))| + 1
    decreases |pages|
  {
    WalkParts(code, st, hits, size, cursor, pages);
    EntriesParts(pages);
    hide *;
    var n := FirstPage(code, st, hits, size, cursor, pages[0]);
    if pages[0].next.Some? {
      WalkComplete(code, st, hits, size, pages[0].next, pages[1..]);
      forall i | 0 <= i < |pages| - 1 ensures |pages[i].entries| == size {
        if i > 0 { assert pages[i] == pages[1..][i - 1]; }
      }
    }
  }

  lemma WalkParts(code: Codes, st: Storage, hits: set<nat>, size: nat, cursor: Option<nat>, pages: seq<Page>)
    requires Walk(code, st, hits, size, cursor, pages)
    ensures pages != [] && PageIs(code, st, hits, size, cursor, pages[0]) && (pages[0].next.None? ==> |pages| == 1)
    ensures pages[0].next.Some? ==> |pages| > 1 && Walk(code, st, hits, size, pages[0].next, pages[1..])
  {
    hide PageIs;
  }

  lemma EntriesParts(pages: seq<Page>)
    requires pages != []
    ensures Entries(pages) == pages[0].entries + Entries(pages[1..]) && (|pages| == 1 ==> Entries(pages) == pages[0].entries)
  {}

  lemma {:induction false} PageExists(code: Codes, st: Storage, d: seq<nat>, size: nat) returns (page: Page, n: nat)
    requires size > 0
    ensures Takes(code, st, d, size, page, n)
  {
    if d == [] {
      page, n := Page([], None), 0;
    } else {
      var m := |d| - 1;
      page, n := PageExists(code, st, d[..m], size);
      assert d[..m][..n] == d[..n];
      if page.next.None? {
        if |page.entries| == size {
          page := page.(next := Some(d[n - 1]));
        } else {
          page := page.(entries := Resolved(code, st, d));
          n := |d|;
          assert d[..n] == d;
        }
      }
    }
  }

  /** A walk always exists, so following the cursors comes to an end. */
  lemma {:induction false} WalkExists(code: Codes, st: Storage, hits: set<nat>, size: nat, cursor: Option<nat>) returns (pages: seq<Page>)
    requires size > 0
    ensures Walk(code, st, hits, size, cursor, pages)
    decreases |Down(Before(hits, cursor))|
  {
    var d := Down(Before(hits, cursor));
    var page, n := PageExists(code, st, d, size);
    if page.next.None? {
      pages := [page];
    } else {
      RestOfIds(hits, cursor, n);
      var rest := WalkExists(code, st, hits, size, page.next);
      pages := [page] + rest;
      assert pages[1..] == rest;
    }
  }

  // ── What the pages say about the entities ────────────────────────────

  /** An id resolves exactly if it is in the `$all` bitmap, and then to the
      record of the live entity that owns it. */
  lemma ResolveExact(code: Codes, st: Storage, ents: map<Address, Entity>, m: Model, lossy: set<Key>, id: nat)
    requires Consistent(code, Ids(st), ents, m, lossy) && id < U64
    ensures Resolve(code, st, id).Some? <==> id in AllIds(code)
    ensures forall a :: a in ents && IdOf(st, a) == id ==> Resolve(code, st, id) == Some(ents[a])
  {
    hide *;
    var x := Ids(st);
    Parts(code, x, ents, m, lossy);
    AllMean(code, x, ents, m, lossy, id);
    WordRead(st, id);
    if a :| a in ents && x.idOf(a) == id {
      OwnWord(ents.Keys, x, a);
      AddressRoundTrip(a);
      FoundIs(code, ents, a);
      ResolveAt(code, st, id, a);
      forall b | b in ents && IdOf(st, b) == id ensures Resolve(code, st, id) == Some(ents[b]) {
        IdsRead(st, b);
        IdsInjective(ents.Keys, x, a, b);
      }
    } else {
      NoWord(ents.Keys, x, id);
      ResolveNone(code, st, id);
      forall b | b in ents && IdOf(st, b) == id ensures false { IdsRead(st, b); }
    }
  }

  lemma WordRead(st: Storage, id: nat)
    ensures Ids(st).word(id) == AddrWord(st, id)
  {}

  lemma OwnWord(live: set<Address>, x: IdMap, a: Address)
    requires IdsAgree(live, x) && a in live
    ensures x.word(x.idOf(a)) == AddressToStorage(a) && a != ZeroAddress() && x.idOf(a) < U64
  {
    assert HasId(x, a);
  }

  lemma NoWord(live: set<Address>, x: IdMap, id: nat)
    requires IdsAgree(live, x) && id < U64 && !exists a :: a in live && x.idOf(a) == id
    ensures x.word(id) == ZeroWord()
  {
    assert IdLive(live, x, id);
  }

  lemma ResolveAt(code: Codes, st: Storage, id: nat, a: Address)
    requires AddrWord(st, id) == AddressToStorage(a) && a != ZeroAddress()
    ensures Resolve(code, st, id) == EntityIn(code, a)
  {
    AddressRoundTrip(a);
  }

  lemma ResolveNone(code: Codes, st: Storage, id: nat)
    requires AddrWord(st, id) == ZeroWord()
    ensures Resolve(code, st, id) == None
  {}

  lemma {:induction false} AllResolve(code: Codes, st: Storage, ids: seq<nat>)
    requires forall i :: 0 <= i < |ids| ==> Resolve(code, st, ids[i]).Some?
    ensures var r := Resolved(code, st, ids);
      |r| == |ids| && forall i :: 0 <= i < |ids| ==> Some(r[i]) == Resolve(code, st, ids[i])
  {
    if ids != [] { AllResolve(code, st, ids[..|ids| - 1]); }
  }

  /** `e` is the record of a live entity with this id, and satisfies `q`. */
  ghost predicate IsHit(ents: map<Address, Entity>, st: Storage, q: Query, id: nat, e: Entity) {
    exists a :: a in ents && IdOf(st, a) == id && e == ents[a] && Satisfies(e, q)
  }

  lemma IsHitBy(ents: map<Address, Entity>, st: Storage, q: Query, a: Address)
    requires a in ents && Satisfies(ents[a], q)
    ensures IsHit(ents, st, q, IdOf(st, a), ents[a])
  {}

  /** The members of `s`, in the order of the list. */
  function Keep(ids: seq<nat>, s: set<nat>): (r: seq<nat>) {
    if ids == [] then []
    else Keep(ids[..|ids| - 1], s) + if ids[|ids| - 1] in s then [ids[|ids| - 1]] else []
  }

  lemma {:induction false} KeepSpec(ids: seq<nat>, s: set<nat>)
    requires Descending(ids)
    ensures Descending(Keep(ids, s)) && forall x: nat :: x in Keep(ids, s) <==> x in ids && x in s
  {
    if ids != [] {
      var pre, last := ids[..|ids| - 1], ids[|ids| - 1];
      KeepSpec(pre, s);
      assert ids == pre + [last];
      var r := Keep(pre, s);
      forall i | 0 <= i < |r| ensures r[i] > last {
        assert r[i] in r;
        assert r[i] in pre;
      }
    }
  }

  lemma KeepDown(u: set<nat>, s: set<nat>)
    ensures Keep(Down(u), s) == Down(u * s)
  {
    KeepSpec(Down(u), s);
    hide Keep;
    DescendingUnique(Keep(Down(u), s), Down(u * s));
  }

  /** Only the ids that resolve show. */
  lemma {:induction false} ResolvedKeep(code: Codes, st: Storage, ids: seq<nat>, s: set<nat>)
    requires forall i :: 0 <= i < |ids| ==> (Resolve(code, st, ids[i]).Some? <==> ids[i] in s)
    ensures Resolved(code, st, ids) == Resolved(code, st, Keep(ids, s))
  {
    hide Resolve;
    if ids != [] {
      var pre, last := ids[..|ids| - 1], ids[|ids| - 1];
      ResolvedKeep(code, st, pre, s);
      if last in s { assert (Keep(pre, s) + [last])[..|Keep(pre, s)|] == Keep(pre, s); } else { assert Keep(pre, s) + [] == Keep(pre, s); }
      assert Resolve(code, st, last).Some? <==> last in s;
    }
  }

  lemma IdSmall(code: Codes, x: IdMap, ents: map<Address, Entity>, m: Model, lossy: set<Key>, q: Query, id: nat)
    requires Consistent(code, x, ents, m, lossy) && KeysOk(q) && id in Denote(code, q)
    ensures id < U64
  {
    DenotedIds(code, x, ents, m, lossy, q, id);
    AllMean(code, x, ents, m, lossy, id);
    hide Denote, AllIds;
    if a :| a in ents && x.idOf(a) == id { assert HasId(x, a); }
  }

  /** The ids an answer shows: the live ones. */
  ghost function Hits(code: Codes, q: Query): set<nat> { Denote(code, q) * AllIds(code) }

  lemma ShownIds(code: Codes, st: Storage, ents: map<Address, Entity>, m: Model, lossy: set<Key>, q: Query)
    requires Trusted(code, Ids(st), ents, m, lossy, q)
    ensures Resolved(code, st, Down(Denote(code, q))) == Resolved(code, st, Down(Hits(code, q)))
  {
    HitsAre(code, q);
    hide *;
    var x, d := Ids(st), Down(Denote(code, q));
    TrustedParts(code, x, ents, m, lossy, q);
    forall i | 0 <= i < |d| ensures Resolve(code, st, d[i]).Some? <==> d[i] in AllIds(code) {
      assert d[i] in d;
      IdSmall(code, x, ents, m, lossy, q, d[i]);
      ResolveExact(code, st, ents, m, lossy, d[i]);
    }
    ResolvedKeep(code, st, d, AllIds(code));
    KeepDown(Denote(code, q), AllIds(code));
  }

  lemma HitsAre(code: Codes, q: Query)
    ensures Hits(code, q) == Denote(code, q) * AllIds(code)
  {}

  /** Followed to the end, the pages of a query list exactly the records of the
      live entities that satisfy it, each once, newest first. */
  lemma PagedAnswer(code: Codes, st: Storage, ents: map<Address, Entity>, m: Model, lossy: set<Key>, q: Query, size: nat, pages: seq<Page>)
    requires size > 0 && Trusted(code, Ids(st), ents, m, lossy, q) && Walk(code, st, Denote(code, q), size, None, pages)
    ensures var d, r := Down(Hits(code, q)), Entries(pages);
      && |r| == |d|
      && (forall i :: 0 <= i < |d| ==> IsHit(ents, st, q, d[i], r[i]))
      && (forall a :: a in ents && Satisfies(ents[a], q) ==> IdOf(st, a) in d)
  {
    HitsAre(code, q);
    hide *;
    var x, d := Ids(st), Down(Hits(code, q));
    TrustedParts(code, x, ents, m, lossy, q);
    Parts(code, x, ents, m, lossy);
    WalkComplete(code, st, Denote(code, q), size, None, pages);
    NoCursor(Denote(code, q));
    ShownIds(code, st, ents, m, lossy, q);
    forall i | 0 <= i < |d| ensures Resolve(code, st, d[i]).Some? {
      var a := Hit(code, st, ents, m, lossy, q, d[i]);
    }
    AllResolve(code, st, d);
    var r := Entries(pages);
    forall i | 0 <= i < |d| ensures IsHit(ents, st, q, d[i], r[i]) {
      var a := Hit(code, st, ents, m, lossy, q, d[i]);
      IsHitBy(ents, st, q, a);
      assert Some(r[i]) == Resolve(code, st, d[i]);
    }
    forall a | a in ents && Satisfies(ents[a], q) ensures IdOf(st, a) in d {
      IdsRead(st, a);
      MatchedBy(ents, x, q, a);
      AnswerExact(code, x, ents, m, lossy, q, x.idOf(a));
    }
  }

  /** The entity behind one id of an answer. */
  lemma Hit(code: Codes, st: Storage, ents: map<Address, Entity>, m: Model, lossy: set<Key>, q: Query, id: nat) returns (a: Address)
    requires Trusted(code, Ids(st), ents, m, lossy, q) && id in Down(Hits(code, q))
    ensures a in ents && IdOf(st, a) == id && Satisfies(ents[a], q) && Resolve(code, st, id) == Some(ents[a])
  {
    HitsAre(code, q);
    hide *;
    var x := Ids(st);
    TrustedParts(code, x, ents, m, lossy, q);
    Parts(code, x, ents, m, lossy);
    AnswerExact(code, x, ents, m, lossy, q, id);
    a := Matched(ents, x, q, id);
    IdsRead(st, a);
    OwnWord(ents.Keys, x, a);
    ResolveExact(code, st, ents, m, lossy, id);
  }

  lemma NoCursor(s: set<nat>)
    ensures Before(s, None) == s
  {}

  lemma Matched(ents: map<Address, Entity>, x: IdMap, q: Query, id: nat) returns (a: Address)
    requires Matches(ents, x, q, id)
    ensures a in ents && x.idOf(a) == id && Satisfies(ents[a], q)
  {
    a :| a in ents && x.idOf(a) == id && Satisfies(ents[a], q);
  }

  lemma MatchedBy(ents: map<Address, Entity>, x: IdMap, q: Query, a: Address)
    requires a in ents && Satisfies(ents[a], q)
    ensures Matches(ents, x, q, x.idOf(a))
  {}
}
