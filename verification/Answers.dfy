/** From batches to answers: what a query text returns on the database that a
    run of batches has left. */
module Answers {
  import opened Options
  import opened Bytes
  import opened Accounts
  import opened Indexes
  import opened EntityDb
  import opened IndexRuns
  import opened Operations
  import opened Payment
  import opened Lifecycle
  import opened ChainDb
  import opened Query
  import opened Interpreter
  import opened Paging
  import Lexer
  import Parser
  import Printer
  import opened Spelling
  import Conditions
  import Search

  /** The database after a run of batches from the empty registry. */
  ghost function Reached(w: World, b: Balances, calls: seq<Call>): View {
    var steps := Committed(EmptyChain(b), w, calls);
    if Follow(EmptyChain(b), w, steps).Ok? then Visit(EMPTY_VIEW, PathOps(EmptyChain(b), w, steps)) else EMPTY_VIEW
  }

  /** At no point of the run do the live entities have more than sixteen ordered
      values under `k`. */
  ghost predicate FewValues(w: World, b: Balances, calls: seq<Call>, k: Key) {
    var steps := Committed(EmptyChain(b), w, calls);
    Follow(EmptyChain(b), w, steps).Ok? ==> FewAlong(EmptyChain(b), w, steps, k)
  }

  /** The run keeps what the indexes count on: no key is minted twice, and each
      name and value is in use under one flag at a time. */
  ghost predicate Regular(w: World, b: Balances, calls: seq<Call>) {
    var steps := Committed(EmptyChain(b), w, calls);
    && Sensible(w) && |steps| < U64 && SupportedPath(EmptyChain(b), w, steps)
    && (Follow(EmptyChain(b), w, steps).Ok? ==> FlagsAlong(EmptyChain(b), w, steps))
  }

  lemma {:induction false} KeysFree(q: Query, k: Key)
    requires KeysOk(q) && k in TreeKeys(q)
    ensures ZeroFree(k)
    decreases q
  {
    DollarKeys();
    if q.And? || q.Or? {
      if k in TreeKeys(q.left) { KeysFree(q.left, k); } else { KeysFree(q.right, k); }
    } else if q.Not? {
      KeysFree(q.inner, k);
    }
  }

  /** After any regular run the database shows the state of the registry. */
  lemma ReachedShows(w: World, b: Balances, calls: seq<Call>)
    requires Regular(w, b, calls)
    ensures var v := Reached(w, b, calls);
      Sane(v) && Shows(v, Run(EmptyChain(b), w, calls)) && v.ents == Run(EmptyChain(b), w, calls).ents
  {
    hide *;
    var c, steps := EmptyChain(b), Committed(EmptyChain(b), w, calls);
    RegularParts(w, b, calls);
    RunIsPath(c, w, calls);
    EmptyShows(b);
    TrueOnRun(w, b, calls);
    PathRefines(EMPTY_VIEW, c, w, steps);
    ReachedIs(w, b, calls);
  }

  lemma RegularParts(w: World, b: Balances, calls: seq<Call>)
    requires Regular(w, b, calls)
    ensures var steps := Committed(EmptyChain(b), w, calls);
      && Sensible(w) && |steps| < U64 && SupportedPath(EmptyChain(b), w, steps)
      && (Follow(EmptyChain(b), w, steps).Ok? ==> FlagsAlong(EmptyChain(b), w, steps))
  {}

  lemma ReachedIs(w: World, b: Balances, calls: seq<Call>)
    requires Follow(EmptyChain(b), w, Committed(EmptyChain(b), w, calls)).Ok?
    ensures Reached(w, b, calls) == Visit(EMPTY_VIEW, PathOps(EmptyChain(b), w, Committed(EmptyChain(b), w, calls)))
  {}

  /** And the trees of keys with few values are not lossy. */
  lemma FewTrusted(w: World, b: Balances, calls: seq<Call>, q: Query)
    requires Regular(w, b, calls) && KeysOk(q) && forall k :: k in TreeKeys(q) ==> FewValues(w, b, calls, k)
    ensures TreeKeys(q) !! Reached(w, b, calls).d.lossy
  {
    forall k | k in TreeKeys(q) ensures k !in Reached(w, b, calls).d.lossy {
      KeysFree(q, k);
      hide Reached, Follow, FewAlong, Sane, Visit, Committed;
      FewOnRun(w, b, calls, k);
      ReachedIs(w, b, calls);
    }
  }

  /** After any regular run of batches, a text whose ranges and prefixes are over
      keys with few values is answered exactly: the pages list the live entities
      of the registry that satisfy it, each once, newest first. */
  lemma RunAnswered(w: World, b: Balances, calls: seq<Call>, u: Lexer.Unicode, text: string, size: nat, pages: seq<Page>)
    requires Regular(w, b, calls) && Lexer.Sane(u) && Search.QueryOf(u, text).Some? && size > 0
    requires forall k :: k in TreeKeys(Search.QueryOf(u, text).value) ==> FewValues(w, b, calls, k)
    requires var d := Reached(w, b, calls).d; Walk(d.code, d.storage, Denote(d.code, Search.QueryOf(u, text).value), size, None, pages)
    ensures var q, d, ents := Search.QueryOf(u, text).value, Reached(w, b, calls).d, Run(EmptyChain(b), w, calls).ents;
      var ids, r := Down(Hits(d.code, q)), Entries(pages);
      && |r| == |ids|
      && (forall i :: 0 <= i < |ids| ==> IsHit(ents, d.storage, q, ids[i], r[i]))
      && (forall a :: a in ents && Satisfies(ents[a], q) ==> IdOf(d.storage, a) in ids)
  {
    hide *;
    var v, q := Reached(w, b, calls), Search.QueryOf(u, text).value;
    Search.ParsedKeysOk(u, text);
    ReachedShows(w, b, calls);
    FewTrusted(w, b, calls, q);
    SaneIs(v);
    Search.SearchExact(u, text, v.d.code, v.d.storage, v.ents, v.m, v.d.lossy, size, pages);
  }

  lemma SaneIs(v: View)
    requires Sane(v)
    ensures Consistent(v.d.code, Ids(v.d.storage), v.ents, v.m, v.d.lossy)
  {}

  // ── Texts as they are written ────────────────────────────────────────

  /** Which texts are accepted, and as which query: any spelling of tokens that
      read as a whole-set selector, or as an expression whose parts fit. */
  lemma TextExact(u: Lexer.Unicode, text: string, q: Query)
    requires Lexer.Sane(u)
    ensures Search.QueryOf(u, text) == Some(q) <==> exists ts :: Writes(u, text, ts) && Conditions.ReadsAs(ts, q)
  {
    hide *;
    QueryIs(u, text);
    if Search.QueryOf(u, text) == Some(q) {
      var ts := Lexer.Tokens(u, text).value;
      TokensExact(u, text, ts);
      Conditions.ReadExact(ts, q);
    }
    if ts :| Writes(u, text, ts) && Conditions.ReadsAs(ts, q) {
      TokensExact(u, text, ts);
      Conditions.ReadExact(ts, q);
    }
  }

  lemma QueryIs(u: Lexer.Unicode, text: string)
    requires Lexer.Sane(u)
    ensures Search.QueryOf(u, text) ==
      if Lexer.Tokens(u, text).None? then None else Parser.ParseTopLevel(Lexer.Tokens(u, text).value)
  {
    hide Lexer.Tokens, Parser.ParseTopLevel;
  }

  /** Every number among the tokens is below 2^64. */
  predicate SmallNumbers(ts: seq<Lexer.Token>) { forall i :: 0 <= i < |ts| && ts[i].Number? ==> ts[i].n < U64 }

  lemma {:induction false} WrittenSmall(u: Lexer.Unicode, text: string, ts: seq<Lexer.Token>)
    requires Writes(u, text, ts)
    ensures SmallNumbers(ts)
    decreases |ts|
  {
    hide *;
    if ts != [] {
      var i, j := WrittenParts(u, text, ts);
      WrittenSmall(u, text[j..], ts[1..]);
      FirstSmall(u, text, ts[0], i, j);
    }
    SmallMore(ts);
  }

  lemma FirstSmall(u: Lexer.Unicode, text: string, t: Lexer.Token, i: nat, j: nat)
    requires WritesFirst(u, text, t, i, j)
    ensures t.Number? ==> t.n < U64
  {
    if t.Number? { NumberSpells(u, text[i..j], t.n); }
    hide Spells, Ends;
  }

  lemma SmallMore(ts: seq<Lexer.Token>)
    ensures SmallNumbers(ts) <==> ts == [] || ((ts[0].Number? ==> ts[0].n < U64) && SmallNumbers(ts[1..]))
  {
    if ts != [] && SmallNumbers(ts[1..]) {
      assert forall i :: 0 < i < |ts| ==> ts[i] == ts[1..][i - 1];
    }
  }

  predicate SmallExpr(x: Printer.Expr) {
    match x
    case Leaf(_, _, lit) => lit.Number? ==> lit.n < U64
    case Member(_, _, lits) => forall i :: 0 <= i < |lits| && lits[i].Number? ==> lits[i].n < U64
    case Both(l, r) => SmallExpr(l) && SmallExpr(r)
    case Either(l, r) => SmallExpr(l) && SmallExpr(r)
    case Negation(i) => SmallExpr(i)
  }

  lemma {:induction false} SmallTerm(ts: seq<Lexer.Token>, x: Printer.Expr)
    requires SmallNumbers(ts) && Conditions.ReadsTerm(ts, x)
    ensures SmallExpr(x)
    decreases |ts|, 0
  {
    hide Conditions.ReadsOr;
    var n := |ts|;
    if n >= 2 && ts[0] == Lexer.LParen && ts[n - 1] == Lexer.RParen && Conditions.ReadsOr(ts[1..n - 1], x) {
      SmallOr(ts[1..n - 1], x);
    } else if n >= 3 && ts[0] == Lexer.NotTok && ts[1] == Lexer.LParen && ts[n - 1] == Lexer.RParen && x.Negation?
              && Conditions.ReadsOr(ts[2..n - 1], x.inner) {
      SmallOr(ts[2..n - 1], x.inner);
    } else {
      hide SmallExpr, SmallNumbers;
      SmallLeaf(ts, x);
    }
  }

  lemma SmallLeaf(ts: seq<Lexer.Token>, x: Printer.Expr)
    requires SmallNumbers(ts) && Conditions.ReadsLeaf(ts, x)
    ensures SmallExpr(x)
  {
    if x.Leaf? {
      assert ts[2] == x.lit;
    } else {
      var k := if x.negated then 4 else 3;
      assert forall i :: 0 <= i < |x.lits| ==> x.lits[i] == ts[i + k];
    }
  }

  lemma {:induction false} SmallAnd(ts: seq<Lexer.Token>, x: Printer.Expr)
    requires SmallNumbers(ts) && Conditions.ReadsAnd(ts, x)
    ensures SmallExpr(x)
    decreases |ts|, 1
  {
    hide Conditions.ReadsTerm;
    if Conditions.ReadsTerm(ts, x) {
      SmallTerm(ts, x);
    } else {
      var i :| 0 <= i < |ts| && ts[i] == Lexer.AndTok && Conditions.ReadsAnd(ts[..i], x.left) && Conditions.ReadsTerm(ts[i + 1..], x.right);
      SmallAnd(ts[..i], x.left);
      SmallTerm(ts[i + 1..], x.right);
    }
  }

  lemma {:induction false} SmallOr(ts: seq<Lexer.Token>, x: Printer.Expr)
    requires SmallNumbers(ts) && Conditions.ReadsOr(ts, x)
    ensures SmallExpr(x)
    decreases |ts|, 2
  {
    hide Conditions.ReadsAnd;
    if Conditions.ReadsAnd(ts, x) {
      SmallAnd(ts, x);
    } else {
      var i :| 0 <= i < |ts| && ts[i] == Lexer.OrTok && Conditions.ReadsOr(ts[..i], x.left) && Conditions.ReadsAnd(ts[i + 1..], x.right);
      SmallOr(ts[..i], x.left);
      SmallAnd(ts[i + 1..], x.right);
    }
  }

  lemma {:induction false} SizedFrom(e: Entity, x: Printer.Expr)
    requires SmallExpr(x) && e.expiresAt < U64 && e.createdAt < U64
    ensures Conditions.SizedAll(e, x)
  {
    if x.Both? || x.Either? {
      SizedFrom(e, x.left);
      SizedFrom(e, x.right);
    } else if x.Negation? {
      SizedFrom(e, x.inner);
    }
  }

  /** A text that is written as an expression whose parts fit asks of each entity
      what the expression says. */
  lemma WrittenMeans(u: Lexer.Unicode, text: string, ts: seq<Lexer.Token>, x: Printer.Expr, e: Entity)
    requires Lexer.Sane(u) && Writes(u, text, ts) && Conditions.ReadsOr(ts, x) && e.expiresAt < U64 && e.createdAt < U64
    ensures Conditions.Fits(x) ==> Search.QueryOf(u, text).Some? && (Satisfies(e, Search.QueryOf(u, text).value) <==> Conditions.Meets(e, x))
    ensures Conditions.Fits(x) ==> Search.QueryOf(u, text) == Printer.Meaning(x)
  {
    hide *;
    WrittenSmall(u, text, ts);
    SmallOr(ts, x);
    SizedFrom(e, x);
    Conditions.ExprExact(e, x);
    if Conditions.Fits(x) {
      var q := Printer.Meaning(x).value;
      Conditions.ReadsBy(ts, x, q);
      TextExact(u, text, q);
    }
  }

  ghost predicate SomeFits(ts: seq<Lexer.Token>) { exists x :: Conditions.ReadsOr(ts, x) && Conditions.Fits(x) }

  /** A text is accepted if and only if it is written as a whole-set selector or
      as an expression whose parts fit; any other is refused. */
  lemma TextAccepted(u: Lexer.Unicode, text: string)
    requires Lexer.Sane(u)
    ensures Search.QueryOf(u, text).Some? <==>
      exists ts :: Writes(u, text, ts) && (ts == [Lexer.Star] || ts == [Lexer.DollarAll] || SomeFits(ts))
  {
    hide Search.QueryOf, Writes, SomeFits, Conditions.ReadsAs;
    if Search.QueryOf(u, text).Some? {
      var q := Search.QueryOf(u, text).value;
      TextExact(u, text, q);
      var ts :| Writes(u, text, ts) && Conditions.ReadsAs(ts, q);
      FitsFrom(u, text, ts, q);
    }
    if ts :| Writes(u, text, ts) && (ts == [Lexer.Star] || ts == [Lexer.DollarAll] || SomeFits(ts)) {
      if SomeFits(ts) { FitsParse(u, text, ts); } else { TextExact(u, text, All); SelectorReads(ts); }
    }
  }

  lemma SelectorReads(ts: seq<Lexer.Token>)
    requires ts == [Lexer.Star] || ts == [Lexer.DollarAll]
    ensures Conditions.ReadsAs(ts, All)
  {}

  lemma FitsFrom(u: Lexer.Unicode, text: string, ts: seq<Lexer.Token>, q: Query)
    requires Writes(u, text, ts) && Conditions.ReadsAs(ts, q)
    ensures ts == [Lexer.Star] || ts == [Lexer.DollarAll] || SomeFits(ts)
  {
    hide Writes, Conditions.ReadsOr, Printer.Meaning, Conditions.Fits;
    if x :| Conditions.ReadsOr(ts, x) && Printer.Meaning(x) == Some(q) {
      WrittenFits(u, text, ts, x);
      assert Conditions.Fits(x);
    }
  }

  lemma FitsParse(u: Lexer.Unicode, text: string, ts: seq<Lexer.Token>)
    requires Lexer.Sane(u) && Writes(u, text, ts) && SomeFits(ts)
    ensures Search.QueryOf(u, text).Some?
  {
    hide Writes, Conditions.ReadsOr, Conditions.Fits, Search.QueryOf;
    var x :| Conditions.ReadsOr(ts, x) && Conditions.Fits(x);
    AnySize(u, text, ts, x);
  }

  lemma WrittenFits(u: Lexer.Unicode, text: string, ts: seq<Lexer.Token>, x: Printer.Expr)
    requires Writes(u, text, ts) && Conditions.ReadsOr(ts, x)
    ensures Printer.Meaning(x).Some? <==> Conditions.Fits(x)
  {
    var e := Entity([], Zeros(20), 0, Zeros(20), 0, [], Zeros(32), [], 0);
    hide *;
    WrittenSmall(u, text, ts);
    SmallOr(ts, x);
    SizedFrom(e, x);
    Conditions.ExprExact(e, x);
  }

  /** The entry is the record of a live entity with this id that meets `x`. */
  ghost predicate Listed(ents: map<Address, Entity>, st: Storage, x: Printer.Expr, id: nat, e: Entity) {
    exists a :: a in ents && IdOf(st, a) == id && ents[a] == e && Conditions.Meets(e, x)
  }

  /** From batches to text to pages, in fields and literals: after any regular
      run, the pages of a text list exactly the live entities of the registry
      that meet the written expression, each once, newest first. */
  lemma RunListed(w: World, b: Balances, calls: seq<Call>, u: Lexer.Unicode, text: string, ts: seq<Lexer.Token>, x: Printer.Expr,
                  size: nat, pages: seq<Page>)
    requires Regular(w, b, calls) && Lexer.Sane(u) && size > 0
    requires Writes(u, text, ts) && Conditions.ReadsOr(ts, x) && Conditions.Fits(x)
    requires Search.QueryOf(u, text).Some? ==> forall k :: k in TreeKeys(Search.QueryOf(u, text).value) ==> FewValues(w, b, calls, k)
    requires Search.QueryOf(u, text).Some? ==>
      var d := Reached(w, b, calls).d; Walk(d.code, d.storage, Denote(d.code, Search.QueryOf(u, text).value), size, None, pages)
    ensures Search.QueryOf(u, text).Some?
    ensures var d, ents := Reached(w, b, calls).d, Run(EmptyChain(b), w, calls).ents;
      var ids, r := Down(Hits(d.code, Search.QueryOf(u, text).value)), Entries(pages);
      && |r| == |ids|
      && (forall i :: 0 <= i < |ids| ==> Listed(ents, d.storage, x, ids[i], r[i]))
      && (forall a :: a in ents && Conditions.Meets(ents[a], x) ==> IdOf(d.storage, a) in ids)
  {
    hide *;
    var d, ents := Reached(w, b, calls).d, Run(EmptyChain(b), w, calls).ents;
    AnySize(u, text, ts, x);
    var q := Search.QueryOf(u, text).value;
    RunAnswered(w, b, calls, u, text, size, pages);
    ReachedShows(w, b, calls);
    SaneIs(Reached(w, b, calls));
    Parts(d.code, Ids(d.storage), ents, Reached(w, b, calls).m, d.lossy);
    forall a | a in ents ensures Satisfies(ents[a], q) <==> Conditions.Meets(ents[a], x) {
      BlocksFit(ents, a);
      WrittenMeans(u, text, ts, x, ents[a]);
    }
    var ids, r := Down(Hits(d.code, q)), Entries(pages);
    forall i | 0 <= i < |ids| ensures Listed(ents, d.storage, x, ids[i], r[i]) { HitListed(ents, d.storage, q, x, ids[i], r[i]); }
  }

  lemma AnySize(u: Lexer.Unicode, text: string, ts: seq<Lexer.Token>, x: Printer.Expr)
    requires Lexer.Sane(u) && Writes(u, text, ts) && Conditions.ReadsOr(ts, x) && Conditions.Fits(x)
    ensures Search.QueryOf(u, text).Some?
  {
    var e := Entity([], Zeros(20), 0, Zeros(20), 0, [], Zeros(32), [], 0);
    hide *;
    WrittenMeans(u, text, ts, x, e);
  }

  lemma BlocksFit(ents: map<Address, Entity>, a: Address)
    requires EntitiesOk(ents) && a in ents
    ensures ents[a].expiresAt < U64 && ents[a].createdAt < U64
  {}

  lemma HitListed(ents: map<Address, Entity>, st: Storage, q: Query, x: Printer.Expr, id: nat, e: Entity)
    requires IsHit(ents, st, q, id, e)
    requires forall a :: a in ents ==> (Satisfies(ents[a], q) <==> Conditions.Meets(ents[a], x))
    ensures Listed(ents, st, x, id, e)
  {
    hide Satisfies, Conditions.Meets, IdOf;
  }
}
