/** From query text to a page: lexer, parser, evaluator and pager together, and
    what a numeric comparison in the text asks of the numbers on record. */
module Search {
  import opened Options
  import opened Bytes
  import opened Accounts
  import opened Indexes
  import opened EntityDb
  import opened Operations
  import opened Query
  import opened Interpreter
  import opened Paging
  import opened Lexer
  import opened Parser
  import opened Grammar
  import Utf8
  import Attributes
  import Printer

  // ── Every parsed query has well-formed keys ──────────────────────────

  /** A name the lexer can produce: not empty, no `$` in front, no NUL. */
  predicate NameOk(s: string) {
    s != [] && s[0] != '$' && forall i :: 0 <= i < |s| ==> s[i] != '\0'
  }

  predicate NamesOk(ts: seq<Token>) { forall i :: 0 <= i < |ts| && ts[i].Ident? ==> NameOk(ts[i].name) }

  lemma ScanName(u: Unicode, s: string)
    requires Sane(u) && s != [] && IdentStart(u, s[0]) && NameToken(u, s).token.Ident?
    ensures NameOk(NameToken(u, s).token.name)
  {
    var n := IdentSpan(u, s);
    assert IdentContinue(u, s[0]) && n > 0;
    assert !u.letter('$') && '$' < 128 as char;
    forall i | 0 <= i < n ensures s[i] != '\0' {
      assert IdentContinue(u, s[i]);
      assert '\0' < 128 as char;
    }
  }

  lemma NextName(u: Unicode, s: string)
    requires Sane(u) && Next(u, s).Tok? && Next(u, s).token.Ident?
    ensures NameOk(Next(u, s).token.name)
  {
    hide StringBody, NameToken, NameOk, HexBytes, Decimal;
    var t := s[Span(s, u.space)..];
    ScanName(u, t);
  }

  lemma {:induction false} LexedNames(u: Unicode, s: string)
    requires Sane(u) && Tokens(u, s).Some?
    ensures NamesOk(Tokens(u, s).value)
    decreases |s|
  {
    hide Next, NameOk;
    Progress(u, s);
    if Next(u, s).Tok? {
      LexedNames(u, Next(u, s).rest);
      if Next(u, s).token.Ident? { NextName(u, s); }
    }
  }

  lemma KeyNamed(t: Token)
    requires t.Ident? ==> NameOk(t.name)
    ensures KeyOf(t).Some? ==> KeyOk(KeyOf(t).value)
  {
    if t.Ident? { Utf8.EncodeText(t.name); }
  }

  lemma LeftNamed(ts: seq<Token>, rest: seq<Token>)
    requires NamesOk(ts) && Left(ts, rest)
    ensures NamesOk(rest)
  {
    hide NameOk;
    forall i | 0 <= i < |rest| && rest[i].Ident? ensures NameOk(rest[i].name) {
      assert rest[i] == ts[|ts| - |rest| + i];
    }
  }

  lemma PredicateKey(ts: seq<Token>, q: Query)
    requires DerivesPredicate(ts, q) && NamesOk(ts)
    ensures KeysOk(q)
  {
    PredicateCases(ts, q);
    KeyNamed(ts[0]);
    hide KeyOf, KeyOk, NameOk, DerivesPredicate, IsList, ValueOf, GlobPrefix, GlobKey, Ranged;
    assert q.key == KeyOf(ts[0]).value;
  }

  lemma PredicateNamed(ts: seq<Token>)
    requires NamesOk(ts)
    ensures var p := ParsePredicate(ts); p.Got? ==> KeysOk(p.value) && NamesOk(p.rest)
  {
    hide *;
    var p := ParsePredicate(ts);
    if p.Got? {
      PredicateSound(ts);
      LeftNamed(ts, p.rest);
      TakenNamed(ts, p.rest);
      PredicateKey(Grammar.Taken(ts, p.rest), p.value);
    }
  }

  lemma TakenNamed(ts: seq<Token>, rest: seq<Token>)
    requires NamesOk(ts) && |rest| <= |ts|
    ensures NamesOk(Grammar.Taken(ts, rest))
  {
    hide NameOk;
  }

  /** What is left of a well-named list is well-named, and so is the query. */
  ghost predicate Named(p: Parsed<Query>) { p.Got? ==> KeysOk(p.value) && NamesOk(p.rest) }

  lemma {:induction false} TermNamed(ts: seq<Token>)
    requires NamesOk(ts)
    ensures Named(ParseTerm(ts))
    decreases |ts|, 0
  {
    hide ParseOr, ParsePredicate, NameOk;
    if ts != [] && ts[0] == NotTok && |ts| > 1 {
      OrNamed(ts[2..]);
      assert ts[1..][1..] == ts[2..];
    } else if ts != [] && ts[0] == LParen {
      OrNamed(ts[1..]);
    } else {
      PredicateNamed(ts);
    }
  }

  lemma {:induction false} AndNamed(ts: seq<Token>)
    requires NamesOk(ts)
    ensures Named(ParseAnd(ts))
    decreases |ts|, 1
  {
    hide ParseTerm, NameOk;
    TermNamed(ts);
    if ParseTerm(ts).Got? { AndRestNamed(ParseTerm(ts).value, ParseTerm(ts).rest); }
  }

  lemma {:induction false} AndRestNamed(q: Query, ts: seq<Token>)
    requires NamesOk(ts) && KeysOk(q)
    ensures Named(AndRest(q, ts))
    decreases |ts|, 2
  {
    hide ParseTerm, NameOk;
    if ts != [] && ts[0] == AndTok {
      TermNamed(ts[1..]);
      var p := ParseTerm(ts[1..]);
      if p.Got? { AndRestNamed(And(q, p.value), p.rest); }
    }
  }

  lemma {:induction false} OrNamed(ts: seq<Token>)
    requires NamesOk(ts)
    ensures Named(ParseOr(ts))
    decreases |ts|, 3
  {
    hide ParseAnd, NameOk;
    AndNamed(ts);
    if ParseAnd(ts).Got? { OrRestNamed(ParseAnd(ts).value, ParseAnd(ts).rest); }
  }

  lemma {:induction false} OrRestNamed(q: Query, ts: seq<Token>)
    requires NamesOk(ts) && KeysOk(q)
    ensures Named(OrRest(q, ts))
    decreases |ts|, 4
  {
    hide ParseAnd, NameOk;
    if ts != [] && ts[0] == OrTok {
      AndNamed(ts[1..]);
      var p := ParseAnd(ts[1..]);
      if p.Got? { OrRestNamed(Or(q, p.value), p.rest); }
    }
  }

  /** `parse`: tokenise, then parse the whole token list. */
  function QueryOf(u: Unicode, text: string): Option<Query>
    requires Sane(u)
  {
    match Tokens(u, text)
    case None => None
    case Some(ts) => ParseTopLevel(ts)
  }

  /** Whatever the text, a query that parses names no `$` key and no key with a
      zero byte, so it cannot reach into the built-in keys or across the pair
      separator. */
  lemma ParsedKeysOk(u: Unicode, text: string)
    requires Sane(u) && QueryOf(u, text).Some?
    ensures KeysOk(QueryOf(u, text).value)
  {
    hide ParseOr, NameOk;
    LexedNames(u, text);
    OrNamed(Tokens(u, text).value);
  }

  // ── Text in, page out ────────────────────────────────────────────────

  /** The indexes are in order and the query reads no tree that lost values. */
  ghost predicate Reliable(db: StateDb, q: Query)
    reads db
  {
    Consistent(db.code, Ids(db.storage), db.ents, db.model, db.lossy) && TreeKeys(q) !! db.lossy
  }

  /** `execute`. */
  method ExecuteText(u: Unicode, db: StateDb, text: string, size: nat, cursor: Option<nat>) returns (r: Option<Page>)
    requires Sane(u)
    ensures size == 0 || QueryOf(u, text).None? ==> r.None?
    ensures size > 0 && QueryOf(u, text).Some? && (Readable(db.code) || Reliable(db, QueryOf(u, text).value)) ==> r.Some?
    ensures r.Some? ==> PageIs(db.code, db.storage, Denote(db.code, QueryOf(u, text).value), size, cursor, r.value)
  {
    hide Consistent, Readable, PageIs, Denote, ParseTopLevel, Tokens, KeysOk, TreeKeys;
    if size == 0 { return None; }
    var tokens := Tokenize(u, text);
    if tokens.None? { return None; }
    var parser := new Parser(tokens.value);
    var q := parser.TopLevel();
    if q.None? { return None; }
    ParsedKeysOk(u, text);
    if Reliable(db, q.value) {
      TreeKeysZeroFree(q.value);
      TreesDecode(db.code, Ids(db.storage), db.ents, db.model, db.lossy, q.value);
    }
    if Readable(db.code) { ReadableAt(db.code); }
    var ok, page := Paging.Execute(db, q.value, size, cursor);
    r := if ok then Some(page) else None;
  }

  lemma ReadableAt(code: Codes)
    requires Readable(code)
    ensures forall k :: TreeAt(code, k).Some?
  {}

  /** Walking the pages of any text that parses lists exactly the records of
      the live entities that satisfy the query, each once, newest first. */
  lemma SearchExact(u: Unicode, text: string, code: Codes, st: Storage, ents: map<Address, Entity>, m: Model, lossy: set<Key>,
                    size: nat, pages: seq<Page>)
    requires Sane(u) && QueryOf(u, text).Some? && size > 0
    requires Consistent(code, Ids(st), ents, m, lossy) && TreeKeys(QueryOf(u, text).value) !! lossy
    requires Walk(code, st, Denote(code, QueryOf(u, text).value), size, None, pages)
    ensures var q := QueryOf(u, text).value;
      var d, r := Down(Hits(code, q)), Entries(pages);
      && |r| == |d|
      && (forall i :: 0 <= i < |d| ==> IsHit(ents, st, q, d[i], r[i]))
      && (forall a :: a in ents && Satisfies(ents[a], q) ==> IdOf(st, a) in d)
  {
    hide *;
    ParsedKeysOk(u, text);
    TrustedFrom(code, Ids(st), ents, m, lossy, QueryOf(u, text).value);
    PagedAnswer(code, st, ents, m, lossy, QueryOf(u, text).value, size, pages);
  }

  lemma TrustedFrom(code: Codes, x: IdMap, ents: map<Address, Entity>, m: Model, lossy: set<Key>, q: Query)
    requires Consistent(code, x, ents, m, lossy) && TreeKeys(q) !! lossy && KeysOk(q)
    ensures Trusted(code, x, ents, m, lossy, q)
  {}

  /** A query written down with its own meaning is the query that runs. */
  lemma WrittenQuery(u: Unicode, e: Printer.Expr)
    requires Sane(u) && Printer.Meaning(e).Some?
    requires forall i :: 0 <= i < |Printer.OrTokens(e)| ==> Printer.Writable(u, Printer.OrTokens(e)[i])
    ensures QueryOf(u, Printer.Write(Printer.OrTokens(e))) == Printer.Meaning(e)
  {
    Printer.ReadBack(u, e);
  }

  // ── Numbers ──────────────────────────────────────────────────────────

  lemma {:induction false} Widened(n: nat, w: nat, extra: nat)
    requires n < Pow256(w)
    ensures BigEndian(n, w + extra) == Zeros(extra) + BigEndian(n, w)
  {
    if w == 0 {
      ZeroBytes(extra);
    } else {
      Widened(n / 256, w - 1, extra);
    }
  }

  /** The numbers an entity has under a key. */
  predicate HasNumber(e: Entity, k: AnnotKey, m: nat) {
    match k
    case BuiltInKey(Expiration) => m == e.expiresAt
    case BuiltInKey(CreatedAtBlock) => m == e.createdAt
    case UserKeyName(s) => exists a :: a in e.attributes && a.key == s && m == FromBigEndian(a.value)
    case _ => false
  }

  /** The key carries numbers only: a block number, or `UINT` attributes. */
  predicate Numeric(e: Entity, k: AnnotKey) {
    match k
    case BuiltInKey(b) => (b == Expiration || b == CreatedAtBlock) && e.expiresAt < U64 && e.createdAt < U64
    case UserKeyName(s) => forall a :: a in e.attributes && a.key == s ==> a.valueType == ATTR_UINT && |a.value| == 32
  }

  predicate Compares(op: Token, m: nat, n: nat) {
    match op
    case EqTok => m == n
    case GtTok => m > n
    case GteTok => m >= n
    case LtTok => m < n
    case LteTok => m <= n
    case _ => false
  }

  /** The order test on bytes that goes with a comparison. */
  predicate ByteTest(op: Token, v: Key, w: Key) {
    match op
    case EqTok => w == v
    case GtTok => Bytes.Lt(v, w)
    case GteTok => w == v || Bytes.Lt(v, w)
    case LtTok => Bytes.Lt(w, v)
    case LteTok => w == v || Bytes.Lt(w, v)
    case _ => false
  }

  /** On bytes of one width the two tests agree. */
  lemma TestsAgree(op: Token, m: nat, n: nat, w: nat)
    requires m < Pow256(w) && n < Pow256(w)
    ensures ByteTest(op, BigEndian(n, w), BigEndian(m, w)) <==> Compares(op, m, n)
  {
    BigEndianOrder(m, n, w);
    BigEndianOrder(n, m, w);
    if BigEndian(m, w) == BigEndian(n, w) {
      BigEndianRoundTrip(m, w);
      BigEndianRoundTrip(n, w);
    }
  }

  function Width(k: AnnotKey): nat { if k.BuiltInKey? then 8 else 32 }

  /** The parser writes a number as wide as the write side does. */
  lemma NumberEncoded(k: AnnotKey, n: nat)
    requires n < U64 && (k.UserKeyName? || k.builtIn == Expiration || k.builtIn == CreatedAtBlock)
    ensures EncodeForKey(k, NumberLit(n)) == Some(BigEndian(n, Width(k))) && n < Pow256(Width(k))
  {
    Pow256Eight();
    if k.UserKeyName? {
      Widened(n, 8, 24);
      FromBigEndianBound(BigEndian(n, 32));
      WiderBound(8, 24);
    }
  }

  lemma {:induction false} WiderBound(w: nat, extra: nat)
    ensures Pow256(w) <= Pow256(w + extra)
  {
    if extra != 0 { WiderBound(w, extra - 1); }
  }

  /** The values under a numeric key are the numbers, big-endian. */
  lemma NumbersAreValues(e: Entity, k: AnnotKey, v: Key)
    requires Numeric(e, k)
    ensures HasValue(e, k, v) <==> HasOrdered(e, k, v)
    ensures HasValue(e, k, v) <==> |v| == Width(k) && HasNumber(e, k, FromBigEndian(v))
  {
    Pow256Eight();
    if k.BuiltInKey? {
      BigEndianRoundTrip(e.expiresAt, 8);
      BigEndianRoundTrip(e.createdAt, 8);
    }
    FromBigEndianRoundTrip(v);
    if k.UserKeyName? && |v| == 32 {
      forall a | a in e.attributes && a.key == k.name && FromBigEndian(a.value) == FromBigEndian(v) ensures a.value == v {
        FromBigEndianRoundTrip(a.value);
      }
    }
  }

  lemma LeafSatisfied(e: Entity, k: AnnotKey, op: Token, v: Key)
    requires Ranged(op) || op == EqTok
    ensures Satisfies(e, Compare(op, k, v)) <==>
      exists w :: (if op == EqTok then HasValue(e, k, w) else HasOrdered(e, k, w)) && ByteTest(op, v, w)
  {
    if op == EqTok && HasValue(e, k, v) { assert ByteTest(op, v, v); }
    if op != EqTok {
      var q := Compare(op, k, v);
      assert q.key == k && forall w :: Wants(q)(w) <==> ByteTest(op, v, w);
    }
  }

  /** On one entity: a comparison with `n` holds exactly if one of the numbers
      under the key compares so with `n`. */
  lemma NumericLeaf(e: Entity, k: AnnotKey, op: Token, n: nat)
    requires Numeric(e, k) && n < U64 && (Ranged(op) || op == EqTok)
    ensures EncodeForKey(k, NumberLit(n)).Some?
    ensures Satisfies(e, Compare(op, k, EncodeForKey(k, NumberLit(n)).value)) <==>
      exists m :: HasNumber(e, k, m) && Compares(op, m, n)
  {
    hide *;
    NumericKey(e, k);
    NumberEncoded(k, n);
    var v := BigEndian(n, Width(k));
    LeafSatisfied(e, k, op, v);
    forall x ensures HasValue(e, k, x) <==> HasOrdered(e, k, x) { NumbersAreValues(e, k, x); }
    if x :| HasValue(e, k, x) && ByteTest(op, v, x) { ToNumber(e, k, op, n, x); }
    if m :| HasNumber(e, k, m) && Compares(op, m, n) { ToValue(e, k, op, n, m); }
  }

  lemma NumericKey(e: Entity, k: AnnotKey)
    requires Numeric(e, k)
    ensures k.UserKeyName? || k.builtIn == Expiration || k.builtIn == CreatedAtBlock
  {}

  lemma ToNumber(e: Entity, k: AnnotKey, op: Token, n: nat, x: Key)
    requires Numeric(e, k) && n < Pow256(Width(k)) && HasValue(e, k, x) && ByteTest(op, BigEndian(n, Width(k)), x)
    ensures HasNumber(e, k, FromBigEndian(x)) && Compares(op, FromBigEndian(x), n)
  {
    hide *;
    NumbersAreValues(e, k, x);
    FromBigEndianRoundTrip(x);
    FromBigEndianBound(x);
    TestsAgree(op, FromBigEndian(x), n, Width(k));
  }

  lemma ToValue(e: Entity, k: AnnotKey, op: Token, n: nat, m: nat)
    requires Numeric(e, k) && n < Pow256(Width(k)) && HasNumber(e, k, m) && Compares(op, m, n)
    ensures HasValue(e, k, BigEndian(m, Width(k))) && ByteTest(op, BigEndian(n, Width(k)), BigEndian(m, Width(k)))
  {
    hide *;
    NumberFits(e, k, m);
    BigEndianRoundTrip(m, Width(k));
    NumbersAreValues(e, k, BigEndian(m, Width(k)));
    TestsAgree(op, m, n, Width(k));
  }

  lemma NumberFits(e: Entity, k: AnnotKey, m: nat)
    requires Numeric(e, k) && HasNumber(e, k, m)
    ensures m < Pow256(Width(k))
  {
    Pow256Eight();
    if k.UserKeyName? {
      var a :| a in e.attributes && a.key == k.name && m == FromBigEndian(a.value);
      FromBigEndianBound(a.value);
    }
  }

  /** Over the database: `k > n` (and `>=`, `<`, `<=`, `=`) on a key that carries
      only numbers selects exactly the entities with such a number. */
  lemma NumericAnswer(code: Codes, x: IdMap, ents: map<Address, Entity>, m: Model, lossy: set<Key>, k: AnnotKey, op: Token, n: nat, id: nat)
    requires n < U64 && (Ranged(op) || op == EqTok) && (forall a :: a in ents ==> Numeric(ents[a], k))
    requires k.UserKeyName? || k.builtIn == Expiration || k.builtIn == CreatedAtBlock
    requires Consistent(code, x, ents, m, lossy) && KeyOk(k) && PairKey(k) !in lossy
    ensures EncodeForKey(k, NumberLit(n)).Some?
    ensures id in Denote(code, Compare(op, k, EncodeForKey(k, NumberLit(n)).value)) <==>
      exists a, i :: a in ents && x.idOf(a) == id && HasNumber(ents[a], k, i) && Compares(op, i, n)
  {
    hide *;
    NumberLiteral(k, n);
    var v := EncodeForKey(k, NumberLit(n)).value;
    ComparisonKeys(op, k, v);
    var q := Compare(op, k, v);
    TrustedFrom(code, x, ents, m, lossy, q);
    AnswerExact(code, x, ents, m, lossy, q, id);
    if id in Denote(code, q) { ComparedLive(code, x, ents, m, lossy, k, op, v, id); }
    if Matches(ents, x, q, id) {
      var a := Matched(ents, x, q, id);
      NumericLeaf(ents[a], k, op, n);
      var i :| HasNumber(ents[a], k, i) && Compares(op, i, n);
    }
    if a, i :| a in ents && x.idOf(a) == id && HasNumber(ents[a], k, i) && Compares(op, i, n) {
      NumericLeaf(ents[a], k, op, n);
      MatchedBy(ents, x, q, a);
    }
  }

  /** The ids of a comparison on such a key are all live. */
  lemma ComparedLive(code: Codes, x: IdMap, ents: map<Address, Entity>, m: Model, lossy: set<Key>, k: AnnotKey, op: Token, v: Key, id: nat)
    requires (Ranged(op) || op == EqTok) && Consistent(code, x, ents, m, lossy) && KeyOk(k) && k != BuiltInKey(EntityKey)
    requires id in Denote(code, Compare(op, k, v))
    ensures id in AllIds(code)
  {
    hide Consistent, AllIds, Bits;
    DenoteCases(code, Compare(op, k, v), id);
    if id !in AllIds(code) {
      var w :| id in Bits(code, PairKey(k), w);
      NoStrayBits(code, x, ents, m, lossy, k, w, id);
    }
  }

  lemma NumberLiteral(k: AnnotKey, n: nat)
    requires n < U64 && (k.UserKeyName? || k.builtIn == Expiration || k.builtIn == CreatedAtBlock)
    ensures EncodeForKey(k, NumberLit(n)).Some?
  {}

  lemma ComparisonKeys(op: Token, k: AnnotKey, v: Key)
    requires Ranged(op) || op == EqTok
    ensures TreeKeys(Compare(op, k, v)) <= {PairKey(k)}
    ensures KeyOk(k) ==> KeysOk(Compare(op, k, v))
  {}

  /** The two encoders agree: a number literal is encoded to the stored value of
      an accepted `UINT` attribute exactly if it is its number. Above 2^64-1
      there is no such literal. */
  lemma EncodersAgree(a: WireAttribute, name: Key, n: nat)
    requires Attributes.ConvertValue(a).Ok? && a.valueType == ATTR_UINT && n < U64
    ensures EncodeForKey(UserKeyName(name), NumberLit(n)) == Some(Attributes.ConvertValue(a).value)
        <==> n == FromBigEndian(a.value[0])
  {
    var w: Key := a.value[0];
    NumberEncoded(UserKeyName(name), n);
    FromBigEndianRoundTrip(w);
    BigEndianRoundTrip(n, 32);
    assert Attributes.ConvertValue(a).value == w;
  }
}
