/** What a written condition asks of one entity: in fields and literals, without
    the parser's keys, encodings and queries, and that the parser means just
    that. */
module Conditions {
  import opened Options
  import opened Bytes
  import opened Accounts
  import opened Indexes
  import opened Utf8
  import opened Query
  import opened Lexer
  import opened Parser
  import opened Grammar
  import opened Printer
  import opened Spelling
  import Search

  predicate Equality(op: Token) { op == EqTok || op == NeqTok }
  predicate Order(op: Token) { op == GtTok || op == GteTok || op == LtTok || op == LteTok }
  predicate Prefix(op: Token) { op == Tilde || op == NotTilde }

  // ── Which conditions are accepted ────────────────────────────────────

  /** A quoted key: `0x` and 64 characters. A second `0x` among them is skipped. */
  predicate KeyText(s: string, v: Key) {
    && |s| == 66 && s[0] == '0' && (s[1] == 'x' || s[1] == 'X')
    && if s[2] == '0' && s[3] == 'x' then HexOf(s[4..], v) else HexOf(s[2..], v)
  }

  /** The pattern is `p` and a star, and has no other star. */
  predicate Pattern(text: string, p: string) { text == p + "*" && '*' !in p }

  /** Which literals go with which key and operator. */
  ghost predicate Accepts(key: Token, op: Token, lit: Token) {
    if Prefix(op) then
      (key.Ident? || key == DollarContentType) && lit.StringLit? && exists p :: Pattern(lit.text, p)
    else
      (Equality(op) || Order(op)) &&
      match key
      case DollarOwner => Equality(op) && lit.AddressTok?
      case DollarCreator => Equality(op) && lit.AddressTok?
      case DollarKey => (Equality(op) && lit.EntityKeyTok?) || (lit.StringLit? && exists v :: KeyText(lit.text, v))
      case DollarExpiration => lit.Number?
      case DollarCreatedAtBlock => lit.Number?
      case DollarContentType => lit.StringLit?
      case Ident(_) => lit.Number? || lit.StringLit? || (Equality(op) && (lit.AddressTok? || lit.EntityKeyTok?))
      case _ => false
  }

  // ── What they ask ────────────────────────────────────────────────────

  /** The bytes of an attribute that a literal stands for: a number in 32 bytes,
      the UTF-8 of a text, the bytes of an address or key. */
  predicate Stands(v: Key, lit: Token) {
    match lit
    case Number(n) => |v| == 32 && FromBigEndian(v) == n
    case StringLit(text) => v == Encode(text)
    case AddressTok(a) => v == a
    case EntityKeyTok(b) => v == b
    case _ => false
  }

  predicate StartsAs(w: Key, pattern: string) { pattern != "" && Encode(pattern[..|pattern| - 1]) <= w }

  predicate NumberIs(op: Token, m: nat, n: nat) { if op == NeqTok then m != n else Search.Compares(op, m, n) }

  /** An attribute of this name that is not an entity key. */
  predicate Plain(e: Entity, name: string, a: Attribute) { a in e.attributes && a.key == Encode(name) && a.valueType != 3 }

  ghost predicate SomeEqual(e: Entity, name: string, lit: Token) {
    exists a :: a in e.attributes && a.key == Encode(name) && Stands(a.value, lit)
  }

  ghost predicate SomePrefixed(e: Entity, name: string, pattern: string) {
    exists a :: Plain(e, name, a) && StartsAs(a.value, pattern)
  }

  /** Ranges compare bytes. */
  ghost predicate SomeBeyond(e: Entity, name: string, op: Token, lit: Token) {
    exists a, v :: Plain(e, name, a) && Stands(v, lit) && Search.ByteTest(op, v, a.value)
  }

  ghost predicate Holds(e: Entity, key: Token, op: Token, lit: Token) {
    match key
    case DollarOwner => lit.AddressTok? && (op == EqTok <==> e.owner == lit.addr)
    case DollarCreator => lit.AddressTok? && (op == EqTok <==> e.creator == lit.addr)
    case DollarKey =>
      !Order(op) && (op == EqTok <==> if lit.EntityKeyTok? then e.key == lit.key else lit.StringLit? && KeyText(lit.text, e.key))
    case DollarExpiration => lit.Number? && NumberIs(op, e.expiresAt, lit.n)
    case DollarCreatedAtBlock => lit.Number? && NumberIs(op, e.createdAt, lit.n)
    case DollarContentType =>
      lit.StringLit? &&
      if Prefix(op) then op == Tilde <==> StartsAs(e.contentType, lit.text)
      else if op == NeqTok then e.contentType != Encode(lit.text)
      else Search.ByteTest(op, Encode(lit.text), e.contentType)
    case Ident(name) =>
      if Equality(op) then op == EqTok <==> SomeEqual(e, name, lit)
      else if Prefix(op) then lit.StringLit? && (op == Tilde <==> SomePrefixed(e, name, lit.text))
      else SomeBeyond(e, name, op, lit)
    case _ => false
  }

  // ── One leaf ─────────────────────────────────────────────────────────

  /** Block numbers fit their eight bytes, and numbers are below 2^64. */
  predicate Sized(e: Entity, lit: Token) { e.expiresAt < U64 && e.createdAt < U64 && (lit.Number? ==> lit.n < U64) }

  /** What the parser makes of a leaf is exactly this. */
  ghost predicate LeafRight(e: Entity, key: Token, op: Token, lit: Token) {
    var q := Meaning(Leaf(key, op, lit));
    (q.Some? <==> Accepts(key, op, lit)) && (q.Some? ==> (Satisfies(e, q.value) <==> Holds(e, key, op, lit)))
  }

  lemma LeafIs(key: Token, op: Token, lit: Token)
    ensures KeyOf(key).None? ==> Meaning(Leaf(key, op, lit)).None?
    ensures KeyOf(key).Some? && (Equality(op) || Order(op)) ==>
      Meaning(Leaf(key, op, lit)) ==
        if ValueOf(KeyOf(key).value, lit).None? || (Order(op) && (lit.AddressTok? || lit.EntityKeyTok?)) then None
        else Some(Compare(op, KeyOf(key).value, ValueOf(KeyOf(key).value, lit).value))
    ensures KeyOf(key).Some? && Prefix(op) ==>
      Meaning(Leaf(key, op, lit)) ==
        if !GlobKey(KeyOf(key).value) || !lit.StringLit? || GlobPrefix(lit.text).None? then None
        else Some(if op == Tilde then Glob(KeyOf(key).value, GlobPrefix(lit.text).value)
                  else NotGlob(KeyOf(key).value, GlobPrefix(lit.text).value))
    ensures !Equality(op) && !Order(op) && !Prefix(op) ==> Meaning(Leaf(key, op, lit)).None?
  {
    hide ValueOf, GlobPrefix, KeyOf, Compare;
  }

  /** What a comparison asks of the values under a key. */
  lemma CompareIs(e: Entity, op: Token, k: AnnotKey, v: Key)
    requires Equality(op) || Order(op)
    ensures op == EqTok ==> (Satisfies(e, Compare(op, k, v)) <==> HasValue(e, k, v))
    ensures op == NeqTok ==> (Satisfies(e, Compare(op, k, v)) <==> !HasValue(e, k, v))
    ensures Order(op) ==> (Satisfies(e, Compare(op, k, v)) <==> exists w :: HasOrdered(e, k, w) && Search.ByteTest(op, v, w))
  {
    if Order(op) { Search.LeafSatisfied(e, k, op, v); }
    hide HasValue, HasOrdered, Search.ByteTest;
  }

  lemma GlobIs(e: Entity, k: AnnotKey, p: Key)
    ensures Satisfies(e, Glob(k, p)) <==> exists w :: HasOrdered(e, k, w) && p <= w
    ensures Satisfies(e, NotGlob(k, p)) <==> !exists w :: HasOrdered(e, k, w) && p <= w
  {
    hide HasOrdered;
    var q := Glob(k, p);
    assert forall w :: Wants(q)(w) <==> p <= w;
  }

  lemma PatternExact(text: string)
    ensures GlobPrefix(text).Some? <==> exists p :: Pattern(text, p)
    ensures GlobPrefix(text).Some? ==> text != "" && GlobPrefix(text).value == Encode(text[..|text| - 1])
  {
    hide Encode;
    if GlobPrefix(text).Some? {
      assert text == text[..|text| - 1] + [text[|text| - 1]];
      assert Pattern(text, text[..|text| - 1]);
    }
    if p :| Pattern(text, p) { assert text[..|text| - 1] == p; }
  }

  lemma RightIs(e: Entity, key: Token, op: Token, lit: Token)
    requires Meaning(Leaf(key, op, lit)).Some? <==> Accepts(key, op, lit)
    requires var q := Meaning(Leaf(key, op, lit)); q.Some? ==> (Satisfies(e, q.value) <==> Holds(e, key, op, lit))
    ensures LeafRight(e, key, op, lit)
  {
    hide Meaning, Accepts, Satisfies, Holds;
  }

  lemma OwnerTable(op: Token, lit: Token)
    ensures Accepts(DollarOwner, op, lit) <==> Equality(op) && lit.AddressTok?
    ensures Accepts(DollarCreator, op, lit) <==> Equality(op) && lit.AddressTok?
  {
    hide Order;
  }

  lemma OwnerHolds(e: Entity, op: Token, lit: Token)
    ensures lit.AddressTok? ==> (Holds(e, DollarOwner, op, lit) <==> (op == EqTok <==> e.owner == lit.addr))
    ensures lit.AddressTok? ==> (Holds(e, DollarCreator, op, lit) <==> (op == EqTok <==> e.creator == lit.addr))
  {}

  lemma OwnerKeys(lit: Token)
    ensures KeyOf(DollarOwner) == Some(BuiltInKey(Owner)) && KeyOf(DollarCreator) == Some(BuiltInKey(Creator))
    ensures !GlobKey(BuiltInKey(Owner)) && !GlobKey(BuiltInKey(Creator))
    ensures ValueOf(BuiltInKey(Owner), lit) == if lit.AddressTok? then Some(lit.addr) else None
    ensures ValueOf(BuiltInKey(Creator), lit) == if lit.AddressTok? then Some(lit.addr) else None
  {}

  lemma OwnerValues(e: Entity)
    ensures forall v :: HasValue(e, BuiltInKey(Owner), v) <==> v == e.owner
    ensures forall v :: HasValue(e, BuiltInKey(Creator), v) <==> v == e.creator
  {}

  lemma OwnerLeaf(e: Entity, op: Token, lit: Token)
    ensures LeafRight(e, DollarOwner, op, lit) && LeafRight(e, DollarCreator, op, lit)
  {
    hide *;
    LeafIs(DollarOwner, op, lit);
    LeafIs(DollarCreator, op, lit);
    OneOp(op);
    OwnerTable(op, lit);
    OwnerHolds(e, op, lit);
    OwnerKeys(lit);
    OwnerValues(e);
    if lit.AddressTok? && Equality(op) {
      CompareIs(e, op, BuiltInKey(Owner), lit.addr);
      CompareIs(e, op, BuiltInKey(Creator), lit.addr);
    }
    RightIs(e, DollarOwner, op, lit);
    RightIs(e, DollarCreator, op, lit);
  }

  lemma BlockTable(op: Token, lit: Token)
    ensures Accepts(DollarExpiration, op, lit) <==> (Equality(op) || Order(op)) && lit.Number?
    ensures Accepts(DollarCreatedAtBlock, op, lit) <==> (Equality(op) || Order(op)) && lit.Number?
  {
    hide Order, Equality;
    OneOp(op);
  }

  lemma BlockHolds(e: Entity, op: Token, lit: Token)
    ensures lit.Number? ==> (Holds(e, DollarExpiration, op, lit) <==> NumberIs(op, e.expiresAt, lit.n))
    ensures lit.Number? ==> (Holds(e, DollarCreatedAtBlock, op, lit) <==> NumberIs(op, e.createdAt, lit.n))
  {
    hide NumberIs;
  }

  lemma BlockKeys(lit: Token)
    ensures KeyOf(DollarExpiration) == Some(BuiltInKey(Expiration)) && KeyOf(DollarCreatedAtBlock) == Some(BuiltInKey(CreatedAtBlock))
    ensures !GlobKey(BuiltInKey(Expiration)) && !GlobKey(BuiltInKey(CreatedAtBlock))
    ensures ValueOf(BuiltInKey(Expiration), lit) == if lit.Number? then Some(BigEndian(lit.n, 8)) else None
    ensures ValueOf(BuiltInKey(CreatedAtBlock), lit) == if lit.Number? then Some(BigEndian(lit.n, 8)) else None
  {
    hide BigEndian;
  }

  /** A comparison with the one block number under a key. */
  lemma BlockCompare(e: Entity, k: AnnotKey, m: nat, op: Token, n: nat)
    requires (Equality(op) || Order(op)) && m < U64 && n < U64
    requires forall w :: HasOrdered(e, k, w) <==> w == BigEndian(m, 8)
    requires forall w :: HasValue(e, k, w) <==> w == BigEndian(m, 8)
    ensures Satisfies(e, Compare(op, k, BigEndian(n, 8))) <==> NumberIs(op, m, n)
  {
    Pow256Eight();
    OneOp(op);
    hide *;
    CompareIs(e, op, k, BigEndian(n, 8));
    Search.TestsAgree(op, m, n, 8);
    BigEndianRoundTrip(m, 8);
    BigEndianRoundTrip(n, 8);
    NumberIsNow(op, m, n);
  }

  lemma OneOp(op: Token)
    ensures Equality(op) <==> op == EqTok || op == NeqTok
    ensures Order(op) ==> op != EqTok && op != NeqTok && !Prefix(op)
    ensures Prefix(op) ==> !Order(op) && !Equality(op) && (op == Tilde || op == NotTilde)
    ensures Equality(op) ==> !Order(op) && !Prefix(op)
  {}

  lemma NumberIsNow(op: Token, m: nat, n: nat)
    ensures op == EqTok ==> (NumberIs(op, m, n) <==> m == n)
    ensures op == NeqTok ==> (NumberIs(op, m, n) <==> m != n)
    ensures op != NeqTok ==> (NumberIs(op, m, n) <==> Search.Compares(op, m, n))
  {}

  lemma BlockLeaf(e: Entity, op: Token, lit: Token)
    requires Sized(e, lit)
    ensures LeafRight(e, DollarExpiration, op, lit) && LeafRight(e, DollarCreatedAtBlock, op, lit)
  {
    SizedIs(e, lit);
    hide *;
    LeafIs(DollarExpiration, op, lit);
    LeafIs(DollarCreatedAtBlock, op, lit);
    OneOp(op);
    BlockTable(op, lit);
    BlockHolds(e, op, lit);
    BlockKeys(lit);
    BlockValues(e);
    if lit.Number? && (Equality(op) || Order(op)) {
      BlockCompare(e, BuiltInKey(Expiration), e.expiresAt, op, lit.n);
      BlockCompare(e, BuiltInKey(CreatedAtBlock), e.createdAt, op, lit.n);
    }
    RightIs(e, DollarExpiration, op, lit);
    RightIs(e, DollarCreatedAtBlock, op, lit);
  }

  lemma SizedIs(e: Entity, lit: Token)
    requires Sized(e, lit)
    ensures e.expiresAt < U64 && e.createdAt < U64 && (lit.Number? ==> lit.n < U64)
  {}

  /** A block number is the one value under its key. */
  lemma BlockValues(e: Entity)
    ensures forall w :: HasOrdered(e, BuiltInKey(Expiration), w) <==> w == BigEndian(e.expiresAt, 8)
    ensures forall w :: HasOrdered(e, BuiltInKey(CreatedAtBlock), w) <==> w == BigEndian(e.createdAt, 8)
    ensures forall w :: HasValue(e, BuiltInKey(Expiration), w) <==> w == BigEndian(e.expiresAt, 8)
    ensures forall w :: HasValue(e, BuiltInKey(CreatedAtBlock), w) <==> w == BigEndian(e.createdAt, 8)
  {
    hide BigEndian;
  }

  lemma ContentTable(e: Entity, op: Token, lit: Token)
    ensures Accepts(DollarContentType, op, lit) <==>
      lit.StringLit? && (if Prefix(op) then exists p :: Pattern(lit.text, p) else Equality(op) || Order(op))
    ensures lit.StringLit? && Prefix(op) ==>
      (Holds(e, DollarContentType, op, lit) <==> (op == Tilde <==> StartsAs(e.contentType, lit.text)))
    ensures lit.StringLit? && !Prefix(op) ==>
      (Holds(e, DollarContentType, op, lit) <==>
        if op == NeqTok then e.contentType != Encode(lit.text) else Search.ByteTest(op, Encode(lit.text), e.contentType))
  {
    hide Encode, Search.ByteTest;
  }

  lemma ContentKeys(e: Entity, lit: Token)
    ensures KeyOf(DollarContentType) == Some(BuiltInKey(ContentType)) && GlobKey(BuiltInKey(ContentType))
    ensures ValueOf(BuiltInKey(ContentType), lit) == if lit.StringLit? then Some(Encode(lit.text)) else None
    ensures forall w :: HasOrdered(e, BuiltInKey(ContentType), w) <==> w == e.contentType
    ensures forall w :: HasValue(e, BuiltInKey(ContentType), w) <==> w == e.contentType
    ensures forall v, w :: Search.ByteTest(EqTok, v, w) <==> w == v
  {
    hide Encode;
  }

  lemma StartsIs(w: Key, text: string)
    requires text != ""
    ensures StartsAs(w, text) <==> Encode(text[..|text| - 1]) <= w
  {
    hide Encode;
  }

  lemma ContentLeaf(e: Entity, op: Token, lit: Token)
    ensures LeafRight(e, DollarContentType, op, lit)
  {
    hide *;
    var k := BuiltInKey(ContentType);
    LeafIs(DollarContentType, op, lit);
    ContentTable(e, op, lit);
    ContentKeys(e, lit);
    OneOp(op);
    if lit.StringLit? {
      PatternExact(lit.text);
      if Equality(op) || Order(op) { CompareIs(e, op, k, Encode(lit.text)); }
      if GlobPrefix(lit.text).Some? {
        GlobIs(e, k, GlobPrefix(lit.text).value);
        StartsIs(e.contentType, lit.text);
      }
    }
    RightIs(e, DollarContentType, op, lit);
  }

  // ── Keys in quotes ───────────────────────────────────────────────────

  lemma {:induction false} AsciiLength(t: string)
    ensures (forall i :: 0 <= i < |t| ==> t[i] < 128 as char) ==> |Encode(t)| == |t|
  {
    if t != "" { AsciiLength(t[1..]); }
  }

  /** The decoder of quoted keys reads exactly those texts. */
  lemma KeyTextExact(s: string, v: Key)
    ensures DecodeKeyText(s) == Some(v) <==> KeyText(s, v)
  {
    if |s| >= 2 && s[0] == '0' && (s[1] == 'x' || s[1] == 'X') {
      var t := s[2..];
      var skip := |t| >= 2 && t[0] == '0' && t[1] == 'x';
      var h := if skip then t[2..] else t;
      if AllHex(h) { HexAscii(t, h, skip); }
      AsciiLength(t);
      if |h| % 2 == 0 { HexBytesExact(h, v); }
      hide Encode, HexBytes, HexOf, HexDigit;
      assert skip ==> h == s[4..];
      if KeyText(s, v) { HexAscii(t, h, skip); }
    }
  }

  lemma HexBytesExact(h: string, v: Key)
    requires |h| % 2 == 0
    ensures AllHex(h) && HexBytes(h) == v <==> HexOf(h, v)
    ensures HexOf(h, v) ==> AllHex(h)
  {
    if |h| == 2 * |v| { HexExact(h, v); }
  }

  lemma HexAscii(t: string, h: string, skip: bool)
    requires AllHex(h) && if skip then |t| >= 2 && t[0] == '0' && t[1] == 'x' && h == t[2..] else h == t
    ensures forall i :: 0 <= i < |t| ==> t[i] < 128 as char
  {
    if skip { assert forall i :: 2 <= i < |t| ==> t[i] == h[i - 2]; }
  }

  lemma KeyLeaf(e: Entity, op: Token, lit: Token)
    ensures LeafRight(e, DollarKey, op, lit)
  {
    LeafIs(DollarKey, op, lit);
    var k := BuiltInKey(EntityKey);
    if lit.EntityKeyTok? && (Equality(op) || Order(op)) { CompareIs(e, op, k, lit.key); }
    if lit.StringLit? {
      var d := DecodeKeyText(lit.text);
      if d.Some? {
        KeyTextExact(lit.text, d.value);
        if Equality(op) || Order(op) { CompareIs(e, op, k, d.value); }
      }
      KeyTextExact(lit.text, e.key);
      forall v | KeyText(lit.text, v) ensures d == Some(v) { KeyTextExact(lit.text, v); }
    }
    hide Meaning, Satisfies, Compare, Search.ByteTest, DecodeKeyText, KeyText;
  }

  // ── User names ───────────────────────────────────────────────────────

  /** The encoder gives the bytes a literal stands for. */
  lemma UserValue(name: Key, lit: Token)
    requires lit.Number? ==> lit.n < U64
    ensures var v := ValueOf(UserKeyName(name), lit);
      && (v.Some? <==> lit.Number? || lit.StringLit? || lit.AddressTok? || lit.EntityKeyTok?)
      && (v.Some? ==> forall w :: Stands(w, lit) <==> w == v.value)
  {
    UserEncoded(name, lit);
    hide *;
    if lit.Number? {
      Search.NumberEncoded(UserKeyName(name), lit.n);
      WideWidth(name);
      BigEndianRoundTrip(lit.n, 32);
      forall w ensures Stands(w, lit) <==> w == BigEndian(lit.n, 32) {
        NumberStands(w, lit.n);
        FromBigEndianRoundTrip(w);
      }
    } else {
      forall w ensures lit.StringLit? || lit.AddressTok? || lit.EntityKeyTok? ==>
        (Stands(w, lit) <==> w == if lit.StringLit? then Encode(lit.text) else if lit.AddressTok? then lit.addr else lit.key)
      {
        BytesStand(w, lit);
      }
    }
  }

  lemma WideWidth(name: Key)
    ensures Search.Width(UserKeyName(name)) == 32
  {}

  lemma NumberStands(w: Key, n: nat)
    ensures Stands(w, Number(n)) <==> |w| == 32 && FromBigEndian(w) == n
  {
    hide FromBigEndian;
  }

  lemma BytesStand(w: Key, lit: Token)
    ensures lit.StringLit? ==> (Stands(w, lit) <==> w == Encode(lit.text))
    ensures lit.AddressTok? ==> (Stands(w, lit) <==> w == lit.addr)
    ensures lit.EntityKeyTok? ==> (Stands(w, lit) <==> w == lit.key)
  {
    hide Encode;
  }

  lemma UserEncoded(name: Key, lit: Token)
    ensures var v := ValueOf(UserKeyName(name), lit);
      && (lit.Number? ==> v == EncodeForKey(UserKeyName(name), NumberLit(lit.n)))
      && (lit.StringLit? ==> v == Some(Encode(lit.text)))
      && (lit.AddressTok? ==> v == Some(lit.addr)) && (lit.EntityKeyTok? ==> v == Some(lit.key))
      && (!lit.Number? && !lit.StringLit? && !lit.AddressTok? && !lit.EntityKeyTok? ==> v.None?)
  {
    hide Encode, BigEndian;
  }

  lemma UserAccepts(name: string, op: Token, lit: Token)
    ensures Prefix(op) ==> (Accepts(Ident(name), op, lit) <==> lit.StringLit? && exists p :: Pattern(lit.text, p))
    ensures !Prefix(op) ==>
      (Accepts(Ident(name), op, lit) <==>
        (Equality(op) || Order(op)) && (lit.Number? || lit.StringLit? || (Equality(op) && (lit.AddressTok? || lit.EntityKeyTok?))))
  {
    hide Pattern, Order, Equality, Prefix;
  }

  lemma UserHolds(e: Entity, name: string, op: Token, lit: Token)
    ensures Equality(op) ==> (Holds(e, Ident(name), op, lit) <==> (op == EqTok <==> SomeEqual(e, name, lit)))
    ensures !Equality(op) && Prefix(op) && lit.StringLit? ==>
      (Holds(e, Ident(name), op, lit) <==> (op == Tilde <==> SomePrefixed(e, name, lit.text)))
    ensures !Equality(op) && !Prefix(op) ==> (Holds(e, Ident(name), op, lit) <==> SomeBeyond(e, name, op, lit))
  {
    hide SomeEqual, SomePrefixed, SomeBeyond, Equality, Prefix;
  }

  lemma UserEqual(e: Entity, name: string, lit: Token, v: Key)
    requires forall w :: Stands(w, lit) <==> w == v
    ensures SomeEqual(e, name, lit) <==> HasValue(e, UserKeyName(Encode(name)), v)
  {
    hide Encode, Stands;
  }

  lemma UserKeys(e: Entity, name: string)
    ensures var k := UserKeyName(Encode(name));
      && KeyOf(Ident(name)) == Some(k) && GlobKey(k)
      && (forall a :: Plain(e, name, a) ==> HasOrdered(e, k, a.value))
  {
    hide Encode;
  }

  lemma OrderedAttr(e: Entity, name: string, w: Key) returns (a: Attribute)
    requires HasOrdered(e, UserKeyName(Encode(name)), w)
    ensures Plain(e, name, a) && a.value == w
  {
    hide Encode;
    a :| a in e.attributes && a.key == Encode(name) && a.value == w && a.valueType != 3;
  }

  lemma UserLeaf(e: Entity, name: string, op: Token, lit: Token)
    requires Sized(e, lit)
    ensures LeafRight(e, Ident(name), op, lit)
  {
    SizedIs(e, lit);
    hide *;
    var k := UserKeyName(Encode(name));
    LeafIs(Ident(name), op, lit);
    UserAccepts(name, op, lit);
    UserHolds(e, name, op, lit);
    UserKeys(e, name);
    UserValue(Encode(name), lit);
    OneOp(op);
    if Prefix(op) {
      if lit.StringLit? { UserGlob(e, name, op, lit); }
    } else if (Equality(op) || Order(op)) && ValueOf(k, lit).Some? {
      CompareIs(e, op, k, ValueOf(k, lit).value);
      if Order(op) { UserOrder(e, name, op, lit, ValueOf(k, lit).value); } else { UserEqual(e, name, lit, ValueOf(k, lit).value); }
    }
    RightIs(e, Ident(name), op, lit);
  }

  lemma UserOrder(e: Entity, name: string, op: Token, lit: Token, v: Key)
    requires forall w :: Stands(w, lit) <==> w == v
    ensures SomeBeyond(e, name, op, lit) <==> (exists w :: HasOrdered(e, UserKeyName(Encode(name)), w) && Search.ByteTest(op, v, w))
  {
    hide *;
    var k := UserKeyName(Encode(name));
    UserKeys(e, name);
    if SomeBeyond(e, name, op, lit) {
      var a, x := Beyond(e, name, op, lit);
      assert HasOrdered(e, k, a.value) && Search.ByteTest(op, v, a.value);
    }
    if w :| HasOrdered(e, k, w) && Search.ByteTest(op, v, w) {
      var a := OrderedAttr(e, name, w);
      BeyondBy(e, name, op, lit, a, v);
    }
  }

  lemma Beyond(e: Entity, name: string, op: Token, lit: Token) returns (a: Attribute, v: Key)
    requires SomeBeyond(e, name, op, lit)
    ensures Plain(e, name, a) && Stands(v, lit) && Search.ByteTest(op, v, a.value)
  {
    hide Plain, Stands, Search.ByteTest;
    a, v :| Plain(e, name, a) && Stands(v, lit) && Search.ByteTest(op, v, a.value);
  }

  lemma BeyondBy(e: Entity, name: string, op: Token, lit: Token, a: Attribute, v: Key)
    requires Plain(e, name, a) && Stands(v, lit) && Search.ByteTest(op, v, a.value)
    ensures SomeBeyond(e, name, op, lit)
  {
    hide Plain, Stands, Search.ByteTest;
  }

  lemma UserGlob(e: Entity, name: string, op: Token, lit: Token)
    requires Prefix(op) && lit.StringLit?
    ensures var k, g := UserKeyName(Encode(name)), GlobPrefix(lit.text);
      && (g.Some? <==> exists p :: Pattern(lit.text, p))
      && (g.Some? ==>
           && (Satisfies(e, Glob(k, g.value)) <==> SomePrefixed(e, name, lit.text))
           && (Satisfies(e, NotGlob(k, g.value)) <==> !SomePrefixed(e, name, lit.text)))
  {
    hide Satisfies, Encode, GlobPrefix, StartsAs, Plain, HasOrdered, KeyOf, GlobKey, Pattern;
    var k, g := UserKeyName(Encode(name)), GlobPrefix(lit.text);
    PatternExact(lit.text);
    UserKeys(e, name);
    if g.Some? {
      GlobIs(e, k, g.value);
      forall w ensures StartsAs(w, lit.text) <==> g.value <= w { StartsIs(w, lit.text); }
      if w :| HasOrdered(e, k, w) && g.value <= w { var a := OrderedAttr(e, name, w); }
    }
  }

  /** Whatever key, operator and literal: it is accepted exactly as the table
      says, and asks exactly what its fields say. */
  lemma LeafExact(e: Entity, key: Token, op: Token, lit: Token)
    requires Sized(e, lit)
    ensures LeafRight(e, key, op, lit)
  {
    hide LeafRight;
    match key {
      case DollarOwner => OwnerLeaf(e, op, lit);
      case DollarCreator => OwnerLeaf(e, op, lit);
      case DollarKey => KeyLeaf(e, op, lit);
      case DollarExpiration => BlockLeaf(e, op, lit);
      case DollarCreatedAtBlock => BlockLeaf(e, op, lit);
      case DollarContentType => ContentLeaf(e, op, lit);
      case Ident(name) => UserLeaf(e, name, op, lit);
      case _ => NoKey(e, key, op, lit);
    }
  }

  lemma NoKey(e: Entity, key: Token, op: Token, lit: Token)
    requires KeyOf(key).None?
    ensures LeafRight(e, key, op, lit)
  {
    LeafIs(key, op, lit);
    hide Meaning;
  }

  // ── Whole expressions ────────────────────────────────────────────────

  /** All parts fit together. */
  ghost predicate Fits(x: Expr) {
    match x
    case Leaf(key, op, lit) => Accepts(key, op, lit)
    case Member(key, _, lits) => lits != [] && forall i :: 0 <= i < |lits| ==> Accepts(key, EqTok, lits[i])
    case Both(l, r) => Fits(l) && Fits(r)
    case Either(l, r) => Fits(l) && Fits(r)
    case Negation(i) => Fits(i)
  }

  /** What the expression asks of an entity. */
  ghost predicate Meets(e: Entity, x: Expr) {
    match x
    case Leaf(key, op, lit) => Holds(e, key, op, lit)
    case Member(key, negated, lits) => negated <==> !exists i :: 0 <= i < |lits| && Holds(e, key, EqTok, lits[i])
    case Both(l, r) => Meets(e, l) && Meets(e, r)
    case Either(l, r) => Meets(e, l) || Meets(e, r)
    case Negation(i) => !Meets(e, i)
  }

  predicate SizedAll(e: Entity, x: Expr) {
    match x
    case Leaf(_, _, lit) => Sized(e, lit)
    case Member(_, _, lits) => e.expiresAt < U64 && e.createdAt < U64 && forall i :: 0 <= i < |lits| ==> Sized(e, lits[i])
    case Both(l, r) => SizedAll(e, l) && SizedAll(e, r)
    case Either(l, r) => SizedAll(e, l) && SizedAll(e, r)
    case Negation(i) => SizedAll(e, i)
  }

  lemma RightParts(e: Entity, key: Token, op: Token, lit: Token)
    requires LeafRight(e, key, op, lit)
    ensures Meaning(Leaf(key, op, lit)).Some? <==> Accepts(key, op, lit)
    ensures var q := Meaning(Leaf(key, op, lit)); q.Some? ==> (Satisfies(e, q.value) <==> Holds(e, key, op, lit))
  {
    hide Meaning, Accepts, Satisfies, Holds;
  }

  /** One literal of a list asks what an equation asks. */
  lemma ListedLeaf(e: Entity, key: Token, lit: Token)
    requires Sized(e, lit)
    ensures Accepts(key, EqTok, lit) <==> KeyOf(key).Some? && ValueOf(KeyOf(key).value, lit).Some?
    ensures Accepts(key, EqTok, lit) ==> (Holds(e, key, EqTok, lit) <==> HasValue(e, KeyOf(key).value, ValueOf(KeyOf(key).value, lit).value))
  {
    OneOp(EqTok);
    hide *;
    LeafExact(e, key, EqTok, lit);
    RightParts(e, key, EqTok, lit);
    LeafIs(key, EqTok, lit);
    if KeyOf(key).Some? && ValueOf(KeyOf(key).value, lit).Some? {
      CompareIs(e, EqTok, KeyOf(key).value, ValueOf(KeyOf(key).value, lit).value);
    }
  }

  lemma {:induction false} AllValues(k: AnnotKey, lits: seq<Token>)
    ensures Values(k, lits).Some? <==> forall i :: 0 <= i < |lits| ==> ValueOf(k, lits[i]).Some?
  {
    if lits != [] {
      var n := |lits| - 1;
      AllValues(k, lits[..n]);
      hide ValueOf;
      assert forall i :: 0 <= i < n ==> lits[..n][i] == lits[i];
    }
  }

  lemma MemberIs(key: Token, negated: bool, lits: seq<Token>)
    ensures KeyOf(key).None? || lits == [] ==> Meaning(Member(key, negated, lits)).None?
    ensures KeyOf(key).Some? && lits != [] ==>
      var vs := Values(KeyOf(key).value, lits);
      Meaning(Member(key, negated, lits)) ==
        if vs.None? then None
        else Some(if negated then NotIn(KeyOf(key).value, vs.value) else In(KeyOf(key).value, vs.value))
  {
    hide Values, KeyOf;
  }

  lemma InIs(e: Entity, k: AnnotKey, vs: seq<Key>)
    ensures Satisfies(e, In(k, vs)) <==> exists i :: 0 <= i < |vs| && HasValue(e, k, vs[i])
    ensures Satisfies(e, NotIn(k, vs)) <==> !exists i :: 0 <= i < |vs| && HasValue(e, k, vs[i])
  {
    hide HasValue;
    if i :| 0 <= i < |vs| && HasValue(e, k, vs[i]) { assert vs[i] in vs; }
  }

  lemma MemberExact(e: Entity, key: Token, negated: bool, lits: seq<Token>)
    requires forall i :: 0 <= i < |lits| ==> Sized(e, lits[i])
    ensures var x := Member(key, negated, lits);
      && (Meaning(x).Some? <==> Fits(x)) && (Meaning(x).Some? ==> (Satisfies(e, Meaning(x).value) <==> Meets(e, x)))
  {
    hide Meaning, Satisfies, HasValue, ValueOf, Values, Accepts, Holds, KeyOf, Sized;
    MemberIs(key, negated, lits);
    forall i | 0 <= i < |lits|
      ensures Accepts(key, EqTok, lits[i]) <==> KeyOf(key).Some? && ValueOf(KeyOf(key).value, lits[i]).Some?
      ensures Accepts(key, EqTok, lits[i]) ==>
        (Holds(e, key, EqTok, lits[i]) <==> HasValue(e, KeyOf(key).value, ValueOf(KeyOf(key).value, lits[i]).value))
    {
      ListedLeaf(e, key, lits[i]);
    }
    if lits != [] { assert Accepts(key, EqTok, lits[0]) ==> KeyOf(key).Some?; }
    if KeyOf(key).Some? {
      var k := KeyOf(key).value;
      AllValues(k, lits);
      if Values(k, lits).Some? {
        var vs := Values(k, lits).value;
        ValuesIn(k, lits);
        InIs(e, k, vs);
        assert forall i :: 0 <= i < |lits| ==> ValueOf(k, lits[i]) == Some(vs[i]) && Accepts(key, EqTok, lits[i]);
        assert forall i :: 0 <= i < |lits| ==> (Holds(e, key, EqTok, lits[i]) <==> HasValue(e, k, vs[i]));
      }
    }
  }

  /** The parser gives an expression a meaning exactly if its parts fit together,
      and that meaning asks exactly what the expression says. */
  lemma {:induction false} ExprExact(e: Entity, x: Expr)
    requires SizedAll(e, x)
    ensures Meaning(x).Some? <==> Fits(x)
    ensures Meaning(x).Some? ==> (Satisfies(e, Meaning(x).value) <==> Meets(e, x))
  {
    match x {
      case Leaf(key, op, lit) =>
        hide *;
        LeafOnly(e, key, op, lit);
        LeafExact(e, key, op, lit);
        RightParts(e, key, op, lit);
      case Member(key, negated, lits) => MemberExact(e, key, negated, lits);
      case Both(l, r) =>
        ExprExact(e, l);
        ExprExact(e, r);
      case Either(l, r) =>
        ExprExact(e, l);
        ExprExact(e, r);
      case Negation(i) => ExprExact(e, i);
    }
  }

  lemma LeafOnly(e: Entity, key: Token, op: Token, lit: Token)
    ensures var x := Leaf(key, op, lit);
      (Fits(x) <==> Accepts(key, op, lit)) && (Meets(e, x) <==> Holds(e, key, op, lit)) && (SizedAll(e, x) <==> Sized(e, lit))
  {
    hide Accepts, Holds;
  }

  // ── Token lists ──────────────────────────────────────────────────────

  predicate ReadsLeaf(ts: seq<Token>, x: Expr) {
    || (x.Leaf? && ts == [x.key, x.op, x.lit])
    || (x.Member? && ts == (if x.negated then [x.key, NotTok, InTok] else [x.key, InTok]) + ([LParen] + x.lits + [RParen]))
  }

  /** Parentheses bind first, then NOT, then AND, then OR. */
  ghost predicate ReadsTerm(ts: seq<Token>, x: Expr)
    decreases |ts|, 0
  {
    || (|ts| >= 2 && ts[0] == LParen && ts[|ts| - 1] == RParen && ReadsOr(ts[1..|ts| - 1], x))
    || (|ts| >= 3 && ts[0] == NotTok && ts[1] == LParen && ts[|ts| - 1] == RParen && x.Negation? && ReadsOr(ts[2..|ts| - 1], x.inner))
    || ReadsLeaf(ts, x)
  }

  ghost predicate ReadsAnd(ts: seq<Token>, x: Expr)
    decreases |ts|, 1
  {
    || ReadsTerm(ts, x)
    || (x.Both? && exists i :: 0 <= i < |ts| && ts[i] == AndTok && ReadsAnd(ts[..i], x.left) && ReadsTerm(ts[i + 1..], x.right))
  }

  /** The tokens are this expression, with any parentheses around its parts. */
  ghost predicate ReadsOr(ts: seq<Token>, x: Expr)
    decreases |ts|, 2
  {
    || ReadsAnd(ts, x)
    || (x.Either? && exists i :: 0 <= i < |ts| && ts[i] == OrTok && ReadsOr(ts[..i], x.left) && ReadsAnd(ts[i + 1..], x.right))
  }

  lemma {:induction false} ValuesFrom(k: AnnotKey, lits: seq<Token>, vs: seq<Key>)
    requires |lits| == |vs| && forall j :: 0 <= j < |lits| ==> ValueOf(k, lits[j]) == Some(vs[j])
    ensures Values(k, lits) == Some(vs)
  {
    if lits != [] {
      hide ValueOf;
      var n := |lits| - 1;
      ValuesFrom(k, lits[..n], vs[..n]);
      assert vs == vs[..n] + [vs[n]];
    }
  }

  lemma ListLits(k: AnnotKey, ts: seq<Token>, vs: seq<Key>) returns (lits: seq<Token>)
    requires IsList(k, ts, vs)
    ensures lits != [] && ts == [LParen] + lits + [RParen] && Values(k, lits) == Some(vs)
  {
    hide ValueOf;
    lits := ts[1..|ts| - 1];
    assert forall j :: 0 <= j < |lits| ==> lits[j] == ts[j + 1];
    ValuesFrom(k, lits, vs);
    assert ts == [ts[0]] + lits + [ts[|ts| - 1]];
  }

  lemma PredicateRead(ts: seq<Token>, q: Query) returns (x: Expr)
    requires DerivesPredicate(ts, q)
    ensures ReadsLeaf(ts, x) && Meaning(x) == Some(q)
  {
    PredicateCases(ts, q);
    hide ValueOf, GlobPrefix, IsList, Values, KeyOf, Compare, GlobKey;
    var k := KeyOf(ts[0]).value;
    if ts[1] == InTok || ts[1] == NotTok {
      var from := if ts[1] == InTok then 2 else 3;
      var lits := ListLits(k, ts[from..], q.values);
      x := Member(ts[0], ts[1] == NotTok, lits);
      MemberIs(ts[0], ts[1] == NotTok, lits);
      assert ts == ts[..from] + ts[from..];
    } else {
      x := Leaf(ts[0], ts[1], ts[2]);
    }
  }

  lemma {:induction false} TermRead(ts: seq<Token>, q: Query) returns (x: Expr)
    requires DerivesTerm(ts, q)
    ensures ReadsTerm(ts, x) && Meaning(x) == Some(q)
    decreases |ts|, 0
  {
    hide DerivesOr, DerivesPredicate, ReadsOr, ReadsLeaf;
    if |ts| >= 2 && ts[0] == LParen && ts[|ts| - 1] == RParen && DerivesOr(ts[1..|ts| - 1], q) {
      x := OrRead(ts[1..|ts| - 1], q);
    } else if |ts| >= 3 && ts[0] == NotTok && ts[1] == LParen && ts[|ts| - 1] == RParen && q.Not? && DerivesOr(ts[2..|ts| - 1], q.inner) {
      var y := OrRead(ts[2..|ts| - 1], q.inner);
      x := Negation(y);
    } else {
      x := PredicateRead(ts, q);
    }
  }

  lemma {:induction false} AndRead(ts: seq<Token>, q: Query) returns (x: Expr)
    requires DerivesAnd(ts, q)
    ensures ReadsAnd(ts, x) && Meaning(x) == Some(q)
    decreases |ts|, 1
  {
    hide DerivesTerm, DerivesAnd, ReadsTerm;
    if DerivesTerm(ts, q) {
      x := TermRead(ts, q);
    } else {
      var i := AndSplit(ts, q);
      var l := AndRead(ts[..i], q.left);
      var r := TermRead(ts[i + 1..], q.right);
      x := Both(l, r);
      assert ts[i] == AndTok && ReadsAnd(ts[..i], x.left) && ReadsTerm(ts[i + 1..], x.right);
    }
  }

  lemma {:induction false} OrRead(ts: seq<Token>, q: Query) returns (x: Expr)
    requires DerivesOr(ts, q)
    ensures ReadsOr(ts, x) && Meaning(x) == Some(q)
    decreases |ts|, 2
  {
    hide DerivesAnd, DerivesOr, ReadsAnd;
    if DerivesAnd(ts, q) {
      x := AndRead(ts, q);
    } else {
      var i := OrSplit(ts, q);
      var l := OrRead(ts[..i], q.left);
      var r := AndRead(ts[i + 1..], q.right);
      x := Either(l, r);
      assert ts[i] == OrTok && ReadsOr(ts[..i], x.left) && ReadsAnd(ts[i + 1..], x.right);
    }
  }

  lemma {:induction false} TermDerived(ts: seq<Token>, x: Expr)
    requires ReadsTerm(ts, x) && Meaning(x).Some?
    ensures DerivesTerm(ts, Meaning(x).value)
    decreases |ts|, 0
  {
    hide DerivesOr, DerivesPredicate, ReadsOr;
    if |ts| >= 2 && ts[0] == LParen && ts[|ts| - 1] == RParen && ReadsOr(ts[1..|ts| - 1], x) {
      OrDerived(ts[1..|ts| - 1], x);
    } else if |ts| >= 3 && ts[0] == NotTok && ts[1] == LParen && ts[|ts| - 1] == RParen && x.Negation? && ReadsOr(ts[2..|ts| - 1], x.inner) {
      OrDerived(ts[2..|ts| - 1], x.inner);
    } else {
      LeafTokens(ts, x);
      LeafDerives(x);
      hide Meaning;
    }
  }

  lemma LeafTokens(ts: seq<Token>, x: Expr)
    requires ReadsLeaf(ts, x)
    ensures (x.Leaf? || x.Member?) && ts == TermTokens(x)
  {}

  lemma {:induction false} AndDerived(ts: seq<Token>, x: Expr)
    requires ReadsAnd(ts, x) && Meaning(x).Some?
    ensures DerivesAnd(ts, Meaning(x).value)
    decreases |ts|, 1
  {
    hide DerivesTerm, ReadsTerm;
    if ReadsTerm(ts, x) {
      TermDerived(ts, x);
    } else {
      var i :| 0 <= i < |ts| && ts[i] == AndTok && ReadsAnd(ts[..i], x.left) && ReadsTerm(ts[i + 1..], x.right);
      AndDerived(ts[..i], x.left);
      TermDerived(ts[i + 1..], x.right);
    }
  }

  lemma {:induction false} OrDerived(ts: seq<Token>, x: Expr)
    requires ReadsOr(ts, x) && Meaning(x).Some?
    ensures DerivesOr(ts, Meaning(x).value)
    decreases |ts|, 2
  {
    hide DerivesAnd, ReadsAnd;
    if ReadsAnd(ts, x) {
      AndDerived(ts, x);
    } else {
      var i :| 0 <= i < |ts| && ts[i] == OrTok && ReadsOr(ts[..i], x.left) && ReadsAnd(ts[i + 1..], x.right);
      OrDerived(ts[..i], x.left);
      AndDerived(ts[i + 1..], x.right);
    }
  }

  /** The tokens are `*` or `$all`, or an expression with this meaning. */
  ghost predicate ReadsAs(ts: seq<Token>, q: Query) {
    ((ts == [Star] || ts == [DollarAll]) && q == All) || exists x :: ReadsOr(ts, x) && Meaning(x) == Some(q)
  }

  /** The parser accepts exactly the whole-set selectors and the lists of tokens
      that read as an expression whose parts fit; and it gives its meaning. */
  lemma ReadExact(ts: seq<Token>, q: Query)
    ensures ParseTopLevel(ts) == Some(q) <==> ReadsAs(ts, q)
  {
    hide ParseTopLevel, Derives, DerivesOr, ReadsOr, Meaning;
    ParserExact(ts, q);
    DerivesIs(ts, q);
    if DerivesOr(ts, q) { var x := OrRead(ts, q); }
    if x :| ReadsOr(ts, x) && Meaning(x) == Some(q) { OrDerived(ts, x); }
  }

  lemma ReadsBy(ts: seq<Token>, x: Expr, q: Query)
    requires ReadsOr(ts, x) && Meaning(x) == Some(q)
    ensures ReadsAs(ts, q)
  {
    hide ReadsOr, Meaning;
  }

  lemma DerivesIs(ts: seq<Token>, q: Query)
    ensures Derives(ts, q) <==> ((ts == [Star] || ts == [DollarAll]) && q == All) || DerivesOr(ts, q)
  {
    hide DerivesOr;
  }
}
