/** Printing an expression as text, and getting the same query back. */
module Printer {
  import opened Options
  import opened Bytes
  import opened Accounts
  import opened Operations
  import opened Query
  import opened Lexer
  import opened Parser
  import opened Grammar

  // ── Expressions ──────────────────────────────────────────────────────

  /** Keys, operators and literals are kept as the tokens they are written as. */
  datatype Expr =
    | Leaf(key: Token, op: Token, lit: Token)
    | Member(key: Token, negated: bool, lits: seq<Token>)
    | Both(left: Expr, right: Expr)
    | Either(left: Expr, right: Expr)
    | Negation(inner: Expr)

  function Values(k: AnnotKey, lits: seq<Token>): Option<seq<Key>> {
    if lits == [] then Some([])
    else
      match ValueOf(k, lits[|lits| - 1])
      case None => None
      case Some(v) =>
        match Values(k, lits[..|lits| - 1])
        case None => None
        case Some(vs) => Some(vs + [v])
  }

  /** The query an expression stands for, if its parts fit together. */
  function Meaning(e: Expr): Option<Query> {
    match e
    case Leaf(kt, op, lit) =>
      if KeyOf(kt).None? then None
      else
        var k := KeyOf(kt).value;
        if Comparing(op) then
          if ValueOf(k, lit).None? || (Ranged(op) && (lit.AddressTok? || lit.EntityKeyTok?)) then None
          else Some(Compare(op, k, ValueOf(k, lit).value))
        else if Globbing(op) then
          if !GlobKey(k) || !lit.StringLit? || GlobPrefix(lit.text).None? then None
          else if op == Tilde then Some(Glob(k, GlobPrefix(lit.text).value)) else Some(NotGlob(k, GlobPrefix(lit.text).value))
        else None
    case Member(kt, negated, lits) =>
      if KeyOf(kt).None? || lits == [] || Values(KeyOf(kt).value, lits).None? then None
      else
        var k, vs := KeyOf(kt).value, Values(KeyOf(kt).value, lits).value;
        Some(if negated then NotIn(k, vs) else In(k, vs))
    case Both(l, r) =>
      if Meaning(l).None? || Meaning(r).None? then None else Some(And(Meaning(l).value, Meaning(r).value))
    case Either(l, r) =>
      if Meaning(l).None? || Meaning(r).None? then None else Some(Or(Meaning(l).value, Meaning(r).value))
    case Negation(i) =>
      if Meaning(i).None? then None else Some(Not(Meaning(i).value))
  }

  // ── Tokens, with parentheses only where the grammar needs them ───────

  function OrTokens(e: Expr): seq<Token>
    decreases e, 2
  {
    if e.Either? then OrTokens(e.left) + [OrTok] + AndTokens(e.right) else AndTokens(e)
  }

  function AndTokens(e: Expr): seq<Token>
    decreases e, 1
  {
    if e.Both? then AndTokens(e.left) + [AndTok] + TermTokens(e.right) else TermTokens(e)
  }

  function TermTokens(e: Expr): seq<Token>
    decreases e, 0
  {
    match e
    case Leaf(k, op, lit) => [k, op, lit]
    case Member(k, negated, lits) => (if negated then [k, NotTok, InTok] else [k, InTok]) + ([LParen] + lits + [RParen])
    case Negation(i) => [NotTok, LParen] + OrTokens(i) + [RParen]
    case Both(l, r) => [LParen] + (AndTokens(l) + [AndTok] + TermTokens(r)) + [RParen]
    case Either(l, r) => [LParen] + (OrTokens(l) + [OrTok] + AndTokens(r)) + [RParen]
  }

  lemma {:induction false} ValuesIn(k: AnnotKey, lits: seq<Token>)
    requires Values(k, lits).Some?
    ensures var vs := Values(k, lits).value;
      |vs| == |lits| && forall j :: 0 <= j < |lits| ==> ValueOf(k, lits[j]) == Some(vs[j])
  {
    if lits != [] {
      hide ValueOf;
      ValuesIn(k, lits[..|lits| - 1]);
    }
  }

  lemma ListTokens(k: AnnotKey, lits: seq<Token>)
    requires lits != [] && Values(k, lits).Some?
    ensures IsList(k, [LParen] + lits + [RParen], Values(k, lits).value)
  {
    hide ValueOf;
    ValuesIn(k, lits);
    var ts := [LParen] + lits + [RParen];
    forall j | 0 <= j < |lits| ensures ts[j + 1] == lits[j] {}
  }

  lemma LeafDerives(e: Expr)
    requires (e.Leaf? || e.Member?) && Meaning(e).Some?
    ensures DerivesPredicate(TermTokens(e), Meaning(e).value)
  {
    hide ValueOf, GlobPrefix, IsList, Values;
    if e.Member? {
      var k, list := KeyOf(e.key).value, [LParen] + e.lits + [RParen];
      ListTokens(k, e.lits);
      ListLength(k, list, Values(k, e.lits).value);
      var ts := TermTokens(e);
      if e.negated { assert ts[3..] == list; } else { assert ts[2..] == list; }
    }
  }

  lemma ParensDerive(ts: seq<Token>, q: Query)
    requires DerivesOr(ts, q)
    ensures DerivesTerm([LParen] + ts + [RParen], q)
    ensures DerivesTerm([NotTok, LParen] + ts + [RParen], Not(q))
  {
    hide DerivesOr;
    assert ([LParen] + ts + [RParen])[1..|ts| + 1] == ts;
    assert ([NotTok, LParen] + ts + [RParen])[2..|ts| + 2] == ts;
  }

  lemma Lift(ts: seq<Token>, q: Query)
    ensures DerivesTerm(ts, q) ==> DerivesAnd(ts, q)
    ensures DerivesAnd(ts, q) ==> DerivesOr(ts, q)
  {
    hide DerivesTerm;
  }

  /** Each printed form derives the meaning of its expression. */
  lemma {:induction false} PrintedDerives(e: Expr)
    requires Meaning(e).Some?
    ensures DerivesTerm(TermTokens(e), Meaning(e).value)
    ensures DerivesAnd(AndTokens(e), Meaning(e).value)
    ensures DerivesOr(OrTokens(e), Meaning(e).value)
    decreases e
  {
    hide DerivesTerm, DerivesAnd, DerivesOr, DerivesPredicate;
    match e {
      case Both(l, r) =>
        PrintedDerives(l);
        PrintedDerives(r);
        AndJoin(AndTokens(l), Meaning(l).value, TermTokens(r), Meaning(r).value);
        Lift(AndTokens(e), Meaning(e).value);
        ParensDerive(AndTokens(e), Meaning(e).value);
      case Either(l, r) =>
        PrintedDerives(l);
        PrintedDerives(r);
        OrJoin(OrTokens(l), Meaning(l).value, AndTokens(r), Meaning(r).value);
        ParensDerive(OrTokens(e), Meaning(e).value);
        Lift(TermTokens(e), Meaning(e).value);
      case Negation(i) =>
        PrintedDerives(i);
        ParensDerive(OrTokens(i), Meaning(i).value);
        Lift(TermTokens(e), Meaning(e).value);
      case _ =>
        LeafDerives(e);
        PredicateTerm(TermTokens(e), Meaning(e).value);
        Lift(TermTokens(e), Meaning(e).value);
    }
  }

  // ── No shorter way to write it ───────────────────────────────────────

  /** The fewest tokens that derive a query as a disjunction, as a conjunction
      and as a term. */
  function OrLength(q: Query): nat
    decreases q, 2
  {
    if q.Or? then OrLength(q.left) + 1 + AndLength(q.right) else AndLength(q)
  }

  function AndLength(q: Query): nat
    decreases q, 1
  {
    if q.And? then AndLength(q.left) + 1 + TermLength(q.right) else TermLength(q)
  }

  function TermLength(q: Query): nat
    decreases q, 0
  {
    match q
    case And(l, r) => 2 + (AndLength(l) + 1 + TermLength(r))
    case Or(l, r) => 2 + (OrLength(l) + 1 + AndLength(r))
    case Not(i) => 3 + OrLength(i)
    case In(_, vs) => |vs| + 4
    case NotIn(_, vs) => |vs| + 5
    case _ => 3
  }

  lemma LengthOrder(q: Query)
    ensures OrLength(q) <= AndLength(q) <= TermLength(q) <= OrLength(q) + 2
  {}

  lemma PredicateLength(ts: seq<Token>, q: Query)
    requires DerivesPredicate(ts, q)
    ensures |ts| == TermLength(q)
  {
    PredicateCases(ts, q);
    hide DerivesPredicate, ValueOf, GlobPrefix, KeyOf;
    if ts[1] == InTok {
      ListLength(KeyOf(ts[0]).value, ts[2..], q.values);
    } else if ts[1] == NotTok {
      ListLength(KeyOf(ts[0]).value, ts[3..], q.values);
    }
  }

  lemma {:induction false} TermShortest(ts: seq<Token>, q: Query)
    requires DerivesTerm(ts, q)
    ensures |ts| >= TermLength(q)
    decreases |ts|, 0
  {
    hide DerivesOr, DerivesPredicate;
    LengthOrder(q);
    if |ts| >= 2 && ts[0] == LParen && ts[|ts| - 1] == RParen && DerivesOr(ts[1..|ts| - 1], q) {
      OrShortest(ts[1..|ts| - 1], q);
    } else if |ts| >= 3 && ts[0] == NotTok && ts[1] == LParen && ts[|ts| - 1] == RParen && q.Not? && DerivesOr(ts[2..|ts| - 1], q.inner) {
      OrShortest(ts[2..|ts| - 1], q.inner);
    } else {
      PredicateLength(ts, q);
    }
  }

  lemma {:induction false} AndShortest(ts: seq<Token>, q: Query)
    requires DerivesAnd(ts, q)
    ensures |ts| >= AndLength(q)
    decreases |ts|, 1
  {
    hide DerivesTerm, DerivesAnd;
    LengthOrder(q);
    if DerivesTerm(ts, q) {
      TermShortest(ts, q);
    } else {
      var i := AndSplit(ts, q);
      AndShortest(ts[..i], q.left);
      TermShortest(ts[i + 1..], q.right);
    }
  }

  lemma {:induction false} OrShortest(ts: seq<Token>, q: Query)
    requires DerivesOr(ts, q)
    ensures |ts| >= OrLength(q)
    decreases |ts|, 2
  {
    hide DerivesAnd, DerivesOr;
    LengthOrder(q);
    if DerivesAnd(ts, q) {
      AndShortest(ts, q);
    } else {
      var i := OrSplit(ts, q);
      OrShortest(ts[..i], q.left);
      AndShortest(ts[i + 1..], q.right);
    }
  }

  /** What is printed has that length. */
  lemma {:induction false} PrintedLength(e: Expr)
    requires Meaning(e).Some?
    ensures |OrTokens(e)| == OrLength(Meaning(e).value) && |AndTokens(e)| == AndLength(Meaning(e).value)
    ensures |TermTokens(e)| == TermLength(Meaning(e).value) && Meaning(e).value != All
    decreases e
  {
    hide *;
    LeafLength(e);
    if e.Both? {
      BothMeans(e);
      PrintedLength(e.left);
      PrintedLength(e.right);
    } else if e.Either? {
      EitherMeans(e);
      PrintedLength(e.left);
      PrintedLength(e.right);
    } else if e.Negation? {
      NegationMeans(e);
      PrintedLength(e.inner);
    }
  }

  lemma BothMeans(e: Expr)
    requires e.Both? && Meaning(e).Some?
    ensures Meaning(e.left).Some? && Meaning(e.right).Some? && Meaning(e).value == And(Meaning(e.left).value, Meaning(e.right).value)
    ensures var n, q := |AndTokens(e.left)| + 1 + |TermTokens(e.right)|, Meaning(e).value;
      && |OrTokens(e)| == |AndTokens(e)| == n && |TermTokens(e)| == n + 2
      && OrLength(q) == AndLength(q) == AndLength(q.left) + 1 + TermLength(q.right) && TermLength(q) == AndLength(q) + 2
  {
    hide KeyOf, ValueOf, GlobPrefix, Values, GlobKey, Compare;
    AndLengths(Meaning(e).value);
    BothTokens(e);
  }

  lemma BothTokens(e: Expr)
    requires e.Both?
    ensures var n := |AndTokens(e.left)| + 1 + |TermTokens(e.right)|; |OrTokens(e)| == |AndTokens(e)| == n && |TermTokens(e)| == n + 2
  {
    assert AndTokens(e) == AndTokens(e.left) + [AndTok] + TermTokens(e.right);
    assert TermTokens(e) == [LParen] + (AndTokens(e.left) + [AndTok] + TermTokens(e.right)) + [RParen];
  }

  lemma AndLengths(q: Query)
    requires q.And?
    ensures OrLength(q) == AndLength(q) == AndLength(q.left) + 1 + TermLength(q.right) && TermLength(q) == AndLength(q) + 2
  {}

  lemma EitherMeans(e: Expr)
    requires e.Either? && Meaning(e).Some?
    ensures Meaning(e.left).Some? && Meaning(e.right).Some? && Meaning(e).value == Or(Meaning(e.left).value, Meaning(e.right).value)
    ensures var n, q := |OrTokens(e.left)| + 1 + |AndTokens(e.right)|, Meaning(e).value;
      && |OrTokens(e)| == n && |AndTokens(e)| == |TermTokens(e)| == n + 2
      && OrLength(q) == OrLength(q.left) + 1 + AndLength(q.right) && AndLength(q) == TermLength(q) == OrLength(q) + 2
  {
    hide KeyOf, ValueOf, GlobPrefix, Values, GlobKey, Compare;
    OrLengths(Meaning(e).value);
    EitherTokens(e);
  }

  lemma EitherTokens(e: Expr)
    requires e.Either?
    ensures var n := |OrTokens(e.left)| + 1 + |AndTokens(e.right)|; |OrTokens(e)| == n && |AndTokens(e)| == |TermTokens(e)| == n + 2
  {
    assert OrTokens(e) == OrTokens(e.left) + [OrTok] + AndTokens(e.right);
    assert TermTokens(e) == [LParen] + (OrTokens(e.left) + [OrTok] + AndTokens(e.right)) + [RParen];
  }

  lemma OrLengths(q: Query)
    requires q.Or?
    ensures OrLength(q) == OrLength(q.left) + 1 + AndLength(q.right) && AndLength(q) == TermLength(q) == OrLength(q) + 2
  {}

  lemma NegationMeans(e: Expr)
    requires e.Negation? && Meaning(e).Some?
    ensures Meaning(e.inner).Some? && Meaning(e).value == Not(Meaning(e.inner).value)
    ensures |OrTokens(e)| == |AndTokens(e)| == |TermTokens(e)| == |OrTokens(e.inner)| + 3
    ensures var q := Meaning(e).value; OrLength(q) == AndLength(q) == TermLength(q) == OrLength(q.inner) + 3
  {
    assert TermTokens(e) == [NotTok, LParen] + OrTokens(e.inner) + [RParen];
    assert OrTokens(e) == AndTokens(e) == TermTokens(e);
  }

  lemma LeafLength(e: Expr)
    requires Meaning(e).Some?
    ensures e.Leaf? || e.Member? ==> |TermTokens(e)| == TermLength(Meaning(e).value) && OrTokens(e) == AndTokens(e) == TermTokens(e)
    ensures e.Leaf? || e.Member? ==> OrLength(Meaning(e).value) == AndLength(Meaning(e).value) == TermLength(Meaning(e).value)
    ensures !Meaning(e).value.All?
  {
    if e.Leaf? || e.Member? {
      LeafDerives(e);
      PredicateLength(TermTokens(e), Meaning(e).value);
    }
    hide KeyOf, ValueOf, GlobPrefix, Values, GlobKey, DerivesPredicate;
  }

  /** Printing to tokens and parsing is the identity on meanings, and no shorter
      token list parses to the same query: no printed pair of parentheses can be
      done without. */
  lemma ParsePrinted(e: Expr)
    requires Meaning(e).Some?
    ensures ParseTopLevel(OrTokens(e)) == Meaning(e)
    ensures forall ts :: ParseTopLevel(ts) == Meaning(e) ==> |OrTokens(e)| <= |ts|
  {
    hide DerivesOr, ParseTopLevel;
    PrintedDerives(e);
    PrintedLength(e);
    ParserExact(OrTokens(e), Meaning(e).value);
    forall ts | ParseTopLevel(ts) == Meaning(e) ensures |OrTokens(e)| <= |ts| {
      ParserExact(ts, Meaning(e).value);
      OrShortest(ts, Meaning(e).value);
    }
  }

  // ── Text ─────────────────────────────────────────────────────────────

  function DigitChar(n: nat): char
    requires n < 16
  {
    if n < 10 then ('0' as int + n) as char else ('a' as int + n - 10) as char
  }

  function DecimalText(n: nat): (s: string)
    ensures s != []
  {
    if n < 10 then [DigitChar(n)] else DecimalText(n / 10) + [DigitChar(n % 10)]
  }

  function HexText(b: Key): (s: string)
    ensures |s| == 2 * |b|
  {
    seq(2 * |b|, i requires 0 <= i < 2 * |b| => if i % 2 == 0 then DigitChar(b[i / 2] / 16) else DigitChar(b[i / 2] % 16))
  }

  function EscapeChar(c: char): string {
    if c == '"' then "\\\""
    else if c == '\\' then "\\\\"
    else if c == '\n' then "\\n"
    else if c == '\t' then "\\t"
    else if c == '\r' then "\\r"
    else [c]
  }

  function Escape(s: string): string {
    if s == [] then [] else EscapeChar(s[0]) + Escape(s[1..])
  }

  function TokenText(t: Token): string {
    match t
    case LParen => "("
    case RParen => ")"
    case AndTok => "AND"
    case OrTok => "OR"
    case EqTok => "="
    case NeqTok => "!="
    case NotTok => "NOT"
    case InTok => "IN"
    case Star => "*"
    case GtTok => ">"
    case GteTok => ">="
    case LtTok => "<"
    case LteTok => "<="
    case Tilde => "~"
    case NotTilde => "!~"
    case DollarAll => "$all"
    case DollarOwner => "$owner"
    case DollarCreator => "$creator"
    case DollarKey => "$key"
    case DollarExpiration => "$expiration"
    case DollarContentType => "$contentType"
    case DollarCreatedAtBlock => "$createdAtBlock"
    case EntityKeyTok(b) => "0x" + HexText(b)
    case AddressTok(a) => "0x" + HexText(a)
    case StringLit(s) => "\"" + (Escape(s) + "\"")
    case Number(n) => DecimalText(n)
    case Ident(s) => s
  }

  /** Tokens a query text can contain. */
  predicate Writable(u: Unicode, t: Token) {
    match t
    case Number(n) => n <= U64_MAX
    case Ident(s) => s != [] && IdentStart(u, s[0]) && (forall i :: 0 <= i < |s| ==> IdentContinue(u, s[i])) && WordToken(s) == Ident(s)
    case _ => true
  }

  /** A space after every token. */
  function Write(ts: seq<Token>): string {
    if ts == [] then "" else TokenText(ts[0]) + (" " + Write(ts[1..]))
  }

  lemma {:induction false} SpanAll(s: string, tail: string, p: char -> bool)
    requires (forall i :: 0 <= i < |s| ==> p(s[i])) && (tail == [] || !p(tail[0]))
    ensures Span(s + tail, p) == |s|
  {
    if s == [] {
      assert s + tail == tail;
    } else {
      SpanAll(s[1..], tail, p);
      assert (s + tail)[1..] == s[1..] + tail;
    }
  }

  lemma DigitNibble(n: nat)
    requires n < 16
    ensures HexDigit(DigitChar(n)) && Nibble(DigitChar(n)) == n && (n < 10 ==> Digit(DigitChar(n)))
  {}

  lemma {:induction false} DecimalBack(n: nat)
    ensures Decimal(DecimalText(n)) == n && forall i :: 0 <= i < |DecimalText(n)| ==> Digit(DecimalText(n)[i])
    ensures |DecimalText(n)| > 1 ==> DecimalText(n)[0] != '0'
  {
    DigitNibble(n % 10);
    var s := DecimalText(n);
    if n < 10 {
      assert s[..0] == [];
    } else {
      DecimalBack(n / 10);
      assert s[..|s| - 1] == DecimalText(n / 10);
      if n / 10 < 10 { assert DecimalText(n / 10)[0] == DigitChar(n / 10); }
    }
  }

  lemma HexBack(b: Key)
    ensures HexBytes(HexText(b)) == b && forall i :: 0 <= i < 2 * |b| ==> HexDigit(HexText(b)[i])
  {
    var s := HexText(b);
    forall i | 0 <= i < |b| ensures HexBytes(s)[i] == b[i] {
      DigitNibble(b[i] / 16);
      DigitNibble(b[i] % 16);
      assert 2 * i / 2 == i && (2 * i + 1) / 2 == i;
    }
    forall i | 0 <= i < 2 * |b| ensures HexDigit(s[i]) {
      DigitNibble(b[i / 2] / 16);
      DigitNibble(b[i / 2] % 16);
    }
  }

  lemma {:induction false} EscapeBack(s: string, tail: string)
    ensures StringBody(Escape(s) + ("\"" + tail)) == Text(s, tail)
  {
    if s == [] {
      QuoteEnds(tail);
    } else {
      EscapeSplit(s, "\"" + tail);
      hide *;
      EscapeBack(s[1..], tail);
      EscapedStep(s[0], Escape(s[1..]) + ("\"" + tail));
      PrefixedText([s[0]], s[1..], tail);
      assert s == [s[0]] + s[1..];
    }
  }

  lemma QuoteEnds(tail: string)
    ensures StringBody("" + ("\"" + tail)) == Text([], tail)
  {
    assert ("" + ("\"" + tail))[1..] == tail;
  }

  lemma EscapeSplit(s: string, tail: string)
    requires s != []
    ensures Escape(s) + tail == EscapeChar(s[0]) + (Escape(s[1..]) + tail)
  {}

  lemma PrefixedText(p: string, t: string, rest: string)
    ensures Prefixed(p, Text(t, rest)) == Text(p + t, rest)
  {}

  lemma EscapedStep(c: char, rest: string)
    ensures StringBody(EscapeChar(c) + rest) == Prefixed([c], StringBody(rest))
  {
    var t := EscapeChar(c) + rest;
    if |EscapeChar(c)| == 2 {
      assert t[2..] == rest;
      assert t[0] == '\\' && Unescape(t[1]) == Some(c);
    } else {
      assert t[1..] == rest;
    }
  }

  // ── One token back ───────────────────────────────────────────────────

  lemma WordBack(u: Unicode, s: string, rest: string)
    requires Sane(u) && s != [] && IdentStart(u, s[0]) && forall i :: 0 <= i < |s| ==> IdentContinue(u, s[i])
    ensures NameToken(u, s + (" " + rest)) == Tok(WordToken(s), " " + rest)
  {
    hide WordToken;
    var all := s + (" " + rest);
    SpanAll(s, " " + rest, c => IdentContinue(u, c));
    assert IdentSpan(u, all) == |s| && all[..|s|] == s && all[|s|..] == " " + rest;
  }

  lemma NumberBack(n: nat, rest: string)
    requires n <= U64_MAX
    ensures NumberOrHexToken(DecimalText(n) + (" " + rest)) == Tok(Number(n), " " + rest)
  {
    DecimalBack(n);
    var s := DecimalText(n);
    hide Decimal, DecimalText;
    SpanAll(s, " " + rest, Digit);
    var all := s + (" " + rest);
    assert all[..|s|] == s && all[|s|..] == " " + rest;
  }

  lemma HexTokenBack(b: Key, rest: string)
    requires |b| == 20 || |b| == 32
    ensures HexToken(HexText(b) + (" " + rest)) ==
      if |b| == 20 then Tok(AddressTok(b), " " + rest) else Tok(EntityKeyTok(b), " " + rest)
  {
    HexBack(b);
    var s := HexText(b);
    hide HexText, HexBytes;
    SpanAll(s, " " + rest, HexDigit);
    var all := s + (" " + rest);
    assert all[..|s|] == s && all[|s|..] == " " + rest;
  }

  lemma QuoteBack(s: string, rest: string)
    ensures QuotedToken(TokenText(StringLit(s)) + (" " + rest)) == Tok(StringLit(s), " " + rest)
  {
    EscapeBack(s, " " + rest);
    hide StringBody, Escape;
    var all := TokenText(StringLit(s)) + (" " + rest);
    assert all[1..] == Escape(s) + ("\"" + (" " + rest));
  }

  lemma DollarBack(u: Unicode, name: string, rest: string)
    requires Sane(u) && forall i :: 0 <= i < |name| ==> AsciiLetter(name[i])
    ensures BuiltInToken(u, "$" + name + (" " + rest)) == DollarToken(name, " " + rest)
  {
    hide DollarToken;
    var all := "$" + name + (" " + rest);
    forall i | 0 <= i < |name| ensures IdentContinue(u, name[i]) { assert name[i] < 128 as char; }
    SpanAll(name, " " + rest, c => IdentContinue(u, c));
    assert all[1..] == name + (" " + rest);
    assert all[1..][..|name|] == name && all[1..][|name|..] == " " + rest;
  }

  lemma KeywordsBack()
    ensures WordToken("AND") == AndTok && WordToken("OR") == OrTok && WordToken("NOT") == NotTok && WordToken("IN") == InTok
  {
    assert EqIgnoreCase("AND", "and") && EqIgnoreCase("OR", "or") && EqIgnoreCase("NOT", "not") && EqIgnoreCase("IN", "in");
    assert Lower("NOT"[0]) == 'n' && Lower("and"[0]) == 'a';
    assert Lower("IN"[0]) == 'i' && Lower("or"[0]) == 'o';
  }

  lemma LetterWord(u: Unicode, s: string, rest: string)
    requires Sane(u) && s != [] && forall i :: 0 <= i < |s| ==> AsciiLetter(s[i])
    ensures Scan(u, s + (" " + rest)) == Tok(WordToken(s), " " + rest)
  {
    hide WordToken, NameToken;
    forall i | 0 <= i < |s| ensures IdentStart(u, s[i]) && IdentContinue(u, s[i]) { assert s[i] < 128 as char; }
    WordBack(u, s, rest);
    assert (s + (" " + rest))[0] == s[0];
  }

  /** A name never starts with a space, a digit, or an operator character. */
  lemma StartChar(u: Unicode, c: char)
    requires Sane(u) && IdentStart(u, c)
    ensures !Punctuation(c) && c != '"' && !Digit(c) && c != '$' && !u.space(c)
  {
    if c < 128 as char { assert u.letter(c) <==> AsciiLetter(c); }
  }

  lemma IdentBack(u: Unicode, s: string, rest: string)
    requires Sane(u) && Writable(u, Ident(s))
    ensures Scan(u, s + (" " + rest)) == Tok(Ident(s), " " + rest)
  {
    StartChar(u, s[0]);
    WordBack(u, s, rest);
    hide WordToken, NameToken;
    assert (s + (" " + rest))[0] == s[0];
  }

  lemma OperatorBack(t: Token, rest: string)
    requires t == LParen || t == RParen || t == Star || t == EqTok || t == NeqTok || t == GtTok || t == GteTok || t == LtTok
          || t == LteTok || t == Tilde || t == NotTilde
    ensures var s := TokenText(t) + (" " + rest); Punctuation(s[0]) && OperatorToken(s) == Tok(t, " " + rest)
  {
    var s := TokenText(t) + (" " + rest);
    assert s[|TokenText(t)|..] == " " + rest;
  }

  predicate IsDollar(t: Token) {
    t == DollarAll || t == DollarOwner || t == DollarCreator || t == DollarKey || t == DollarExpiration
    || t == DollarContentType || t == DollarCreatedAtBlock
  }

  function DollarName(t: Token): string
    requires IsDollar(t)
  {
    match t
    case DollarAll => "all"
    case DollarOwner => "owner"
    case DollarCreator => "creator"
    case DollarKey => "key"
    case DollarExpiration => "expiration"
    case DollarContentType => "contentType"
    case _ => "createdAtBlock"
  }

  lemma DollarNames()
    ensures |"all"| == |"key"| == 3 && "all" != "key" && |"owner"| == 5 && |"creator"| == 7
    ensures |"expiration"| == 10 && |"contentType"| == 11 && |"createdAtBlock"| == 14
  {
    assert "all"[0] != "key"[0];
  }

  lemma DollarLexed(t: Token, rest: string)
    requires IsDollar(t)
    ensures DollarToken(DollarName(t), rest) == Tok(t, rest)
  {
    DollarNames();
  }

  lemma DollarText(t: Token)
    requires IsDollar(t)
    ensures TokenText(t) == "$" + DollarName(t)
  {
    LongNames();
    ShortNames();
    hide TokenText, DollarName;
  }

  lemma LongNames()
    ensures TokenText(DollarExpiration) == "$" + DollarName(DollarExpiration)
    ensures TokenText(DollarContentType) == "$" + DollarName(DollarContentType)
    ensures TokenText(DollarCreatedAtBlock) == "$" + DollarName(DollarCreatedAtBlock)
  {}

  lemma ShortNames()
    ensures TokenText(DollarAll) == "$" + DollarName(DollarAll) && TokenText(DollarOwner) == "$" + DollarName(DollarOwner)
    ensures TokenText(DollarCreator) == "$" + DollarName(DollarCreator) && TokenText(DollarKey) == "$" + DollarName(DollarKey)
  {}

  lemma DollarLetters(t: Token)
    requires IsDollar(t)
    ensures forall i :: 0 <= i < |DollarName(t)| ==> AsciiLetter(DollarName(t)[i])
  {
    match t
    case DollarAll => case DollarOwner => case DollarCreator => case DollarKey =>
    case DollarExpiration => case DollarContentType => case _ =>
  }

  /** The text `s` scans to `t` and leaves the space. */
  ghost predicate ScansTo(u: Unicode, t: Token, rest: string) {
    var s := TokenText(t) + (" " + rest);
    Scan(u, s) == Tok(t, " " + rest) && s != [] && !u.space(s[0])
  }

  lemma KeywordScans(u: Unicode, t: Token, rest: string)
    requires Sane(u) && (t == AndTok || t == OrTok || t == NotTok || t == InTok)
    ensures ScansTo(u, t, rest)
  {
    KeywordsBack();
    LetterWord(u, TokenText(t), rest);
  }

  lemma DollarScans(u: Unicode, t: Token, rest: string)
    requires Sane(u) && IsDollar(t)
    ensures ScansTo(u, t, rest)
  {
    DollarText(t);
    DollarLexed(t, " " + rest);
    DollarLetters(t);
    DollarBack(u, DollarName(t), rest);
    hide BuiltInToken, DollarToken, DollarName, TokenText, IsDollar;
    var s := "$" + DollarName(t) + (" " + rest);
    assert s[0] == '$';
  }

  lemma IdentScans(u: Unicode, t: Token, rest: string)
    requires Sane(u) && t.Ident? && Writable(u, t)
    ensures ScansTo(u, t, rest)
  {
    StartChar(u, t.name[0]);
    IdentBack(u, t.name, rest);
    hide Scan;
    assert (t.name + (" " + rest))[0] == t.name[0];
  }

  lemma NumberScans(u: Unicode, t: Token, rest: string)
    requires Sane(u) && t.Number? && Writable(u, t)
    ensures ScansTo(u, t, rest)
  {
    NumberBack(t.n, rest);
    DecimalBack(t.n);
    hide NumberOrHexToken, Decimal, DecimalText;
    var s := DecimalText(t.n) + (" " + rest);
    assert Digit(s[0]);
  }

  lemma StringScans(u: Unicode, t: Token, rest: string)
    requires Sane(u) && t.StringLit?
    ensures ScansTo(u, t, rest)
  {
    QuoteBack(t.text, rest);
    hide QuotedToken, Escape;
    var s := TokenText(t) + (" " + rest);
    assert s[0] == '"';
  }

  lemma HexScan(u: Unicode, b: Key, rest: string)
    requires Sane(u)
    ensures var s := "0x" + HexText(b) + (" " + rest);
      Scan(u, s) == HexToken(HexText(b) + (" " + rest)) && !u.space(s[0])
  {
    HexText0x(b, rest);
    hide NumberOrHexToken, HexToken, HexText;
    var s := "0x" + HexText(b) + (" " + rest);
    assert s[0] == '0';
  }

  lemma HexScans(u: Unicode, t: Token, rest: string)
    requires Sane(u) && (t.EntityKeyTok? || t.AddressTok?)
    ensures ScansTo(u, t, rest)
  {
    hide Scan, HexToken, HexText, Sane;
    if t.EntityKeyTok? {
      HexTokenBack(t.key, rest);
      HexScan(u, t.key, rest);
    } else {
      HexTokenBack(t.addr, rest);
      HexScan(u, t.addr, rest);
    }
  }

  lemma OperatorScans(u: Unicode, t: Token, rest: string)
    requires Sane(u)
    requires t == LParen || t == RParen || t == Star || t == EqTok || t == NeqTok || t == GtTok || t == GteTok || t == LtTok
          || t == LteTok || t == Tilde || t == NotTilde
    ensures ScansTo(u, t, rest)
  {
    OperatorBack(t, rest);
    hide OperatorToken;
  }

  /** Every writable token, followed by a space, is read back. */
  lemma TokenBack(u: Unicode, t: Token, rest: string)
    requires Sane(u) && Writable(u, t)
    ensures ScansTo(u, t, rest)
  {
    hide Sane, Writable, ScansTo;
    if t == AndTok || t == OrTok || t == NotTok || t == InTok {
      KeywordScans(u, t, rest);
    } else if IsDollar(t) {
      DollarScans(u, t, rest);
    } else if t.Ident? {
      IdentScans(u, t, rest);
    } else if t.Number? {
      NumberScans(u, t, rest);
    } else if t.StringLit? {
      StringScans(u, t, rest);
    } else if t.EntityKeyTok? || t.AddressTok? {
      HexScans(u, t, rest);
    } else {
      OperatorScans(u, t, rest);
    }
  }

  lemma HexText0x(b: Key, rest: string)
    ensures NumberOrHexToken("0x" + HexText(b) + (" " + rest)) == HexToken(HexText(b) + (" " + rest))
  {
    hide HexToken, HexText;
    assert ("0x" + HexText(b) + (" " + rest))[2..] == HexText(b) + (" " + rest);
  }

  lemma SkipOneSpace(u: Unicode, s: string)
    requires Sane(u)
    ensures Next(u, " " + s) == Next(u, s)
  {
    hide Scan;
    assert (" " + s)[1..] == s;
    assert (" " + s)[1 + Span(s, u.space)..] == s[Span(s, u.space)..];
  }

  lemma NextBack(u: Unicode, t: Token, rest: string)
    requires Sane(u) && Writable(u, t)
    ensures Next(u, TokenText(t) + (" " + rest)) == Tok(t, " " + rest)
  {
    TokenBack(u, t, rest);
    var s := TokenText(t) + (" " + rest);
    hide Scan, TokenText, Writable;
    assert s[0..] == s;
  }

  lemma WrittenStep(u: Unicode, ts: seq<Token>)
    requires Sane(u) && ts != [] && Writable(u, ts[0]) && Tokens(u, " " + Write(ts[1..])) == Some(ts[1..])
    ensures Tokens(u, Write(ts)) == Some(ts)
  {
    NextBack(u, ts[0], Write(ts[1..]));
    hide Next, TokenText, Writable, Sane;
    assert ts == [ts[0]] + ts[1..];
  }

  /** Writing tokens and lexing the text gives the tokens back. */
  lemma {:induction false} LexWritten(u: Unicode, ts: seq<Token>)
    requires Sane(u) && forall i :: 0 <= i < |ts| ==> Writable(u, ts[i])
    ensures Tokens(u, Write(ts)) == Some(ts)
  {
    if ts == [] {
      assert ""[0..] == "";
    } else {
      hide *;
      assert forall i :: 0 <= i < |ts[1..]| ==> ts[1..][i] == ts[i + 1];
      LexWritten(u, ts[1..]);
      SpacedTokens(u, Write(ts[1..]));
      WrittenStep(u, ts);
    }
  }

  lemma SpacedTokens(u: Unicode, s: string)
    requires Sane(u)
    ensures Tokens(u, " " + s) == Tokens(u, s)
  {
    hide Next;
    SkipOneSpace(u, s);
  }

  /** Text of an expression, read back: tokenising and parsing gives its query. */
  lemma ReadBack(u: Unicode, e: Expr)
    requires Sane(u) && Meaning(e).Some? && forall i :: 0 <= i < |OrTokens(e)| ==> Writable(u, OrTokens(e)[i])
    ensures var ts := Tokens(u, Write(OrTokens(e)));
      ts.Some? && ParseTopLevel(ts.value) == Meaning(e)
  {
    LexWritten(u, OrTokens(e));
    ParsePrinted(e);
  }
}
