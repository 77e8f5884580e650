/** Tokens to a query. */
module Parser {
  import opened Options
  import opened Bytes
  import opened Accounts
  import opened Query
  import opened Lexer
  import Utf8

  datatype Literal = NumberLit(n: nat) | TextLit(s: string) | AddressLit(a: Address) | KeyLit(b: B256)

  // ── Values ───────────────────────────────────────────────────────────

  predicate AllHex(s: string) { forall i :: 0 <= i < |s| ==> HexDigit(s[i]) }

  /** `decode_entity_key_string`. The hex library drops a second `0x`. */
  function DecodeKeyText(s: string): Option<Key> {
    if |s| < 2 || s[0] != '0' || (s[1] != 'x' && s[1] != 'X') then None
    else
      var t := s[2..];
      if |Utf8.Encode(t)| != 64 then None
      else
        var h := if |t| >= 2 && t[0] == '0' && t[1] == 'x' then t[2..] else t;
        if AllHex(h) && |h| % 2 == 0 then Some(HexBytes(h)) else None
  }

  /** `encode_for_key`: the bytes under which a literal is indexed. */
  function EncodeForKey(k: AnnotKey, lit: Literal): Option<Key> {
    match k
    case BuiltInKey(Owner) => if lit.AddressLit? then Some(lit.a) else None
    case BuiltInKey(Creator) => if lit.AddressLit? then Some(lit.a) else None
    case BuiltInKey(EntityKey) =>
      if lit.KeyLit? then Some(lit.b) else if lit.TextLit? then DecodeKeyText(lit.s) else None
    case BuiltInKey(Expiration) => if lit.NumberLit? then Some(BigEndian(lit.n, 8)) else None
    case BuiltInKey(CreatedAtBlock) => if lit.NumberLit? then Some(BigEndian(lit.n, 8)) else None
    case BuiltInKey(ContentType) => if lit.TextLit? then Some(Utf8.Encode(lit.s)) else None
    case UserKeyName(_) =>
      match lit
      case NumberLit(n) => Some(Zeros(24) + BigEndian(n, 8))
      case TextLit(s) => Some(Utf8.Encode(s))
      case AddressLit(a) => Some(a)
      case KeyLit(b) => Some(b)
  }

  // ── What the parser computes, on the tokens that are left ────────────

  datatype Parsed<T> = Got(value: T, rest: seq<Token>) | Fail {
    predicate IsFailure() { Fail? }

    function PropagateFailure<U>(): Parsed<U>
      requires Fail?
    {
      Fail
    }

    function Extract(): (T, seq<Token>)
      requires Got?
    {
      (value, rest)
    }
  }

  function LiteralOf(t: Token): Option<Literal> {
    match t
    case Number(n) => Some(NumberLit(n))
    case StringLit(s) => Some(TextLit(s))
    case AddressTok(a) => Some(AddressLit(a))
    case EntityKeyTok(b) => Some(KeyLit(b))
    case _ => None
  }

  function KeyOf(t: Token): Option<AnnotKey> {
    match t
    case DollarOwner => Some(BuiltInKey(Owner))
    case DollarCreator => Some(BuiltInKey(Creator))
    case DollarKey => Some(BuiltInKey(EntityKey))
    case DollarExpiration => Some(BuiltInKey(Expiration))
    case DollarContentType => Some(BuiltInKey(ContentType))
    case DollarCreatedAtBlock => Some(BuiltInKey(CreatedAtBlock))
    case Ident(s) => Some(UserKeyName(Utf8.Encode(s)))
    case _ => None
  }

  function Expect(ts: seq<Token>, t: Token): Parsed<()> {
    if ts != [] && ts[0] == t then Got((), ts[1..]) else Fail
  }

  function ParseLiteral(ts: seq<Token>): (r: Parsed<Literal>)
    ensures r.Got? ==> |r.rest| < |ts|
  {
    if ts == [] then Fail
    else match LiteralOf(ts[0]) case None => Fail case Some(l) => Got(l, ts[1..])
  }

  function ParseAnnotKey(ts: seq<Token>): (r: Parsed<AnnotKey>)
    ensures r.Got? ==> |r.rest| < |ts|
  {
    if ts == [] then Fail
    else match KeyOf(ts[0]) case None => Fail case Some(k) => Got(k, ts[1..])
  }

  function ParseValue(k: AnnotKey, ts: seq<Token>): (r: Parsed<Key>)
    ensures r.Got? ==> |r.rest| < |ts|
  {
    var p1 :- ParseLiteral(ts);
    var (lit, rest) := p1;
    match EncodeForKey(k, lit) case None => Fail case Some(v) => Got(v, rest)
  }

  /** Values up to a closing parenthesis, which stays. */
  function ParseValues(k: AnnotKey, ts: seq<Token>): (r: Parsed<seq<Key>>)
    ensures r.Got? ==> |r.rest| <= |ts|
    decreases |ts|
  {
    if ts != [] && ts[0] == RParen then Got([], ts)
    else
      var p1 :- ParseValue(k, ts);
      var (v, rest) := p1;
      var p2 :- ParseValues(k, rest);
      var (vs, rest') := p2;
      Got([v] + vs, rest')
  }

  function ParseValueList(k: AnnotKey, ts: seq<Token>): (r: Parsed<seq<Key>>)
    ensures r.Got? ==> |r.rest| < |ts|
  {
    var p1 :- Expect(ts, LParen);
    var r1 := p1.1;
    var p2 :- ParseValues(k, r1);
    var (vs, r2) := p2;
    var p3 :- Expect(r2, RParen);
    var r3 := p3.1;
    if vs == [] then Fail else Got(vs, r3)
  }

  function GlobPrefix(s: string): Option<Key> {
    if s == [] || s[|s| - 1] != '*' || '*' in s[..|s| - 1] then None else Some(Utf8.Encode(s[..|s| - 1]))
  }

  predicate GlobKey(k: AnnotKey) { k.UserKeyName? || k == BuiltInKey(ContentType) }

  function ParseGlobPattern(k: AnnotKey, ts: seq<Token>): (r: Parsed<Key>)
    ensures r.Got? ==> |r.rest| < |ts|
  {
    if !GlobKey(k) then Fail
    else
      var p1 :- ParseLiteral(ts);
      var (lit, rest) := p1;
      if !lit.TextLit? || GlobPrefix(lit.s).None? then Fail else Got(GlobPrefix(lit.s).value, rest)
  }

  /** Comparison operators. */
  predicate Ranged(op: Token) { op == GtTok || op == GteTok || op == LtTok || op == LteTok }
  predicate Comparing(op: Token) { op == EqTok || op == NeqTok || Ranged(op) }
  predicate Globbing(op: Token) { op == Tilde || op == NotTilde }

  function Compare(op: Token, k: AnnotKey, v: Key): Query {
    match op
    case EqTok => Eq(k, v)
    case NeqTok => Neq(k, v)
    case GtTok => Gt(k, v)
    case GteTok => Gte(k, v)
    case LtTok => Lt(k, v)
    case _ => Lte(k, v)
  }

  /** Ranges are refused on address and entity-key literals. */
  predicate RandomDistribution(ts: seq<Token>) { ts != [] && (ts[0].AddressTok? || ts[0].EntityKeyTok?) }

  function ParsePredicate(ts: seq<Token>): (r: Parsed<Query>)
    ensures r.Got? ==> |r.rest| < |ts|
  {
    var p1 :- ParseAnnotKey(ts);
    var (k, r1) := p1;
    if r1 == [] then Fail
    else if Comparing(r1[0]) then
      if Ranged(r1[0]) && RandomDistribution(r1[1..]) then Fail
      else
        var p2 :- ParseValue(k, r1[1..]);
        var (v, r2) := p2;
        Got(Compare(r1[0], k, v), r2)
    else if r1[0] == NotTok then
      var p3 :- Expect(r1[1..], InTok);
      var r2 := p3.1;
      var p4 :- ParseValueList(k, r2);
      var (vs, r3) := p4;
      Got(NotIn(k, vs), r3)
    else if r1[0] == InTok then
      var p5 :- ParseValueList(k, r1[1..]);
      var (vs, r2) := p5;
      Got(In(k, vs), r2)
    else if Globbing(r1[0]) then
      var p6 :- ParseGlobPattern(k, r1[1..]);
      var (v, r2) := p6;
      Got(if r1[0] == Tilde then Glob(k, v) else NotGlob(k, v), r2)
    else Fail
  }

  function ParseTerm(ts: seq<Token>): (r: Parsed<Query>)
    ensures r.Got? ==> |r.rest| < |ts|
    decreases |ts|, 0
  {
    if ts != [] && ts[0] == NotTok then
      var p1 :- Expect(ts[1..], LParen);
      var r1 := p1.1;
      var p2 :- ParseOr(r1);
      var (q, r2) := p2;
      var p3 :- Expect(r2, RParen);
      var r3 := p3.1;
      Got(Not(q), r3)
    else if ts != [] && ts[0] == LParen then
      var p4 :- ParseOr(ts[1..]);
      var (q, r1) := p4;
      var p5 :- Expect(r1, RParen);
      var r2 := p5.1;
      Got(q, r2)
    else ParsePredicate(ts)
  }

  function ParseAnd(ts: seq<Token>): (r: Parsed<Query>)
    ensures r.Got? ==> |r.rest| < |ts|
    decreases |ts|, 1
  {
    var p1 :- ParseTerm(ts);
    var (q, rest) := p1;
    AndRest(q, rest)
  }

  /** The loop of `parse_and`, with the query built so far. */
  function AndRest(q: Query, ts: seq<Token>): (r: Parsed<Query>)
    ensures r.Got? ==> |r.rest| <= |ts|
    decreases |ts|, 2
  {
    if ts == [] || ts[0] != AndTok then Got(q, ts)
    else
      var p1 :- ParseTerm(ts[1..]);
      var (rhs, rest) := p1;
      AndRest(And(q, rhs), rest)
  }

  function ParseOr(ts: seq<Token>): (r: Parsed<Query>)
    ensures r.Got? ==> |r.rest| < |ts|
    decreases |ts|, 3
  {
    var p1 :- ParseAnd(ts);
    var (q, rest) := p1;
    OrRest(q, rest)
  }

  /** The loop of `parse_or`. */
  function OrRest(q: Query, ts: seq<Token>): (r: Parsed<Query>)
    ensures r.Got? ==> |r.rest| <= |ts|
    decreases |ts|, 4
  {
    if ts == [] || ts[0] != OrTok then Got(q, ts)
    else
      var p1 :- ParseAnd(ts[1..]);
      var (rhs, rest) := p1;
      OrRest(Or(q, rhs), rest)
  }

  /** `parse_top_level`. */
  function ParseTopLevel(ts: seq<Token>): Option<Query> {
    if ts != [] && (ts[0] == Star || ts[0] == DollarAll) then
      if |ts| == 1 then Some(All) else None
    else
      match ParseOr(ts)
      case Fail => None
      case Got(q, rest) => if rest == [] then Some(q) else None
  }

  // ── The parser ───────────────────────────────────────────────────────

  /** `r`, with the parser now at `pos`, is what the specification says. */
  ghost predicate Reads<T>(want: Parsed<T>, r: Option<T>, tokens: seq<Token>, pos: nat) {
    if want.Fail? then r.None? else r == Some(want.value) && pos <= |tokens| && tokens[pos..] == want.rest
  }

  class Parser {
    const tokens: seq<Token>
    var pos: nat

    constructor (tokens: seq<Token>)
      ensures this.tokens == tokens && pos == 0
    {
      this.tokens, pos := tokens, 0;
    }

    function Peek(): Option<Token>
      reads this`pos
    {
      if pos < |tokens| then Some(tokens[pos]) else None
    }

    method Advance() returns (r: Option<Token>)
      requires pos <= |tokens|
      modifies this`pos
      ensures r == old(Peek()) && old(pos) <= pos <= |tokens|
      ensures r.Some? ==> pos == old(pos) + 1 && tokens[old(pos)..] == [r.value] + tokens[pos..]
      ensures r.None? ==> tokens[old(pos)..] == []
    {
      if pos == |tokens| { return None; }
      r := Some(tokens[pos]);
      pos := pos + 1;
    }

    method ExpectToken(t: Token) returns (r: Option<()>)
      requires pos <= |tokens|
      modifies this`pos
      ensures pos <= |tokens| && Reads(Expect(tokens[old(pos)..], t), r, tokens, pos)
    {
      var got := Advance();
      r := if got == Some(t) then Some(()) else None;
    }

    method Literal() returns (r: Option<Literal>)
      requires pos <= |tokens|
      modifies this`pos
      ensures pos <= |tokens| && Reads(ParseLiteral(tokens[old(pos)..]), r, tokens, pos)
    {
      var got := Advance();
      if got.None? { return None; }
      r := LiteralOf(got.value);
    }

    method AnnotKey() returns (r: Option<AnnotKey>)
      requires pos <= |tokens|
      modifies this`pos
      ensures pos <= |tokens| && Reads(ParseAnnotKey(tokens[old(pos)..]), r, tokens, pos)
    {
      var got := Advance();
      if got.None? { return None; }
      r := KeyOf(got.value);
    }

    method Value(k: AnnotKey) returns (r: Option<Key>)
      requires pos <= |tokens|
      modifies this`pos
      ensures pos <= |tokens| && Reads(ParseValue(k, tokens[old(pos)..]), r, tokens, pos)
    {
      hide EncodeForKey;
      var lit := Literal();
      if lit.None? { return None; }
      r := EncodeForKey(k, lit.value);
    }

    method ValueList(k: AnnotKey) returns (r: Option<seq<Key>>)
      requires pos <= |tokens|
      modifies this`pos
      ensures pos <= |tokens| && Reads(ParseValueList(k, tokens[old(pos)..]), r, tokens, pos)
    {
      hide ParseValue;
      var open := ExpectToken(LParen);
      if open.None? { return None; }
      ghost var start := tokens[pos..];
      var vals: seq<Key> := [];
      PrependNone(ParseValues(k, start));
      while Peek() != Some(RParen)
        invariant pos <= |tokens|
        invariant ParseValues(k, start) == Prepend(vals, ParseValues(k, tokens[pos..]))
        decreases |tokens| - pos
      {
        ghost var here := tokens[pos..];
        ValuesStep(k, here, vals);
        var v := Value(k);
        if v.None? { return None; }
        vals := vals + [v.value];
      }
      assert vals + [] == vals;
      var close := ExpectToken(RParen);
      if close.None? || vals == [] { return None; }
      r := Some(vals);
    }

    method RejectRangeOnRandomDistribution() returns (ok: bool)
      requires pos <= |tokens|
      ensures ok <==> !RandomDistribution(tokens[pos..])
    {
      var t := Peek();
      ok := t.None? || !(t.value.AddressTok? || t.value.EntityKeyTok?);
    }

    method GlobPattern(k: AnnotKey) returns (r: Option<Key>)
      requires pos <= |tokens|
      modifies this`pos
      ensures pos <= |tokens| && Reads(ParseGlobPattern(k, tokens[old(pos)..]), r, tokens, pos)
    {
      hide GlobPrefix;
      if !GlobKey(k) { return None; }
      var lit := Literal();
      if lit.None? || !lit.value.TextLit? { return None; }
      r := GlobPrefix(lit.value.s);
    }

    method Predicate() returns (r: Option<Query>)
      requires pos <= |tokens|
      modifies this`pos
      ensures pos <= |tokens| && Reads(ParsePredicate(tokens[old(pos)..]), r, tokens, pos)
    {
      hide ParseValue, ParseValueList, ParseGlobPattern, ParseAnnotKey;
      var k := AnnotKey();
      if k.None? { return None; }
      ghost var r1 := tokens[pos..];
      var op := Peek();
      if op.None? { return None; }
      if Comparing(op.value) {
        var _ := Advance();
        if Ranged(op.value) {
          var ok := RejectRangeOnRandomDistribution();
          if !ok { return None; }
        }
        var v := Value(k.value);
        if v.None? { return None; }
        r := Some(Compare(op.value, k.value, v.value));
      } else if op.value == NotTok {
        var _ := Advance();
        var kw := ExpectToken(InTok);
        if kw.None? { return None; }
        var vs := ValueList(k.value);
        if vs.None? { return None; }
        r := Some(NotIn(k.value, vs.value));
      } else if op.value == InTok {
        var _ := Advance();
        var vs := ValueList(k.value);
        if vs.None? { return None; }
        r := Some(In(k.value, vs.value));
      } else if Globbing(op.value) {
        var _ := Advance();
        var v := GlobPattern(k.value);
        if v.None? { return None; }
        r := Some(if op.value == Tilde then Glob(k.value, v.value) else NotGlob(k.value, v.value));
      } else {
        r := None;
      }
    }

    method Term() returns (r: Option<Query>)
      requires pos <= |tokens|
      modifies this`pos
      ensures pos <= |tokens| && Reads(ParseTerm(tokens[old(pos)..]), r, tokens, pos)
      decreases |tokens| - pos, 0
    {
      hide ParseOr, ParsePredicate;
      var t := Peek();
      if t == Some(NotTok) {
        var _ := Advance();
        var open := ExpectToken(LParen);
        if open.None? { return None; }
        var q := OrExpr();
        if q.None? { return None; }
        var close := ExpectToken(RParen);
        if close.None? { return None; }
        r := Some(Not(q.value));
      } else if t == Some(LParen) {
        var _ := Advance();
        var q := OrExpr();
        if q.None? { return None; }
        var close := ExpectToken(RParen);
        if close.None? { return None; }
        r := q;
      } else {
        r := Predicate();
      }
    }

    method AndExpr() returns (r: Option<Query>)
      requires pos <= |tokens|
      modifies this`pos
      ensures pos <= |tokens| && Reads(ParseAnd(tokens[old(pos)..]), r, tokens, pos)
      decreases |tokens| - pos, 1
    {
      hide ParseTerm;
      ghost var start := ParseAnd(tokens[pos..]);
      r := Term();
      if r.None? { return; }
      while Peek() == Some(AndTok)
        invariant old(pos) < pos <= |tokens| && r.Some?
        invariant start == AndRest(r.value, tokens[pos..])
        decreases |tokens| - pos
      {
        var _ := Advance();
        var rhs := Term();
        if rhs.None? { return None; }
        r := Some(And(r.value, rhs.value));
      }
    }

    method OrExpr() returns (r: Option<Query>)
      requires pos <= |tokens|
      modifies this`pos
      ensures pos <= |tokens| && Reads(ParseOr(tokens[old(pos)..]), r, tokens, pos)
      decreases |tokens| - pos, 2
    {
      hide ParseAnd;
      ghost var start := ParseOr(tokens[pos..]);
      r := AndExpr();
      if r.None? { return; }
      while Peek() == Some(OrTok)
        invariant old(pos) < pos <= |tokens| && r.Some?
        invariant start == OrRest(r.value, tokens[pos..])
        decreases |tokens| - pos
      {
        var _ := Advance();
        var rhs := AndExpr();
        if rhs.None? { return None; }
        r := Some(Or(r.value, rhs.value));
      }
    }

    /** The whole token list, or nothing. */
    method TopLevel() returns (r: Option<Query>)
      requires pos == 0
      modifies this`pos
      ensures r == ParseTopLevel(tokens)
    {
      hide ParseOr;
      assert tokens[0..] == tokens;
      var t := Peek();
      if t == Some(Star) || t == Some(DollarAll) {
        var _ := Advance();
        var next := Peek();
        return if next.Some? then None else Some(All);
      }
      r := OrExpr();
      if r.None? { return; }
      var next := Peek();
      if next.Some? { r := None; }
    }
  }

  function Prepend(vs: seq<Key>, p: Parsed<seq<Key>>): Parsed<seq<Key>> {
    match p
    case Fail => Fail
    case Got(ws, rest) => Got(vs + ws, rest)
  }

  lemma PrependNone(p: Parsed<seq<Key>>)
    ensures Prepend([], p) == p
  {
    if p.Got? { assert [] + p.value == p.value; }
  }

  lemma ValuesStep(k: AnnotKey, ts: seq<Token>, vs: seq<Key>)
    requires ts == [] || ts[0] != RParen
    ensures Prepend(vs, ParseValues(k, ts)) ==
      var p := ParseValue(k, ts);
      if p.Fail? then Fail else Prepend(vs + [p.value], ParseValues(k, p.rest))
  {
    var p := ParseValue(k, ts);
    if p.Got? && ParseValues(k, p.rest).Got? {
      assert vs + ([p.value] + ParseValues(k, p.rest).value) == vs + [p.value] + ParseValues(k, p.rest).value;
    }
  }
}
