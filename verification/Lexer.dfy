/** Query text to tokens. */
module Lexer {
  import opened Options
  import opened Bytes
  import opened Accounts
  import opened Operations

  datatype Token =
    | LParen | RParen | AndTok | OrTok | EqTok | NeqTok | NotTok | InTok | Star
    | GtTok | GteTok | LtTok | LteTok | Tilde | NotTilde
    | DollarAll | DollarOwner | DollarCreator | DollarKey | DollarExpiration | DollarContentType | DollarCreatedAtBlock
    | EntityKeyTok(key: B256) | AddressTok(addr: Address) | StringLit(text: string) | Number(n: nat) | Ident(name: string)

  /** The Unicode classes the lexer asks about. */
  datatype Unicode = Unicode(space: char -> bool, letter: char -> bool, alnum: char -> bool)

  predicate AsciiLetter(c: char) { 'a' <= c <= 'z' || 'A' <= c <= 'Z' }
  predicate Digit(c: char) { '0' <= c <= '9' }
  predicate HexDigit(c: char) { Digit(c) || 'a' <= c <= 'f' || 'A' <= c <= 'F' }

  /** What is used of the tables: ASCII, and that no alphanumeric is a space. */
  ghost predicate Sane(u: Unicode) {
    && (forall c: char :: c < 128 as char ==> (u.letter(c) <==> AsciiLetter(c)) && (u.alnum(c) <==> AsciiLetter(c) || Digit(c)))
    && u.space(' ') && (forall c: char :: u.space(c) ==> !u.alnum(c) && !u.letter(c))
    && (forall c: char :: '!' <= c <= '~' ==> !u.space(c))
    && (forall c: char :: u.letter(c) ==> u.alnum(c))
  }

  predicate IdentStart(u: Unicode, c: char) { u.letter(c) || c == '_' }
  predicate IdentContinue(u: Unicode, c: char) { u.alnum(c) || c == '_' }

  // ── What the lexer computes, on the text that is left ────────────────

  /** How many characters at the front satisfy `p`. */
  function Span(s: string, p: char -> bool): (n: nat)
    ensures n <= |s|
    ensures forall i :: 0 <= i < n ==> p(s[i])
    ensures n < |s| ==> !p(s[n])
  {
    if s == [] || !p(s[0]) then 0 else 1 + Span(s[1..], p)
  }

  datatype Lexed = End | Bad | Tok(token: Token, rest: string)

  function Nibble(c: char): (n: nat)
    ensures n < 16
  {
    if Digit(c) then c as int - '0' as int
    else if 'a' <= c <= 'f' then c as int - 'a' as int + 10
    else if 'A' <= c <= 'F' then c as int - 'A' as int + 10
    else 0
  }

  function HexBytes(s: string): (r: Key)
    ensures |r| == |s| / 2
  {
    seq(|s| / 2, i requires 0 <= i < |s| / 2 => 16 * Nibble(s[2 * i]) + Nibble(s[2 * i + 1]))
  }

  function Decimal(s: string): nat {
    if s == [] then 0 else 10 * Decimal(s[..|s| - 1]) + Nibble(s[|s| - 1])
  }

  function Unescape(c: char): Option<char> {
    if c == '"' || c == '\\' then Some(c)
    else if c == 'n' then Some('\n')
    else if c == 't' then Some('\t')
    else if c == 'r' then Some('\r')
    else None
  }

  datatype Body = NoEnd | Text(text: string, rest: string)

  /** A string literal after its opening quote. */
  function StringBody(s: string): (r: Body)
    ensures r.Text? ==> |r.rest| < |s|
  {
    if s == [] then NoEnd
    else if s[0] == '"' then Text([], s[1..])
    else if s[0] == '\\' then
      if |s| == 1 || Unescape(s[1]).None? then NoEnd
      else
        match StringBody(s[2..])
        case NoEnd => NoEnd
        case Text(t, r) => Text([Unescape(s[1]).value] + t, r)
    else
      match StringBody(s[1..])
      case NoEnd => NoEnd
      case Text(t, r) => Text([s[0]] + t, r)
  }

  function HexToken(s: string): Lexed {
    var n := Span(s, HexDigit);
    if n == 40 then Tok(AddressTok(HexBytes(s[..40])), s[40..])
    else if n == 64 then Tok(EntityKeyTok(HexBytes(s[..64])), s[64..])
    else Bad
  }

  function NumberToken(s: string): Lexed {
    var n := Span(s, Digit);
    if Decimal(s[..n]) <= U64_MAX then Tok(Number(Decimal(s[..n])), s[n..]) else Bad
  }

  function DollarToken(name: string, rest: string): Lexed {
    if name == "all" then Tok(DollarAll, rest)
    else if name == "owner" then Tok(DollarOwner, rest)
    else if name == "creator" then Tok(DollarCreator, rest)
    else if name == "key" then Tok(DollarKey, rest)
    else if name == "expiration" then Tok(DollarExpiration, rest)
    else if name == "contentType" then Tok(DollarContentType, rest)
    else if name == "createdAtBlock" then Tok(DollarCreatedAtBlock, rest)
    else Bad
  }

  function Lower(c: char): char { if 'A' <= c <= 'Z' then c + 32 as char else c }

  predicate EqIgnoreCase(s: string, t: string) {
    |s| == |t| && forall i :: 0 <= i < |s| ==> Lower(s[i]) == Lower(t[i])
  }

  function WordToken(s: string): Token {
    if EqIgnoreCase(s, "and") then AndTok
    else if EqIgnoreCase(s, "or") then OrTok
    else if EqIgnoreCase(s, "not") then NotTok
    else if EqIgnoreCase(s, "in") then InTok
    else Ident(s)
  }

  predicate Punctuation(c: char) {
    c == '(' || c == ')' || c == '*' || c == '=' || c == '&' || c == '|' || c == '!' || c == '>' || c == '<' || c == '~'
  }

  /** Operators; `second` is what follows the first character. */
  function OperatorToken(s: string): Lexed
    requires s != []
  {
    var second := if |s| > 1 then s[1] else ' ';
    if s[0] == '(' then Tok(LParen, s[1..])
    else if s[0] == ')' then Tok(RParen, s[1..])
    else if s[0] == '*' then Tok(Star, s[1..])
    else if s[0] == '=' then Tok(EqTok, s[1..])
    else if s[0] == '&' then if second == '&' then Tok(AndTok, s[2..]) else Bad
    else if s[0] == '|' then if second == '|' then Tok(OrTok, s[2..]) else Bad
    else if s[0] == '!' then
      if second == '=' then Tok(NeqTok, s[2..]) else if second == '~' then Tok(NotTilde, s[2..]) else Tok(NotTok, s[1..])
    else if s[0] == '>' then if second == '=' then Tok(GteTok, s[2..]) else Tok(GtTok, s[1..])
    else if s[0] == '<' then if second == '=' then Tok(LteTok, s[2..]) else Tok(LtTok, s[1..])
    else if s[0] == '~' then Tok(Tilde, s[1..])
    else Bad
  }

  function QuotedToken(s: string): Lexed
    requires s != []
  {
    match StringBody(s[1..])
    case NoEnd => Bad
    case Text(t, r) => Tok(StringLit(t), r)
  }

  function NumberOrHexToken(s: string): Lexed
    requires s != []
  {
    if |s| > 1 && s[0] == '0' && (s[1] == 'x' || s[1] == 'X') then HexToken(s[2..]) else NumberToken(s)
  }

  function IdentSpan(u: Unicode, s: string): (n: nat)
    ensures n <= |s|
  {
    Span(s, c => IdentContinue(u, c))
  }

  function BuiltInToken(u: Unicode, s: string): Lexed
    requires s != []
  {
    var n := IdentSpan(u, s[1..]);
    DollarToken(s[1..][..n], s[1..][n..])
  }

  function NameToken(u: Unicode, s: string): Lexed {
    var n := IdentSpan(u, s);
    Tok(WordToken(s[..n]), s[n..])
  }

  /** The next token of a text that does not start with white space. */
  function Scan(u: Unicode, s: string): Lexed {
    if s == [] then End
    else if Punctuation(s[0]) then OperatorToken(s)
    else if s[0] == '"' then QuotedToken(s)
    else if Digit(s[0]) then NumberOrHexToken(s)
    else if s[0] == '$' then BuiltInToken(u, s)
    else if IdentStart(u, s[0]) then NameToken(u, s)
    else Bad
  }

  function Next(u: Unicode, s: string): Lexed { Scan(u, s[Span(s, u.space)..]) }

  /** Every token takes at least one character off the text. */
  lemma Progress(u: Unicode, s: string)
    requires Sane(u)
    ensures Next(u, s).Tok? ==> |Next(u, s).rest| < |s|
  {
    var t := s[Span(s, u.space)..];
    if t != [] {
      PunctuationProgress(t);
      ValueProgress(t);
      NameProgress(u, t);
    }
    hide OperatorToken, QuotedToken, NumberOrHexToken, BuiltInToken, NameToken, Span, IdentStart, Punctuation;
  }

  lemma PunctuationProgress(s: string)
    requires s != []
    ensures OperatorToken(s).Tok? ==> |OperatorToken(s).rest| < |s|
  {}

  lemma ValueProgress(s: string)
    requires s != []
    ensures QuotedToken(s).Tok? ==> |QuotedToken(s).rest| < |s|
    ensures Digit(s[0]) && NumberOrHexToken(s).Tok? ==> |NumberOrHexToken(s).rest| < |s|
  {
    hide StringBody, Decimal, HexBytes;
  }

  lemma NameProgress(u: Unicode, s: string)
    requires Sane(u) && s != []
    ensures BuiltInToken(u, s).Tok? ==> |BuiltInToken(u, s).rest| < |s|
    ensures IdentStart(u, s[0]) ==> NameToken(u, s).Tok? && |NameToken(u, s).rest| < |s|
  {
    if IdentStart(u, s[0]) { assert IdentContinue(u, s[0]); }
    hide WordToken;
  }

  /** All tokens of a text, if it lexes. */
  function Tokens(u: Unicode, s: string): Option<seq<Token>>
    requires Sane(u)
    decreases |s|
  {
    Progress(u, s);
    match Next(u, s)
    case End => Some([])
    case Bad => None
    case Tok(t, rest) =>
      match Tokens(u, rest)
      case None => None
      case Some(ts) => Some([t] + ts)
  }

  // ── The lexer ────────────────────────────────────────────────────────

  lemma SpanStep(s: string, i: nat, p: char -> bool)
    requires i <= |s|
    ensures Span(s[i..], p) == if i < |s| && p(s[i]) then 1 + Span(s[i + 1..], p) else 0
  {
    if i < |s| { assert s[i..][1..] == s[i + 1..]; }
  }

  class Lexer {
    const u: Unicode
    const src: string
    var pos: nat

    constructor (u: Unicode, src: string)
      ensures this.u == u && this.src == src && pos == 0
    {
      this.u, this.src, pos := u, src, 0;
    }

    /** Move past the characters that satisfy `p`. */
    method Skip(p: char -> bool)
      requires pos <= |src|
      modifies this`pos
      ensures pos == old(pos) + Span(src[old(pos)..], p) <= |src|
    {
      while pos < |src| && p(src[pos])
        invariant old(pos) <= pos <= |src|
        invariant Span(src[old(pos)..], p) == pos - old(pos) + Span(src[pos..], p)
      {
        SpanStep(src, pos, p);
        pos := pos + 1;
      }
      SpanStep(src, pos, p);
    }

    /** The part of the source between two positions. */
    function Slice(from: nat): string
      requires from <= pos <= |src|
      reads this`pos
    {
      src[from..pos]
    }

    method Take(t: Token, n: nat) returns (r: Lexed)
      requires pos + n <= |src|
      modifies this`pos
      ensures pos == old(pos) + n && r == Tok(t, src[pos..])
    {
      pos := pos + n;
      r := Tok(t, src[pos..]);
    }

    method LexOperator() returns (r: Lexed)
      requires pos < |src|
      modifies this`pos
      ensures old(pos) <= pos <= |src| && (r.Tok? ==> r.rest == src[pos..])
      ensures r == OperatorToken(src[old(pos)..])
    {
      var c := src[pos];
      var next := if pos + 1 < |src| then src[pos + 1] else ' ';
      match c {
        case '(' => r := Take(LParen, 1);
        case ')' => r := Take(RParen, 1);
        case '*' => r := Take(Star, 1);
        case '=' => r := Take(EqTok, 1);
        case '&' => if next == '&' { r := Take(AndTok, 2); } else { r := Bad; }
        case '|' => if next == '|' { r := Take(OrTok, 2); } else { r := Bad; }
        case '!' => if next == '=' { r := Take(NeqTok, 2); } else if next == '~' { r := Take(NotTilde, 2); } else { r := Take(NotTok, 1); }
        case '>' => if next == '=' { r := Take(GteTok, 2); } else { r := Take(GtTok, 1); }
        case '<' => if next == '=' { r := Take(LteTok, 2); } else { r := Take(LtTok, 1); }
        case '~' => r := Take(Tilde, 1);
        case _ => r := Bad;
      }
    }

    method LexString() returns (r: Lexed)
      requires pos < |src|
      modifies this`pos
      ensures old(pos) <= pos <= |src| && (r.Tok? ==> r.rest == src[pos..])
      ensures r == QuotedToken(src[old(pos)..])
    {
      hide StringBody, Unescape;
      assert src[pos..][1..] == src[pos + 1..];
      pos := pos + 1;
      ghost var whole := StringBody(src[pos..]);
      var out := "";
      NoPrefix(whole);
      while true
        invariant old(pos) <= pos <= |src|
        invariant whole == Prefixed(out, StringBody(src[pos..]))
        decreases |src| - pos
      {
        if pos == |src| {
          BodyEnd();
          return Bad;
        }
        var c := src[pos];
        BodyStep(src, pos);
        pos := pos + 1;
        if c == '"' {
          assert out + "" == out;
          return Tok(StringLit(out), src[pos..]);
        } else if c == '\\' {
          if pos == |src| { return Bad; }
          var e := Unescape(src[pos]);
          if e.None? { return Bad; }
          PrefixTwice(out, [e.value], StringBody(src[pos + 1..]));
          out := out + [e.value];
          pos := pos + 1;
        } else {
          PrefixTwice(out, [c], StringBody(src[pos..]));
          out := out + [c];
        }
      }
    }

    method LexNumberOrHex() returns (r: Lexed)
      requires pos < |src|
      modifies this`pos
      ensures old(pos) <= pos <= |src| && (r.Tok? ==> r.rest == src[pos..])
      ensures r == NumberOrHexToken(src[old(pos)..])
    {
      if pos + 1 < |src| && src[pos] == '0' && (src[pos + 1] == 'x' || src[pos + 1] == 'X') {
        assert src[pos..][2..] == src[pos + 2..];
        pos := pos + 2;
        r := LexHex();
      } else {
        r := LexNumber();
      }
    }

    method LexHex() returns (r: Lexed)
      requires pos <= |src|
      modifies this`pos
      ensures old(pos) <= pos <= |src| && (r.Tok? ==> r.rest == src[pos..])
      ensures r == HexToken(src[old(pos)..])
    {
      hide HexBytes, Span;
      var start := pos;
      Skip(HexDigit);
      var hex := Slice(start);
      assert hex == src[start..][..pos - start] && src[pos..] == src[start..][pos - start..];
      if |hex| == 40 {
        r := Tok(AddressTok(HexBytes(hex)), src[pos..]);
      } else if |hex| == 64 {
        r := Tok(EntityKeyTok(HexBytes(hex)), src[pos..]);
      } else {
        r := Bad;
      }
    }

    method LexNumber() returns (r: Lexed)
      requires pos <= |src|
      modifies this`pos
      ensures old(pos) <= pos <= |src| && (r.Tok? ==> r.rest == src[pos..])
      ensures r == NumberToken(src[old(pos)..])
    {
      hide Decimal, Span;
      var start := pos;
      Skip(Digit);
      var digits := Slice(start);
      assert digits == src[start..][..pos - start] && src[pos..] == src[start..][pos - start..];
      var n := Decimal(digits);
      if n <= U64_MAX { r := Tok(Number(n), src[pos..]); } else { r := Bad; }
    }

    method LexDollarIdent() returns (r: Lexed)
      requires pos < |src|
      modifies this`pos
      ensures old(pos) <= pos <= |src| && (r.Tok? ==> r.rest == src[pos..])
      ensures r == BuiltInToken(u, src[old(pos)..])
    {
      hide DollarToken, Span;
      assert src[pos..][1..] == src[pos + 1..];
      pos := pos + 1;
      var start := pos;
      Skip(c => IdentContinue(u, c));
      var name := Slice(start);
      assert name == src[start..][..pos - start] && src[pos..] == src[start..][pos - start..];
      r := DollarToken(name, src[pos..]);
      DollarRest(name, src[pos..]);
    }

    method LexIdentOrKeyword() returns (r: Lexed)
      requires pos < |src|
      modifies this`pos
      ensures old(pos) <= pos <= |src| && (r.Tok? ==> r.rest == src[pos..])
      ensures r == NameToken(u, src[old(pos)..])
    {
      hide WordToken, Span;
      var start := pos;
      Skip(c => IdentContinue(u, c));
      var word := Slice(start);
      assert word == src[start..][..pos - start] && src[pos..] == src[start..][pos - start..];
      r := Tok(WordToken(word), src[pos..]);
    }

    /** One token: skip white space, then decide by the next character. */
    method NextToken() returns (r: Lexed)
      requires pos <= |src|
      modifies this`pos
      ensures old(pos) <= pos <= |src| && r == Next(u, src[old(pos)..]) && (r.Tok? ==> r.rest == src[pos..])
    {
      hide OperatorToken, QuotedToken, NumberOrHexToken, BuiltInToken, NameToken;
      Skip(u.space);
      ghost var s := src[pos..];
      assert s == src[old(pos)..][Span(src[old(pos)..], u.space)..];
      if pos == |src| { return End; }
      var c := src[pos];
      if Punctuation(c) {
        r := LexOperator();
      } else if c == '"' {
        r := LexString();
      } else if Digit(c) {
        r := LexNumberOrHex();
      } else if c == '$' {
        r := LexDollarIdent();
      } else if IdentStart(u, c) {
        r := LexIdentOrKeyword();
      } else {
        r := Bad;
      }
    }
  }

  lemma DollarRest(name: string, rest: string)
    ensures DollarToken(name, rest).Tok? ==> DollarToken(name, rest).rest == rest
  {}

  lemma NoPrefix(b: Body)
    ensures Prefixed("", b) == b
  {
    if b.Text? { assert "" + b.text == b.text; }
  }

  lemma BodyEnd()
    ensures StringBody("") == NoEnd
  {}

  function Prefixed(p: string, b: Body): Body {
    match b
    case NoEnd => NoEnd
    case Text(t, r) => Text(p + t, r)
  }

  lemma PrefixTwice(p: string, q: string, b: Body)
    ensures Prefixed(p, Prefixed(q, b)) == Prefixed(p + q, b)
  {
    if b.Text? { assert p + (q + b.text) == p + q + b.text; }
  }

  lemma BodyStep(s: string, i: nat)
    requires i < |s|
    ensures StringBody(s[i..]) ==
      if s[i] == '"' then Text([], s[i + 1..])
      else if s[i] == '\\' then
        if i + 1 == |s| || Unescape(s[i + 1]).None? then NoEnd
        else Prefixed([Unescape(s[i + 1]).value], StringBody(s[i + 2..]))
      else Prefixed([s[i]], StringBody(s[i + 1..]))
  {
    var t := s[i..];
    assert t[1..] == s[i + 1..];
    if i + 1 < |s| { assert t[2..] == s[i + 2..]; }
  }

  /** `tokenize`: token after token until the end or an error. */
  method Tokenize(u: Unicode, src: string) returns (r: Option<seq<Token>>)
    requires Sane(u)
    ensures r == Tokens(u, src)
  {
    var lex := new Lexer(u, src);
    var out: seq<Token> := [];
    assert src[0..] == src;
    if Tokens(u, src).Some? { assert out + Tokens(u, src).value == Tokens(u, src).value; }
    while true
      invariant lex.u == u && lex.src == src && lex.pos <= |src|
      invariant Tokens(u, src) == match Tokens(u, src[lex.pos..]) case None => None case Some(ts) => Some(out + ts)
      decreases |src| - lex.pos
    {
      ghost var s := src[lex.pos..];
      Progress(u, s);
      var t := lex.NextToken();
      if t.End? {
        assert out + [] == out;
        return Some(out);
      }
      if t.Bad? { return None; }
      TokensStep(u, s, out);
      out := out + [t.token];
    }
  }

  lemma TokensStep(u: Unicode, s: string, out: seq<Token>)
    requires Sane(u) && Next(u, s).Tok?
    ensures |Next(u, s).rest| < |s|
    ensures var rest := Tokens(u, Next(u, s).rest);
      (match Tokens(u, s) case None => None case Some(ts) => Some(out + ts))
      == match rest case None => None case Some(ts) => Some(out + [Next(u, s).token] + ts)
  {
    Progress(u, s);
    var n := Next(u, s);
    var rest := Tokens(u, n.rest);
    if rest.Some? { assert out + ([n.token] + rest.value) == out + [n.token] + rest.value; }
  }
}
