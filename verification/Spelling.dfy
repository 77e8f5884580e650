/** Every way to write a token, said about characters, and that the lexer reads
    exactly those. */
module Spelling {
  import opened Options
  import opened Bytes
  import opened Accounts
  import opened Lexer

  // ── Digits ───────────────────────────────────────────────────────────

  /** `c` is the hexadecimal digit for `d`, in either case. */
  predicate HexDigitIs(c: char, d: int) {
    0 <= d < 16 && (c == "0123456789abcdef"[d] || c == "0123456789ABCDEF"[d])
  }

  /** `h` is `v` in hexadecimal, two digits a byte. */
  predicate HexOf(h: string, v: Key) {
    |h| == 2 * |v| && forall i :: 0 <= i < |v| ==> HexDigitIs(h[2 * i], v[i] / 16) && HexDigitIs(h[2 * i + 1], v[i] % 16)
  }

  /** `s` is `n` in decimal, with any number of zeros in front. */
  predicate NumeralOf(s: string, n: nat) {
    && s != "" && s[|s| - 1] == "0123456789"[n % 10]
    && if |s| == 1 then n < 10 else NumeralOf(s[..|s| - 1], n / 10)
  }

  lemma NibbleExact(c: char, d: int)
    ensures HexDigit(c) && Nibble(c) == d <==> HexDigitIs(c, d)
  {
    var lower, upper := "0123456789abcdef", "0123456789ABCDEF";
    assert forall i :: 0 <= i < 10 ==> lower[i] as int == 48 + i && upper[i] as int == 48 + i;
    assert forall i :: 10 <= i < 16 ==> lower[i] as int == 87 + i && upper[i] as int == 55 + i;
  }

  lemma DigitExact(c: char, d: nat)
    requires d < 10
    ensures Digit(c) && Nibble(c) == d <==> c == "0123456789"[d]
  {
    assert forall i :: 0 <= i < 10 ==> "0123456789"[i] as int == 48 + i;
  }

  lemma HexExact(h: string, v: Key)
    requires |h| == 2 * |v|
    ensures (forall i :: 0 <= i < |h| ==> HexDigit(h[i])) && HexBytes(h) == v <==> HexOf(h, v)
  {
    hide HexDigit, Nibble, HexDigitIs;
    if HexOf(h, v) {
      forall i | 0 <= i < |v| ensures HexDigit(h[2 * i]) && HexDigit(h[2 * i + 1]) && HexBytes(h)[i] == v[i] {
        NibbleExact(h[2 * i], v[i] / 16);
        NibbleExact(h[2 * i + 1], v[i] % 16);
      }
      forall i | 0 <= i < |h| ensures HexDigit(h[i]) {
        assert i == 2 * (i / 2) || i == 2 * (i / 2) + 1;
      }
    }
    if (forall i :: 0 <= i < |h| ==> HexDigit(h[i])) && HexBytes(h) == v {
      forall i | 0 <= i < |v| ensures HexDigitIs(h[2 * i], v[i] / 16) && HexDigitIs(h[2 * i + 1], v[i] % 16) {
        assert v[i] == 16 * Nibble(h[2 * i]) + Nibble(h[2 * i + 1]);
        NibbleExact(h[2 * i], v[i] / 16);
        NibbleExact(h[2 * i + 1], v[i] % 16);
      }
    }
  }

  lemma {:induction false} DecimalExact(s: string, n: nat)
    requires s != ""
    ensures (forall i :: 0 <= i < |s| ==> Digit(s[i])) && Decimal(s) == n <==> NumeralOf(s, n)
  {
    hide Digit, Nibble;
    var pre, c := s[..|s| - 1], s[|s| - 1];
    DigitExact(c, n % 10);
    NibbleSmall(c);
    if |s| == 1 {
      assert Decimal("") == 0;
      assert pre == "";
    } else {
      DecimalExact(pre, n / 10);
    }
  }

  lemma NibbleSmall(c: char)
    ensures Digit(c) ==> Nibble(c) < 10
  {}

  // ── Words ────────────────────────────────────────────────────────────

  /** `s` is the word `w`, which is in lower case, in any mixture of cases. */
  predicate CaseOf(s: string, w: string) {
    |s| == |w| && forall i :: 0 <= i < |s| ==> s[i] == w[i] || s[i] as int + 32 == w[i] as int
  }

  lemma CaseExact(s: string, w: string)
    requires forall i :: 0 <= i < |w| ==> 'a' <= w[i] <= 'z'
    ensures EqIgnoreCase(s, w) <==> CaseOf(s, w)
  {
    if |s| == |w| {
      forall i | 0 <= i < |s| ensures Lower(s[i]) == Lower(w[i]) <==> s[i] == w[i] || s[i] as int + 32 == w[i] as int {
        LowerExact(s[i], w[i]);
      }
    }
  }

  lemma LowerExact(c: char, d: char)
    requires 'a' <= d <= 'z'
    ensures Lower(c) == Lower(d) <==> c == d || c as int + 32 == d as int
  {}

  predicate Keyword(s: string) { CaseOf(s, "and") || CaseOf(s, "or") || CaseOf(s, "not") || CaseOf(s, "in") }

  /** The body of a string literal: characters as they are, and five escapes. */
  predicate Quotes(b: string, t: string) {
    if b == "" then t == ""
    else if b[0] == '\\' then
      && |b| > 1 && t != "" && Quotes(b[2..], t[1..])
      && ((b[1] == '"' && t[0] == '"') || (b[1] == '\\' && t[0] == '\\')
          || (b[1] == 'n' && t[0] == '\n') || (b[1] == 't' && t[0] == '\t') || (b[1] == 'r' && t[0] == '\r'))
    else b[0] != '"' && t != "" && t[0] == b[0] && Quotes(b[1..], t[1..])
  }

  predicate NameChar(u: Unicode, c: char) { u.alnum(c) || c == '_' }

  // ── Tokens ───────────────────────────────────────────────────────────

  predicate HexLiteral(s: string, v: Key) {
    |s| == 2 + 2 * |v| && s[0] == '0' && (s[1] == 'x' || s[1] == 'X') && HexOf(s[2..], v)
  }

  /** `s` is a way to write `t`. */
  predicate Spells(u: Unicode, s: string, t: Token) {
    match t
    case LParen => s == "("
    case RParen => s == ")"
    case Star => s == "*"
    case EqTok => s == "="
    case NeqTok => s == "!="
    case GtTok => s == ">"
    case GteTok => s == ">="
    case LtTok => s == "<"
    case LteTok => s == "<="
    case Tilde => s == "~"
    case NotTilde => s == "!~"
    case AndTok => s == "&&" || CaseOf(s, "and")
    case OrTok => s == "||" || CaseOf(s, "or")
    case NotTok => s == "!" || CaseOf(s, "not")
    case InTok => CaseOf(s, "in")
    case DollarAll => s == "$all"
    case DollarOwner => s == "$owner"
    case DollarCreator => s == "$creator"
    case DollarKey => s == "$key"
    case DollarExpiration => s == "$expiration"
    case DollarContentType => s == "$contentType"
    case DollarCreatedAtBlock => s == "$createdAtBlock"
    case EntityKeyTok(b) => HexLiteral(s, b)
    case AddressTok(a) => HexLiteral(s, a)
    case StringLit(text) => |s| >= 2 && s[0] == '"' && s[|s| - 1] == '"' && Quotes(s[1..|s| - 1], text)
    case Number(n) => NumeralOf(s, n) && n < 0x1_0000_0000_0000_0000
    case Ident(name) =>
      s == name && s != "" && (u.letter(s[0]) || s[0] == '_') && (forall i :: 0 <= i < |s| ==> NameChar(u, s[i])) && !Keyword(s)
  }

  /** What follows `s` does not belong to it: no further letter of a word, digit
      of a number, or second half of an operator. */
  predicate Ends(u: Unicode, s: string, rest: string) {
    s != "" && rest != "" ==>
      var c := rest[0];
      if u.letter(s[0]) || s[0] == '_' || s[0] == '$' then !NameChar(u, c)
      else if Digit(s[0]) then
        if |s| > 1 && (s[1] == 'x' || s[1] == 'X') then !HexDigit(c)
        else !Digit(c) && !(s == "0" && (c == 'x' || c == 'X'))
      else if s == "!" then c != '=' && c != '~'
      else if s == ">" || s == "<" then c != '='
      else true
  }

  /** The text is these tokens, each in some spelling, with white space anywhere
      between them or none where the next one cannot belong to the last. */
  ghost predicate Writes(u: Unicode, text: string, ts: seq<Token>)
    decreases |ts|
  {
    if ts == [] then forall i :: 0 <= i < |text| ==> u.space(text[i])
    else exists i: nat, j: nat :: WritesFirst(u, text, ts[0], i, j) && Writes(u, text[j..], ts[1..])
  }

  /** Between `i` and `j`, after white space, `text` has the token `t`. */
  predicate WritesFirst(u: Unicode, text: string, t: Token, i: nat, j: nat) {
    && i <= j <= |text| && (forall k :: 0 <= k < i ==> u.space(text[k]))
    && Spells(u, text[i..j], t) && Ends(u, text[i..j], text[j..])
  }

  // ── Reading one token ────────────────────────────────────────────────

  lemma SpanIs(s: string, n: nat, p: char -> bool)
    requires n <= |s| && (forall i :: 0 <= i < n ==> p(s[i])) && (n < |s| ==> !p(s[n]))
    ensures Span(s, p) == n
  {}

  lemma {:induction false} BodySpelt(s: string)
    requires StringBody(s).Text?
    ensures var r := StringBody(s);
      var j := |s| - |r.rest| - 1;
      && 0 <= j < |s| && s[j] == '"' && s[j + 1..] == r.rest && Quotes(s[..j], r.text)
  {
    var r := StringBody(s);
    var j := |s| - |r.rest| - 1;
    if s[0] == '"' {
      assert s[..0] == "";
    } else {
      var k := if s[0] == '\\' then 2 else 1;
      var t := s[k..];
      BodySpelt(t);
      assert s[..j][k..] == t[..j - k] && s[j + 1..] == t[j - k + 1..];
      assert s[..j][0] == s[0] && (k == 2 ==> s[..j][1] == s[1]);
    }
  }

  lemma {:induction false} BodyRead(b: string, t: string, rest: string)
    requires Quotes(b, t)
    ensures StringBody(b + "\"" + rest) == Text(t, rest)
  {
    var s := b + "\"" + rest;
    if b == "" {
      assert s[1..] == rest;
    } else if b[0] == '\\' {
      BodyRead(b[2..], t[1..], rest);
      assert s[2..] == b[2..] + "\"" + rest && [t[0]] + t[1..] == t;
    } else {
      BodyRead(b[1..], t[1..], rest);
      assert s[1..] == b[1..] + "\"" + rest && [t[0]] + t[1..] == t;
    }
  }

  /** What `Scan` reads off the front of `s`, up to `j`. */
  ghost predicate Front(u: Unicode, s: string, t: Token, j: nat) {
    j <= |s| && Spells(u, s[..j], t) && Ends(u, s[..j], s[j..])
  }

  lemma OperatorFront(u: Unicode, s: string)
    requires Sane(u) && s != "" && Punctuation(s[0]) && OperatorToken(s).Tok?
    ensures var r := OperatorToken(s);
      var j := |s| - |r.rest|;
      0 <= j <= |s| && r.rest == s[j..] && Front(u, s, r.token, j)
  {
    var r := OperatorToken(s);
    var j := |s| - |r.rest|;
    assert s[..1] == [s[0]] && (|s| > 1 ==> s[..2] == [s[0], s[1]]);
    assert !u.letter(s[0]) && s[0] != '_' && s[0] != '$' && !Digit(s[0]);
    assert s[j..] != "" ==> s[j..][0] == s[j];
  }

  lemma QuotedFront(u: Unicode, s: string)
    requires Sane(u) && s != "" && s[0] == '"' && QuotedToken(s).Tok?
    ensures var r := QuotedToken(s);
      var j := |s| - |r.rest|;
      0 <= j <= |s| && r.rest == s[j..] && Front(u, s, r.token, j)
  {
    BodySpelt(s[1..]);
    var r := QuotedToken(s);
    var j := |s| - |r.rest|;
    hide StringBody, Quotes;
    assert s[..j][1..j - 1] == s[1..][..j - 2];
    assert !u.letter('"');
  }

  /** How the boundary of each class of tokens reads. */
  lemma EndsExact(u: Unicode, s: string, rest: string)
    requires Sane(u) && s != ""
    ensures u.letter(s[0]) || s[0] == '_' || s[0] == '$' ==>
      (Ends(u, s, rest) <==> rest == "" || !IdentContinue(u, rest[0]))
    ensures |s| > 1 && s[0] == '0' && (s[1] == 'x' || s[1] == 'X') ==> (Ends(u, s, rest) <==> rest == "" || !HexDigit(rest[0]))
    ensures Digit(s[0]) && (|s| > 1 ==> Digit(s[1])) ==>
      (Ends(u, s, rest) <==> rest == "" || (!Digit(rest[0]) && !(s == "0" && (rest[0] == 'x' || rest[0] == 'X'))))
  {
    assert Digit(s[0]) ==> !u.letter(s[0]);
  }

  lemma HexFront(u: Unicode, s: string)
    requires Sane(u) && |s| > 1 && s[0] == '0' && (s[1] == 'x' || s[1] == 'X') && HexToken(s[2..]).Tok?
    ensures var r := HexToken(s[2..]);
      var j := |s| - |r.rest|;
      0 <= j <= |s| && r.rest == s[j..] && Front(u, s, r.token, j)
  {
    var h := s[2..];
    var n := Span(h, HexDigit);
    var v := HexBytes(h[..n]);
    HexExact(h[..n], v);
    var w := s[..n + 2];
    assert w[2..] == h[..n] && h[n..] == s[n + 2..];
    assert w[0] == s[0] && w[1] == s[1];
    EndsExact(u, w, s[n + 2..]);
    assert s[n + 2..] != "" ==> s[n + 2..][0] == h[n];
    hide HexBytes, Span, HexOf, Ends, Spells, HexDigit;
    HexSpells(u, w, v);
  }

  lemma HexSpells(u: Unicode, s: string, v: Key)
    ensures |v| == 20 ==> (Spells(u, s, AddressTok(v)) <==> HexLiteral(s, v))
    ensures |v| == 32 ==> (Spells(u, s, EntityKeyTok(v)) <==> HexLiteral(s, v))
  {
    hide HexLiteral;
  }

  lemma DecimalFront(u: Unicode, s: string)
    requires Sane(u) && s != "" && Digit(s[0]) && NumberToken(s).Tok? && !(|s| > 1 && s[0] == '0' && (s[1] == 'x' || s[1] == 'X'))
    ensures var r := NumberToken(s);
      var j := |s| - |r.rest|;
      0 <= j <= |s| && r.rest == s[j..] && Front(u, s, r.token, j)
  {
    var n := Span(s, Digit);
    assert n > 0;
    var w := s[..n];
    DecimalExact(w, Decimal(w));
    EndsExact(u, w, s[n..]);
    assert n > 1 ==> Digit(s[1]);
    assert s[n..] != "" ==> s[n..][0] == s[n];
    hide Span, NumeralOf, Decimal, Ends, Spells;
    NumberSpells(u, w, Decimal(w));
  }

  lemma NumberSpells(u: Unicode, s: string, n: nat)
    ensures Spells(u, s, Number(n)) <==> NumeralOf(s, n) && n < U64
  {
    hide NumeralOf;
  }

  lemma NumberFront(u: Unicode, s: string)
    requires Sane(u) && s != "" && Digit(s[0]) && NumberOrHexToken(s).Tok?
    ensures var r := NumberOrHexToken(s);
      var j := |s| - |r.rest|;
      0 <= j <= |s| && r.rest == s[j..] && Front(u, s, r.token, j)
  {
    hide Sane, Front, HexToken, NumberToken, Digit;
    if |s| > 1 && s[0] == '0' && (s[1] == 'x' || s[1] == 'X') { HexFront(u, s); } else { DecimalFront(u, s); }
  }

  lemma DollarFront(u: Unicode, s: string)
    requires Sane(u) && s != "" && s[0] == '$' && BuiltInToken(u, s).Tok?
    ensures var r := BuiltInToken(u, s);
      var j := |s| - |r.rest|;
      0 <= j <= |s| && r.rest == s[j..] && Front(u, s, r.token, j)
  {
    var n := IdentSpan(u, s[1..]);
    var name, w := s[1..][..n], s[..n + 1];
    assert w == "$" + name && s[1..][n..] == s[n + 1..];
    assert s[n + 1..] != "" ==> s[n + 1..][0] == s[1..][n];
    DollarRest(name, s[n + 1..]);
    EndsExact(u, w, s[n + 1..]);
    DollarSpells(u, name, s[n + 1..]);
    hide Span, Ends, Spells, DollarToken, Sane;
  }

  lemma DollarSpells(u: Unicode, name: string, rest: string)
    requires DollarToken(name, rest).Tok?
    ensures Spells(u, "$" + name, DollarToken(name, rest).token)
  {
    DollarNames();
    hide HexLiteral, NumeralOf, Quotes, CaseOf;
  }

  lemma DollarNames()
    ensures "$" + "all" == "$all" && "$" + "owner" == "$owner" && "$" + "creator" == "$creator" && "$" + "key" == "$key"
    ensures "$" + "expiration" == "$expiration" && "$" + "contentType" == "$contentType"
         && "$" + "createdAtBlock" == "$createdAtBlock"
  {}

  lemma WordFront(u: Unicode, s: string)
    requires Sane(u) && s != "" && IdentStart(u, s[0])
    ensures var r := NameToken(u, s);
      var j := |s| - |r.rest|;
      0 <= j <= |s| && r.rest == s[j..] && Front(u, s, r.token, j)
  {
    var n := IdentSpan(u, s);
    var w := s[..n];
    assert IdentContinue(u, s[0]) && n > 0;
    assert s[n..] != "" ==> s[n..][0] == s[n];
    assert forall i :: 0 <= i < n ==> w[i] == s[i];
    EndsExact(u, w, s[n..]);
    hide Span, Ends, Spells, WordToken, Sane;
    WordSpells(u, w);
  }

  lemma WordSpells(u: Unicode, w: string)
    requires w != "" && IdentStart(u, w[0]) && forall i :: 0 <= i < |w| ==> IdentContinue(u, w[i])
    ensures Spells(u, w, WordToken(w))
  {
    CaseExact(w, "and");
    CaseExact(w, "or");
    CaseExact(w, "not");
    CaseExact(w, "in");
    hide EqIgnoreCase, CaseOf, HexLiteral, NumeralOf, Quotes;
  }

  /** What the lexer takes is a spelling of the token it gives. */
  lemma ScanFront(u: Unicode, s: string)
    requires Sane(u) && Scan(u, s).Tok?
    ensures var r := Scan(u, s);
      var j := |s| - |r.rest|;
      0 <= j <= |s| && r.rest == s[j..] && Front(u, s, r.token, j)
  {
    hide OperatorToken, QuotedToken, NumberOrHexToken, BuiltInToken, NameToken, Front;
    if Punctuation(s[0]) {
      OperatorFront(u, s);
    } else if s[0] == '"' {
      QuotedFront(u, s);
    } else if Digit(s[0]) {
      NumberFront(u, s);
    } else if s[0] == '$' {
      DollarFront(u, s);
    } else {
      WordFront(u, s);
    }
  }

  // ── Reading every spelling ───────────────────────────────────────────

  lemma OperatorScan(u: Unicode, s: string, t: Token, j: nat)
    requires Sane(u) && Front(u, s, t, j) && j > 0 && Punctuation(s[0])
    ensures Scan(u, s) == Tok(t, s[j..])
  {
    NotWord(u, s[..j], t);
    assert !u.letter(s[0]);
    hide HexOf, Quotes, NumeralOf, CaseOf, Keyword, Sane, NameChar, HexDigit;
    var w := s[..j];
    assert w[0] == s[0] && (j > 1 ==> w[1] == s[1]);
    assert s[j..] != "" ==> s[j..][0] == s[j];
  }

  /** Nothing but an operator starts with one of its characters. */
  lemma NotWord(u: Unicode, w: string, t: Token)
    requires Sane(u) && Spells(u, w, t) && w != "" && Punctuation(w[0])
    ensures |w| <= 2 && !CaseOf(w, "and") && !CaseOf(w, "or") && !CaseOf(w, "not") && !CaseOf(w, "in")
    ensures !t.EntityKeyTok? && !t.AddressTok? && !t.StringLit? && !t.Number? && !t.Ident?
  {
    var c := w[0];
    assert !u.letter(c) && !Digit(c) && c != '_';
    if t.Number? { NumeralFirst(w, t.n); }
    if Keyword(w) { CaseLetters(u, w); }
    assert !AsciiLetter(c) && c != '"';
    hide NumeralOf, Quotes, HexOf, CaseOf, Sane, NameChar;
  }

  lemma {:induction false} NumeralFirst(s: string, n: nat)
    requires NumeralOf(s, n)
    ensures Digit(s[0])
  {
    DecimalExact(s, n);
  }

  lemma QuotedScan(u: Unicode, s: string, t: Token, j: nat)
    requires Sane(u) && Front(u, s, t, j) && t.StringLit?
    ensures Scan(u, s) == Tok(t, s[j..])
  {
    FrontEnds(u, s, t, j);
    var w := s[..j];
    QuotedSpells(u, w, t.text);
    QuotedScans(u, s);
    hide *;
    var b := w[1..j - 1];
    BodyRead(b, t.text, s[j..]);
    assert w == "\"" + b + "\"" && s == w + s[j..];
    assert s[1..] == b + "\"" + s[j..];
  }

  lemma QuotedSpells(u: Unicode, w: string, text: string)
    ensures Spells(u, w, StringLit(text)) <==> |w| >= 2 && w[0] == '"' && w[|w| - 1] == '"' && Quotes(w[1..|w| - 1], text)
  {
    hide Quotes;
  }

  lemma QuotedScans(u: Unicode, s: string)
    requires s != "" && s[0] == '"'
    ensures StringBody(s[1..]).Text? ==> Scan(u, s) == Tok(StringLit(StringBody(s[1..]).text), StringBody(s[1..]).rest)
  {
    hide StringBody;
  }

  lemma NumberScan(u: Unicode, s: string, t: Token, j: nat)
    requires Sane(u) && Front(u, s, t, j) && t.Number?
    ensures Scan(u, s) == Tok(t, s[j..])
  {
    var w := s[..j];
    DecimalExact(w, t.n);
    hide Decimal, NumeralOf, HexBytes, HexToken;
    assert Digit(s[0]) && forall i :: 0 <= i < j ==> Digit(s[i]);
    assert s[j..] != "" ==> s[j..][0] == s[j];
    assert j == 1 && s[0] == '0' ==> w == "0";
    SpanIs(s, j, Digit);
  }

  lemma HexScan(u: Unicode, s: string, t: Token, j: nat)
    requires Sane(u) && Front(u, s, t, j) && (t.AddressTok? || t.EntityKeyTok?)
    ensures Scan(u, s) == Tok(t, s[j..])
  {
    var w := s[..j];
    var v: Key := if t.AddressTok? then t.addr else t.key;
    HexSpells(u, w, v);
    HexRead(s, j, v);
    EndsExact(u, w, s[j..]);
    assert s[j..] != "" ==> s[j..][0] == s[j];
    assert w[0] == s[0] && w[1] == s[1];
    FrontEnds(u, s, t, j);
    hide *;
    var h := s[2..];
    assert j - 2 < |h| ==> h[j - 2] == s[j..][0];
    SpanIs(h, j - 2, HexDigit);
    HexTokenIs(h, j - 2);
    HexScans(u, s);
  }

  lemma FrontEnds(u: Unicode, s: string, t: Token, j: nat)
    requires Front(u, s, t, j)
    ensures j <= |s| && Spells(u, s[..j], t) && Ends(u, s[..j], s[j..])
  {}

  lemma HexTokenIs(h: string, n: nat)
    requires n == Span(h, HexDigit)
    ensures n == 40 ==> HexToken(h) == Tok(AddressTok(HexBytes(h[..n])), h[n..])
    ensures n == 64 ==> HexToken(h) == Tok(EntityKeyTok(HexBytes(h[..n])), h[n..])
  {
    hide HexBytes, Span;
  }

  lemma HexRead(s: string, j: nat, v: Key)
    requires j <= |s| && HexLiteral(s[..j], v)
    ensures j == 2 + 2 * |v| && s[0] == '0' && (s[1] == 'x' || s[1] == 'X')
    ensures HexBytes(s[2..][..j - 2]) == v && s[2..][j - 2..] == s[j..]
    ensures forall i :: 0 <= i < j - 2 ==> HexDigit(s[2..][i])
  {
    var w, h := s[..j], s[2..];
    HexExact(w[2..], v);
    assert w[0] == s[0] && w[1] == s[1];
    assert w[2..] == h[..j - 2] && h[j - 2..] == s[j..];
    assert forall i :: 0 <= i < j - 2 ==> h[i] == w[2..][i];
    hide HexBytes, HexOf, HexDigit;
  }

  lemma HexScans(u: Unicode, s: string)
    requires |s| > 1 && s[0] == '0' && (s[1] == 'x' || s[1] == 'X')
    ensures Scan(u, s) == HexToken(s[2..])
  {
    hide HexToken;
  }

  lemma DollarScan(u: Unicode, s: string, t: Token, j: nat)
    requires Sane(u) && Front(u, s, t, j) && j > 0 && s[0] == '$'
    ensures Scan(u, s) == Tok(t, s[j..])
  {
    var w, r := s[..j], s[1..];
    DollarName(u, w, t, s[j..]);
    EndsExact(u, w, s[j..]);
    assert w[1..] == r[..j - 1] && r[j - 1..] == s[j..];
    assert j - 1 < |r| ==> r[j - 1] == s[j..][0];
    assert forall i :: 0 <= i < j - 1 ==> r[i] == w[1..][i];
    FrontEnds(u, s, t, j);
    DollarScans(u, s);
    hide *;
    SpanIs(r, j - 1, c => IdentContinue(u, c));
  }

  lemma DollarScans(u: Unicode, s: string)
    requires s != "" && s[0] == '$'
    ensures Scan(u, s) == DollarToken(s[1..][..Span(s[1..], c => IdentContinue(u, c))], s[1..][Span(s[1..], c => IdentContinue(u, c))..])
  {
    hide DollarToken, Span;
  }

  lemma DollarName(u: Unicode, w: string, t: Token, rest: string)
    requires Sane(u) && Spells(u, w, t) && w != "" && w[0] == '$'
    ensures DollarToken(w[1..], rest) == Tok(t, rest)
    ensures forall i :: 0 <= i < |w[1..]| ==> IdentContinue(u, w[1..][i])
  {
    DollarOnly(u, w, t);
    DollarTails();
    DollarTable(rest);
    NameLetters(u, w[1..]);
    hide *;
  }

  lemma DollarTails()
    ensures "$all"[1..] == "all" && "$owner"[1..] == "owner" && "$creator"[1..] == "creator" && "$key"[1..] == "key"
    ensures "$expiration"[1..] == "expiration" && "$contentType"[1..] == "contentType"
         && "$createdAtBlock"[1..] == "createdAtBlock"
  {}

  lemma DollarTable(rest: string)
    ensures DollarToken("all", rest) == Tok(DollarAll, rest) && DollarToken("owner", rest) == Tok(DollarOwner, rest)
    ensures DollarToken("creator", rest) == Tok(DollarCreator, rest) && DollarToken("key", rest) == Tok(DollarKey, rest)
    ensures DollarToken("expiration", rest) == Tok(DollarExpiration, rest)
    ensures DollarToken("contentType", rest) == Tok(DollarContentType, rest)
    ensures DollarToken("createdAtBlock", rest) == Tok(DollarCreatedAtBlock, rest)
  {}

  lemma NameLetters(u: Unicode, s: string)
    requires Sane(u) && (s == "all" || s == "owner" || s == "creator" || s == "key" || s == "expiration" || s == "contentType"
                         || s == "createdAtBlock")
    ensures forall i :: 0 <= i < |s| ==> IdentContinue(u, s[i])
  {
    assert forall i :: 0 <= i < |s| ==> AsciiLetter(s[i]);
  }

  lemma DollarOnly(u: Unicode, w: string, t: Token)
    requires Sane(u) && Spells(u, w, t) && w != "" && w[0] == '$'
    ensures (t == DollarAll && w == "$all") || (t == DollarOwner && w == "$owner") || (t == DollarCreator && w == "$creator")
         || (t == DollarKey && w == "$key") || (t == DollarExpiration && w == "$expiration")
         || (t == DollarContentType && w == "$contentType") || (t == DollarCreatedAtBlock && w == "$createdAtBlock")
  {
    if t.Number? { NumeralFirst(w, t.n); }
    if Keyword(w) { CaseLetters(u, w); }
    assert !u.letter('$') && !Keyword(w);
    hide NumeralOf, Quotes, HexOf, CaseOf, Sane, NameChar, Digit, AsciiLetter;
  }

  lemma WordScan(u: Unicode, s: string, t: Token, j: nat)
    requires Sane(u) && Front(u, s, t, j) && j > 0 && IdentStart(u, s[0])
    ensures Scan(u, s) == Tok(t, s[j..])
  {
    var w := s[..j];
    WordName(u, w, t);
    EndsExact(u, w, s[j..]);
    assert s[j..] != "" ==> s[j..][0] == s[j];
    assert forall i :: 0 <= i < j ==> s[i] == w[i];
    assert !Punctuation(s[0]) && s[0] != '"' && !Digit(s[0]) && s[0] != '$';
    hide Spells, Span, WordToken, Ends, Sane;
    SpanIs(s, j, c => IdentContinue(u, c));
  }

  lemma WordName(u: Unicode, w: string, t: Token)
    requires Sane(u) && Spells(u, w, t) && w != "" && IdentStart(u, w[0])
    ensures WordToken(w) == t && forall i :: 0 <= i < |w| ==> IdentContinue(u, w[i])
  {
    WordOnly(u, w, t);
    if Keyword(w) { CaseLetters(u, w); }
    CaseExact(w, "and");
    CaseExact(w, "or");
    CaseExact(w, "not");
    CaseExact(w, "in");
    OneWord(w);
    hide EqIgnoreCase, CaseOf, Sane, Spells;
  }

  /** A word is at most one of the keywords. */
  lemma OneWord(w: string)
    ensures CaseOf(w, "and") ==> !CaseOf(w, "or") && !CaseOf(w, "not") && !CaseOf(w, "in")
    ensures CaseOf(w, "or") ==> !CaseOf(w, "not") && !CaseOf(w, "in")
    ensures CaseOf(w, "not") ==> !CaseOf(w, "in")
  {
    if w != "" { assert w[0] == w[0]; }
    assert |w| == 3 && CaseOf(w, "and") ==> w[0] == 'a' || w[0] == 'A';
    assert |w| == 3 && CaseOf(w, "not") ==> w[0] == 'n' || w[0] == 'N';
    assert |w| == 2 && CaseOf(w, "or") ==> w[0] == 'o' || w[0] == 'O';
    assert |w| == 2 && CaseOf(w, "in") ==> w[0] == 'i' || w[0] == 'I';
  }

  lemma WordOnly(u: Unicode, w: string, t: Token)
    requires Sane(u) && Spells(u, w, t) && w != "" && IdentStart(u, w[0])
    ensures (t == AndTok && CaseOf(w, "and")) || (t == OrTok && CaseOf(w, "or")) || (t == NotTok && CaseOf(w, "not"))
         || (t == InTok && CaseOf(w, "in")) || (t == Ident(w) && !Keyword(w) && forall i :: 0 <= i < |w| ==> NameChar(u, w[i]))
  {
    if t.Number? { NumeralFirst(w, t.n); }
    NotSymbol(u, w[0]);
    hide NumeralOf, Quotes, HexOf, CaseOf, Sane, Keyword, NameChar, IdentStart, Digit;
  }

  lemma NotSymbol(u: Unicode, c: char)
    requires Sane(u) && IdentStart(u, c)
    ensures c !in "()*=&|!<>~$\"" && c != '0' && !Digit(c)
  {
    assert c in "()*=&|!<>~$\"" ==> '!' <= c <= '~' && !AsciiLetter(c);
  }

  lemma CaseLetters(u: Unicode, w: string)
    requires Sane(u) && Keyword(w)
    ensures forall i :: 0 <= i < |w| ==> AsciiLetter(w[i]) && u.alnum(w[i])
    ensures w != "" && u.letter(w[0])
  {}

  /** Every spelling that ends where it should is read as its token. */
  lemma FrontScan(u: Unicode, s: string, t: Token, j: nat)
    requires Sane(u) && Front(u, s, t, j)
    ensures j > 0 && !u.space(s[0]) && Scan(u, s) == Tok(t, s[j..])
  {
    FrontStart(u, s, t, j);
    hide Front, Scan, Punctuation, Digit, IdentStart;
    if Punctuation(s[0]) {
      OperatorScan(u, s, t, j);
    } else if t.StringLit? {
      QuotedScan(u, s, t, j);
    } else if t.Number? {
      NumberScan(u, s, t, j);
    } else if t.AddressTok? || t.EntityKeyTok? {
      HexScan(u, s, t, j);
    } else if s[0] == '$' {
      DollarScan(u, s, t, j);
    } else {
      WordScan(u, s, t, j);
    }
  }

  lemma FrontStart(u: Unicode, s: string, t: Token, j: nat)
    requires Sane(u) && Front(u, s, t, j)
    ensures j > 0 && !u.space(s[0])
    ensures Punctuation(s[0]) || s[0] == '$' || IdentStart(u, s[0]) || t.StringLit? || t.Number? || t.AddressTok? || t.EntityKeyTok?
  {
    FrontEnds(u, s, t, j);
    var w := s[..j];
    SpellsStart(u, w, t);
    assert w[0] == s[0];
    hide *;
    NoSpace(u, s[0]);
  }

  /** How each class of tokens starts. */
  lemma SpellsStart(u: Unicode, w: string, t: Token)
    requires Sane(u) && Spells(u, w, t)
    ensures w != ""
    ensures Punctuation(w[0]) || w[0] == '$' || IdentStart(u, w[0])
      || (t.StringLit? && w[0] == '"') || ((t.Number? || t.AddressTok? || t.EntityKeyTok?) && Digit(w[0]))
  {
    if Keyword(w) {
      CaseLetters(u, w);
    } else if t.Number? {
      NumeralFirst(w, t.n);
    } else if t.StringLit? || t.AddressTok? || t.EntityKeyTok? || t.Ident? {
      hide Quotes, HexOf, CaseOf, Sane;
    } else {
      SymbolStart(u, w, t);
    }
    hide Spells, Sane, Keyword;
  }

  lemma SymbolStart(u: Unicode, w: string, t: Token)
    requires Spells(u, w, t) && !Keyword(w)
    requires !t.Number? && !t.StringLit? && !t.AddressTok? && !t.EntityKeyTok? && !t.Ident?
    ensures w != "" && (Punctuation(w[0]) || w[0] == '$')
  {
    hide CaseOf;
  }

  lemma NoSpace(u: Unicode, c: char)
    requires Sane(u) && (Punctuation(c) || c == '$' || IdentStart(u, c) || c == '"' || Digit(c))
    ensures !u.space(c)
  {}

  // ── Whole texts ──────────────────────────────────────────────────────

  lemma TokensNow(u: Unicode, text: string)
    requires Sane(u)
    ensures var i := Span(text, u.space);
      var r := Scan(u, text[i..]);
      && (r.Tok? ==> |r.rest| < |text|)
      && (Tokens(u, text) ==
           if r.End? then Some([])
           else if r.Bad? || Tokens(u, r.rest).None? then None
           else Some([r.token] + Tokens(u, r.rest).value))
  {
    Progress(u, text);
    hide Scan, Span, Sane;
  }

  lemma ScanEnds(u: Unicode, s: string)
    ensures Scan(u, s).End? <==> s == ""
  {
    if s != "" { ValueEnds(s); }
    hide StringBody, WordToken, Span, NumberOrHexToken;
  }

  lemma ValueEnds(s: string)
    requires s != ""
    ensures !NumberOrHexToken(s).End?
  {
    hide Span, HexBytes, Decimal;
  }

  lemma SpanAt(s: string, p: char -> bool)
    ensures Span(s, p) <= |s| && forall k :: 0 <= k < Span(s, p) ==> p(s[k])
  {}

  lemma WritesNone(u: Unicode, text: string)
    ensures Writes(u, text, []) <==> forall k :: 0 <= k < |text| ==> u.space(text[k])
  {}

  lemma WritesMore(u: Unicode, text: string, t: Token, ts: seq<Token>, i: nat, j: nat)
    requires WritesFirst(u, text, t, i, j) && j <= |text| && Writes(u, text[j..], ts)
    ensures Writes(u, text, [t] + ts)
  {
    var all := [t] + ts;
    assert all[0] == t && all[1..] == ts;
    hide WritesFirst;
    assert WritesFirst(u, text, all[0], i, j) && Writes(u, text[j..], all[1..]);
  }

  lemma FirstWritten(u: Unicode, text: string, t: Token, i: nat, j: nat)
    requires i <= |text| && (forall k :: 0 <= k < i ==> u.space(text[k])) && Front(u, text[i..], t, j)
    ensures i + j <= |text| && WritesFirst(u, text, t, i, i + j)
  {
    hide Spells, Ends;
    assert text[i..i + j] == text[i..][..j] && text[i + j..] == text[i..][j..];
  }

  lemma FirstRead(u: Unicode, text: string, t: Token, i: nat, j: nat)
    requires WritesFirst(u, text, t, i, j)
    ensures i <= j <= |text| && Front(u, text[i..], t, j - i) && (forall k :: 0 <= k < i ==> u.space(text[k]))
    ensures text[i..][j - i..] == text[j..]
  {
    hide Spells, Ends;
    assert text[i..j] == text[i..][..j - i] && text[j..] == text[i..][j - i..];
  }

  lemma {:induction false} TokensWritten(u: Unicode, text: string)
    requires Sane(u) && Tokens(u, text).Some?
    ensures Writes(u, text, Tokens(u, text).value)
    decreases |text|
  {
    hide *;
    TokensNow(u, text);
    SpanAt(text, u.space);
    var i := Span(text, u.space);
    var r := Scan(u, text[i..]);
    if r.Tok? {
      ScanFront(u, text[i..]);
      var j := |text[i..]| - |r.rest|;
      TokensWritten(u, r.rest);
      FirstWritten(u, text, r.token, i, j);
      assert text[i + j..] == r.rest;
      WritesMore(u, text, r.token, Tokens(u, r.rest).value, i, i + j);
    } else {
      ScanEnds(u, text[i..]);
      WritesNone(u, text);
    }
  }

  lemma WrittenParts(u: Unicode, text: string, ts: seq<Token>) returns (i: nat, j: nat)
    requires ts != [] && Writes(u, text, ts)
    ensures WritesFirst(u, text, ts[0], i, j) && j <= |text| && Writes(u, text[j..], ts[1..])
  {
    hide Spells, Ends;
    i, j :| WritesFirst(u, text, ts[0], i, j) && Writes(u, text[j..], ts[1..]);
  }

  lemma {:induction false} WrittenTokens(u: Unicode, text: string, ts: seq<Token>)
    requires Sane(u) && Writes(u, text, ts)
    ensures Tokens(u, text) == Some(ts)
    decreases |ts|
  {
    hide *;
    TokensNow(u, text);
    if ts == [] {
      WritesNone(u, text);
      SpanIs(text, |text|, u.space);
      ScanEnds(u, "");
      assert text[|text|..] == "";
    } else {
      var i, j := WrittenParts(u, text, ts);
      FirstRead(u, text, ts[0], i, j);
      FrontScan(u, text[i..], ts[0], j - i);
      SpanIs(text, i, u.space);
      WrittenTokens(u, text[j..], ts[1..]);
      assert ts == [ts[0]] + ts[1..];
    }
  }

  /** The lexer accepts exactly the texts that are some tokens in some spelling,
      and gives those tokens. */
  lemma TokensExact(u: Unicode, text: string, ts: seq<Token>)
    requires Sane(u)
    ensures Tokens(u, text) == Some(ts) <==> Writes(u, text, ts)
  {
    if Tokens(u, text) == Some(ts) { TokensWritten(u, text); }
    if Writes(u, text, ts) { WrittenTokens(u, text, ts); }
  }

  /** So a text can be read in one way only. */
  lemma OneReading(u: Unicode, text: string, ts: seq<Token>, ts': seq<Token>)
    requires Sane(u) && Writes(u, text, ts) && Writes(u, text, ts')
    ensures ts == ts'
  {
    WrittenTokens(u, text, ts);
    WrittenTokens(u, text, ts');
  }
}
