/** The query grammar, and that the parser decides it. */
module Grammar {
  import opened Options
  import opened Bytes
  import opened Query
  import opened Lexer
  import opened Parser

  // ── Derivations ──────────────────────────────────────────────────────

  /** The indexed form of one literal token. */
  function ValueOf(k: AnnotKey, t: Token): Option<Key> {
    match LiteralOf(t)
    case None => None
    case Some(l) => EncodeForKey(k, l)
  }

  /** `( v … v )` with at least one value. */
  predicate IsList(k: AnnotKey, ts: seq<Token>, vs: seq<Key>) {
    && vs != [] && |ts| == |vs| + 2 && ts[0] == LParen && ts[|ts| - 1] == RParen
    && forall j :: 0 <= j < |vs| ==> ValueOf(k, ts[j + 1]) == Some(vs[j])
  }

  function Globs(op: Token, k: AnnotKey, prefix: Key): Query {
    if op == Tilde then Glob(k, prefix) else NotGlob(k, prefix)
  }

  predicate DerivesPredicate(ts: seq<Token>, q: Query) {
    |ts| >= 3 && KeyOf(ts[0]).Some? &&
    var k := KeyOf(ts[0]).value;
    || (|ts| == 3 && Comparing(ts[1]) && ValueOf(k, ts[2]).Some?
        && !(Ranged(ts[1]) && (ts[2].AddressTok? || ts[2].EntityKeyTok?)) && q == Compare(ts[1], k, ValueOf(k, ts[2]).value))
    || (|ts| == 3 && Globbing(ts[1]) && GlobKey(k) && ts[2].StringLit? && GlobPrefix(ts[2].text).Some?
        && q == Globs(ts[1], k, GlobPrefix(ts[2].text).value))
    || (ts[1] == InTok && q.In? && q.key == k && IsList(k, ts[2..], q.values))
    || (ts[1] == NotTok && ts[2] == InTok && q.NotIn? && q.key == k && IsList(k, ts[3..], q.values))
  }

  /** Term → `(` Or `)` | NOT `(` Or `)` | Predicate */
  ghost predicate DerivesTerm(ts: seq<Token>, q: Query)
    decreases |ts|, 0
  {
    || (|ts| >= 2 && ts[0] == LParen && ts[|ts| - 1] == RParen && DerivesOr(ts[1..|ts| - 1], q))
    || (|ts| >= 3 && ts[0] == NotTok && ts[1] == LParen && ts[|ts| - 1] == RParen && q.Not? && DerivesOr(ts[2..|ts| - 1], q.inner))
    || DerivesPredicate(ts, q)
  }

  /** And → And AND Term | Term */
  ghost predicate DerivesAnd(ts: seq<Token>, q: Query)
    decreases |ts|, 1
  {
    || DerivesTerm(ts, q)
    || (q.And? && exists i :: 0 <= i < |ts| && ts[i] == AndTok && DerivesAnd(ts[..i], q.left) && DerivesTerm(ts[i + 1..], q.right))
  }

  /** Or → Or OR And | And */
  ghost predicate DerivesOr(ts: seq<Token>, q: Query)
    decreases |ts|, 2
  {
    || DerivesAnd(ts, q)
    || (q.Or? && exists i :: 0 <= i < |ts| && ts[i] == OrTok && DerivesOr(ts[..i], q.left) && DerivesAnd(ts[i + 1..], q.right))
  }

  /** TopLevel → `*` | `$all` | Or */
  ghost predicate Derives(ts: seq<Token>, q: Query) {
    ((ts == [Star] || ts == [DollarAll]) && q == All) || DerivesOr(ts, q)
  }

  // ── Completeness: what derives is parsed ─────────────────────────────

  lemma {:induction false} ValuesParse(k: AnnotKey, ts: seq<Token>, vs: seq<Key>, rest: seq<Token>)
    requires |ts| == |vs| && forall j :: 0 <= j < |vs| ==> ValueOf(k, ts[j]) == Some(vs[j])
    ensures ParseValues(k, ts + [RParen] + rest) == Parsed.Got(vs, [RParen] + rest)
  {
    var all := ts + [RParen] + rest;
    if ts == [] {
      assert all == [RParen] + rest;
    } else {
      assert ValueOf(k, ts[0]) == Some(vs[0]);
      assert all[0] == ts[0] && all[1..] == ts[1..] + [RParen] + rest;
      assert ParseValue(k, all) == Parsed.Got(vs[0], all[1..]) by { hide EncodeForKey; }
      ValuesParse(k, ts[1..], vs[1..], rest);
      assert vs == [vs[0]] + vs[1..];
    }
  }

  lemma ListParse(k: AnnotKey, ts: seq<Token>, vs: seq<Key>, rest: seq<Token>)
    requires IsList(k, ts, vs)
    ensures ParseValueList(k, ts + rest) == Parsed.Got(vs, rest)
  {
    var mid := ts[1..|ts| - 1];
    assert ts + rest == [LParen] + (mid + [RParen] + rest);
    assert (ts + rest)[1..] == mid + [RParen] + rest;
    ValuesParse(k, mid, vs, rest);
    assert ([RParen] + rest)[1..] == rest;
  }

  lemma ValueParse(k: AnnotKey, t: Token, rest: seq<Token>)
    requires ValueOf(k, t).Some?
    ensures ParseValue(k, [t] + rest) == Parsed.Got(ValueOf(k, t).value, rest)
  {
    hide EncodeForKey;
    assert ([t] + rest)[1..] == rest;
  }

  lemma GlobParse(k: AnnotKey, t: Token, rest: seq<Token>)
    requires GlobKey(k) && t.StringLit? && GlobPrefix(t.text).Some?
    ensures ParseGlobPattern(k, [t] + rest) == Parsed.Got(GlobPrefix(t.text).value, rest)
  {
    hide GlobPrefix;
    assert ([t] + rest)[1..] == rest;
  }

  lemma ComparePart(ts: seq<Token>, k: AnnotKey, rest: seq<Token>)
    requires |ts| == 3 && KeyOf(ts[0]) == Some(k) && Comparing(ts[1])
    requires ValueOf(k, ts[2]).Some? && !(Ranged(ts[1]) && (ts[2].AddressTok? || ts[2].EntityKeyTok?))
    ensures ParsePredicate(ts + rest) == Parsed.Got(Compare(ts[1], k, ValueOf(k, ts[2]).value), rest)
  {
    ValueParse(k, ts[2], rest);
    var all := ts + rest;
    assert all[1..][1..] == [ts[2]] + rest;
    hide ParseValue, ValueOf, Compare, KeyOf;
  }

  lemma GlobPart(ts: seq<Token>, k: AnnotKey, rest: seq<Token>)
    requires |ts| == 3 && KeyOf(ts[0]) == Some(k) && Globbing(ts[1])
    requires GlobKey(k) && ts[2].StringLit? && GlobPrefix(ts[2].text).Some?
    ensures ParsePredicate(ts + rest)
         == Parsed.Got(Globs(ts[1], k, GlobPrefix(ts[2].text).value), rest)
  {
    GlobParse(k, ts[2], rest);
    var all := ts + rest;
    assert all[1..][1..] == [ts[2]] + rest;
    hide ParseGlobPattern, GlobPrefix, KeyOf;
  }

  lemma NotInUnfold(ts: seq<Token>, k: AnnotKey)
    requires |ts| > 1 && KeyOf(ts[0]) == Some(k) && ts[1] == NotTok
    ensures |ts| == 2 || ts[2] != InTok ==> ParsePredicate(ts).Fail?
    ensures |ts| > 2 && ts[2] == InTok ==>
      var l := ParseValueList(k, ts[3..]);
      ParsePredicate(ts) == if l.Fail? then Fail else Parsed.Got(NotIn(k, l.value), l.rest)
  {
    hide ParseValueList, KeyOf, ParseValue, ParseGlobPattern;
    var r := ts[1..];
    assert r[1..] == ts[2..] && (|ts| > 2 ==> ts[2..][1..] == ts[3..]);
  }

  lemma InUnfold(ts: seq<Token>, k: AnnotKey)
    requires |ts| > 1 && KeyOf(ts[0]) == Some(k) && ts[1] == InTok
    ensures var l := ParseValueList(k, ts[2..]);
      ParsePredicate(ts) == if l.Fail? then Fail else Parsed.Got(In(k, l.value), l.rest)
  {
    hide ParseValueList, KeyOf, ParseValue, ParseGlobPattern;
    assert ts[1..][1..] == ts[2..];
  }

  lemma InPart(ts: seq<Token>, k: AnnotKey, vs: seq<Key>, rest: seq<Token>)
    requires |ts| >= 2 && KeyOf(ts[0]) == Some(k) && ts[1] == InTok && IsList(k, ts[2..], vs)
    ensures ParsePredicate(ts + rest) == Parsed.Got(In(k, vs), rest)
  {
    hide *;
    ListParse(k, ts[2..], vs, rest);
    assert (ts + rest)[2..] == ts[2..] + rest;
    InUnfold(ts + rest, k);
  }

  lemma NotInPart(ts: seq<Token>, k: AnnotKey, vs: seq<Key>, rest: seq<Token>)
    requires |ts| >= 3 && KeyOf(ts[0]) == Some(k) && ts[1] == NotTok && ts[2] == InTok && IsList(k, ts[3..], vs)
    ensures ParsePredicate(ts + rest) == Parsed.Got(NotIn(k, vs), rest)
  {
    hide *;
    ListParse(k, ts[3..], vs, rest);
    assert (ts + rest)[3..] == ts[3..] + rest;
    NotInUnfold(ts + rest, k);
  }

  lemma KeyTerm(ts: seq<Token>)
    requires ts != [] && KeyOf(ts[0]).Some?
    ensures ParseTerm(ts) == ParsePredicate(ts)
  {}

  lemma PredicateParse(ts: seq<Token>, q: Query, rest: seq<Token>)
    requires DerivesPredicate(ts, q)
    ensures ParsePredicate(ts + rest) == Parsed.Got(q, rest)
    ensures ParseTerm(ts + rest) == Parsed.Got(q, rest)
  {
    PredicateCases(ts, q);
    hide *;
    var k := KeyOf(ts[0]).value;
    if ts[1] == InTok {
      InPart(ts, k, q.values, rest);
    } else if ts[1] == NotTok {
      NotInPart(ts, k, q.values, rest);
    } else if Comparing(ts[1]) {
      ComparePart(ts, k, rest);
    } else {
      GlobPart(ts, k, rest);
    }
    KeyTerm(ts + rest);
  }

  lemma PredicateCases(ts: seq<Token>, q: Query)
    requires DerivesPredicate(ts, q)
    ensures |ts| >= 3 && KeyOf(ts[0]).Some?
    ensures var k, op, v := KeyOf(ts[0]).value, ts[1], ts[2];
      if op == InTok then q.In? && q == In(k, q.values) && IsList(k, ts[2..], q.values)
      else if op == NotTok then v == InTok && q.NotIn? && q == NotIn(k, q.values) && IsList(k, ts[3..], q.values)
      else if Comparing(op) then
        |ts| == 3 && ValueOf(k, v).Some? && !(Ranged(op) && (v.AddressTok? || v.EntityKeyTok?)) && q == Compare(op, k, ValueOf(k, v).value)
      else |ts| == 3 && Globbing(op) && GlobKey(k) && v.StringLit? && GlobPrefix(v.text).Some? && q == Globs(op, k, GlobPrefix(v.text).value)
  {
    hide ValueOf, GlobPrefix, IsList, Compare, KeyOf, GlobKey;
  }

  predicate NotAnd(rest: seq<Token>) { rest == [] || rest[0] != AndTok }
  predicate NotOr(rest: seq<Token>) { rest == [] || rest[0] != OrTok }

  lemma ParensParse(ts: seq<Token>, from: nat, q: Query, rest: seq<Token>)
    requires from < |ts| && ts[|ts| - 1] == RParen
    requires ParseOr(ts[from..|ts| - 1] + ([RParen] + rest)) == Parsed.Got(q, [RParen] + rest)
    ensures ParseOr((ts + rest)[from..]) == Parsed.Got(q, [RParen] + rest)
    ensures Expect([RParen] + rest, RParen) == Parsed.Got((), rest)
  {
    assert (ts + rest)[from..] == ts[from..|ts| - 1] + ([RParen] + rest);
    assert ([RParen] + rest)[1..] == rest;
  }

  lemma {:induction false} TermParse(ts: seq<Token>, q: Query, rest: seq<Token>)
    requires DerivesTerm(ts, q)
    ensures ParseTerm(ts + rest) == Parsed.Got(q, rest)
    decreases |ts|, 0
  {
    hide ParseOr, ParsePredicate;
    if |ts| >= 2 && ts[0] == LParen && ts[|ts| - 1] == RParen && DerivesOr(ts[1..|ts| - 1], q) {
      OrParse(ts[1..|ts| - 1], q, [RParen] + rest);
      ParensParse(ts, 1, q, rest);
    } else if |ts| >= 3 && ts[0] == NotTok && ts[1] == LParen && ts[|ts| - 1] == RParen && q.Not? && DerivesOr(ts[2..|ts| - 1], q.inner) {
      OrParse(ts[2..|ts| - 1], q.inner, [RParen] + rest);
      ParensParse(ts, 2, q.inner, rest);
      assert (ts + rest)[1..][1..] == (ts + rest)[2..];
    } else {
      PredicateParse(ts, q, rest);
    }
  }

  lemma AndRestStep(q: Query, mid: seq<Token>, v: Query, rest: seq<Token>)
    requires ParseTerm(mid + rest) == Parsed.Got(v, rest)
    ensures AndRest(q, [AndTok] + mid + rest) == AndRest(And(q, v), rest)
  {
    hide ParseTerm;
    assert ([AndTok] + mid + rest)[1..] == mid + rest;
  }

  lemma AndStart(ts: seq<Token>, q: Query, rest: seq<Token>)
    requires ParseTerm(ts) == Parsed.Got(q, rest)
    ensures ParseAnd(ts) == AndRest(q, rest)
  {
    hide ParseTerm, AndRest;
  }

  lemma AndSplit(ts: seq<Token>, q: Query) returns (i: nat)
    requires DerivesAnd(ts, q) && !DerivesTerm(ts, q)
    ensures q.And? && i < |ts| && ts[i] == AndTok && DerivesAnd(ts[..i], q.left) && DerivesTerm(ts[i + 1..], q.right)
  {
    hide DerivesTerm;
    i :| 0 <= i < |ts| && ts[i] == AndTok && DerivesAnd(ts[..i], q.left) && DerivesTerm(ts[i + 1..], q.right);
  }

  lemma {:induction false} AndParse(ts: seq<Token>, q: Query, rest: seq<Token>)
    requires DerivesAnd(ts, q)
    ensures ParseAnd(ts + rest) == AndRest(q, rest)
    decreases |ts|, 1
  {
    hide *;
    if DerivesTerm(ts, q) {
      TermParse(ts, q, rest);
      AndStart(ts + rest, q, rest);
    } else {
      var i := AndSplit(ts, q);
      AndParse(ts[..i], q.left, [AndTok] + ts[i + 1..] + rest);
      assert ts + rest == ts[..i] + ([AndTok] + ts[i + 1..] + rest);
      TermParse(ts[i + 1..], q.right, rest);
      AndRestStep(q.left, ts[i + 1..], q.right, rest);
      assert And(q.left, q.right) == q;
    }
  }

  lemma {:induction false} OrParse(ts: seq<Token>, q: Query, rest: seq<Token>)
    requires DerivesOr(ts, q) && NotAnd(rest)
    ensures ParseOr(ts + rest) == OrRest(q, rest)
    ensures NotOr(rest) ==> ParseOr(ts + rest) == Parsed.Got(q, rest)
    decreases |ts|, 2
  {
    OrEnds(q, rest);
    hide *;
    if DerivesAnd(ts, q) {
      AndParse(ts, q, rest);
      OrStart(ts + rest, q, rest);
    } else {
      var i := OrSplit(ts, q);
      OrEnds(q.right, rest);
      OrParse(ts[..i], q.left, [OrTok] + (ts[i + 1..] + rest));
      assert ts + rest == ts[..i] + ([OrTok] + (ts[i + 1..] + rest));
      AndParse(ts[i + 1..], q.right, rest);
      OrRestStep(q.left, ts[i + 1..], q.right, rest);
      assert Or(q.left, q.right) == q;
    }
  }

  lemma OrEnds(q: Query, rest: seq<Token>)
    ensures NotOr(rest) ==> OrRest(q, rest) == Parsed.Got(q, rest)
    ensures NotAnd(rest) ==> AndRest(q, rest) == Parsed.Got(q, rest)
    ensures forall more: seq<Token> :: NotAnd([OrTok] + more)
  {}

  lemma OrStart(ts: seq<Token>, q: Query, rest: seq<Token>)
    requires ParseAnd(ts) == AndRest(q, rest) == Parsed.Got(q, rest)
    ensures ParseOr(ts) == OrRest(q, rest)
  {
    hide ParseAnd, AndRest, OrRest;
  }

  lemma OrRestStep(q: Query, mid: seq<Token>, v: Query, rest: seq<Token>)
    requires ParseAnd(mid + rest) == AndRest(v, rest) == Parsed.Got(v, rest)
    ensures OrRest(q, [OrTok] + (mid + rest)) == OrRest(Or(q, v), rest)
  {
    hide ParseAnd, AndRest;
    assert ([OrTok] + (mid + rest))[1..] == mid + rest;
  }

  lemma OrSplit(ts: seq<Token>, q: Query) returns (i: nat)
    requires DerivesOr(ts, q) && !DerivesAnd(ts, q)
    ensures q.Or? && i < |ts| && ts[i] == OrTok && DerivesOr(ts[..i], q.left) && DerivesAnd(ts[i + 1..], q.right)
  {
    hide DerivesAnd;
    i :| 0 <= i < |ts| && ts[i] == OrTok && DerivesOr(ts[..i], q.left) && DerivesAnd(ts[i + 1..], q.right);
  }

  // ── Soundness: what is parsed derives ────────────────────────────────

  /** `rest` is what is left of `ts`. */
  predicate Left(ts: seq<Token>, rest: seq<Token>) {
    |rest| <= |ts| && ts == ts[..|ts| - |rest|] + rest
  }

  function Taken(ts: seq<Token>, rest: seq<Token>): seq<Token>
    requires |rest| <= |ts|
  {
    ts[..|ts| - |rest|]
  }

  /** The first tokens are literals of these values, and a `)` follows them. */
  predicate ValuesAre(k: AnnotKey, ts: seq<Token>, vs: seq<Key>, rest: seq<Token>) {
    && |ts| == |vs| + |rest| && rest != [] && rest[0] == RParen && ts[|vs|..] == rest
    && forall j :: 0 <= j < |vs| ==> ValueOf(k, ts[j]) == Some(vs[j])
  }

  lemma {:induction false} ValuesSound(k: AnnotKey, ts: seq<Token>)
    requires ParseValues(k, ts).Got?
    ensures ValuesAre(k, ts, ParseValues(k, ts).value, ParseValues(k, ts).rest)
    decreases |ts|
  {
    if ts != [] && ts[0] == RParen {
      assert ts[0..] == ts;
    } else {
      ValuesUnfold(k, ts);
      hide *;
      ValuesSound(k, ts[1..]);
      var s := ParseValues(k, ts[1..]);
      ValuesMore(k, ts, s.value, s.rest);
    }
  }

  lemma ValuesMore(k: AnnotKey, ts: seq<Token>, vs: seq<Key>, rest: seq<Token>)
    requires ts != [] && ValueOf(k, ts[0]).Some? && ValuesAre(k, ts[1..], vs, rest)
    ensures ValuesAre(k, ts, [ValueOf(k, ts[0]).value] + vs, rest)
  {
    hide ValueOf;
    var ws := [ValueOf(k, ts[0]).value] + vs;
    forall j | 0 <= j < |ws| ensures ValueOf(k, ts[j]) == Some(ws[j]) {
      if j > 0 { assert ts[j] == ts[1..][j - 1]; }
    }
    assert ts[|ws|..] == ts[1..][|vs|..];
  }

  lemma ValuesUnfold(k: AnnotKey, ts: seq<Token>)
    requires ParseValues(k, ts).Got? && !(ts != [] && ts[0] == RParen)
    ensures ts != [] && ValueOf(k, ts[0]).Some? && ParseValues(k, ts[1..]).Got?
    ensures var s := ParseValues(k, ts[1..]); ParseValues(k, ts) == Parsed.Got([ValueOf(k, ts[0]).value] + s.value, s.rest)
  {
    hide EncodeForKey;
  }

  lemma ListSound(k: AnnotKey, ts: seq<Token>)
    requires ParseValueList(k, ts).Got?
    ensures var r := ParseValueList(k, ts); Left(ts, r.rest) && IsList(k, Taken(ts, r.rest), r.value)
  {
    ListUnfold(k, ts);
    ValuesSound(k, ts[1..]);
    hide ValueOf, ParseValues, ParseValueList;
    var s, r := ParseValues(k, ts[1..]), ParseValueList(k, ts);
    TakenList(ts, s.rest, r.rest);
    var taken := Taken(ts, r.rest);
    forall j | 0 <= j < |r.value| ensures ValueOf(k, taken[j + 1]) == Some(r.value[j]) {
      assert taken[j + 1] == ts[1..][j];
    }
  }

  lemma ListUnfold(k: AnnotKey, ts: seq<Token>)
    requires ParseValueList(k, ts).Got?
    ensures ts != [] && ts[0] == LParen && ParseValues(k, ts[1..]).Got?
    ensures var s, r := ParseValues(k, ts[1..]), ParseValueList(k, ts);
      s.value == r.value != [] && s.rest != [] && s.rest[0] == RParen && s.rest[1..] == r.rest
  {
    hide ParseValues;
  }

  lemma TakenList(ts: seq<Token>, close: seq<Token>, rest: seq<Token>)
    requires ts != [] && Left(ts[1..], close) && close != [] && close[1..] == rest
    ensures Left(ts, rest)
    ensures var t := Taken(ts, rest);
      && |t| == |ts| - |rest| >= 2 && t[|t| - 1] == close[0] && t[0] == ts[0]
      && forall j :: 0 < j < |t| - 1 ==> t[j] == ts[1..][j - 1]
  {
    assert ts == [ts[0]] + ts[1..];
    assert close == [close[0]] + rest;
  }

  lemma PredicateSound(ts: seq<Token>)
    requires ParsePredicate(ts).Got?
    ensures var r := ParsePredicate(ts); Left(ts, r.rest) && DerivesPredicate(Taken(ts, r.rest), r.value)
  {
    PredicateForms(ts);
    hide *;
    if ts[1] == NotTok {
      NotInSound(ts);
    } else if ts[1] == InTok {
      InSound(ts);
    } else {
      LeafSound(ts);
    }
  }

  lemma PredicateForms(ts: seq<Token>)
    requires ParsePredicate(ts).Got?
    ensures |ts| > 1 && KeyOf(ts[0]).Some?
  {
    hide EncodeForKey, GlobPrefix, ParseValueList, KeyOf;
  }

  /** What is taken after the first `n` tokens. */
  lemma TakenAfter(ts: seq<Token>, n: nat, rest: seq<Token>)
    requires n <= |ts| && Left(ts[n..], rest)
    ensures Left(ts, rest)
    ensures var t := Taken(ts, rest); |t| >= n && t[n..] == Taken(ts[n..], rest) && forall j :: 0 <= j < n ==> t[j] == ts[j]
  {
    assert ts == ts[..n] + ts[n..];
  }

  lemma NotInSound(ts: seq<Token>)
    requires ParsePredicate(ts).Got? && |ts| > 1 && ts[1] == NotTok && KeyOf(ts[0]).Some?
    ensures var r := ParsePredicate(ts); Left(ts, r.rest) && DerivesPredicate(Taken(ts, r.rest), r.value)
  {
    hide *;
    var r, k := ParsePredicate(ts), KeyOf(ts[0]).value;
    NotInUnfold(ts, k);
    ListSound(k, ts[3..]);
    TakenAfter(ts, 3, r.rest);
    NotInDerives(Taken(ts, r.rest), k, r.value);
  }

  lemma NotInDerives(ts: seq<Token>, k: AnnotKey, q: Query)
    requires |ts| >= 3 && KeyOf(ts[0]) == Some(k) && ts[1] == NotTok && ts[2] == InTok && q.NotIn? && q.key == k && IsList(k, ts[3..], q.values)
    ensures DerivesPredicate(ts, q)
  {
    hide IsList, KeyOf;
  }

  lemma InSound(ts: seq<Token>)
    requires ParsePredicate(ts).Got? && |ts| > 1 && ts[1] == InTok && KeyOf(ts[0]).Some?
    ensures var r := ParsePredicate(ts); Left(ts, r.rest) && DerivesPredicate(Taken(ts, r.rest), r.value)
  {
    hide *;
    var r, k := ParsePredicate(ts), KeyOf(ts[0]).value;
    InUnfold(ts, k);
    ListSound(k, ts[2..]);
    TakenAfter(ts, 2, r.rest);
    InDerives(Taken(ts, r.rest), k, r.value);
  }

  lemma InDerives(ts: seq<Token>, k: AnnotKey, q: Query)
    requires |ts| >= 2 && KeyOf(ts[0]) == Some(k) && ts[1] == InTok && q.In? && q.key == k && IsList(k, ts[2..], q.values)
    ensures DerivesPredicate(ts, q)
  {
    ListLength(k, ts[2..], q.values);
    hide IsList, KeyOf;
  }

  lemma LeafSound(ts: seq<Token>)
    requires ParsePredicate(ts).Got? && |ts| > 1 && ts[1] != InTok && ts[1] != NotTok && KeyOf(ts[0]).Some?
    ensures var r := ParsePredicate(ts); Left(ts, r.rest) && DerivesPredicate(Taken(ts, r.rest), r.value)
  {
    hide EncodeForKey, GlobPrefix, ParseValueList, IsList, KeyOf, Compare;
    var r := ParsePredicate(ts);
    assert ts[1..][1..] == ts[2..];
    assert |ts| > 2 && r.rest == ts[3..];
    assert ts == [ts[0], ts[1], ts[2]] + r.rest;
  }

  lemma ListLength(k: AnnotKey, ts: seq<Token>, vs: seq<Key>)
    requires IsList(k, ts, vs)
    ensures |ts| >= 3
  {}

  lemma {:induction false} TermSound(ts: seq<Token>)
    requires ParseTerm(ts).Got?
    ensures var r := ParseTerm(ts); Left(ts, r.rest) && DerivesTerm(Taken(ts, r.rest), r.value)
    decreases |ts|, 0
  {
    TermUnfold(ts);
    hide *;
    var r := ParseTerm(ts);
    if ts != [] && ts[0] == NotTok {
      OrSound(ts[2..]);
      var s := ParseOr(ts[2..]);
      ParensSound(ts, 2, s.rest, r.rest);
      ParensTerm(ts, r.rest, s.rest, s.value);
    } else if ts != [] && ts[0] == LParen {
      OrSound(ts[1..]);
      var s := ParseOr(ts[1..]);
      ParensSound(ts, 1, s.rest, r.rest);
      ParensTerm(ts, r.rest, s.rest, s.value);
    } else {
      PredicateSound(ts);
      PredicateTerm(Taken(ts, r.rest), r.value);
    }
  }

  /** What a term that parses consists of. */
  lemma TermUnfold(ts: seq<Token>)
    requires ParseTerm(ts).Got?
    ensures ts != []
    ensures ts[0] == NotTok ==>
      && |ts| > 1 && ts[1] == LParen && ParseOr(ts[2..]).Got?
      && var s := ParseOr(ts[2..]);
      s.rest != [] && s.rest[0] == RParen && ParseTerm(ts) == Parsed.Got(Not(s.value), s.rest[1..])
    ensures ts[0] == LParen ==>
      && ParseOr(ts[1..]).Got?
      && var s := ParseOr(ts[1..]);
      s.rest != [] && s.rest[0] == RParen && ParseTerm(ts) == Parsed.Got(s.value, s.rest[1..])
    ensures ts[0] != NotTok && ts[0] != LParen ==> ParsePredicate(ts) == ParseTerm(ts)
  {
    hide ParseOr, ParsePredicate;
    if |ts| > 1 { assert ts[1..][1..] == ts[2..]; }
    if ts == [] { PredicateForms(ts); }
  }

  lemma ParensTerm(ts: seq<Token>, rest: seq<Token>, inner: seq<Token>, q: Query)
    requires |rest| <= |ts|
    ensures var t := Taken(ts, rest);
      && (|t| >= 2 && t[0] == LParen && t[|t| - 1] == RParen && DerivesOr(t[1..|t| - 1], q) ==> DerivesTerm(t, q))
      && (|t| >= 3 && t[0] == NotTok && t[1] == LParen && t[|t| - 1] == RParen && DerivesOr(t[2..|t| - 1], q) ==> DerivesTerm(t, Not(q)))
  {
    hide DerivesOr, DerivesPredicate;
  }

  lemma PredicateTerm(ts: seq<Token>, q: Query)
    requires DerivesPredicate(ts, q)
    ensures DerivesTerm(ts, q)
  {
    hide DerivesOr, DerivesPredicate;
  }

  lemma ParensSound(ts: seq<Token>, from: nat, inner: seq<Token>, rest: seq<Token>)
    requires from <= |ts| && Left(ts[from..], inner) && inner != [] && inner[0] == RParen && inner[1..] == rest
    ensures Left(ts, rest)
    ensures var t := Taken(ts, rest);
      |t| > from && t[|t| - 1] == RParen && t[from..|t| - 1] == Taken(ts[from..], inner) && forall j :: 0 <= j < from ==> t[j] == ts[j]
  {
    assert ts == ts[..from] + ts[from..];
    assert inner == [RParen] + rest;
  }

  lemma Splice(done: seq<Token>, ts: seq<Token>, rest: seq<Token>)
    requires ts != [] && Left(ts[1..], rest)
    ensures done + ts == done + [ts[0]] + Taken(ts[1..], rest) + rest
  {
    assert ts == [ts[0]] + ts[1..];
  }

  lemma {:induction false} AndSound(ts: seq<Token>)
    requires ParseAnd(ts).Got?
    ensures var r := ParseAnd(ts); Left(ts, r.rest) && DerivesAnd(Taken(ts, r.rest), r.value)
    decreases |ts|, 1
  {
    hide ParseTerm, DerivesTerm;
    TermSound(ts);
    var t := ParseTerm(ts);
    AndRestSound(Taken(ts, t.rest), t.value, t.rest);
  }

  lemma AndJoin(a: seq<Token>, q: Query, b: seq<Token>, r: Query)
    requires DerivesAnd(a, q) && DerivesTerm(b, r)
    ensures DerivesAnd(a + [AndTok] + b, And(q, r))
  {
    hide DerivesTerm;
    var ts := a + [AndTok] + b;
    assert ts[..|a|] == a && ts[|a|] == AndTok && ts[|a| + 1..] == b;
  }

  lemma {:induction false} AndRestSound(done: seq<Token>, q: Query, ts: seq<Token>)
    requires DerivesAnd(done, q) && AndRest(q, ts).Got?
    ensures var r := AndRest(q, ts); Left(done + ts, r.rest) && DerivesAnd(Taken(done + ts, r.rest), r.value)
    decreases |ts|, 2
  {
    hide ParseTerm, DerivesTerm;
    var all := done + ts;
    if ts == [] || ts[0] != AndTok {
      assert Taken(all, ts) == done;
    } else {
      TermSound(ts[1..]);
      var t := ParseTerm(ts[1..]);
      AndJoin(done, q, Taken(ts[1..], t.rest), t.value);
      var done' := done + [AndTok] + Taken(ts[1..], t.rest);
      Splice(done, ts, t.rest);
      AndRestSound(done', And(q, t.value), t.rest);
    }
  }

  lemma {:induction false} OrSound(ts: seq<Token>)
    requires ParseOr(ts).Got?
    ensures var r := ParseOr(ts); Left(ts, r.rest) && DerivesOr(Taken(ts, r.rest), r.value)
    decreases |ts|, 3
  {
    hide ParseAnd, DerivesAnd;
    AndSound(ts);
    var t := ParseAnd(ts);
    OrRestSound(Taken(ts, t.rest), t.value, t.rest);
  }

  lemma OrJoin(a: seq<Token>, q: Query, b: seq<Token>, r: Query)
    requires DerivesOr(a, q) && DerivesAnd(b, r)
    ensures DerivesOr(a + [OrTok] + b, Or(q, r))
  {
    hide DerivesAnd;
    var ts := a + [OrTok] + b;
    assert ts[..|a|] == a && ts[|a|] == OrTok && ts[|a| + 1..] == b;
  }

  lemma {:induction false} OrRestSound(done: seq<Token>, q: Query, ts: seq<Token>)
    requires DerivesOr(done, q) && OrRest(q, ts).Got?
    ensures var r := OrRest(q, ts); Left(done + ts, r.rest) && DerivesOr(Taken(done + ts, r.rest), r.value)
    decreases |ts|, 4
  {
    hide ParseAnd, DerivesAnd;
    var all := done + ts;
    if ts == [] || ts[0] != OrTok {
      assert Taken(all, ts) == done;
    } else {
      AndSound(ts[1..]);
      var t := ParseAnd(ts[1..]);
      OrJoin(done, q, Taken(ts[1..], t.rest), t.value);
      var done' := done + [OrTok] + Taken(ts[1..], t.rest);
      Splice(done, ts, t.rest);
      OrRestSound(done', Or(q, t.value), t.rest);
    }
  }

  // ── The theorem ──────────────────────────────────────────────────────

  lemma {:induction false} FirstToken(ts: seq<Token>, q: Query)
    requires DerivesOr(ts, q)
    ensures ts != [] && ts[0] != Star && ts[0] != DollarAll && ts[0] != OrTok && ts[0] != AndTok
    decreases |ts|, 2
  {
    if !DerivesAnd(ts, q) {
      var i :| 0 <= i < |ts| && ts[i] == OrTok && DerivesOr(ts[..i], q.left) && DerivesAnd(ts[i + 1..], q.right);
      FirstToken(ts[..i], q.left);
    } else {
      FirstOfAnd(ts, q);
    }
  }

  lemma {:induction false} FirstOfAnd(ts: seq<Token>, q: Query)
    requires DerivesAnd(ts, q)
    ensures ts != [] && ts[0] != Star && ts[0] != DollarAll && ts[0] != OrTok && ts[0] != AndTok
    decreases |ts|
  {
    hide DerivesOr;
    if !DerivesTerm(ts, q) {
      var i :| 0 <= i < |ts| && ts[i] == AndTok && DerivesAnd(ts[..i], q.left) && DerivesTerm(ts[i + 1..], q.right);
      FirstOfAnd(ts[..i], q.left);
    }
  }

  lemma TopLevelIs(ts: seq<Token>)
    ensures ts == [Star] || ts == [DollarAll] ==> ParseTopLevel(ts) == Some(All)
    ensures ts != [] && (ts[0] == Star || ts[0] == DollarAll) && |ts| != 1 ==> ParseTopLevel(ts) == None
    ensures ts == [] || (ts[0] != Star && ts[0] != DollarAll) ==>
      ParseTopLevel(ts) == if ParseOr(ts).Got? && ParseOr(ts).rest == [] then Some(ParseOr(ts).value) else None
  {
    hide ParseOr;
  }

  lemma TopRules(ts: seq<Token>, q: Query)
    ensures Derives(ts, q) <==> ((ts == [Star] || ts == [DollarAll]) && q == All) || DerivesOr(ts, q)
    ensures NotAnd([]) && NotOr([])
  {
    hide DerivesOr;
  }

  lemma AllTaken(ts: seq<Token>)
    ensures Taken(ts, []) == ts
  {}

  /** The parser accepts exactly the grammar, and returns what is derived. */
  lemma ParserExact(ts: seq<Token>, q: Query)
    ensures ParseTopLevel(ts) == Some(q) <==> Derives(ts, q)
  {
    TopLevelIs(ts);
    TopRules(ts, q);
    hide *;
    if DerivesOr(ts, q) {
      FirstToken(ts, q);
      OrEnds(q, []);
      OrParse(ts, q, []);
      assert ts + [] == ts;
    }
    if ParseOr(ts).Got? && ParseOr(ts).rest == [] {
      OrSound(ts);
      AllTaken(ts);
    }
  }

  /** So a token list has at most one meaning. */
  lemma Unambiguous(ts: seq<Token>, q: Query, q': Query)
    requires Derives(ts, q) && Derives(ts, q')
    ensures q == q'
  {
    ParserExact(ts, q);
    ParserExact(ts, q');
  }
}
