/** From calldata attributes to stored ones: names, value checks, and the way
    back. */
module Attributes {
  import opened Bytes
  import opened Accounts
  import opened ArtSet
  import opened Indexes
  import opened EntityDb
  import opened Operations
  import opened Utf8

  // ── Names ────────────────────────────────────────────────────────────

  predicate Letter(b: byte) { 97 <= b <= 122 }

  /** a-z, 0-9, `.`, `-`, `_`. */
  predicate NameByte(b: byte) { Letter(b) || 48 <= b <= 57 || b == 45 || b == 46 || b == 95 }

  /** Nothing wrong with byte `i`: padding, or a name byte with no padding
      before it. */
  predicate GoodAt(raw: Key, i: nat)
    requires i < |raw|
  {
    raw[i] == 0 || ((if i == 0 then Letter(raw[i]) else NameByte(raw[i])) && ZeroFree(raw[..i]))
  }

  function FirstBad(raw: Key, i: nat): (p: nat)
    requires i <= |raw|
    ensures i <= p <= |raw|
    ensures forall j :: i <= j < p ==> GoodAt(raw, j)
    ensures p < |raw| ==> !GoodAt(raw, p)
    decreases |raw| - i
  {
    if i == |raw| || !GoodAt(raw, i) then i else FirstBad(raw, i + 1)
  }

  function CheckIdent(raw: B256): Result<()> {
    if raw[0] == 0 then Revert(Ident32Empty)
    else
      var p := FirstBad(raw, 0);
      if p < 32 then Revert(Ident32InvalidByte(p, raw[p])) else Ok(())
  }

  /** `validate_ident32`: one pass over the bytes. */
  method ValidateIdent32(raw: B256) returns (r: Result<()>)
    ensures r == CheckIdent(raw)
  {
    if raw[0] == 0 { return Revert(Ident32Empty); }
    var seenZero := false;
    for position := 0 to |raw|
      invariant FirstBad(raw, 0) == FirstBad(raw, position)
      invariant seenZero <==> !ZeroFree(raw[..position])
    {
      var b := raw[position];
      assert raw[..position + 1] == raw[..position] + [b];
      if b == 0 {
        seenZero := true;
        assert raw[..position + 1][position] == 0;
      } else {
        var charsetBad := if position == 0 then !Letter(b) else !NameByte(b);
        if seenZero || charsetBad { return Revert(Ident32InvalidByte(position, b)); }
        assert GoodAt(raw, position);
      }
    }
    r := Ok(());
  }

  /** A name of length `n`: a letter, name bytes, then nothing but padding. */
  predicate NameOfLength(raw: B256, n: nat) {
    && 1 <= n <= 32 && Letter(raw[0])
    && (forall i :: 0 <= i < n ==> NameByte(raw[i])) && (forall i :: n <= i < 32 ==> raw[i] == 0)
  }

  ghost predicate IsIdent(raw: B256) { exists n: nat :: NameOfLength(raw, n) }

  lemma IdentAccepted(raw: B256)
    requires CheckIdent(raw) == Ok(())
    ensures NameOfLength(raw, |Strip(raw)|)
  {
    var k := Strip(raw);
    assert GoodAt(raw, 0) && raw[0] != 0;
    assert |k| > 0;
    assert GoodAt(raw, |k| - 1) && raw[|k| - 1] != 0;
    forall i | 0 <= i < |k| ensures NameByte(raw[i]) {
      assert i < |k| - 1 ==> raw[..|k| - 1][i] != 0;
      assert GoodAt(raw, i);
    }
  }

  lemma IdentPasses(raw: B256, n: nat)
    requires NameOfLength(raw, n)
    ensures CheckIdent(raw) == Ok(())
  {
    forall j | 0 <= j < 32 ensures GoodAt(raw, j) {
      if j < n { assert forall i :: 0 <= i < j ==> raw[..j][i] == raw[i]; }
    }
  }

  /** Exactly the names pass; a stored name is a user key, and padding it gives
      the calldata name back. */
  lemma IdentExact(raw: B256)
    ensures CheckIdent(raw) == Ok(()) <==> IsIdent(raw)
    ensures CheckIdent(raw) == Ok(()) ==> UserKey(Strip(raw)) && NoFF(Strip(raw))
    ensures Pad(Strip(raw), 32) == raw
  {
    PadStrip(raw);
    if CheckIdent(raw) == Ok(()) {
      IdentAccepted(raw);
      var k := Strip(raw);
      forall i | 0 <= i < |k| ensures k[i] != 0 && k[i] != 255 { assert NameByte(raw[i]); }
    }
    if n: nat :| NameOfLength(raw, n) { IdentPasses(raw, n); }
  }

  /** Some identifier begins with the first `n` bytes. */
  ghost predicate Begins(raw: B256, n: nat)
    requires n <= 32
  {
    exists id: B256 :: IsIdent(id) && id[..n] == raw[..n]
  }

  /** A refused name is empty, or the byte reported is the first that no
      identifier has in its place. */
  lemma IdentRefused(raw: B256)
    requires !IsIdent(raw)
    ensures raw[0] == 0 ==> CheckIdent(raw) == Revert(Ident32Empty)
    ensures raw[0] != 0 ==>
      exists p: nat :: p < 32 && Begins(raw, p) && !Begins(raw, p + 1) && CheckIdent(raw) == Revert(Ident32InvalidByte(p, raw[p]))
  {
    IdentExact(raw);
    if raw[0] != 0 {
      var p := FirstBad(raw, 0);
      assert CheckIdent(raw) == Revert(Ident32InvalidByte(p, raw[p]));
      BeginsGood(raw, p);
      if Begins(raw, p + 1) {
        var id: B256 :| IsIdent(id) && id[..p + 1] == raw[..p + 1];
        IdentExact(id);
        SameStart(id, raw, p);
        assert false;
      }
    }
  }

  lemma SameStart(id: B256, raw: B256, p: nat)
    requires p < 32 && id[..p + 1] == raw[..p + 1] && CheckIdent(id) == Ok(())
    ensures GoodAt(raw, p)
  {
    assert GoodAt(id, p) && id[p] == id[..p + 1][p];
    assert id[..p] == id[..p + 1][..p] == raw[..p];
  }

  lemma BeginsGood(raw: B256, p: nat)
    requires p < 32 && raw[0] != 0 && forall j :: 0 <= j < p ==> GoodAt(raw, j)
    ensures Begins(raw, p)
  {
    var id: B256 := if p == 0 then [97] + Zeros(31) else raw[..p] + Zeros(32 - p);
    forall j | 0 <= j < 32 ensures GoodAt(id, j) {
      if 0 < p && j < p { assert id[..j] == raw[..j] && GoodAt(raw, j); }
    }
    IdentExact(id);
    assert id[..p] == raw[..p];
  }

  // ── String values ────────────────────────────────────────────────────

  /** First byte that is not zero after one that is, or `|v|`. */
  function FirstAfterZero(v: Key, i: nat): (p: nat)
    requires i <= |v|
    ensures i <= p <= |v|
    ensures forall j :: i <= j < p ==> v[j] == 0 || ZeroFree(v[..j])
    ensures p < |v| ==> v[p] != 0 && !ZeroFree(v[..p])
    decreases |v| - i
  {
    if i == |v| || (v[i] != 0 && !ZeroFree(v[..i])) then i else FirstAfterZero(v, i + 1)
  }

  function CheckNulls(a: WireAttribute): Result<()> {
    var v := Join4(a.value);
    var p := FirstAfterZero(v, 0);
    if p < 128 then Revert(AttributeStringInvalidByte(a.name, p, v[p])) else Ok(())
  }

  /** `reject_embedded_null_in_string`: one pass over the 128 bytes. */
  method RejectEmbeddedNull(a: WireAttribute) returns (r: Result<()>)
    ensures r == CheckNulls(a)
  {
    var v := Join4(a.value);
    var seenZero := false;
    for position := 0 to |v|
      invariant FirstAfterZero(v, 0) == FirstAfterZero(v, position)
      invariant seenZero <==> !ZeroFree(v[..position])
    {
      var b := v[position];
      assert v[..position + 1] == v[..position] + [b];
      if b == 0 {
        seenZero := true;
        assert v[..position + 1][position] == 0;
      } else if seenZero {
        return Revert(AttributeStringInvalidByte(a.name, position, b));
      }
    }
    r := Ok(());
  }

  function CheckText(a: WireAttribute): Result<()> {
    var content := Strip(Join4(a.value));
    var p := ValidUpTo(content);
    if p < |content| then Revert(AttributeStringInvalidByte(a.name, p, content[p])) else Ok(())
  }

  /** The first word after the first that is not zero, or 4. */
  function UpperWord(a: WireAttribute): nat {
    if a.value[1] != ZeroWord() then 1 else if a.value[2] != ZeroWord() then 2 else if a.value[3] != ZeroWord() then 3 else 4
  }

  function CheckUpper(a: WireAttribute): Result<()> {
    if UpperWord(a) < 4 then Revert(AttributeValueMalformed(a.name, a.valueType, UpperWord(a))) else Ok(())
  }

  // ── Conversion ───────────────────────────────────────────────────────

  function ConvertValue(a: WireAttribute): Result<Key> {
    if a.valueType == ATTR_UINT || a.valueType == ATTR_ENTITY_KEY then
      var _ :- CheckUpper(a);
      Ok(a.value[0])
    else if a.valueType == ATTR_STRING then
      var _ :- CheckNulls(a);
      var _ :- CheckText(a);
      Ok(Strip(Join4(a.value)))
    else Fatal
  }

  /** `convert_attributes`: stops at the first one that fails. */
  function Convert(attrs: seq<WireAttribute>): (r: Result<seq<Attribute>>)
    ensures r.Ok? ==> |r.value| == |attrs|
  {
    if attrs == [] then Ok([])
    else
      var pre :- Convert(attrs[..|attrs| - 1]);
      var a := attrs[|attrs| - 1];
      var v :- ConvertValue(a);
      Ok(pre + [Attribute(Strip(a.name), a.valueType, v)])
  }

  /** `validate_attribute_names`. */
  function CheckNames(attrs: seq<WireAttribute>): Result<()> {
    if attrs == [] then Ok(())
    else
      var _ :- CheckNames(attrs[..|attrs| - 1]);
      CheckIdent(attrs[|attrs| - 1].name)
  }

  method ValidateAttributeNames(attrs: seq<WireAttribute>) returns (r: Result<()>)
    ensures r == CheckNames(attrs)
  {
    for i := 0 to |attrs|
      invariant CheckNames(attrs[..i]) == Ok(())
    {
      assert attrs[..i + 1][..i] == attrs[..i];
      r := ValidateIdent32(attrs[i].name);
      if !r.Ok? {
        NamesFail(attrs, i + 1);
        return;
      }
    }
    assert attrs[..|attrs|] == attrs;
    r := Ok(());
  }

  lemma {:induction false} NamesFail(attrs: seq<WireAttribute>, i: nat)
    requires i <= |attrs| && !CheckNames(attrs[..i]).Ok?
    ensures CheckNames(attrs) == CheckNames(attrs[..i])
    decreases |attrs|
  {
    if i < |attrs| {
      assert attrs[..|attrs| - 1][..i] == attrs[..i];
      NamesFail(attrs[..|attrs| - 1], i);
    } else {
      assert attrs[..i] == attrs;
    }
  }

  /** The calldata form of a stored attribute: pad with zeros. */
  function PadWords(v: Key): Words
    requires |v| <= 128
  {
    var p := Pad(v, 128);
    var (a: B256, b: B256, c: B256, d: B256) := (p[..32], p[32..64], p[64..96], p[96..]);
    [a, b, c, d]
  }

  lemma JoinPad(w: Words, v: Key)
    requires |v| <= 128 && Join4(w) == Pad(v, 128)
    ensures PadWords(v) == w
  {
    var s := Join4(w);
    assert w[0] == s[..32] && w[1] == s[32..64] && w[2] == s[64..96] && w[3] == s[96..];
  }

  lemma FixedValue(a: WireAttribute)
    requires CheckUpper(a).Ok?
    ensures PadWords(a.value[0]) == a.value
  {
    var v: Key := a.value[0];
    assert Join4(a.value) == Pad(v, 128);
    JoinPad(a.value, v);
  }

  lemma StringValue(a: WireAttribute)
    requires CheckNulls(a).Ok? && CheckText(a).Ok?
    ensures var v := Strip(Join4(a.value)); PadWords(v) == a.value && IsText(v) && ZeroFree(v) && NoFF(v)
  {
    var s := Join4(a.value);
    var v := Strip(s);
    PadStrip(s);
    JoinPad(a.value, v);
    TextNoFF(v);
    if v != [] {
      assert s[|v| - 1] != 0;
      assert v == s[..|v| - 1] + [s[|v| - 1]];
    }
  }

  /** An accepted value is what is left of the 128 bytes without padding; a
      string is text without zero bytes. */
  lemma ValueExact(a: WireAttribute)
    requires ConvertValue(a).Ok?
    ensures var v := ConvertValue(a).value;
      && |v| <= 128 && PadWords(v) == a.value
      && (a.valueType == ATTR_STRING ==> IsText(v) && ZeroFree(v) && NoFF(v))
      && (a.valueType != ATTR_STRING ==> |v| == 32)
  {
    hide CheckNulls, CheckText, CheckUpper, PadWords, Strip, Join4, IsText;
    if a.valueType == ATTR_STRING { StringValue(a); } else { FixedValue(a); }
  }

  // ── Which values are accepted ────────────────────────────────────────

  /** A number or an entity key: the first word, whatever it is, and zeros. */
  predicate WordAlone(w: Words) { forall i :: 32 <= i < 128 ==> Join4(w)[i] == 0 }

  /** `t` is a text without NUL, and the words are its UTF-8 bytes and zeros. */
  predicate SpellsText(w: Words, t: string) {
    '\0' !in t && |Encode(t)| <= 128 && Join4(w) == Pad(Encode(t), 128)
  }

  /** Type 1 is a number, type 2 a string, type 3 an entity key. */
  ghost predicate Acceptable(a: WireAttribute) {
    if a.valueType == 2 then exists t :: SpellsText(a.value, t)
    else (a.valueType == 1 || a.valueType == 3) && WordAlone(a.value)
  }

  lemma UpperExact(a: WireAttribute)
    ensures CheckUpper(a).Ok? <==> WordAlone(a.value)
  {
    var s := Join4(a.value);
    assert a.value[1] == s[32..64] && a.value[2] == s[64..96] && a.value[3] == s[96..];
    if CheckUpper(a).Ok? {
      forall i | 32 <= i < 128 ensures s[i] == 0 {
        assert i < 64 ==> s[i] == a.value[1][i - 32];
        assert 64 <= i < 96 ==> s[i] == a.value[2][i - 64];
        assert 96 <= i ==> s[i] == a.value[3][i - 96];
      }
    }
  }

  /** Padding with zeros is what stripping takes off again. */
  lemma StripPad(v: Key, n: nat)
    requires |v| <= n && ZeroFree(v)
    ensures Strip(Pad(v, n)) == v
  {
    var p := Pad(v, n);
    var r := Strip(p);
    if v != [] { assert p[|v| - 1] == v[|v| - 1] != 0; }
    if r != [] { assert p[|r| - 1] != 0; }
    assert p[..|v|] == v;
  }

  lemma {:induction false} TextNulls(t: string)
    ensures ZeroFree(Encode(t)) <==> '\0' !in t
  {
    if t != "" {
      TextNulls(t[1..]);
      var a, b := EncodeChar(t[0]), Encode(t[1..]);
      EncodeCharText(t[0]);
      assert t[0] == '\0' ==> a[0] == 0;
      hide EncodeChar;
      assert Encode(t) == a + b && forall i :: |a| <= i < |a| + |b| ==> (a + b)[i] == b[i - |a|];
      assert b == (a + b)[|a|..];
      assert t == [t[0]] + t[1..];
    }
  }

  lemma StringExact(a: WireAttribute)
    ensures CheckNulls(a).Ok? && CheckText(a).Ok? <==> exists t :: SpellsText(a.value, t)
    ensures forall t :: SpellsText(a.value, t) ==> Strip(Join4(a.value)) == Encode(t)
  {
    if CheckNulls(a).Ok? && CheckText(a).Ok? {
      StringValue(a);
      hide *;
      var v := Strip(Join4(a.value));
      TextIs(v);
      TextExact(v);
      var t :| Encode(t) == v;
      TextNulls(t);
      SpelledBy(a.value, t);
    }
    forall t | SpellsText(a.value, t)
      ensures Strip(Join4(a.value)) == Encode(t) && CheckNulls(a).Ok? && CheckText(a).Ok?
    {
      SpelledPasses(a, t);
    }
  }

  lemma TextIs(v: Key)
    ensures IsText(v) <==> ValidUpTo(v) == |v|
  {}

  lemma SpelledBy(w: Words, t: string)
    requires Encode(t) == Strip(Join4(w)) && '\0' !in t
    ensures SpellsText(w, t)
  {
    PadStrip(Join4(w));
  }

  lemma SpelledPasses(a: WireAttribute, t: string)
    requires SpellsText(a.value, t)
    ensures Strip(Join4(a.value)) == Encode(t) && CheckNulls(a).Ok? && CheckText(a).Ok?
  {
    var k, v := Encode(t), Join4(a.value);
    TextNulls(t);
    EncodeText(t);
    hide Encode, Join4, ValidUpTo;
    StripPad(k, 128);
    forall j | 0 <= j < 128 ensures v[j] == 0 || ZeroFree(v[..j]) {
      if j < |k| { assert forall i :: 0 <= i < j ==> v[..j][i] == k[i]; }
    }
    assert FirstAfterZero(v, 0) == 128;
  }

  /** Exactly the acceptable values are accepted, each as its bytes; a malformed
      word is reported by its number, and any other type stops the batch. */
  lemma ValueAccepted(a: WireAttribute)
    ensures ConvertValue(a).Ok? <==> Acceptable(a)
    ensures ConvertValue(a).Ok? && a.valueType != 2 ==> ConvertValue(a).value == Join4(a.value)[..32]
    ensures ConvertValue(a).Ok? && a.valueType == 2 ==> forall t :: SpellsText(a.value, t) ==> ConvertValue(a).value == Encode(t)
    ensures ConvertValue(a).Fatal? <==> a.valueType !in {1, 2, 3}
    ensures a.valueType in {1, 3} && !Acceptable(a) ==>
      exists w :: 1 <= w <= 3 && a.value[w] != Zeros(32) && (forall x :: 1 <= x < w ==> a.value[x] == Zeros(32))
        && ConvertValue(a) == Revert(AttributeValueMalformed(a.name, a.valueType, w))
  {
    UpperExact(a);
    StringExact(a);
    assert Join4(a.value)[..32] == a.value[0];
    hide CheckNulls, CheckText, WordAlone, SpellsText, Strip, Join4;
    UpperFirst(a);
  }

  /** A refused string reports its first byte after padding, or else the end of
      the longest beginning that is text. */
  lemma StringRefused(a: WireAttribute)
    requires a.valueType == 2 && !Acceptable(a)
    ensures exists p: nat :: p < 128 && ConvertValue(a) == Revert(AttributeStringInvalidByte(a.name, p, Join4(a.value)[p])) && Offends(Join4(a.value), p)
  {
    StringExact(a);
    var v := Join4(a.value);
    var p := FirstAfterZero(v, 0);
    if p < 128 {
      assert Offends(v, p);
    } else {
      var s := Strip(v);
      var q := ValidUpTo(s);
      LongestText(s);
      assert forall i :: 0 <= i < |s| ==> s[..i] == v[..i];
      StripEnd(v);
      assert q < |s|;
      assert s[..q] == v[..q];
      forall n | q < n <= 128 && v[n - 1] != 0 ensures !IsText(v[..n]) { assert s[..n] == v[..n]; }
    }
  }

  /** Byte `p` is the first that is not zero after one that is; or there is no
      such byte, and the text ends at `p` although more follows. */
  ghost predicate Offends(v: Key, p: nat)
    requires p < |v|
  {
    if exists j :: 0 <= j < |v| && v[j] != 0 && !ZeroFree(v[..j])
    then v[p] != 0 && !ZeroFree(v[..p]) && forall j :: 0 <= j < p && v[j] != 0 ==> ZeroFree(v[..j])
    else IsText(v[..p]) && v[p] != 0 && forall n :: p < n <= |v| && v[n - 1] != 0 ==> !IsText(v[..n])
  }

  /** Without a byte after padding, only what is stripped is zero. */
  lemma StripEnd(v: Key)
    requires forall j :: 0 <= j < |v| ==> v[j] == 0 || ZeroFree(v[..j])
    ensures forall i :: 0 <= i < |Strip(v)| ==> v[i] != 0
  {
    var s := Strip(v);
    if s != [] { assert forall i :: 0 <= i < |s| - 1 ==> v[..|s| - 1][i] == v[i]; }
  }

  lemma UpperFirst(a: WireAttribute)
    ensures !CheckUpper(a).Ok? ==>
      exists w :: 1 <= w <= 3 && a.value[w] != Zeros(32) && (forall x :: 1 <= x < w ==> a.value[x] == Zeros(32))
        && CheckUpper(a) == Revert(AttributeValueMalformed(a.name, a.valueType, w))
  {
    var w := UpperWord(a);
    assert w < 4 ==> a.value[w] != Zeros(32);
  }

  /** A list of attributes is accepted if and only if all its values are. */
  lemma {:induction false} ListAccepted(attrs: seq<WireAttribute>)
    ensures Convert(attrs).Ok? <==> forall i :: 0 <= i < |attrs| ==> Acceptable(attrs[i])
  {
    hide *;
    if attrs == [] {
      NoAttributes();
    } else {
      var n := |attrs| - 1;
      ListAccepted(attrs[..n]);
      ValueAccepted(attrs[n]);
      ConvertStep(attrs);
      assert forall i :: 0 <= i < n ==> attrs[..n][i] == attrs[i];
    }
  }

  /** The names are accepted if and only if all of them are. */
  lemma {:induction false} NamesAccepted(attrs: seq<WireAttribute>)
    ensures CheckNames(attrs).Ok? <==> forall i :: 0 <= i < |attrs| ==> IsIdent(attrs[i].name)
  {
    if attrs != [] {
      hide *;
      var n := |attrs| - 1;
      NamesAccepted(attrs[..n]);
      IdentExact(attrs[n].name);
      IdentOk(attrs[n].name);
      if CheckNames(attrs).Ok? { NamesLast(attrs); }
      if CheckNames(attrs[..n]).Ok? && CheckIdent(attrs[n].name).Ok? { NamesMore(attrs); }
      assert forall i :: 0 <= i < n ==> attrs[..n][i] == attrs[i];
    }
  }

  /** A refused list is answered as its first refused value is. */
  lemma {:induction false} ListRefused(attrs: seq<WireAttribute>, i: nat)
    requires i < |attrs| && !Acceptable(attrs[i]) && forall j :: 0 <= j < i ==> Acceptable(attrs[j])
    ensures !ConvertValue(attrs[i]).Ok? && Convert(attrs) == ConvertValue(attrs[i]).PropagateFailure()
    decreases |attrs|
  {
    hide Acceptable, ConvertValue, Strip;
    var n := |attrs| - 1;
    ValueAccepted(attrs[i]);
    if i == n { ListAccepted(attrs[..n]); } else { ListRefused(attrs[..n], i); }
  }

  /** Refused names are answered as the first refused one is. */
  lemma {:induction false} NamesRefused(attrs: seq<WireAttribute>, i: nat)
    requires i < |attrs| && !IsIdent(attrs[i].name) && forall j :: 0 <= j < i ==> IsIdent(attrs[j].name)
    ensures CheckNames(attrs) == CheckIdent(attrs[i].name)
    decreases |attrs|
  {
    hide IsIdent, CheckIdent;
    var n := |attrs| - 1;
    IdentExact(attrs[i].name);
    IdentOk(attrs[i].name);
    if i == n { NamesAccepted(attrs[..n]); } else { NamesRefused(attrs[..n], i); }
  }

  lemma ConvertStep(attrs: seq<WireAttribute>)
    requires attrs != []
    ensures var n := |attrs| - 1; Convert(attrs).Ok? <==> Convert(attrs[..n]).Ok? && ConvertValue(attrs[n]).Ok?
  {
    hide ConvertValue, Strip;
  }

  lemma NamesMore(attrs: seq<WireAttribute>)
    requires attrs != [] && CheckNames(attrs[..|attrs| - 1]).Ok? && CheckIdent(attrs[|attrs| - 1].name).Ok?
    ensures CheckNames(attrs).Ok?
  {
    hide CheckIdent;
  }

  lemma IdentOk(raw: B256)
    ensures CheckIdent(raw).Ok? <==> CheckIdent(raw) == Ok(())
  {}

  /** `r` is what the calldata attribute `a` is stored as, with nothing lost. */
  ghost predicate Faithful(a: WireAttribute, r: Attribute) {
    && UserKey(r.key) && |r.key| <= 32 && |r.value| <= 128
    && a.name == Pad(r.key, 32) && a.valueType == r.valueType && a.value == PadWords(r.value)
    && (if r.valueType == 2 then IsText(r.value) && NoFF(r.value) && ZeroFree(r.value) else |r.value| == 32)
  }

  /** There is only one such form. */
  lemma FaithfulOnce(a: WireAttribute, r: Attribute, r': Attribute)
    requires Faithful(a, r) && Faithful(a, r')
    ensures r == r'
  {
    StripPad(r.key, 32);
    StripPad(r'.key, 32);
    JoinWords(r.value);
    JoinWords(r'.value);
    hide Strip, IsText;
    if r.valueType == 2 {
      StripPad(r.value, 128);
      StripPad(r'.value, 128);
    } else {
      assert r.value == Pad(r.value, 128)[..32] && r'.value == Pad(r'.value, 128)[..32];
    }
  }

  lemma JoinWords(v: Key)
    requires |v| <= 128
    ensures Join4(PadWords(v)) == Pad(v, 128)
  {
    var p := Pad(v, 128);
    assert p == p[..32] + p[32..64] + p[64..96] + p[96..];
  }

  /** On accepted attributes nothing is lost: names and values can be read back,
      and every stored key is a user key, so it is never a `$` key. */
  lemma {:induction false} ConvertExact(attrs: seq<WireAttribute>)
    requires CheckNames(attrs).Ok? && Convert(attrs).Ok?
    ensures var r := Convert(attrs).value;
      UserAttributes(r) && forall i :: 0 <= i < |attrs| ==> Faithful(attrs[i], r[i])
  {
    hide *;
    if attrs == [] {
      NoAttributes();
    } else {
      var n := |attrs| - 1;
      LastFaithful(attrs);
      ConvertExact(attrs[..n]);
      var r := Convert(attrs).value;
      UsersStep(r[..n], r);
      forall i | 0 <= i < n ensures Faithful(attrs[i], r[i]) { assert Faithful(attrs[..n][i], r[..n][i]); }
    }
  }

  /** Stored values have at most 128 bytes. */
  lemma {:induction false} ConvertShort(attrs: seq<WireAttribute>)
    requires Convert(attrs).Ok?
    ensures forall i :: 0 <= i < |attrs| ==> |Convert(attrs).value[i].value| <= 128
  {
    if attrs != [] {
      ConvertShort(attrs[..|attrs| - 1]);
      ValueShort(attrs[|attrs| - 1]);
      hide ConvertValue, Strip;
    }
  }

  lemma ValueShort(a: WireAttribute)
    requires ConvertValue(a).Ok?
    ensures |ConvertValue(a).value| <= 128
  {
    hide CheckText;
  }

  lemma NoAttributes()
    ensures Convert([]) == Ok([]) && UserAttributes([])
  {}

  lemma UsersStep(pre: seq<Attribute>, r: seq<Attribute>)
    requires UserAttributes(pre) && r != [] && r[..|r| - 1] == pre && UserKey(r[|r| - 1].key)
    ensures UserAttributes(r)
  {
    assert r == pre + [r[|r| - 1]];
  }

  lemma LastFaithful(attrs: seq<WireAttribute>)
    requires attrs != [] && CheckNames(attrs).Ok? && Convert(attrs).Ok?
    ensures var n := |attrs| - 1;
      && Faithful(attrs[n], Convert(attrs).value[n])
      && CheckNames(attrs[..n]).Ok? && Convert(attrs[..n]).Ok?
      && Convert(attrs).value[..n] == Convert(attrs[..n]).value && UserKey(Convert(attrs).value[n].key)
  {
    hide *;
    var n := |attrs| - 1;
    NamesLast(attrs);
    ConvertLast(attrs);
    OneFaithful(attrs[n], Convert(attrs).value[n]);
  }

  lemma NamesLast(attrs: seq<WireAttribute>)
    requires attrs != [] && CheckNames(attrs).Ok?
    ensures CheckNames(attrs[..|attrs| - 1]).Ok? && CheckIdent(attrs[|attrs| - 1].name).Ok?
  {
    hide CheckIdent;
  }

  lemma ConvertLast(attrs: seq<WireAttribute>)
    requires attrs != [] && Convert(attrs).Ok?
    ensures var n := |attrs| - 1; var a := attrs[n];
      && Convert(attrs[..n]).Ok? && Convert(attrs).value[..n] == Convert(attrs[..n]).value && ConvertValue(a).Ok?
      && Convert(attrs).value[n] == Attribute(Strip(a.name), a.valueType, ConvertValue(a).value)
  {
    hide ConvertValue, Strip;
  }

  lemma OneFaithful(a: WireAttribute, r: Attribute)
    requires CheckIdent(a.name).Ok? && ConvertValue(a).Ok?
    requires r == Attribute(Strip(a.name), a.valueType, ConvertValue(a).value)
    ensures Faithful(a, r) && UserKey(r.key)
  {
    IdentExact(a.name);
    ValueExact(a);
    StripShort(a.name);
    hide CheckIdent, ConvertValue, Strip, UserKey, Pad, PadWords, IsText, ZeroFree, NoFF, IsIdent;
  }

  lemma StripShort(v: B256)
    ensures |Strip(v)| <= 32
  {}

  /** So the stored form determines the calldata form. */
  lemma ConvertInjective(attrs: seq<WireAttribute>, other: seq<WireAttribute>)
    requires CheckNames(attrs).Ok? && Convert(attrs).Ok? && CheckNames(other).Ok? && Convert(other).Ok?
    requires Convert(attrs).value == Convert(other).value
    ensures attrs == other
  {
    ConvertExact(attrs);
    ConvertExact(other);
    var r := Convert(attrs).value;
    forall i | 0 <= i < |attrs| ensures attrs[i] == other[i] {
      assert Faithful(attrs[i], r[i]) && Faithful(other[i], r[i]);
    }
  }
}
