/** UTF-8 (section 4 of RFC 3629): which byte strings are text, and the bytes of
    a text. */
module Utf8 {
  import opened Bytes
  import opened Accounts
  import opened ArtSet

  predicate Tail(b: byte) { 128 <= b <= 191 }

  /** Length of the character at the front, or 0 if there is none. */
  function CharLen(s: Key): (n: nat)
    ensures n <= 4 && n <= |s|
  {
    if s == [] then 0
    else if s[0] <= 127 then 1
    else if |s| >= 2 && 194 <= s[0] <= 223 && Tail(s[1]) then 2
    else if |s| >= 3 && 224 <= s[0] <= 239 && Tail(s[1]) && Tail(s[2])
      && (s[0] == 224 ==> s[1] >= 160) && (s[0] == 237 ==> s[1] <= 159) then 3
    else if |s| >= 4 && 240 <= s[0] <= 244 && Tail(s[1]) && Tail(s[2]) && Tail(s[3])
      && (s[0] == 240 ==> s[1] >= 144) && (s[0] == 244 ==> s[1] <= 143) then 4
    else 0
  }

  /** Length of the longest prefix that is text. */
  function ValidUpTo(s: Key): (n: nat)
    ensures n <= |s|
  {
    var c := CharLen(s);
    if c == 0 then 0 else c + ValidUpTo(s[c..])
  }

  predicate IsText(s: Key) { ValidUpTo(s) == |s| }

  /** Text has no 0xFF byte. */
  lemma {:induction false} TextNoFF(s: Key)
    requires IsText(s)
    ensures NoFF(s)
  {
    if s != [] {
      var c := CharLen(s);
      TextNoFF(s[c..]);
      FirstCharNoFF(s);
      hide CharLen;
      assert forall i :: c <= i < |s| ==> s[i] == s[c..][i - c];
    }
  }

  lemma FirstCharNoFF(s: Key)
    ensures forall i :: 0 <= i < CharLen(s) ==> s[i] != 255
  {}

  lemma {:induction false} TextCat(a: Key, b: Key)
    requires IsText(a) && IsText(b)
    ensures IsText(a + b)
  {
    if a == [] {
      assert a + b == b;
    } else {
      var c := CharLen(a);
      SameFirst(a, b);
      hide CharLen;
      TextCat(a[c..], b);
      assert (a + b)[c..] == a[c..] + b;
    }
  }

  lemma SameFirst(a: Key, b: Key)
    requires CharLen(a) > 0
    ensures CharLen(a + b) == CharLen(a)
  {}

  lemma CharAlone(s: Key)
    ensures CharLen(s[..CharLen(s)]) == CharLen(s)
  {}

  /** The longest beginning of a byte string that is text. */
  lemma {:induction false} LongestText(s: Key)
    ensures IsText(s[..ValidUpTo(s)])
    ensures forall q: nat :: q <= |s| && IsText(s[..q]) ==> q <= ValidUpTo(s)
  {
    var c, n := CharLen(s), ValidUpTo(s);
    if c > 0 {
      CharAlone(s);
      LongestText(s[c..]);
      assert s[..c][c..] == [];
      TextCat(s[..c], s[c..][..n - c]);
      assert s[..n] == s[..c] + s[c..][..n - c];
    }
    hide *;
    forall q: nat | q <= |s| && IsText(s[..q]) ensures q <= n { TextWithin(s, q); }
  }

  lemma {:induction false} TextWithin(s: Key, q: nat)
    requires q <= |s| && IsText(s[..q])
    ensures q <= ValidUpTo(s)
  {
    if q > 0 {
      var c := CharLen(s[..q]);
      assert s == s[..q] + s[q..];
      SameFirst(s[..q], s[q..]);
      assert s[..q][c..] == s[c..][..q - c];
      hide CharLen;
      TextWithin(s[c..], q - c);
    }
  }

  // ── Writing text ─────────────────────────────────────────────────────

  function EncodeChar(c: char): (s: Key)
    ensures 0 < |s| <= 4
  {
    var n := c as int;
    if n < 0x80 then [n]
    else if n < 0x800 then [192 + n / 64, 128 + n % 64]
    else if n < 0x1_0000 then [224 + n / 4096, 128 + n / 64 % 64, 128 + n % 64]
    else [240 + n / 262144, 128 + n / 4096 % 64, 128 + n / 64 % 64, 128 + n % 64]
  }

  function Encode(s: string): Key {
    if s == [] then [] else EncodeChar(s[0]) + Encode(s[1..])
  }

  lemma EncodeCharText(c: char)
    ensures CharLen(EncodeChar(c)) == |EncodeChar(c)| && IsText(EncodeChar(c))
    ensures c != '\0' ==> ZeroFree(EncodeChar(c))
    ensures EncodeChar(c)[0] == 36 <==> c == '$'
  {
    var s := EncodeChar(c);
    OneChar(c);
    CharBytes(c);
    hide EncodeChar, CharLen;
    assert s[|s|..] == [];
  }

  lemma OneChar(c: char)
    ensures CharLen(EncodeChar(c)) == |EncodeChar(c)|
  {}

  lemma CharBytes(c: char)
    ensures c != '\0' ==> ZeroFree(EncodeChar(c))
    ensures EncodeChar(c)[0] == 36 <==> c == '$'
  {}

  /** What the four shapes spell: a character has those bytes. */
  lemma CharDecodes(s: Key) returns (c: char)
    requires CharLen(s) > 0
    ensures EncodeChar(c) == s[..CharLen(s)]
  {
    var n := CharLen(s);
    var at := (i: nat) requires i < |s| => s[i] as int;
    if n == 1 {
      c := at(0) as char;
    } else if n == 2 {
      c := Point(64 * (at(0) - 192) + (at(1) - 128));
      Digits64(at(0) - 192, at(1) - 128);
    } else if n == 3 {
      var m := 64 * (at(0) - 224) + (at(1) - 128);
      c := Point(64 * m + (at(2) - 128));
      Digits64(m, at(2) - 128);
      Digits64(at(0) - 224, at(1) - 128);
    } else {
      var m := 64 * (at(0) - 240) + (at(1) - 128);
      var k := 64 * m + (at(2) - 128);
      c := Point(64 * k + (at(3) - 128));
      Digits64(k, at(3) - 128);
      Digits64(m, at(2) - 128);
      Digits64(at(0) - 240, at(1) - 128);
    }
  }

  function Point(n: nat): char
    requires n < 0xD800 || 0xE000 <= n < 0x11_0000
  {
    n as char
  }

  lemma Digits64(m: nat, d: nat)
    requires d < 64
    ensures (64 * m + d) / 64 == m && (64 * m + d) % 64 == d
    ensures (64 * m + d) / 4096 == m / 64 && (64 * m + d) / 262144 == m / 4096
  {}

  /** Text is exactly what some string of characters is written as. */
  lemma TextExact(s: Key)
    ensures IsText(s) <==> exists t: string :: Encode(t) == s
  {
    if IsText(s) { var t := TextDecodes(s); }
    if t: string :| Encode(t) == s { EncodeText(t); }
  }

  lemma {:induction false} TextDecodes(s: Key) returns (t: string)
    requires IsText(s)
    ensures Encode(t) == s
  {
    if s == [] {
      t := "";
    } else {
      var n := CharLen(s);
      var c := CharDecodes(s);
      hide CharLen, EncodeChar;
      var rest := TextDecodes(s[n..]);
      t := [c] + rest;
      assert t[1..] == rest && s == s[..n] + s[n..];
    }
  }

  /** The bytes of a text are text; they contain a zero only if the text does,
      and start with `$` only if the text does. */
  lemma {:induction false} EncodeText(s: string)
    ensures IsText(Encode(s))
    ensures (forall i :: 0 <= i < |s| ==> s[i] != '\0') ==> ZeroFree(Encode(s))
    ensures s != [] ==> Encode(s) != [] && (Encode(s)[0] == 36 <==> s[0] == '$')
  {
    if s != [] {
      EncodeCharText(s[0]);
      EncodeText(s[1..]);
      TextCat(EncodeChar(s[0]), Encode(s[1..]));
    }
  }
}
