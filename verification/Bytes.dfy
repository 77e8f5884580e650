/** Byte strings: the unsigned lexicographic order every index relies on, and
    fixed-width big-endian integers. */
module Bytes {
  type byte = x: int | 0 <= x < 256
  type Key = seq<byte>

  /** Strict lexicographic order on unsigned bytes; a proper prefix comes first. */
  predicate Lt(a: Key, b: Key) {
    if b == [] then false
    else if a == [] then true
    else a[0] < b[0] || (a[0] == b[0] && Lt(a[1..], b[1..]))
  }

  /** Length of the longest common prefix. */
  function CommonPrefix(a: Key, b: Key): (c: nat)
    ensures c <= |a| && c <= |b|
    ensures a[..c] == b[..c]
    ensures c < |a| && c < |b| ==> a[c] != b[c]
  {
    if a == [] || b == [] || a[0] != b[0] then 0
    else
      var c := 1 + CommonPrefix(a[1..], b[1..]);
      assert a[..c] == [a[0]] + a[1..][..c - 1];
      assert b[..c] == [b[0]] + b[1..][..c - 1];
      c
  }

  lemma LtIrreflexive(a: Key)
    ensures !Lt(a, a)
  {}

  lemma {:induction false} LtTotal(a: Key, b: Key)
    ensures Lt(a, b) || a == b || Lt(b, a)
  {
    if a == [] || b == [] {
    } else if a[0] == b[0] {
      LtTotal(a[1..], b[1..]);
      assert a == [a[0]] + a[1..];
      assert b == [b[0]] + b[1..];
    }
  }

  lemma {:induction false} LtAsymmetric(a: Key, b: Key)
    requires Lt(a, b)
    ensures !Lt(b, a)
  {
    if a != [] && a[0] == b[0] {
      LtAsymmetric(a[1..], b[1..]);
    }
  }

  lemma {:induction false} LtTransitive(a: Key, b: Key, c: Key)
    requires Lt(a, b) && Lt(b, c)
    ensures Lt(a, c)
  {
    if a != [] && a[0] == b[0] && b[0] == c[0] {
      LtTransitive(a[1..], b[1..], c[1..]);
    }
  }

  /** A shared prefix does not influence the order. */
  lemma {:induction false} LtPrefix(p: Key, a: Key, b: Key)
    ensures Lt(p + a, p + b) <==> Lt(a, b)
  {
    if p == [] {
      assert p + a == a && p + b == b;
    } else {
      LtPrefix(p[1..], a, b);
      assert (p + a)[1..] == p[1..] + a;
      assert (p + b)[1..] == p[1..] + b;
    }
  }

  /** The two first differ at `i`, where `a` ends or has the smaller byte. */
  predicate DifferAt(a: Key, b: Key, i: nat) {
    i < |b| && i <= |a| && a[..i] == b[..i] && (i == |a| || a[i] < b[i])
  }

  /** The order is decided at the first difference. */
  lemma {:induction false} LtExact(a: Key, b: Key)
    ensures Lt(a, b) <==> exists i: nat :: DifferAt(a, b, i)
  {
    if a == [] && b != [] {
      assert DifferAt(a, b, 0);
    } else if a != [] && b != [] {
      LtExact(a[1..], b[1..]);
      if a[0] < b[0] { assert DifferAt(a, b, 0); }
      if i: nat :| a[0] == b[0] && DifferAt(a[1..], b[1..], i) {
        assert a[..i + 1] == [a[0]] + a[1..][..i] && b[..i + 1] == [b[0]] + b[1..][..i];
        assert DifferAt(a, b, i + 1);
      }
      if i: nat :| DifferAt(a, b, i) {
        if i > 0 {
          assert a[..i][0] == b[..i][0];
          assert a[1..][..i - 1] == a[..i][1..] && b[1..][..i - 1] == b[..i][1..];
          assert DifferAt(a[1..], b[1..], i - 1);
        }
      }
    }
  }

  // ── Fixed-width big-endian integers ──────────────────────────────────

  function Pow256(w: nat): (p: nat)
    ensures p > 0
  {
    if w == 0 then 1 else 256 * Pow256(w - 1)
  }

  /** `w` bytes, most significant first. */
  function BigEndian(n: nat, w: nat): (s: Key)
    ensures |s| == w
  {
    if w == 0 then [] else BigEndian(n / 256, w - 1) + [n % 256]
  }

  function FromBigEndian(s: Key): nat {
    if s == [] then 0 else 256 * FromBigEndian(s[..|s| - 1]) + s[|s| - 1]
  }

  lemma {:induction false} BigEndianRoundTrip(n: nat, w: nat)
    requires n < Pow256(w)
    ensures FromBigEndian(BigEndian(n, w)) == n
  {
    if w != 0 {
      BigEndianRoundTrip(n / 256, w - 1);
      var s := BigEndian(n, w);
      assert s[..|s| - 1] == BigEndian(n / 256, w - 1);
    }
  }

  lemma {:induction false} FromBigEndianBound(s: Key)
    ensures FromBigEndian(s) < Pow256(|s|)
  {
    if s != [] {
      FromBigEndianBound(s[..|s| - 1]);
    }
  }

  lemma {:induction false} FromBigEndianRoundTrip(s: Key)
    ensures BigEndian(FromBigEndian(s), |s|) == s
  {
    if s != [] {
      var p := s[..|s| - 1];
      FromBigEndianRoundTrip(p);
      assert FromBigEndian(s) / 256 == FromBigEndian(p);
      assert s == p + [s[|s| - 1]];
    }
  }

  lemma {:induction false} LtAppend(a: Key, b: Key, x: byte, y: byte)
    requires |a| == |b|
    ensures Lt(a + [x], b + [y]) <==> Lt(a, b) || (a == b && x < y)
  {
    if a == [] {
    } else {
      LtAppend(a[1..], b[1..], x, y);
      assert (a + [x])[1..] == a[1..] + [x];
      assert (b + [y])[1..] == b[1..] + [y];
      assert a == [a[0]] + a[1..] && b == [b[0]] + b[1..];
      if a == b { LtIrreflexive(a[1..]); }
    }
  }

  /** Fixed-width big-endian embeds numeric order into byte order. */
  lemma {:induction false} BigEndianOrder(m: nat, n: nat, w: nat)
    requires m < Pow256(w) && n < Pow256(w)
    ensures Lt(BigEndian(m, w), BigEndian(n, w)) <==> m < n
  {
    if w != 0 {
      BigEndianOrder(m / 256, n / 256, w - 1);
      LtAppend(BigEndian(m / 256, w - 1), BigEndian(n / 256, w - 1), m % 256, n % 256);
      if BigEndian(m / 256, w - 1) == BigEndian(n / 256, w - 1) {
        BigEndianRoundTrip(m / 256, w - 1);
        BigEndianRoundTrip(n / 256, w - 1);
      }
    }
  }
}
