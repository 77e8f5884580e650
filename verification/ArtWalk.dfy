/** Enumeration as the code walks: the cells of a key list in their order, the
    bytes of a table in theirs. On a tree in order it is the ascending list of
    the keys; it is defined on every tree that fits its arrays. */
module ArtWalk {
  import opened Bytes
  import opened ArtNode
  import opened ArtOps
  import opened ArtSet
  import opened ArtOrder
  import opened ArtSound

  /** Depth-first, end flag first, children by cell or by byte. */
  function Walk(t: Node): seq<Key>
    decreases t, 1, 0
  {
    match t
    case Empty => []
    case Leaf(s) => [s]
    case N4(_, _, _, ch) => Under(t.prefix, (if t.hasEnd then [[]] else []) + WalkCells(t, |ch|))
    case N16(_, _, _, ch) => Under(t.prefix, (if t.hasEnd then [[]] else []) + WalkCells(t, |ch|))
    case _ => Under(t.prefix, (if t.hasEnd then [[]] else []) + WalkBytes(t, 256))
  }

  /** The first `n` cells of a key list. */
  function WalkCells(t: Node, n: nat): seq<Key>
    requires (t.N4? || t.N16?) && n <= |t.ch|
    decreases t, 0, n
  {
    if n == 0 then []
    else WalkCells(t, n - 1) + Under(if n <= |t.keys| then [t.keys[n - 1]] else [], Walk(t.ch[n - 1]))
  }

  /** The children over the branch bytes under `hi`. */
  function WalkBytes(t: Node, hi: nat): seq<Key>
    requires hi <= 256
    decreases t, 0, hi
  {
    if hi == 0 then []
    else WalkBytes(t, hi - 1) +
         if Child(t, hi - 1) == Empty then []
         else (ChildSmaller(t, hi - 1); Under([hi - 1], Walk(Child(t, hi - 1))))
  }

  /** The list of cells or of bytes, without the prefix. */
  function WalkKids(t: Node): seq<Key> {
    if t.N4? || t.N16? then WalkCells(t, |t.ch|) else WalkBytes(t, 256)
  }

  lemma WalkIs(t: Node)
    requires t.Inner()
    ensures Walk(t) == Under(t.prefix, (if t.hasEnd then [[]] else []) + WalkKids(t))
  {
    hide WalkCells, WalkBytes, Under;
  }

  lemma CellsNow(t: Node, n: nat)
    requires (t.N4? || t.N16?) && n < |t.ch| == |t.keys|
    ensures WalkCells(t, n + 1) == WalkCells(t, n) + Under([t.keys[n]], Walk(t.ch[n]))
    ensures WalkCells(t, 0) == []
  {
    hide Under, Walk;
  }

  lemma BytesNow(t: Node, b: byte)
    ensures WalkBytes(t, b + 1) == WalkBytes(t, b) + Under([b], Walk(Child(t, b)))
    ensures WalkBytes(t, 0) == []
  {
    WalkEmpty();
    hide Walk;
  }

  lemma WalkEmpty()
    ensures Walk(Empty) == []
  {}

  // ── On a tree in order ───────────────────────────────────────────────

  /** The walk over a tree in order is the ascending list of its keys. */
  lemma {:induction false} WalkOk(t: Node)
    requires Ok(t)
    ensures Walk(t) == Collect(t)
    decreases t, 1, 0
  {
    if t.Inner() {
      if t.N4? || t.N16? {
        CellsOk(t, |t.ch|);
        LiveAll(t);
      } else {
        BytesOk(t, 256);
      }
      hide WalkCells, WalkBytes, KidsUpTo, Under;
      WalkIs(t);
    }
  }

  /** The keys below the given branch bytes, in the order of the list. */
  function KidsOf(t: Node, l: Key): seq<Key> {
    if l == [] then [] else KidsOf(t, l[..|l| - 1]) + Under([l[|l| - 1]], Collect(Child(t, l[|l| - 1])))
  }

  lemma KidsOfStep(t: Node, l: Key, b: byte)
    ensures KidsOf(t, l + [b]) == KidsOf(t, l) + Under([b], Collect(Child(t, b)))
  {
    assert (l + [b])[..|l|] == l;
  }

  lemma {:induction false} KidsOfLive(t: Node, hi: nat)
    requires hi <= 256
    ensures KidsUpTo(t, hi) == KidsOf(t, LiveUpTo(t, hi))
  {
    hide *;
    if hi == 0 {
      NoKids(t);
    } else {
      KidsOfLive(t, hi - 1);
      LiveNow(t, hi - 1);
      KidsOfStep(t, LiveUpTo(t, hi - 1), hi - 1);
      KidsNow(t, hi - 1);
      KidsEmpty(KidsUpTo(t, hi - 1), LiveUpTo(t, hi - 1));
    }
  }

  lemma NoKids(t: Node)
    ensures LiveUpTo(t, 0) == [] && KidsOf(t, []) == [] && KidsUpTo(t, 0) == [] && WalkBytes(t, 0) == []
  {}

  lemma KidsEmpty(a: seq<Key>, l: Key)
    ensures a + [] == a && l + [] == l
  {}

  lemma LiveNow(t: Node, b: byte)
    ensures LiveUpTo(t, b + 1) == LiveUpTo(t, b) + if Child(t, b) == Empty then [] else [b]
  {}

  lemma {:induction false} CellsOk(t: Node, n: nat)
    requires Ok(t) && (t.N4? || t.N16?) && n <= |t.ch|
    ensures |t.ch| == |t.keys| && WalkCells(t, n) == KidsOf(t, t.keys[..n])
    decreases t, 0, n
  {
    CellParts(t, n);
    hide *;
    if n == 0 {
      assert t.keys[..0] == [];
    } else {
      CellsOk(t, n - 1);
      WalkOk(t.ch[n - 1]);
      assert t.keys[..n] == t.keys[..n - 1] + [t.keys[n - 1]];
      KidsOfStep(t, t.keys[..n - 1], t.keys[n - 1]);
      CellsNow(t, n - 1);
    }
  }

  lemma CellParts(t: Node, n: nat)
    requires Ok(t) && (t.N4? || t.N16?) && n <= |t.ch|
    ensures |t.ch| == |t.keys| && WalkCells(t, 0) == [] && KidsOf(t, []) == []
    ensures n > 0 ==> Ok(t.ch[n - 1]) && Child(t, t.keys[n - 1]) == t.ch[n - 1]
  {
    if n > 0 { FindUnique(t.keys, n - 1); }
  }

  lemma LiveAll(t: Node)
    requires Ok(t) && (t.N4? || t.N16?)
    ensures |t.ch| == |t.keys| && KidsOf(t, t.keys[..|t.ch|]) == KidsUpTo(t, 256)
  {
    LiveKeys(t);
    KidsOfLive(t, 256);
    assert t.keys[..|t.keys|] == t.keys;
  }

  lemma {:induction false} BytesOk(t: Node, hi: nat)
    requires Ok(t) && t.Inner() && hi <= 256
    ensures WalkBytes(t, hi) == KidsUpTo(t, hi)
    decreases t, 0, hi
  {
    hide *;
    if hi == 0 {
      NoKids(t);
    } else {
      BytesOk(t, hi - 1);
      OkChild(t, hi - 1);
      if Child(t, hi - 1) != Empty {
        ChildSmaller(t, hi - 1);
        WalkOk(Child(t, hi - 1));
      }
      KidsNow(t, hi - 1);
      BytesNow(t, hi - 1);
      NothingUnder(hi - 1);
      KidsEmpty(KidsUpTo(t, hi - 1), []);
    }
  }

  lemma NothingUnder(b: byte)
    ensures Under([b], Walk(Empty)) == []
  {}

  // ── On any tree ──────────────────────────────────────────────────────

  /** No key of the tree is left out, whatever has happened to it. */
  lemma {:induction false} HasWalked(t: Node, k: Key)
    requires Sturdy(t) && Has(t, k)
    ensures k in Walk(t)
    decreases |k|
  {
    if t.Inner() {
      var e: seq<Key> := if t.hasEnd then [[]] else [];
      WalkIs(t);
      UnderIn(t.prefix, e + WalkKids(t), k);
      var r := k[|t.prefix|..];
      if r == [] {
        assert e[0] == [];
      } else {
        SturdyChild(t, r[0]);
        HasWalked(Child(t, r[0]), r[1..]);
        if t.N4? || t.N16? { CellWalked(t, r, |t.ch|); } else { ByteWalked(t, r, 256); }
        assert r in WalkKids(t);
      }
    }
  }

  lemma {:induction false} CellWalked(t: Node, r: Key, n: nat)
    requires LocalSound(t) && (t.N4? || t.N16?) && n <= |t.ch| && r != [] && Find(t.keys, r[0]) < n
    requires r[1..] in Walk(Child(t, r[0]))
    ensures r in WalkCells(t, n)
  {
    CellsNow(t, n - 1);
    UnderIn([t.keys[n - 1]], Walk(t.ch[n - 1]), r);
    if Find(t.keys, r[0]) < n - 1 {
      CellWalked(t, r, n - 1);
    } else {
      assert [t.keys[n - 1]] <= r;
    }
  }

  lemma {:induction false} ByteWalked(t: Node, r: Key, hi: nat)
    requires t.Inner() && hi <= 256 && r != [] && r[0] < hi && r[1..] in Walk(Child(t, r[0]))
    ensures r in WalkBytes(t, hi)
  {
    hide *;
    BytesNow(t, hi - 1);
    UnderIn([hi - 1], Walk(Child(t, hi - 1)), r);
    if r[0] < hi - 1 {
      ByteWalked(t, r, hi - 1);
    } else {
      assert [hi - 1] <= r;
    }
  }
}
