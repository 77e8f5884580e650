/** The documented node sizes, and the consequence that a key set determines
    the tree. */
module ArtShape {
  import opened Bytes
  import opened ArtNode
  import opened ArtOps
  import opened ArtSet
  import opened ArtOrder

  function B2N(b: bool): nat { if b then 1 else 0 }

  /** Node sizes match child counts and no inner node is superfluous. With
      `strict`, not even a node that only carries an end flag. */
  ghost predicate LocalShape(t: Node, strict: bool) {
    LocalOk(t) &&
    match t
    case N4(_, e, ks, _) => |ks| + B2N(e) >= (if strict then 2 else 1) && (|ks| != 1 || e)
    case N16(_, _, ks, _) => |ks| >= 5
    case N48(_, _, n, _, _) => n >= 17
    case N256(_, _, n, _) => n >= 49 && n == |Live(t)|
    case _ => true
  }

  ghost predicate Shape(t: Node, strict: bool)
    decreases t
  {
    LocalShape(t, strict) && (t.Inner() ==> forall i :: 0 <= i < |t.ch| ==> Shape(t.ch[i], strict))
  }

  lemma {:induction false} ShapeOk(t: Node, strict: bool)
    requires Shape(t, strict)
    ensures Ok(t)
    decreases t
  {
    if t.Inner() {
      forall i | 0 <= i < |t.ch| ensures Ok(t.ch[i]) { ShapeOk(t.ch[i], strict); }
    }
  }

  lemma ShapeChild(t: Node, strict: bool, b: byte)
    requires Shape(t, strict)
    ensures Shape(Child(t, b), strict)
  {
    if t.N48? {
      var s := t.idx[b];
      if s < 48 { assert Shape(t.ch[s], strict); }
    }
  }

  lemma ShapeLift(t: Node, r: Node, c: Node, strict: bool)
    requires t.Inner() && (forall i :: 0 <= i < |t.ch| ==> Shape(t.ch[i], strict)) && LocalShape(r, strict) && Shape(c, strict)
    requires r.Inner() ==> forall i :: 0 <= i < |r.ch| ==> r.ch[i] == c || r.ch[i] == Empty || r.ch[i] in t.ch
    ensures Shape(r, strict)
  {
    if r.Inner() {
      forall i | 0 <= i < |r.ch| ensures Shape(r.ch[i], strict) {
        if r.ch[i] in t.ch {
          var j :| 0 <= j < |t.ch| && t.ch[j] == r.ch[i];
        }
      }
    }
  }

  // ── Insertion ────────────────────────────────────────────────────────

  lemma AddSuffixShape(t: Node, k: Key, m: nat, strict: bool)
    requires Ok(t) && t.N4? && !Full(t) && m == |t.prefix| && t.prefix <= k
    requires m < |k| ==> Child(t, k[m]) == Empty
    requires forall i :: 0 <= i < |t.ch| ==> Shape(t.ch[i], strict)
    ensures var r := AddSuffix(t, k, m);
      r.N4? && forall i :: 0 <= i < |r.ch| ==> Shape(r.ch[i], strict)
  {
    AddKey(t, k, m);
    var r := AddSuffix(t, k, m);
    if m < |k| {
      var leaf := Leaf(k[m + 1..]);
      forall i | 0 <= i < |r.ch| ensures Shape(r.ch[i], strict) {
        AddChKids(t, k[m], leaf, i);
        if r.ch[i] != leaf { var j :| 0 <= j < |t.ch| && t.ch[j] == r.ch[i]; }
      }
    }
  }

  lemma SplitLeafShape(s: Key, k: Key, strict: bool)
    requires s != k
    ensures Shape(SplitLeaf(s, k), strict)
  {
    var c := CommonPrefix(s, k);
    var n0 := N4(s[..c], false, [], []);
    assert s == s[..c] + s[c..] && k == k[..c] + k[c..];
    assert forall x: byte :: Child(n0, x) == Empty;
    AddKey(n0, s, c);
    AddSuffixShape(n0, s, c, strict);
    var n1 := AddSuffix(n0, s, c);
    AddKey(n1, k, c);
    AddSuffixShape(n1, k, c, strict);
  }

  lemma HeadShape(t: Node, q: Key, strict: bool)
    requires Shape(t, strict) && t.Inner()
    ensures Shape(SetPrefix(t, q), strict) && Shape(SetEnd(t, true), strict)
  {
    HeadLocal(t, q);
  }

  lemma HeadLocal(t: Node, q: Key)
    requires LocalOk(t) && t.Inner()
    ensures LocalOk(SetPrefix(t, q)) && Live(SetPrefix(t, q)) == Live(t)
    ensures forall e :: LocalOk(SetEnd(t, e)) && Live(SetEnd(t, e)) == Live(t)
  {
    LiveSame(t, SetPrefix(t, q), 256);
    forall e ensures LocalOk(SetEnd(t, e)) && Live(SetEnd(t, e)) == Live(t) { LiveSame(t, SetEnd(t, e), 256); }
  }

  lemma SplitPrefixShape(t: Node, k: Key, strict: bool)
    requires Shape(t, strict) && t.Inner() && CommonPrefix(t.prefix, k) < |t.prefix|
    ensures Shape(SplitPrefix(t, k, CommonPrefix(t.prefix, k)), strict)
  {
    var m := CommonPrefix(t.prefix, k);
    var p, b, q := t.prefix[..m], t.prefix[m], t.prefix[m + 1..];
    hide *;
    ShapeOk(t, strict);
    SplitParts(t, k, m);
    HeadShape(t, q, strict);
    NewParentShape(N4(p, false, [b], [SetPrefix(t, q)]), k, m, strict);
  }

  /** A fresh Node4 over one child in shape, completed by a second key. */
  lemma NewParentShape(n1: Node, k: Key, m: nat, strict: bool)
    requires Ok(n1) && n1.N4? && |n1.keys| == 1 && m == |n1.prefix| && n1.prefix <= k
    requires m < |k| ==> Child(n1, k[m]) == Empty
    requires Shape(n1.ch[0], strict)
    ensures Shape(AddSuffix(n1, k, m), strict)
  {
    AddKey(n1, k, m);
    AddSuffixShape(n1, k, m, strict);
  }

  lemma {:induction false} ShapeHoldsKey(t: Node, strict: bool)
    requires Shape(t, strict) && t != Empty
    ensures HoldsKey(t)
    decreases t
  {
    if t.Leaf? {
      assert Has(t, t.sfx);
    } else if t.hasEnd {
      assert Has(t, t.prefix);
    } else {
      CountBounds(t);
      LiveMember(t, 256);
      var b := Live(t)[0];
      assert b in Live(t);
      ShapeChild(t, strict, b);
      ChildSmaller(t, b);
      ShapeHoldsKey(Child(t, b), strict);
      var j :| Has(Child(t, b), j);
      Join(t.prefix, b, j);
      assert Has(t, t.prefix + [b] + j);
    }
  }

  /** Growth, then the new leaf, on a node with no child under 0xFF to lose. */
  lemma GrowAddShape(t: Node, b: byte, w: Key, strict: bool)
    requires Shape(t, strict) && t.Inner() && Child(t, b) == Empty
    requires !(t.N48? && t.n == 48 && Child(t, NIL) != Empty)
    ensures Shape(AddCh(Grow(t), b, Leaf(w)), strict)
  {
    var g, leaf := Grow(t), Leaf(w);
    var r := AddCh(g, b, leaf);
    GrowSpec(t);
    AddChSpec(g, b, leaf);
    LiveSame(t, g, 256);
    LiveAdd(g, r, b, 256);
    CountBounds(t);
    forall i | 0 <= i < |r.ch| ensures r.ch[i] == leaf || r.ch[i] == Empty || r.ch[i] in t.ch {
      AddChKids(g, b, leaf, i);
      if r.ch[i] in g.ch {
        var j :| 0 <= j < |g.ch| && g.ch[j] == r.ch[i];
        GrowKids(t, j);
      }
    }
    ShapeLift(t, r, leaf, strict);
  }

  lemma SetChShape(t: Node, b: byte, c: Node, strict: bool)
    requires Shape(t, strict) && t.Inner() && Child(t, b) != Empty && c != Empty && Shape(c, strict)
    ensures Shape(SetCh(t, b, c), strict)
  {
    var r := SetCh(t, b, c);
    SetChSpec(t, b, c);
    LiveSame(t, r, 256);
    forall i | 0 <= i < |r.ch| ensures r.ch[i] == c || r.ch[i] in t.ch { SetChKids(t, b, c, i); }
    ShapeLift(t, r, c, strict);
  }

  /** Insertion keeps the documented shape, strict or not. */
  lemma {:induction false} InsertShape(t: Node, k: Key, strict: bool)
    requires Shape(t, strict) && !Loses(t, k)
    ensures Shape(Insert(t, k).0, strict)
    decreases |k|
  {
    ShapeOk(t, strict);
    match t {
      case Empty =>
      case Leaf(s) => if s != k { SplitLeafShape(s, k, strict); }
      case _ =>
        PrefixMatch(t.prefix, k);
        if !(t.prefix <= k) {
          SplitPrefixShape(t, k, strict);
        } else if |t.prefix| == |k| {
          HeadShape(t, [], strict);
        } else {
          var b, w := k[|t.prefix|], k[|t.prefix|..][1..];
          HasChildLive(t, b);
          if HasChild(t, b) {
            ShapeChild(t, strict, b);
            OkChild(t, b);
            InsertShape(Child(t, b), w, strict);
            InsertNonEmpty(Child(t, b), w);
            SetChShape(t, b, Insert(Child(t, b), w).0, strict);
          } else {
            ShapeChild(t, strict, NIL);
            if Child(t, NIL) != Empty { ShapeHoldsKey(Child(t, NIL), strict); }
            GrowAddShape(t, b, w, strict);
          }
        }
    }
  }

  // ── Removal ──────────────────────────────────────────────────────────

  /** Removing `k` deletes a child of a Node256. */
  predicate DropsFrom256(t: Node, k: Key)
    decreases |k|
  {
    t.Inner() && t.prefix <= k && |t.prefix| < |k| &&
    var b, w := k[|t.prefix|], k[|t.prefix|..][1..];
    HasChild(t, b) &&
    if Remove(Child(t, b), w) == (Empty, true) then t.N256? else DropsFrom256(Child(t, b), w)
  }

  /** A node in order whose counter is exact and still at most one below its
      range shrinks into shape. */
  lemma ShrinkShape(t: Node, strict: bool)
    requires LocalOk(t) && t.Inner()
    requires forall i :: 0 <= i < |t.ch| ==> Shape(t.ch[i], strict)
    requires t.N4? ==> !strict
    requires t.N16? ==> |t.keys| >= 4
    requires t.N48? ==> t.n >= 16
    requires t.N256? ==> t.n >= 49 && t.n == |Live(t)|
    ensures Shape(Shrink(t), strict)
  {
    CountBounds(t);
    if t.Count() == 0 && !t.hasEnd {
    } else if t.N4? && |t.keys| == 1 && !t.hasEnd {
      assert Shape(t.ch[0], strict);
      if t.ch[0].Inner() { HeadShape(t.ch[0], t.prefix + [t.keys[0]] + t.ch[0].prefix, strict); }
    } else {
      ShrinkSpec(t);
      var r := Shrink(t);
      LiveSame(t, r, 256);
      assert LocalShape(r, strict);
      forall i | 0 <= i < |r.ch| ensures Shape(r.ch[i], strict) {
        ShrinkKids(t, i);
        if r.ch[i] in t.ch { var j :| 0 <= j < |t.ch| && t.ch[j] == r.ch[i]; }
      }
    }
  }

  lemma ClearKidsShape(t: Node, b: byte, strict: bool)
    requires Shape(t, strict) && t.Inner() && Child(t, b) != Empty
    ensures var r := ClearCh(t, b); r.Inner() && forall i :: 0 <= i < |r.ch| ==> Shape(r.ch[i], strict)
  {
    ClearChSpec(t, b);
    var r := ClearCh(t, b);
    forall i | 0 <= i < |r.ch| ensures Shape(r.ch[i], strict) {
      ClearChKids(t, b, i);
      if r.ch[i] in t.ch { var j :| 0 <= j < |t.ch| && t.ch[j] == r.ch[i]; }
    }
  }

  lemma {:induction false} RemoveShape(t: Node, k: Key)
    requires Shape(t, false) && !DropsFrom256(t, k)
    ensures Shape(Remove(t, k).0, false)
    decreases |k|
  {
    ShapeOk(t, false);
    if t.Inner() {
      PrefixMatch(t.prefix, k);
      if !(t.prefix <= k) {
      } else if |t.prefix| == |k| {
        HeadLocal(t, []);
        ShrinkShape(SetEnd(t, false), false);
      } else {
        var b, w := k[|t.prefix|], k[|t.prefix|..][1..];
        HasChildLive(t, b);
        if HasChild(t, b) {
          ShapeChild(t, false, b);
          if Remove(Child(t, b), w).0 != Empty {
            RemoveShape(Child(t, b), w);
          } else {
            RemoveEmpty(Child(t, b), w);
          }
          RemoveShapeVia(t, k);
        }
      }
    }
  }

  lemma RemoveShapeVia(t: Node, k: Key)
    requires Shape(t, false) && t.Inner() && t.prefix <= k && |t.prefix| < |k| && Child(t, k[|t.prefix|]) != Empty
    requires var c := Remove(Child(t, k[|t.prefix|]), k[|t.prefix|..][1..]).0;
      Shape(c, false) && (t.N256? ==> c != Empty)
    ensures Shape(Remove(t, k).0, false)
  {
    var b := k[|t.prefix|];
    var c := Remove(Child(t, b), k[|t.prefix|..][1..]).0;
    RemoveUnfold(t, k);
    if c != Empty { SetChShape(t, b, c, false); } else { ClearShape(t, b); }
  }

  lemma ClearShape(t: Node, b: byte)
    requires Shape(t, false) && t.Inner() && !t.N256? && Child(t, b) != Empty
    ensures Shape(Shrink(ClearCh(t, b)), false)
  {
    ClearChSpec(t, b);
    ClearKidsShape(t, b, false);
    ShrinkShape(ClearCh(t, b), false);
  }

  lemma {:induction false} DropsFrom256Bad(t: Node, k: Key)
    requires Shape(t, false) && DropsFrom256(t, k)
    ensures !Shape(Remove(t, k).0, false)
    decreases |k|
  {
    var b, w := k[|t.prefix|], k[|t.prefix|..][1..];
    HasChildLive(t, b);
    ShapeChild(t, false, b);
    RemoveUnfold(t, k);
    var c := Remove(Child(t, b), w).0;
    if c == Empty {
      RemoveEmpty(Child(t, b), w);
      ClearedMiscounts(t, b);
    } else {
      DropsFrom256Bad(Child(t, b), w);
      NotShapeLift(t, b, c);
    }
  }

  lemma NotShapeLift(t: Node, b: byte, c: Node)
    requires LocalOk(t) && t.Inner() && Child(t, b) != Empty && c != Empty && !Shape(c, false)
    ensures !Shape(SetCh(t, b, c), false)
  {
    SetChSpec(t, b, c);
    if Shape(SetCh(t, b, c), false) { ShapeChild(SetCh(t, b, c), false, b); }
  }

  lemma ClearedMiscounts(t: Node, b: byte)
    requires LocalOk(t) && t.N256? && t.n >= 49 && |Live(t)| == t.n && Child(t, b) != Empty
    ensures !Shape(Shrink(ClearCh(t, b)), false)
  {
    ClearChSpec(t, b);
    LiveAdd(ClearCh(t, b), t, b, 256);
  }

  /** Removal keeps the documented shape if and only if it does not delete a
      child of a Node256 (whose counter then stays one too high). */
  lemma RemoveShapeExact(t: Node, k: Key)
    requires Shape(t, false)
    ensures Shape(Remove(t, k).0, false) <==> !DropsFrom256(t, k)
  {
    if DropsFrom256(t, k) { DropsFrom256Bad(t, k); } else { RemoveShape(t, k); }
  }

  // ── Unique representation ────────────────────────────────────────────

  /** Equal up to the numbering of Node48 slots. */
  ghost predicate Similar(t: Node, r: Node)
    decreases t
  {
    match t
    case Empty => r == Empty
    case Leaf(_) => r == t
    case _ =>
      && SameHead(t, r) && t.Count() == r.Count()
      && t.N4? == r.N4? && t.N16? == r.N16? && t.N48? == r.N48?
      && forall b: byte ::
        if Child(t, b) == Empty then Child(r, b) == Empty
        else (ChildSmaller(t, b); Similar(Child(t, b), Child(r, b)))
  }

  ghost predicate SameKeys(t: Node, r: Node) { forall k :: Has(t, k) <==> Has(r, k) }

  /** The prefix of a strict inner node is all its keys have in common. */
  lemma DivergingKey(t: Node, q: Key) returns (k: Key)
    requires Shape(t, true) && t.Inner() && t.prefix <= q && |t.prefix| < |q|
    ensures Has(t, k) && !(q <= k)
  {
    ShapeOk(t, true);
    if t.hasEnd {
      k := t.prefix;
    } else {
      CountBounds(t);
      LiveMember(t, 256);
      var l := Live(t);
      var b := if l[0] == q[|t.prefix|] then l[1] else l[0];
      assert b in l;
      ShapeChild(t, true, b);
      ShapeHoldsKey(Child(t, b), true);
      var j :| Has(Child(t, b), j);
      Join(t.prefix, b, j);
      k := t.prefix + [b] + j;
    }
  }

  lemma PrefixBound(t: Node, r: Node)
    requires Shape(t, true) && t.Inner() && r.Inner() && SameKeys(t, r)
    requires t.prefix <= r.prefix
    ensures t.prefix == r.prefix
  {
    if |t.prefix| < |r.prefix| {
      var k := DivergingKey(t, r.prefix);
    }
  }

  lemma PrefixUnique(t: Node, r: Node)
    requires Shape(t, true) && Shape(r, true) && t.Inner() && r.Inner() && SameKeys(t, r)
    ensures t.prefix == r.prefix
  {
    ShapeHoldsKey(t, true);
    var k :| Has(t, k);
    assert Has(r, k);
    PrefixesNest(t.prefix, r.prefix, k);
    if t.prefix <= r.prefix { PrefixBound(t, r); } else { PrefixBound(r, t); }
  }

  lemma PrefixesNest(p: Key, q: Key, k: Key)
    requires p <= k && q <= k
    ensures p <= q || q <= p
  {}

  lemma InnerNotLeaf(t: Node, s: Key)
    requires Shape(t, true) && t.Inner()
    ensures !SameKeys(t, Leaf(s))
  {
    assert Has(Leaf(s), s);
    if Has(t, s) {
      if |t.prefix| < |s| {
        var k := DivergingKey(t, s);
        assert Has(t, k) && !Has(Leaf(s), k);
      } else {
        ChildKeyNotPrefix(t, s);
      }
    }
  }

  /** A strict inner node whose prefix is a key has another key. */
  lemma ChildKeyNotPrefix(t: Node, s: Key)
    requires Shape(t, true) && t.Inner() && t.hasEnd && s == t.prefix
    ensures !SameKeys(t, Leaf(s))
  {
    ShapeOk(t, true);
    CountBounds(t);
    LiveMember(t, 256);
    var b := Live(t)[0];
    assert b in Live(t);
    ShapeChild(t, true, b);
    ShapeHoldsKey(Child(t, b), true);
    var j :| Has(Child(t, b), j);
    Join(t.prefix, b, j);
    assert Has(t, t.prefix + [b] + j);
    assert !Has(Leaf(s), t.prefix + [b] + j);
  }

  lemma ChildKeys(t: Node, r: Node, b: byte)
    requires t.Inner() && r.Inner() && t.prefix == r.prefix && SameKeys(t, r)
    ensures SameKeys(Child(t, b), Child(r, b))
  {
    forall j ensures Has(Child(t, b), j) <==> Has(Child(r, b), j) {
      var k := t.prefix + [b] + j;
      Join(t.prefix, b, j);
      HasVia(t, b, k);
      HasVia(r, b, k);
      assert Has(t, k) <==> Has(r, k);
    }
  }

  /** A key set has one strict tree, up to the numbering of Node48 slots. */
  lemma {:induction false} UniqueTree(t: Node, r: Node)
    requires Shape(t, true) && Shape(r, true) && SameKeys(t, r)
    ensures Similar(t, r)
    decreases t
  {
    if t != Empty { ShapeHoldsKey(t, true); }
    if r != Empty { ShapeHoldsKey(r, true); }
    if t.Leaf? {
      assert Has(r, t.sfx);
      if r.Inner() { InnerNotLeaf(r, t.sfx); }
    } else if t.Inner() {
      if r.Leaf? { InnerNotLeaf(t, r.sfx); }
      PrefixUnique(t, r);
      SameEnd(t, r);
      forall b: byte ensures if Child(t, b) == Empty then Child(r, b) == Empty else Similar(Child(t, b), Child(r, b)) {
        UniqueChild(t, r, b);
      }
      forall b: byte ensures Child(t, b) == Empty <==> Child(r, b) == Empty { UniqueChild(t, r, b); }
      SameSize(t, r);
    }
  }

  lemma SameEnd(t: Node, r: Node)
    requires t.Inner() && r.Inner() && t.prefix == r.prefix && SameKeys(t, r)
    ensures t.hasEnd == r.hasEnd
  {
    assert Has(t, t.prefix) <==> Has(r, t.prefix);
  }

  /** In shape, the number of children decides the kind of node. */
  lemma SameSize(t: Node, r: Node)
    requires LocalShape(t, true) && LocalShape(r, true) && t.Inner() && r.Inner()
    requires forall b: byte :: Child(t, b) == Empty <==> Child(r, b) == Empty
    ensures t.Count() == r.Count() && t.N4? == r.N4? && t.N16? == r.N16? && t.N48? == r.N48?
  {
    LiveSame(t, r, 256);
    CountBounds(t);
    CountBounds(r);
  }

  lemma {:induction false} UniqueChild(t: Node, r: Node, b: byte)
    requires Shape(t, true) && Shape(r, true) && SameKeys(t, r) && t.Inner() && r.Inner() && t.prefix == r.prefix
    ensures if Child(t, b) == Empty then Child(r, b) == Empty else Child(r, b) != Empty && Similar(Child(t, b), Child(r, b))
    decreases t, 0
  {
    ChildKeys(t, r, b);
    ShapeChild(t, true, b);
    ShapeChild(r, true, b);
    if Child(t, b) == Empty {
      if Child(r, b) != Empty { ShapeHoldsKey(Child(r, b), true); }
    } else {
      ShapeHoldsKey(Child(t, b), true);
      ChildSmaller(t, b);
      UniqueTree(Child(t, b), Child(r, b));
    }
  }
}
