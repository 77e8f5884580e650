/** Insertion and removal on the nodes in memory, each proved to leave exactly
    the tree its value counterpart computes. A cell that the code reaches
    through a mutable reference is passed in and written back by its owner. */
module ArtInPlace {
  import opened Options
  import opened Bytes
  import opened ArtNode
  import opened ArtOps
  import opened ArtSet
  import opened ArtSound
  import opened ArtHeap
  import opened ArtResize

  // ── One node ─────────────────────────────────────────────────────────

  /** `node_maybe_grow`. */
  method MaybeGrow(o: Block, ghost t: Node, ghost r: set<object>) returns (s: Block, ghost r': set<object>)
    requires Represents(Box(o), t, r) && LocalSound(t)
    ensures Represents(Box(s), Grow(t), r') && r <= r' && fresh(r' - r)
  {
    Unfold(o, t, r);
    hide Represents, Cells, Apart, Widen48, SlotIndex, Pad, Find;
    if o.kind == K4 && o.n == 4 {
      s := N4ToN16(o, t, r);
    } else if o.kind == K16 && o.n == 16 {
      s := N16ToN48(o, t, r);
    } else if o.kind == K48 && o.n == 48 {
      s := N48ToN256(o, t, r);
    } else {
      return o, r;
    }
    r' := r + Own(s);
  }

  /** The prefix of a node is written; nothing else changes. */
  method WritePrefix(o: Block, p: Key, ghost t: Node, ghost r: set<object>)
    requires Represents(Box(o), t, r)
    modifies o`prefix
    ensures Represents(Box(o), SetPrefix(t, p), r)
  {
    Unfold(o, t, r);
    hide Represents, Apart;
    o.prefix := p;
    Fold(o, SetPrefix(t, p), r);
  }

  /** The end flag of a node is written; nothing else changes. */
  method WriteEnd(o: Block, e: bool, ghost t: Node, ghost r: set<object>)
    requires Represents(Box(o), t, r)
    modifies o`hasEnd
    ensures Represents(Box(o), SetEnd(t, e), r)
  {
    Unfold(o, t, r);
    hide Represents, Apart;
    o.hasEnd := e;
    Fold(o, SetEnd(t, e), r);
  }

  /** `prepend_into`. */
  method PrependInto(p: Key, b: byte, child: Slot, ghost c: Node, ghost f: set<object>) returns (s: Slot)
    requires Represents(child, c, f)
    modifies f
    ensures Represents(s, Prepend(p, b, c), f)
  {
    HoleIsEmpty(child, c, f);
    match child {
      case Hole => s := Hole;
      case Tail(sfx) => s := Tail(p + [b] + sfx);
      case Box(o) =>
        WritePrefix(o, p + [b] + o.prefix, c, f);
        s := child;
    }
  }

  /** `node_maybe_shrink`. */
  method MaybeShrink(o: Block, ghost t: Node, ghost r: set<object>) returns (s: Slot, ghost r': set<object>)
    requires Represents(Box(o), t, r) && LocalSound(t)
    modifies r
    ensures Represents(s, Shrink(t), r') && r <= r' && fresh(r' - r)
  {
    Unfold(o, t, r);
    hide Apart, SlotIndex, Pad, Find, Live, Kids, Prepend;
    var nc, he := o.n, o.hasEnd;
    if nc == 0 && !he { return Hole, r; }
    if o.kind == K4 && nc == 1 && !he {
      s := PrependInto(o.prefix, o.keys[0], o.ch[0], t.ch[0], o.foot[0]);
      MoreRoom(s, Shrink(t), o.foot[0], r);
      return s, r;
    }
    var n: Block;
    if o.kind == K16 && nc <= 4 {
      n := N16ToN4(o, t, r);
    } else if o.kind == K48 && nc <= 16 {
      n := N48ToN16(o, t, r);
    } else if o.kind == K256 && nc <= 48 {
      n := N256ToN48(o, t, r);
    } else {
      return Box(o), r;
    }
    s, r' := Box(n), r + Own(n);
  }

  // ── One child ────────────────────────────────────────────────────────

  /** All of `o` but the child in cell `i`, which is being worked on. */
  ghost predicate AllBut(o: Block, t: Node, r: set<object>, i: nat)
    requires t.Inner() && i < Cap(KindOf(t))
    reads o, o.keys, o.idx, o.ch, Objects(if i < |o.foot| then o.foot[i := {}] else [])
  {
    && Own(o) <= r && Sized(o) && Header(o, t) && i < |o.foot| && Apart(Own(o), o.foot, r)
    && Objects(o.foot[i := {}]) !! o.foot[i]
    && Cells(o.ch[..][i := Hole], Padded(t)[i := Empty], o.foot[i := {}])
  }

  lemma TakeChild(o: Block, t: Node, r: set<object>, i: nat)
    requires Represents(Box(o), t, r) && i < |t.ch|
    ensures i < Cap(KindOf(t)) && AllBut(o, t, r, i)
    ensures Represents(o.ch[i], t.ch[i], o.foot[i]) && Own(o) !! o.foot[i] && o.foot[i] <= r
    ensures Objects(o.foot[i := {}]) <= r - o.foot[i] && Own(o) == {o, o.keys, o.idx, o.ch}
  {
    Unfold(o, t, r);
    EmptyCell();
    hide Represents;
    CellsPut(o.ch[..], Padded(t), o.foot, i, Hole, Empty, {});
    var fs := o.foot[i := {}];
    forall x | x in Objects(fs) ensures x !in o.foot[i] {
      var j :| 0 <= j < |fs| && x in fs[j];
    }
  }

  /** The child comes back, with a footprint that has grown at most by new
      objects. */
  method PutChild(o: Block, i: nat, x: Slot, ghost t: Node, ghost b: byte, ghost c: Node, ghost f: set<object>, ghost r: set<object>)
    requires t.Inner() && i == CellIndex(t, b) < |t.ch| && b < 256 && i < Cap(KindOf(t)) && AllBut(o, t, r, i)
    requires Represents(x, c, f) && f !! (r - o.foot[i])
    requires t.N48? ==> |t.idx| == 256
    modifies o`foot, o.ch
    ensures Represents(Box(o), SetCh(t, b, c), r + f)
  {
    OwnApart(Own(o), o.foot, r, i, f);
    hide Represents, Cells, Apart, Objects, Find;
    o.ch[i] := x;
    ghost var foot := o.foot;
    o.foot := foot[i := f];
    CellsPut(old(o.ch[..])[i := Hole], Padded(t)[i := Empty], foot[i := {}], i, x, c, f);
    assert o.ch[..] == old(o.ch[..])[i := Hole][i := x];
    PaddedSet(t, b, c, i);
    assert o.foot == foot[i := {}][i := f];
    ApartPut(Own(o), foot, r, i, f);
    Fold(o, SetCh(t, b, c), r + f);
  }

  lemma OwnApart(own: set<object>, fs: seq<set<object>>, r: set<object>, i: nat, f: set<object>)
    requires Apart(own, fs, r) && i < |fs| && f !! (r - fs[i])
    ensures own !! f && own !! Objects(fs[i := {}])
  {}

  lemma PaddedSet(t: Node, b: byte, c: Node, i: nat)
    requires t.Inner() && i == CellIndex(t, b) < |t.ch| && i < Cap(KindOf(t)) && (t.N48? ==> |t.idx| == 256)
    ensures var r := SetCh(t, b, c);
      && r.Inner() && KindOf(r) == KindOf(t) && |r.ch| == |t.ch| && r.Count() == t.Count() && r.prefix == t.prefix && r.hasEnd == t.hasEnd
      && (t.N4? || t.N16? ==> r.keys == t.keys) && (t.N48? ==> r.idx == t.idx)
      && Padded(r) == Padded(t)[i := Empty][i := c]
  {}

  // ── Insert ───────────────────────────────────────────────────────────

  lemma NewList(s: Block, p: Key)
    requires s.kind == K4 && s.prefix == p && !s.hasEnd && s.n == 0 && Sized(s)
    requires forall i :: 0 <= i < s.ch.Length ==> s.ch[i] == Hole && s.foot[i] == {}
    ensures Represents(Box(s), N4(p, false, [], []), Own(s))
  {}

  /** What is left of a key after `m` bytes goes into a node: as a leaf, or as
      its end flag. */
  method PutSuffix(o: Block, k: Key, m: nat, ghost t: Node, ghost r: set<object>)
    requires Represents(Box(o), t, r) && LocalSound(t) && !Full(t) && m <= |k|
    modifies o, o.keys, o.idx, o.ch
    ensures Represents(Box(o), AddSuffix(t, k, m), r)
  {
    LeafCell(k, m);
    hide Represents, LocalSound, AddCh, SetEnd;
    if m < |k| {
      o.AddChild(k[m], Tail(k[m + 1..]), t, Leaf(k[m + 1..]), {}, r);
      assert r + {} == r;
    } else {
      WriteEnd(o, true, t, r);
    }
  }

  lemma LeafCell(k: Key, m: nat)
    ensures m < |k| ==> Represents(Tail(k[m + 1..]), Leaf(k[m + 1..]), {})
  {}

  /** The loop of `common_prefix`. */
  method CommonPrefixLength(a: Key, b: Key) returns (m: nat)
    ensures m == CommonPrefix(a, b)
  {
    m := 0;
    assert a[0..] == a && b[0..] == b;
    while m < |a| && m < |b| && a[m] == b[m]
      invariant m <= |a| && m <= |b| && CommonPrefix(a, b) == m + CommonPrefix(a[m..], b[m..])
    {
      assert a[m..][1..] == a[m + 1..] && b[m..][1..] == b[m + 1..];
      m := m + 1;
    }
  }

  /** A leaf makes room for a second key. */
  method SplitTail(s: Key, k: Key) returns (o: Block, ghost r: set<object>)
    requires s != k
    ensures Represents(Box(o), ArtNode.SplitLeaf(s, k), r) && fresh(r)
  {
    SplitLeafRoom(s, k);
    hide Represents, AddSuffix, LocalSound, CommonPrefix;
    var c := CommonPrefixLength(s, k);
    o := new Block(K4, s[..c], false);
    r := Own(o);
    NewList(o, s[..c]);
    ghost var t := N4(s[..c], false, [], []);
    PutSuffix(o, s, c, t, r);
    PutSuffix(o, k, c, AddSuffix(t, s, c), r);
  }

  lemma SplitLeafRoom(s: Key, k: Key)
    requires s != k
    ensures var c := CommonPrefix(s, k); var t := N4(s[..c], false, [], []);
      c <= |s| && c <= |k| && LocalSound(t) && !Full(t) && LocalSound(AddSuffix(t, s, c)) && !Full(AddSuffix(t, s, c))
  {}

  /** A prefix that leaves the key gets a parent. */
  method SplitAbove(o: Block, k: Key, m: nat, ghost t: Node, ghost r: set<object>) returns (s: Block, ghost r': set<object>)
    requires Represents(Box(o), t, r) && m < |t.prefix| && m <= |k|
    modifies o
    ensures Represents(Box(s), SplitPrefix(t, k, m), r') && r <= r' && fresh(r' - r)
  {
    Unfold(o, t, r);
    SplitPrefixRoom(t, m);
    hide Represents, Apart, Cells, AddSuffix, AddCh, LocalSound, SetPrefix;
    var splitPfx, branch, restPfx := o.prefix[..m], o.prefix[m], o.prefix[m + 1..];
    WritePrefix(o, restPfx, t, r);
    s := new Block(K4, splitPfx, false);
    NewList(s, splitPfx);
    ghost var n0 := N4(splitPfx, false, [], []);
    ghost var own := Own(s);
    s.AddChild(branch, Box(o), n0, SetPrefix(t, restPfx), r, own);
    PutSuffix(s, k, m, AddCh(n0, branch, SetPrefix(t, restPfx)), own + r);
    r' := own + r;
  }

  lemma SplitPrefixRoom(t: Node, m: nat)
    requires t.Inner() && m < |t.prefix|
    ensures var n0 := N4(t.prefix[..m], false, [], []);
      var n1 := AddCh(n0, t.prefix[m], SetPrefix(t, t.prefix[m + 1..]));
      LocalSound(n0) && !Full(n0) && LocalSound(n1) && !Full(n1)
  {}

  /** What insertion and removal count on, child by child. */
  lemma SturdyAt(t: Node, b: byte)
    requires Sturdy(t) && t.Inner()
    ensures LocalSound(t) && LocalSound(Grow(t)) && !Full(Grow(t)) && Grow(t).Inner() && (t.N48? ==> |t.idx| == 256)
    ensures HasChild(t, b) ==> CellIndex(t, b) < |t.ch| && t.ch[CellIndex(t, b)] == Child(t, b) && Sturdy(Child(t, b))
  {
    GrowLocal(t);
    SturdyChild(t, b);
  }

  lemma Rest(key: Key, depth: nat, m: nat)
    requires depth + m <= |key|
    ensures key[depth..][m..] == key[depth + m..]
    ensures depth + m < |key| ==> key[depth..][m] == key[depth + m] && key[depth + m..][1..] == key[depth + m + 1..]
  {}

  /** The value's answer, branch by branch. */
  lemma InsertCases(t: Node, k: Key)
    requires t.Inner()
    ensures var m := CommonPrefix(t.prefix, k);
      if m < |t.prefix| then Insert(t, k) == (SplitPrefix(t, k, m), true)
      else if k[m..] == [] then Insert(t, k) == (SetEnd(t, true), !t.hasEnd)
      else if HasChild(t, k[m..][0]) then
        Insert(t, k) == (SetCh(t, k[m..][0], Insert(Child(t, k[m..][0]), k[m..][1..]).0), Insert(Child(t, k[m..][0]), k[m..][1..]).1)
      else Insert(t, k) == (AddCh(Grow(t), k[m..][0], Leaf(k[m..][1..])), true)
  {}

  lemma InsertEnds(t: Node, k: Key)
    ensures t == Empty ==> Insert(t, k) == (Leaf(k), true)
    ensures t.Leaf? ==> Insert(t, k) == if t.sfx == k then (t, false) else (ArtNode.SplitLeaf(t.sfx, k), true)
    ensures Represents(Tail(k), Leaf(k), {})
    ensures t.Inner() && t.hasEnd ==> SetEnd(t, true) == t
  {}

  /** `insert_node`. */
  method InsertNode(slot: Slot, key: Key, depth: nat, ghost t: Node, ghost r: set<object>) returns (s: Slot, added: bool, ghost r': set<object>)
    requires depth <= |key| && Represents(slot, t, r) && Sturdy(t)
    modifies r
    ensures Represents(s, Insert(t, key[depth..]).0, r') && added == Insert(t, key[depth..]).1
    ensures r <= r' && fresh(r' - r)
    decreases |key| - depth, 1
  {
    ghost var k := key[depth..];
    HoleIsEmpty(slot, t, r);
    InsertEnds(t, k);
    hide *;
    match slot {
      case Hole =>
        s, added, r' := Tail(key[depth..]), true, r;
        MoreRoom(s, Leaf(k), {}, r);
      case Tail(existing) =>
        TailIs(existing, t, r);
        if existing == key[depth..] { return slot, false, r; }
        var o, f := SplitTail(existing, key[depth..]);
        s, added, r' := Box(o), true, r + f;
        MoreRoom(s, ArtNode.SplitLeaf(existing, k), f, r');
      case Box(o) =>
        s, added, r' := InsertInner(o, key, depth, t, r);
    }
  }

  lemma TailIs(sfx: Key, t: Node, r: set<object>)
    requires Represents(Tail(sfx), t, r)
    ensures t == Leaf(sfx)
  {}

  lemma Fields(o: Block, t: Node, r: set<object>)
    requires Represents(Box(o), t, r)
    ensures t.Inner() && o.prefix == t.prefix && o.hasEnd == t.hasEnd && o in r && o.keys in r && o.idx in r && o.ch in r
    ensures o.ch.Length == |o.foot| && (t.N4? || t.N16? || t.N48? || t.N256?) && |t.ch| <= o.ch.Length
    ensures (t.N4? <==> o.kind == K4) && (t.N16? <==> o.kind == K16) && (t.N48? <==> o.kind == K48)
  {}

  method InsertInner(o: Block, key: Key, depth: nat, ghost t: Node, ghost r: set<object>) returns (s: Slot, added: bool, ghost r': set<object>)
    requires depth <= |key| && Represents(Box(o), t, r) && Sturdy(t)
    modifies r
    ensures Represents(s, Insert(t, key[depth..]).0, r') && added == Insert(t, key[depth..]).1
    ensures r <= r' && fresh(r' - r)
    decreases |key| - depth, 0
  {
    hide *;
    ghost var k := key[depth..];
    Fields(o, t, r);
    InsertCases(t, k);
    InsertEnds(t, k);
    var pfxLen := |o.prefix|;
    var matched := CommonPrefixLength(o.prefix, key[depth..]);
    if matched < pfxLen {
      var n;
      n, r' := SplitAbove(o, key[depth..], matched, t, r);
      return Box(n), true, r';
    }
    var d := depth + pfxLen;
    Rest(key, depth, pfxLen);
    if d == |key| {
      if o.hasEnd { return Box(o), false, r; }
      WriteEnd(o, true, t, r);
      return Box(o), true, r;
    }
    var b := key[d];
    SturdyAt(t, b);
    var i := o.ChildCell(b, t, r);
    if i.Some? {
      TakeChild(o, t, r, i.value);
      ghost var f;
      var x;
      x, added, f := InsertNode(o.ch[i.value], key, d + 1, t.ch[i.value], o.foot[i.value]);
      PutChild(o, i.value, x, t, b, Insert(Child(t, b), key[d + 1..]).0, f, r);
      return Box(o), added, r + f;
    }
    var n;
    n, r' := MaybeGrow(o, t, r);
    InsertEnds(t, key[d + 1..]);
    Fields(n, Grow(t), r');
    n.AddChild(b, Tail(key[d + 1..]), Grow(t), Leaf(key[d + 1..]), {}, r');
    assert r' + {} == r';
    return Box(n), true, r';
  }

  // ── Remove ───────────────────────────────────────────────────────────

  lemma RemoveCases(t: Node, k: Key)
    requires t.Inner()
    ensures var m := CommonPrefix(t.prefix, k);
      if m < |t.prefix| then Remove(t, k) == (t, false)
      else if k[m..] == [] then Remove(t, k) == if t.hasEnd then (Shrink(SetEnd(t, false)), true) else (t, false)
      else
        var b, w := k[m..][0], k[m..][1..];
        if !HasChild(t, b) then Remove(t, k) == (t, false)
        else
          var t1 := SetCh(t, b, Remove(Child(t, b), w).0);
          Remove(t, k) ==
            if Remove(Child(t, b), w).1 && Child(t1, b) == Empty then (Shrink(DelCh(t1, b)), true) else (t1, Remove(Child(t, b), w).1)
  {}

  lemma RemoveEnds(t: Node, k: Key, r: set<object>)
    ensures t == Empty ==> Remove(t, k) == (t, false)
    ensures t.Leaf? ==> Remove(t, k) == if t.sfx == k then (Empty, true) else (t, false)
    ensures Represents(Hole, Empty, r)
  {}

  /** What the steps after the recursion count on. */
  lemma ClearSteps(t: Node, b: byte, c: Node)
    requires LocalSound(t) && t.Inner() && HasChild(t, b)
    ensures var t1 := SetCh(t, b, c);
      t1.Inner() && Child(t1, b) == c && (c == Empty ==> Deletable(t1, b) && LocalSound(DelCh(t1, b)))
  {
    SetLocal(t, b, c);
    DelLocal(SetCh(t, b, c), b);
    SoundRoom(t, b);
  }

  lemma EndCleared(t: Node)
    requires LocalSound(t) && t.Inner()
    ensures LocalSound(SetEnd(t, false))
  {
    if t.N256? { LiveSame(t, SetEnd(t, false), 256); }
  }

  /** `remove_node`. */
  method RemoveNode(slot: Slot, key: Key, depth: nat, ghost t: Node, ghost r: set<object>) returns (s: Slot, removed: bool, ghost r': set<object>)
    requires depth <= |key| && Represents(slot, t, r) && Sturdy(t)
    modifies r
    ensures Represents(s, Remove(t, key[depth..]).0, r') && removed == Remove(t, key[depth..]).1
    ensures r <= r' && fresh(r' - r)
    decreases |key| - depth, 1
  {
    HoleIsEmpty(slot, t, r);
    RemoveEnds(t, key[depth..], r);
    hide *;
    match slot {
      case Hole => return slot, false, r;
      case Tail(sfx) =>
        TailIs(sfx, t, r);
        if sfx == key[depth..] { return Hole, true, r; }
        return slot, false, r;
      case Box(o) =>
        s, removed, r' := RemoveInner(o, key, depth, t, r);
    }
  }

  method RemoveInner(o: Block, key: Key, depth: nat, ghost t: Node, ghost r: set<object>) returns (s: Slot, removed: bool, ghost r': set<object>)
    requires depth <= |key| && Represents(Box(o), t, r) && Sturdy(t)
    modifies r
    ensures Represents(s, Remove(t, key[depth..]).0, r') && removed == Remove(t, key[depth..]).1
    ensures r <= r' && fresh(r' - r)
    decreases |key| - depth, 0
  {
    hide *;
    Fields(o, t, r);
    RemoveCases(t, key[depth..]);
    var pfxLen := |o.prefix|;
    var matched := CommonPrefixLength(o.prefix, key[depth..]);
    if matched < pfxLen { return Box(o), false, r; }
    var d := depth + pfxLen;
    Rest(key, depth, pfxLen);
    if d == |key| {
      if !o.hasEnd { return Box(o), false, r; }
      SturdyLocal(t);
      EndCleared(t);
      WriteEnd(o, false, t, r);
      s, r' := MaybeShrink(o, SetEnd(t, false), r);
      return s, true, r';
    }
    var b := key[d];
    SturdyAt(t, b);
    var i := o.ChildCell(b, t, r);
    if i.None? { return Box(o), false, r; }
    TakeChild(o, t, r, i.value);
    ghost var f;
    var x;
    x, removed, f := RemoveNode(o.ch[i.value], key, d + 1, t.ch[i.value], o.foot[i.value]);
    ghost var c := Remove(Child(t, b), key[d + 1..]).0;
    HoleIsEmpty(x, c, f);
    PutChild(o, i.value, x, t, b, c, f, r);
    ClearSteps(t, b, c);
    r' := r + f;
    s := Box(o);
    if removed && x == Hole {
      o.DelChild(b, SetCh(t, b, c), r');
      ghost var f';
      s, f' := MaybeShrink(o, DelCh(SetCh(t, b, c), b), r');
      r' := f';
    }
  }

  lemma SturdyLocal(t: Node)
    requires Sturdy(t)
    ensures LocalSound(t)
  {}
}
