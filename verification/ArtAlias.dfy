/** What insertion and removal do to trees that are out of order: the answers
    stay right, but after a hole two bytes of a Node48 can share one child. */
module ArtAlias {
  import opened Bytes
  import opened ArtNode
  import opened ArtOps
  import opened ArtSet
  import opened ArtOrder
  import opened ArtShape
  import opened ArtSer
  import opened ArtSound
  import opened ArtStore
  import opened ArtRun
  import opened ArtStoredRun

  // ── What stays right on every tree ───────────────────────────────────

  /** On every tree that fits its arrays, in order or not, insertion reports
      whether the key was absent, and removal whether it was there. */
  lemma {:induction false} FlagsExact(t: Node, k: Key)
    requires Sturdy(t)
    ensures Insert(t, k).1 <==> !Has(t, k)
    ensures Remove(t, k).1 <==> Has(t, k)
    decreases |k|
  {
    if t.Inner() {
      PrefixMatch(t.prefix, k);
      if t.prefix <= k && |t.prefix| < |k| {
        var b, w := k[|t.prefix|], k[|t.prefix|..][1..];
        SturdyChild(t, b);
        if HasChild(t, b) { FlagsExact(Child(t, b), w); } else { NoChildHere(t, b); }
      }
    }
  }

  lemma NoChildHere(t: Node, b: byte)
    requires LocalSound(t) && !HasChild(t, b)
    ensures Child(t, b) == Empty
  {}

  /** Bytes `b` and `x` refer to one slot of a Node48. */
  predicate Shared(t: Node, b: byte, x: byte) {
    t.N48? && |t.idx| == 256 && t.idx[b] == t.idx[x] != NIL
  }

  /** Writing the child under `b` writes it under every byte that shares its
      slot, and nowhere else. */
  lemma SetShares(t: Node, b: byte, c: Node, x: byte)
    requires LocalSound(t) && HasChild(t, b)
    ensures Child(SetCh(t, b, c), x) == if x == b || Shared(t, b, x) then c else Child(t, x)
  {
    if t.N4? || t.N16? {
      LookupPut(t.keys, t.ch, b, c, x);
    } else if t.N48? {
      var s := t.idx[b];
      assert s < 48 && SetCh(t, b, c).ch == t.ch[s := c];
    } else {
      assert SetCh(t, b, c).ch == t.ch[b := c];
    }
  }

  /** A new child also shows under every byte that still refers to the slot it
      takes, and nowhere else. */
  lemma AddShares(t: Node, b: byte, c: Node, x: byte)
    requires LocalSound(t) && t.Inner() && !Full(t) && !HasChild(t, b)
    ensures AddCh(t, b, c).Inner()
    ensures Child(AddCh(t, b, c), x) == if x == b || Shared(AddCh(t, b, c), b, x) then c else Child(t, x)
  {
    if t.N48? {
      OccupiedUsed(t.idx, t.ch);
      OccupiedFull(t.ch);
      hide Used, Occupied;
    } else if t.N4? || t.N16? {
      ListShares(t.keys, t.ch, b, c, x);
    }
  }

  /** Key lists in any order: the first entry of a byte counts. */
  lemma ListShares(keys: Key, ch: seq<Node>, b: byte, c: Node, x: byte)
    requires |keys| == |ch| && Find(keys, b) == |keys|
    ensures var p := Below(keys, b);
      Lookup(InsertAt(keys, p, b), InsertAt(ch, p, c), x) == if x == b then c else Lookup(keys, ch, x)
  {
    hide Find, Below;
    var p := Below(keys, b);
    var r, i := InsertAt(keys, p, b), Find(keys, x);
    assert forall j :: 0 <= j < |r| ==> r[j] == if j < p then keys[j] else if j == p then b else keys[j - 1];
    if x == b {
      FirstAt(r, p, b);
    } else if i < |keys| {
      FirstAt(r, if i < p then i else i + 1, x);
    } else {
      NowhereIn(r, x);
    }
  }

  lemma FirstAt(keys: Key, i: nat, x: byte)
    requires i < |keys| && keys[i] == x && forall j :: 0 <= j < i ==> keys[j] != x
    ensures Find(keys, x) == i
  {}

  lemma NowhereIn(keys: Key, x: byte)
    requires forall j :: 0 <= j < |keys| ==> keys[j] != x
    ensures Find(keys, x) == |keys|
  {}

  /** The key that goes in is in afterwards, on every tree that fits its
      arrays. */
  lemma {:induction false} InsertPresent(t: Node, k: Key)
    requires Sturdy(t)
    ensures Has(Insert(t, k).0, k)
    decreases |k|
  {
    if t.Leaf? {
      if t.sfx != k { SplitLeafSpec(t.sfx, k); }
    } else if t.Inner() {
      var m := CommonPrefix(t.prefix, k);
      if m < |t.prefix| {
        SplitPresent(t, k);
      } else if m < |k| {
        InsertBelowPresent(t, k);
      }
    }
  }

  lemma SplitPresent(t: Node, k: Key)
    requires t.Inner() && CommonPrefix(t.prefix, k) < |t.prefix|
    ensures Has(SplitPrefix(t, k, CommonPrefix(t.prefix, k)), k)
  {
    var m := CommonPrefix(t.prefix, k);
    SplitIs(t, k, m);
    OneChild(t.prefix[..m], t.prefix[m], SetPrefix(t, t.prefix[m + 1..]));
    var n1 := N4(t.prefix[..m], false, [t.prefix[m]], [SetPrefix(t, t.prefix[m + 1..])]);
    if m < |k| {
      assert Find(n1.keys, k[m]) == 1;
      AddShares(n1, k[m], Leaf(k[m + 1..]), k[m]);
      assert k[m..][1..] == k[m + 1..];
    }
  }

  lemma {:induction false} InsertBelowPresent(t: Node, k: Key)
    requires Sturdy(t) && t.Inner() && CommonPrefix(t.prefix, k) == |t.prefix| < |k|
    ensures Has(Insert(t, k).0, k)
    decreases |k|, 0
  {
    var b, w := k[|t.prefix|], k[|t.prefix|..][1..];
    PrefixMatch(t.prefix, k);
    SturdyChild(t, b);
    GrowLocal(t);
    ViaSelf(t.prefix, k);
    hide Sturdy, LocalSound, Child, SetCh, AddCh, Grow, Has, CommonPrefix, HasChild;
    InsertIs(t, k);
    if HasChild(t, b) {
      InsertPresent(Child(t, b), w);
      SetLocal(t, b, Insert(Child(t, b), w).0);
      SetShares(t, b, Insert(Child(t, b), w).0, b);
      HasVia(SetCh(t, b, Insert(Child(t, b), w).0), b, k);
    } else {
      GrowAbsent(t, b);
      AddShares(Grow(t), b, Leaf(w), b);
      LeafHas(w);
      AddHead(Grow(t), b, Leaf(w));
      HasVia(AddCh(Grow(t), b, Leaf(w)), b, k);
    }
  }

  lemma ViaSelf(p: Key, k: Key)
    requires p <= k && |p| < |k|
    ensures Via(p, k[|p|], k)
  {}

  lemma LeafHas(w: Key)
    ensures Has(Leaf(w), w)
  {}

  lemma AddHead(t: Node, b: byte, c: Node)
    requires t.Inner()
    ensures SameHead(t, AddCh(t, b, c))
  {}

  // ── A key that was never inserted ────────────────────────────────────

  /** A root after a hole: seventeen are counted, slot `s` is free, and byte 17
      refers to slot 17, which was not written. */
  predicate Holed(t: Node, s: nat) {
    && t.N48? && t.prefix == [] && !t.hasEnd && t.n == 17 && |t.idx| == 256 && |t.ch| == 48
    && t.idx[100] == t.idx[101] == NIL && t.idx[17] == 17
    && s < 17 && t.ch[s] == Empty && (forall i :: 0 <= i < 17 && i != s ==> t.ch[i] != Empty) && t.ch[17] == Empty
  }

  /** The step over a single branch byte of such a root. */
  lemma NextFree(t: Node, b: byte, w: Key, s: nat)
    requires t.N48? && t.prefix == [] && t.n < 48 && |t.idx| == 256 && |t.ch| == 48 && t.idx[b] == NIL
    requires s < t.n + 1 && t.ch[s] == Empty && forall i :: 0 <= i < s ==> t.ch[i] != Empty
    ensures var r := Reload(Insert(t, [b] + w).0);
      && r.N48? && r.prefix == [] && r.hasEnd == t.hasEnd && r.n == t.n + 1 && r.idx == t.idx[b := s] && |r.ch| == 48
      && r.ch[s] == Leaf(w) && forall i :: 0 <= i <= t.n && i != s ==> r.ch[i] == Reload(t.ch[i])
  {
    assert ([b] + w)[0..][1..] == w && ([b] + w)[0..][0] == b;
    PrefixMatch([], [b] + w);
    assert FirstEmpty(t.ch) == s;
    assert Insert(t, [b] + w).0 == AddCh(t, b, Leaf(w));
  }

  lemma LaterSlots(t: Node, s: nat)
    requires Holed(t, s)
    ensures forall i :: 0 <= i < 17 && i != s ==> Reload(t.ch[i]) != Empty
    ensures Reload(t.ch[17]) == Empty
  {}

  /** Two more keys, and byte 17 leads to what was inserted under byte 101. */
  lemma TwoMore(t: Node, s: nat, w: Key)
    requires Holed(t, s)
    ensures var r := Reload(Insert(Reload(Insert(t, [100]).0), [101] + w).0);
      && Has(r, [101] + w) && Has(r, [17] + w) && Shared(r, 17, 101)
      && !Has(Reload(Remove(r, [101] + w).0), [17] + w)
  {
    LaterSlots(t, s);
    assert [100] + [] == [100];
    NextFree(t, 100, [], s);
    var t1 := Reload(Insert(t, [100]).0);
    NextFree(t1, 101, w, 17);
    var r := Reload(Insert(t1, [101] + w).0);
    RootChildKey(r, 101, w);
    RootChildKey(r, 17, w);
    hide Insert;
    TakenOut(r, w);
  }

  /** Removing the one key takes out the other. */
  lemma TakenOut(r: Node, w: Key)
    requires r.N48? && r.prefix == [] && r.n == 19 && |r.idx| == 256 && |r.ch| == 48
    requires r.idx[17] == r.idx[101] == 17 && r.ch[17] == Leaf(w)
    ensures !Has(Reload(Remove(r, [101] + w).0), [17] + w)
  {
    var k := [101] + w;
    assert k[0..][1..] == w && k[0..][0] == 101;
    PrefixMatch([], k);
    var r1 := SetCh(r, 101, Empty);
    var r2 := DelCh(r1, 101);
    assert Remove(r, k).0 == Shrink(r2);
    assert Shrink(r2) == r2 && r2.ch[17] == Empty && r2.idx[17] == 17;
    RootChildKey(Reload(r2), 17, w);
  }

  /** The run that leaves a hole, two more keys, and a key is there that was
      never inserted; removing one of the two takes it out again. */
  lemma AliasRun()
    ensures var ops := Adds(Singles(Range(0, 18))) + [Drop([0])] + [Add([100])] + [Add([101, 5])];
      && [17, 5] !in SetRun(ops) && Has(StoreRun(ops).root, [17, 5])
      && !Has(StoreRun(ops + [Drop([101, 5])]).root, [17, 5])
  {
    hide *;
    var pre := Adds(Singles(Range(0, 18)));
    var s := HoleLeft();
    assert [101] + [5] == [101, 5] && [17] + [5] == [17, 5];
    TwoMore(StoreRun(pre + [Drop([0])]).root, s, [5]);
    StepRoot(pre + [Drop([0])], Add([100]));
    StepRoot(pre + [Drop([0])] + [Add([100])], Add([101, 5]));
    StepRoot(pre + [Drop([0])] + [Add([100])] + [Add([101, 5])], Drop([101, 5]));
    NeverAdded(Range(0, 18), [17, 5]);
    StillOut(pre, Drop([0]), [17, 5]);
    StillOut(pre + [Drop([0])], Add([100]), [17, 5]);
    StillOut(pre + [Drop([0])] + [Add([100])], Add([101, 5]), [17, 5]);
  }

  lemma StepRoot(ops: seq<TreeOp>, op: TreeOp)
    ensures op.Add? ==> StoreRun(ops + [op]).root == Reload(Insert(StoreRun(ops).root, op.key).0)
    ensures op.Drop? ==> StoreRun(ops + [op]).root == Reload(Remove(StoreRun(ops).root, op.key).0)
  {
    RunNext(ops, op);
    hide Insert, Remove, Reload;
  }

  lemma StillOut(ops: seq<TreeOp>, op: TreeOp, k: Key)
    requires k !in SetRun(ops) && op.key != k
    ensures k !in SetRun(ops + [op])
  {
    assert (ops + [op])[..|ops|] == ops;
  }

  lemma {:induction false} NeverAdded(bs: Key, k: Key)
    requires |k| > 1
    ensures k !in SetRun(Adds(Singles(bs)))
  {
    if bs != [] {
      NeverAdded(bs[..|bs| - 1], k);
      assert Adds(Singles(bs))[..|bs| - 1] == Adds(Singles(bs[..|bs| - 1]));
    }
  }

  lemma HoleLeft() returns (s: nat)
    ensures Holed(StoreRun(Adds(Singles(Range(0, 18))) + [Drop([0])]).root, s)
  {
    hide *;
    RangeTree(17);
    RangeTree(18);
    OneMore(17);
    RunNext(Adds(Singles(Range(0, 18))), Drop([0]));
    DropStep(StoreRun(Adds(Singles(Range(0, 18)))), [0]);
    s := HoleSlot(Range(0, 17), Range(0, 18), InsertAll(Singles(Range(0, 17))), InsertAll(Singles(Range(0, 18))));
  }

  lemma HoleSlot(l: Key, m: Key, t: Node, r: Node) returns (s: nat)
    requires m == l + [17] && |l| == 17 && 0 in l && 17 !in l && 100 !in m && 101 !in m
    requires t == InsertAll(Singles(l)) && r == InsertAll(Singles(m))
    requires Shape(t, true) && Ok(t) && Stored(t, 255) && Bytes1(t, l) && t.N48? && t.n == 17 && t.prefix == []
    requires Shape(r, true) && Ok(r) && Stored(r, 255) && Bytes1(r, m) && r.N48? && r.n == 18 && r.prefix == [] && !r.hasEnd
    ensures Holed(Reload(Remove(r, [0]).0), s)
  {
    hide *;
    InBoth(l, m);
    NotLive(t, l, 17);
    SinglesLast(l, 17);
    LastSlot(t, 17);
    SingleLeaf(r, m, 0);
    NotLive(r, m, 100);
    NotLive(r, m, 101);
    s := FreedSlot(r);
  }

  lemma FreedSlot(r: Node) returns (s: nat)
    requires Ok(r) && Stored(r, 255) && r.N48? && r.n == 18 && r.prefix == [] && !r.hasEnd && |r.idx| == 256 && r.idx[17] == 17
    requires Child(r, 0) == Leaf([]) && Child(r, 100) == Child(r, 101) == Empty
    ensures Holed(Reload(Remove(r, [0]).0), s)
  {
    assert [0][1..] == [] && [0][0..] == [0];
    HasChildLive(r, 0);
    HasChildLive(r, 100);
    HasChildLive(r, 101);
    PackedFirst(r.ch, 18);
    RemoveUnfold(r, [0]);
    ClearCh48(r, 0);
    s := r.idx[0];
    assert r.idx[0] != r.idx[17];
    var q := ClearCh(r, 0);
    assert Remove(r, [0]).0 == q;
    forall i | 0 <= i < 17 && i != s ensures Reload(q).ch[i] != Empty { ReloadEmpty(q.ch[i]); }
  }
}
