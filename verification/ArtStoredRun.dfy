/** Whole runs of a stored tree, which is written and read back after every
    operation: when they are exact, and the runs on which they are not. */
module ArtStoredRun {
  import opened Options
  import opened Bytes
  import opened ArtNode
  import opened ArtOps
  import opened ArtSet
  import opened ArtOrder
  import opened ArtShape
  import opened ArtSer
  import opened ArtSound
  import opened ArtStore
  import opened ArtRun

  /** One operation on a stored tree, as it is read back afterwards. */
  function StoreStep(t: Tree, op: TreeOp): Tree {
    var r := TreeStep(t, op);
    Tree(Reload(r.root), r.len)
  }

  function StoreRun(ops: seq<TreeOp>): Tree {
    if ops == [] then EmptyTree else StoreStep(StoreRun(ops[..|ops| - 1]), ops[|ops| - 1])
  }

  ghost predicate CleanStep(t: Tree, op: TreeOp) {
    if op.Add? then InsertClean(t, op.key) else RemoveClean(t, op.key)
  }

  /** Every operation of the run is clean when its turn comes. */
  ghost predicate CleanRun(ops: seq<TreeOp>) {
    ops != [] ==> CleanRun(ops[..|ops| - 1]) && CleanStep(StoreRun(ops[..|ops| - 1]), ops[|ops| - 1])
  }

  /** The step is what the bytes say. */
  lemma StepBytes(t: Tree, op: TreeOp)
    requires Sound(t.root, 255) && Roomy(t.root) && (op.Add? ==> |op.key| <= 255) && TreeStep(t, op).len < U32
    ensures FromBytes(ToBytes(TreeStep(t, op))) == Some(StoreStep(t, op))
  {
    StepSound(t, op);
    SoundFits(TreeStep(t, op).root);
    TreeRoundTrip(TreeStep(t, op));
  }

  lemma StepSound(t: Tree, op: TreeOp)
    requires Sound(t.root, 255) && Roomy(t.root) && (op.Add? ==> |op.key| <= 255)
    ensures Sound(TreeStep(t, op).root, 255) && Sound(StoreStep(t, op).root, 255) && Roomy(StoreStep(t, op).root)
  {
    RoomyFits(t.root, op.key);
    if op.Add? { InsertSound(t.root, op.key, 255); } else { RemoveSound(t.root, op.key, 255); }
    SoundFits(TreeStep(t, op).root);
    ReloadSound(TreeStep(t, op).root, 255);
    ReloadRoomy(TreeStep(t, op).root);
  }

  /** Any stored run, clean or not: every node fits its arrays, and no counter
      is near its limit. */
  lemma {:induction false} RunSound(ops: seq<TreeOp>)
    requires forall i :: 0 <= i < |ops| ==> |ops[i].key| <= 255
    ensures Sound(StoreRun(ops).root, 255) && Roomy(StoreRun(ops).root)
  {
    if ops != [] {
      RunSound(ops[..|ops| - 1]);
      StepSound(StoreRun(ops[..|ops| - 1]), ops[|ops| - 1]);
    }
  }

  lemma StepHolds(t: Tree, op: TreeOp, s: set<Key>)
    requires TreeIs(t, s) && CleanStep(t, op)
    ensures TreeIs(StoreStep(t, op), if op.Add? then s + {op.key} else s - {op.key})
  {
    TreeParts(t, s);
    RecountedRoomy(t.root);
    if op.Add? {
      StoreInsertExact(t, s, op.key);
      InsertedTree(t, s, op.key);
      HoldsBounds(StoreInsert(t, op.key), s + {op.key});
    } else {
      StoreRemoveExact(t, s, op.key);
      RemovedTree(t, s, op.key);
      HoldsBounds(StoreRemove(t, op.key), s - {op.key});
    }
    hide *;
    StepIs(t, op);
    StepBytes(t, op);
    HoldsTree(ToBytes(TreeStep(t, op)), if op.Add? then s + {op.key} else s - {op.key});
  }

  lemma StepIs(t: Tree, op: TreeOp)
    ensures op.Add? ==> TreeStep(t, op) == TreeInsert(t, op.key).0 && StoreInsert(t, op.key) == ToBytes(TreeStep(t, op))
    ensures op.Drop? ==> TreeStep(t, op) == TreeRemove(t, op.key).0 && StoreRemove(t, op.key) == ToBytes(TreeStep(t, op))
    ensures op.Add? && InsertClean(t, op.key) ==> |op.key| <= 255
    ensures CleanStep(t, op) ==> if op.Add? then InsertClean(t, op.key) else RemoveClean(t, op.key)
  {
    hide Loses;
  }

  lemma HoldsTree(data: Key, s: set<Key>)
    requires Holds(data, s)
    ensures FromBytes(data).Some? && TreeIs(FromBytes(data).value, s)
  {}

  /** After a clean run the stored tree is in order and holds the ideal set. */
  lemma {:induction false} StoredRunExact(ops: seq<TreeOp>)
    requires CleanRun(ops)
    ensures TreeIs(StoreRun(ops), SetRun(ops))
  {
    if ops == [] {
      EmptyHolds();
    } else {
      StoredRunExact(ops[..|ops| - 1]);
      StepHolds(StoreRun(ops[..|ops| - 1]), ops[|ops| - 1], SetRun(ops[..|ops| - 1]));
    }
  }

  // ── Runs of single-byte keys ─────────────────────────────────────────

  /** A packed tree with exact counters is read back as it was. */
  lemma {:induction false} ReloadSame(t: Node, m: int)
    requires Ok(t) && Stored(t, m) && Recounted(t)
    ensures Reload(t) == t
    decreases t
  {
    if t.Inner() {
      var r := Reload(t);
      forall i | 0 <= i < |t.ch| ensures r.ch[i] == t.ch[i] {
        ReloadCell(t, i);
        ReloadSame(t.ch[i], m - |t.prefix| - 1);
      }
      ReloadHead(t);
      assert r.ch == t.ch;
      if t.N256? {
        LiveOccupied(t, 256);
        assert t.ch[..256] == t.ch;
      }
    }
  }

  lemma {:induction false} ShapeRecounted(t: Node)
    requires Shape(t, true)
    ensures Recounted(t)
    decreases t
  {
    if t.Inner() {
      forall i | 0 <= i < |t.ch| ensures Recounted(t.ch[i]) { ShapeRecounted(t.ch[i]); }
    }
  }

  lemma {:induction false} InsertAllStored(ks: seq<Key>)
    requires NoLossAll(ks) && forall i :: 0 <= i < |ks| ==> |ks[i]| <= 255
    ensures Stored(InsertAll(ks), 255)
  {
    if ks != [] {
      var pre := ks[..|ks| - 1];
      InsertAllStored(pre);
      InsertAllSpec(pre);
      ShapeOk(InsertAll(pre), true);
      InsertStored(InsertAll(pre), ks[|ks| - 1], 255);
    }
  }

  /** Insertions without loss: storing after each one changes nothing. */
  lemma {:induction false} StoredAdds(ks: seq<Key>)
    requires NoLossAll(ks) && |ks| < U32 && forall i :: 0 <= i < |ks| ==> |ks[i]| <= 255
    ensures StoreRun(Adds(ks)).root == InsertAll(ks) && StoreRun(Adds(ks)).len <= |ks| && CleanRun(Adds(ks))
  {
    if ks == [] {
      assert Adds(ks) == [];
    } else {
      hide *;
      var pre, k := ks[..|ks| - 1], ks[|ks| - 1];
      AddsParts(ks);
      StoredAdds(pre);
      InsertAllStored(ks);
      InsertAllSpec(ks);
      ShapeOk(InsertAll(ks), true);
      ShapeRecounted(InsertAll(ks));
      ReloadSame(InsertAll(ks), 255);
      RunNext(Adds(pre), Add(k));
      AddStep(StoreRun(Adds(pre)), k);
    }
  }

  lemma AddsParts(ks: seq<Key>)
    requires ks != [] && NoLossAll(ks)
    ensures var pre, k := ks[..|ks| - 1], ks[|ks| - 1];
      NoLossAll(pre) && !Loses(InsertAll(pre), k) && InsertAll(ks) == Insert(InsertAll(pre), k).0 && Adds(ks) == Adds(pre) + [Add(k)]
  {
    hide Insert, Loses;
  }

  lemma AddStep(t: Tree, k: Key)
    ensures StoreStep(t, Add(k)).root == Reload(Insert(t.root, k).0) && StoreStep(t, Add(k)).len <= t.len + 1
    ensures |k| <= 255 && t.len + 1 < U32 && !Loses(t.root, k) ==> CleanStep(t, Add(k))
  {
    hide Insert, Loses, Reload;
  }

  /** Below each byte of such a tree there is the empty leaf. */
  lemma SingleLeaf(t: Node, l: Key, b: byte)
    requires Shape(t, true) && Bytes1(t, l) && t.Inner() && t.prefix == [] && b in l
    ensures Child(t, b) == Leaf([])
  {
    var c := Child(t, b);
    Bytes1Child(t, l, b);
    ShapeChild(t, true, b);
    forall j ensures Has(c, j) <==> j == [] {
      RootChildKey(t, b, j);
      assert Has(t, [b] + j) <==> |[b] + j| == 1 && ([b] + j)[0] in l;
    }
    assert forall j :: Has(Leaf([]), j) <==> j == [];
    UniqueTree(Leaf([]), c);
  }

  /** The root over `[0]` to `[n - 1]`. */
  lemma RangeTree(n: nat)
    requires 17 <= n <= 100
    ensures var t := InsertAll(Singles(Range(0, n)));
      && NoLossAll(Singles(Range(0, n))) && Shape(t, true) && Ok(t) && Stored(t, 255) && Bytes1(t, Range(0, n))
      && t.Inner() && t.prefix == [] && !t.hasEnd && |Live(t)| == t.Count() == n
      && (n <= 48 ==> t.N48? && t.n == n) && (n > 48 ==> t.N256? && t.n == n)
      && StoreRun(Adds(Singles(Range(0, n)))).root == t && CleanRun(Adds(Singles(Range(0, n))))
  {
    var l := Range(0, n);
    assert NIL !in l;
    SinglesTree(l);
    SingleByteTree(InsertAll(Singles(l)), l);
    Bytes1Root(InsertAll(Singles(l)), l);
    InsertAllStored(Singles(l));
    StoredAdds(Singles(l));
    SizeByCount(InsertAll(Singles(l)));
  }

  lemma SizeByCount(t: Node)
    requires Shape(t, true) && t.Inner() && t.Count() >= 17
    ensures (t.Count() <= 48 ==> t.N48?) && (t.Count() > 48 ==> t.N256?)
  {}

  /** The key inserted last owns the last slot. */
  lemma LastSlot(t: Node, b: byte)
    requires Ok(t) && Stored(t, 255) && t.N48? && t.n < 48 && t.prefix == [] && Child(t, b) == Empty
    ensures var r := Insert(t, [b]).0; r.N48? && |r.idx| == 256 && r.idx[b] == t.n
  {
    HasChildLive(t, b);
    PrefixMatch([], [b]);
    PackedFirst(t.ch, t.n);
    assert t.ch[t.n] == Empty;
    assert FirstEmpty(t.ch) == t.n;
  }

  /** Removing `[b]` from a root whose last slot is another byte's. */
  lemma HoleAt(t: Node, b: byte, c: byte)
    requires Ok(t) && Stored(t, 255) && t.N48? && t.n > 17 && t.prefix == [] && b != c
    requires Child(t, b) == Child(t, c) == Leaf([]) && t.idx[c] == t.n - 1
    ensures LeavesHole(t, [b]) && Has(t, [c]) && !Has(Reload(Remove(t, [b]).0), [c])
  {
    assert [b][1..] == [] && [b][0..] == [b];
    HasChildLive(t, b);
    RootChildKey(t, c, []);
    assert [c] + [] == [c];
    assert t.idx[b] != t.idx[c];
    RemoveUnfold(t, [b]);
    ClearCh48(t, b);
    var r := Reload(ClearCh(t, b));
    assert Child(r, c) == Empty;
    RootChildKey(r, c, []);
  }

  /** Eighteen keys stored one by one, the first removed: the last is lost. */
  lemma HoleRun()
    ensures var ops := Adds(Singles(Range(0, 18)));
      && CleanRun(ops) && LeavesHole(StoreRun(ops).root, [0])
      && Has(StoreRun(ops).root, [17]) && !Has(StoreRun(ops + [Drop([0])]).root, [17])
  {
    hide *;
    RangeTree(17);
    RangeTree(18);
    OneMore(17);
    EighteenKeys(Range(0, 17), Range(0, 18), InsertAll(Singles(Range(0, 17))), InsertAll(Singles(Range(0, 18))));
    RunNext(Adds(Singles(Range(0, 18))), Drop([0]));
    DropStep(StoreRun(Adds(Singles(Range(0, 18)))), [0]);
  }

  lemma OneMore(n: byte)
    requires 0 < n < 100
    ensures Range(0, n + 1) == Range(0, n) + [n] && |Range(0, n)| == n && 0 in Range(0, n) && n !in Range(0, n)
  {
    assert Range(0, n)[0] == 0;
  }

  lemma RunNext(ops: seq<TreeOp>, op: TreeOp)
    ensures StoreRun(ops + [op]) == StoreStep(StoreRun(ops), op)
    ensures CleanRun(ops + [op]) <==> CleanRun(ops) && CleanStep(StoreRun(ops), op)
  {
    assert (ops + [op])[..|ops|] == ops;
  }

  lemma DropStep(t: Tree, k: Key)
    ensures StoreStep(t, Drop(k)).root == Reload(Remove(t.root, k).0)
  {}

  lemma EighteenKeys(l: Key, m: Key, t: Node, r: Node)
    requires m == l + [17] && |l| == 17 && 0 in l && 17 !in l
    requires t == InsertAll(Singles(l)) && r == InsertAll(Singles(m))
    requires Shape(t, true) && Ok(t) && Stored(t, 255) && Bytes1(t, l) && t.N48? && t.n == 17 && t.prefix == []
    requires Shape(r, true) && Ok(r) && Stored(r, 255) && Bytes1(r, m) && r.N48? && r.n == 18 && r.prefix == []
    ensures LeavesHole(r, [0]) && Has(r, [17]) && !Has(Reload(Remove(r, [0]).0), [17])
  {
    hide *;
    InBoth(l, m);
    NotLive(t, l, 17);
    SinglesLast(l, 17);
    LastSlot(t, 17);
    SingleLeaf(r, m, 0);
    SingleLeaf(r, m, 17);
    HoleAt(r, 0, 17);
  }

  lemma InBoth(l: Key, m: Key)
    requires m == l + [17] && 0 in l
    ensures 0 in m && 17 in m && forall t: Node :: t.N48? ==> t.Inner()
  {
    assert m[|l|] == 17;
  }

  lemma NotLive(t: Node, l: Key, b: byte)
    requires Shape(t, true) && Bytes1(t, l) && t.N48? && t.prefix == [] && b !in l
    ensures Child(t, b) == Empty && t.Inner()
  {
    Bytes1Child(t, l, b);
  }

  /** A Node256 of single-byte keys at its smallest: removing a key leaves the
      counter, reading back corrects it, and removing another hands it on. */
  lemma CountedDown(t: Node, l: Key, b: byte, c: byte)
    requires Shape(t, true) && Ok(t) && Stored(t, 255) && Bytes1(t, l) && t.N256? && t.n == 49 && t.prefix == [] && !t.hasEnd
    requires b in l && c in l && b != c
    ensures !LeavesHole(t, [b]) && !Overcounts(t, [b])
    ensures var t1 := Reload(Remove(t, [b]).0);
      && Overcounts(t1, [c]) && !LeavesHole(t1, [c]) && Ok(t1) && Stored(t1, 255)
  {
    assert [b][1..] == [] && [c][1..] == [] && [b][0..] == [b] && [c][0..] == [c];
    SingleLeaf(t, l, b);
    SingleLeaf(t, l, c);
    HasChildLive(t, b);
    RemoveUnfold(t, [b]);
    var r := ClearCh(t, b);
    ClearChSpec(t, b);
    LiveAdd(r, t, b, 256);
    RemoveOk(t, [b]);
    RemoveStored(t, [b], 255);
    ReloadOk(r, 255);
    ReloadChild(r, c);
    RecountedAt(r);
  }

  lemma RecountedAt(t: Node)
    requires Ok(t) && Stored(t, 255) && t.N256?
    ensures Reload(t).N256? && Reload(t).n == |Live(t)| && Reload(t).prefix == t.prefix
  {
    var r := Reload(t);
    LiveOccupied(r, 256);
    assert r.ch[..256] == r.ch;
    forall b: byte ensures Child(r, b) == Empty <==> Child(t, b) == Empty { ReloadEmpty(Child(t, b)); }
    LiveSame(t, r, 256);
  }

  /** Forty-nine keys stored one by one, the first removed, cleanly; removing
      the second hands a wrong counter to a Node48. The tree is out of order
      from then on, though no other key has gone. */
  lemma CounterRun()
    ensures var ops := Adds(Singles(Range(0, 49))) + [Drop([0])];
      && CleanRun(ops) && Overcounts(StoreRun(ops).root, [1])
      && !Ok(StoreRun(ops + [Drop([1])]).root)
      && forall j :: Has(StoreRun(ops + [Drop([1])]).root, j) <==> Has(StoreRun(ops).root, j) && j != [1]
  {
    hide *;
    RangeTree(49);
    FirstTwo(Range(0, 49));
    var t := InsertAll(Singles(Range(0, 49)));
    CountedDown(t, Range(0, 49), 0, 1);
    RunNext(Adds(Singles(Range(0, 49))), Drop([0]));
    DropStep(StoreRun(Adds(Singles(Range(0, 49)))), [0]);
    DropClean(StoreRun(Adds(Singles(Range(0, 49)))), [0]);
    var ops := Adds(Singles(Range(0, 49))) + [Drop([0])];
    RunNext(ops, Drop([1]));
    DropStep(StoreRun(ops), [1]);
    OvercountStays(StoreRun(ops).root, [1], 255);
    forall j ensures Has(StoreRun(ops + [Drop([1])]).root, j) <==> Has(StoreRun(ops).root, j) && j != [1] {
      RemoveStoredHas(StoreRun(ops).root, [1], 255, j);
    }
  }

  lemma FirstTwo(l: Key)
    requires |l| >= 2 && l[0] == 0 && l[1] == 1
    ensures 0 in l && 1 in l
  {}

  lemma DropClean(t: Tree, k: Key)
    ensures CleanStep(t, Drop(k)) <==> !LeavesHole(t.root, k) && !Overcounts(t.root, k)
  {}
}
