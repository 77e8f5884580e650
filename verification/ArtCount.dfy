/** The counter of a Node256 over whole runs in memory: it never goes down, so
    it counts the insertions, and after 65535 of them it wraps around. */
module ArtCount {
  import opened Bytes
  import opened ArtNode
  import opened ArtOps
  import opened ArtSet
  import opened ArtOrder
  import opened ArtShape
  import opened ArtSound
  import opened ArtRun

  // ── Counters are bounded by the insertions ───────────────────────────

  /** No counter is above `c`, which is positive if there is a node at all. */
  ghost predicate Capped(t: Node, c: nat)
    decreases t
  {
    && (t != Empty ==> c > 0)
    && (t.Inner() ==> t.Count() <= c && forall i :: 0 <= i < |t.ch| ==> Capped(t.ch[i], c))
  }

  lemma {:induction false} CappedMore(t: Node, c: nat, d: nat)
    requires Capped(t, c) && c <= d
    ensures Capped(t, d)
    decreases t
  {
    if t.Inner() {
      forall i | 0 <= i < |t.ch| ensures Capped(t.ch[i], d) { CappedMore(t.ch[i], c, d); }
    }
  }

  lemma CappedChild(t: Node, b: byte, c: nat)
    requires Capped(t, c)
    ensures Capped(Child(t, b), c)
  {}

  lemma CappedLift(t: Node, r: Node, x: Node, c: nat, d: nat)
    requires t.Inner() && Capped(t, c) && c <= d && Capped(x, d) && (r != Empty ==> d > 0)
    requires r.Inner() ==> r.Count() <= d && forall i :: 0 <= i < |r.ch| ==> r.ch[i] == x || r.ch[i] == Empty || r.ch[i] in t.ch
    ensures Capped(r, d)
  {
    if r.Inner() {
      forall i | 0 <= i < |r.ch| ensures Capped(r.ch[i], d) {
        if r.ch[i] in t.ch {
          var j :| 0 <= j < |t.ch| && t.ch[j] == r.ch[i];
          CappedMore(t.ch[j], c, d);
        }
      }
    }
  }

  lemma AddCapped(t: Node, b: byte, x: Node, c: nat)
    requires t.Inner() && Capped(t, c) && Capped(x, c + 1)
    ensures Capped(AddCh(t, b, x), c + 1)
  {
    var r := AddCh(t, b, x);
    forall i | 0 <= i < |r.ch| ensures r.ch[i] == x || r.ch[i] in t.ch { AddChKids(t, b, x, i); }
    CappedLift(t, r, x, c, c + 1);
  }

  lemma GrowCapped(t: Node, c: nat)
    requires t.Inner() && Capped(t, c)
    ensures Capped(Grow(t), c) && Grow(t).Inner()
  {
    var r := Grow(t);
    forall i | 0 <= i < |r.ch| ensures r.ch[i] == Empty || r.ch[i] in t.ch { GrowKids(t, i); }
    CappedLift(t, r, Empty, c, c);
  }

  lemma SetCapped(t: Node, b: byte, x: Node, c: nat, d: nat)
    requires t.Inner() && Capped(t, c) && c <= d && Capped(x, d)
    ensures Capped(SetCh(t, b, x), d)
  {
    var r := SetCh(t, b, x);
    forall i | 0 <= i < |r.ch| ensures r.ch[i] == x || r.ch[i] in t.ch { SetChKids(t, b, x, i); }
    CappedLift(t, r, x, c, d);
  }

  lemma {:induction false} PrefixCapped(t: Node, p: Key, c: nat)
    requires t.Inner() && Capped(t, c)
    ensures Capped(SetPrefix(t, p), c)
  {}

  lemma SuffixCapped(t: Node, k: Key, m: nat, c: nat)
    requires t.Inner() && Capped(t, c)
    ensures Capped(AddSuffix(t, k, m), c + 1)
  {
    if m < |k| {
      AddCapped(t, k[m], Leaf(k[m + 1..]), c);
    } else {
      CappedMore(SetEnd(t, true), c, c + 1);
    }
  }

  lemma SplitLeafCapped(s: Key, k: Key, c: nat)
    requires c > 0
    ensures Capped(SplitLeaf(s, k), c + 1)
  {
    var m := CommonPrefix(s, k);
    var n0 := N4(s[..m], false, [], []);
    FirstSuffix(n0, s, m);
    hide AddSuffix;
    SuffixCapped(AddSuffix(n0, s, m), k, m, 1);
    CappedMore(SplitLeaf(s, k), 2, c + 1);
  }

  lemma SplitPrefixCapped(t: Node, k: Key, m: nat, c: nat)
    requires t.Inner() && m < |t.prefix| && Capped(t, c)
    ensures Capped(SplitPrefix(t, k, m), c + 1)
  {
    var x := SetPrefix(t, t.prefix[m + 1..]);
    PrefixCapped(t, t.prefix[m + 1..], c);
    OneChild(t.prefix[..m], t.prefix[m], x);
    hide AddSuffix;
    SuffixCapped(N4(t.prefix[..m], false, [t.prefix[m]], [x]), k, m, c);
  }

  lemma {:induction false} InsertCapped(t: Node, k: Key, c: nat)
    requires Capped(t, c)
    ensures Capped(Insert(t, k).0, c + 1)
    decreases |k|, 1
  {
    if t.Leaf? {
      if t.sfx != k { SplitLeafCapped(t.sfx, k, c); } else { CappedMore(t, c, c + 1); }
    } else if t.Inner() {
      var m := CommonPrefix(t.prefix, k);
      if m < |t.prefix| {
        SplitPrefixCapped(t, k, m, c);
      } else if m == |k| {
        CappedMore(SetEnd(t, true), c, c + 1);
      } else {
        InsertBelowCapped(t, k, c);
      }
    }
  }

  lemma {:induction false} InsertBelowCapped(t: Node, k: Key, c: nat)
    requires t.Inner() && Capped(t, c) && CommonPrefix(t.prefix, k) == |t.prefix| < |k|
    ensures Capped(Insert(t, k).0, c + 1)
    decreases |k|, 0
  {
    var b, w := k[|t.prefix|], k[|t.prefix|..][1..];
    hide *;
    InsertIs(t, k);
    if HasChild(t, b) {
      CappedChild(t, b, c);
      InsertCapped(Child(t, b), w, c);
      SetCapped(t, b, Insert(Child(t, b), w).0, c, c + 1);
    } else {
      GrowCapped(t, c);
      LeafCapped(w, c);
      AddCapped(Grow(t), b, Leaf(w), c);
    }
  }

  lemma LeafCapped(w: Key, c: nat)
    ensures Capped(Leaf(w), c + 1)
  {}

  lemma ShrinkCapped(t: Node, c: nat)
    requires LocalOk(t) && t.Inner() && Capped(t, c)
    ensures Capped(Shrink(t), c)
  {
    CountBounds(t);
    if t.Count() == 0 && !t.hasEnd {
    } else if t.N4? && |t.keys| == 1 && !t.hasEnd {
      assert Capped(t.ch[0], c);
      if t.ch[0].Inner() { PrefixCapped(t.ch[0], t.prefix + [t.keys[0]] + t.ch[0].prefix, c); }
    } else {
      var r := Shrink(t);
      ShrinkSpec(t);
      forall i | 0 <= i < |r.ch| ensures r.ch[i] == Empty || r.ch[i] in t.ch { ShrinkKids(t, i); }
      CappedLift(t, r, Empty, c, c);
    }
  }

  lemma ClearCapped(t: Node, b: byte, c: nat)
    requires LocalOk(t) && t.Inner() && Capped(t, c) && Child(t, b) != Empty
    ensures Capped(Shrink(ClearCh(t, b)), c)
  {
    ClearChSpec(t, b);
    var r := ClearCh(t, b);
    forall i | 0 <= i < |r.ch| ensures r.ch[i] == Empty || r.ch[i] in t.ch { ClearChKids(t, b, i); }
    CappedLift(t, r, Empty, c, c);
    ShrinkCapped(r, c);
  }

  lemma {:induction false} RemoveCapped(t: Node, k: Key, c: nat)
    requires Ok(t) && Capped(t, c)
    ensures Capped(Remove(t, k).0, c)
    decreases |k|
  {
    if t.Inner() {
      PrefixMatch(t.prefix, k);
      if !(t.prefix <= k) {
      } else if |t.prefix| == |k| {
        HeadLocal(t, []);
        ShrinkCapped(SetEnd(t, false), c);
      } else {
        var b, w := k[|t.prefix|], k[|t.prefix|..][1..];
        HasChildLive(t, b);
        if HasChild(t, b) {
          OkChild(t, b);
          RemoveUnfold(t, k);
          if Remove(Child(t, b), w).0 != Empty {
            CappedChild(t, b, c);
            RemoveCapped(Child(t, b), w, c);
            SetCapped(t, b, Remove(Child(t, b), w).0, c, c);
          } else {
            ClearCapped(t, b, c);
          }
        }
      }
    }
  }

  lemma {:induction false} CappedFits(t: Node, k: Key, c: nat)
    requires Capped(t, c) && c < U16 - 1
    ensures !Overflows(t, k)
    decreases |k|
  {
    if t.Inner() && t.prefix <= k && |t.prefix| < |k| {
      CappedChild(t, k[|t.prefix|], c);
      CappedFits(Child(t, k[|t.prefix|]), k[|t.prefix|..][1..], c);
    }
  }

  lemma RunMore(t: Tree, ops: seq<TreeOp>, op: TreeOp)
    ensures TreeRun(t, ops + [op]) == TreeStep(TreeRun(t, ops), op)
    ensures AddCount(ops + [op]) == AddCount(ops) + if op.Add? then 1 else 0
    ensures forall k :: k != op.key ==> (k in SetRun(ops + [op]) <==> k in SetRun(ops))
    ensures op.Add? ==> op.key in SetRun(ops + [op])
    ensures NoOverflowRun(t, ops + [op]) <==> NoOverflowRun(t, ops) && (op.Add? ==> !Overflows(TreeRun(t, ops).root, op.key))
  {
    hide TreeStep, Overflows;
    assert (ops + [op])[..|ops|] == ops;
  }

  /** A run with at most 65535 insertions overflows no counter. */
  lemma {:induction false} FewAddsFit(ops: seq<TreeOp>)
    requires AddCount(ops) < U16
    ensures NoOverflowRun(EmptyTree, ops) && Capped(TreeRun(EmptyTree, ops).root, AddCount(ops))
  {
    if ops != [] {
      var pre, op := ops[..|ops| - 1], ops[|ops| - 1];
      assert ops == pre + [op];
      hide *;
      RunMore(EmptyTree, pre, op);
      FewAddsFit(pre);
      RunOk(pre);
      StepCapped(TreeRun(EmptyTree, pre), op, AddCount(pre));
    }
  }

  lemma StepCapped(t: Tree, op: TreeOp, c: nat)
    requires Ok(t.root) && Capped(t.root, c) && c + (if op.Add? then 1 else 0) < U16
    ensures Capped(TreeStep(t, op).root, c + if op.Add? then 1 else 0)
    ensures op.Add? ==> !Overflows(t.root, op.key)
  {
    hide Ok, Capped, Insert, Remove, Overflows;
    if op.Add? {
      CappedFits(t.root, op.key, c);
      InsertCapped(t.root, op.key, c);
    } else {
      RemoveCapped(t.root, op.key, c);
    }
  }

  /** So any run of that size over keys without a 0xFF byte is exact. */
  lemma FewAddsExact(ops: seq<TreeOp>)
    requires AddCount(ops) < U16 && forall i :: 0 <= i < |ops| ==> NoFF(ops[i].key)
    ensures var t := TreeRun(EmptyTree, ops); KeySet(t.root) == SetRun(ops) && t.len == |SetRun(ops)|
  {
    FewAddsFit(ops);
    NoFFRun(ops);
    RunExact(ops);
  }

  // ── The run that overflows ───────────────────────────────────────────

  /** Insert `k` and remove it again, `n` times. */
  function Cycles(k: Key, n: nat): seq<TreeOp> {
    if n == 0 then [] else Cycles(k, n - 1) + [Add(k), Drop(k)]
  }

  lemma {:induction false} RunAdds(ks: seq<Key>)
    requires AllNew(ks)
    ensures TreeRun(EmptyTree, Adds(ks)) == Tree(InsertAll(ks), |ks|) && AddCount(Adds(ks)) == |ks|
    ensures forall i :: 0 <= i < |ks| ==> ks[i] in SetRun(Adds(ks))
  {
    hide *;
    if ks == [] {
      NothingRun();
    } else {
      var pre, k := ks[..|ks| - 1], ks[|ks| - 1];
      NewParts(ks);
      RunAdds(pre);
      RunMore(EmptyTree, Adds(pre), Add(k));
      forall i | 0 <= i < |ks| ensures ks[i] in SetRun(Adds(ks)) {
        if i < |pre| && ks[i] != k { assert pre[i] == ks[i]; }
      }
    }
  }

  lemma NothingRun()
    ensures Adds([]) == [] && TreeRun(EmptyTree, []) == Tree(InsertAll([]), 0) && AddCount([]) == 0
    ensures forall k :: Cycles(k, 0) == []
  {}

  lemma NewParts(ks: seq<Key>)
    requires ks != [] && AllNew(ks)
    ensures var pre, k := ks[..|ks| - 1], ks[|ks| - 1];
      && AllNew(pre) && Adds(ks) == Adds(pre) + [Add(k)]
      && forall n: nat :: TreeStep(Tree(InsertAll(pre), n), Add(k)) == Tree(InsertAll(ks), n + 1)
  {
    hide Insert;
  }

  /** A root without prefix and end flag, over `b` no child. */
  predicate Plain(t: Node, b: byte) {
    t.N256? && |t.ch| == 256 && t.prefix == [] && !t.hasEnd && t.ch[b] == Empty
  }

  function Counted(t: Node, n: nat): Node
    requires t.N256?
  {
    N256(t.prefix, t.hasEnd, n, t.ch)
  }

  /** One insertion and removal moves the counter, unless it stands at 65535:
      then the counter wraps around and the removal throws the tree away. */
  lemma OneCycle(t: Node, len: nat, b: byte)
    requires Plain(t, b) && 49 <= t.n < U16
    ensures var r := TreeStep(TreeStep(Tree(t, len), Add([b])), Drop([b]));
      r == Tree(if t.n == U16 - 1 then Empty else Counted(t, t.n + 1), len)
  {
    assert [b][0..] == [b] && [b][1..] == [];
    PrefixMatch([], [b]);
    var r := Insert(t, [b]).0;
    assert r == N256([], false, (t.n + 1) % U16, t.ch[b := Leaf([])]);
    assert Insert(t, [b]).1;
    assert Remove(Leaf([]), []) == (Empty, true);
    assert r.ch[b := Empty] == t.ch;
    var r1 := SetCh(r, b, Empty);
    assert r1 == N256([], false, (t.n + 1) % U16, t.ch);
    assert DelCh(r1, b) == r1;
    assert Remove(r, [b]) == (Shrink(r1), true);
  }

  lemma {:induction false} CyclesCount(ops: seq<TreeOp>, t: Node, len: nat, b: byte, n: nat)
    requires TreeRun(EmptyTree, ops) == Tree(t, len) && t.N256? && Plain(t, b) && 49 <= t.n && t.n + n < U16
    ensures TreeRun(EmptyTree, ops + Cycles([b], n)) == Tree(Counted(t, t.n + n), len)
    ensures AddCount(ops + Cycles([b], n)) == AddCount(ops) + n
    ensures forall k :: k != [b] ==> (k in SetRun(ops + Cycles([b], n)) <==> k in SetRun(ops))
  {
    hide *;
    if n == 0 {
      CountedPlain(t, b, t.n);
      NothingRun();
      assert ops + [] == ops;
    } else {
      CountedPlain(t, b, t.n + n - 1);
      CyclesCount(ops, t, len, b, n - 1);
      OneMoreCycle(ops, [b], n - 1);
      CycleStep(ops + Cycles([b], n - 1), Counted(t, t.n + n - 1), len, b);
    }
  }

  lemma CycleStep(pre: seq<TreeOp>, t: Node, len: nat, b: byte)
    requires TreeRun(EmptyTree, pre) == Tree(t, len) && Plain(t, b) && 49 <= t.n < U16 - 1
    ensures var ops := pre + [Add([b])] + [Drop([b])];
      && TreeRun(EmptyTree, ops) == Tree(Counted(t, t.n + 1), len) && AddCount(ops) == AddCount(pre) + 1
      && (forall k :: k != [b] ==> (k in SetRun(ops) <==> k in SetRun(pre)))
  {
    hide *;
    OneCycle(t, len, b);
    RunMore(EmptyTree, pre, Add([b]));
    RunMore(EmptyTree, pre + [Add([b])], Drop([b]));
  }

  lemma CountedPlain(t: Node, b: byte, n: nat)
    requires Plain(t, b)
    ensures var u := Counted(t, n); Plain(u, b) && u.N256? && u.n == n && Counted(t, t.n) == t && Counted(u, n + 1) == Counted(t, n + 1)
  {}

  /** Forty-nine keys, then one more key inserted and removed over and over. */
  function OverflowOps(n: nat): seq<TreeOp> {
    Adds(Singles(Range(0, 49))) + Cycles([100], n)
  }

  /** With the 65536th insertion of the run, and the removal after it, all
      forty-nine keys are gone, and `len` still says forty-nine. Before that the
      tree was right. */
  lemma OverflowRun()
    ensures var ops := OverflowOps(U16 - 50);
      && AddCount(ops) == U16 - 1 && TreeRun(EmptyTree, ops).len == 49
      && (forall b: byte :: b < 49 ==> Has(TreeRun(EmptyTree, ops).root, [b]))
    ensures var ops := OverflowOps(U16 - 49);
      && AddCount(ops) == U16 && TreeRun(EmptyTree, ops) == Tree(Empty, 49)
      && (forall b: byte :: b < 49 ==> [b] in SetRun(ops))
  {
    hide Cycles, TreeRun, AddCount, SetRun, Range, Singles, InsertAll, Adds, Has, Plain;
    FortyNine(Range(0, 49), 100);
    LastCycle(Adds(Singles(Range(0, 49))), InsertAll(Singles(Range(0, 49))), 100);
  }

  lemma FortyNine(l: Key, b: byte)
    requires l == Range(0, 49) && b == 100
    ensures var t := InsertAll(Singles(l));
      && TreeRun(EmptyTree, Adds(Singles(l))) == Tree(t, 49) && AddCount(Adds(Singles(l))) == 49
      && Plain(t, b) && t.n == 49
      && (forall x: byte :: x < 49 ==> Has(t, [x])) && (forall x: byte :: x < 49 ==> [x] in SetRun(Adds(Singles(l))))
  {
    assert NIL !in l && b !in l;
    SinglesNew(l);
    RunAdds(Singles(l));
    SinglesTree(l);
    var t := InsertAll(Singles(l));
    SingleByteTree(t, l);
    Bytes1Root(t, l);
    Bytes1Child(t, l, b);
    forall x: byte | x < 49 ensures Has(t, [x]) && [x] in SetRun(Adds(Singles(l))) {
      assert l[x] == x && Singles(l)[x] == [x];
    }
  }

  lemma LastCycle(pre: seq<TreeOp>, t: Node, b: byte)
    requires TreeRun(EmptyTree, pre) == Tree(t, 49) && AddCount(pre) == 49 && Plain(t, b) && t.n == 49 && b >= 49
    requires (forall x: byte :: x < 49 ==> Has(t, [x])) && forall x: byte :: x < 49 ==> [x] in SetRun(pre)
    ensures var ops := pre + Cycles([b], U16 - 50);
      && AddCount(ops) == U16 - 1 && TreeRun(EmptyTree, ops).len == 49
      && (forall x: byte :: x < 49 ==> Has(TreeRun(EmptyTree, ops).root, [x]))
    ensures var ops := pre + Cycles([b], U16 - 49);
      && AddCount(ops) == U16 && TreeRun(EmptyTree, ops) == Tree(Empty, 49)
      && (forall x: byte :: x < 49 ==> [x] in SetRun(ops))
  {
    CountedPlain(t, b, U16 - 1);
    CountedHas(t, U16 - 1);
    OneCycle(Counted(t, U16 - 1), 49, b);
    OneMoreCycle(pre, [b], U16 - 50);
    CyclesCount(pre, t, 49, b, U16 - 50);
    hide *;
    var ops := pre + Cycles([b], U16 - 50);
    RunMore(EmptyTree, ops, Add([b]));
    RunMore(EmptyTree, ops + [Add([b])], Drop([b]));
  }

  lemma OneMoreCycle(pre: seq<TreeOp>, k: Key, n: nat)
    ensures pre + Cycles(k, n + 1) == pre + Cycles(k, n) + [Add(k)] + [Drop(k)]
  {
    assert Cycles(k, n + 1) == Cycles(k, n) + [Add(k), Drop(k)];
  }

  lemma CountedHas(t: Node, n: nat)
    requires t.N256?
    ensures forall k :: Has(Counted(t, n), k) <==> Has(t, k)
  {
    forall k ensures Has(Counted(t, n), k) <==> Has(t, k) { assert forall b: byte :: Child(Counted(t, n), b) == Child(t, b); }
  }
}
