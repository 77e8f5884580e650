/** Whole runs of the in-memory tree: the key count, independence of insertion
    order, and the inputs on which the promises fail. */
module ArtRun {
  import opened Bytes
  import opened ArtNode
  import opened ArtOps
  import opened ArtSet
  import opened ArtOrder
  import opened ArtShape

  // ── A Node256 in memory never shrinks ────────────────────────────────

  /** Every Node256 stands above the shrinking threshold. */
  ghost predicate Tall(t: Node)
    decreases t
  {
    (t.N256? ==> t.n >= 49) && (t.Inner() ==> forall i :: 0 <= i < |t.ch| ==> Tall(t.ch[i]))
  }

  lemma TallChild(t: Node, b: byte)
    requires Tall(t)
    ensures Tall(Child(t, b))
  {
    if t.N48? && b < |t.idx| && t.idx[b] < |t.ch| { assert Tall(t.ch[t.idx[b]]); }
  }

  lemma TallLift(t: Node, r: Node, c: Node)
    requires t.Inner() && (forall i :: 0 <= i < |t.ch| ==> Tall(t.ch[i])) && Tall(c) && (r.N256? ==> r.n >= 49)
    requires r.Inner() ==> forall i :: 0 <= i < |r.ch| ==> r.ch[i] == c || r.ch[i] == Empty || r.ch[i] in t.ch
    ensures Tall(r)
  {
    if r.Inner() {
      forall i | 0 <= i < |r.ch| ensures Tall(r.ch[i]) {
        if r.ch[i] in t.ch { var j :| 0 <= j < |t.ch| && t.ch[j] == r.ch[i]; }
      }
    }
  }

  lemma AddChTall(t: Node, b: byte, c: Node)
    requires Tall(t) && t.Inner() && Tall(c) && (t.N256? ==> t.n < U16 - 1)
    ensures Tall(AddCh(t, b, c))
  {
    var r := AddCh(t, b, c);
    if r.Inner() {
      forall i | 0 <= i < |r.ch| ensures r.ch[i] == c || r.ch[i] in t.ch { AddChKids(t, b, c, i); }
    }
    TallLift(t, r, c);
  }

  lemma AddSuffixTall(t: Node, k: Key, m: nat)
    requires Tall(t) && t.Inner() && !t.N256?
    ensures Tall(AddSuffix(t, k, m))
  {
    if m < |k| { AddChTall(t, k[m], Leaf(k[m + 1..])); }
  }

  lemma SplitTall(t: Node, k: Key, m: nat)
    requires Tall(t) && t.Inner() && m < |t.prefix|
    ensures Tall(SplitPrefix(t, k, m))
  {
    var n0 := N4(t.prefix[..m], false, [], []);
    AddChTall(n0, t.prefix[m], SetPrefix(t, t.prefix[m + 1..]));
    AddSuffixTall(AddCh(n0, t.prefix[m], SetPrefix(t, t.prefix[m + 1..])), k, m);
  }

  lemma GrowAddTall(t: Node, b: byte, w: Key)
    requires Ok(t) && Tall(t) && t.Inner() && Child(t, b) == Empty && !Brimful(t)
    ensures Tall(AddCh(Grow(t), b, Leaf(w)))
  {
    var g, leaf := Grow(t), Leaf(w);
    var r := AddCh(g, b, leaf);
    GrowSpec(t);
    AddChSpec(g, b, leaf);
    forall i | 0 <= i < |r.ch| ensures r.ch[i] == leaf || r.ch[i] == Empty || r.ch[i] in t.ch {
      AddChKids(g, b, leaf, i);
      if r.ch[i] in g.ch {
        var j :| 0 <= j < |g.ch| && g.ch[j] == r.ch[i];
        GrowKids(t, j);
      }
    }
    TallLift(t, r, leaf);
  }

  lemma SetChTall(t: Node, b: byte, c: Node)
    requires LocalOk(t) && Tall(t) && t.Inner() && Child(t, b) != Empty && c != Empty && Tall(c)
    ensures Tall(SetCh(t, b, c))
  {
    SetChSpec(t, b, c);
    var r := SetCh(t, b, c);
    forall i | 0 <= i < |r.ch| ensures r.ch[i] == c || r.ch[i] in t.ch { SetChKids(t, b, c, i); }
    TallLift(t, r, c);
  }

  lemma {:induction false} InsertTall(t: Node, k: Key)
    requires Ok(t) && Tall(t) && !Overflows(t, k)
    ensures Tall(Insert(t, k).0)
    decreases |k|
  {
    match t {
      case Empty =>
      case Leaf(s) =>
        var c := CommonPrefix(s, k);
        AddSuffixTall(N4(s[..c], false, [], []), s, c);
        AddSuffixTall(AddSuffix(N4(s[..c], false, [], []), s, c), k, c);
      case _ =>
        PrefixMatch(t.prefix, k);
        var m := CommonPrefix(t.prefix, k);
        if m < |t.prefix| {
          SplitTall(t, k, m);
        } else if m < |k| {
          var b, w := k[m], k[m..][1..];
          HasChildLive(t, b);
          if HasChild(t, b) {
            OkChild(t, b);
            TallChild(t, b);
            InsertTall(Child(t, b), w);
            InsertNonEmpty(Child(t, b), w);
            SetChTall(t, b, Insert(Child(t, b), w).0);
          } else {
            GrowAddTall(t, b, w);
          }
        }
    }
  }

  lemma ShrinkTall(t: Node)
    requires LocalOk(t) && Tall(t) && t.Inner()
    ensures Tall(Shrink(t))
  {
    CountBounds(t);
    if t.Count() == 0 && !t.hasEnd {
    } else if t.N4? && |t.keys| == 1 && !t.hasEnd {
      assert Tall(t.ch[0]);
    } else {
      var r := Shrink(t);
      ShrinkSpec(t);
      forall i | 0 <= i < |r.ch| ensures r.ch[i] == Empty || r.ch[i] in t.ch { ShrinkKids(t, i); }
      TallLift(t, r, Empty);
    }
  }

  lemma ClearChTall(t: Node, b: byte)
    requires LocalOk(t) && Tall(t) && t.Inner() && Child(t, b) != Empty
    ensures Tall(Shrink(ClearCh(t, b)))
  {
    ClearChSpec(t, b);
    var r := ClearCh(t, b);
    forall i | 0 <= i < |r.ch| ensures r.ch[i] == Empty || r.ch[i] in t.ch { ClearChKids(t, b, i); }
    TallLift(t, r, Empty);
    ShrinkTall(r);
  }

  /** Removal in memory never passes on a wrong counter. */
  lemma {:induction false} RemoveTall(t: Node, k: Key)
    requires Ok(t) && Tall(t)
    ensures Tall(Remove(t, k).0) && !Overcounts(t, k)
    decreases |k|
  {
    if t.Inner() {
      PrefixMatch(t.prefix, k);
      if !(t.prefix <= k) {
      } else if |t.prefix| == |k| {
        HeadLocal(t, []);
        ShrinkTall(SetEnd(t, false));
      } else {
        var b, w := k[|t.prefix|], k[|t.prefix|..][1..];
        HasChildLive(t, b);
        if HasChild(t, b) {
          OkChild(t, b);
          TallChild(t, b);
          RemoveTall(Child(t, b), w);
          RemoveUnfold(t, k);
          if Remove(Child(t, b), w).0 != Empty {
            SetChTall(t, b, Remove(Child(t, b), w).0);
          } else {
            ClearChTall(t, b);
          }
        }
      }
    }
  }

  // ── Runs ─────────────────────────────────────────────────────────────

  /** Any run that overflows no counter leaves every node in order, keys lost
      or not. */
  lemma {:induction false} RunOk(ops: seq<TreeOp>)
    requires NoOverflowRun(EmptyTree, ops)
    ensures Ok(TreeRun(EmptyTree, ops).root) && Tall(TreeRun(EmptyTree, ops).root)
  {
    if ops != [] {
      var pre, op := ops[..|ops| - 1], ops[|ops| - 1];
      RunOk(pre);
      StepOk(TreeRun(EmptyTree, pre), op);
    }
  }

  lemma StepOk(t: Tree, op: TreeOp)
    requires Ok(t.root) && Tall(t.root) && (op.Add? ==> !Overflows(t.root, op.key))
    ensures Ok(TreeStep(t, op).root) && Tall(TreeStep(t, op).root)
  {
    if op.Add? {
      InsertOk(t.root, op.key);
      InsertTall(t.root, op.key);
    } else {
      RemoveTall(t.root, op.key);
      RemoveOk(t.root, op.key);
    }
  }

  /** After any run from the empty tree in which growth drops nothing and no
      counter overflows, the tree holds exactly what a set would, and `len` is
      its size. */
  lemma {:induction false} RunExact(ops: seq<TreeOp>)
    requires NoLossRun(EmptyTree, ops) && NoOverflowRun(EmptyTree, ops)
    ensures var t := TreeRun(EmptyTree, ops);
      && Ok(t.root) && Tall(t.root)
      && KeySet(t.root) == SetRun(ops) && t.len == |SetRun(ops)|
  {
    if ops != [] {
      var pre, op := ops[..|ops| - 1], ops[|ops| - 1];
      RunExact(pre);
      StepExact(TreeRun(EmptyTree, pre), op);
    } else {
      assert KeySet(Empty) == {};
    }
  }

  lemma StepExact(t: Tree, op: TreeOp)
    requires Ok(t.root) && Tall(t.root) && t.len == |KeySet(t.root)|
    requires op.Add? ==> !Loses(t.root, op.key) && !Overflows(t.root, op.key)
    ensures var r := TreeStep(t, op);
      && Ok(r.root) && Tall(r.root) && r.len == |KeySet(r.root)|
      && KeySet(r.root) == if op.Add? then KeySet(t.root) + {op.key} else KeySet(t.root) - {op.key}
  {
    if op.Add? { AddExact(t, op.key); } else { DropExact(t, op.key); }
  }

  lemma AddExact(t: Tree, k: Key)
    requires Ok(t.root) && Tall(t.root) && t.len == |KeySet(t.root)| && !Loses(t.root, k) && !Overflows(t.root, k)
    ensures var r := TreeInsert(t, k).0;
      Ok(r.root) && Tall(r.root) && KeySet(r.root) == KeySet(t.root) + {k} && r.len == |KeySet(r.root)|
  {
    var (r, added) := Insert(t.root, k);
    InsertOk(t.root, k);
    InsertTall(t.root, k);
    InsertAdded(t.root, k);
    InsertedKeys(t.root, r, k);
    if Has(t.root, k) { assert KeySet(t.root) + {k} == KeySet(t.root); }
  }

  lemma InsertedKeys(t: Node, r: Node, k: Key)
    requires Ok(t) && !Loses(t, k) && r == Insert(t, k).0
    ensures KeySet(r) == KeySet(t) + {k} && (k in KeySet(t) <==> Has(t, k))
  {
    hide *;
    forall j ensures j in KeySet(r) <==> j in KeySet(t) || j == k { InsertKeeps(t, k, j); }
  }

  lemma DropExact(t: Tree, k: Key)
    requires Ok(t.root) && Tall(t.root) && t.len == |KeySet(t.root)|
    ensures var r := TreeRemove(t, k).0;
      Ok(r.root) && Tall(r.root) && KeySet(r.root) == KeySet(t.root) - {k} && r.len == |KeySet(r.root)|
  {
    var r := TreeRemove(t, k).0;
    RemoveTall(t.root, k);
    RemoveOk(t.root, k);
    RemoveHas(t.root, k, k);
    forall j ensures j in KeySet(r.root) <==> j in KeySet(t.root) && j != k { RemoveHas(t.root, k, j); }
    assert KeySet(r.root) == KeySet(t.root) - {k};
  }

  /** Keys without a 0xFF byte (UTF-8 text, section 3 of RFC 3629) never meet
      the loss, in any run that overflows no counter. */
  lemma {:induction false} NoFFRun(ops: seq<TreeOp>)
    requires NoOverflowRun(EmptyTree, ops) && forall i :: 0 <= i < |ops| ==> NoFF(ops[i].key)
    ensures NoLossRun(EmptyTree, ops)
  {
    if ops != [] {
      var pre, op := ops[..|ops| - 1], ops[|ops| - 1];
      NoFFRun(pre);
      RunExact(pre);
      SetRunKeys(pre);
      NoFFNoLoss(TreeRun(EmptyTree, pre).root, op.key);
    }
  }

  lemma {:induction false} SetRunKeys(ops: seq<TreeOp>)
    requires forall i :: 0 <= i < |ops| ==> NoFF(ops[i].key)
    ensures forall k :: k in SetRun(ops) ==> NoFF(k)
  {
    if ops != [] { SetRunKeys(ops[..|ops| - 1]); }
  }

  // ── Insertion order ──────────────────────────────────────────────────

  function Adds(ks: seq<Key>): (ops: seq<TreeOp>)
    ensures |ops| == |ks|
  {
    seq(|ks|, i requires 0 <= i < |ks| => Add(ks[i]))
  }

  function InsertAll(ks: seq<Key>): Node {
    if ks == [] then Empty else Insert(InsertAll(ks[..|ks| - 1]), ks[|ks| - 1]).0
  }

  ghost predicate NoLossAll(ks: seq<Key>) {
    ks != [] ==> NoLossAll(ks[..|ks| - 1]) && !Loses(InsertAll(ks[..|ks| - 1]), ks[|ks| - 1])
  }

  lemma InsertAllStep(t: Node, r: Node, pre: seq<Key>, last: Key)
    requires Shape(t, true) && !Loses(t, last) && r == Insert(t, last).0
    requires forall k :: Has(t, k) <==> k in pre
    ensures Shape(r, true)
    ensures forall k :: Has(r, k) <==> k in pre + [last]
  {
    hide *;
    InsertShape(t, last, true);
    ShapeOk(t, true);
    forall k ensures Has(r, k) <==> k in pre + [last] { InsertKeeps(t, last, k); }
  }

  lemma {:induction false} InsertAllSpec(ks: seq<Key>)
    requires NoLossAll(ks)
    ensures Shape(InsertAll(ks), true)
    ensures forall k :: Has(InsertAll(ks), k) <==> k in ks
  {
    if ks != [] {
      var pre, last := ks[..|ks| - 1], ks[|ks| - 1];
      InsertAllSpec(pre);
      InsertAllStep(InsertAll(pre), InsertAll(ks), pre, last);
      assert ks == pre + [last];
    }
  }

  /** Two insertion orders of one key set give the same tree, up to the
      numbering of Node48 slots. */
  lemma OrderIndependent(ks: seq<Key>, ls: seq<Key>)
    requires NoLossAll(ks) && NoLossAll(ls)
    requires forall k :: k in ks <==> k in ls
    ensures Similar(InsertAll(ks), InsertAll(ls))
  {
    InsertAllSpec(ks);
    InsertAllSpec(ls);
    UniqueTree(InsertAll(ks), InsertAll(ls));
  }

  ghost predicate No48(t: Node)
    decreases t
  {
    !t.N48? && (t.Inner() ==> forall i :: 0 <= i < |t.ch| ==> No48(t.ch[i]))
  }

  /** Without a Node48 the two trees are the same value, hence the same bytes. */
  lemma {:induction false} SimilarEqual(t: Node, r: Node)
    requires Ok(t) && Ok(r) && Shape(t, true) && Shape(r, true) && Similar(t, r) && No48(t)
    ensures t == r
    decreases t, 1
  {
    if t.Inner() {
      forall b: byte ensures Child(t, b) == Child(r, b) { SimilarChild(t, r, b); }
      SameKids(t, r);
    }
  }

  lemma {:induction false} SimilarChild(t: Node, r: Node, b: byte)
    requires Ok(t) && Ok(r) && Shape(t, true) && Shape(r, true) && Similar(t, r) && No48(t) && t.Inner()
    ensures Child(t, b) == Child(r, b)
    decreases t, 0
  {
    SimilarParts(t, r, b);
    hide *;
    if Child(t, b) != Empty {
      OkChild(t, b);
      OkChild(r, b);
      ShapeChild(t, true, b);
      ShapeChild(r, true, b);
      ChildSmaller(t, b);
      No48Child(t, b);
      SimilarEqual(Child(t, b), Child(r, b));
    }
  }

  lemma SimilarParts(t: Node, r: Node, b: byte)
    requires Similar(t, r) && t.Inner()
    ensures r.Inner() && Similar(Child(t, b), Child(r, b)) && (Child(t, b) == Empty <==> Child(r, b) == Empty)
  {}

  lemma SameKids(t: Node, r: Node)
    requires Ok(t) && Ok(r) && Shape(t, true) && Shape(r, true) && Similar(t, r) && No48(t) && t.Inner()
    requires forall b: byte :: Child(t, b) == Child(r, b)
    ensures t == r
  {
    LiveSame(t, r, 256);
    if t.N256? {
      assert forall b: byte :: t.ch[b] == Child(t, b) && r.ch[b] == Child(r, b);
      assert t.ch == r.ch;
    } else {
      LiveKeys(t);
      LiveKeys(r);
      assert Kids(t, Live(t)) == Kids(r, Live(r));
    }
  }

  lemma No48Child(t: Node, b: byte)
    requires No48(t) && t.Inner()
    ensures No48(Child(t, b))
  {}

  // ── Trees of single-byte keys ────────────────────────────────────────

  function Singles(bs: Key): (ks: seq<Key>)
    ensures |ks| == |bs|
  {
    seq(|bs|, i requires 0 <= i < |bs| => [bs[i]])
  }

  /** The keys of `t` are exactly `[b]` for the bytes `b` of `l`. */
  ghost predicate Bytes1(t: Node, l: Key) { forall k :: Has(t, k) <==> |k| == 1 && k[0] in l }

  lemma SharedPrefix(p: Key, a: byte, b: byte)
    requires a != b && p <= [a] && p <= [b]
    ensures p == []
  {
    assert [a][..1] == [a] && [b][..1] == [b];
    assert [a] != [b];
  }

  /** With two such keys the root is an inner node without prefix. */
  lemma Bytes1Root(t: Node, l: Key)
    requires Shape(t, true) && Bytes1(t, l) && |l| >= 2 && l[0] != l[1]
    ensures t.Inner() && t.prefix == [] && !t.hasEnd
  {
    assert l[0] in l && l[1] in l;
    assert Has(t, [l[0]]) && Has(t, [l[1]]);
    if t.Inner() { SharedPrefix(t.prefix, l[0], l[1]); }
    assert !Has(t, []);
  }

  lemma Bytes1Child(t: Node, l: Key, b: byte)
    requires Shape(t, true) && Bytes1(t, l) && t.Inner() && t.prefix == []
    ensures Child(t, b) != Empty <==> b in l
    ensures b in l ==> Has(Child(t, b), [])
  {
    assert Has(t, [b]) <==> b in l;
    RootChildKey(t, b, []);
    if Child(t, b) != Empty {
      ShapeChild(t, true, b);
      ShapeHoldsKey(Child(t, b), true);
      var j :| Has(Child(t, b), j);
      RootChildKey(t, b, j);
      assert Has(t, [b] + j);
      assert |[b] + j| == 1;
    }
  }

  lemma RootChildKey(t: Node, b: byte, j: Key)
    requires t.Inner() && t.prefix == []
    ensures Has(t, [b] + j) <==> Has(Child(t, b), j)
  {
    Join([], b, j);
    assert [] + [b] + j == [b] + j;
    HasVia(t, b, [b] + j);
  }

  lemma {:induction false} DistinctBound(l: Key, bs: Key)
    requires Ascending(l) && forall b :: b in l ==> b in bs
    ensures |l| <= |bs|
  {
    if l != [] {
      var n := |l| - 1;
      assert l[n] in bs;
      var i :| 0 <= i < |bs| && bs[i] == l[n];
      var rest := bs[..i] + bs[i + 1..];
      forall b | b in l[..n] ensures b in rest {
        assert b in l && b != l[n];
        var j :| 0 <= j < |bs| && bs[j] == b;
        assert rest[if j < i then j else j - 1] == b;
      }
      DistinctBound(l[..n], rest);
    }
  }

  /** Single-byte insertions lose nothing, up to 48 or without the byte 0xFF. */
  lemma {:induction false} SinglesTree(bs: Key)
    requires |bs| <= 48 || NIL !in bs
    ensures NoLossAll(Singles(bs))
    ensures Shape(InsertAll(Singles(bs)), true) && Bytes1(InsertAll(Singles(bs)), bs)
  {
    if bs != [] {
      var n := |bs| - 1;
      assert bs == bs[..n] + [bs[n]];
      SinglesTree(bs[..n]);
      assert Singles(bs)[..n] == Singles(bs[..n]);
      SinglesStep(InsertAll(Singles(bs[..n])), bs[..n], bs[n]);
    }
    InsertAllSpec(Singles(bs));
    forall k ensures k in Singles(bs) <==> |k| == 1 && k[0] in bs { SinglesIn(bs, k); }
  }

  lemma SinglesIn(bs: Key, k: Key)
    ensures k in Singles(bs) <==> |k| == 1 && k[0] in bs
  {
    if |k| == 1 && k[0] in bs {
      var i :| 0 <= i < |bs| && bs[i] == k[0];
      assert Singles(bs)[i] == k;
    }
  }

  lemma SinglesStep(t: Node, bs: Key, b: byte)
    requires Shape(t, true) && Bytes1(t, bs) && (|bs| < 48 || NIL !in bs)
    ensures !Loses(t, [b])
  {
    if t.Inner() && t.prefix == [] {
      Bytes1Child(t, bs, NIL);
      LiveMember(t, 256);
      forall x: byte | x in Live(t) ensures x in bs { Bytes1Child(t, bs, x); }
      DistinctBound(Live(t), bs);
    }
  }

  /** The children of such a root, for the bytes in ascending order. */
  lemma SingleByteTree(t: Node, l: Key)
    requires Shape(t, true) && Bytes1(t, l) && Ascending(l) && |l| >= 2
    ensures Ok(t) && t.Inner() && t.prefix == [] && Live(t) == l && t.Count() == |l|
  {
    ShapeOk(t, true);
    Bytes1Root(t, l);
    forall b: byte ensures Child(t, b) != Empty <==> b in l { Bytes1Child(t, l, b); }
    LiveMember(t, 256);
    AscendingEqual(Live(t), l);
    CountBounds(t);
  }

  function Range(lo: byte, n: nat): (l: Key)
    requires lo + n <= 256
    ensures |l| == n && forall i :: 0 <= i < n ==> l[i] == lo + i
  {
    seq(n, i requires 0 <= i < n => lo + i)
  }

  lemma RangeIn(lo: byte, n: nat, b: byte)
    requires lo + n <= 256
    ensures b in Range(lo, n) <==> lo <= b < lo + n
  {
    if lo <= b < lo + n { assert Range(lo, n)[b - lo] == b; }
  }

  // ── A run that loses a key ───────────────────────────────────────────

  /** `[255]`, then `[0]` to `[46]`. */
  const LOSS_BYTES: Key := [255] + Range(0, 47)

  lemma FullTree(bs: Key, l: Key)
    requires |bs| == |l| == 48 && Ascending(l) && forall b: byte :: b in bs <==> b in l
    ensures var t := InsertAll(Singles(bs));
      NoLossAll(Singles(bs)) && Ok(t) && t.N48? && t.n == 48 && t.prefix == [] && Shape(t, true) && Bytes1(t, bs)
  {
    SinglesTree(bs);
    SameBytes1(InsertAll(Singles(bs)), bs, l);
    SingleByteTree(InsertAll(Singles(bs)), l);
  }

  lemma SameBytes1(t: Node, l: Key, m: Key)
    requires Bytes1(t, l) && forall b: byte :: b in l <==> b in m
    ensures Bytes1(t, m)
  {}

  /** Inserted one after the other, every key is reported as new. */
  predicate AllNew(ks: seq<Key>) {
    ks != [] ==> AllNew(ks[..|ks| - 1]) && Insert(InsertAll(ks[..|ks| - 1]), ks[|ks| - 1]).1
  }

  predicate DistinctBytes(bs: Key) { forall i, j :: 0 <= i < j < |bs| ==> bs[i] != bs[j] }

  lemma {:induction false} SinglesNew(bs: Key)
    requires DistinctBytes(bs) && (|bs| <= 49 || NIL !in bs)
    ensures AllNew(Singles(bs))
  {
    if bs != [] {
      var n := |bs| - 1;
      assert bs == bs[..n] + [bs[n]];
      SinglesNew(bs[..n]);
      assert Singles(bs)[..n] == Singles(bs[..n]);
      NextIsNew(bs[..n], bs[n]);
      hide Insert;
    }
  }

  lemma NextIsNew(bs: Key, b: byte)
    requires b !in bs && (|bs| <= 48 || NIL !in bs)
    ensures Insert(InsertAll(Singles(bs)), [b]).1
  {
    SinglesTree(bs);
    hide Insert, Shape, InsertAll;
    ShapeOk(InsertAll(Singles(bs)), true);
    InsertAdded(InsertAll(Singles(bs)), [b]);
  }

  /** A full root of single-byte keys with one under 0xFF: the next key takes
      its place. */
  lemma FullTreeLoses(bs: Key, l: Key, b: byte)
    requires |bs| == |l| == 48 && Ascending(l) && forall x: byte :: x in bs <==> x in l
    requires 255 in bs && b !in bs
    ensures Has(InsertAll(Singles(bs)), [255]) && !Has(InsertAll(Singles(bs + [b])), [255])
  {
    FullTree(bs, l);
    Bytes1Child(InsertAll(Singles(bs)), bs, b);
    SinglesLast(bs, b);
    FullRootDrops(InsertAll(Singles(bs)), b);
  }

  /** Forty-nine insertions, of `[255]`, `[0]` to `[46]` and `[47]`, every one
      reported as new: before the last the key `[255]` is there, and after it
      is gone. */
  lemma GrowthLosesKey()
    ensures |LOSS_BYTES| == 48 && AllNew(Singles(LOSS_BYTES + [47]))
    ensures Has(InsertAll(Singles(LOSS_BYTES)), [255]) && !Has(InsertAll(Singles(LOSS_BYTES + [47])), [255])
  {
    hide *;
    LossBytes();
    FullTreeLoses(LOSS_BYTES, Range(0, 47) + [255], 47);
    SinglesNew(LOSS_BYTES + [47]);
  }

  lemma LossBytes()
    ensures |LOSS_BYTES| == |Range(0, 47) + [255]| == 48 && |LOSS_BYTES + [47]| == 49
    ensures 255 in LOSS_BYTES && 47 !in LOSS_BYTES && DistinctBytes(LOSS_BYTES + [47]) && Ascending(Range(0, 47) + [255])
    ensures forall x: byte :: x in LOSS_BYTES <==> x in Range(0, 47) + [255]
  {
    assert LOSS_BYTES[0] == 255;
    RangeIn(0, 47, 47);
  }

  lemma FullRootDrops(t: Node, b: byte)
    requires Ok(t) && t.N48? && t.n == 48 && t.prefix == [] && Child(t, b) == Empty && b != 255
    ensures !Has(Insert(t, [b]).0, [255])
  {
    HasChildLive(t, b);
    PrefixMatch([], [b]);
    var g, leaf := Grow(t), Leaf([b][1..]);
    GrowSpec(t);
    AddChSpec(g, b, leaf);
    HasUpdate(t, g, NIL, Empty, [255]);
    HasUpdate(g, AddCh(g, b, leaf), b, leaf, [255]);
  }

  // ── Determinism fails in two ways ────────────────────────────────────

  /** Removing the only child of a node with an end flag does not give back the
      leaf: same keys, different trees. */
  lemma RemoveNotCanonical()
    ensures var t := Remove(Insert(Insert(Empty, [97]).0, [97, 98]).0, [97, 98]).0;
      && t == N4([97], true, [], [])
      && (forall k :: Has(t, k) <==> Has(InsertAll([[97]]), k))
      && t != InsertAll([[97]])
  {
    PrefixMatch([97], [97, 98]);
    var n0 := N4([97], true, [], []);
    assert [97][..1] == [97];
    OneChildOf(n0, 98);
    var t2 := Insert(Insert(Empty, [97]).0, [97, 98]).0;
    assert [97, 98][2..] == [];
    assert t2 == N4([97], true, [98], [Leaf([])]);
    PrefixMatch(t2.prefix, [97, 98]);
    assert [97, 98][1..] == [98] && [98][1..] == [];
    var t := Remove(t2, [97, 98]).0;
    assert InsertAll([[97]]) == Leaf([97]) by { assert [[97]][..0] == []; }
    forall k ensures Has(t, k) <==> Has(Leaf([97]), k) {
      if |k| > 1 { assert Child(t, k[1]) == Empty; }
      assert [97] <= k && k[1..] == [] <==> k == [97];
    }
  }

  lemma OneChildOf(n: Node, b: byte)
    requires n.N4? && n.keys == [] && n.ch == []
    ensures AddCh(n, b, Leaf([])) == N4(n.prefix, n.hasEnd, [b], [Leaf([])])
  {
    assert InsertAt<byte>([], 0, b) == [b] && InsertAt([], 0, Leaf([])) == [Leaf([])];
  }

  lemma FirstEmptyPad(ch: seq<Node>)
    requires NoEmpty(ch) && |ch| < 48
    ensures FirstEmpty(Pad(ch, 48)) == |ch|
  {
    var p := Pad(ch, 48);
    assert p[|ch|] == Empty;
    assert forall i :: 0 <= i < |ch| ==> p[i] != Empty;
  }

  /** Growing a full Node16 over single-byte keys: the newcomer takes slot 16. */
  lemma SeventeenthSlot(t: Node, b: byte)
    requires Ok(t) && t.N16? && |t.keys| == 16 && t.prefix == [] && Child(t, b) == Empty
    ensures var r := Insert(t, [b]).0; r.N48? && |r.idx| == 256 && r.idx[b] == 16
  {
    HasChildLive(t, b);
    PrefixMatch([], [b]);
    FirstEmptyPad(t.ch);
  }

  /** The tree of sixteen single-byte keys, and one more. */
  lemma SixteenAndOne(l: Key, b: byte)
    requires |l| == 16 && Ascending(l) && b !in l
    ensures var r := InsertAll(Singles(l + [b]));
      && r.N48? && Ok(r) && |r.idx| == 256 && r.idx[b] == 16
      && Bytes1(r, l + [b])
  {
    var t := InsertAll(Singles(l));
    SinglesTree(l);
    SingleByteTree(t, l);
    Bytes1Child(t, l, b);
    SeventeenthSlot(t, b);
    InsertOk(t, [b]);
    SinglesLast(l, b);
    SinglesTree(l + [b]);
  }

  lemma SinglesLast(l: Key, b: byte)
    ensures InsertAll(Singles(l + [b])) == Insert(InsertAll(Singles(l)), [b]).0
  {
    hide Insert;
    var all := Singles(l + [b]);
    assert all[..|l|] == Singles(l) && all[|l|] == [b];
  }

  /** Seventeen keys in two orders, `[0]` to `[16]` and `[1]` to `[16]`, `[0]`:
      the trees hold the same keys and differ. In each, the key inserted last
      owns slot 16. */
  lemma SlotsFollowOrder()
    ensures var l, m := Range(0, 16) + [16], Range(1, 16) + [0];
      && |l| == |m| == 17 && multiset(l) == multiset(m)
      && SameKeys(InsertAll(Singles(l)), InsertAll(Singles(m)))
      && InsertAll(Singles(l)) != InsertAll(Singles(m))
  {
    RangeIn(0, 16, 16);
    RangeIn(1, 16, 0);
    assert Range(0, 16) + [16] == [0] + Range(1, 16);
    forall b: byte ensures b in Range(0, 16) + [16] <==> b in Range(1, 16) + [0] {}
    TwoOrders(Range(0, 16), 16, Range(1, 16), 0);
  }

  lemma TwoOrders(l: Key, b: byte, m: Key, c: byte)
    requires |l| == |m| == 16 && Ascending(l) && Ascending(m) && b !in l && c !in m && b != c
    requires forall x: byte :: x in l + [b] <==> x in m + [c]
    ensures var t, r := InsertAll(Singles(l + [b])), InsertAll(Singles(m + [c]));
      SameKeys(t, r) && t != r
  {
    SixteenAndOne(l, b);
    SixteenAndOne(m, c);
    var t, r := InsertAll(Singles(l + [b])), InsertAll(Singles(m + [c]));
    SameBytes1(t, l + [b], m + [c]);
    SlotsDiffer(t, r, b, c);
  }

  lemma SlotsDiffer(t: Node, r: Node, b: byte, c: byte)
    requires t.N48? && r.N48? && Ok(t) && |t.idx| == |r.idx| == 256 && t.idx[b] == 16 && r.idx[c] == 16 && b != c
    ensures t != r
  {}
}
