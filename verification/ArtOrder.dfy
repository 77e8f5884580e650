/** Enumeration: the keys of a tree in ascending byte order. */
module ArtOrder {
  import opened Bytes
  import opened ArtNode
  import opened ArtSet

  /** `p` in front of every key. */
  function Under(p: Key, ks: seq<Key>): (r: seq<Key>)
    ensures |r| == |ks|
  {
    seq(|ks|, i requires 0 <= i < |ks| => p + ks[i])
  }

  predicate Sorted(ks: seq<Key>) {
    forall i, j :: 0 <= i < j < |ks| ==> Lt(ks[i], ks[j])
  }

  lemma ChildSmaller(t: Node, b: byte)
    requires Child(t, b) != Empty
    ensures Child(t, b) < t
  {}

  /** Depth-first, end flag first, children by byte. */
  function Collect(t: Node): seq<Key>
    decreases t, 257
  {
    match t
    case Empty => []
    case Leaf(s) => [s]
    case _ => Under(t.prefix, (if t.hasEnd then [[]] else []) + KidsUpTo(t, 256))
  }

  /** Keys below the branch bytes under `hi`. */
  function KidsUpTo(t: Node, hi: nat): seq<Key>
    requires hi <= 256
    decreases t, hi
  {
    if hi == 0 then []
    else KidsUpTo(t, hi - 1) +
         if Child(t, hi - 1) == Empty then []
         else (ChildSmaller(t, hi - 1); Under([hi - 1], Collect(Child(t, hi - 1))))
  }

  // ── Sequences of keys ────────────────────────────────────────────────

  lemma UnderIn(p: Key, ks: seq<Key>, k: Key)
    ensures k in Under(p, ks) <==> p <= k && k[|p|..] in ks
  {
    if k in Under(p, ks) {
      var i :| 0 <= i < |ks| && p + ks[i] == k;
      assert k[|p|..] == ks[i];
    }
    if p <= k && k[|p|..] in ks {
      var i :| 0 <= i < |ks| && ks[i] == k[|p|..];
      assert Under(p, ks)[i] == k;
    }
  }

  lemma UnderSorted(p: Key, ks: seq<Key>)
    requires Sorted(ks)
    ensures Sorted(Under(p, ks))
  {
    forall i, j | 0 <= i < j < |ks| ensures Lt(p + ks[i], p + ks[j]) { LtPrefix(p, ks[i], ks[j]); }
  }

  lemma UnderUnder(p: Key, q: Key, ks: seq<Key>)
    ensures Under(p, Under(q, ks)) == Under(p + q, ks)
  {
    forall i | 0 <= i < |ks| ensures p + (q + ks[i]) == p + q + ks[i] {}
  }

  lemma UnderCat(p: Key, a: seq<Key>, b: seq<Key>)
    ensures Under(p, a + b) == Under(p, a) + Under(p, b)
  {}

  lemma SortedCat(a: seq<Key>, b: seq<Key>)
    requires Sorted(a) && Sorted(b)
    requires forall i, j :: 0 <= i < |a| && 0 <= j < |b| ==> Lt(a[i], b[j])
    ensures Sorted(a + b)
  {}

  /** A strictly ascending list has as many entries as members. */
  lemma {:induction false} SortedCount(ks: seq<Key>)
    requires Sorted(ks)
    ensures |set k | k in ks| == |ks|
  {
    if ks != [] {
      var n := |ks| - 1;
      SortedCount(ks[..n]);
      forall i | 0 <= i < n ensures ks[i] != ks[n] {
        assert Lt(ks[i], ks[n]);
        LtIrreflexive(ks[n]);
      }
      assert ks == ks[..n] + [ks[n]];
      assert (set k | k in ks) == (set k | k in ks[..n]) + {ks[n]};
    }
  }

  /** Two strictly ascending lists with the same members are equal. */
  lemma {:induction false} SortedUnique(a: seq<Key>, b: seq<Key>)
    requires Sorted(a) && Sorted(b)
    requires forall k :: k in a <==> k in b
    ensures a == b
  {
    assert |a| > 0 ==> a[0] in b;
    assert |b| > 0 ==> b[0] in a;
    if a != [] {
      var m, n := |a| - 1, |b| - 1;
      SortedLast(a, b);
      forall k ensures k in a[..m] <==> k in b[..n] {
        SortedInit(a, k);
        SortedInit(b, k);
      }
      SortedUnique(a[..m], b[..n]);
      assert a == a[..m] + [a[m]] && b == b[..n] + [b[n]];
    }
  }

  lemma SortedInit(a: seq<Key>, k: Key)
    requires Sorted(a) && a != []
    ensures k in a[..|a| - 1] <==> k in a && k != a[|a| - 1]
  {
    LtIrreflexive(k);
    assert a == a[..|a| - 1] + [a[|a| - 1]];
  }

  lemma SortedLast(a: seq<Key>, b: seq<Key>)
    requires Sorted(a) && Sorted(b) && a != [] && b != []
    requires forall k :: k in a <==> k in b
    ensures a[|a| - 1] == b[|b| - 1]
  {
    var x, y := a[|a| - 1], b[|b| - 1];
    assert x in a && y in b;
    assert x in b && y in a;
    if Lt(x, y) || Lt(y, x) {
      if Lt(x, y) { LtAsymmetric(x, y); } else { LtAsymmetric(y, x); }
    }
    LtTotal(x, y);
    SortedInit(a, y);
    SortedInit(b, x);
  }

  // ── Collect lists the set ────────────────────────────────────────────

  lemma {:induction false} CollectHas(t: Node, k: Key)
    ensures k in Collect(t) <==> Has(t, k)
    decreases |k|
  {
    match t {
      case Empty =>
      case Leaf(_) =>
      case _ =>
        var e: seq<Key> := if t.hasEnd then [[]] else [];
        UnderIn(t.prefix, e + KidsUpTo(t, 256), k);
        if t.prefix <= k {
          var r := k[|t.prefix|..];
          assert r in e <==> r == [] && t.hasEnd;
          assert r in e + KidsUpTo(t, 256) <==> r in e || r in KidsUpTo(t, 256);
          if r == [] {
            KidsNonEmpty(t, 256);
          } else {
            CollectHas(Child(t, r[0]), r[1..]);
            KidsHas(t, 256, r);
          }
        }
    }
  }

  lemma {:induction false} KidsNonEmpty(t: Node, hi: nat)
    requires hi <= 256
    ensures [] !in KidsUpTo(t, hi)
  {
    if hi != 0 {
      KidsNonEmpty(t, hi - 1);
      if Child(t, hi - 1) != Empty { UnderIn([hi - 1], Collect(Child(t, hi - 1)), []); }
    }
  }

  /** The keys over one more branch byte. */
  lemma KidsNow(t: Node, b: byte)
    ensures KidsUpTo(t, b + 1) == KidsUpTo(t, b) + if Child(t, b) == Empty then [] else Under([b], Collect(Child(t, b)))
    ensures KidsUpTo(t, 0) == [] && Collect(Empty) == []
  {
    hide Under;
  }

  lemma {:induction false} KidsHas(t: Node, hi: nat, r: Key)
    requires hi <= 256 && r != []
    ensures r in KidsUpTo(t, hi) <==> r[0] < hi && r[1..] in Collect(Child(t, r[0]))
  {
    hide *;
    if hi == 0 {
      KidsNow(t, 0);
    } else {
      KidsHas(t, hi - 1, r);
      KidsNow(t, hi - 1);
      UnderIn([hi - 1], Collect(Child(t, hi - 1)), r);
      assert [hi - 1] <= r <==> r[0] == hi - 1;
    }
  }

  /** The enumeration is strictly ascending. */
  lemma {:induction false} CollectSorted(t: Node)
    ensures Sorted(Collect(t))
    decreases t, 257
  {
    if t.Inner() {
      var e: seq<Key> := if t.hasEnd then [[]] else [];
      KidsSorted(t, 256);
      KidsNonEmpty(t, 256);
      var ks := KidsUpTo(t, 256);
      forall i, j | 0 <= i < |e| && 0 <= j < |ks| ensures Lt(e[i], ks[j]) { assert ks[j] in ks; }
      SortedCat(e, ks);
      UnderSorted(t.prefix, e + ks);
    }
  }

  lemma {:induction false} KidsSorted(t: Node, hi: nat)
    requires hi <= 256
    ensures Sorted(KidsUpTo(t, hi))
    decreases t, hi
  {
    hide *;
    NoneSorted();
    if hi == 0 {
      KidsNow(t, 0);
    } else {
      KidsSorted(t, hi - 1);
      KidsNow(t, hi - 1);
      var c := Child(t, hi - 1);
      var a, b := KidsUpTo(t, hi - 1), Under([hi - 1], Collect(c));
      if c == Empty {
        assert a + [] == a;
      } else {
        ChildSmaller(t, hi - 1);
        CollectSorted(c);
        UnderSorted([hi - 1], Collect(c));
        forall i, j | 0 <= i < |a| && 0 <= j < |b| ensures Lt(a[i], b[j]) { KidsBelow(t, hi - 1, i, Collect(c), j); }
        SortedCat(a, b);
      }
    }
  }

  lemma NoneSorted()
    ensures Sorted([])
  {}

  lemma KidsBelow(t: Node, hi: nat, i: nat, ks: seq<Key>, j: nat)
    requires hi < 256 && i < |KidsUpTo(t, hi)| && j < |ks|
    ensures Lt(KidsUpTo(t, hi)[i], Under([hi], ks)[j])
  {
    hide KidsUpTo, Collect;
    var k := KidsUpTo(t, hi)[i];
    KidsNonEmpty(t, hi);
    assert k in KidsUpTo(t, hi);
    KidsHas(t, hi, k);
  }

  // ── Ranges and prefixes ──────────────────────────────────────────────

  /** The entries that satisfy `pred`, in order. */
  function Filter(ks: seq<Key>, pred: Key -> bool): seq<Key> {
    if ks == [] then []
    else Filter(ks[..|ks| - 1], pred) + if pred(ks[|ks| - 1]) then [ks[|ks| - 1]] else []
  }

  lemma {:induction false} FilterSpec(ks: seq<Key>, pred: Key -> bool)
    requires Sorted(ks)
    ensures Sorted(Filter(ks, pred))
    ensures forall k :: k in Filter(ks, pred) <==> k in ks && pred(k)
  {
    if ks != [] {
      var n := |ks| - 1;
      FilterSpec(ks[..n], pred);
      var f := Filter(ks[..n], pred);
      assert ks == ks[..n] + [ks[n]];
      forall i | 0 <= i < |f| ensures Lt(f[i], ks[n]) {
        assert f[i] in f;
        assert f[i] in ks[..n];
      }
    }
  }

  /** Range and prefix scans return exactly the keys asked for, ascending. */
  lemma ScanExact(t: Node, pred: Key -> bool)
    ensures var r := Filter(Collect(t), pred);
      Sorted(r) && forall k :: k in r <==> Has(t, k) && pred(k)
  {
    CollectSorted(t);
    FilterSpec(Collect(t), pred);
    forall k ensures k in Filter(Collect(t), pred) <==> Has(t, k) && pred(k) { CollectHas(t, k); }
  }

  // ── The tree with its length ─────────────────────────────────────────

  datatype Tree = Tree(root: Node, len: nat)

  const EmptyTree := Tree(Empty, 0)

  function TreeInsert(t: Tree, k: Key): (Tree, bool) {
    var (r, added) := Insert(t.root, k);
    (Tree(r, if added then t.len + 1 else t.len), added)
  }

  function TreeRemove(t: Tree, k: Key): (Tree, bool) {
    var (r, removed) := Remove(t.root, k);
    (Tree(r, if removed && t.len > 0 then t.len - 1 else t.len), removed)
  }

  /** The finite key set of a tree. */
  ghost function KeySet(t: Node): (s: set<Key>)
    ensures forall k :: k in s <==> Has(t, k)
  {
    assert forall k :: k in Collect(t) <==> Has(t, k) by {
      forall k ensures k in Collect(t) <==> Has(t, k) { CollectHas(t, k); }
    }
    set k | k in Collect(t)
  }

  datatype TreeOp = Add(key: Key) | Drop(key: Key)

  function TreeStep(t: Tree, op: TreeOp): Tree {
    match op
    case Add(k) => TreeInsert(t, k).0
    case Drop(k) => TreeRemove(t, k).0
  }

  function TreeRun(t: Tree, ops: seq<TreeOp>): Tree {
    if ops == [] then t else TreeStep(TreeRun(t, ops[..|ops| - 1]), ops[|ops| - 1])
  }

  /** The set an ideal implementation would hold. */
  ghost function SetRun(ops: seq<TreeOp>): set<Key> {
    if ops == [] then {}
    else
      var s, op := SetRun(ops[..|ops| - 1]), ops[|ops| - 1];
      if op.Add? then s + {op.key} else s - {op.key}
  }

  /** No insertion of the run meets a full Node48 with keys under byte 0xFF. */
  ghost predicate NoLossRun(t: Tree, ops: seq<TreeOp>) {
    ops != [] ==>
      var pre, op := ops[..|ops| - 1], ops[|ops| - 1];
      NoLossRun(t, pre) && (op.Add? ==> !Loses(TreeRun(t, pre).root, op.key))
  }

  /** No insertion of the run meets a Node256 whose counter is at its limit. */
  predicate NoOverflowRun(t: Tree, ops: seq<TreeOp>) {
    ops != [] ==>
      var pre, op := ops[..|ops| - 1], ops[|ops| - 1];
      NoOverflowRun(t, pre) && (op.Add? ==> !Overflows(TreeRun(t, pre).root, op.key))
  }

  /** How many insertions a run makes. */
  function AddCount(ops: seq<TreeOp>): nat {
    if ops == [] then 0 else AddCount(ops[..|ops| - 1]) + if ops[|ops| - 1].Add? then 1 else 0
  }
}
