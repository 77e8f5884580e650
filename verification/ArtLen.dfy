/** The length field over whole runs: it is never below the number of keys that
    the nodes hold, whatever growth drops, holes hide and slots share, so a
    removal never takes one away from zero. */
module ArtLen {
  import opened Bytes
  import opened ArtNode
  import opened ArtOps
  import opened ArtOrder
  import opened ArtSer

  // ── Sums ─────────────────────────────────────────────────────────────

  function Sum(s: seq<nat>): nat {
    if s == [] then 0 else Sum(s[..|s| - 1]) + s[|s| - 1]
  }

  lemma {:induction false} SumCat(a: seq<nat>, b: seq<nat>)
    ensures Sum(a + b) == Sum(a) + Sum(b)
  {
    if b == [] {
      assert a + b == a;
    } else {
      assert (a + b)[..|a + b| - 1] == a + b[..|b| - 1];
      SumCat(a, b[..|b| - 1]);
    }
  }

  lemma SumPut(s: seq<nat>, i: nat, v: nat)
    requires i < |s|
    ensures Sum(s[i := v]) + s[i] == Sum(s) + v
  {
    var a, b := s[..i], s[i + 1..];
    assert s == a + ([s[i]] + b) && s[i := v] == a + ([v] + b);
    SumCat([s[i]], b);
    SumCat([v], b);
    SumCat(a, [s[i]] + b);
    SumCat(a, [v] + b);
  }

  /** `a` picks from `b`, by `f`, each entry at most once; -1 picks nothing. */
  ghost predicate Picks(a: seq<nat>, b: seq<nat>, f: seq<int>) {
    && |f| == |a|
    && (forall i :: 0 <= i < |a| ==> if f[i] == -1 then a[i] == 0 else 0 <= f[i] < |b| && a[i] <= b[f[i]])
    && (forall i, j :: 0 <= i < j < |a| && f[i] == f[j] ==> f[i] == -1)
  }

  lemma {:induction false} SumPicked(a: seq<nat>, b: seq<nat>, f: seq<int>)
    requires Picks(a, b, f)
    ensures Sum(a) <= Sum(b)
  {
    if a != [] {
      var n := |a| - 1;
      if f[n] == -1 {
        SumPicked(a[..n], b, f[..n]);
      } else {
        SumPicked(a[..n], b[f[n] := 0], f[..n]);
        SumPut(b, f[n], 0);
      }
    }
  }

  // ── Keys held ────────────────────────────────────────────────────────

  /** Leaves and end flags in the nodes, reachable by a byte or not. */
  function Held(t: Node): nat
    decreases t
  {
    match t
    case Empty => 0
    case Leaf(_) => 1
    case _ => (if t.hasEnd then 1 else 0) + Sum(seq(|t.ch|, i requires 0 <= i < |t.ch| => Held(t.ch[i])))
  }

  function Loads(ch: seq<Node>): (s: seq<nat>)
    ensures |s| == |ch| && forall i :: 0 <= i < |ch| ==> s[i] == Held(ch[i])
  {
    seq(|ch|, i requires 0 <= i < |ch| => Held(ch[i]))
  }

  lemma HeldIs(t: Node)
    requires t.Inner()
    ensures Held(t) == (if t.hasEnd then 1 else 0) + Sum(Loads(t.ch))
  {
    assert seq(|t.ch|, i requires 0 <= i < |t.ch| => Held(t.ch[i])) == Loads(t.ch);
  }

  /** Children that come from different cells hold no more than all of them. */
  lemma KidsLess(r: seq<Node>, ch: seq<Node>, f: seq<int>)
    requires |f| == |r|
    requires forall i :: 0 <= i < |r| ==> if f[i] == -1 then r[i] == Empty else 0 <= f[i] < |ch| && r[i] == ch[f[i]]
    requires forall i, j :: 0 <= i < j < |r| && f[i] == f[j] ==> f[i] == -1
    ensures Sum(Loads(r)) <= Sum(Loads(ch))
  {
    SumPicked(Loads(r), Loads(ch), f);
  }

  // ── One node rewritten ───────────────────────────────────────────────

  lemma PutHeld(ch: seq<Node>, i: nat, c: Node)
    ensures i < |ch| ==> Sum(Loads(Put(ch, i, c))) + Held(ch[i]) == Sum(Loads(ch)) + Held(c)
    ensures Sum(Loads(Put(ch, i, c))) <= Sum(Loads(ch)) + Held(c)
  {
    hide Held, Sum;
    if i < |ch| {
      assert Loads(Put(ch, i, c)) == Loads(ch)[i := Held(c)];
      SumPut(Loads(ch), i, Held(c));
    }
  }

  lemma OneLoad(n: nat)
    ensures Sum([n]) == n
  {
    assert [n][..0] == [];
  }

  lemma InsertAtHeld(ch: seq<Node>, i: nat, c: Node)
    ensures Sum(Loads(InsertAt(ch, i, c))) <= Sum(Loads(ch)) + Held(c)
  {
    hide Held, Sum;
    OneLoad(Held(c));
    if i <= |ch| {
      var a, b := Loads(ch)[..i], Loads(ch)[i..];
      assert Loads(ch) == a + b && Loads(InsertAt(ch, i, c)) == a + ([Held(c)] + b);
      SumCat(a, b);
      SumCat(a, [Held(c)] + b);
      SumCat([Held(c)], b);
    }
  }

  lemma RemoveAtHeld(ch: seq<Node>, i: nat)
    ensures Sum(Loads(RemoveAt(ch, i))) <= Sum(Loads(ch))
  {
    var r := RemoveAt(ch, i);
    KidsLess(r, ch, seq(|r|, j => if j < i then j else if i < |ch| then j + 1 else j));
  }

  lemma AddHeld(t: Node, b: byte, c: Node)
    requires t.Inner()
    ensures AddCh(t, b, c).Inner() && Held(AddCh(t, b, c)) <= Held(t) + Held(c)
  {
    hide Held, Loads, Sum, Put, InsertAt, Below, FirstEmpty;
    HeldIs(t);
    HeldIs(AddCh(t, b, c));
    if t.N4? || t.N16? {
      InsertAtHeld(t.ch, Below(t.keys, b), c);
    } else if t.N48? {
      PutHeld(t.ch, FirstEmpty(t.ch), c);
    } else {
      PutHeld(t.ch, b, c);
    }
  }

  /** Writing a child takes away what the old one holds. */
  lemma SetHeld(t: Node, b: byte, c: Node)
    requires t.Inner()
    ensures SetCh(t, b, c).Inner() && Held(SetCh(t, b, c)) + Held(Child(t, b)) <= Held(t) + Held(c)
  {
    NothingHeld();
    hide Held, Loads, Sum, Put, Find;
    HeldIs(t);
    HeldIs(SetCh(t, b, c));
    if t.N4? || t.N16? {
      PutHeld(t.ch, Find(t.keys, b), c);
    } else if t.N48? {
      if b < |t.idx| { PutHeld(t.ch, t.idx[b], c); }
    } else {
      PutHeld(t.ch, b, c);
    }
  }

  lemma NothingHeld()
    ensures Held(Empty) == 0
  {}

  lemma DelHeld(t: Node, b: byte)
    requires t.Inner()
    ensures DelCh(t, b).Inner() && Held(DelCh(t, b)) <= Held(t)
  {
    NothingHeld();
    hide Held, Loads, Sum, Put, RemoveAt, Find;
    HeldIs(t);
    HeldIs(DelCh(t, b));
    if t.N4? || t.N16? {
      RemoveAtHeld(t.ch, Find(t.keys, b));
    } else if t.N48? {
      if b < |t.idx| { PutHeld(t.ch, t.idx[b], Empty); }
    } else if b < |t.ch| {
      PutIs(t.ch, b, Empty);
      PutHeld(t.ch, b, Empty);
    }
  }

  lemma PutIs(ch: seq<Node>, i: nat, c: Node)
    requires i < |ch|
    ensures Put(ch, i, c) == ch[i := c]
  {}

  lemma HeadHeld(t: Node, p: Key, e: bool)
    requires t.Inner()
    ensures SetPrefix(t, p).Inner() && Held(SetPrefix(t, p)) == Held(t)
    ensures SetEnd(t, e).Inner() && Held(SetEnd(t, e)) + (if t.hasEnd then 1 else 0) == Held(t) + if e then 1 else 0
  {
    HeldIs(t);
    HeldIs(SetPrefix(t, p));
    HeldIs(SetEnd(t, e));
    hide Held, Loads, Sum;
  }

  lemma PadHeld(ch: seq<Node>, w: nat)
    ensures Sum(Loads(Pad(ch, w))) <= Sum(Loads(ch))
  {
    KidsLess(Pad(ch, w), ch, seq(w, i => if i < |ch| then i else -1));
  }

  /** The slot that byte `b` takes its child from, if it may take it. */
  function SlotFor(t: Node, b: byte, may: bool): int
    requires t.N48? && (may ==> b < |t.idx|)
  {
    if may && t.idx[b] < |t.ch| then t.idx[b] else -1
  }

  lemma WidenCell(t: Node, b: byte)
    requires t.N48?
    ensures var s := SlotFor(t, b, b != NIL && LastOwner(t.idx, b));
      if s == -1 then Widen48(t).ch[b] == Empty else 0 <= s < |t.ch| && Widen48(t).ch[b] == t.ch[s]
  {}

  lemma TwoOwners(t: Node, b: byte, c: byte)
    requires t.N48? && b < c
    requires SlotFor(t, b, b != NIL && LastOwner(t.idx, b)) == SlotFor(t, c, c != NIL && LastOwner(t.idx, c))
    ensures SlotFor(t, b, b != NIL && LastOwner(t.idx, b)) == -1
  {}

  /** Each slot goes to its last owner only. */
  lemma WidenHeld(t: Node)
    requires t.N48?
    ensures Held(Widen48(t)) <= Held(t)
  {
    var r := Widen48(t);
    HeldIs(t);
    HeldIs(r);
    hide Held, Loads, Sum, Widen48, SlotFor, LastOwner;
    var f: seq<int> := seq(256, b requires 0 <= b < 256 => SlotFor(t, b, b != NIL && LastOwner(t.idx, b)));
    forall b: byte ensures if f[b] == -1 then r.ch[b] == Empty else 0 <= f[b] < |t.ch| && r.ch[b] == t.ch[f[b]] {
      WidenCell(t, b);
    }
    forall b: byte, c: byte | b < c && f[b] == f[c] ensures f[b] == -1 { TwoOwners(t, b, c); }
    KidsLess(r.ch, t.ch, f);
  }

  /** Each slot is taken once. */
  lemma NarrowHeld(t: Node)
    requires t.N48?
    ensures Held(Narrow48(t)) <= Held(t)
  {
    var r, l := Narrow48(t), Refs(t.idx);
    HeldIs(t);
    HeldIs(r);
    RefsIncrease(t.idx, 256);
    hide Held, Loads, Sum, Refs, RefsUpTo;
    var f: seq<int> := seq(t.n, i requires 0 <= i < t.n =>
      if i < |l| then SlotFor(t, l[i], FirstOwner(t.idx, l[i])) else -1);
    KidsLess(r.ch, t.ch, f);
  }

  lemma {:induction false} RefsIncrease(idx: seq<byte>, hi: nat)
    requires hi <= 256
    ensures Ascending(RefsUpTo(idx, hi)) && forall b :: b in RefsUpTo(idx, hi) ==> b < hi
  {
    if hi != 0 {
      RefsIncrease(idx, hi - 1);
      var l := RefsUpTo(idx, hi - 1);
      assert forall i :: 0 <= i < |l| ==> l[i] in l;
    }
  }

  lemma GrowHeld(t: Node)
    requires t.Inner()
    ensures Grow(t).Inner() && Held(Grow(t)) <= Held(t)
  {
    HeldIs(t);
    HeldIs(Grow(t));
    if t.N48? { WidenHeld(t); }
    hide Held, Loads, Sum, Pad, SlotIndex, Widen48;
    if t.N16? { PadHeld(t.ch, 48); }
  }

  lemma PrependHeld(p: Key, b: byte, c: Node)
    ensures Held(Prepend(p, b, c)) == Held(c)
  {
    if c.Inner() { HeadHeld(c, p + [b] + c.prefix, false); }
  }

  lemma OneHeld(ch: seq<Node>)
    requires |ch| == 1
    ensures Sum(Loads(ch)) == Held(ch[0])
  {
    assert Loads(ch) == [Held(ch[0])];
    OneLoad(Held(ch[0]));
  }

  lemma ShrinkHeld(t: Node)
    requires t.Inner()
    ensures Held(Shrink(t)) <= Held(t)
  {
    var r := Shrink(t);
    NothingHeld();
    HeldIs(t);
    if r.Inner() { HeldIs(r); }
    if t.N48? { NarrowHeld(t); }
    if t.N4? && |t.keys| == 1 == |t.ch| { PrependHeld(t.prefix, t.keys[0], t.ch[0]); OneHeld(t.ch); }
    if t.N256? { KidsHeld(t); PadHeld(Kids(t, Live(t)), 48); }
    hide Held, Loads, Sum, Pad, SlotIndex, Narrow48, Prepend, Live, Kids;
  }

  lemma KidsHeld(t: Node)
    requires t.N256?
    ensures Sum(Loads(Kids(t, Live(t)))) <= Sum(Loads(t.ch))
  {
    var l := Live(t);
    LiveMember(t, 256);
    hide Live, LiveUpTo, Loads, Sum;
    var f: seq<int> := l;
    assert forall i :: 0 <= i < |l| ==> l[i] in l;
    KidsLess(Kids(t, l), t.ch, f);
  }

  // ── Insertion, removal, storage ──────────────────────────────────────

  lemma SuffixHeld(t: Node, k: Key, m: nat)
    requires t.Inner()
    ensures AddSuffix(t, k, m).Inner() && Held(AddSuffix(t, k, m)) <= Held(t) + 1
  {
    hide Held, AddCh, SetEnd;
    if m < |k| {
      LeafHeld(k[m + 1..]);
      AddHeld(t, k[m], Leaf(k[m + 1..]));
    } else {
      HeadHeld(t, [], true);
    }
  }

  lemma LeafHeld(s: Key)
    ensures Held(Leaf(s)) == 1
  {}

  lemma BareHeld(p: Key)
    ensures Held(N4(p, false, [], [])) == 0
  {}

  lemma SplitLeafHeld(s: Key, k: Key)
    ensures Held(SplitLeaf(s, k)) <= 2
  {
    var m := CommonPrefix(s, k);
    BareHeld(s[..m]);
    hide Held, AddSuffix;
    SuffixHeld(N4(s[..m], false, [], []), s, m);
    SuffixHeld(AddSuffix(N4(s[..m], false, [], []), s, m), k, m);
  }

  lemma SplitPrefixHeld(t: Node, k: Key, m: nat)
    requires t.Inner() && m < |t.prefix|
    ensures Held(SplitPrefix(t, k, m)) <= Held(t) + 1
  {
    var n0, x := N4(t.prefix[..m], false, [], []), SetPrefix(t, t.prefix[m + 1..]);
    BareHeld(t.prefix[..m]);
    HeadHeld(t, t.prefix[m + 1..], false);
    hide Held, AddSuffix, AddCh, SetPrefix;
    AddHeld(n0, t.prefix[m], x);
    SuffixHeld(AddCh(n0, t.prefix[m], x), k, m);
  }

  /** An insertion adds at most one key, and none unless it says so: on every
      tree, in order or not. */
  lemma {:induction false} InsertHeld(t: Node, k: Key)
    ensures Held(Insert(t, k).0) <= Held(t) + if Insert(t, k).1 then 1 else 0
    decreases |k|
  {
    if t.Leaf? {
      LeafHeld(t.sfx);
      if t.sfx != k { SplitLeafHeld(t.sfx, k); }
    } else if t.Inner() {
      var m := CommonPrefix(t.prefix, k);
      if m == |t.prefix| && m < |k| {
        var b, w := k[m], k[m..][1..];
        if HasChild(t, b) { InsertHeld(Child(t, b), w); }
        hide Held, SetCh, AddCh, Grow, Child, HasChild;
        LeafHeld(w);
        SetHeld(t, b, Insert(Child(t, b), w).0);
        GrowHeld(t);
        AddHeld(Grow(t), b, Leaf(w));
      } else {
        hide Held, SplitPrefix, SetEnd;
        if m < |t.prefix| { SplitPrefixHeld(t, k, m); }
        HeadHeld(t, [], true);
      }
    }
  }

  /** A removal that says so takes at least one key away, and no removal adds
      one: on every tree. */
  lemma {:induction false} RemoveHeld(t: Node, k: Key)
    ensures Held(Remove(t, k).0) + (if Remove(t, k).1 then 1 else 0) <= Held(t)
    decreases |k|
  {
    if t.Leaf? {
      LeafHeld(t.sfx);
    } else if t.Inner() {
      var m := CommonPrefix(t.prefix, k);
      if m == |t.prefix| && m < |k| {
        var b, w := k[m], k[m..][1..];
        if HasChild(t, b) {
          RemoveHeld(Child(t, b), w);
          var t1 := SetCh(t, b, Remove(Child(t, b), w).0);
          hide Held, SetCh, DelCh, Shrink, Child, HasChild;
          SetHeld(t, b, Remove(Child(t, b), w).0);
          DelHeld(t1, b);
          ShrinkHeld(DelCh(t1, b));
        }
      } else if m == |t.prefix| && t.hasEnd {
        hide Held, Shrink, SetEnd;
        HeadHeld(t, [], false);
        ShrinkHeld(SetEnd(t, false));
      }
    }
  }

  /** Nor does writing and reading back. */
  lemma {:induction false} ReloadHeld(t: Node)
    ensures Held(Reload(t)) <= Held(t)
    decreases t
  {
    if t.Inner() {
      forall i | 0 <= i < |t.ch| ensures Held(Reload(t.ch[i])) <= Held(t.ch[i]) { ReloadHeld(t.ch[i]); }
      var r := Reload(t);
      NothingHeld();
      HeldIs(t);
      HeldIs(r);
      hide Held, Sum;
      SumPicked(Loads(r.ch), Loads(t.ch), seq(|t.ch|, i => i));
    }
  }

  /** `len` covers the keys that are held. */
  predicate Covered(t: Tree) { Held(t.root) <= t.len }

  /** On every tree whose length covers it, `len` goes up by one for an insertion
      reported as new and down by one for a removal reported as done, never from
      zero, and it still covers the tree, stored or not. */
  lemma StepCovered(t: Tree, k: Key)
    requires Covered(t)
    ensures Covered(TreeInsert(t, k).0) && Covered(TreeRemove(t, k).0) && Covered(Tree(Reload(t.root), t.len))
    ensures TreeRemove(t, k).1 ==> t.len > 0 && TreeRemove(t, k).0.len == t.len - 1
    ensures TreeInsert(t, k).0.len == t.len + if TreeInsert(t, k).1 then 1 else 0
  {
    InsertHeld(t.root, k);
    RemoveHeld(t.root, k);
    ReloadHeld(t.root);
    hide Held, Insert, Remove, Reload;
  }

  /** Over any run in memory, growth losses and counter overflows included, the
      length covers the tree. */
  lemma {:induction false} RunCovers(ops: seq<TreeOp>)
    ensures Covered(TreeRun(EmptyTree, ops))
  {
    if ops != [] {
      var pre, op := ops[..|ops| - 1], ops[|ops| - 1];
      RunCovers(pre);
      hide Covered, Insert, Remove, Reload;
      StepCovered(TreeRun(EmptyTree, pre), op.key);
    }
  }
}
