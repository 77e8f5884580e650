/** The tree as its users hold it: enumeration and serialisation into shared
    buffers, and the class with root and length. */
module IndexTree {
  import opened Options
  import opened Bytes
  import opened ArtNode
  import opened ArtOps
  import opened ArtSet
  import opened ArtOrder
  import opened ArtWalk
  import opened ArtLen
  import opened ArtSer
  import opened ArtSound
  import opened ArtStore
  import opened ArtStoredRun
  import opened ArtHeap
  import opened ArtRead
  import opened ArtInPlace

  // ── Enumeration ──────────────────────────────────────────────────────

  class Collector {
    var path: Key
    var out: seq<Key>

    constructor ()
      ensures path == [] && out == []
    {
      path, out := [], [];
    }

    /** `collect_all`: the keys of the tree go out as the code walks, each
        behind the path; the path is as before. */
    method CollectAll(slot: Slot, ghost t: Node, ghost r: set<object>)
      requires Represents(slot, t, r) && Sturdy(t) && this !in r
      modifies this
      ensures path == old(path) && out == old(out) + Under(path, Walk(t))
      decreases t, 2
    {
      HoleIsEmpty(slot, t, r);
      match slot {
        case Hole =>
        case Tail(sfx) => out := out + [path + sfx];
        case Box(o) => CollectInner(o, t, r);
      }
    }

    method CollectInner(o: Block, ghost t: Node, ghost r: set<object>)
      requires Represents(Box(o), t, r) && Sturdy(t) && this !in r
      modifies this
      ensures path == old(path) && out == old(out) + Under(path, Walk(t))
      decreases t, 1
    {
      hide *;
      ghost var p0, out0 := path, out;
      Fields(o, t, r);
      var base := |path|;
      path := path + o.prefix;
      if o.hasEnd { out := out + [path]; }
      ghost var out1 := out;
      if o.kind == K4 || o.kind == K16 {
        CollectList(o, t, r);
      } else if o.kind == K48 {
        CollectTable(o, t, r);
      } else {
        CollectDirect(o, t, r);
      }
      path := path[..base];
      InnerKeys(t, p0, out0, out1);
    }

    /** One child: its branch byte is on the path while its keys go out. */
    method CollectChild(o: Block, i: nat, b: byte, ghost t: Node, ghost r: set<object>)
      requires Represents(Box(o), t, r) && Sturdy(t) && this !in r && i < |t.ch|
      modifies this
      ensures path == old(path) && out == old(out) + Under(path, Under([b], Walk(t.ch[i])))
      decreases t, 0, 0
    {
      hide *;
      ghost var q := path;
      Fields(o, t, r);
      TakeChild(o, t, r, i);
      SturdyKid(t, i);
      path := path + [b];
      CollectAll(o.ch[i], t.ch[i], o.foot[i]);
      path := path[..|path| - 1];
      assert path == q;
      UnderUnder(q, [b], Walk(t.ch[i]));
    }

    method CollectList(o: Block, ghost t: Node, ghost r: set<object>)
      requires Represents(Box(o), t, r) && Sturdy(t) && this !in r && (t.N4? || t.N16?)
      modifies this
      ensures path == old(path) && out == old(out) + Under(path, WalkKids(t))
      decreases t, 0, 1
    {
      hide *;
      ListFields(o, t, r);
      ghost var out1 := out;
      NoKeys(path, t);
      for i := 0 to o.n
        invariant path == old(path) && out == out1 + Under(path, WalkCells(t, i))
      {
        CollectChild(o, i, o.keys[i], t, r);
        CellsNow(t, i);
        UnderCat(path, WalkCells(t, i), Under([o.keys[i]], Walk(t.ch[i])));
      }
    }

    method CollectTable(o: Block, ghost t: Node, ghost r: set<object>)
      requires Represents(Box(o), t, r) && Sturdy(t) && this !in r && t.N48?
      modifies this
      ensures path == old(path) && out == old(out) + Under(path, WalkKids(t))
      decreases t, 0, 1
    {
      hide *;
      TableFields(o, t, r);
      ghost var out1 := out;
      NoKeys(path, t);
      for b := 0 to 256
        invariant path == old(path) && out == out1 + Under(path, WalkBytes(t, b))
      {
        var slot := o.idx[b];
        TableKid(t, b);
        if slot != NIL { CollectChild(o, slot, b, t, r); }
        UnderKids(path, t, b);
      }
    }

    method CollectDirect(o: Block, ghost t: Node, ghost r: set<object>)
      requires Represents(Box(o), t, r) && Sturdy(t) && this !in r && t.N256?
      modifies this
      ensures path == old(path) && out == old(out) + Under(path, WalkKids(t))
      decreases t, 0, 1
    {
      hide *;
      ghost var out1 := out;
      NoKeys(path, t);
      for b := 0 to 256
        invariant path == old(path) && out == out1 + Under(path, WalkBytes(t, b))
      {
        DirectKid(t, b);
        CollectChild(o, b, b, t, r);
        UnderKids(path, t, b);
      }
    }
  }

  lemma SturdyKid(t: Node, i: nat)
    requires Sturdy(t) && t.Inner() && i < |t.ch|
    ensures Sturdy(t.ch[i])
  {}

  lemma InnerKeys(t: Node, p0: Key, out0: seq<Key>, out1: seq<Key>)
    requires t.Inner() && out1 == if t.hasEnd then out0 + [p0 + t.prefix] else out0
    ensures out1 + Under(p0 + t.prefix, WalkKids(t)) == out0 + Under(p0, Walk(t))
  {
    hide Walk, WalkKids, Under;
    var e: seq<Key> := if t.hasEnd then [[]] else [];
    var q := p0 + t.prefix;
    EndKey(q, t.hasEnd);
    WalkIs(t);
    UnderUnder(p0, t.prefix, e + WalkKids(t));
    UnderCat(q, e, WalkKids(t));
  }

  lemma EndKey(q: Key, e: bool)
    ensures Under(q, if e then [[]] else []) == if e then [q] else []
  {
    assert q + [] == q;
  }

  lemma NoKeys(q: Key, t: Node)
    ensures Under(q, WalkBytes(t, 0)) == [] && (t.N4? || t.N16? ==> Under(q, WalkCells(t, 0)) == [] && WalkKids(t) == WalkCells(t, |t.ch|))
    ensures t.N48? || t.N256? ==> WalkKids(t) == WalkBytes(t, 256)
  {}

  lemma ListFields(o: Block, t: Node, r: set<object>)
    requires Represents(Box(o), t, r) && Sturdy(t) && (t.N4? || t.N16?)
    ensures o.n == |t.keys| == |t.ch| <= o.keys.Length && forall i :: 0 <= i < o.n ==> o.keys[i] == t.keys[i]
  {}

  lemma TableFields(o: Block, t: Node, r: set<object>)
    requires Represents(Box(o), t, r) && Sturdy(t) && t.N48?
    ensures o.idx.Length == 256 && o.idx[..] == t.idx && |t.idx| == 256
  {}

  lemma TableKid(t: Node, b: byte)
    requires Sturdy(t) && t.N48? && |t.idx| == 256
    ensures t.idx[b] == NIL ==> Child(t, b) == Empty
    ensures t.idx[b] != NIL ==> t.idx[b] < |t.ch| && Child(t, b) == t.ch[t.idx[b]]
  {}

  lemma DirectKid(t: Node, b: byte)
    requires Sturdy(t) && t.N256?
    ensures b < |t.ch| && Child(t, b) == t.ch[b]
  {}

  lemma UnderKids(q: Key, t: Node, b: byte)
    ensures Under(q, WalkBytes(t, b + 1)) == Under(q, WalkBytes(t, b)) + Under(q, Under([b], Walk(Child(t, b))))
    ensures Child(t, b) == Empty ==> Under(q, WalkBytes(t, b + 1)) == Under(q, WalkBytes(t, b))
  {
    BytesNow(t, b);
    WalkEmpty();
    hide Walk, WalkBytes;
    UnderCat(q, WalkBytes(t, b), Under([b], Walk(Child(t, b))));
  }

  // ── Writing the stored form ──────────────────────────────────────────

  class Writer {
    var buf: Key

    constructor (start: Key)
      ensures buf == start
    {
      buf := start;
    }

    /** `ser_node`: the bytes of the tree go to the end of the buffer. */
    method SerNode(slot: Slot, ghost t: Node, ghost r: set<object>)
      requires Represents(slot, t, r) && Fits(t) && this !in r
      modifies this
      ensures buf == old(buf) + Ser(t)
      decreases t, 1
    {
      HoleIsEmpty(slot, t, r);
      match slot {
        case Hole => buf := buf + [TAG_EMPTY];
        case Tail(sfx) =>
          buf := buf + [TAG_LEAF];
          buf := buf + BigEndian(|sfx|, 2);
          buf := buf + sfx;
        case Box(o) => SerInner(o, t, r);
      }
    }

    /** `ser_pfx`. */
    method SerPrefix(prefix: Key, hasEnd: bool)
      requires |prefix| <= 255
      modifies this
      ensures buf == old(buf) + SerPfx(prefix, hasEnd)
    {
      buf := buf + [|prefix|];
      buf := buf + prefix;
      buf := buf + [if hasEnd then 1 else 0];
    }

    method SerInner(o: Block, ghost t: Node, ghost r: set<object>)
      requires Represents(Box(o), t, r) && Fits(t) && this !in r
      modifies this
      ensures buf == old(buf) + Ser(t)
      decreases t, 0, 3
    {
      hide *;
      Fields(o, t, r);
      if o.kind == K4 || o.kind == K16 {
        SerListNode(o, t, r);
      } else if o.kind == K48 {
        SerTableNode(o, t, r);
      } else {
        SerDirectNode(o, t, r);
      }
    }

    method SerListNode(o: Block, ghost t: Node, ghost r: set<object>)
      requires Represents(Box(o), t, r) && Fits(t) && this !in r && (t.N4? || t.N16?)
      modifies this
      ensures buf == old(buf) + Ser(t)
      decreases t, 0, 2
    {
      hide *;
      SerUnfold(t, buf);
      Fields(o, t, r);
      SerFields(o, t, r);
      buf := buf + [if o.kind == K4 then TAG_N4 else TAG_N16];
      SerPrefix(o.prefix, o.hasEnd);
      buf := buf + [o.n];
      SerList(o, t, r);
    }

    method SerTableNode(o: Block, ghost t: Node, ghost r: set<object>)
      requires Represents(Box(o), t, r) && Fits(t) && this !in r && t.N48?
      modifies this
      ensures buf == old(buf) + Ser(t)
      decreases t, 0, 2
    {
      hide *;
      SerUnfold(t, buf);
      SerFields(o, t, r);
      buf := buf + [TAG_N48];
      SerPrefix(o.prefix, o.hasEnd);
      buf := buf + [o.n];
      buf := buf + o.idx[..];
      SerCells(o, o.n, t, r);
    }

    method SerDirectNode(o: Block, ghost t: Node, ghost r: set<object>)
      requires Represents(Box(o), t, r) && Fits(t) && this !in r && t.N256?
      modifies this
      ensures buf == old(buf) + Ser(t)
      decreases t, 0, 2
    {
      hide *;
      SerUnfold(t, buf);
      SerFields(o, t, r);
      buf := buf + [TAG_N256];
      SerPrefix(o.prefix, o.hasEnd);
      SerCells(o, 256, t, r);
    }

    method SerChild(o: Block, i: nat, ghost t: Node, ghost r: set<object>)
      requires Represents(Box(o), t, r) && Fits(t) && this !in r && i < |t.ch|
      modifies this
      ensures buf == old(buf) + Ser(t.ch[i])
      decreases t, 0, 0
    {
      FitsKid(t);
      hide *;
      Fields(o, t, r);
      TakeChild(o, t, r, i);
      SerNode(o.ch[i], t.ch[i], o.foot[i]);
    }

    method SerList(o: Block, ghost t: Node, ghost r: set<object>)
      requires Represents(Box(o), t, r) && Fits(t) && this !in r && (t.N4? || t.N16?)
      modifies this
      ensures buf == old(buf) + SerPairs(t.keys, t.ch)
      decreases t, 0, 1
    {
      hide *;
      Fields(o, t, r);
      SerFields(o, t, r);
      assert t.keys[0..] == t.keys && t.ch[0..] == t.ch;
      for i := 0 to o.n
        invariant buf + SerPairs(t.keys[i..], t.ch[i..]) == old(buf) + SerPairs(t.keys, t.ch)
      {
        PairsStep(t.keys, t.ch, i);
        ghost var b0, rest := buf, SerPairs(t.keys[i + 1..], t.ch[i + 1..]);
        buf := buf + [o.keys[i]];
        SerChild(o, i, t, r);
        assert b0 + ([o.keys[i]] + (Ser(t.ch[i]) + rest)) == b0 + [o.keys[i]] + Ser(t.ch[i]) + rest;
      }
      PairsEnd();
      assert t.keys[o.n..] == [] && t.ch[o.n..] == [] && buf + [] == buf;
    }

    method SerCells(o: Block, n: nat, ghost t: Node, ghost r: set<object>)
      requires Represents(Box(o), t, r) && Fits(t) && this !in r && (t.N48? || t.N256?) && n <= |t.ch|
      modifies this
      ensures buf == old(buf) + SerKids(t.ch, n)
      decreases t, 0, 1
    {
      hide *;
      Fields(o, t, r);
      assert t.ch[0..] == t.ch;
      for i := 0 to n
        invariant buf + SerKids(t.ch[i..], n - i) == old(buf) + SerKids(t.ch, n)
      {
        SerKidsStep(t.ch, i, n - i);
        ghost var b0, rest := buf, SerKids(t.ch[i + 1..], n - i - 1);
        SerChild(o, i, t, r);
        assert b0 + (Ser(t.ch[i]) + rest) == b0 + Ser(t.ch[i]) + rest;
      }
      KidsEnd(t.ch[n..]);
      assert buf + [] == buf;
    }
  }

  lemma SerUnfold(t: Node, b: Key)
    requires Fits(t) && (t.N4? || t.N16? || t.N48? || t.N256?)
    ensures t.N4? || t.N16? ==>
      b + Ser(t) == b + [if t.N4? then TAG_N4 else TAG_N16] + SerPfx(t.prefix, t.hasEnd) + [|t.keys|] + SerPairs(t.keys, t.ch)
    ensures t.N48? ==> b + Ser(t) == b + [TAG_N48] + SerPfx(t.prefix, t.hasEnd) + [t.n] + t.idx + SerKids(t.ch, t.n)
    ensures t.N256? ==> b + Ser(t) == b + [TAG_N256] + SerPfx(t.prefix, t.hasEnd) + SerKids(t.ch, 256)
  {
    SerIs(t);
    hide *;
    if t.N4? || t.N16? {
      Regroup(b, [if t.N4? then TAG_N4 else TAG_N16], SerPfx(t.prefix, t.hasEnd), [|t.keys|], SerPairs(t.keys, t.ch), []);
    } else if t.N48? {
      Regroup(b, [TAG_N48], SerPfx(t.prefix, t.hasEnd), [t.n], t.idx, SerKids(t.ch, t.n));
    } else {
      Regroup(b, [TAG_N256], SerPfx(t.prefix, t.hasEnd), SerKids(t.ch, 256), [], []);
    }
  }

  lemma SerIs(t: Node)
    requires Fits(t) && (t.N4? || t.N16? || t.N48? || t.N256?)
    ensures t.N4? || t.N16? ==>
      Ser(t) == [if t.N4? then TAG_N4 else TAG_N16] + (SerPfx(t.prefix, t.hasEnd) + ([|t.keys|] + SerPairs(t.keys, t.ch)))
    ensures t.N48? ==> Ser(t) == [TAG_N48] + (SerPfx(t.prefix, t.hasEnd) + ([t.n] + (t.idx + SerKids(t.ch, t.n))))
    ensures t.N256? ==> Ser(t) == [TAG_N256] + (SerPfx(t.prefix, t.hasEnd) + SerKids(t.ch, 256))
  {
    SmallCounts(t);
    hide SerPairs, SerKids, SerPfx, Fits;
    match t {
      case N4(_, _, _, _) =>
      case N16(_, _, _, _) =>
      case N48(_, _, _, _, _) =>
      case N256(_, _, _, _) =>
    }
  }

  lemma SmallCounts(t: Node)
    requires t.Inner() && Fits(t)
    ensures (t.N4? || t.N16? ==> |t.keys| % 256 == |t.keys|) && (t.N48? ==> t.n % 256 == t.n)
  {}

  lemma Regroup(a: Key, b: Key, c: Key, d: Key, e: Key, f: Key)
    ensures a + (b + (c + (d + (e + f)))) == a + b + c + d + e + f
    ensures a + (b + (c + (d + e))) == a + b + c + d + e
    ensures a + (b + (c + d)) == a + b + c + d
  {}

  lemma FitsKid(t: Node)
    requires Fits(t) && t.Inner()
    ensures forall i :: 0 <= i < |t.ch| ==> Fits(t.ch[i])
  {}

  lemma SerFields(o: Block, t: Node, r: set<object>)
    requires Represents(Box(o), t, r) && Fits(t)
    ensures |o.prefix| <= 255 && o.prefix == t.prefix && o.hasEnd == t.hasEnd
    ensures t.N4? || t.N16? ==> o.n == |t.keys| == |t.ch| <= 16 && o.n <= o.keys.Length && forall i :: 0 <= i < o.n ==> o.keys[i] == t.keys[i]
    ensures t.N48? ==> o.n == t.n <= 48 == |t.ch| && o.idx[..] == t.idx
    ensures t.N256? ==> |t.ch| == 256
  {}

  lemma PairsStep(ks: Key, ch: seq<Node>, i: nat)
    requires i < |ks| == |ch|
    ensures SerPairs(ks[i..], ch[i..]) == [ks[i]] + (Ser(ch[i]) + SerPairs(ks[i + 1..], ch[i + 1..]))
  {
    assert ks[i..][1..] == ks[i + 1..] && ch[i..][1..] == ch[i + 1..];
  }

  lemma PairsEnd()
    ensures SerPairs([], []) == []
  {}

  lemma SerKidsStep(ch: seq<Node>, i: nat, n: nat)
    requires i < |ch| && n > 0
    ensures SerKids(ch[i..], n) == Ser(ch[i]) + SerKids(ch[i + 1..], n - 1)
  {
    assert ch[i..][1..] == ch[i + 1..];
  }

  lemma KidsEnd(ch: seq<Node>)
    ensures SerKids(ch, 0) == []
  {}

  // ── The tree ─────────────────────────────────────────────────────────

  class Index {
    var root: Slot
    var len: nat
    /** The tree the cells stand for, and the objects below the root. */
    ghost var value: Node
    ghost var repr: set<object>

    ghost predicate Valid()
      reads this, repr
    {
      this !in repr && Represents(root, value, repr)
    }

    constructor ()
      ensures Valid() && value == Empty && len == 0 && repr == {}
    {
      root, len, value, repr := Hole, 0, Empty, {};
    }

    method Insert(key: Key) returns (added: bool)
      requires Valid() && Sturdy(value)
      modifies this, repr
      ensures Valid() && fresh(repr - old(repr))
      ensures (Tree(value, len), added) == TreeInsert(old(Tree(value, len)), key)
    {
      hide *;
      TreeInsertParts(Tree(value, len), key);
      RootCells();
      assert key[0..] == key;
      root, added, repr := InsertNode(root, key, 0, value, repr);
      value := ArtNode.Insert(value, key).0;
      if added { len := len + 1; }
      RootValid();
    }

    method Remove(key: Key) returns (removed: bool)
      requires Valid() && Sturdy(value) && (ArtNode.Remove(value, key).1 ==> len > 0)
      modifies this, repr
      ensures Valid() && fresh(repr - old(repr))
      ensures (Tree(value, len), removed) == TreeRemove(old(Tree(value, len)), key)
    {
      hide *;
      TreeRemoveParts(Tree(value, len), key);
      RootCells();
      assert key[0..] == key;
      root, removed, repr := RemoveNode(root, key, 0, value, repr);
      value := ArtNode.Remove(value, key).0;
      if removed { len := len - 1; }
      RootValid();
    }

    /** `filtered`: collect everything, keep what passes. */
    method Filtered(pred: Key -> bool) returns (keys: seq<Key>)
      requires Valid() && Sturdy(value)
      ensures keys == Filter(Walk(value), pred)
      ensures Ok(value) ==> keys == Filter(Collect(value), pred)
    {
      if Ok(value) { WalkOk(value); }
      hide *;
      RootCells();
      var c := new Collector();
      c.CollectAll(root, value, repr);
      UnderNothing(Walk(value));
      keys := FilterKeys(c.out, pred);
    }

    lemma RootValid()
      requires this !in repr && Represents(root, value, repr)
      ensures Valid()
    {}

    lemma RootCells()
      requires Valid()
      ensures this !in repr && Represents(root, value, repr)
    {}

    method ToBytes() returns (data: Key)
      requires Valid() && Fits(value)
      ensures data == ArtSer.ToBytes(Tree(value, len))
    {
      hide Represents, Fits, Ser;
      var w := new Writer(BigEndian(len, 4));
      w.SerNode(root, value, repr);
      data := w.buf;
    }
  }

  method FilterKeys(all: seq<Key>, pred: Key -> bool) returns (keys: seq<Key>)
    ensures keys == Filter(all, pred)
  {
    keys := [];
    for i := 0 to |all|
      invariant keys == Filter(all[..i], pred)
    {
      assert all[..i + 1][..i] == all[..i];
      if pred(all[i]) { keys := keys + [all[i]]; }
    }
    assert all[..|all|] == all;
  }

  /** `from_bytes`: the whole input must be one tree. */
  method FromBytes(data: Key) returns (r: Option<Index>)
    ensures r.Some? <==> ArtSer.FromBytes(data).Some?
    ensures r.Some? ==> fresh(r.value) && fresh(r.value.repr) && r.value.Valid()
    ensures r.Some? ==> Tree(r.value.value, r.value.len) == ArtSer.FromBytes(data).value
  {
    hide DeNode, Represents;
    if |data| < 4 { return None; }
    var got, root, end;
    ghost var f;
    got, root, end, f := ReadNode(data, 4);
    if !got || end != |data| { return None; }
    var t := new Index();
    t.root, t.len := root, FromBigEndian(data[..4]);
    t.value, t.repr := DeNode(data, 4).value, f;
    r := Some(t);
  }

  lemma UnderNothing(ks: seq<Key>)
    ensures [] + Under([], ks) == ks
  {
    forall i | 0 <= i < |ks| ensures [] + ks[i] == ks[i] {}
  }

  // ── A stored tree, rewritten in place ────────────────────────────────

  /** The bytes, if they decode, are a tree that fits its arrays, whose paths fit
      and whose length covers it, in order or not. */
  ghost predicate Reachable(data: Key) {
    ArtSer.FromBytes(data).Some? ==>
      Sound(ArtSer.FromBytes(data).value.root, 255) && Covered(ArtSer.FromBytes(data).value)
  }

  lemma WrittenReachable(t: Tree)
    requires Sound(t.root, 255) && Covered(t)
    ensures Fits(t.root) && (t.len < U32 ==> Reachable(ArtSer.ToBytes(t)))
  {
    SoundFits(t.root);
    if t.len < U32 {
      TreeRoundTrip(t);
      ReloadSound(t.root, 255);
      ReloadHeld(t.root);
    }
  }

  /** Whatever a stored tree has been through, it is such a tree. */
  lemma RunReachable(ops: seq<TreeOp>)
    requires 0 < |ops| < U32 && forall i :: 0 <= i < |ops| ==> |ops[i].key| <= 255
    ensures var pre := ops[..|ops| - 1];
      Reachable(ArtSer.ToBytes(TreeStep(StoreRun(pre), ops[|ops| - 1])))
  {
    var pre, op := ops[..|ops| - 1], ops[|ops| - 1];
    RunSound(pre);
    RunCovered(pre);
    StepSound(StoreRun(pre), op);
    StepCovered(StoreRun(pre), op.key);
    WrittenReachable(TreeStep(StoreRun(pre), op));
  }

  /** Over any stored run, clean or not, the length covers the tree. */
  lemma {:induction false} RunCovered(ops: seq<TreeOp>)
    ensures Covered(StoreRun(ops)) && StoreRun(ops).len <= |ops|
  {
    if ops != [] {
      var pre, op := ops[..|ops| - 1], ops[|ops| - 1];
      RunCovered(pre);
      hide Covered, Insert, Remove, Reload;
      StepCovered(StoreRun(pre), op.key);
      StepCovered(TreeStep(StoreRun(pre), op), op.key);
    }
  }

  /** Read the bytes, insert in memory, write the bytes: the result is the
      value computation's, and it holds exactly one key more if and only if the
      insertion is clean. */
  method InsertStoredBytes(data: Key, v: Key) returns (out: Option<Key>)
    requires Reachable(data) && |v| <= 255
    ensures out.Some? <==> ArtSer.FromBytes(data).Some?
    ensures out.Some? ==> out.value == StoreInsert(ArtSer.FromBytes(data).value, v)
    ensures out.Some? && TreeInsert(ArtSer.FromBytes(data).value, v).0.len < U32 ==> Reachable(out.value)
    ensures forall s :: Holds(data, s) ==> out.Some? && (Holds(out.value, s + {v}) <==> InsertClean(ArtSer.FromBytes(data).value, v))
  {
    ghost var t := ArtSer.FromBytes(data);
    if t.Some? {
      StoredRoom(data, v);
      SoundSturdy(t.value.root, 255);
      InsertFits(t.value, v);
    }
    forall s | Holds(data, s) ensures t.Some? && (Holds(StoreInsert(t.value, v), s + {v}) <==> InsertClean(t.value, v)) {
      StoreInsertExact(t.value, s, v);
    }
    hide *;
    var tree := FromBytes(data);
    if tree.None? { return None; }
    var added := tree.value.Insert(v);
    TreeInsertIs(t.value, v);
    var bytes := tree.value.ToBytes();
    out := Some(bytes);
  }

  lemma InsertFits(t: Tree, v: Key)
    requires Sound(t.root, 255) && Covered(t) && |v| <= 255 && !Overflows(t.root, v)
    ensures Fits(ArtNode.Insert(t.root, v).0) && (TreeInsert(t, v).0.len < U32 ==> Reachable(StoreInsert(t, v)))
  {
    InsertSound(t.root, v, 255);
    StepCovered(t, v);
    WrittenReachable(TreeInsert(t, v).0);
  }

  lemma TreeInsertIs(t: Tree, v: Key)
    ensures TreeInsert(t, v).0.root == ArtNode.Insert(t.root, v).0
    ensures StoreInsert(t, v) == ArtSer.ToBytes(TreeInsert(t, v).0)
  {}

  /** The same for removal, holes and wrong counters included. */
  method RemoveStoredBytes(data: Key, v: Key) returns (out: Option<Key>, empty: bool)
    requires Reachable(data)
    ensures out.Some? <==> ArtSer.FromBytes(data).Some?
    ensures out.Some? ==> out.value == StoreRemove(ArtSer.FromBytes(data).value, v) && Reachable(out.value)
    ensures out.Some? ==> (empty <==> TreeRemove(ArtSer.FromBytes(data).value, v).0.len == 0)
    ensures forall s :: Holds(data, s) ==> out.Some? && (empty <==> s - {v} == {})
    ensures forall s :: Holds(data, s) ==> out.Some? && (Holds(out.value, s - {v}) <==> RemoveClean(ArtSer.FromBytes(data).value, v))
  {
    ghost var t := ArtSer.FromBytes(data);
    if t.Some? {
      SoundSturdy(t.value.root, 255);
      LengthBound(data);
      RemoveFits(t.value, v);
    }
    forall s | Holds(data, s) ensures t.Some? && (Holds(StoreRemove(t.value, v), s - {v}) <==> RemoveClean(t.value, v))
      && TreeRemove(t.value, v).0.len == |s - {v}|
    {
      StoreRemoveExact(t.value, s, v);
    }
    hide *;
    var tree := FromBytes(data);
    if tree.None? { return None, false; }
    var removed := tree.value.Remove(v);
    TreeRemoveIs(t.value, v);
    var bytes := tree.value.ToBytes();
    out := Some(bytes);
    empty := tree.value.len == 0;
  }

  lemma RemoveFits(t: Tree, v: Key)
    requires Sound(t.root, 255) && Covered(t) && t.len < U32
    ensures Fits(ArtNode.Remove(t.root, v).0) && Reachable(StoreRemove(t, v))
    ensures ArtNode.Remove(t.root, v).1 ==> t.len > 0
  {
    RemoveSound(t.root, v, 255);
    StepCovered(t, v);
    WrittenReachable(TreeRemove(t, v).0);
  }

  lemma LengthBound(data: Key)
    requires ArtSer.FromBytes(data).Some?
    ensures ArtSer.FromBytes(data).value.len < U32
  {
    assert Pow256(1) == 256 && Pow256(2) == 65536 && Pow256(3) == 16777216 && Pow256(4) == U32;
    FromBigEndianBound(data[..4]);
  }

  lemma TreeInsertParts(t: Tree, k: Key)
    ensures var p := ArtNode.Insert(t.root, k);
      TreeInsert(t, k) == (Tree(p.0, if p.1 then t.len + 1 else t.len), p.1)
  {}

  lemma TreeRemoveParts(t: Tree, k: Key)
    requires ArtNode.Remove(t.root, k).1 ==> t.len > 0
    ensures var p := ArtNode.Remove(t.root, k);
      TreeRemove(t, k) == (Tree(p.0, if p.1 then t.len - 1 else t.len), p.1)
  {}

  lemma TreeRemoveIs(t: Tree, v: Key)
    ensures TreeRemove(t, v).0.root == ArtNode.Remove(t.root, v).0
    ensures StoreRemove(t, v) == ArtSer.ToBytes(TreeRemove(t, v).0)
  {}
}
