/** A tree that lives in an account's code: every operation reads the bytes,
    works on the tree, and writes the bytes back. When that cycle is exact. */
module ArtStore {
  import opened Options
  import opened Bytes
  import opened ArtNode
  import opened ArtOps
  import opened ArtSet
  import opened ArtOrder
  import opened ArtShape
  import opened ArtSer
  import opened ArtSound

  // ── Trees that survive being stored ──────────────────────────────────

  /** Node48 slots from `n` on are free. */
  ghost predicate PackedHere(t: Node) {
    t.N48? ==> forall s :: t.n <= s < |t.ch| ==> t.ch[s] == Empty
  }

  /** Every Node48 is packed and no path is longer than `m` bytes. */
  ghost predicate Stored(t: Node, m: int)
    decreases t
  {
    match t
    case Empty => true
    case Leaf(s) => |s| <= m
    case _ => PackedHere(t) && |t.prefix| <= m && forall i :: 0 <= i < |t.ch| ==> Stored(t.ch[i], m - |t.prefix| - 1)
  }

  lemma {:induction false} StoredMore(t: Node, m: int, n: int)
    requires Stored(t, m) && m <= n
    ensures Stored(t, n)
    decreases t
  {
    if t.Inner() {
      forall i | 0 <= i < |t.ch| ensures Stored(t.ch[i], n - |t.prefix| - 1) {
        StoredMore(t.ch[i], m - |t.prefix| - 1, n - |t.prefix| - 1);
      }
    }
  }

  lemma StoredChild(t: Node, m: int, b: byte)
    requires Stored(t, m) && t.Inner()
    ensures Stored(Child(t, b), m - |t.prefix| - 1)
  {}

  lemma StoredLift(t: Node, r: Node, c: Node, m: int)
    requires t.Inner() && r.Inner() && r.prefix == t.prefix && |t.prefix| <= m && PackedHere(r)
    requires (forall i :: 0 <= i < |t.ch| ==> Stored(t.ch[i], m - |t.prefix| - 1)) && Stored(c, m - |t.prefix| - 1)
    requires forall i :: 0 <= i < |r.ch| ==> r.ch[i] == c || r.ch[i] == Empty || r.ch[i] in t.ch
    ensures Stored(r, m)
  {
    forall i | 0 <= i < |r.ch| ensures Stored(r.ch[i], m - |r.prefix| - 1) {
      if r.ch[i] in t.ch { var j :| 0 <= j < |t.ch| && t.ch[j] == r.ch[i]; }
    }
  }

  // ── Insertion ────────────────────────────────────────────────────────

  /** The first free slot of a packed Node48 is slot `n`. */
  lemma {:induction false} PackedFirst(ch: seq<Node>, n: nat)
    requires Occupied(ch) == n && (forall s :: n <= s < |ch| ==> ch[s] == Empty)
    ensures forall s :: 0 <= s < n ==> ch[s] != Empty
  {
    if |ch| > n {
      assert ch[|ch| - 1] == Empty;
      PackedFirst(ch[..|ch| - 1], n);
    } else {
      OccupiedFull(ch);
    }
  }

  lemma AddChStored(t: Node, b: byte, c: Node, m: int)
    requires LocalOk(t) && Stored(t, m) && t.Inner() && !Full(t) && Child(t, b) == Empty && c != Empty
    requires Stored(c, m - |t.prefix| - 1)
    ensures Stored(AddCh(t, b, c), m)
  {
    var r := AddCh(t, b, c);
    AddChSpec(t, b, c);
    if t.N48? { AddChPacked(t, b, c); }
    forall i | 0 <= i < |r.ch| ensures r.ch[i] == c || r.ch[i] in t.ch { AddChKids(t, b, c, i); }
    StoredLift(t, r, c, m);
  }

  lemma AddChPacked(t: Node, b: byte, c: Node)
    requires t.N48? && LocalOk(t) && PackedHere(t) && !Full(t)
    ensures PackedHere(AddCh(t, b, c))
  {
    PackedFirst(t.ch, t.n);
    assert t.ch[t.n] == Empty;
    var s := FirstEmpty(t.ch);
    assert s == t.n;
  }

  lemma AddSuffixStored(t: Node, k: Key, j: nat, m: int)
    requires Ok(t) && t.N4? && !Full(t) && Stored(t, m) && j == |t.prefix| && |k| <= m
    requires j < |k| ==> Child(t, k[j]) == Empty
    ensures Stored(AddSuffix(t, k, j), m)
  {
    if j < |k| { AddChStored(t, k[j], Leaf(k[j + 1..]), m); }
  }

  lemma SplitLeafStored(s: Key, k: Key, m: int)
    requires s != k && |s| <= m && |k| <= m
    ensures Stored(SplitLeaf(s, k), m)
  {
    var c := CommonPrefix(s, k);
    var n0 := N4(s[..c], false, [], []);
    assert s == s[..c] + s[c..] && k == k[..c] + k[c..];
    assert forall x: byte :: Child(n0, x) == Empty;
    AddKey(n0, s, c);
    AddSuffixStored(n0, s, c, m);
    AddSuffixStored(AddSuffix(n0, s, c), k, c, m);
  }

  lemma PrefixStored(t: Node, p: Key, m: int, n: int)
    requires Stored(t, m) && t.Inner() && |p| <= n && m - |t.prefix| == n - |p|
    ensures Stored(SetPrefix(t, p), n)
  {}

  lemma SplitPrefixStored(t: Node, k: Key, m: int)
    requires Ok(t) && Stored(t, m) && t.Inner() && CommonPrefix(t.prefix, k) < |t.prefix| && |k| <= m
    ensures Stored(SplitPrefix(t, k, CommonPrefix(t.prefix, k)), m)
  {
    var j := CommonPrefix(t.prefix, k);
    var p, b, q := t.prefix[..j], t.prefix[j], t.prefix[j + 1..];
    var c := SetPrefix(t, q);
    PrefixStored(t, q, m, m - j - 1);
    SplitParts(t, k, j);
    OnlyStored(p, b, c, m);
    hide Ok, AddSuffix, AddCh, Stored, Full, Child, SetPrefix, SplitPrefix, CommonPrefix;
    AddSuffixStored(N4(p, false, [b], [c]), k, j, m);
  }

  lemma OnlyStored(p: Key, b: byte, c: Node, m: int)
    requires Stored(c, m - |p| - 1) && |p| <= m
    ensures Stored(N4(p, false, [b], [c]), m)
  {}

  lemma GrowAddStored(t: Node, b: byte, w: Key, m: int)
    requires Ok(t) && Stored(t, m) && t.Inner() && Child(t, b) == Empty && |w| <= m - |t.prefix| - 1
    ensures Stored(AddCh(Grow(t), b, Leaf(w)), m)
  {
    var g := Grow(t);
    GrowSpec(t);
    forall i | 0 <= i < |g.ch| ensures g.ch[i] == Empty || g.ch[i] in t.ch { GrowKids(t, i); }
    StoredLift(t, g, Empty, m);
    AddChStored(g, b, Leaf(w), m);
  }

  lemma SetChStored(t: Node, b: byte, c: Node, m: int)
    requires LocalOk(t) && Stored(t, m) && t.Inner() && Child(t, b) != Empty && c != Empty
    requires Stored(c, m - |t.prefix| - 1)
    ensures Stored(SetCh(t, b, c), m)
  {
    var r := SetCh(t, b, c);
    SetChSpec(t, b, c);
    forall i | 0 <= i < |r.ch| ensures r.ch[i] == c || r.ch[i] in t.ch { SetChKids(t, b, c, i); }
    StoredLift(t, r, c, m);
  }

  lemma {:induction false} InsertStored(t: Node, k: Key, m: int)
    requires Ok(t) && Stored(t, m) && |k| <= m
    ensures Stored(Insert(t, k).0, m)
    decreases |k|, 1
  {
    if t.Leaf? {
      if t.sfx != k { SplitLeafStored(t.sfx, k, m); }
    } else if t.Inner() {
      PrefixMatch(t.prefix, k);
      if !(t.prefix <= k) {
        SplitPrefixStored(t, k, m);
      } else if |t.prefix| < |k| {
        InsertViaStored(t, k, m);
      }
    }
  }

  lemma OkHere(t: Node)
    requires Ok(t)
    ensures LocalOk(t)
  {}

  lemma {:induction false} InsertViaStored(t: Node, k: Key, m: int)
    requires Ok(t) && Stored(t, m) && |k| <= m && t.Inner() && t.prefix <= k && |t.prefix| < |k|
    ensures Stored(Insert(t, k).0, m)
    decreases |k|, 0
  {
    var b, w := k[|t.prefix|], k[|t.prefix|..][1..];
    PrefixMatch(t.prefix, k);
    HasChildLive(t, b);
    OkHere(t);
    hide *;
    InsertIs(t, k);
    if HasChild(t, b) {
      OkChild(t, b);
      StoredChild(t, m, b);
      InsertStored(Child(t, b), w, m - |t.prefix| - 1);
      InsertNonEmpty(Child(t, b), w);
      SetChStored(t, b, Insert(Child(t, b), w).0, m);
    } else {
      GrowAddStored(t, b, w, m);
    }
  }

  // ── Removal ──────────────────────────────────────────────────────────

  /** Removing `k` frees a Node48 slot that is not the last one in use, and the
      node stays a Node48. */
  predicate LeavesHole(t: Node, k: Key)
    decreases |k|
  {
    t.Inner() && t.prefix <= k && |t.prefix| < |k| &&
    var b, w := k[|t.prefix|], k[|t.prefix|..][1..];
    HasChild(t, b) &&
    if Remove(Child(t, b), w) == (Empty, true)
    then t.N48? && t.n > 17 && b < |t.idx| && t.idx[b] != t.n - 1
    else LeavesHole(Child(t, b), w)
  }

  lemma ClearKidsStored(t: Node, b: byte, m: int)
    requires LocalOk(t) && Stored(t, m) && t.Inner() && Child(t, b) != Empty
    ensures var r := ClearCh(t, b);
      r.Inner() && forall i :: 0 <= i < |r.ch| ==> Stored(r.ch[i], m - |t.prefix| - 1)
  {
    ClearChSpec(t, b);
    var r := ClearCh(t, b);
    forall i | 0 <= i < |r.ch| ensures Stored(r.ch[i], m - |t.prefix| - 1) {
      ClearChKids(t, b, i);
      if r.ch[i] in t.ch { var j :| 0 <= j < |t.ch| && t.ch[j] == r.ch[i]; }
    }
  }

  lemma PrependStored(p: Key, b: byte, c: Node, m: int)
    requires Stored(c, m - |p| - 1) && |p| <= m
    ensures Stored(Prepend(p, b, c), m)
  {
    if c.Inner() { PrefixStored(c, p + [b] + c.prefix, m - |p| - 1, m); }
  }

  lemma ShrinkStored(t: Node, m: int)
    requires LocalOk(t) && t.Inner() && |t.prefix| <= m && (t.N48? ==> t.n <= 16 || PackedHere(t))
    requires forall i :: 0 <= i < |t.ch| ==> Stored(t.ch[i], m - |t.prefix| - 1)
    ensures Stored(Shrink(t), m)
  {
    CountBounds(t);
    if t.Count() == 0 && !t.hasEnd {
    } else if t.N4? && |t.keys| == 1 && !t.hasEnd {
      assert Stored(t.ch[0], m - |t.prefix| - 1);
      PrependStored(t.prefix, t.keys[0], t.ch[0], m);
    } else {
      var r := Shrink(t);
      ShrinkSpec(t);
      forall i | 0 <= i < |r.ch| ensures r.ch[i] == Empty || r.ch[i] in t.ch { ShrinkKids(t, i); }
      StoredLift(t, r, Empty, m);
    }
  }

  lemma ClearStored(t: Node, b: byte, m: int)
    requires LocalOk(t) && Stored(t, m) && t.Inner() && Child(t, b) != Empty
    requires t.N48? && t.n > 17 ==> t.idx[b] == t.n - 1
    ensures Stored(Shrink(ClearCh(t, b)), m)
  {
    ClearKidsStored(t, b, m);
    ClearPacked(t, b, m);
    hide Stored, Child, ClearCh, Shrink, LocalOk, PackedHere;
    ShrinkStored(ClearCh(t, b), m);
  }

  lemma ClearPacked(t: Node, b: byte, m: int)
    requires LocalOk(t) && Stored(t, m) && t.Inner() && Child(t, b) != Empty
    requires t.N48? && t.n > 17 ==> t.idx[b] == t.n - 1
    ensures var r := ClearCh(t, b);
      r.Inner() && LocalOk(r) && |r.prefix| <= m && (r.N48? ==> r.n <= 16 || PackedHere(r))
  {
    ClearChSpec(t, b);
    if t.N48? { ClearCh48(t, b); }
    hide Child, Shrink, LocalOk;
  }

  lemma {:induction false} RemoveStored(t: Node, k: Key, m: int)
    requires Ok(t) && Stored(t, m) && !LeavesHole(t, k)
    ensures Stored(Remove(t, k).0, m)
    decreases |k|
  {
    if t.Inner() {
      PrefixMatch(t.prefix, k);
      if !(t.prefix <= k) {
      } else if |t.prefix| == |k| {
        HeadLocal(t, []);
        if t.hasEnd { ShrinkStored(SetEnd(t, false), m); }
      } else {
        var b, w := k[|t.prefix|], k[|t.prefix|..][1..];
        HasChildLive(t, b);
        if HasChild(t, b) {
          OkChild(t, b);
          StoredChild(t, m, b);
          RemoveUnfold(t, k);
          if Remove(Child(t, b), w).0 != Empty {
            RemoveStored(Child(t, b), w, m - |t.prefix| - 1);
            SetChStored(t, b, Remove(Child(t, b), w).0, m);
          } else {
            RemoveEmpty(Child(t, b), w);
            ClearStored(t, b, m);
          }
        }
      }
    }
  }

  // ── Reading back ─────────────────────────────────────────────────────

  lemma ReloadEmpty(t: Node)
    ensures Reload(t) == Empty <==> t == Empty
  {}

  lemma ReloadChild(t: Node, b: byte)
    requires t.Inner() && PackedHere(t)
    ensures Reload(t).Inner() && SameHead(t, Reload(t)) && Child(Reload(t), b) == Reload(Child(t, b))
  {}

  /** A packed tree keeps its keys, whatever its counters say. */
  lemma {:induction false} ReloadHas(t: Node, m: int, k: Key)
    requires Stored(t, m)
    ensures Has(Reload(t), k) <==> Has(t, k)
    decreases |k|
  {
    if t.Inner() && t.prefix <= k && |t.prefix| < |k| {
      var b, w := k[|t.prefix|], k[|t.prefix|..][1..];
      ReloadChild(t, b);
      StoredChild(t, m, b);
      ReloadHas(Child(t, b), m - |t.prefix| - 1, w);
    }
  }

  lemma {:induction false} OccupiedSame(a: seq<Node>, b: seq<Node>)
    requires |a| == |b| && forall i :: 0 <= i < |a| ==> (a[i] == Empty <==> b[i] == Empty)
    ensures Occupied(a) == Occupied(b)
  {
    if a != [] { OccupiedSame(a[..|a| - 1], b[..|b| - 1]); }
  }

  lemma {:induction false} ReloadOk(t: Node, m: int)
    requires Ok(t) && Stored(t, m)
    ensures Ok(Reload(t)) && Stored(Reload(t), m)
    decreases t
  {
    if t.Inner() {
      var r := Reload(t);
      ReloadLocal(t);
      ReloadHead(t);
      hide Reload, LocalOk, PackedHere;
      forall i | 0 <= i < |r.ch| ensures Ok(r.ch[i]) && Stored(r.ch[i], m - |t.prefix| - 1) {
        ReloadCell(t, i);
        ReloadOk(t.ch[i], m - |t.prefix| - 1);
      }
      hide Ok, Stored;
      AllOk(r, m);
    }
  }

  lemma AllOk(r: Node, m: int)
    requires r.Inner() && LocalOk(r) && PackedHere(r) && |r.prefix| <= m
    requires forall i :: 0 <= i < |r.ch| ==> Ok(r.ch[i]) && Stored(r.ch[i], m - |r.prefix| - 1)
    ensures Ok(r) && Stored(r, m)
  {
    hide LocalOk, PackedHere;
  }

  lemma ReloadHead(t: Node)
    requires t.Inner()
    ensures Reload(t).Inner() && Reload(t).prefix == t.prefix && |Reload(t).ch| == |t.ch|
  {}

  lemma ReloadCell(t: Node, i: nat)
    requires t.Inner() && PackedHere(t) && i < |t.ch|
    ensures |Reload(t).ch| == |t.ch| && Reload(t).ch[i] == Reload(t.ch[i])
  {}

  lemma ReloadLocal(t: Node)
    requires LocalOk(t) && t.Inner() && PackedHere(t)
    ensures LocalOk(Reload(t)) && PackedHere(Reload(t))
  {
    var r := Reload(t);
    forall b: byte ensures Child(r, b) == Empty <==> Child(t, b) == Empty {
      ReloadChild(t, b);
      ReloadEmpty(Child(t, b));
    }
    LiveSame(t, r, 256);
    forall i | 0 <= i < |t.ch| ensures r.ch[i] == Empty <==> t.ch[i] == Empty {
      ReloadCell(t, i);
      ReloadEmpty(t.ch[i]);
    }
    OccupiedSame(t.ch, r.ch);
    if t.N256? {
      LiveOccupied(r, 256);
      assert r.ch[..256] == r.ch;
    }
  }

  // ── No node without keys ─────────────────────────────────────────────

  ghost predicate NoVoidHere(t: Node) {
    t.Inner() ==> t.hasEnd || exists b: byte :: Child(t, b) != Empty
  }

  /** Every inner node has an end flag or a child. */
  ghost predicate NoVoid(t: Node)
    decreases t
  {
    NoVoidHere(t) && (t.Inner() ==> forall i :: 0 <= i < |t.ch| ==> NoVoid(t.ch[i]))
  }

  lemma NoVoidChild(t: Node, b: byte)
    requires NoVoid(t)
    ensures NoVoid(Child(t, b))
  {}

  /** So every branch leads to a key. */
  lemma {:induction false} NoVoidHolds(t: Node)
    requires NoVoid(t) && t != Empty
    ensures HoldsKey(t)
    decreases t
  {
    if t.Leaf? {
      assert Has(t, t.sfx);
    } else if t.hasEnd {
      assert Has(t, t.prefix);
    } else {
      var b: byte :| Child(t, b) != Empty;
      ChildSmaller(t, b);
      NoVoidChild(t, b);
      NoVoidHolds(Child(t, b));
      var j :| Has(Child(t, b), j);
      Join(t.prefix, b, j);
      HasVia(t, b, t.prefix + [b] + j);
    }
  }

  lemma NoVoidLift(t: Node, r: Node, c: Node)
    requires t.Inner() && r.Inner() && NoVoidHere(r) && NoVoid(c) && forall i :: 0 <= i < |t.ch| ==> NoVoid(t.ch[i])
    requires forall i :: 0 <= i < |r.ch| ==> r.ch[i] == c || r.ch[i] == Empty || r.ch[i] in t.ch
    ensures NoVoid(r)
  {
    forall i | 0 <= i < |r.ch| ensures NoVoid(r.ch[i]) {
      if r.ch[i] in t.ch { var j :| 0 <= j < |t.ch| && t.ch[j] == r.ch[i]; }
    }
  }

  lemma PrefixNoVoid(t: Node, p: Key)
    requires NoVoid(t) && t.Inner()
    ensures NoVoid(SetPrefix(t, p)) && NoVoid(SetEnd(t, true))
  {
    HeadOkChildren(t, p);
    if !t.hasEnd {
      var b: byte :| Child(t, b) != Empty;
      assert Child(SetPrefix(t, p), b) != Empty;
    }
  }

  lemma AddNoVoid(t: Node, b: byte, c: Node)
    requires LocalOk(t) && t.Inner() && !Full(t) && Child(t, b) == Empty && c != Empty && NoVoid(c)
    requires forall i :: 0 <= i < |t.ch| ==> NoVoid(t.ch[i])
    ensures NoVoid(AddCh(t, b, c))
  {
    AddChSpec(t, b, c);
    var r := AddCh(t, b, c);
    forall i | 0 <= i < |r.ch| ensures r.ch[i] == c || r.ch[i] in t.ch { AddChKids(t, b, c, i); }
    NoVoidLift(t, r, c);
  }

  lemma SuffixNoVoid(t: Node, k: Key, j: nat)
    requires Ok(t) && t.N4? && !Full(t) && j == |t.prefix| && (j < |k| ==> Child(t, k[j]) == Empty)
    requires forall i :: 0 <= i < |t.ch| ==> NoVoid(t.ch[i])
    ensures NoVoid(AddSuffix(t, k, j))
  {
    if j < |k| { AddNoVoid(t, k[j], Leaf(k[j + 1..])); }
  }

  lemma SplitLeafNoVoid(s: Key, k: Key)
    requires s != k
    ensures NoVoid(SplitLeaf(s, k))
  {
    var c := CommonPrefix(s, k);
    var n0 := N4(s[..c], false, [], []);
    assert s == s[..c] + s[c..] && k == k[..c] + k[c..];
    assert forall x: byte :: Child(n0, x) == Empty;
    AddKey(n0, s, c);
    SuffixNoVoid(n0, s, c);
    SuffixNoVoid(AddSuffix(n0, s, c), k, c);
  }

  lemma SplitPrefixNoVoid(t: Node, k: Key)
    requires Ok(t) && NoVoid(t) && t.Inner() && CommonPrefix(t.prefix, k) < |t.prefix|
    ensures NoVoid(SplitPrefix(t, k, CommonPrefix(t.prefix, k)))
  {
    var j := CommonPrefix(t.prefix, k);
    SplitParts(t, k, j);
    PrefixNoVoid(t, t.prefix[j + 1..]);
    SuffixNoVoid(N4(t.prefix[..j], false, [t.prefix[j]], [SetPrefix(t, t.prefix[j + 1..])]), k, j);
  }

  lemma GrowAddNoVoid(t: Node, b: byte, w: Key)
    requires Ok(t) && NoVoid(t) && t.Inner() && Child(t, b) == Empty
    ensures NoVoid(AddCh(Grow(t), b, Leaf(w)))
  {
    var g := Grow(t);
    GrowSpec(t);
    forall i | 0 <= i < |g.ch| ensures NoVoid(g.ch[i]) {
      GrowKids(t, i);
      if g.ch[i] in t.ch { var j :| 0 <= j < |t.ch| && t.ch[j] == g.ch[i]; }
    }
    AddNoVoid(g, b, Leaf(w));
  }

  lemma SetChNoVoid(t: Node, b: byte, c: Node)
    requires LocalOk(t) && NoVoid(t) && t.Inner() && Child(t, b) != Empty && c != Empty && NoVoid(c)
    ensures NoVoid(SetCh(t, b, c))
  {
    var r := SetCh(t, b, c);
    SetChSpec(t, b, c);
    forall i | 0 <= i < |r.ch| ensures r.ch[i] == c || r.ch[i] in t.ch { SetChKids(t, b, c, i); }
    NoVoidLift(t, r, c);
  }

  lemma {:induction false} InsertNoVoid(t: Node, k: Key)
    requires Ok(t) && NoVoid(t)
    ensures NoVoid(Insert(t, k).0)
    decreases |k|
  {
    if t.Leaf? {
      if t.sfx != k { SplitLeafNoVoid(t.sfx, k); }
    } else if t.Inner() {
      PrefixMatch(t.prefix, k);
      if !(t.prefix <= k) {
        SplitPrefixNoVoid(t, k);
      } else if |t.prefix| == |k| {
        PrefixNoVoid(t, []);
      } else {
        var b, w := k[|t.prefix|], k[|t.prefix|..][1..];
        HasChildLive(t, b);
        if HasChild(t, b) {
          OkChild(t, b);
          NoVoidChild(t, b);
          InsertNoVoid(Child(t, b), w);
          InsertNonEmpty(Child(t, b), w);
          SetChNoVoid(t, b, Insert(Child(t, b), w).0);
        } else {
          GrowAddNoVoid(t, b, w);
        }
      }
    }
  }

  lemma ShrinkNoVoid(t: Node)
    requires LocalOk(t) && t.Inner() && (t.Count() != 0 ==> Live(t) != [])
    requires forall i :: 0 <= i < |t.ch| ==> NoVoid(t.ch[i])
    ensures NoVoid(Shrink(t))
  {
    if t.Count() == 0 && !t.hasEnd {
    } else if t.N4? && |t.keys| == 1 && !t.hasEnd {
      assert NoVoid(t.ch[0]);
      if t.ch[0].Inner() { PrefixNoVoid(t.ch[0], t.prefix + [t.keys[0]] + t.ch[0].prefix); }
    } else {
      var r := Shrink(t);
      ShrinkSpec(t);
      LiveMember(t, 256);
      if !t.hasEnd {
        var b := Live(t)[0];
        assert b in Live(t) && Child(r, b) != Empty;
      }
      forall i | 0 <= i < |r.ch| ensures r.ch[i] == Empty || r.ch[i] in t.ch { ShrinkKids(t, i); }
      NoVoidLift(t, r, Empty);
    }
  }

  /** Node256 counters are exact, as they are after reading a tree back. */
  ghost predicate Recounted(t: Node)
    decreases t
  {
    (t.N256? ==> t.n == |Live(t)|) && (t.Inner() ==> forall i :: 0 <= i < |t.ch| ==> Recounted(t.ch[i]))
  }

  lemma {:induction false} RecountedRoomy(t: Node)
    requires Recounted(t)
    ensures Roomy(t)
    decreases t
  {
    if t.Inner() {
      forall i | 0 <= i < |t.ch| ensures Roomy(t.ch[i]) { RecountedRoomy(t.ch[i]); }
    }
  }

  lemma RecountedChild(t: Node, b: byte)
    requires Recounted(t)
    ensures Recounted(Child(t, b))
  {}

  lemma ClearNoVoid(t: Node, b: byte)
    requires LocalOk(t) && NoVoid(t) && Recounted(t) && t.Inner() && Child(t, b) != Empty && !(t.N256? && t.n <= 48)
    ensures NoVoid(Shrink(ClearCh(t, b)))
  {
    ClearLive(t, b);
    NoVoidKids(t);
    ClearedKids(t, b);
    hide ClearCh, Shrink, LocalOk, NoVoidHere, NoVoid, Live, Child;
    KidsNoVoid(t, ClearCh(t, b));
    ShrinkNoVoid(ClearCh(t, b));
  }

  lemma ClearedKids(t: Node, b: byte)
    requires t.Inner() && ClearCh(t, b).Inner()
    ensures var r := ClearCh(t, b); forall i :: 0 <= i < |r.ch| ==> r.ch[i] == Empty || r.ch[i] in t.ch
  {
    var r := ClearCh(t, b);
    forall i | 0 <= i < |r.ch| ensures r.ch[i] == Empty || r.ch[i] in t.ch { ClearChKids(t, b, i); }
  }

  lemma KidsNoVoid(t: Node, r: Node)
    requires t.Inner() && r.Inner() && forall i :: 0 <= i < |t.ch| ==> NoVoid(t.ch[i])
    requires forall i :: 0 <= i < |r.ch| ==> r.ch[i] == Empty || r.ch[i] in t.ch
    ensures forall i :: 0 <= i < |r.ch| ==> NoVoid(r.ch[i])
  {
    forall i | 0 <= i < |r.ch| ensures NoVoid(r.ch[i]) {
      if r.ch[i] in t.ch { var j :| 0 <= j < |t.ch| && t.ch[j] == r.ch[i]; }
    }
  }

  lemma NoVoidKids(t: Node)
    requires NoVoid(t)
    ensures t.Inner() ==> forall i :: 0 <= i < |t.ch| ==> NoVoid(t.ch[i])
  {}

  lemma ClearLive(t: Node, b: byte)
    requires LocalOk(t) && t.Inner() && Child(t, b) != Empty && (t.N256? ==> t.n == |Live(t)| > 48)
    ensures var r := ClearCh(t, b);
      r.Inner() && LocalOk(r) && (r.Count() != 0 ==> Live(r) != [])
  {
    ClearChSpec(t, b);
    var r := ClearCh(t, b);
    if t.N256? { LiveAdd(r, t, b, 256); } else { CountBounds(r); }
  }

  lemma {:induction false} RemoveNoVoid(t: Node, k: Key)
    requires Ok(t) && NoVoid(t) && Recounted(t) && !Overcounts(t, k)
    ensures NoVoid(Remove(t, k).0)
    decreases |k|
  {
    if t.Inner() {
      PrefixMatch(t.prefix, k);
      if !(t.prefix <= k) {
      } else if |t.prefix| == |k| {
        HeadLocal(t, []);
        CountBounds(t);
        ShrinkNoVoid(SetEnd(t, false));
      } else {
        var b, w := k[|t.prefix|], k[|t.prefix|..][1..];
        HasChildLive(t, b);
        if HasChild(t, b) {
          OkChild(t, b);
          NoVoidChild(t, b);
          RecountedChild(t, b);
          RemoveUnfold(t, k);
          if Remove(Child(t, b), w).0 != Empty {
            RemoveNoVoid(Child(t, b), w);
            SetChNoVoid(t, b, Remove(Child(t, b), w).0);
          } else {
            RemoveEmpty(Child(t, b), w);
            ClearNoVoid(t, b);
          }
        }
      }
    }
  }

  lemma {:induction false} ReloadNoVoid(t: Node, m: int)
    requires Ok(t) && Stored(t, m) && NoVoid(t)
    ensures NoVoid(Reload(t)) && Recounted(Reload(t))
    decreases t
  {
    if t.Inner() {
      var r := Reload(t);
      if !t.hasEnd {
        var b: byte :| Child(t, b) != Empty;
        ReloadChild(t, b);
        ReloadEmpty(Child(t, b));
      }
      if t.N256? {
        LiveOccupied(r, 256);
        assert r.ch[..256] == r.ch;
      }
      forall i | 0 <= i < |r.ch| ensures NoVoid(r.ch[i]) && Recounted(r.ch[i]) {
        ReloadCell(t, i);
        ReloadNoVoid(t.ch[i], m - |t.prefix| - 1);
      }
    }
  }

  // ── A hole loses a key ───────────────────────────────────────────────

  /** Every occupied slot of a Node48 in order belongs to some byte. */
  lemma SlotOwner(t: Node, s: nat) returns (b: byte)
    requires t.N48? && LocalOk(t) && s < 48 && t.ch[s] != Empty
    ensures t.idx[b] == s
  {
    if forall x: byte :: t.idx[x] != s { Unowned(t, s); }
    b :| t.idx[b] == s;
  }

  /** Freeing a slot below the last one in use: what the last slot held is not
      written, and so is gone when the tree is read back. */
  lemma HoleDrops(t: Node, b: byte) returns (j: Key)
    requires Ok(t) && NoVoid(t) && t.N48? && PackedHere(t) && t.n > 17 && Child(t, b) != Empty && t.idx[b] != t.n - 1
    ensures Has(t, j) && !Via(t.prefix, b, j) && !Has(Reload(Shrink(ClearCh(t, b))), j)
  {
    PackedFirst(t.ch, t.n);
    var last := t.n - 1;
    var c := SlotOwner(t, last);
    NoVoidChild(t, c);
    NoVoidHolds(Child(t, c));
    var j0 :| Has(Child(t, c), j0);
    j := t.prefix + [c] + j0;
    Join(t.prefix, c, j0);
    HasVia(t, c, j);
    ClearCh48(t, b);
    var r := Reload(ClearCh(t, b));
    assert r.ch[last] == Empty;
    assert Child(r, c) == Empty;
    HasVia(r, c, j);
  }

  lemma {:induction false} HoleLoses(t: Node, k: Key, m: int) returns (j: Key)
    requires Ok(t) && NoVoid(t) && Stored(t, m) && LeavesHole(t, k)
    ensures Has(t, j) && j != k && !Has(Reload(Remove(t, k).0), j)
    decreases |k|
  {
    hide Ok, LocalOk, NoVoid, Stored, PackedHere, LeavesHole, Has, Remove, Reload, Child, SetCh, ClearCh, Shrink, Via;
    HoleParts(t, k, m);
    var b, w, m0 := k[|t.prefix|], k[|t.prefix|..][1..], m - |t.prefix| - 1;
    if Remove(Child(t, b), w).0 == Empty {
      j := HoleDrops(t, b);
    } else {
      var j0 := HoleLoses(Child(t, b), w, m0);
      HoleLifts(t, k, Remove(Child(t, b), w).0, j0);
      j := t.prefix + [b] + j0;
    }
    SameKey(t.prefix, k, j);
  }

  /** What a hole means at a node: it is here, or below the branch of the key. */
  lemma HoleParts(t: Node, k: Key, m: int)
    requires Ok(t) && NoVoid(t) && Stored(t, m) && LeavesHole(t, k)
    ensures t.Inner() && LocalOk(t) && PackedHere(t) && t.prefix <= k && |t.prefix| < |k|
    ensures var b, w := k[|t.prefix|], k[|t.prefix|..][1..];
      var c := Remove(Child(t, b), w).0;
      && Child(t, b) != Empty
      && (c == Empty ==> Remove(t, k).0 == Shrink(ClearCh(t, b)) && t.N48? && t.n > 17 && |t.idx| == 256 && t.idx[b] != t.n - 1)
      && (c != Empty ==> Remove(t, k).0 == SetCh(t, b, c) && LeavesHole(Child(t, b), w))
      && Ok(Child(t, b)) && NoVoid(Child(t, b)) && Stored(Child(t, b), m - |t.prefix| - 1)
  {
    var b, w := k[|t.prefix|], k[|t.prefix|..][1..];
    hide Remove, Reload, Has, SetCh, ClearCh, Shrink;
    HasChildLive(t, b);
    RemoveUnfold(t, k);
    OkChild(t, b);
    NoVoidChild(t, b);
    StoredChild(t, m, b);
    if Remove(Child(t, b), w).0 == Empty { RemoveEmpty(Child(t, b), w); }
  }

  /** A key lost below a child is lost. */
  lemma HoleLifts(t: Node, k: Key, c: Node, j0: Key)
    requires LocalOk(t) && t.Inner() && PackedHere(t) && c != Empty && |t.prefix| < |k| && t.prefix <= k
    requires Has(Child(t, k[|t.prefix|]), j0) && j0 != k[|t.prefix|..][1..] && !Has(Reload(c), j0)
    ensures var b := k[|t.prefix|];
      var j := t.prefix + [b] + j0;
      Has(t, j) && j != k && !Has(Reload(SetCh(t, b, c)), j)
  {
    var b := k[|t.prefix|];
    var j := t.prefix + [b] + j0;
    Join(t.prefix, b, j0);
    HasVia(t, b, j);
    SetReload(t, b, c);
    HasVia(Reload(SetCh(t, b, c)), b, j);
    SameKey(t.prefix, k, j);
  }

  lemma SetReload(t: Node, b: byte, c: Node)
    requires LocalOk(t) && t.Inner() && PackedHere(t) && Child(t, b) != Empty && c != Empty
    ensures var r := Reload(SetCh(t, b, c)); r.Inner() && r.prefix == t.prefix && Child(r, b) == Reload(c)
  {
    SetChSpec(t, b, c);
    ReloadChild(SetCh(t, b, c), b);
  }

  /** A removal that leaves no hole survives being stored, wrong counters or
      not. */
  lemma RemoveStoredHas(t: Node, k: Key, m: int, j: Key)
    requires Ok(t) && Stored(t, m) && !LeavesHole(t, k)
    ensures Has(Reload(Remove(t, k).0), j) <==> Has(t, j) && j != k
  {
    RemoveStored(t, k, m);
    RemoveHas(t, k, j);
    ReloadHas(Remove(t, k).0, m, j);
  }

  /** Removal survives storing if and only if it leaves no hole. */
  lemma RemoveStoredExact(t: Node, k: Key, m: int)
    requires Ok(t) && Stored(t, m) && NoVoid(t)
    ensures (forall j :: Has(Reload(Remove(t, k).0), j) <==> Has(t, j) && j != k) <==> !LeavesHole(t, k)
  {
    if LeavesHole(t, k) {
      var j := HoleLoses(t, k, m);
      assert Has(t, j) && j != k && !Has(Reload(Remove(t, k).0), j);
    } else {
      forall j ensures Has(Reload(Remove(t, k).0), j) <==> Has(t, j) && j != k { RemoveStoredHas(t, k, m, j); }
    }
  }

  /** A wrong counter that is handed on is still there after reading back. */
  lemma {:induction false} OvercountStays(t: Node, k: Key, m: int)
    requires Ok(t) && Stored(t, m) && Overcounts(t, k)
    ensures !Ok(Reload(Remove(t, k).0))
    decreases |k|
  {
    PrefixMatch(t.prefix, k);
    if |t.prefix| == |k| {
      LiveSame(t, SetEnd(t, false), 256);
      ShrunkStays(SetEnd(t, false));
    } else {
      var b, w := k[|t.prefix|], k[|t.prefix|..][1..];
      HasChildLive(t, b);
      OkChild(t, b);
      RemoveUnfold(t, k);
      var c := Remove(Child(t, b), w).0;
      if c == Empty {
        RemoveEmpty(Child(t, b), w);
        ClearChSpec(t, b);
        LiveAdd(ClearCh(t, b), t, b, 256);
        ShrunkStays(ClearCh(t, b));
      } else {
        StoredChild(t, m, b);
        OvercountStays(Child(t, b), w, m - |t.prefix| - 1);
        SetReload(t, b, c);
        if Ok(Reload(SetCh(t, b, c))) { OkChild(Reload(SetCh(t, b, c)), b); }
      }
    }
  }

  lemma ShrunkStays(t: Node)
    requires LocalOk(t) && t.N256? && t.n <= 48 && |Live(t)| != t.n
    ensures !Ok(Reload(Shrink(t)))
  {
    ShrinkSpec(t);
    var r := Shrink(t);
    LiveSame(t, r, 256);
    forall b: byte ensures Child(Reload(r), b) == Empty <==> Child(r, b) == Empty {
      ReloadChild(r, b);
      ReloadEmpty(Child(r, b));
    }
    LiveSame(r, Reload(r), 256);
  }

  // ── The stored set ───────────────────────────────────────────────────

  /** What holds of a stored tree that every write has kept exact. */
  ghost predicate InOrder(t: Node) {
    Ok(t) && Stored(t, 255) && Sound(t, 255) && NoVoid(t) && Recounted(t)
  }

  ghost predicate TreeIs(t: Tree, s: set<Key>) {
    InOrder(t.root) && KeySet(t.root) == s && t.len == |s| < U32
  }

  /** `data` is a stored tree in order that holds exactly `s`. */
  ghost predicate Holds(data: Key, s: set<Key>) {
    FromBytes(data).Some? && TreeIs(FromBytes(data).value, s)
  }

  function StoreInsert(t: Tree, k: Key): Key { ToBytes(TreeInsert(t, k).0) }
  function StoreRemove(t: Tree, k: Key): Key { ToBytes(TreeRemove(t, k).0) }

  /** The path stays within 255 bytes, the length within its field, and growth
      drops nothing. */
  ghost predicate InsertClean(t: Tree, k: Key) {
    |k| <= 255 && (Has(t.root, k) || t.len + 1 < U32) && !Loses(t.root, k)
  }

  /** No hole is left and no wrong counter handed on. */
  predicate RemoveClean(t: Tree, k: Key) {
    !LeavesHole(t.root, k) && !Overcounts(t.root, k)
  }

  lemma EmptyHolds()
    ensures TreeIs(EmptyTree, {})
  {
    assert KeySet(Empty) == {};
  }

  lemma StoreHolds(t: Tree, s: set<Key>)
    requires Ok(t.root) && Stored(t.root, 255) && Sound(t.root, 255) && NoVoid(t.root)
    requires KeySet(t.root) == s && t.len == |s| < U32
    ensures Holds(ToBytes(t), s)
  {
    SoundFits(t.root);
    TreeRoundTrip(t);
    ReloadOk(t.root, 255);
    ReloadSound(t.root, 255);
    ReloadNoVoid(t.root, 255);
    forall k ensures Has(Reload(t.root), k) <==> Has(t.root, k) { ReloadHas(t.root, 255, k); }
    assert KeySet(Reload(t.root)) == s;
  }

  lemma {:induction false} KeysBounded(t: Node, m: int, k: Key)
    requires Stored(t, m) && Has(t, k)
    ensures |k| <= m
    decreases |k|
  {
    if t.Inner() && |t.prefix| < |k| {
      StoredChild(t, m, k[|t.prefix|]);
      KeysBounded(Child(t, k[|t.prefix|]), m - |t.prefix| - 1, k[|t.prefix|..][1..]);
    }
  }

  /** Bytes that hold `s`: what is known of its keys and its size. */
  lemma HoldsBounds(data: Key, s: set<Key>)
    requires Holds(data, s)
    ensures |s| < U32 && forall k :: k in s ==> |k| <= 255
  {
    var t := FromBytes(data).value;
    forall k | k in s ensures |k| <= 255 { KeysBounded(t.root, 255, k); }
  }

  lemma AddedLength(s: set<Key>, k: Key)
    ensures |s + {k}| == |s| + if k in s then 0 else 1
  {
    if k in s { assert s + {k} == s; }
  }

  /** Read, insert, write: the bytes hold one key more if and only if the
      insertion is clean. */
  lemma StoreInsertExact(t: Tree, s: set<Key>, k: Key)
    requires TreeIs(t, s)
    ensures Holds(StoreInsert(t, k), s + {k}) <==> InsertClean(t, k)
  {
    AddedLength(s, k);
    if Holds(StoreInsert(t, k), s + {k}) { HoldsBounds(StoreInsert(t, k), s + {k}); }
    if |k| <= 255 && |s + {k}| < U32 {
      InsertExact(t.root, k);
      hide Holds;
      if Loses(t.root, k) { LossyInsert(t, s, k); } else { CleanInsert(t, s, k); }
    }
  }

  lemma TreeParts(t: Tree, s: set<Key>)
    requires TreeIs(t, s)
    ensures Ok(t.root) && Stored(t.root, 255) && Sound(t.root, 255) && NoVoid(t.root) && Recounted(t.root)
    ensures t.len == |s| < U32 && forall k :: k in s <==> Has(t.root, k)
  {}

  lemma InsertedTree(t: Tree, s: set<Key>, k: Key)
    requires Ok(t.root) && !Loses(t.root, k) && t.len == |s| && forall j :: j in s <==> Has(t.root, j)
    ensures KeySet(TreeInsert(t, k).0.root) == s + {k} && TreeInsert(t, k).0.len == |s + {k}|
    ensures TreeInsert(t, k).0.root == Insert(t.root, k).0
  {
    hide Ok, Insert, Loses, Has;
    var r := TreeInsert(t, k).0;
    InsertAdded(t.root, k);
    forall j ensures j in KeySet(r.root) <==> j in s || j == k { InsertKeeps(t.root, k, j); }
    assert KeySet(r.root) == s + {k};
    AddedLength(s, k);
  }

  lemma CleanInsert(t: Tree, s: set<Key>, k: Key)
    requires TreeIs(t, s) && |k| <= 255 && |s + {k}| < U32 && !Loses(t.root, k)
    ensures Holds(StoreInsert(t, k), s + {k})
  {
    TreeParts(t, s);
    hide Ok, Stored, Sound, NoVoid, Recounted, Insert, Loses, Has, Holds, TreeIs, InOrder, KeySet, TreeInsert;
    InsertedTree(t, s, k);
    RecountedRoomy(t.root);
    RoomyFits(t.root, k);
    InsertOk(t.root, k);
    InsertStored(t.root, k, 255);
    InsertSound(t.root, k, 255);
    InsertNoVoid(t.root, k);
    StoreHolds(TreeInsert(t, k).0, s + {k});
  }

  lemma LossyInsert(t: Tree, s: set<Key>, k: Key)
    requires TreeIs(t, s) && |k| <= 255 && Loses(t.root, k)
    ensures !Holds(StoreInsert(t, k), s + {k})
  {
    hide Ok, Stored, Sound, Insert, Has;
    var r := TreeInsert(t, k).0;
    RecountedRoomy(t.root);
    RoomyFits(t.root, k);
    InsertStored(t.root, k, 255);
    InsertSound(t.root, k, 255);
    SoundFits(r.root);
    TreeReads(r);
    LosesExact(t.root, k);
    LostIsOther(t.root, k);
    var j :| Has(t.root, j) && Dropped(t.root, k, j);
    InsertHas(t.root, k, j);
    ReloadHas(r.root, 255, j);
    assert j in s + {k} && j !in KeySet(Reload(r.root));
  }

  /** Read, remove, write: the bytes hold exactly the other keys if and only if
      the removal is clean. */
  lemma StoreRemoveExact(t: Tree, s: set<Key>, k: Key)
    requires TreeIs(t, s)
    ensures Holds(StoreRemove(t, k), s - {k}) <==> RemoveClean(t, k)
    ensures TreeRemove(t, k).0.len == |s - {k}|
  {
    hide Holds;
    RemovedTree(t, s, k);
    if RemoveClean(t, k) { CleanRemove(t, s, k); } else { LossyRemove(t, s, k); }
  }

  lemma RemovedTree(t: Tree, s: set<Key>, k: Key)
    requires Ok(t.root) && t.len == |s| && forall j :: j in s <==> Has(t.root, j)
    ensures KeySet(TreeRemove(t, k).0.root) == s - {k} && TreeRemove(t, k).0.len == |s - {k}|
    ensures TreeRemove(t, k).0.root == Remove(t.root, k).0
  {
    hide Ok, Remove, Has;
    var r := TreeRemove(t, k).0;
    RemoveHas(t.root, k, k);
    forall j ensures j in KeySet(r.root) <==> j in s && j != k { RemoveHas(t.root, k, j); }
    assert KeySet(r.root) == s - {k};
    if k !in s { assert s - {k} == s; }
  }

  lemma CleanRemove(t: Tree, s: set<Key>, k: Key)
    requires TreeIs(t, s) && RemoveClean(t, k)
    ensures Holds(StoreRemove(t, k), s - {k})
  {
    TreeParts(t, s);
    hide Ok, Stored, Sound, NoVoid, Recounted, Remove, Has, Holds, TreeIs, InOrder, KeySet, TreeRemove;
    RemovedTree(t, s, k);
    RemoveOk(t.root, k);
    RemoveStored(t.root, k, 255);
    RemoveSound(t.root, k, 255);
    RemoveNoVoid(t.root, k);
    StoreHolds(TreeRemove(t, k).0, s - {k});
  }

  lemma LossyRemove(t: Tree, s: set<Key>, k: Key)
    requires TreeIs(t, s) && !RemoveClean(t, k)
    ensures !Holds(StoreRemove(t, k), s - {k})
  {
    hide Stored, Sound, Remove, Has;
    var r := TreeRemove(t, k).0;
    RemoveSound(t.root, k, 255);
    SoundFits(r.root);
    TreeReads(r);
    if LeavesHole(t.root, k) {
      var j := HoleLoses(t.root, k, 255);
      assert j in s - {k} && j !in KeySet(Reload(r.root));
    } else {
      OvercountStays(t.root, k, 255);
    }
  }
}
