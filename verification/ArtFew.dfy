/** Up to sixteen keys: no node grows beyond a Node16, so every insertion and
    every removal, stored and read back, is clean. */
module ArtFew {
  import opened Options
  import opened Bytes
  import opened ArtNode
  import opened ArtOps
  import opened ArtSet
  import opened ArtOrder
  import opened ArtSer
  import opened ArtSound
  import opened ArtStore

  /** Key lists only: no slot table and no direct table. */
  ghost predicate Slim(t: Node)
    decreases t
  {
    !t.N48? && !t.N256? && (t.Inner() ==> forall i :: 0 <= i < |t.ch| ==> Slim(t.ch[i]))
  }

  lemma SlimChild(t: Node, b: byte)
    requires Slim(t)
    ensures Slim(Child(t, b))
  {}

  lemma SlimLift(t: Node, r: Node, c: Node)
    requires t.Inner() && (forall i :: 0 <= i < |t.ch| ==> Slim(t.ch[i])) && Slim(c) && !r.N48? && !r.N256?
    requires r.Inner() ==> forall i :: 0 <= i < |r.ch| ==> r.ch[i] == c || r.ch[i] == Empty || r.ch[i] in t.ch
    ensures Slim(r)
  {
    if r.Inner() {
      forall i | 0 <= i < |r.ch| ensures Slim(r.ch[i]) {
        if r.ch[i] in t.ch { var j :| 0 <= j < |t.ch| && t.ch[j] == r.ch[i]; }
      }
    }
  }

  // ── Counting keys ────────────────────────────────────────────────────

  lemma LiveNow(t: Node, b: byte)
    ensures LiveUpTo(t, b + 1) == LiveUpTo(t, b) + if Child(t, b) == Empty then [] else [b]
    ensures LiveUpTo(t, 0) == []
  {}

  lemma UnderSize(p: Key, ks: seq<Key>)
    ensures |Under(p, ks)| == |ks|
  {}

  lemma ChildKeyed(t: Node, b: byte)
    requires NoVoid(t) && Child(t, b) != Empty
    ensures |Collect(Child(t, b))| > 0
  {
    NoVoidChild(t, b);
    NoVoidHolds(Child(t, b));
    hide NoVoid, Collect;
    var j :| Has(Child(t, b), j);
    CollectHas(Child(t, b), j);
  }

  /** Every branch below `hi` brings at least one key. */
  lemma {:induction false} KidsCount(t: Node, hi: nat)
    requires NoVoid(t) && hi <= 256
    ensures |KidsUpTo(t, hi)| >= |LiveUpTo(t, hi)|
  {
    hide *;
    if hi == 0 {
      LiveNow(t, 0);
    } else {
      KidsCount(t, hi - 1);
      KidsNow(t, hi - 1);
      LiveNow(t, hi - 1);
      UnderSize([hi - 1], Collect(Child(t, hi - 1)));
      if Child(t, hi - 1) != Empty { ChildKeyed(t, hi - 1); }
    }
  }

  lemma {:induction false} KidCount(t: Node, b: byte, hi: nat)
    requires b < hi <= 256 && Child(t, b) != Empty
    ensures |KidsUpTo(t, hi)| >= |Collect(Child(t, b))|
  {
    hide *;
    KidsNow(t, hi - 1);
    UnderSize([hi - 1], Collect(Child(t, hi - 1)));
    if b < hi - 1 { KidCount(t, b, hi - 1); }
  }

  lemma NodeCount(t: Node, b: byte)
    requires t.Inner() && NoVoid(t)
    ensures |Collect(t)| >= |Live(t)| && (Child(t, b) != Empty ==> |Collect(t)| >= |Collect(Child(t, b))|)
  {
    KidsCount(t, 256);
    if Child(t, b) != Empty { KidCount(t, b, 256); }
  }

  lemma {:induction false} SortedSize(ks: seq<Key>)
    requires Sorted(ks)
    ensures |set k | k in ks| == |ks|
  {
    if ks != [] {
      var n := |ks| - 1;
      SortedSize(ks[..n]);
      assert ks == ks[..n] + [ks[n]];
      if ks[n] in ks[..n] {
        var i :| 0 <= i < n && ks[i] == ks[n];
        LtIrreflexive(ks[n]);
      }
      assert (set k | k in ks) == (set k | k in ks[..n]) + {ks[n]};
    }
  }

  lemma KeyCount(t: Node)
    ensures |KeySet(t)| == |Collect(t)|
  {
    CollectSorted(t);
    SortedSize(Collect(t));
    forall k ensures k in KeySet(t) <==> k in Collect(t) { CollectHas(t, k); }
    assert KeySet(t) == set k | k in Collect(t);
  }

  // ── Insertion and removal ────────────────────────────────────────────

  lemma AddSlim(t: Node, b: byte, c: Node)
    requires Slim(t) && t.Inner() && Slim(c)
    ensures Slim(AddCh(t, b, c))
  {
    var r := AddCh(t, b, c);
    forall i | 0 <= i < |r.ch| ensures r.ch[i] == c || r.ch[i] in t.ch { AddChKids(t, b, c, i); }
    SlimLift(t, r, c);
  }

  lemma SuffixSlim(t: Node, k: Key, m: nat)
    requires Slim(t) && t.Inner()
    ensures Slim(AddSuffix(t, k, m))
  {
    if m < |k| { AddSlim(t, k[m], Leaf(k[m + 1..])); }
  }

  lemma SplitSlim(t: Node, k: Key, m: nat)
    requires Slim(t) && t.Inner() && m < |t.prefix|
    ensures Slim(SplitPrefix(t, k, m))
  {
    var n0 := N4(t.prefix[..m], false, [], []);
    AddSlim(n0, t.prefix[m], SetPrefix(t, t.prefix[m + 1..]));
    SuffixSlim(AddCh(n0, t.prefix[m], SetPrefix(t, t.prefix[m + 1..])), k, m);
  }

  lemma SetSlim(t: Node, b: byte, c: Node)
    requires Slim(t) && t.Inner() && Slim(c)
    ensures Slim(SetCh(t, b, c)) && SetCh(t, b, c).Inner()
  {
    var r := SetCh(t, b, c);
    forall i | 0 <= i < |r.ch| ensures r.ch[i] == c || r.ch[i] in t.ch { SetChKids(t, b, c, i); }
    SlimLift(t, r, c);
  }

  /** With at most fifteen keys a node that needs a place is not a full Node16. */
  lemma {:induction false} InsertSlim(t: Node, k: Key)
    requires Ok(t) && NoVoid(t) && Slim(t) && (Has(t, k) || |Collect(t)| <= 15)
    ensures Slim(Insert(t, k).0) && !Loses(t, k)
    decreases |k|, 1
  {
    if t.Leaf? {
      var c := CommonPrefix(t.sfx, k);
      SuffixSlim(N4(t.sfx[..c], false, [], []), t.sfx, c);
      SuffixSlim(AddSuffix(N4(t.sfx[..c], false, [], []), t.sfx, c), k, c);
    } else if t.Inner() {
      var m := CommonPrefix(t.prefix, k);
      if m < |t.prefix| {
        SplitSlim(t, k, m);
      } else if m < |k| {
        InsertSlimBelow(t, k);
      }
    }
  }

  lemma {:induction false} InsertSlimBelow(t: Node, k: Key)
    requires Ok(t) && NoVoid(t) && Slim(t) && (Has(t, k) || |Collect(t)| <= 15)
    requires t.Inner() && CommonPrefix(t.prefix, k) == |t.prefix| < |k|
    ensures Slim(Insert(t, k).0) && !Loses(t, k)
    decreases |k|, 0
  {
    var b, w := k[|t.prefix|], k[|t.prefix|..][1..];
    PrefixMatch(t.prefix, k);
    HasChildLive(t, b);
    NodeCount(t, b);
    if HasChild(t, b) {
      OkChild(t, b);
      NoVoidChild(t, b);
      SlimChild(t, b);
      InsertSlim(Child(t, b), w);
      SetSlim(t, b, Insert(Child(t, b), w).0);
    } else {
      CountBounds(t);
      GrowSlim(t);
      AddSlim(Grow(t), b, Leaf(w));
    }
  }

  lemma GrowSlim(t: Node)
    requires Slim(t) && t.Inner() && t.Count() <= 15
    ensures Slim(Grow(t)) && Grow(t).Inner()
  {}

  lemma ShrinkSlim(t: Node)
    requires Slim(t)
    ensures Slim(Shrink(t))
  {
    if t.N4? && |t.keys| == 1 && |t.ch| == 1 && !t.hasEnd { assert Slim(t.ch[0]); }
  }

  lemma DelSlim(t: Node, b: byte)
    requires Slim(t) && t.Inner()
    ensures Slim(DelCh(t, b))
  {
    var r := DelCh(t, b);
    SlimLift(t, r, Empty);
  }

  lemma {:induction false} RemoveSlim(t: Node, k: Key)
    requires Slim(t)
    ensures Slim(Remove(t, k).0) && !LeavesHole(t, k) && !Overcounts(t, k)
    decreases |k|
  {
    if t.Inner() {
      PrefixMatch(t.prefix, k);
      if !(t.prefix <= k) {
      } else if |t.prefix| == |k| {
        ShrinkSlim(SetEnd(t, false));
      } else {
        var b, w := k[|t.prefix|], k[|t.prefix|..][1..];
        if HasChild(t, b) {
          SlimChild(t, b);
          RemoveSlim(Child(t, b), w);
          var t1 := SetCh(t, b, Remove(Child(t, b), w).0);
          SetSlim(t, b, Remove(Child(t, b), w).0);
          DelSlim(t1, b);
          ShrinkSlim(DelCh(t1, b));
        }
      }
    }
  }

  lemma {:induction false} ReloadSlim(t: Node)
    requires Slim(t)
    ensures Slim(Reload(t))
    decreases t
  {
    if t.Inner() {
      forall i | 0 <= i < |t.ch| ensures Slim(Reload(t).ch[i]) { ReloadSlim(t.ch[i]); }
    }
  }

  // ── The stored tree ──────────────────────────────────────────────────

  /** A value of up to 255 bytes that brings a slim tree to at most sixteen
      keys: the insertion is clean and the tree stays slim. */
  lemma FewInsert(t: Tree, s: set<Key>, k: Key)
    requires TreeIs(t, s) && Slim(t.root) && |k| <= 255 && |s + {k}| <= 16
    ensures InsertClean(t, k) && Slim(TreeInsert(t, k).0.root)
  {
    TreeParts(t, s);
    AddedLength(s, k);
    assert KeySet(t.root) == s;
    KeyCount(t.root);
    InsertSlim(t.root, k);
  }

  lemma FewRemove(t: Tree, k: Key)
    requires Slim(t.root)
    ensures RemoveClean(t, k) && Slim(TreeRemove(t, k).0.root)
  {
    RemoveSlim(t.root, k);
  }

  /** A slim tree stays slim in its bytes. */
  lemma SlimBytes(t: Tree)
    requires Sound(t.root, 255) && Slim(t.root)
    ensures FromBytes(ToBytes(t)).Some? && Slim(FromBytes(ToBytes(t)).value.root)
  {
    SoundFits(t.root);
    TreeReads(t);
    ReloadSlim(t.root);
  }
}
