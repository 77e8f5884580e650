/** The tree as a set of byte strings: insertion and removal. */
module ArtSet {
  import opened Bytes
  import opened ArtNode
  import opened ArtOps

  // ── Paths through a node ─────────────────────────────────────────────

  /** `j` leaves a node with prefix `p` over byte `b`. */
  predicate Via(p: Key, b: byte, j: Key) {
    p <= j && |p| < |j| && j[|p|] == b
  }

  lemma HasUpdate(t: Node, r: Node, b: byte, c: Node, j: Key)
    requires SameHead(t, r) && ChildIs(t, r, b, c)
    ensures Has(r, j) == (if Via(t.prefix, b, j) then Has(c, j[|t.prefix|..][1..]) else Has(t, j))
  {}

  lemma HasSame(t: Node, r: Node, j: Key)
    requires SameHead(t, r) && SameChildren(t, r)
    ensures Has(r, j) == Has(t, j)
  {}

  lemma HasVia(t: Node, b: byte, j: Key)
    requires t.Inner() && Via(t.prefix, b, j)
    ensures Has(t, j) == Has(Child(t, b), j[|t.prefix|..][1..])
  {}

  lemma SplitAt(p: Key, j: Key)
    requires p <= j && |p| < |j|
    ensures j == p + [j[|p|]] + j[|p|..][1..]
  {}

  /** Every key below a branch extends to a key of the whole node. */
  lemma Join(p: Key, b: byte, j: Key)
    ensures Via(p, b, p + [b] + j) && (p + [b] + j)[|p|..][1..] == j
  {
    assert (p + [b] + j)[|p|..] == [b] + j;
  }

  lemma SameKey(p: Key, k: Key, j: Key)
    requires p <= k && |p| < |k|
    ensures j == k <==> Via(p, k[|p|], j) && j[|p|..][1..] == k[|p|..][1..]
  {
    SplitAt(p, k);
    if Via(p, k[|p|], j) { SplitAt(p, j); }
  }

  lemma PrefixMatch(p: Key, k: Key)
    ensures CommonPrefix(p, k) == |p| <==> p <= k
  {
    var c := CommonPrefix(p, k);
    assert p <= k ==> forall i :: 0 <= i < |p| ==> p[i] == k[i];
  }

  // ── Insertion keeps the structure ────────────────────────────────────

  lemma OkLift(t: Node, r: Node, c: Node)
    requires t.Inner() && (forall i :: 0 <= i < |t.ch| ==> Ok(t.ch[i])) && LocalOk(r) && Ok(c)
    requires r.Inner() ==> forall i :: 0 <= i < |r.ch| ==> r.ch[i] == c || r.ch[i] == Empty || r.ch[i] in t.ch
    ensures Ok(r)
  {
    if r.Inner() {
      forall i | 0 <= i < |r.ch| ensures Ok(r.ch[i]) {
        if r.ch[i] in t.ch {
          var j :| 0 <= j < |t.ch| && t.ch[j] == r.ch[i];
        }
      }
    }
  }

  lemma AddChOk(t: Node, b: byte, c: Node)
    requires Ok(t) && t.Inner() && !Full(t) && !Brimful(t) && Child(t, b) == Empty && c != Empty && Ok(c)
    ensures Ok(AddCh(t, b, c))
  {
    AddChSpec(t, b, c);
    var r := AddCh(t, b, c);
    forall i | 0 <= i < |r.ch| ensures r.ch[i] == c || r.ch[i] in t.ch { AddChKids(t, b, c, i); }
    OkLift(t, r, c);
  }

  lemma SetChOk(t: Node, b: byte, c: Node)
    requires Ok(t) && t.Inner() && Child(t, b) != Empty && c != Empty && Ok(c)
    ensures Ok(SetCh(t, b, c))
  {
    SetChSpec(t, b, c);
    var r := SetCh(t, b, c);
    forall i | 0 <= i < |r.ch| ensures r.ch[i] == c || r.ch[i] in t.ch { SetChKids(t, b, c, i); }
    OkLift(t, r, c);
  }

  lemma GrowOk(t: Node)
    requires Ok(t) && t.Inner()
    ensures Ok(Grow(t))
  {
    GrowSpec(t);
    var r := Grow(t);
    forall i | 0 <= i < |r.ch| ensures r.ch[i] == Empty || r.ch[i] in t.ch { GrowKids(t, i); }
    OkLift(t, r, Empty);
  }

  /** Changing the prefix or the end flag touches nothing else. */
  lemma HeadOk(t: Node, p: Key, e: bool)
    requires Ok(t) && t.Inner()
    ensures Ok(SetPrefix(t, p)) && Ok(SetEnd(t, e))
    ensures SameChildren(t, SetPrefix(t, p)) && SameChildren(t, SetEnd(t, e))
  {
    LiveSame(t, SetPrefix(t, p), 256);
    LiveSame(t, SetEnd(t, e), 256);
  }

  /** A new leaf at the end of an existing path adds exactly its key. */
  lemma AddLeafHas(t: Node, k: Key, j: Key)
    requires LocalOk(t) && t.Inner() && !Full(t) && t.prefix <= k && |t.prefix| < |k|
    requires Child(t, k[|t.prefix|]) == Empty
    ensures Has(AddCh(t, k[|t.prefix|], Leaf(k[|t.prefix|..][1..])), j) <==> Has(t, j) || j == k
  {
    var b, w := k[|t.prefix|], k[|t.prefix|..][1..];
    AddChSpec(t, b, Leaf(w));
    HasUpdate(t, AddCh(t, b, Leaf(w)), b, Leaf(w), j);
    SameKey(t.prefix, k, j);
    if Via(t.prefix, b, j) { HasVia(t, b, j); }
  }

  lemma SetEndHas(t: Node, j: Key)
    requires t.Inner() && SameChildren(t, SetEnd(t, true))
    ensures Has(SetEnd(t, true), j) <==> Has(t, j) || j == t.prefix
  {
    assert j == t.prefix <==> t.prefix <= j && j[|t.prefix|..] == [];
  }

  /** A split of a leaf holds exactly the two keys. */
  lemma SplitLeafSpec(s: Key, k: Key)
    requires s != k
    ensures Ok(SplitLeaf(s, k)) && SplitLeaf(s, k).N4?
    ensures forall j :: Has(SplitLeaf(s, k), j) <==> j == s || j == k
  {
    var c := CommonPrefix(s, k);
    var n0 := N4(s[..c], false, [], []);
    assert s == s[..c] + s[c..] && k == k[..c] + k[c..];
    assert forall x: byte :: Child(n0, x) == Empty;
    assert forall j :: !Has(n0, j);
    AddKey(n0, s, c);
    AddKey(AddSuffix(n0, s, c), k, c);
  }

  /** One side of a split: a leaf for what is left of `k`, or the end flag. */
  lemma AddKey(t: Node, k: Key, m: nat)
    requires Ok(t) && t.N4? && !Full(t) && m == |t.prefix| && t.prefix <= k
    requires m < |k| ==> Child(t, k[m]) == Empty
    ensures var r := AddSuffix(t, k, m);
      && Ok(r) && r.N4? && r.prefix == t.prefix
      && |r.keys| == |t.keys| + (if m < |k| then 1 else 0) && r.hasEnd == (t.hasEnd || m == |k|)
      && (forall x: byte :: !(m < |k| && x == k[m]) ==> Child(r, x) == Child(t, x))
    ensures forall j :: Has(AddSuffix(t, k, m), j) <==> Has(t, j) || j == k
  {
    if m < |k| {
      assert k[m + 1..] == k[m..][1..];
      AddChSpec(t, k[m], Leaf(k[m + 1..]));
      AddChOk(t, k[m], Leaf(k[m + 1..]));
    } else {
      HeadOk(t, [], true);
    }
    forall j ensures Has(AddSuffix(t, k, m), j) <==> Has(t, j) || j == k {
      if m < |k| { AddLeafHas(t, k, j); } else { SetEndHas(t, j); }
    }
  }

  lemma PrefixSplit(p: Key, b: byte, q: Key, j: Key)
    ensures p + [b] + q <= j <==> Via(p, b, j) && q <= j[|p|..][1..]
    ensures p + [b] + q <= j ==> j[|p + [b] + q|..] == j[|p|..][1..][|q|..]
  {
    if p + [b] + q <= j {
      var r := j[|p + [b] + q|..];
      assert j == p + ([b] + (q + r));
      assert j[|p|..] == [b] + (q + r);
      assert j[|p|..][1..] == q + r;
    }
  }

  /** A node whose prefix is `p`, a branch byte and `q` holds what the node
      with prefix `q` holds below that branch. */
  lemma RestPrefix(t: Node, p: Key, b: byte, q: Key, j: Key)
    requires t.Inner() && t.prefix == p + [b] + q
    ensures Has(t, j) <==> Via(p, b, j) && Has(SetPrefix(t, q), j[|p|..][1..])
  {
    PrefixSplit(p, b, q, j);
    HeadOkChildren(t, q);
  }

  lemma HeadOkChildren(t: Node, q: Key)
    requires t.Inner()
    ensures SameChildren(t, SetPrefix(t, q))
  {}

  /** What splitting a prefix builds: a parent over the shortened node, then
      the new key. */
  lemma SplitParts(t: Node, k: Key, m: nat)
    requires Ok(t) && t.Inner() && m == CommonPrefix(t.prefix, k) < |t.prefix|
    ensures var p, b, q := t.prefix[..m], t.prefix[m], t.prefix[m + 1..];
      var n1 := N4(p, false, [b], [SetPrefix(t, q)]);
      && SplitPrefix(t, k, m) == AddSuffix(n1, k, m) && AddCh(N4(p, false, [], []), b, SetPrefix(t, q)) == n1
      && m == |p| && p <= k && t.prefix == p + [b] + q && (m < |k| ==> Child(n1, k[m]) == Empty)
      && Ok(n1) && !Full(n1)
  {
    var p, b, q := t.prefix[..m], t.prefix[m], t.prefix[m + 1..];
    HeadOk(t, q, false);
    SplitIs(t, k, m);
    hide *;
    OneChild(p, b, SetPrefix(t, q));
    OneChildOk(p, b, SetPrefix(t, q));
  }

  lemma SplitIs(t: Node, k: Key, m: nat)
    requires t.Inner() && m == CommonPrefix(t.prefix, k) < |t.prefix|
    ensures var p, b, q := t.prefix[..m], t.prefix[m], t.prefix[m + 1..];
      && SplitPrefix(t, k, m) == AddSuffix(AddCh(N4(p, false, [], []), b, SetPrefix(t, q)), k, m)
      && SetPrefix(t, q) != Empty && p <= k && t.prefix == p + [b] + q && |p| == m && (m < |k| ==> k[m] != b)
  {
    hide AddSuffix, AddCh, CommonPrefix;
    SplitAt(t.prefix[..m], t.prefix);
    assert t.prefix[m..][1..] == t.prefix[m + 1..];
    assert t.prefix[..m] == k[..m];
  }

  lemma OneChildOk(p: Key, b: byte, c: Node)
    requires Ok(c) && c != Empty
    ensures Ok(N4(p, false, [b], [c])) && !Full(N4(p, false, [b], [c]))
  {}

  lemma OneChild(p: Key, b: byte, c: Node)
    ensures AddCh(N4(p, false, [], []), b, c) == N4(p, false, [b], [c])
    ensures forall x: byte :: x != b ==> Child(N4(p, false, [b], [c]), x) == Empty
  {
    assert InsertAt([], 0, b) == [b] && InsertAt([], 0, c) == [c];
  }

  /** Splitting a prefix adds the new key to the keys already there. */
  lemma SplitPrefixSpec(t: Node, k: Key)
    requires Ok(t) && t.Inner() && CommonPrefix(t.prefix, k) < |t.prefix|
    ensures var r := SplitPrefix(t, k, CommonPrefix(t.prefix, k)); Ok(r) && r.N4?
    ensures forall j :: Has(SplitPrefix(t, k, CommonPrefix(t.prefix, k)), j) <==> Has(t, j) || j == k
  {
    var m := CommonPrefix(t.prefix, k);
    var p, b, q := t.prefix[..m], t.prefix[m], t.prefix[m + 1..];
    hide *;
    var n1 := N4(p, false, [b], [SetPrefix(t, q)]);
    SplitParts(t, k, m);
    AddKey(n1, k, m);
    forall j ensures Has(n1, j) <==> Has(t, j) { NewParentHas(t, p, b, q, j); }
  }

  lemma NewParentHas(t: Node, p: Key, b: byte, q: Key, j: Key)
    requires t.Inner() && t.prefix == p + [b] + q && Ok(t)
    ensures Has(AddCh(N4(p, false, [], []), b, SetPrefix(t, q)), j) <==> Has(t, j)
  {
    HeadOk(t, q, false);
    AddChSpec(N4(p, false, [], []), b, SetPrefix(t, q));
    HasUpdate(N4(p, false, [], []), AddCh(N4(p, false, [], []), b, SetPrefix(t, q)), b, SetPrefix(t, q), j);
    RestPrefix(t, p, b, q, j);
  }

  /** The path of `k` ends at a Node256 whose counter is at its limit, and that
      has no child for the next byte of `k`. */
  predicate Overflows(t: Node, k: Key)
    decreases |k|
  {
    t.Inner() && t.prefix <= k && |t.prefix| < |k| &&
    var b := k[|t.prefix|];
    if HasChild(t, b) then Overflows(Child(t, b), k[|t.prefix|..][1..]) else Brimful(t)
  }

  /** Insertion keeps every node in order, unless it overflows a counter. */
  lemma {:induction false} InsertOk(t: Node, k: Key)
    requires Ok(t) && !Overflows(t, k)
    ensures Ok(Insert(t, k).0)
    decreases |k|, 1
  {
    match t {
      case Empty =>
      case Leaf(s) => if s != k { SplitLeafSpec(s, k); }
      case _ =>
        PrefixMatch(t.prefix, k);
        if !(t.prefix <= k) {
          SplitPrefixSpec(t, k);
        } else if |t.prefix| < |k| {
          InsertBelowOk(t, k);
        } else {
          HeadOk(t, [], true);
        }
    }
  }

  lemma {:induction false} InsertBelowOk(t: Node, k: Key)
    requires Ok(t) && t.Inner() && t.prefix <= k && |t.prefix| < |k| && !Overflows(t, k)
    ensures Ok(Insert(t, k).0)
    decreases |k|, 0
  {
    var b, w := k[|t.prefix|], k[|t.prefix|..][1..];
    PrefixMatch(t.prefix, k);
    HasChildLive(t, b);
    if HasChild(t, b) {
      OkChild(t, b);
      InsertOk(Child(t, b), w);
      InsertNonEmpty(Child(t, b), w);
      SetChSpec(t, b, Insert(Child(t, b), w).0);
      SetChOk(t, b, Insert(Child(t, b), w).0);
    } else {
      GrowSpec(t);
      GrowOk(t);
      AddChSpec(Grow(t), b, Leaf(w));
      AddChOk(Grow(t), b, Leaf(w));
    }
  }

  lemma InsertNonEmpty(t: Node, k: Key)
    ensures Insert(t, k).0 != Empty && (t.Inner() ==> Insert(t, k).0.Inner())
  {
    hide CommonPrefix, Child, HasChild, Find, Below, FirstEmpty;
  }

  /** In that case the result really is out of order. */
  lemma {:induction false} OverflowsBad(t: Node, k: Key)
    requires Ok(t) && Overflows(t, k)
    ensures !Ok(Insert(t, k).0)
    decreases |k|
  {
    var b, w := k[|t.prefix|], k[|t.prefix|..][1..];
    PrefixMatch(t.prefix, k);
    HasChildLive(t, b);
    if HasChild(t, b) {
      OkChild(t, b);
      OverflowsBad(Child(t, b), w);
      InsertNonEmpty(Child(t, b), w);
      NotOkLift(t, b, Insert(Child(t, b), w).0);
    } else {
      AddChSpec(t, b, Leaf(w));
    }
  }

  /** Insertion keeps order if and only if no counter wraps around. */
  lemma InsertOkExact(t: Node, k: Key)
    requires Ok(t)
    ensures Ok(Insert(t, k).0) <==> !Overflows(t, k)
  {
    if Overflows(t, k) { OverflowsBad(t, k); } else { InsertOk(t, k); }
  }

  // ── Insertion as a set operation ─────────────────────────────────────

  ghost predicate HoldsKey(t: Node) { exists j :: Has(t, j) }

  /** The path of `k` ends at a full Node48 that has keys under byte 0xFF and
      no child for the next byte of `k`. */
  ghost predicate Loses(t: Node, k: Key)
    decreases |k|
  {
    t.Inner() && t.prefix <= k && |t.prefix| < |k| &&
    var b := k[|t.prefix|];
    if HasChild(t, b) then Loses(Child(t, b), k[|t.prefix|..][1..])
    else t.N48? && t.n == 48 && HoldsKey(Child(t, NIL))
  }

  lemma {:induction false} InsertAdded(t: Node, k: Key)
    requires Ok(t)
    ensures Insert(t, k).1 <==> !Has(t, k)
    decreases |k|
  {
    if t.Inner() {
      PrefixMatch(t.prefix, k);
      if t.prefix <= k && |t.prefix| < |k| {
        var b := k[|t.prefix|];
        HasChildLive(t, b);
        OkChild(t, b);
        if HasChild(t, b) { InsertAdded(Child(t, b), k[|t.prefix|..][1..]); }
      }
    }
  }

  /** Growth on the path of `k` throws `j` away: `j` runs along it to a full
      Node48 without a child for the next byte of `k`, and leaves it over 0xFF. */
  predicate Dropped(t: Node, k: Key, j: Key)
    decreases |k|
  {
    t.Inner() && t.prefix <= k && |t.prefix| < |k| &&
    var b := k[|t.prefix|];
    if HasChild(t, b) then Via(t.prefix, b, j) && Dropped(Child(t, b), k[|t.prefix|..][1..], j[|t.prefix|..][1..])
    else t.N48? && t.n == 48 && Via(t.prefix, NIL, j)
  }

  /** Membership after insertion, whatever happens to the tree: the new key is
      in, and an old key is in unless growth dropped the branch it lives on. */
  lemma {:induction false} InsertHas(t: Node, k: Key, j: Key)
    requires Ok(t)
    ensures Has(Insert(t, k).0, j) <==> j == k || (Has(t, j) && !Dropped(t, k, j))
    decreases |k|
  {
    match t {
      case Empty =>
      case Leaf(s) => if s != k { SplitLeafSpec(s, k); }
      case _ =>
        var p := t.prefix;
        PrefixMatch(p, k);
        if !(p <= k) {
          SplitPrefixSpec(t, k);
        } else if |p| < |k| {
          InsertVia(t, k, j);
        } else {
          HeadOk(t, [], true);
          SetEndHas(t, j);
        }
    }
  }

  /** The step into a child, or the new leaf next to the others. */
  lemma {:induction false} InsertVia(t: Node, k: Key, j: Key)
    requires Ok(t) && t.Inner() && t.prefix <= k && |t.prefix| < |k|
    ensures Has(Insert(t, k).0, j) <==> j == k || (Has(t, j) && !Dropped(t, k, j))
    decreases |k|, 0
  {
    var p := t.prefix;
    var b, w := k[|p|], k[|p|..][1..];
    PrefixMatch(p, k);
    HasChildLive(t, b);
    if HasChild(t, b) {
      OkChild(t, b);
      var c := Insert(Child(t, b), w).0;
      InsertNonEmpty(Child(t, b), w);
      SetChSpec(t, b, c);
      SameKey(p, k, j);
      HasUpdate(t, SetCh(t, b, c), b, c, j);
      if Via(p, b, j) { InsertHas(Child(t, b), w, j[|p|..][1..]); }
    } else {
      GrowHas(t, j);
      GrowSpec(t);
      AddLeafHas(Grow(t), k, j);
    }
  }

  /** Growing keeps a key unless it leaves a full Node48 over 0xFF. */
  lemma GrowHas(t: Node, j: Key)
    requires Ok(t) && t.Inner()
    ensures Has(Grow(t), j) <==> Has(t, j) && !(t.N48? && t.n == 48 && Via(t.prefix, NIL, j))
  {
    GrowSpec(t);
    if t.N48? && t.n == 48 {
      HasUpdate(t, Grow(t), NIL, Empty, j);
    } else {
      HasSame(t, Grow(t), j);
    }
  }

  /** Some key is dropped exactly if the path meets such a node. */
  lemma {:induction false} LosesExact(t: Node, k: Key)
    ensures Loses(t, k) <==> exists j :: Has(t, j) && Dropped(t, k, j)
    decreases |k|
  {
    if t.Inner() && t.prefix <= k && |t.prefix| < |k| {
      var p, b, w := t.prefix, k[|t.prefix|], k[|t.prefix|..][1..];
      var x := if HasChild(t, b) then b else NIL;
      if HasChild(t, b) { LosesExact(Child(t, b), w); }
      if Loses(t, k) {
        var j0 :| Has(Child(t, x), j0) && (HasChild(t, b) ==> Dropped(Child(t, b), w, j0));
        Join(p, x, j0);
        HasVia(t, x, p + [x] + j0);
        assert Has(t, p + [x] + j0) && Dropped(t, k, p + [x] + j0);
      }
      if j :| Has(t, j) && Dropped(t, k, j) {
        HasVia(t, x, j);
        assert Has(Child(t, x), j[|p|..][1..]);
      }
    }
  }

  /** Without loss, insertion is set insertion. */
  lemma InsertKeeps(t: Node, k: Key, j: Key)
    requires Ok(t) && !Loses(t, k)
    ensures Has(Insert(t, k).0, j) <==> Has(t, j) || j == k
  {
    InsertHas(t, k, j);
    LosesExact(t, k);
  }

  /** Insertion adds exactly the key, if and only if no key is lost to growth. */
  lemma InsertExact(t: Node, k: Key)
    requires Ok(t)
    ensures (forall j :: Has(Insert(t, k).0, j) <==> Has(t, j) || j == k) <==> !Loses(t, k)
  {
    LosesExact(t, k);
    if Loses(t, k) {
      LostIsOther(t, k);
      var j :| Has(t, j) && Dropped(t, k, j);
      InsertHas(t, k, j);
    } else {
      forall j ensures Has(Insert(t, k).0, j) <==> Has(t, j) || j == k { InsertKeeps(t, k, j); }
    }
  }

  /** Growth happens only for a key that is not there. */
  lemma {:induction false} LostIsOther(t: Node, k: Key)
    requires Ok(t) && Loses(t, k)
    ensures !Has(t, k)
    decreases |k|
  {
    var b := k[|t.prefix|];
    HasChildLive(t, b);
    if HasChild(t, b) {
      OkChild(t, b);
      LostIsOther(Child(t, b), k[|t.prefix|..][1..]);
    }
  }

  predicate NoFF(k: Key) { forall i :: 0 <= i < |k| ==> k[i] != NIL }

  /** A caller-side condition: no key with a 0xFF byte, no loss. */
  lemma {:induction false} NoFFNoLoss(t: Node, k: Key)
    requires forall j :: Has(t, j) ==> NoFF(j)
    ensures !Loses(t, k)
    decreases |k|
  {
    if t.Inner() && t.prefix <= k && |t.prefix| < |k| {
      var b := k[|t.prefix|];
      forall j | Has(Child(t, b), j) ensures NoFF(j) { NoFFChild(t, b, j); }
      if HasChild(t, b) { NoFFNoLoss(Child(t, b), k[|t.prefix|..][1..]); }
      forall j ensures !Has(Child(t, NIL), j) {
        if Has(Child(t, NIL), j) { NoFFChild(t, NIL, j); }
      }
    }
  }

  lemma NoFFChild(t: Node, x: byte, j: Key)
    requires t.Inner() && Has(Child(t, x), j)
    requires forall f :: Has(t, f) ==> NoFF(f)
    ensures x != NIL && NoFF(j)
  {
    var p := t.prefix;
    var full := p + [x] + j;
    Join(p, x, j);
    HasVia(t, x, full);
    assert full[|p|] == x;
    forall i | 0 <= i < |j| ensures j[i] != NIL { assert full[|p| + 1 + i] == j[i]; }
  }

  // ── Removal ──────────────────────────────────────────────────────────

  /** The last step of removing `k` happens at a Node256 that is about to shrink
      with a counter above its number of children: the Node48 it becomes
      inherits the wrong counter. */
  predicate Overcounts(t: Node, k: Key)
    decreases |k|
  {
    t.Inner() && t.prefix <= k &&
    if |t.prefix| == |k| then t.hasEnd && t.N256? && t.n <= 48 && |Live(t)| != t.n
    else
      var b, w := k[|t.prefix|], k[|t.prefix|..][1..];
      HasChild(t, b) &&
      if Remove(Child(t, b), w) == (Empty, true)
      then t.N256? && t.n <= 48
      else Overcounts(Child(t, b), w)
  }

  lemma ClearChOk(t: Node, b: byte)
    requires Ok(t) && t.Inner() && Child(t, b) != Empty
    ensures Ok(ClearCh(t, b))
  {
    ClearChSpec(t, b);
    var r := ClearCh(t, b);
    forall i | 0 <= i < |r.ch| ensures r.ch[i] == Empty || r.ch[i] in t.ch { ClearChKids(t, b, i); }
    OkLift(t, r, Empty);
  }

  lemma PrependHas(p: Key, b: byte, c: Node, j: Key)
    ensures Has(Prepend(p, b, c), j) <==> Via(p, b, j) && Has(c, j[|p|..][1..])
  {
    if Via(p, b, j) { SplitAt(p, j); }
    match c {
      case Empty =>
      case Leaf(s) =>
        assert j == p + [b] + s ==> Via(p, b, j) && j[|p|..][1..] == s;
      case _ =>
        var r := Prepend(p, b, c);
        RestPrefix(r, p, b, c.prefix, j);
        assert SetPrefix(r, c.prefix) == c;
    }
  }

  lemma PrependOk(p: Key, b: byte, c: Node)
    requires Ok(c)
    ensures Ok(Prepend(p, b, c))
  {
    if c.Inner() { HeadOk(c, p + [b] + c.prefix, false); }
  }

  /** Shrinking never changes the keys, and keeps the node in order unless an
      inexact Node256 counter is passed on. */
  lemma ShrinkSet(t: Node)
    requires Ok(t) && t.Inner()
    ensures !(t.N256? && t.n <= 48 && |Live(t)| != t.n && (t.n != 0 || t.hasEnd)) ==> Ok(Shrink(t))
    ensures forall j :: Has(Shrink(t), j) <==> Has(t, j)
  {
    if t.Count() == 0 && !t.hasEnd {
      ShrinkToNothing(t);
    } else if t.N4? && |t.keys| == 1 && !t.hasEnd {
      ShrinkToChild(t);
    } else {
      ShrinkInPlace(t);
    }
  }

  lemma ShrinkToNothing(t: Node)
    requires LocalOk(t) && t.Inner() && t.Count() == 0 && !t.hasEnd
    ensures Shrink(t) == Empty && forall j :: !Has(t, j)
  {
    CountBounds(t);
    LiveMember(t, 256);
    forall j ensures !Has(t, j) {
      if t.prefix <= j && |t.prefix| < |j| { assert j[|t.prefix|] !in Live(t); }
    }
  }

  lemma ShrinkToChild(t: Node)
    requires Ok(t) && t.N4? && |t.keys| == 1 && !t.hasEnd
    ensures Ok(Shrink(t))
    ensures forall j :: Has(Shrink(t), j) <==> Has(t, j)
  {
    assert t.ch[0] in t.ch;
    PrependOk(t.prefix, t.keys[0], t.ch[0]);
    forall j ensures Has(Shrink(t), j) <==> Has(t, j) {
      PrependHas(t.prefix, t.keys[0], t.ch[0], j);
      FindUnique(t.keys, 0);
      if Via(t.prefix, t.keys[0], j) { HasVia(t, t.keys[0], j); }
    }
  }

  lemma ShrinkInPlace(t: Node)
    requires Ok(t) && t.Inner() && (t.Count() != 0 || t.hasEnd) && !(t.N4? && |t.keys| == 1 && !t.hasEnd)
    ensures (t.N256? && t.n <= 48 ==> |Live(t)| == t.n) ==> Ok(Shrink(t))
    ensures forall j :: Has(Shrink(t), j) <==> Has(t, j)
  {
    var r := Shrink(t);
    ShrinkSpec(t);
    hide Shrink, LocalOk;
    if LocalOk(r) {
      forall i | 0 <= i < |r.ch| ensures r.ch[i] == Empty || r.ch[i] in t.ch { ShrinkKids(t, i); }
      OkLift(t, r, Empty);
    }
    forall j ensures Has(r, j) <==> Has(t, j) { HasSame(t, r, j); }
  }

  lemma ClearEndHas(t: Node, j: Key)
    requires t.Inner()
    ensures Has(SetEnd(t, false), j) <==> Has(t, j) && j != t.prefix
  {
    assert j == t.prefix <==> t.prefix <= j && j[|t.prefix|..] == [];
    assert SameChildren(t, SetEnd(t, false));
  }

  /** Removing below a child either replaces the child or makes it go. */
  lemma RemoveUnfold(t: Node, k: Key)
    requires LocalOk(t) && t.Inner() && t.prefix <= k && |t.prefix| < |k| && Child(t, k[|t.prefix|]) != Empty
    ensures var b, w := k[|t.prefix|], k[|t.prefix|..][1..];
      var (c, removed) := Remove(Child(t, b), w);
      Remove(t, k) == if c != Empty then (SetCh(t, b, c), removed) else (Shrink(ClearCh(t, b)), true)
  {
    var b, w := k[|t.prefix|], k[|t.prefix|..][1..];
    PrefixMatch(t.prefix, k);
    HasChildLive(t, b);
    var c := Remove(Child(t, b), w).0;
    if c == Empty {
      RemoveEmpty(Child(t, b), w);
      ClearChSpec(t, b);
    } else {
      SetChSpec(t, b, c);
    }
  }

  /** Removal takes out exactly the key, always. */
  lemma {:induction false} RemoveHas(t: Node, k: Key, j: Key)
    requires Ok(t)
    ensures Has(Remove(t, k).0, j) <==> Has(t, j) && j != k
    ensures Remove(t, k).1 <==> Has(t, k)
    decreases |k|
  {
    if t.Inner() {
      var p := t.prefix;
      PrefixMatch(p, k);
      if !(p <= k) {
      } else if |p| == |k| {
        assert p == k;
        HeadOk(t, [], false);
        ClearEndHas(t, j);
        ShrinkSet(SetEnd(t, false));
      } else {
        RemoveVia(t, k, j);
      }
    }
  }

  /** The recursive step: nothing happens below, or the child is replaced, or
      the child has become empty and goes. */
  lemma {:induction false} RemoveVia(t: Node, k: Key, j: Key)
    requires Ok(t) && t.Inner() && t.prefix <= k && |t.prefix| < |k|
    ensures Has(Remove(t, k).0, j) <==> Has(t, j) && j != k
    ensures Remove(t, k).1 <==> Has(t, k)
    decreases |k|, 0
  {
    var p := t.prefix;
    var b, w := k[|p|], k[|p|..][1..];
    PrefixMatch(p, k);
    HasChildLive(t, b);
    SameKey(p, k, j);
    if HasChild(t, b) {
      OkChild(t, b);
      RemoveUnfold(t, k);
      var (c, removed) := Remove(Child(t, b), w);
      RemoveHas(Child(t, b), w, if Via(p, b, j) then j[|p|..][1..] else w);
      if c != Empty {
        SetChSpec(t, b, c);
        HasUpdate(t, SetCh(t, b, c), b, c, j);
      } else {
        RemoveEmpty(Child(t, b), w);
        ClearChSpec(t, b);
        ClearChOk(t, b);
        ShrinkSet(ClearCh(t, b));
        HasUpdate(t, ClearCh(t, b), b, Empty, j);
      }
    }
  }

  /** Only a removal that took place can leave nothing behind. */
  lemma RemoveEmpty(t: Node, k: Key)
    requires t != Empty && Remove(t, k).0 == Empty
    ensures Remove(t, k).1
  {}

  /** Removal keeps every node in order, except in the one case where a Node48
      inherits the counter of a Node256 that has just lost a child. */
  lemma {:induction false} RemoveOk(t: Node, k: Key)
    requires Ok(t) && !Overcounts(t, k)
    ensures Ok(Remove(t, k).0)
    decreases |k|
  {
    if t.Inner() {
      var p := t.prefix;
      PrefixMatch(p, k);
      if !(p <= k) {
      } else if |p| == |k| {
        HeadOk(t, [], false);
        LiveSame(t, SetEnd(t, false), 256);
        ShrinkSet(SetEnd(t, false));
      } else {
        var b, w := k[|p|], k[|p|..][1..];
        HasChildLive(t, b);
        if HasChild(t, b) {
          OkChild(t, b);
          RemoveUnfold(t, k);
          var c := Remove(Child(t, b), w).0;
          if c != Empty {
            RemoveOk(Child(t, b), w);
            SetChOk(t, b, c);
          } else {
            RemoveEmpty(Child(t, b), w);
            ClearChSpec(t, b);
            ClearChOk(t, b);
            ShrinkSet(ClearCh(t, b));
          }
        }
      }
    }
  }

  /** In that case the result really is out of order. */
  lemma {:induction false} OvercountsBad(t: Node, k: Key)
    requires Ok(t) && Overcounts(t, k)
    ensures !Ok(Remove(t, k).0)
    decreases |k|
  {
    var p := t.prefix;
    PrefixMatch(p, k);
    if |p| == |k| {
      LiveSame(t, SetEnd(t, false), 256);
      ShrunkBad(SetEnd(t, false));
    } else {
      var b, w := k[|p|], k[|p|..][1..];
      HasChildLive(t, b);
      OkChild(t, b);
      RemoveUnfold(t, k);
      var c := Remove(Child(t, b), w).0;
      if c == Empty {
        RemoveEmpty(Child(t, b), w);
        ClearedBad(t, b);
      } else {
        OvercountsBad(Child(t, b), w);
        NotOkLift(t, b, c);
      }
    }
  }

  lemma NotOkLift(t: Node, b: byte, c: Node)
    requires LocalOk(t) && t.Inner() && Child(t, b) != Empty && c != Empty && !Ok(c)
    ensures !Ok(SetCh(t, b, c))
  {
    SetChSpec(t, b, c);
    if Ok(SetCh(t, b, c)) { OkChild(SetCh(t, b, c), b); }
  }

  lemma ClearedBad(t: Node, b: byte)
    requires LocalOk(t) && t.N256? && t.n <= 48 && Child(t, b) != Empty
    ensures !Ok(Shrink(ClearCh(t, b)))
  {
    ClearChSpec(t, b);
    LiveAdd(ClearCh(t, b), t, b, 256);
    ShrunkBad(ClearCh(t, b));
  }

  /** Removal keeps order if and only if the counter is not passed on wrong. */
  lemma RemoveOkExact(t: Node, k: Key)
    requires Ok(t)
    ensures Ok(Remove(t, k).0) <==> !Overcounts(t, k)
  {
    if Overcounts(t, k) { OvercountsBad(t, k); } else { RemoveOk(t, k); }
  }

  lemma ShrunkBad(t: Node)
    requires LocalOk(t) && t.N256? && t.n <= 48 && |Live(t)| != t.n
    ensures !LocalOk(Shrink(t)) && Shrink(t).N48?
  {
    ShrinkSpec(t);
    LiveSame(t, Shrink(t), 256);
  }
}
