/** What each single-node step of the tree does, said through `Child`:
    the child table before and after. */
module ArtOps {
  import opened Bytes
  import opened ArtNode

  /** `r` has the same prefix and end flag as `t`. */
  predicate SameHead(t: Node, r: Node) {
    t.Inner() && r.Inner() && r.prefix == t.prefix && r.hasEnd == t.hasEnd
  }

  /** `r` has the children of `t`, except that `b` leads to `c`. */
  ghost predicate ChildIs(t: Node, r: Node, b: byte, c: Node) {
    Child(r, b) == c && forall x: byte :: x != b ==> Child(r, x) == Child(t, x)
  }

  ghost predicate SameChildren(t: Node, r: Node) {
    forall x: byte :: Child(r, x) == Child(t, x)
  }

  // ── Key lists (Node4, Node16) ────────────────────────────────────────

  lemma FindUnique(keys: Key, i: nat)
    requires Ascending(keys) && i < |keys|
    ensures Find(keys, keys[i]) == i
  {}

  /** `b` belongs at position `p` of the ascending list `keys`. */
  predicate Slot(keys: Key, b: byte, p: nat) {
    && Ascending(keys) && p <= |keys|
    && (forall j :: 0 <= j < p ==> keys[j] < b)
    && (forall j :: p <= j < |keys| ==> b < keys[j])
  }

  lemma BelowSlot(keys: Key, b: byte)
    requires Ascending(keys) && Find(keys, b) == |keys|
    ensures Slot(keys, b, Below(keys, b))
  {
  }

  lemma InsertAscending(keys: Key, b: byte, p: nat)
    requires Slot(keys, b, p)
    ensures Ascending(InsertAt(keys, p, b))
  {}

  lemma InsertFind(keys: Key, b: byte, p: nat, x: byte)
    requires Slot(keys, b, p)
    ensures var i := Find(keys, x);
      Find(InsertAt(keys, p, b), x) == (if x == b then p else if i < p then i else i + 1)
  {
    InsertAscending(keys, b, p);
    var i := Find(keys, x);
    var r := InsertAt(keys, p, b);
    if x == b {
      FindUnique(r, p);
    } else if i < |keys| {
      FindUnique(r, if i < p then i else i + 1);
    } else {
      forall j | 0 <= j < |r| ensures r[j] != x {
        assert r[j] == (if j < p then keys[j] else if j == p then b else keys[j - 1]);
      }
    }
  }

  lemma LookupInsert(keys: Key, ch: seq<Node>, b: byte, c: Node, p: nat, x: byte)
    requires |keys| == |ch| && Slot(keys, b, p)
    ensures Lookup(InsertAt(keys, p, b), InsertAt(ch, p, c), x) == (if x == b then c else Lookup(keys, ch, x))
  {
    InsertFind(keys, b, p, x);
  }

  lemma RemoveAscending(keys: Key, p: nat)
    requires Ascending(keys) && p < |keys|
    ensures Ascending(RemoveAt(keys, p))
  {
    var r := RemoveAt(keys, p);
    forall i, j | 0 <= i < j < |r| ensures r[i] < r[j] {
      assert r[i] == keys[if i < p then i else i + 1];
      assert r[j] == keys[if j < p then j else j + 1];
    }
  }

  lemma RemoveFind(keys: Key, p: nat, x: byte)
    requires Ascending(keys) && p < |keys|
    ensures var i := Find(keys, x);
      Find(RemoveAt(keys, p), x) == (if i == p then |keys| - 1 else if i < p then i else i - 1)
  {
    var i := Find(keys, x);
    RemoveAscending(keys, p);
    var r := RemoveAt(keys, p);
    if i < |keys| && i != p {
      hide Ascending, Find;
      FindUnique(r, if i < p then i else i - 1);
    } else {
      hide Ascending, Find;
      forall j | 0 <= j < |r| ensures r[j] != x {
        assert r[j] == keys[if j < p then j else j + 1];
      }
    }
  }

  lemma LookupRemove(keys: Key, ch: seq<Node>, p: nat, x: byte)
    requires |keys| == |ch| && Ascending(keys) && p < |keys|
    ensures Lookup(RemoveAt(keys, p), RemoveAt(ch, p), x)
         == (if Find(keys, x) == p then Empty else Lookup(keys, ch, x))
  {
    RemoveFind(keys, p, x);
    hide Find, Ascending, RemoveAt;
    var i := Find(keys, x);
    RemovedAt(keys, p, 0);
    if i < |keys| && i != p { RemovedAt(ch, p, if i < p then i else i - 1); } else { RemovedAt(ch, p, 0); }
  }

  lemma RemovedAt<T>(s: seq<T>, p: nat, j: nat)
    requires p < |s|
    ensures |RemoveAt(s, p)| == |s| - 1
    ensures j < |s| - 1 ==> RemoveAt(s, p)[j] == s[if j < p then j else j + 1]
  {}

  /** Inserting into the parallel key and child lists. */
  lemma ListInsert(keys: Key, ch: seq<Node>, b: byte, c: Node)
    requires |keys| == |ch| && Ascending(keys) && Find(keys, b) == |keys| && NoEmpty(ch) && c != Empty
    ensures var p := Below(keys, b);
      var keys', ch' := InsertAt(keys, p, b), InsertAt(ch, p, c);
      && |keys'| == |ch'| == |keys| + 1 && Ascending(keys') && NoEmpty(ch')
      && forall x: byte :: Lookup(keys', ch', x) == (if x == b then c else Lookup(keys, ch, x))
  {
    BelowSlot(keys, b);
    var p := Below(keys, b);
    InsertAscending(keys, b, p);
    forall x: byte ensures Lookup(InsertAt(keys, p, b), InsertAt(ch, p, c), x) == (if x == b then c else Lookup(keys, ch, x)) {
      LookupInsert(keys, ch, b, c, p, x);
    }
  }

  /** Removing from the parallel key and child lists. */
  lemma ListRemove(keys: Key, ch: seq<Node>, b: byte)
    requires |keys| == |ch| && Ascending(keys) && Find(keys, b) < |keys| && NoEmpty(ch)
    ensures var p := Find(keys, b);
      var keys', ch' := RemoveAt(keys, p), RemoveAt(ch, p);
      && |keys'| == |ch'| == |keys| - 1 && Ascending(keys') && NoEmpty(ch')
      && forall x: byte :: Lookup(keys', ch', x) == (if x == b then Empty else Lookup(keys, ch, x))
  {
    var p := Find(keys, b);
    RemoveAscending(keys, p);
    forall x: byte ensures Lookup(RemoveAt(keys, p), RemoveAt(ch, p), x) == (if x == b then Empty else Lookup(keys, ch, x)) {
      LookupRemove(keys, ch, p, x);
    }
  }

  lemma LookupPut(keys: Key, ch: seq<Node>, b: byte, c: Node, x: byte)
    requires |keys| == |ch| && Find(keys, b) < |keys|
    ensures Lookup(keys, Put(ch, Find(keys, b), c), x) == (if x == b then c else Lookup(keys, ch, x))
  {
    var i := Find(keys, x);
    if i < |keys| && x != b { assert i != Find(keys, b); }
  }

  // ── Slots ────────────────────────────────────────────────────────────

  lemma {:induction false} OccupiedPut(ch: seq<Node>, s: nat, c: Node)
    requires s < |ch|
    ensures Occupied(ch[s := c]) + (if ch[s] == Empty then 0 else 1)
         == Occupied(ch) + (if c == Empty then 0 else 1)
  {
    var n := |ch| - 1;
    if s == n {
      assert ch[s := c][..n] == ch[..n];
    } else {
      OccupiedPut(ch[..n], s, c);
      assert ch[s := c][..n] == ch[..n][s := c];
    }
  }

  lemma {:induction false} OccupiedFull(ch: seq<Node>)
    ensures Occupied(ch) == |ch| <==> NoEmpty(ch)
    ensures Occupied(ch) < |ch| ==> FirstEmpty(ch) < |ch|
  {
    if ch != [] {
      var n := |ch| - 1;
      OccupiedFull(ch[..n]);
      assert ch == ch[..n] + [ch[n]];
      if Empty in ch {
        var i :| 0 <= i < |ch| && ch[i] == Empty;
        assert FirstEmpty(ch) <= i;
      }
    }
  }

  lemma {:induction false} OccupiedPad(ch: seq<Node>, w: nat)
    requires |ch| <= w && NoEmpty(ch)
    ensures Occupied(Pad(ch, w)) == |ch|
  {
    if w == |ch| {
      assert Pad(ch, w) == ch;
      OccupiedFull(ch);
    } else {
      assert Pad(ch, w)[..w - 1] == Pad(ch, w - 1);
      OccupiedPad(ch, w - 1);
    }
  }

  // ── Live bytes ───────────────────────────────────────────────────────

  lemma {:induction false} LiveMember(t: Node, hi: nat)
    requires hi <= 256
    ensures Ascending(LiveUpTo(t, hi))
    ensures forall b: byte :: b in LiveUpTo(t, hi) <==> b < hi && Child(t, b) != Empty
  {
    if hi != 0 {
      LiveMember(t, hi - 1);
      var l := LiveUpTo(t, hi - 1);
      assert forall i :: 0 <= i < |l| ==> l[i] in l;
    }
  }

  lemma {:induction false} LiveSame(t: Node, r: Node, hi: nat)
    requires hi <= 256
    requires forall x: byte :: x < hi ==> (Child(t, x) == Empty <==> Child(r, x) == Empty)
    ensures LiveUpTo(r, hi) == LiveUpTo(t, hi)
  {
    if hi != 0 {
      LiveSame(t, r, hi - 1);
      var x: byte := hi - 1;
      assert Child(t, x) == Empty <==> Child(r, x) == Empty;
    }
  }

  /** Making one absent child present adds one live byte. */
  lemma {:induction false} LiveAdd(t: Node, r: Node, b: byte, hi: nat)
    requires hi <= 256
    requires Child(t, b) == Empty && Child(r, b) != Empty
    requires forall x: byte :: x != b ==> (Child(t, x) == Empty <==> Child(r, x) == Empty)
    ensures |LiveUpTo(r, hi)| == |LiveUpTo(t, hi)| + (if b < hi then 1 else 0)
  {
    if hi != 0 {
      LiveAdd(t, r, b, hi - 1);
      var x: byte := hi - 1;
      assert x != b ==> (Child(t, x) == Empty <==> Child(r, x) == Empty);
    }
  }

  /** Two ascending lists with the same members are equal. */
  lemma {:induction false} AscendingEqual(a: Key, b: Key)
    requires Ascending(a) && Ascending(b)
    requires forall x: byte :: x in a <==> x in b
    ensures a == b
  {
    assert |a| > 0 ==> a[0] in b;
    assert |b| > 0 ==> b[0] in a;
    if a != [] {
      var m, n := |a| - 1, |b| - 1;
      assert a[m] in b && b[n] in a;
      assert a[m] == b[n];
      forall x: byte ensures x in a[..m] <==> x in b[..n] {
        if x in a[..m] { assert x in a && x != a[m]; assert x in b; }
        if x in b[..n] { assert x in b && x != b[n]; assert x in a; }
      }
      AscendingEqual(a[..m], b[..n]);
      assert a == a[..m] + [a[m]] && b == b[..n] + [b[n]];
    }
  }

  /** The live bytes of a key-list node are its keys. */
  lemma LiveKeys(t: Node)
    requires LocalOk(t) && (t.N4? || t.N16?)
    ensures Live(t) == t.keys && Kids(t, Live(t)) == t.ch
  {
    LiveMember(t, 256);
    AscendingEqual(Live(t), t.keys);
    forall i | 0 <= i < |t.keys| ensures Child(t, t.keys[i]) == t.ch[i] {
      FindUnique(t.keys, i);
    }
  }

  /** On an ordered node, a child is present exactly when it is not empty. */
  lemma HasChildLive(t: Node, b: byte)
    requires LocalOk(t)
    ensures HasChild(t, b) <==> Child(t, b) != Empty
  {}

  lemma CountBounds(t: Node)
    requires LocalOk(t) && t.Inner()
    ensures |Live(t)| <= t.Count()
    ensures !t.N256? ==> |Live(t)| == t.Count()
    ensures t.N48? ==> t.n <= 48
  {
    if t.N4? || t.N16? { LiveKeys(t); }
  }

  // ── Adding a child ───────────────────────────────────────────────────

  predicate Full(t: Node) {
    match t
    case N4(_, _, ks, _) => |ks| >= 4
    case N16(_, _, ks, _) => |ks| >= 16
    case N48(_, _, m, _, _) => m >= 48
    case _ => false
  }

  /** A Node256 whose counter cannot go up any more: one more child, and it
      wraps around to zero. */
  predicate Brimful(t: Node) { t.N256? && t.n == U16 - 1 }

  /** One byte changes, and the counter goes up unless it wraps around. */
  lemma AddChSpec(t: Node, b: byte, c: Node)
    requires LocalOk(t) && t.Inner() && !Full(t) && Child(t, b) == Empty && c != Empty
    ensures var r := AddCh(t, b, c);
      && SameHead(t, r) && ChildIs(t, r, b, c)
      && (if Brimful(t) then r.Count() == 0 && !LocalOk(r) else r.Count() == t.Count() + 1 && LocalOk(r))
  {
    HasChildLive(t, b);
    hide LocalOk, Child, InsertAt, Below, Find, FirstEmpty, Put;
    if t.N4? || t.N16? {
      AddChList(t, b, c);
    } else if t.N48? {
      AddCh48(t, b, c);
    } else {
      AddCh256(t, b, c);
    }
  }

  lemma AddChList(t: Node, b: byte, c: Node)
    requires (t.N4? || t.N16?) && LocalOk(t) && !Full(t) && Child(t, b) == Empty && c != Empty
    ensures var r := AddCh(t, b, c);
      LocalOk(r) && ChildIs(t, r, b, c) && r.Count() == t.Count() + 1 && SameHead(t, r)
  {
    ListInsert(t.keys, t.ch, b, c);
  }

  lemma AddCh256(t: Node, b: byte, c: Node)
    requires t.N256? && LocalOk(t) && Child(t, b) == Empty && c != Empty
    ensures var r := AddCh(t, b, c);
      && ChildIs(t, r, b, c) && r.N256? && r.n == (if Brimful(t) then 0 else t.n + 1)
      && (Brimful(t) <==> !LocalOk(r))
  {
    var r := AddCh(t, b, c);
    LiveAdd(t, r, b, 256);
  }

  lemma SlotAdd(idx: seq<byte>, ch: seq<Node>, b: byte, s: nat, c: Node)
    requires |idx| == 256 && |ch| == 48 && SlotsOk(idx, ch)
    requires idx[b] == NIL && s < 48 && ch[s] == Empty && c != Empty
    ensures SlotsOk(idx[b := s], ch[s := c])
    ensures forall x: byte :: SlotLookup(idx[b := s], ch[s := c], x) == if x == b then c else SlotLookup(idx, ch, x)
  {
    forall x: byte ensures SlotLookup(idx[b := s], ch[s := c], x) == if x == b then c else SlotLookup(idx, ch, x) {
      assert idx[x] == NIL || idx[x] < 48;
    }
  }

  lemma AddCh48(t: Node, b: byte, c: Node)
    requires t.N48? && LocalOk(t) && !Full(t) && Child(t, b) == Empty && c != Empty
    ensures var r := AddCh(t, b, c); LocalOk(r) && ChildIs(t, r, b, c) && r.Count() == t.Count() + 1
  {
    var s := FirstEmpty(t.ch);
    OccupiedFull(t.ch);
    SlotAdd(t.idx, t.ch, b, s, c);
    OccupiedPut(t.ch, s, c);
    assert ChildIs(t, AddCh(t, b, c), b, c);
    LiveAdd(t, AddCh(t, b, c), b, 256);
  }

  /** Every child after the step is the new one or one from before. */
  lemma AddChKids(t: Node, b: byte, c: Node, i: nat)
    requires t.Inner() && AddCh(t, b, c).Inner() && i < |AddCh(t, b, c).ch|
    ensures AddCh(t, b, c).ch[i] == c || AddCh(t, b, c).ch[i] in t.ch
  {}

  // ── Replacing a child ────────────────────────────────────────────────

  lemma SetChSpec(t: Node, b: byte, c: Node)
    requires LocalOk(t) && t.Inner() && Child(t, b) != Empty && c != Empty
    ensures var r := SetCh(t, b, c);
      SameHead(t, r) && LocalOk(r) && ChildIs(t, r, b, c) && r.Count() == t.Count()
  {
    HasChildLive(t, b);
    var r := SetCh(t, b, c);
    if t.N4? || t.N16? {
      forall x: byte ensures Child(r, x) == (if x == b then c else Child(t, x)) { LookupPut(t.keys, t.ch, b, c, x); }
    } else if t.N48? {
      SlotSet(t.idx, t.ch, b, c);
      OccupiedPut(t.ch, t.idx[b], c);
      LiveSame(t, r, 256);
    } else {
      LiveSame(t, r, 256);
    }
  }

  lemma SlotSet(idx: seq<byte>, ch: seq<Node>, b: byte, c: Node)
    requires |idx| == 256 && |ch| == 48 && SlotsOk(idx, ch) && idx[b] != NIL && c != Empty
    ensures SlotsOk(idx, ch[idx[b] := c])
    ensures forall x: byte :: SlotLookup(idx, ch[idx[b] := c], x) == if x == b then c else SlotLookup(idx, ch, x)
  {
    forall x: byte ensures SlotLookup(idx, ch[idx[b] := c], x) == if x == b then c else SlotLookup(idx, ch, x) {
      assert idx[x] == NIL || idx[x] < 48;
    }
  }

  lemma SetChKids(t: Node, b: byte, c: Node, i: nat)
    requires t.Inner() && i < |SetCh(t, b, c).ch|
    ensures SetCh(t, b, c).ch[i] == c || SetCh(t, b, c).ch[i] in t.ch
  {}

  // ── Dropping a child ─────────────────────────────────────────────────

  /** What removal does when the subtree under `b` has become empty. */
  function ClearCh(t: Node, b: byte): Node { DelCh(SetCh(t, b, Empty), b) }

  /** The child goes; the counter goes down, except on a Node256, whose cell
      is already empty when the count would be taken. */
  lemma ClearChSpec(t: Node, b: byte)
    requires LocalOk(t) && t.Inner() && Child(t, b) != Empty
    ensures Child(SetCh(t, b, Empty), b) == Empty
    ensures var r := ClearCh(t, b);
      && SameHead(t, r) && LocalOk(r) && ChildIs(t, r, b, Empty)
      && r.Count() == (if t.N256? then t.Count() else t.Count() - 1)
  {
    HasChildLive(t, b);
    if t.N4? || t.N16? {
      ClearChList(t, b);
    } else if t.N48? {
      ClearCh48(t, b);
    } else {
      LiveAdd(ClearCh(t, b), t, b, 256);
    }
  }

  lemma ClearChList(t: Node, b: byte)
    requires LocalOk(t) && (t.N4? || t.N16?) && Find(t.keys, b) < |t.keys|
    ensures Child(SetCh(t, b, Empty), b) == Empty
    ensures var r := ClearCh(t, b);
      && r.Inner() && r.keys == RemoveAt(t.keys, Find(t.keys, b)) && r.ch == RemoveAt(t.ch, Find(t.keys, b))
      && LocalOk(r) && ChildIs(t, r, b, Empty)
  {
    assert ClearCh(t, b).ch == RemoveAt(t.ch, Find(t.keys, b));
    ListRemove(t.keys, t.ch, b);
  }

  lemma ClearCh48(t: Node, b: byte)
    requires t.N48? && LocalOk(t) && Child(t, b) != Empty
    ensures t.n > 0
    ensures var r := ClearCh(t, b);
      && r == N48(t.prefix, t.hasEnd, t.n - 1, t.idx[b := NIL], t.ch[t.idx[b] := Empty])
      && LocalOk(r) && ChildIs(t, r, b, Empty)
  {
    SlotClear(t.idx, t.ch, b);
    OccupiedPut(t.ch, t.idx[b], Empty);
    var r := N48(t.prefix, t.hasEnd, t.n - 1, t.idx[b := NIL], t.ch[t.idx[b] := Empty]);
    LiveAdd(r, t, b, 256);
    assert ClearCh(t, b).ch == r.ch;
  }

  lemma SlotClear(idx: seq<byte>, ch: seq<Node>, b: byte)
    requires |idx| == 256 && |ch| == 48 && SlotsOk(idx, ch) && idx[b] != NIL
    ensures SlotsOk(idx[b := NIL], ch[idx[b] := Empty])
    ensures forall x: byte :: SlotLookup(idx[b := NIL], ch[idx[b] := Empty], x) == if x == b then Empty else SlotLookup(idx, ch, x)
  {
    forall x: byte ensures SlotLookup(idx[b := NIL], ch[idx[b] := Empty], x) == if x == b then Empty else SlotLookup(idx, ch, x) {
      assert idx[x] == NIL || idx[x] < 48;
    }
  }

  lemma ClearChKids(t: Node, b: byte, i: nat)
    requires t.Inner() && ClearCh(t, b).Inner() && i < |ClearCh(t, b).ch|
    ensures ClearCh(t, b).ch[i] == Empty || ClearCh(t, b).ch[i] in t.ch
  {}

  /** Distinct bytes own distinct occupied slots. */
  lemma {:induction false} LiveAtMostOccupied(t: Node, hi: nat)
    requires t.N48? && |t.idx| == 256 && |t.ch| == 48 && SlotsOk(t.idx, t.ch) && hi <= 256
    ensures |LiveUpTo(t, hi)| <= Occupied(t.ch)
    decreases hi
  {
    if hi != 0 {
      var b: byte := hi - 1;
      if t.idx[b] == NIL {
        LiveAtMostOccupied(t, hi - 1);
      } else {
        var r := t.(idx := t.idx[b := NIL], ch := t.ch[t.idx[b] := Empty]);
        SlotClear(t.idx, t.ch, b);
        OccupiedPut(t.ch, t.idx[b], Empty);
        LiveAtMostOccupied(r, hi - 1);
        LiveSame(t, r, hi - 1);
      }
    }
  }

  /** An occupied slot without a byte makes the occupied slots too many. */
  lemma Unowned(t: Node, s: nat)
    requires t.N48? && |t.idx| == 256 && |t.ch| == 48 && SlotsOk(t.idx, t.ch) && s < 48 && t.ch[s] != Empty
    requires forall x: byte :: t.idx[x] != s
    ensures |Live(t)| < Occupied(t.ch)
  {
    var r := N48(t.prefix, t.hasEnd, t.n, t.idx, t.ch[s := Empty]);
    forall x: byte ensures Child(r, x) == Child(t, x) {}
    LiveSame(t, r, 256);
    OccupiedPut(t.ch, s, Empty);
    LiveAtMostOccupied(r, 256);
  }

  // ── Growing ──────────────────────────────────────────────────────────

  /** Node16 to Node48, and Node256 to Node48: number the live children in
      byte order. The result is in order when the counter is their number. */
  lemma SlotIndexSpec(p: Key, e: bool, n: nat, keys: Key, ch: seq<Node>)
    requires |keys| == |ch| <= 48 && Ascending(keys) && NoEmpty(ch)
    ensures var r := N48(p, e, n, SlotIndex(keys), Pad(ch, 48));
      (n == |keys| ==> LocalOk(r)) && forall x: byte :: Child(r, x) == Lookup(keys, ch, x)
  {
    var r := N48(p, e, n, SlotIndex(keys), Pad(ch, 48));
    forall x: byte ensures Child(r, x) == Lookup(keys, ch, x) {
      LastIsFirst(keys, x);
    }
    SlotIndexLive(r, keys, ch);
    if n == |keys| {
      SlotIndexOk(keys, ch);
      hide SlotIndex, Pad, Child, Live;
    }
  }

  lemma SlotIndexOk(keys: Key, ch: seq<Node>)
    requires |keys| == |ch| <= 48 && Ascending(keys) && NoEmpty(ch)
    ensures SlotsOk(SlotIndex(keys), Pad(ch, 48)) && Occupied(Pad(ch, 48)) == |keys|
  {
    OccupiedPad(ch, 48);
    SlotIndexInjective(keys);
  }

  /** In an ascending list nothing occurs twice. */
  lemma LastIsFirst(keys: Key, b: byte)
    requires Ascending(keys)
    ensures Last(keys, b) == Find(keys, b)
  {}

  lemma SlotIndexInjective(keys: Key)
    ensures forall b: byte, c: byte :: SlotIndex(keys)[b] == SlotIndex(keys)[c] != NIL ==> b == c
  {
    forall b: byte, c: byte | SlotIndex(keys)[b] == SlotIndex(keys)[c] != NIL ensures b == c {
      assert keys[Last(keys, b)] == b && keys[Last(keys, c)] == c;
    }
  }

  lemma SlotIndexLive(r: Node, keys: Key, ch: seq<Node>)
    requires |keys| == |ch| && Ascending(keys) && NoEmpty(ch)
    requires forall x: byte :: Child(r, x) == Lookup(keys, ch, x)
    ensures Live(r) == keys
  {
    LiveMember(r, 256);
    forall x: byte ensures x in Live(r) <==> x in keys {
      var i := Find(keys, x);
      assert i < |keys| ==> ch[i] != Empty;
    }
    AscendingEqual(Live(r), keys);
  }

  /** Where every slot has one owner, only the child under 0xFF is dropped. */
  lemma WidenIs(t: Node)
    requires t.N48? && |t.idx| == 256 && |t.ch| == 48 && SlotsOk(t.idx, t.ch)
    ensures forall b: byte :: Child(Widen48(t), b) == if b == NIL then Empty else Child(t, b)
  {
    forall b: byte ensures Child(Widen48(t), b) == if b == NIL then Empty else Child(t, b) {
      if t.idx[b] == NIL {
        assert Child(t, b) == Empty;
      } else {
        assert forall c: byte :: b < c ==> t.idx[c] != t.idx[b];
      }
    }
  }

  lemma {:induction false} RefsLive(t: Node, hi: nat)
    requires t.N48? && |t.idx| == 256 && |t.ch| == 48 && SlotsOk(t.idx, t.ch) && hi <= 256
    ensures RefsUpTo(t.idx, hi) == LiveUpTo(t, hi)
  {
    if hi != 0 {
      RefsLive(t, hi - 1);
      var b: byte := hi - 1;
      assert t.idx[b] != NIL <==> Child(t, b) != Empty;
    }
  }

  /** A Node48 in order becomes the Node16 over its live bytes. */
  lemma NarrowIs(t: Node)
    requires t.N48? && LocalOk(t)
    ensures Narrow48(t) == N16(t.prefix, t.hasEnd, Live(t), Kids(t, Live(t)))
  {
    RefsLive(t, 256);
    LiveMember(t, 256);
    var l, r := Live(t), Narrow48(t);
    forall i | 0 <= i < |l| ensures r.ch[i] == Child(t, l[i]) {
      assert l[i] in l;
      assert t.idx[l[i]] != NIL;
      assert FirstOwner(t.idx, l[i]) by {
        forall c | 0 <= c < l[i] ensures t.idx[c] != t.idx[l[i]] { var x: byte := c; }
      }
    }
    assert r.keys == l;
    assert r.ch == Kids(t, l);
  }

  /** Growing leaves room and keeps every child, except that a full Node48
      loses the child under byte 0xFF. */
  lemma GrowSpec(t: Node)
    requires LocalOk(t) && t.Inner()
    ensures var r := Grow(t);
      && SameHead(t, r) && LocalOk(r) && !Full(r) && r.Count() == t.Count()
      && (if t.N48? && t.n == 48 then ChildIs(t, r, NIL, Empty) else SameChildren(t, r))
  {
    var r := Grow(t);
    match t {
      case N4(_, _, ks, ch) =>
      case N16(p, e, ks, ch) =>
        if |ks| == 16 {
          SlotIndexSpec(p, e, 16, ks, ch);
        }
      case N48(_, _, m, _, _) =>
        if m == 48 {
          WidenIs(t);
          if Child(t, NIL) == Empty { LiveSame(t, r, 256); } else { LiveAdd(r, t, NIL, 256); }
        }
      case N256(_, _, _, _) =>
    }
  }

  lemma GrowKids(t: Node, i: nat)
    requires t.Inner() && i < |Grow(t).ch|
    ensures Grow(t).ch[i] == Empty || Grow(t).ch[i] in t.ch
  {}

  // ── Shrinking ────────────────────────────────────────────────────────

  /** Shrinking a node that stays an inner node of its own (no merge with an
      only child) keeps every child, and order if the counter is exact. */
  lemma ShrinkSpec(t: Node)
    requires LocalOk(t) && t.Inner()
    requires t.Count() != 0 || t.hasEnd
    requires !(t.N4? && |t.keys| == 1 && !t.hasEnd)
    ensures var r := Shrink(t);
      SameHead(t, r) && SameChildren(t, r) && r.Count() == t.Count()
      && ((t.N256? && t.n <= 48 ==> |Live(t)| == t.n) ==> LocalOk(r))
  {
    CountBounds(t);
    if t.N48? && t.n <= 16 {
      NarrowIs(t);
      KidsLookup(t);
    } else if t.N256? && t.n <= 48 {
      KidsLookup(t);
      SlotIndexSpec(t.prefix, t.hasEnd, t.n, Live(t), Kids(t, Live(t)));
    }
  }

  lemma KidsLookup(t: Node)
    ensures Ascending(Live(t)) && NoEmpty(Kids(t, Live(t)))
    ensures forall x: byte :: Lookup(Live(t), Kids(t, Live(t)), x) == Child(t, x)
  {
    LiveMember(t, 256);
    var l := Live(t);
    forall i | 0 <= i < |l| ensures Kids(t, l)[i] != Empty { assert l[i] in l; }
    forall x: byte ensures Lookup(l, Kids(t, l), x) == Child(t, x) {
      if x in l { var i := Find(l, x); }
    }
  }

  lemma ShrinkKids(t: Node, i: nat)
    requires t.Inner() && Shrink(t).Inner() && i < |Shrink(t).ch|
    requires !(t.N4? && |t.keys| == 1 && !t.hasEnd)
    ensures Shrink(t).ch[i] == Empty || Shrink(t).ch[i] in t.ch
  {}
}
