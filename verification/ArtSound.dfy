/** What holds of every tree that insertions, removals and reloads can lead to,
    those that have lost a key or carry a wrong counter included: sizes fit, no
    array is left, and the tree can be written and read again. */
module ArtSound {
  import opened Bytes
  import opened ArtNode
  import opened ArtOps
  import opened ArtSet
  import opened ArtSer

  // ── Slots in use ─────────────────────────────────────────────────────

  /** An occupied slot that no byte refers to. */
  predicate Orphan(idx: seq<byte>, ch: seq<Node>, s: nat) {
    s < |ch| && ch[s] != Empty && s !in idx
  }

  function OrphansUpTo(idx: seq<byte>, ch: seq<Node>, hi: nat): nat {
    if hi == 0 then 0 else OrphansUpTo(idx, ch, hi - 1) + if Orphan(idx, ch, hi - 1) then 1 else 0
  }

  /** Bytes that refer to a slot, and occupied slots that no byte refers to. */
  function Used(idx: seq<byte>, ch: seq<Node>): nat { |Refs(idx)| + OrphansUpTo(idx, ch, |ch|) }

  lemma {:induction false} FewerOrphans(idx: seq<byte>, ch: seq<Node>, idx': seq<byte>, ch': seq<Node>, hi: nat)
    requires forall s: nat :: s < hi && Orphan(idx', ch', s) ==> Orphan(idx, ch, s)
    ensures OrphansUpTo(idx', ch', hi) <= OrphansUpTo(idx, ch, hi)
  {
    if hi != 0 { FewerOrphans(idx, ch, idx', ch', hi - 1); }
  }

  /** At most the slot `x` becomes an orphan. */
  lemma {:induction false} OneOrphan(idx: seq<byte>, ch: seq<Node>, idx': seq<byte>, ch': seq<Node>, x: nat, hi: nat)
    requires forall s: nat :: s < hi && s != x && Orphan(idx', ch', s) ==> Orphan(idx, ch, s)
    ensures OrphansUpTo(idx', ch', hi) <= OrphansUpTo(idx, ch, hi) + if x < hi then 1 else 0
  {
    if hi != 0 { OneOrphan(idx, ch, idx', ch', x, hi - 1); }
  }

  lemma {:induction false} RefsPut(idx: seq<byte>, b: byte, v: byte, hi: nat)
    requires |idx| == 256 && hi <= 256
    ensures |RefsUpTo(idx[b := v], hi)| + (if b < hi && idx[b] != NIL then 1 else 0)
         == |RefsUpTo(idx, hi)| + (if b < hi && v != NIL then 1 else 0)
  {
    if hi != 0 { RefsPut(idx, b, v, hi - 1); }
  }

  lemma {:induction false} NoRefs(idx: seq<byte>, hi: nat)
    requires |idx| == 256 && hi <= 256 && RefsUpTo(idx, hi) == []
    ensures forall b: byte :: b < hi ==> idx[b] == NIL
  {
    if hi != 0 { NoRefs(idx, hi - 1); }
  }

  lemma {:induction false} RefsIn(idx: seq<byte>, hi: nat, b: byte)
    requires |idx| == 256 && hi <= 256
    ensures b in RefsUpTo(idx, hi) <==> b < hi && idx[b] != NIL
  {
    if hi != 0 { RefsIn(idx, hi - 1, b); }
  }

  lemma {:induction false} AllOrphans(idx: seq<byte>, ch: seq<Node>, hi: nat)
    requires hi <= |ch| && forall s: nat :: s < |ch| ==> s !in idx
    ensures OrphansUpTo(idx, ch, hi) == Occupied(ch[..hi])
  {
    if hi != 0 {
      AllOrphans(idx, ch, hi - 1);
      assert ch[..hi][..hi - 1] == ch[..hi - 1];
    }
  }

  lemma StillIn(idx: seq<byte>, b: byte, v: byte, s: nat)
    requires |idx| == 256 && s in idx && s != idx[b]
    ensures s in idx[b := v]
  {
    var c :| 0 <= c < 256 && idx[c] == s;
    assert idx[b := v][c] == s;
  }

  /** A slot that is occupied is in use. */
  lemma {:induction false} OccupiedUsed(idx: seq<byte>, ch: seq<Node>)
    requires |idx| == 256 && |ch| == 48
    ensures Occupied(ch) <= Used(idx, ch)
    decreases |Refs(idx)|
  {
    if Refs(idx) == [] {
      NoRefs(idx, 256);
      AllOrphans(idx, ch, 48);
      assert ch[..48] == ch;
    } else {
      var b := Refs(idx)[0];
      RefsIn(idx, 256, b);
      RefsPut(idx, b, NIL, 256);
      OccupiedUsed(idx[b := NIL], ch);
      forall s: nat | s < 48 && s != idx[b] && Orphan(idx[b := NIL], ch, s) ensures Orphan(idx, ch, s) {
        if s in idx { StillIn(idx, b, NIL, s); }
      }
      OneOrphan(idx, ch, idx[b := NIL], ch, idx[b], 48);
    }
  }

  // ── Sound trees ──────────────────────────────────────────────────────

  /** Slots are in range, and those in use are at most `n`. */
  predicate TableSound(idx: seq<byte>, ch: seq<Node>, n: nat) {
    && |idx| == 256 && |ch| == 48
    && (forall b :: 0 <= b < 256 ==> idx[b] == NIL || idx[b] < 48)
    && Used(idx, ch) <= n <= 48
  }

  predicate LocalSound(t: Node) {
    match t
    case N4(_, _, ks, ch) => |ks| == |ch| <= 4
    case N16(_, _, ks, ch) => |ks| == |ch| <= 16
    case N48(_, _, n, idx, ch) => TableSound(idx, ch, n)
    case N256(_, _, n, ch) => |ch| == 256 && |Live(t)| <= n < U16
    case _ => true
  }

  /** Every node fits its arrays and no path is longer than `m` bytes. */
  ghost predicate Sound(t: Node, m: int)
    decreases t
  {
    match t
    case Empty => true
    case Leaf(s) => |s| <= m
    case _ => LocalSound(t) && |t.prefix| <= m && forall i :: 0 <= i < |t.ch| ==> Sound(t.ch[i], m - |t.prefix| - 1)
  }

  /** Every node fits its arrays. */
  ghost predicate Sturdy(t: Node)
    decreases t
  {
    LocalSound(t) && (t.Inner() ==> forall i :: 0 <= i < |t.ch| ==> Sturdy(t.ch[i]))
  }

  lemma {:induction false} SoundSturdy(t: Node, m: int)
    requires Sound(t, m)
    ensures Sturdy(t)
    decreases t
  {
    if t.Inner() {
      forall i | 0 <= i < |t.ch| ensures Sturdy(t.ch[i]) { SoundSturdy(t.ch[i], m - |t.prefix| - 1); }
    }
  }

  lemma SturdyChild(t: Node, b: byte)
    requires Sturdy(t)
    ensures LocalSound(t) && Sturdy(Child(t, b))
  {}

  /** A Node48 in order uses as many slots as it has children. */
  lemma TableOk(t: Node)
    requires t.N48? && LocalOk(t)
    ensures TableSound(t.idx, t.ch, t.n)
  {
    RefsLive(t, 256);
    forall s: nat | s < 48 && Orphan(t.idx, t.ch, s) ensures false {
      forall x: byte ensures t.idx[x] != s {}
      Unowned(t, s);
    }
    NoOrphans(t.idx, t.ch, 48);
    assert forall b: byte :: t.idx[b] == NIL || t.idx[b] < 48;
  }

  lemma {:induction false} NoOrphans(idx: seq<byte>, ch: seq<Node>, hi: nat)
    requires forall s: nat :: s < hi ==> !Orphan(idx, ch, s)
    ensures OrphansUpTo(idx, ch, hi) == 0
  {
    if hi != 0 { NoOrphans(idx, ch, hi - 1); }
  }

  /** Trees in order are among them. */
  lemma {:induction false} OkSturdy(t: Node)
    requires Ok(t)
    ensures Sturdy(t)
    decreases t
  {
    if t.N48? { TableOk(t); CountBounds(t); }
    if t.Inner() {
      forall i | 0 <= i < |t.ch| ensures Sturdy(t.ch[i]) { OkSturdy(t.ch[i]); }
    }
  }

  /** Every Node256 counter is far from its limit, as it is after reading. */
  ghost predicate Roomy(t: Node)
    decreases t
  {
    (t.N256? ==> t.n <= 256) && (t.Inner() ==> forall i :: 0 <= i < |t.ch| ==> Roomy(t.ch[i]))
  }

  lemma RoomyChild(t: Node, b: byte)
    requires Roomy(t)
    ensures Roomy(Child(t, b))
  {}

  lemma {:induction false} RoomyFits(t: Node, k: Key)
    requires Roomy(t)
    ensures !Overflows(t, k)
    decreases |k|
  {
    if t.Inner() && t.prefix <= k && |t.prefix| < |k| {
      RoomyChild(t, k[|t.prefix|]);
      RoomyFits(Child(t, k[|t.prefix|]), k[|t.prefix|..][1..]);
    }
  }

  /** Whatever bytes are read: the counters are taken afresh. */
  lemma {:induction false} ReadRoomy(data: Key, pos: nat)
    requires DeNode(data, pos).Got?
    ensures Roomy(DeNode(data, pos).value)
    decreases |data| - pos, 3
  {
    hide DePfx, FromBigEndian, Pad, Occupied;
    var tag := data[pos];
    if tag == TAG_N4 || tag == TAG_N16 {
      var q := DePfx(data, pos + 1).next;
      PairsRoomy(data, q + 1, data[q]);
    } else if tag == TAG_N48 {
      var q := DePfx(data, pos + 1).next;
      KidsRoomy(data, q + 257, if data[q] <= 48 then data[q] else 48);
      PadRoomy(DeKids(data, q + 257, if data[q] <= 48 then data[q] else 48).value);
    } else if tag == TAG_N256 {
      KidsRoomy(data, DePfx(data, pos + 1).next, 256);
      FewOccupied(DeKids(data, DePfx(data, pos + 1).next, 256).value);
    }
  }

  lemma FewOccupied(ch: seq<Node>)
    ensures Occupied(ch) <= |ch|
  {}

  lemma PadRoomy(ch: seq<Node>)
    requires forall i :: 0 <= i < |ch| ==> Roomy(ch[i])
    ensures forall i :: 0 <= i < 48 ==> Roomy(Pad(ch, 48)[i])
  {}

  lemma {:induction false} PairsRoomy(data: Key, pos: nat, n: nat)
    requires DePairs(data, pos, n).Got?
    ensures forall i :: 0 <= i < n ==> Roomy(DePairs(data, pos, n).value.1[i])
    decreases |data| - pos, 4 + n
  {
    hide DeNode, Roomy;
    if n != 0 {
      ReadRoomy(data, pos + 1);
      PairsRoomy(data, DeNode(data, pos + 1).next, n - 1);
    }
  }

  lemma {:induction false} KidsRoomy(data: Key, pos: nat, n: nat)
    requires DeKids(data, pos, n).Got?
    ensures forall i :: 0 <= i < n ==> Roomy(DeKids(data, pos, n).value[i])
    decreases |data| - pos, 4 + n
  {
    hide DeNode, Roomy;
    if n != 0 {
      ReadRoomy(data, pos);
      KidsRoomy(data, DeNode(data, pos).next, n - 1);
    }
  }

  /** So a stored tree never overflows a counter. */
  lemma StoredRoom(data: Key, k: Key)
    requires FromBytes(data).Some?
    ensures Roomy(FromBytes(data).value.root) && !Overflows(FromBytes(data).value.root, k)
  {
    ReadRoomy(data, 4);
    RoomyFits(FromBytes(data).value.root, k);
  }

  lemma {:induction false} ReloadRoomy(t: Node)
    requires Fits(t)
    ensures Roomy(Reload(t))
    decreases t
  {
    if t.Inner() {
      var r := Reload(t);
      forall i | 0 <= i < |r.ch| ensures Roomy(r.ch[i]) { ReloadRoomy(t.ch[i]); }
    }
  }

  lemma {:induction false} SoundMore(t: Node, m: int, n: int)
    requires Sound(t, m) && m <= n
    ensures Sound(t, n)
    decreases t
  {
    if t.Inner() {
      forall i | 0 <= i < |t.ch| ensures Sound(t.ch[i], n - |t.prefix| - 1) {
        SoundMore(t.ch[i], m - |t.prefix| - 1, n - |t.prefix| - 1);
      }
    }
  }

  /** A sound tree with paths up to 255 bytes can be written and read again. */
  lemma {:induction false} SoundFits(t: Node)
    requires Sound(t, 255)
    ensures Fits(t)
    decreases t
  {
    if t.Inner() {
      forall i | 0 <= i < |t.ch| ensures Fits(t.ch[i]) {
        SoundMore(t.ch[i], 255 - |t.prefix| - 1, 255);
        SoundFits(t.ch[i]);
      }
    }
  }

  lemma {:induction false} SoundWritable(t: Node)
    requires Sound(t, 255)
    ensures Writable(t)
    decreases t
  {
    if t.Inner() {
      forall i | 0 <= i < |t.ch| ensures Writable(t.ch[i]) {
        SoundMore(t.ch[i], 255 - |t.prefix| - 1, 255);
        SoundWritable(t.ch[i]);
      }
    }
  }

  /** No step of the code leaves an array or takes a counter below zero: after
      growing there is room for one more, and a byte that leads somewhere is
      counted. */
  lemma SoundRoom(t: Node, b: byte)
    requires t.Inner() && LocalSound(t)
    ensures !Full(Grow(t)) && (Grow(t).N48? ==> FirstEmpty(Grow(t).ch) < 48)
    ensures HasChild(t, b) && !t.N256? ==> t.Count() > 0
    ensures t.N48? ==> |Refs(t.idx)| <= t.n
  {
    GrowLocal(t);
    var g := Grow(t);
    if g.N48? {
      OccupiedUsed(g.idx, g.ch);
      OccupiedFull(g.ch);
    }
    if t.N48? && b < |t.idx| && t.idx[b] != NIL { RefsIn(t.idx, 256, b); }
  }

  // ── One node at a time ───────────────────────────────────────────────

  lemma {:induction false} UsedNone(idx: seq<byte>, ch: seq<Node>, hi: nat)
    requires hi <= 256 && (forall b :: 0 <= b < |idx| ==> idx[b] == NIL) && (forall s :: 0 <= s < |ch| ==> ch[s] == Empty)
    ensures RefsUpTo(idx, hi) == [] && OrphansUpTo(idx, ch, hi) == 0
  {
    if hi != 0 { UsedNone(idx, ch, hi - 1); }
  }

  /** One more entry uses at most one more slot. */
  lemma UsedWrite(idx: seq<byte>, ch: seq<Node>, b: byte, s: nat, c: Node)
    requires |idx| == 256 && |ch| == 48 && s < 48 && (ch[s] == Empty || s in idx)
    ensures Used(idx[b := s], ch[s := c]) <= Used(idx, ch) + 1
  {
    var idx', ch' := idx[b := s], ch[s := c];
    assert idx'[b] == s;
    RefsPut(idx, b, s, 256);
    forall r: nat | r < 48 && r != idx[b] && Orphan(idx', ch', r) ensures Orphan(idx, ch, r) {
      if r in idx { StillIn(idx, b, s, r); }
    }
    if idx[b] == NIL {
      forall r: nat | r < 48 && Orphan(idx', ch', r) ensures Orphan(idx, ch, r) {}
      FewerOrphans(idx, ch, idx', ch', 48);
    } else {
      OneOrphan(idx, ch, idx', ch', idx[b], 48);
    }
  }

  /** Numbering `keys` uses at most one slot per entry. */
  lemma {:induction false} UsedIndex(keys: Key, ch: seq<Node>)
    requires |keys| == |ch| <= 48
    ensures TableSound(SlotIndex(keys), Pad(ch, 48), |keys|)
  {
    var idx, p := SlotIndex(keys), Pad(ch, 48);
    if keys == [] {
      UsedNone(idx, p, 256);
      UsedNone(idx, p, 48);
    } else {
      var n := |keys| - 1;
      UsedIndex(keys[..n], ch[..n]);
      IndexStep(keys);
      assert p == Pad(ch[..n], 48)[n := ch[n]];
      UsedWrite(SlotIndex(keys[..n]), Pad(ch[..n], 48), keys[n], n, ch[n]);
    }
  }

  lemma IndexStep(keys: Key)
    requires 0 < |keys| <= 48
    ensures SlotIndex(keys) == SlotIndex(keys[..|keys| - 1])[keys[|keys| - 1] := |keys| - 1]
  {
    var n := |keys| - 1;
    forall b: byte ensures SlotIndex(keys)[b] == SlotIndex(keys[..n])[keys[n] := n][b] {}
    assert forall b :: 0 <= b < 256 ==> SlotIndex(keys)[b] == SlotIndex(keys[..n])[keys[n] := n][b];
  }

  /** Every live byte of a widened Node48 refers to a slot. */
  lemma {:induction false} WidenLive(t: Node, hi: nat)
    requires t.N48? && |t.idx| == 256 && |t.ch| == 48 && hi <= 256
    ensures |LiveUpTo(Widen48(t), hi)| <= |RefsUpTo(t.idx, hi)|
  {
    if hi != 0 {
      WidenLive(t, hi - 1);
      var b: byte := hi - 1;
      assert Child(Widen48(t), b) != Empty ==> t.idx[b] != NIL;
    }
  }

  lemma GrowLocal(t: Node)
    requires t.Inner() && LocalSound(t)
    ensures LocalSound(Grow(t)) && SameHead(t, Grow(t)) && !Full(Grow(t))
  {
    if t.N16? && |t.keys| == 16 { UsedIndex(t.keys, t.ch); }
    if t.N48? && t.n == 48 { WidenLive(t, 256); }
  }

  lemma AddLocal(t: Node, b: byte, c: Node)
    requires t.Inner() && LocalSound(t) && !Full(t) && !Brimful(t) && !HasChild(t, b)
    ensures LocalSound(AddCh(t, b, c)) && SameHead(t, AddCh(t, b, c))
  {
    if t.N48? {
      OccupiedUsed(t.idx, t.ch);
      OccupiedFull(t.ch);
      UsedWrite(t.idx, t.ch, b, FirstEmpty(t.ch), c);
    } else if t.N256? {
      var r := AddCh(t, b, c);
      if c == Empty { LiveSame(t, r, 256); } else { LiveAdd(t, r, b, 256); }
    }
  }

  lemma SetLocal(t: Node, b: byte, c: Node)
    requires t.Inner() && LocalSound(t) && HasChild(t, b)
    ensures LocalSound(SetCh(t, b, c)) && SameHead(t, SetCh(t, b, c))
  {
    var r := SetCh(t, b, c);
    if t.N48? {
      assert t.idx[b] in t.idx;
      FewerOrphans(t.idx, t.ch, r.idx, r.ch, 48);
    } else if t.N256? {
      if c == Empty { LiveAdd(r, t, b, 256); } else { LiveSame(t, r, 256); }
    }
  }

  lemma DelLocal(t: Node, b: byte)
    requires t.Inner() && LocalSound(t)
    ensures LocalSound(DelCh(t, b)) && SameHead(t, DelCh(t, b))
  {
    var r := DelCh(t, b);
    if t.N48? && t.idx[b] != NIL {
      var s := t.idx[b];
      RefsPut(t.idx, b, NIL, 256);
      RefsIn(t.idx, 256, b);
      forall x: nat | x < 48 && Orphan(r.idx, r.ch, x) ensures Orphan(t.idx, t.ch, x) {
        if x in t.idx && x != s { StillIn(t.idx, b, NIL, x); }
      }
      FewerOrphans(t.idx, t.ch, r.idx, r.ch, 48);
    } else if t.N256? && t.ch[b] != Empty {
      LiveAdd(r, t, b, 256);
    }
  }

  /** A node that shrinks in place. */
  lemma ShrinkLocal(t: Node)
    requires t.Inner() && LocalSound(t) && (t.Count() != 0 || t.hasEnd) && !(t.N4? && |t.keys| == 1 && !t.hasEnd)
    ensures LocalSound(Shrink(t)) && SameHead(t, Shrink(t))
  {
    if t.N256? && t.n <= 48 {
      var live := Live(t);
      UsedIndex(live, Kids(t, live));
    }
  }

  lemma ReloadSoundHere(t: Node)
    requires t.Inner() && LocalSound(t)
    ensures LocalSound(Reload(t)) && SameHead(t, Reload(t)) && |Reload(t).ch| == |t.ch|
    ensures forall i :: 0 <= i < |t.ch| ==> Reload(t).ch[i] == Empty || Reload(t).ch[i] == Reload(t.ch[i])
  {
    var r := Reload(t);
    if t.N48? {
      forall s: nat | s < 48 && Orphan(r.idx, r.ch, s) ensures Orphan(t.idx, t.ch, s) {}
      FewerOrphans(t.idx, t.ch, r.idx, r.ch, 48);
    } else if t.N256? {
      LiveOccupied(r, 256);
      assert r.ch[..256] == r.ch;
    }
  }

  /** In a Node256 the occupied cells are the live bytes. */
  lemma {:induction false} LiveOccupied(t: Node, hi: nat)
    requires t.N256? && |t.ch| == 256 && hi <= 256
    ensures |LiveUpTo(t, hi)| == Occupied(t.ch[..hi])
  {
    if hi != 0 {
      LiveOccupied(t, hi - 1);
      assert t.ch[..hi][..hi - 1] == t.ch[..hi - 1];
    }
  }

  // ── Whole trees ──────────────────────────────────────────────────────

  lemma SoundLift(t: Node, r: Node, c: Node, m: int)
    requires t.Inner() && r.Inner() && r.prefix == t.prefix && |t.prefix| <= m && LocalSound(r)
    requires (forall i :: 0 <= i < |t.ch| ==> Sound(t.ch[i], m - |t.prefix| - 1)) && Sound(c, m - |t.prefix| - 1)
    requires forall i :: 0 <= i < |r.ch| ==> r.ch[i] == c || r.ch[i] == Empty || r.ch[i] in t.ch
    ensures Sound(r, m)
  {
    forall i | 0 <= i < |r.ch| ensures Sound(r.ch[i], m - |r.prefix| - 1) {
      if r.ch[i] in t.ch { var j :| 0 <= j < |t.ch| && t.ch[j] == r.ch[i]; }
    }
  }

  lemma SoundParts(t: Node, m: int)
    requires Sound(t, m) && t.Inner()
    ensures LocalSound(t) && |t.prefix| <= m && forall i :: 0 <= i < |t.ch| ==> Sound(t.ch[i], m - |t.prefix| - 1)
  {}

  lemma SoundChild(t: Node, m: int, b: byte)
    requires Sound(t, m) && t.Inner()
    ensures Sound(Child(t, b), m - |t.prefix| - 1)
  {}

  lemma AddSound(t: Node, b: byte, c: Node, m: int)
    requires Sound(t, m) && t.Inner() && !Full(t) && !Brimful(t) && !HasChild(t, b) && Sound(c, m - |t.prefix| - 1)
    ensures Sound(AddCh(t, b, c), m)
  {
    SoundParts(t, m);
    AddLocal(t, b, c);
    var r := AddCh(t, b, c);
    forall i | 0 <= i < |r.ch| ensures r.ch[i] == c || r.ch[i] in t.ch { AddChKids(t, b, c, i); }
    hide *;
    SoundLift(t, r, c, m);
  }

  lemma GrowSound(t: Node, m: int)
    requires Sound(t, m) && t.Inner()
    ensures Sound(Grow(t), m) && Grow(t).Inner() && Grow(t).prefix == t.prefix && !Full(Grow(t))
  {
    SoundParts(t, m);
    GrowLocal(t);
    var r := Grow(t);
    forall i | 0 <= i < |r.ch| ensures r.ch[i] == Empty || r.ch[i] in t.ch { GrowKids(t, i); }
    SoundLift(t, r, Empty, m);
  }

  lemma GrowAbsent(t: Node, b: byte)
    requires t.Inner() && LocalSound(t) && !HasChild(t, b)
    ensures !HasChild(Grow(t), b)
  {
    if t.N16? && |t.keys| == 16 { assert Last(t.keys, b) == 16; }
  }

  /** Growing and adding keeps every array and counter in its range if and only if
      the counter of a Node256 is not at its limit. */
  lemma AddRoomExact(t: Node, b: byte, c: Node)
    requires t.Inner() && LocalSound(t) && !HasChild(t, b) && c != Empty
    ensures LocalSound(AddCh(Grow(t), b, c)) <==> !Brimful(t)
  {
    var g := Grow(t);
    GrowLocal(t);
    GrowAbsent(t, b);
    assert Brimful(g) <==> Brimful(t);
    if Brimful(g) { AddCh256(g, b, c); } else { AddLocal(g, b, c); }
  }

  lemma SetSound(t: Node, b: byte, c: Node, m: int)
    requires Sound(t, m) && t.Inner() && HasChild(t, b) && Sound(c, m - |t.prefix| - 1)
    ensures Sound(SetCh(t, b, c), m) && SetCh(t, b, c).Inner() && SetCh(t, b, c).prefix == t.prefix
  {
    SoundParts(t, m);
    SetLocal(t, b, c);
    var r := SetCh(t, b, c);
    forall i | 0 <= i < |r.ch| ensures r.ch[i] == c || r.ch[i] in t.ch { SetChKids(t, b, c, i); }
    SoundLift(t, r, c, m);
  }

  lemma DelSound(t: Node, b: byte, m: int)
    requires Sound(t, m) && t.Inner()
    ensures Sound(DelCh(t, b), m) && DelCh(t, b).Inner()
  {
    SoundParts(t, m);
    DelLocal(t, b);
    var r := DelCh(t, b);
    forall i | 0 <= i < |r.ch| ensures r.ch[i] == Empty || r.ch[i] in t.ch {}
    SoundLift(t, r, Empty, m);
  }

  lemma PrefixSound(t: Node, p: Key, m: int, n: int)
    requires Sound(t, m) && t.Inner() && |p| <= n && m - |t.prefix| == n - |p|
    ensures Sound(SetPrefix(t, p), n)
  {
    if t.N256? { LiveSame(t, SetPrefix(t, p), 256); }
  }

  lemma EndSound(t: Node, e: bool, m: int)
    requires Sound(t, m) && t.Inner()
    ensures Sound(SetEnd(t, e), m) && SetEnd(t, e).Inner()
  {
    if t.N256? { LiveSame(t, SetEnd(t, e), 256); }
  }

  lemma PrependSound(p: Key, b: byte, c: Node, m: int)
    requires Sound(c, m - |p| - 1) && |p| <= m
    ensures Sound(Prepend(p, b, c), m)
  {
    if c.Inner() { PrefixSound(c, p + [b] + c.prefix, m - |p| - 1, m); }
  }

  lemma ShrinkSound(t: Node, m: int)
    requires Sound(t, m) && t.Inner()
    ensures Sound(Shrink(t), m)
  {
    SoundParts(t, m);
    if t.Count() == 0 && !t.hasEnd {
    } else if t.N4? && |t.keys| == 1 && !t.hasEnd {
      PrependSound(t.prefix, t.keys[0], t.ch[0], m);
    } else {
      ShrinkLocal(t);
      var r := Shrink(t);
      forall i | 0 <= i < |r.ch| ensures r.ch[i] == Empty || r.ch[i] in t.ch { ShrinkKids(t, i); }
      SoundLift(t, r, Empty, m);
    }
  }

  /** One side of a split. */
  lemma SuffixSound(t: Node, k: Key, j: nat, m: int)
    requires Sound(t, m) && t.N4? && !Full(t) && j == |t.prefix| && |k| <= m && (j < |k| ==> !HasChild(t, k[j]))
    ensures Sound(AddSuffix(t, k, j), m)
  {
    if j < |k| { AddSound(t, k[j], Leaf(k[j + 1..]), m); }
  }

  lemma FirstSuffix(n: Node, s: Key, j: nat)
    requires n.N4? && n.keys == [] && n.ch == [] && j <= |s|
    ensures var r := AddSuffix(n, s, j);
      if j < |s| then r == N4(n.prefix, n.hasEnd, [s[j]], [Leaf(s[j + 1..])]) else r == N4(n.prefix, true, [], [])
  {}

  lemma SplitLeafSound(s: Key, k: Key, m: int)
    requires s != k && |s| <= m && |k| <= m
    ensures Sound(SplitLeaf(s, k), m)
  {
    var c := CommonPrefix(s, k);
    var n0 := N4(s[..c], false, [], []);
    SuffixSound(n0, s, c, m);
    FirstSuffix(n0, s, c);
    var n1 := AddSuffix(n0, s, c);
    assert c < |s| && c < |k| ==> s[c] != k[c] && Find(n1.keys, k[c]) == 1;
    hide AddSuffix;
    SuffixSound(n1, k, c, m);
  }

  lemma SplitPrefixSound(t: Node, k: Key, m: int)
    requires Sound(t, m) && t.Inner() && CommonPrefix(t.prefix, k) < |t.prefix| && |k| <= m
    ensures Sound(SplitPrefix(t, k, CommonPrefix(t.prefix, k)), m)
  {
    var j := CommonPrefix(t.prefix, k);
    var p, b, q := t.prefix[..j], t.prefix[j], t.prefix[j + 1..];
    var c := SetPrefix(t, q);
    PrefixSound(t, q, m, m - j - 1);
    var n0 := N4(p, false, [], []);
    AddSound(n0, b, c, m);
    assert AddCh(n0, b, c) == N4(p, false, [b], [c]);
    SuffixSound(N4(p, false, [b], [c]), k, j, m);
  }

  /** Insertion leads from sound trees to sound trees. */
  lemma {:induction false} InsertSound(t: Node, k: Key, m: int)
    requires Sound(t, m) && |k| <= m && !Overflows(t, k)
    ensures Sound(Insert(t, k).0, m)
    decreases |k|, 1
  {
    if t.Leaf? {
      if t.sfx != k { SplitLeafSound(t.sfx, k, m); }
    } else if t.Inner() {
      var j := CommonPrefix(t.prefix, k);
      if j < |t.prefix| {
        SplitPrefixSound(t, k, m);
      } else if j == |k| {
        EndSound(t, true, m);
      } else {
        InsertBelow(t, k, m);
      }
    }
  }

  lemma {:induction false} InsertBelow(t: Node, k: Key, m: int)
    requires Sound(t, m) && |k| <= m && t.Inner() && CommonPrefix(t.prefix, k) == |t.prefix| < |k| && !Overflows(t, k)
    ensures Sound(Insert(t, k).0, m)
    decreases |k|, 0
  {
    var m0, b, w := m - |t.prefix| - 1, k[|t.prefix|], k[|t.prefix|..][1..];
    OverflowIs(t, k);
    hide *;
    InsertIs(t, k);
    if HasChild(t, b) {
      SoundChild(t, m, b);
      InsertSound(Child(t, b), w, m0);
      SetSound(t, b, Insert(Child(t, b), w).0, m);
    } else {
      NewBranchSound(t, b, w, m);
    }
  }

  lemma NewBranchSound(t: Node, b: byte, w: Key, m: int)
    requires Sound(t, m) && t.Inner() && !HasChild(t, b) && !Brimful(t) && |w| <= m - |t.prefix| - 1
    ensures Sound(AddCh(Grow(t), b, Leaf(w)), m)
  {
    var m0 := m - |t.prefix| - 1;
    hide *;
    SoundParts(t, m);
    GrowSound(t, m);
    GrowAbsent(t, b);
    GrowNotBrimful(t);
    LeafSound(w, m0);
    AddSound(Grow(t), b, Leaf(w), m);
  }

  lemma GrowNotBrimful(t: Node)
    requires t.Inner() && LocalSound(t) && !Brimful(t)
    ensures !Brimful(Grow(t))
  {}

  lemma OverflowIs(t: Node, k: Key)
    requires t.Inner() && CommonPrefix(t.prefix, k) == |t.prefix| < |k| && !Overflows(t, k)
    ensures var b, w := k[|t.prefix|], k[|t.prefix|..][1..];
      if HasChild(t, b) then !Overflows(Child(t, b), w) else !Brimful(t)
  {
    PrefixMatch(t.prefix, k);
  }

  lemma InsertIs(t: Node, k: Key)
    requires t.Inner() && CommonPrefix(t.prefix, k) == |t.prefix| < |k|
    ensures var b, w := k[|t.prefix|], k[|t.prefix|..][1..];
      Insert(t, k).0 == if HasChild(t, b) then SetCh(t, b, Insert(Child(t, b), w).0) else AddCh(Grow(t), b, Leaf(w))
  {
    hide SetCh, AddCh, Grow, HasChild, Child;
  }

  lemma LeafSound(w: Key, m: int)
    requires |w| <= m
    ensures Sound(Leaf(w), m)
  {}

  /** Removal leads from sound trees to sound trees. */
  lemma {:induction false} RemoveSound(t: Node, k: Key, m: int)
    requires Sound(t, m)
    ensures Sound(Remove(t, k).0, m)
    decreases |k|
  {
    if t.Inner() {
      var j := CommonPrefix(t.prefix, k);
      if j == |t.prefix| && j == |k| {
        EndSound(t, false, m);
        ShrinkSound(SetEnd(t, false), m);
      } else if j == |t.prefix| {
        var b, w := k[j], k[j..][1..];
        if HasChild(t, b) {
          SoundChild(t, m, b);
          RemoveSound(Child(t, b), w, m - j - 1);
          var t1 := SetCh(t, b, Remove(Child(t, b), w).0);
          SetSound(t, b, Remove(Child(t, b), w).0, m);
          DelSound(t1, b, m);
          ShrinkSound(DelCh(t1, b), m);
        }
      }
    }
  }

  /** So does writing a tree and reading it back. */
  lemma {:induction false} ReloadSound(t: Node, m: int)
    requires Sound(t, m)
    ensures Sound(Reload(t), m)
    decreases t
  {
    if t.Inner() {
      SoundParts(t, m);
      ReloadSoundHere(t);
      var r := Reload(t);
      forall i | 0 <= i < |r.ch| ensures Sound(r.ch[i], m - |r.prefix| - 1) { ReloadSound(t.ch[i], m - |t.prefix| - 1); }
    }
  }
}
