/** The six conversions between node sizes: a new node is filled from the cells
    of the old one, and the children change hands. */
module ArtResize {
  import opened Bytes
  import opened ArtNode
  import opened ArtOps
  import opened ArtSound
  import opened ArtHeap

  /** The children of `o`, rearranged by `src`, now belong to `s`. */
  lemma Rehoused(o: Block, t: Node, r: set<object>, s: Block, t': Node, src: seq<int>)
    requires Represents(Box(o), t, r) && Own(s) !! r && Sized(s) && Header(s, t')
    requires s.ch[..] == Pick(o.ch[..], src, Hole) && s.foot == Pick(o.foot, src, {})
    requires Injective(src, |o.foot|) && Padded(t') == Pick(Padded(t), src, Empty)
    ensures Represents(Box(s), t', r + Own(s))
  {
    Unfold(o, t, r);
    hide Represents, Cells, Apart, Pick, Padded, Header, Sized, Injective;
    CellsPick(o.ch[..], Padded(t), o.foot, src);
    ApartPick(Own(o), o.foot, r, Own(s), src);
    Fold(s, t', r + Own(s));
  }

  // ── Between key lists ────────────────────────────────────────────────

  /** The first `n` cells, in place. */
  function Prefix(n: nat, w: nat): (src: seq<int>)
    ensures |src| == w
  {
    seq(w, i requires 0 <= i < w => if i < n then i else -1)
  }

  lemma PrefixPadded(t: Node, n: nat, t': Node)
    requires (t.N4? || t.N16?) && t'.Inner() && |t.ch| <= n <= Cap(KindOf(t)) && |t.ch| <= Cap(KindOf(t'))
    requires t'.ch == t.ch || t'.ch == Pad(t.ch, Cap(KindOf(t')))
    ensures Padded(t') == Pick(Padded(t), Prefix(n, Cap(KindOf(t'))), Empty)
    ensures Injective(Prefix(n, Cap(KindOf(t'))), Cap(KindOf(t)))
  {}

  method CopyKeys(o: Block, s: Block, m: nat)
    requires m <= o.keys.Length && m <= s.keys.Length && s.keys != o.keys
    modifies s.keys
    ensures s.keys[..m] == o.keys[..m]
  {
    for i := 0 to m
      invariant forall j :: 0 <= j < i ==> s.keys[j] == o.keys[j]
    {
      s.keys[i] := o.keys[i];
    }
  }

  /** Move the first `m` children to the same cells of a node without any. */
  method CopyCells(o: Block, s: Block, m: nat)
    requires m <= o.ch.Length && m <= s.ch.Length && s.ch != o.ch && forall j :: 0 <= j < s.ch.Length ==> s.ch[j] == Hole
    modifies s.ch
    ensures s.ch[..] == Pick(o.ch[..], Prefix(m, s.ch.Length), Hole)
  {
    for i := 0 to m
      invariant forall j :: 0 <= j < s.ch.Length ==> s.ch[j] == if j < i then o.ch[j] else Hole
    {
      s.ch[i] := o.ch[i];
    }
  }

  /** `n4_to_n16`. */
  method N4ToN16(o: Block, ghost t: Node, ghost r: set<object>) returns (s: Block)
    requires Represents(Box(o), t, r) && LocalSound(t) && t.N4?
    ensures fresh(Own(s)) && Represents(Box(s), N16(t.prefix, t.hasEnd, t.keys, t.ch), r + Own(s))
  {
    hide *;
    Parts(o, t, r);
    s := new Block(K16, o.prefix, o.hasEnd);
    Sizes(s);
    s.n := o.n;
    CopyKeys(o, s, o.n);
    CopyCells(o, s, 4);
    s.foot := Pick(o.foot, Prefix(4, 16), {});
    ghost var t' := N16(t.prefix, t.hasEnd, t.keys, t.ch);
    ListHeader(s, t');
    PrefixPadded(t, 4, t');
    Caps(t, t');
    Rehoused(o, t, r, s, t', Prefix(4, 16));
  }

  /** `n16_to_n4`: only the first `n` children are taken along. */
  method N16ToN4(o: Block, ghost t: Node, ghost r: set<object>) returns (s: Block)
    requires Represents(Box(o), t, r) && LocalSound(t) && t.N16? && |t.keys| <= 4
    ensures fresh(Own(s)) && Represents(Box(s), N4(t.prefix, t.hasEnd, t.keys, t.ch), r + Own(s))
  {
    hide *;
    Parts(o, t, r);
    s := new Block(K4, o.prefix, o.hasEnd);
    Sizes(s);
    s.n := o.n;
    CopyKeys(o, s, o.n);
    CopyCells(o, s, o.n);
    s.foot := Pick(o.foot, Prefix(s.n, 4), {});
    ghost var t' := N4(t.prefix, t.hasEnd, t.keys, t.ch);
    ListHeader(s, t');
    PrefixPadded(t, s.n, t');
    Caps(t, t');
    Rehoused(o, t, r, s, t', Prefix(s.n, 4));
  }

  // ── Key list to slot table and back ──────────────────────────────────

  /** Give every key the slot with its number, and the child with it. */
  method FillSlots(o: Block, s: Block, m: nat)
    requires m <= o.keys.Length <= o.ch.Length && m <= 48 == s.ch.Length && s.idx.Length == 256
    requires s.ch != o.ch && s.idx != o.keys
    requires (forall b :: 0 <= b < 256 ==> s.idx[b] == NIL) && (forall j :: 0 <= j < 48 ==> s.ch[j] == Hole)
    modifies s.idx, s.ch
    ensures s.idx[..] == SlotIndex(o.keys[..m])
    ensures s.ch[..] == Pick(o.ch[..], Prefix(m, 48), Hole)
  {
    ghost var keys := o.keys[..m];
    assert keys[..0] == [];
    for slot := 0 to m
      invariant forall b: byte :: s.idx[b] == SlotOf(keys[..slot], b)
      invariant forall j :: 0 <= j < 48 ==> s.ch[j] == if j < slot then o.ch[j] else Hole
    {
      SlotNext(keys, slot);
      s.idx[o.keys[slot]] := slot;
      s.ch[slot] := o.ch[slot];
    }
    assert keys[..m] == keys;
  }

  function SlotOf(keys: Key, b: byte): byte {
    var i := Last(keys, b);
    if i < |keys| && i < 48 then i else NIL
  }

  /** `n16_to_n48`. */
  method N16ToN48(o: Block, ghost t: Node, ghost r: set<object>) returns (s: Block)
    requires Represents(Box(o), t, r) && LocalSound(t) && t.N16?
    ensures fresh(Own(s))
    ensures Represents(Box(s), N48(t.prefix, t.hasEnd, |t.keys|, SlotIndex(t.keys), Pad(t.ch, 48)), r + Own(s))
  {
    hide *;
    Parts(o, t, r);
    s := new Block(K48, o.prefix, o.hasEnd);
    Sizes(s);
    s.n := o.n;
    FillSlots(o, s, o.n);
    s.foot := Pick(o.foot, Prefix(s.n, 48), {});
    ghost var t' := N48(t.prefix, t.hasEnd, |t.keys|, SlotIndex(t.keys), Pad(t.ch, 48));
    TableHeader(s, t');
    PrefixPadded(t, s.n, t');
    Caps(t, t');
    Rehoused(o, t, r, s, t', Prefix(s.n, 48));
  }

  /** Taking one more key into account. */
  lemma SlotNext(keys: Key, i: nat)
    requires i < |keys| && i < 48
    ensures forall b: byte :: SlotOf(keys[..i + 1], b) == if b == keys[i] then i else SlotOf(keys[..i], b)
  {
    assert keys[..i + 1] == keys[..i] + [keys[i]];
    forall b: byte ensures SlotOf(keys[..i + 1], b) == if b == keys[i] then i else SlotOf(keys[..i], b) {
      LastAppend(keys[..i], keys[i], b);
    }
  }

  lemma LastAppend(keys: Key, x: byte, b: byte)
    ensures Last(keys + [x], b) == if b == x then |keys| else if Last(keys, b) < |keys| then Last(keys, b) else |keys| + 1
  {
    assert (keys + [x])[..|keys|] == keys;
  }

  // ── Slot table to direct ─────────────────────────────────────────────

  /** Slots are in range. */
  ghost predicate GoodTable(idx: seq<byte>) {
    |idx| == 256 && forall b: byte :: idx[b] == NIL || idx[b] < 48
  }

  /** The slot of every byte but 0xFF that is the last to refer to it. */
  function Spread(idx: seq<byte>): (src: seq<int>)
    requires |idx| == 256
    ensures |src| == 256
  {
    seq(256, b requires 0 <= b < 256 => if b != NIL && idx[b] != NIL && LastOwner(idx, b) then idx[b] as int else -1)
  }

  /** The last byte that refers to each slot; 0xFF also says that none does. */
  method SlotBytes(idx: array<byte>) returns (slotByte: array<byte>)
    requires idx.Length == 256 && GoodTable(idx[..])
    ensures fresh(slotByte) && slotByte.Length == 48
    ensures forall s :: 0 <= s < 48 && slotByte[s] != NIL ==> idx[slotByte[s]] == s
    ensures forall b: byte :: idx[b] != NIL ==> idx[b] < 48 && b <= slotByte[idx[b]] && idx[slotByte[idx[b]]] == idx[b]
  {
    slotByte := new byte[48](_ => NIL);
    for b := 0 to 256
      invariant forall s :: 0 <= s < 48 && slotByte[s] != NIL ==> idx[slotByte[s]] == s
      invariant forall c: byte :: c < b && idx[c] != NIL ==> idx[c] < 48 && c <= slotByte[idx[c]] && idx[slotByte[idx[c]]] == idx[c]
    {
      assert idx[..][b] == idx[b];
      var slot := idx[b];
      if slot != NIL { slotByte[slot] := b; }
    }
  }

  /** Move every child to the cell of its byte. */
  method SpreadCells(o: Block, s: Block)
    requires o.idx.Length == 256 && GoodTable(o.idx[..]) && o.ch.Length == 48 && s.ch.Length == 256
    requires forall j :: 0 <= j < 256 ==> s.ch[j] == Hole
    modifies s.ch
    ensures s.ch[..] == Pick(o.ch[..], Spread(o.idx[..]), Hole)
  {
    ghost var idx := o.idx[..];
    var slotByte := SlotBytes(o.idx);
    assert forall b: byte :: idx[b] == o.idx[b];
    for slot := 0 to 48
      modifies s.ch
      invariant forall b: byte :: s.ch[b] == if b != NIL && LastOwner(idx, b) && idx[b] < slot then o.ch[idx[b]] else Hole
    {
      var b := slotByte[slot];
      OnlyLast(idx, slot, b);
      if b != NIL { s.ch[b] := o.ch[slot]; }
    }
  }

  /** At most one byte is the last to refer to a slot. */
  lemma OnlyLast(idx: seq<byte>, slot: nat, b: byte)
    requires |idx| == 256 && slot < 48 && (b != NIL ==> idx[b] == slot)
    requires forall c: byte :: idx[c] == slot ==> c <= b && idx[b] == slot
    ensures forall c: byte :: idx[c] == slot && LastOwner(idx, c) ==> c == b
    ensures b != NIL ==> LastOwner(idx, b)
  {
    if b != NIL {
      forall c | b < c < 256 ensures idx[c] != idx[b] { var x: byte := c; }
    }
  }

  /** `n48_to_n256`. A child under byte 0xFF is not carried over. */
  method N48ToN256(o: Block, ghost t: Node, ghost r: set<object>) returns (s: Block)
    requires Represents(Box(o), t, r) && LocalSound(t) && t.N48?
    ensures fresh(Own(s)) && Represents(Box(s), Widen48(t), r + Own(s))
  {
    hide *;
    Parts(o, t, r);
    SpreadValue(t);
    s := new Block(K256, o.prefix, o.hasEnd);
    Sizes(s);
    s.n := o.n;
    SpreadCells(o, s);
    s.foot := Pick(o.foot, Spread(o.idx[..]), {});
    DirectHeader(s, Widen48(t));
    Rehoused(o, t, r, s, Widen48(t), Spread(o.idx[..]));
  }

  lemma Parts(o: Block, t: Node, r: set<object>)
    requires Represents(Box(o), t, r) && LocalSound(t)
    ensures o.prefix == t.prefix && o.hasEnd == t.hasEnd && o.n == t.Count() && o.kind == KindOf(t)
    ensures o.ch.Length == |o.foot| == Cap(o.kind) && {o, o.keys, o.idx, o.ch} == Own(o) <= r
    ensures (t.N48? ==> o.n == t.n && o.kind == K48) && (t.N256? ==> o.n == t.n && o.kind == K256)
    ensures (t.N4? ==> o.kind == K4 && o.ch.Length == 4) && (t.N16? ==> o.kind == K16 && o.ch.Length == 16)
    ensures t.N4? || t.N16? ==> |t.ch| == o.n <= o.keys.Length == o.ch.Length && o.keys[..o.n] == t.keys
    ensures t.N48? ==> o.idx.Length == 256 && o.ch.Length == 48 && o.idx[..] == t.idx && GoodTable(t.idx)
    ensures t.N256? ==> o.ch.Length == 256
  {}

  lemma Sizes(s: Block)
    requires Sized(s)
    ensures Own(s) == {s, s.keys, s.idx, s.ch} && |s.foot| == s.ch.Length
    ensures s.kind == K4 ==> s.keys.Length == s.ch.Length == 4 && s.idx.Length == 0
    ensures s.kind == K16 ==> s.keys.Length == s.ch.Length == 16 && s.idx.Length == 0
    ensures s.kind == K48 ==> s.idx.Length == 256 && s.ch.Length == 48 && s.keys.Length == 0
    ensures s.kind == K256 ==> s.ch.Length == 256 && s.keys.Length == s.idx.Length == 0
  {}

  lemma Caps(t: Node, t': Node)
    requires t.Inner() && t'.Inner()
    ensures Cap(KindOf(t)) == (if t.N4? then 4 else if t.N16? then 16 else if t.N48? then 48 else 256)
    ensures Cap(KindOf(t')) == (if t'.N4? then 4 else if t'.N16? then 16 else if t'.N48? then 48 else 256)
  {}

  lemma ListHeader(s: Block, t: Node)
    requires (s.kind == K4 && t.N4? && s.ch.Length == 4) || (s.kind == K16 && t.N16? && s.ch.Length == 16)
    requires s.keys.Length == s.ch.Length == |s.foot| && s.idx.Length == 0 && |t.ch| == |t.keys| == s.n <= s.keys.Length
    requires s.prefix == t.prefix && s.hasEnd == t.hasEnd && s.keys[..s.n] == t.keys
    ensures Sized(s) && Header(s, t)
  {}

  lemma TableHeader(s: Block, t: Node)
    requires s.kind == K48 && t.N48? && s.keys.Length == 0 && s.idx.Length == 256 && s.ch.Length == |s.foot| == |t.ch| == 48
    requires s.prefix == t.prefix && s.hasEnd == t.hasEnd && s.n == t.n && s.idx[..] == t.idx
    ensures Sized(s) && Header(s, t)
  {}

  lemma DirectHeader(s: Block, t: Node)
    requires s.kind == K256 && t.N256? && s.keys.Length == s.idx.Length == 0 && s.ch.Length == |s.foot| == |t.ch| == 256
    requires s.prefix == t.prefix && s.hasEnd == t.hasEnd && s.n == t.n
    ensures Sized(s) && Header(s, t)
  {}

  lemma SpreadValue(t: Node)
    requires LocalSound(t) && t.N48?
    ensures GoodTable(t.idx) && Injective(Spread(t.idx), 48)
    ensures var w := Widen48(t);
      w.N256? && w.prefix == t.prefix && w.hasEnd == t.hasEnd && w.n == t.n && |w.ch| == 256
      && Padded(w) == Pick(Padded(t), Spread(t.idx), Empty)
  {
    var src := Spread(t.idx);
    forall i, j | 0 <= i < j < 256 && src[i] != -1 && src[j] != -1 ensures src[i] != src[j] {
      assert t.idx[j] != t.idx[i];
    }
    var l, r := Padded(Widen48(t)), Pick(Padded(t), src, Empty);
    forall b | 0 <= b < 256 ensures l[b] == r[b] {
      var x: byte := b;
      assert t.idx[x] == NIL || t.idx[x] < 48;
    }
  }

  // ── Down from the big nodes ──────────────────────────────────────────

  /** The cells of a list of bytes, in the order of the list. */
  function Listed(live: Key, w: nat): (src: seq<int>)
    ensures |src| == w
  {
    seq(w, i requires 0 <= i < w => if i < |live| then live[i] as int else -1)
  }

  /** The bytes that refer to a slot, ascending. */
  method UsedBytes(o: Block) returns (refs: Key)
    requires o.idx.Length == 256
    ensures refs == Refs(o.idx[..])
  {
    refs := [];
    for b := 0 to 256
      invariant refs == RefsUpTo(o.idx[..], b)
    {
      if o.idx[b] != NIL { refs := refs + [b]; }
    }
  }

  lemma {:induction false} RefsAscend(idx: seq<byte>, hi: nat)
    requires |idx| == 256 && hi <= 256
    ensures Ascending(RefsUpTo(idx, hi))
    ensures forall i :: 0 <= i < |RefsUpTo(idx, hi)| ==> RefsUpTo(idx, hi)[i] < hi && idx[RefsUpTo(idx, hi)[i]] != NIL
  {
    if hi != 0 { RefsAscend(idx, hi - 1); }
  }

  /** One of the first `p` bytes of the list refers to slot `c`. */
  predicate Taken(idx: seq<byte>, l: Key, p: nat, c: nat)
    requires |idx| == 256 && p <= |l|
  {
    exists j :: 0 <= j < p && idx[l[j]] == c
  }

  lemma TakenNext(idx: seq<byte>, l: Key, p: nat)
    requires |idx| == 256 && p < |l|
    ensures forall c: nat :: Taken(idx, l, p + 1, c) <==> Taken(idx, l, p, c) || c == idx[l[p]]
  {
    forall c: nat ensures Taken(idx, l, p + 1, c) <==> Taken(idx, l, p, c) || c == idx[l[p]] {
      if Taken(idx, l, p, c) { var j :| 0 <= j < p && idx[l[j]] == c; }
      if c == idx[l[p]] { assert 0 <= p < p + 1; }
    }
  }

  /** The first byte to refer to a slot is the first in the list to do so. */
  lemma FirstInList(idx: seq<byte>, p: nat)
    requires |idx| == 256 && p < |Refs(idx)|
    ensures FirstOwner(idx, Refs(idx)[p]) <==> !Taken(idx, Refs(idx), p, idx[Refs(idx)[p]])
  {
    var l := Refs(idx);
    RefsAscend(idx, 256);
    if !Taken(idx, l, p, idx[l[p]]) {
      forall c | 0 <= c < l[p] ensures idx[c] != idx[l[p]] {
        RefsIn(idx, 256, c);
        if c in l { var i :| 0 <= i < |l| && l[i] == c; }
      }
    }
  }

  /** The slots that `n48_to_n16` takes over: each one once, in byte order. */
  function Narrowed(idx: seq<byte>): (src: seq<int>)
    ensures |src| == 16
  {
    var l := Refs(idx);
    seq(16, i requires 0 <= i < 16 => if i < |l| && l[i] < |idx| && FirstOwner(idx, l[i]) then idx[l[i]] as int else -1)
  }

  /** Fill a key list from the slots of the given bytes. What has been taken
      out of a slot is gone. */
  method FillList(o: Block, s: Block, refs: Key)
    requires o.idx.Length == 256 && o.ch.Length == 48 && GoodTable(o.idx[..]) && refs == Refs(o.idx[..]) && |refs| <= 16
    requires s.keys.Length == s.ch.Length == 16 && s.ch != o.ch && s.keys != o.idx
    requires forall j :: 0 <= j < 16 ==> s.keys[j] == 0 && s.ch[j] == Hole
    modifies s.keys, s.ch
    ensures forall j :: 0 <= j < 16 ==> s.keys[j] == if j < |refs| then refs[j] else 0
    ensures s.ch[..] == Pick(o.ch[..], Narrowed(o.idx[..]), Hole)
  {
    hide *;
    ghost var idx := o.idx[..];
    RefSlots(idx);
    var left := new Slot[48](i requires 0 <= i < 48 reads o.ch => o.ch[i]);
    NoneTaken(idx, refs);
    for pos := 0 to |refs|
      invariant forall j :: 0 <= j < 16 ==> s.keys[j] == if j < pos then refs[j] else 0
      invariant forall j :: 0 <= j < 16 ==> s.ch[j] == if j < pos && FirstOwner(idx, refs[j]) then o.ch[idx[refs[j]]] else Hole
      invariant forall c: nat :: c < 48 ==> left[c] == if Taken(idx, refs, pos, c) then Hole else o.ch[c]
    {
      FirstInList(idx, pos);
      TakenNext(idx, refs, pos);
      var slot := o.idx[refs[pos]];
      s.keys[pos] := refs[pos];
      s.ch[pos] := left[slot];
      left[slot] := Hole;
    }
    IsNarrowed(o.ch[..], s.ch[..], idx);
  }

  lemma NoneTaken(idx: seq<byte>, l: Key)
    requires |idx| == 256
    ensures forall c: nat :: !Taken(idx, l, 0, c)
  {}

  lemma RefSlots(idx: seq<byte>)
    requires GoodTable(idx)
    ensures |idx| == 256 && forall i :: 0 <= i < |Refs(idx)| ==> idx[Refs(idx)[i]] < 48
  {
    RefsAscend(idx, 256);
  }

  lemma IsNarrowed(cs: seq<Slot>, r: seq<Slot>, idx: seq<byte>)
    requires GoodTable(idx) && |cs| == 48 && |r| == 16 && |Refs(idx)| <= 16 && forall i :: 0 <= i < |Refs(idx)| ==> idx[Refs(idx)[i]] < 48
    requires forall j :: 0 <= j < 16 ==>
      r[j] == if j < |Refs(idx)| && FirstOwner(idx, Refs(idx)[j]) then cs[idx[Refs(idx)[j]]] else Hole
    ensures r == Pick(cs, Narrowed(idx), Hole)
  {
    hide Refs, FirstOwner;
  }

  /** `n48_to_n16`: the counter is copied, right or wrong. */
  method N48ToN16(o: Block, ghost t: Node, ghost r: set<object>) returns (s: Block)
    requires Represents(Box(o), t, r) && LocalSound(t) && t.N48? && t.n <= 16
    ensures fresh(Own(s)) && Represents(Box(s), Narrow48(t), r + Own(s))
  {
    hide *;
    Parts(o, t, r);
    FewRefs(t);
    var refs := UsedBytes(o);
    s := new Block(K16, o.prefix, o.hasEnd);
    Sizes(s);
    s.n := o.n;
    FillList(o, s, refs);
    ghost var src := Narrowed(t.idx);
    s.foot := Pick(o.foot, src, {});
    ghost var t' := Narrow48(t);
    NarrowParts(t, s.keys[..s.n]);
    ListHeader(s, t');
    Rehoused(o, t, r, s, t', src);
  }

  lemma FewRefs(t: Node)
    requires t.N48? && LocalSound(t)
    ensures |Refs(t.idx)| <= t.n
  {}

  lemma NarrowParts(t: Node, keys: Key)
    requires t.N48? && LocalSound(t) && |keys| == t.n <= 16
    requires forall j :: 0 <= j < |keys| ==> keys[j] == if j < |Refs(t.idx)| then Refs(t.idx)[j] else 0
    ensures var r := Narrow48(t);
      && r.N16? && |r.keys| == |r.ch| == t.n && r.prefix == t.prefix && r.hasEnd == t.hasEnd && keys == r.keys
      && Padded(r) == Pick(Padded(t), Narrowed(t.idx), Empty)
    ensures Injective(Narrowed(t.idx), 48)
  {
    RefsAscend(t.idx, 256);
    var l, src := Refs(t.idx), Narrowed(t.idx);
    var p, q := Padded(Narrow48(t)), Pick(Padded(t), src, Empty);
    hide Refs, Used;
    forall i | 0 <= i < 16 ensures p[i] == q[i] {
      assert i < |l| ==> t.idx[l[i]] < 48;
    }
    forall i, j | 0 <= i < j < 16 && 0 <= src[i] && 0 <= src[j] ensures src[i] != src[j] {
      assert l[i] < l[j];
    }
  }

  /** Number the children in the order of their bytes. */
  method PackCells(o: Block, s: Block, ghost t: Node)
    requires o.ch.Length == 256 && s.idx.Length == 256 && s.ch.Length == 48 && s.ch != o.ch
    requires |Live(t)| <= 48 && forall b: byte :: o.ch[b] == Hole <==> Child(t, b) == Empty
    requires (forall b :: 0 <= b < 256 ==> s.idx[b] == NIL) && (forall j :: 0 <= j < 48 ==> s.ch[j] == Hole)
    modifies s.idx, s.ch
    ensures s.idx[..] == SlotIndex(Live(t))
    ensures s.ch[..] == Pick(o.ch[..], Listed(Live(t), 48), Hole)
  {
    hide LiveUpTo, SlotOf, Child;
    var slot := 0;
    ghost var live: Key := [];
    NoneYet(t);
    for b := 0 to 256
      invariant live == LiveUpTo(t, b) && slot == |live|
      invariant forall c: byte :: s.idx[c] == SlotOf(live, c)
      invariant forall j :: 0 <= j < 48 ==> s.ch[j] == if j < slot then o.ch[live[j]] else Hole
    {
      LiveFits(t, b + 1);
      if o.ch[b] != Hole {
        LiveNext(t, b, live);
        live := live + [b];
        s.idx[b] := slot;
        s.ch[slot] := o.ch[b];
        slot := slot + 1;
      } else {
        LiveSkip(t, b);
      }
    }
    TableOf(s.idx[..], live);
  }

  lemma NoneYet(t: Node)
    ensures LiveUpTo(t, 0) == [] && forall c: byte :: SlotOf([], c) == NIL
  {}

  lemma LiveSkip(t: Node, b: byte)
    requires Child(t, b) == Empty
    ensures LiveUpTo(t, b + 1) == LiveUpTo(t, b)
  {}

  lemma TableOf(idx: seq<byte>, live: Key)
    requires |idx| == 256 && forall c: byte :: idx[c] == SlotOf(live, c)
    ensures idx == SlotIndex(live)
  {}

  lemma {:induction false} LiveFits(t: Node, hi: nat)
    requires hi <= 256
    ensures |LiveUpTo(t, hi)| <= |Live(t)|
    decreases 256 - hi
  {
    if hi < 256 { LiveFits(t, hi + 1); }
  }

  lemma LiveNext(t: Node, b: byte, live: Key)
    requires Child(t, b) != Empty && live == LiveUpTo(t, b) && |LiveUpTo(t, b + 1)| <= 48
    ensures LiveUpTo(t, b + 1) == live + [b]
    ensures forall c: byte :: SlotOf(live + [b], c) == if c == b then |live| else SlotOf(live, c)
  {
    LiveMember(t, b);
    forall c: byte ensures SlotOf(live + [b], c) == if c == b then |live| else SlotOf(live, c) {
      LastAppend(live, b, c);
    }
  }

  /** `n256_to_n48`: the counter is copied, whatever the number of children. */
  method N256ToN48(o: Block, ghost t: Node, ghost r: set<object>) returns (s: Block)
    requires Represents(Box(o), t, r) && LocalSound(t) && t.N256? && t.n <= 48
    ensures fresh(Own(s))
    ensures Represents(Box(s), N48(t.prefix, t.hasEnd, t.n, SlotIndex(Live(t)), Pad(Kids(t, Live(t)), 48)), r + Own(s))
  {
    hide *;
    Parts(o, t, r);
    DirectLive(o, t, r);
    s := new Block(K48, o.prefix, o.hasEnd);
    Sizes(s);
    s.n := o.n;
    PackCells(o, s, t);
    ghost var src := Listed(Live(t), 48);
    s.foot := Pick(o.foot, src, {});
    ghost var t' := N48(t.prefix, t.hasEnd, t.n, SlotIndex(Live(t)), Pad(Kids(t, Live(t)), 48));
    TableHeader(s, t');
    Rehoused(o, t, r, s, t', src);
  }

  lemma DirectLive(o: Block, t: Node, r: set<object>)
    requires Represents(Box(o), t, r) && LocalSound(t) && t.N256? && t.n <= 48
    ensures |Live(t)| <= 48 && o.ch.Length == 256 && forall b: byte :: o.ch[b] == Hole <==> Child(t, b) == Empty
    ensures var src := Listed(Live(t), 48);
      Injective(src, 256)
      && Padded(N48(t.prefix, t.hasEnd, t.n, SlotIndex(Live(t)), Pad(Kids(t, Live(t)), 48))) == Pick(Padded(t), src, Empty)
  {
    forall b: byte ensures o.ch[b] == Hole <==> Child(t, b) == Empty { HoleIsEmpty(o.ch[b], t.ch[b], o.foot[b]); }
    LiveMember(t, 256);
  }
}
