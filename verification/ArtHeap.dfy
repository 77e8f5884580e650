/** The radix tree as it lies in memory: nodes with fixed cell arrays, rewritten
    in place. Every operation is proved against the value it stands for. */
module ArtHeap {
  import opened Options
  import opened Bytes
  import opened ArtNode
  import opened ArtOps
  import opened ArtSound

  datatype Kind = K4 | K16 | K48 | K256

  function Cap(k: Kind): nat {
    match k
    case K4 => 4
    case K16 => 16
    case K48 => 48
    case K256 => 256
  }

  /** Cells of the key list, if the node has one. */
  function KeyCap(k: Kind): nat { if k == K4 || k == K16 then Cap(k) else 0 }

  /** Cells of the byte-to-slot table, if the node has one. */
  function IdxCap(k: Kind): nat { if k == K48 then 256 else 0 }

  /** One cell: nothing, a leaf, or an owned node. */
  datatype Slot = Hole | Tail(sfx: Key) | Box(node: Block)

  /** An inner node of any size; `kind` says which of the four structs it is and
      fixes the lengths of its arrays. Cells `n` and up of a key list are holes. */
  class Block {
    const kind: Kind
    var prefix: Key
    var hasEnd: bool
    var n: nat
    const keys: array<byte>
    const idx: array<byte>
    const ch: array<Slot>
    /** The objects below each cell. */
    ghost var foot: seq<set<object>>

    constructor (kind: Kind, prefix: Key, hasEnd: bool)
      ensures this.kind == kind && this.prefix == prefix && this.hasEnd == hasEnd && n == 0
      ensures fresh(keys) && fresh(idx) && fresh(ch)
      ensures Sized(this)
      ensures forall i :: 0 <= i < keys.Length ==> keys[i] == 0
      ensures forall i :: 0 <= i < idx.Length ==> idx[i] == NIL
      ensures forall i :: 0 <= i < ch.Length ==> ch[i] == Hole && foot[i] == {}
    {
      this.kind, this.prefix, this.hasEnd, n := kind, prefix, hasEnd, 0;
      keys := new byte[KeyCap(kind)](_ => 0);
      idx := new byte[IdxCap(kind)](_ => NIL);
      ch := new Slot[Cap(kind)](_ => Hole);
      foot := seq(Cap(kind), _ => {});
    }

    /** Move the cells from `pos` on up by one. */
    method MoveUp(pos: nat)
      requires pos <= n < keys.Length <= ch.Length
      modifies keys, ch
      ensures forall j :: 0 <= j < pos ==> keys[j] == old(keys[j]) && ch[j] == old(ch[j])
      ensures forall j :: pos < j <= n ==> keys[j] == old(keys[j - 1]) && ch[j] == old(ch[j - 1])
      ensures forall j :: n < j < ch.Length ==> ch[j] == old(ch[j])
    {
      for i := n downto pos
        invariant forall j :: 0 <= j < i ==> keys[j] == old(keys[j]) && ch[j] == old(ch[j])
        invariant forall j :: i < j <= n ==> keys[j] == old(keys[j - 1]) && ch[j] == old(ch[j - 1])
        invariant forall j :: n < j < ch.Length ==> ch[j] == old(ch[j])
      {
        keys[i + 1] := keys[i];
        ch[i], ch[i + 1] := ch[i + 1], ch[i];
      }
    }

    /** Move the cells after `pos` down by one; its own ends up last. */
    method MoveDown(pos: nat)
      requires pos < n <= keys.Length <= ch.Length
      modifies keys, ch
      ensures forall j :: 0 <= j < pos ==> keys[j] == old(keys[j]) && ch[j] == old(ch[j])
      ensures forall j :: pos <= j < n - 1 ==> keys[j] == old(keys[j + 1]) && ch[j] == old(ch[j + 1])
      ensures forall j :: n <= j < ch.Length ==> ch[j] == old(ch[j])
    {
      for i := pos to n - 1
        invariant forall j :: 0 <= j < pos ==> keys[j] == old(keys[j]) && ch[j] == old(ch[j])
        invariant forall j :: pos <= j < i ==> keys[j] == old(keys[j + 1]) && ch[j] == old(ch[j + 1])
        invariant forall j :: i < j < n ==> keys[j] == old(keys[j]) && ch[j] == old(ch[j])
        invariant forall j :: n <= j < ch.Length ==> ch[j] == old(ch[j])
      {
        keys[i] := keys[i + 1];
        ch[i], ch[i + 1] := ch[i + 1], ch[i];
      }
    }

    /** How many keys are below `b`. */
    method Position(b: byte) returns (pos: nat)
      requires n <= keys.Length
      ensures pos == Below(keys[..n], b) <= n
    {
      pos := 0;
      while pos < n && keys[pos] < b
        invariant pos <= n && Below(keys[..n], b) == pos + Below(keys[pos..n], b)
      {
        BelowStep(keys[..n], pos, b);
        pos := pos + 1;
      }
      BelowStep(keys[..n], pos, b);
    }

    /** `add_ch` of a key-list node: find the place, shift, write. */
    method AddKeyed(b: byte, child: Slot, ghost f: set<object>)
      requires Sized(this) && n < keys.Length
      modifies this`n, this`foot, keys, ch
      ensures Sized(this) && n == old(n) + 1
      ensures var p := Below(old(keys[..n]), b);
        && keys[..n] == InsertAt(old(keys[..n]), p, b)
        && ch[..] == Shifted(old(ch[..]), p, old(n), child)
        && foot == Shifted(old(foot), p, old(n), f)
    {
      hide Below, InsertAt, Shifted;
      ghost var m, k0, c0, f0 := n, keys[..n], ch[..], foot;
      var pos := Position(b);
      MoveUp(pos);
      keys[pos] := b;
      ch[pos] := child;
      foot := Shifted(f0, pos, n, f);
      n := n + 1;
      IsInserted(k0, keys[..n], pos, b);
      IsShifted(c0, ch[..], pos, m, child);
      ShiftedLength(f0, pos, m, f);
    }

    /** `del_ch` of a key-list node: find, shift back, clear the last cell. */
    method DelKeyed(b: byte)
      requires Sized(this) && n <= keys.Length
      modifies this`n, this`foot, keys, ch
      ensures Sized(this)
      ensures var p := Find(old(keys[..n]), b);
        && n == old(n) - (if p < old(n) then 1 else 0)
        && keys[..n] == RemoveAt(old(keys[..n]), p)
        && ch[..] == (if p < old(n) then Unshifted(old(ch[..]), p, old(n), Hole) else old(ch[..]))
        && foot == (if p < old(n) then Unshifted(old(foot), p, old(n), {}) else old(foot))
    {
      hide Find, RemoveAt, Unshifted;
      ghost var m, k0, c0, f0 := n, keys[..n], ch[..], foot;
      var pos := FindKey(b);
      if pos == n {
        NothingRemoved(k0);
        return;
      }
      MoveDown(pos);
      ch[n - 1] := Hole;
      foot := Unshifted(f0, pos, n, {});
      n := n - 1;
      IsRemoved(k0, keys[..n], pos);
      IsUnshifted(c0, ch[..], pos, m, Hole);
      UnshiftedLength(f0, pos, m, {});
    }

    /** The linear search of a key-list node. */
    method FindKey(b: byte) returns (i: nat)
      requires n <= keys.Length
      ensures i == Find(keys[..n], b) <= n
    {
      i := 0;
      while i < n && keys[i] != b
        invariant i <= n && Find(keys[..n], b) == i + Find(keys[i..n], b)
      {
        FindStep(keys[..n], i, b);
        i := i + 1;
      }
      FindStep(keys[..n], i, b);
    }

    /** `add_ch` of a Node48: the first free slot. The counter is a `u8`. */
    method AddSlot(b: byte, child: Slot, ghost f: set<object>)
      requires Sized(this) && kind == K48 && exists i :: 0 <= i < 48 && ch[i] == Hole
      modifies this`n, this`foot, idx, ch
      ensures Sized(this) && n == (old(n) + 1) % U8
      ensures SlotTaken(old(idx[..]), idx[..], old(ch[..]), ch[..], old(foot), foot, b, child, f)
    {
      var s := 0;
      while ch[s] != Hole
        invariant 0 <= s < 48 && forall j :: 0 <= j < s ==> ch[j] != Hole
        decreases 48 - s
      {
        s := s + 1;
      }
      idx[b] := s;
      ch[s] := child;
      foot := foot[s := f];
      n := (n + 1) % U8;
      assert TakesSlot(old(idx[..]), idx[..], old(ch[..]), ch[..], old(foot), foot, b, child, f, s);
    }

    /** `del_ch` of a Node48: the slot is cleared and stays where it is. */
    method DelSlot(b: byte)
      requires Sized(this) && kind == K48 && n > 0 && (idx[b] == NIL || idx[b] < 48)
      modifies this`n, this`foot, idx, ch
      ensures Sized(this)
      ensures old(idx[b]) == NIL ==> n == old(n) && idx[..] == old(idx[..]) && ch[..] == old(ch[..]) && foot == old(foot)
      ensures old(idx[b]) != NIL ==> n == old(n) - 1 && idx[..] == old(idx[..])[b := NIL]
      ensures old(idx[b]) != NIL ==> ch[..] == old(ch[..])[old(idx[b]) := Hole] && foot == old(foot)[old(idx[b]) := {}]
    {
      var s := idx[b];
      if s == NIL { return; }
      ch[s] := Hole;
      foot := foot[s := {}];
      idx[b] := NIL;
      n := n - 1;
    }

    /** `add_ch` of a Node256: the counter is a `u16` and wraps around. */
    method AddDirect(b: byte, child: Slot, ghost f: set<object>)
      requires Sized(this) && kind == K256
      modifies this`n, this`foot, ch
      ensures Sized(this) && n == (old(n) + 1) % U16 && ch[..] == old(ch[..])[b := child] && foot == old(foot)[b := f]
    {
      ch[b] := child;
      foot := foot[b := f];
      n := (n + 1) % U16;
    }

    /** `del_ch` of a Node256: counts down only if there was a child. */
    method DelDirect(b: byte)
      requires Sized(this) && kind == K256 && (ch[b] != Hole ==> n > 0)
      modifies this`n, this`foot, ch
      ensures Sized(this)
      ensures old(ch[b]) == Hole ==> n == old(n) && ch[..] == old(ch[..]) && foot == old(foot)
      ensures old(ch[b]) != Hole ==> n == old(n) - 1 && ch[..] == old(ch[..])[b := Hole] && foot == old(foot)[b := {}]
    {
      if ch[b] != Hole {
        ch[b] := Hole;
        foot := foot[b := {}];
        n := n - 1;
      }
    }

    method AddChildKeyed(b: byte, child: Slot, ghost t: Node, ghost c: Node, ghost f: set<object>, ghost r: set<object>)
      requires Represents(Box(this), t, r) && Represents(child, c, f) && f !! r
      requires LocalSound(t) && !Full(t) && (t.N4? || t.N16?)
      modifies this, keys, ch
      ensures Represents(Box(this), AddCh(t, b, c), r + f)
    {
      Unfold(this, t, r);
      KindsOf(t);
      PaddedInsert(t.ch, Cap(KindOf(t)), Below(t.keys, b), c);
      hide Represents, Cells, Apart, Shifted, InsertAt, Below, Pad, LocalSound;
      ghost var p, m := Below(t.keys, b), n;
      AddKeyed(b, child, f);
      CellsShifted(old(ch[..]), Padded(t), old(foot), p, m, child, c, f);
      ApartShifted(Own(this), old(foot), r, p, m, f);
      AddedHeader(this, t, b, c);
      Fold(this, AddCh(t, b, c), r + f);
    }

    method AddChildSlot(b: byte, child: Slot, ghost t: Node, ghost c: Node, ghost f: set<object>, ghost r: set<object>)
      requires Represents(Box(this), t, r) && Represents(child, c, f) && f !! r
      requires LocalSound(t) && !Full(t) && t.N48?
      modifies this, idx, ch
      ensures Represents(Box(this), AddCh(t, b, c), r + f)
    {
      Unfold(this, t, r);
      KindsOf(t);
      FreeSlot(ch[..], t, foot);
      PaddedPut(t.ch, 48, FirstEmpty(t.ch), c);
      hide Represents, Cells, Apart, Pad, FirstEmpty, LocalSound, SlotTaken;
      ghost var s := FirstEmpty(t.ch);
      AddSlot(b, child, f);
      SameSlot(old(idx[..]), idx[..], old(ch[..]), ch[..], old(foot), foot, b, child, f, t);
      CellsPut(old(ch[..]), Padded(t), old(foot), s, child, c, f);
      ApartPut(Own(this), old(foot), r, s, f);
      AddedHeader(this, t, b, c);
      Fold(this, AddCh(t, b, c), r + f);
    }

    method AddChildDirect(b: byte, child: Slot, ghost t: Node, ghost c: Node, ghost f: set<object>, ghost r: set<object>)
      requires Represents(Box(this), t, r) && Represents(child, c, f) && f !! r
      requires LocalSound(t) && t.N256?
      modifies this, ch
      ensures Represents(Box(this), AddCh(t, b, c), r + f)
    {
      Unfold(this, t, r);
      DirectParts(this, t);
      hide *;
      PaddedAdd(t, b, c);
      AddDirect(b, child, f);
      CellsPut(old(ch[..]), Padded(t), old(foot), b, child, c, f);
      ApartPut(Own(this), old(foot), r, b, f);
      AddedHeader(this, t, b, c);
      Fold(this, AddCh(t, b, c), r + f);
    }

    /** `node_add_child`. */
    method AddChild(b: byte, child: Slot, ghost t: Node, ghost c: Node, ghost f: set<object>, ghost r: set<object>)
      requires Represents(Box(this), t, r) && Represents(child, c, f) && f !! r
      requires LocalSound(t) && !Full(t)
      modifies this, keys, idx, ch
      ensures Represents(Box(this), AddCh(t, b, c), r + f)
    {
      Unfold(this, t, r);
      hide Represents, LocalSound, AddCh;
      if kind == K4 || kind == K16 {
        AddChildKeyed(b, child, t, c, f, r);
      } else if kind == K48 {
        AddChildSlot(b, child, t, c, f, r);
      } else {
        AddChildDirect(b, child, t, c, f, r);
      }
    }

    method DelChildKeyed(b: byte, ghost t: Node, ghost r: set<object>)
      requires Represents(Box(this), t, r) && Deletable(t, b) && (t.N4? || t.N16?)
      modifies this, keys, ch
      ensures Represents(Box(this), DelCh(t, b), r)
    {
      Unfold(this, t, r);
      PaddedRemove(t.ch, Cap(KindOf(t)), Find(t.keys, b));
      hide Represents, Cells, Apart, Unshifted, RemoveAt, Find, Pad, DelCh;
      ghost var p, m := Find(t.keys, b), n;
      DelKeyed(b);
      if p < m {
        CellsUnshifted(old(ch[..]), Padded(t), old(foot), p, m);
        ApartUnshifted(Own(this), old(foot), r, p, m);
      } else {
        NothingRemoved(t.keys);
      }
      DeletedHeader(this, t, b);
      Fold(this, DelCh(t, b), r);
    }

    method DelChildSlot(b: byte, ghost t: Node, ghost r: set<object>)
      requires Represents(Box(this), t, r) && Deletable(t, b) && t.N48?
      modifies this, idx, ch
      ensures Represents(Box(this), DelCh(t, b), r)
    {
      Unfold(this, t, r);
      if t.idx[b] != NIL { PaddedPut(t.ch, 48, t.idx[b], Empty); }
      EmptyCell();
      hide Represents, Cells, Apart, Pad;
      DelSlot(b);
      if t.idx[b] != NIL {
        CellsPut(old(ch[..]), Padded(t), old(foot), t.idx[b], Hole, Empty, {});
        ApartPut(Own(this), old(foot), r, t.idx[b], {});
        assert r + {} == r;
      }
      Fold(this, DelCh(t, b), r);
    }

    method DelChildDirect(b: byte, ghost t: Node, ghost r: set<object>)
      requires Represents(Box(this), t, r) && Deletable(t, b) && t.N256?
      modifies this, ch
      ensures Represents(Box(this), DelCh(t, b), r)
    {
      Unfold(this, t, r);
      PaddedPut(t.ch, 256, b, Empty);
      EmptyCell();
      CellIsHole(ch[..], Padded(t), foot, b);
      hide Represents, Cells, Apart, Pad;
      DelDirect(b);
      if t.ch[b] != Empty {
        CellsPut(old(ch[..]), Padded(t), old(foot), b, Hole, Empty, {});
        ApartPut(Own(this), old(foot), r, b, {});
        assert r + {} == r;
      }
      Fold(this, DelCh(t, b), r);
    }

    /** `node_del_child`. */
    method DelChild(b: byte, ghost t: Node, ghost r: set<object>)
      requires Represents(Box(this), t, r) && Deletable(t, b)
      modifies this, keys, idx, ch
      ensures Represents(Box(this), DelCh(t, b), r)
    {
      Unfold(this, t, r);
      hide Represents, DelCh;
      if kind == K4 || kind == K16 {
        DelChildKeyed(b, t, r);
      } else if kind == K48 {
        DelChildSlot(b, t, r);
      } else {
        DelChildDirect(b, t, r);
      }
    }

    /** `node_child_mut`: the cell of the child under `b`. */
    method ChildCell(b: byte, ghost t: Node, ghost r: set<object>) returns (i: Option<nat>)
      requires Represents(Box(this), t, r) && LocalSound(t)
      ensures i.Some? <==> HasChild(t, b)
      ensures i.Some? ==> i.value == CellIndex(t, b) < |t.ch|
    {
      Unfold(this, t, r);
      hide Represents, Cells, Apart, Find;
      if kind == K4 || kind == K16 {
        var pos := FindKey(b);
        i := if pos == n then None else Some(pos);
      } else if kind == K48 {
        i := if idx[b] == NIL then None else Some(idx[b]);
      } else {
        CellIsHole(ch[..], Padded(t), foot, b);
        i := if ch[b] == Hole then None else Some(b);
      }
    }
  }

  // ── The value a cell stands for ──────────────────────────────────────

  function Own(o: Block): set<object> { {o, o.keys, o.idx, o.ch} }

  function KindOf(t: Node): Kind
    requires t.Inner()
  {
    if t.N4? then K4 else if t.N16? then K16 else if t.N48? then K48 else K256
  }

  /** The fields of the node other than its children. */
  ghost predicate Header(o: Block, t: Node)
    requires o.keys.Length == KeyCap(o.kind) && o.idx.Length == IdxCap(o.kind)
    reads o, o.keys, o.idx
  {
    && t.Inner() && o.kind == KindOf(t) && o.prefix == t.prefix && o.hasEnd == t.hasEnd
    && o.n == t.Count() && |t.ch| <= Cap(o.kind)
    && (t.N4? || t.N16? ==> o.n <= o.keys.Length && o.keys[..o.n] == t.keys)
    && (t.N48? ==> o.idx[..] == t.idx)
  }

  /** What lies below different cells is separate, and separate from the node. */
  ghost predicate Apart(own: set<object>, foot: seq<set<object>>, r: set<object>) {
    && own <= r
    && (forall i :: 0 <= i < |foot| ==> foot[i] <= r && foot[i] !! own)
    && (forall i, j :: 0 <= i < j < |foot| ==> foot[i] !! foot[j])
  }

  /** The cell stands for the value `t`, and everything it owns is in `r`. */
  ghost predicate Represents(s: Slot, t: Node, r: set<object>)
    reads r
    decreases t
  {
    match s
    case Hole => t == Empty
    case Tail(sfx) => t == Leaf(sfx)
    case Box(o) =>
      && Own(o) <= r && Sized(o) && Header(o, t) && Apart(Own(o), o.foot, r)
      && (forall i :: 0 <= i < |t.ch| ==> Represents(o.ch[i], t.ch[i], o.foot[i]))
      && (forall i :: |t.ch| <= i < o.ch.Length ==> o.ch[i] == Hole)
  }

  /** The children with the unused cells as empty trees. */
  function Padded(t: Node): seq<Node>
    requires t.Inner()
  {
    Pad(t.ch, Cap(KindOf(t)))
  }

  function Objects(fs: seq<set<object>>): set<object> { set i, o | 0 <= i < |fs| && o in fs[i] :: o }

  ghost predicate Cells(cs: seq<Slot>, ts: seq<Node>, fs: seq<set<object>>)
    reads Objects(fs)
  {
    |cs| == |ts| == |fs| && forall i :: 0 <= i < |cs| ==> InObjects(fs, i) && Represents(cs[i], ts[i], fs[i])
  }

  predicate InObjects(fs: seq<set<object>>, i: nat)
    requires i < |fs|
  {
    fs[i] <= Objects(fs)
  }

  lemma Unfold(o: Block, t: Node, r: set<object>)
    requires Represents(Box(o), t, r)
    ensures Own(o) <= r && Sized(o) && Header(o, t) && Apart(Own(o), o.foot, r)
    ensures Cells(o.ch[..], Padded(t), o.foot)
  {}

  lemma Fold(o: Block, t: Node, r: set<object>)
    requires Own(o) <= r && Sized(o) && Header(o, t) && Apart(Own(o), o.foot, r)
    requires Cells(o.ch[..], Padded(t), o.foot)
    ensures Represents(Box(o), t, r)
  {
    forall i | 0 <= i < o.ch.Length ensures if i < |t.ch| then Represents(o.ch[i], t.ch[i], o.foot[i]) else o.ch[i] == Hole {
      assert Represents(o.ch[..][i], Padded(t)[i], o.foot[i]);
    }
  }

  lemma HoleIsEmpty(s: Slot, t: Node, r: set<object>)
    requires Represents(s, t, r)
    ensures s.Hole? <==> t == Empty
    ensures s.Tail? <==> t.Leaf?
    ensures s.Box? <==> t.Inner()
  {}

  lemma MoreRoom(s: Slot, t: Node, r: set<object>, r': set<object>)
    requires Represents(s, t, r) && r <= r'
    ensures Represents(s, t, r')
  {}

  // ── Rearranging cells ────────────────────────────────────────────────

  lemma CellsShifted(cs: seq<Slot>, ts: seq<Node>, fs: seq<set<object>>, p: nat, n: nat, x: Slot, c: Node, f: set<object>)
    requires Cells(cs, ts, fs) && Represents(x, c, f) && p <= n < |cs|
    ensures Cells(Shifted(cs, p, n, x), Shifted(ts, p, n, c), Shifted(fs, p, n, f))
  {
    hide Represents;
    var cs', ts', fs' := Shifted(cs, p, n, x), Shifted(ts, p, n, c), Shifted(fs, p, n, f);
    forall i | 0 <= i < |cs'| ensures InObjects(fs', i) && Represents(cs'[i], ts'[i], fs'[i]) {
      var j := if i <= p || i > n then i else i - 1;
      assert InObjects(fs, j) && Represents(cs[j], ts[j], fs[j]);
    }
  }

  lemma CellsUnshifted(cs: seq<Slot>, ts: seq<Node>, fs: seq<set<object>>, p: nat, n: nat)
    requires Cells(cs, ts, fs) && p < n <= |cs|
    ensures Cells(Unshifted(cs, p, n, Hole), Unshifted(ts, p, n, Empty), Unshifted(fs, p, n, {}))
  {
    var cs', ts', fs' := Unshifted(cs, p, n, Hole), Unshifted(ts, p, n, Empty), Unshifted(fs, p, n, {});
    assert Represents(Hole, Empty, {});
    hide Represents;
    forall i | 0 <= i < |cs'| ensures InObjects(fs', i) && Represents(cs'[i], ts'[i], fs'[i]) {
      var j := if i < p || i >= n then i else if i < n - 1 then i + 1 else p;
      assert InObjects(fs, j) && Represents(cs[j], ts[j], fs[j]);
    }
  }

  lemma CellsPut(cs: seq<Slot>, ts: seq<Node>, fs: seq<set<object>>, s: nat, x: Slot, c: Node, f: set<object>)
    requires Cells(cs, ts, fs) && Represents(x, c, f) && s < |cs|
    ensures Cells(cs[s := x], ts[s := c], fs[s := f])
  {
    hide Represents;
    var fs' := fs[s := f];
    forall i | 0 <= i < |cs| ensures InObjects(fs', i) && Represents(cs[s := x][i], ts[s := c][i], fs'[i]) {
      assert InObjects(fs, i) && Represents(cs[i], ts[i], fs[i]);
    }
  }

  /** Cell `i` taken from cell `src[i]`, or `d` where that is no cell. */
  function Pick<T>(s: seq<T>, src: seq<int>, d: T): (r: seq<T>)
    ensures |r| == |src|
  {
    seq(|src|, i requires 0 <= i < |src| => if 0 <= src[i] < |s| then s[src[i]] else d)
  }

  /** No cell is taken twice. */
  ghost predicate Injective(src: seq<int>, n: nat) {
    forall i, j :: 0 <= i < j < |src| && 0 <= src[i] < n && 0 <= src[j] < n ==> src[i] != src[j]
  }

  lemma CellsPick(cs: seq<Slot>, ts: seq<Node>, fs: seq<set<object>>, src: seq<int>)
    requires Cells(cs, ts, fs)
    ensures Cells(Pick(cs, src, Hole), Pick(ts, src, Empty), Pick(fs, src, {}))
  {
    var cs', ts', fs' := Pick(cs, src, Hole), Pick(ts, src, Empty), Pick(fs, src, {});
    assert Represents(Hole, Empty, {});
    hide Represents;
    forall i | 0 <= i < |src| ensures InObjects(fs', i) && Represents(cs'[i], ts'[i], fs'[i]) {
      var j := src[i];
      if 0 <= j < |cs| { assert InObjects(fs, j) && Represents(cs[j], ts[j], fs[j]); }
    }
  }

  lemma ApartShifted(own: set<object>, fs: seq<set<object>>, r: set<object>, p: nat, n: nat, f: set<object>)
    requires Apart(own, fs, r) && p <= n < |fs| && f !! r
    ensures Apart(own, Shifted(fs, p, n, f), r + f)
  {}

  lemma ApartUnshifted(own: set<object>, fs: seq<set<object>>, r: set<object>, p: nat, n: nat)
    requires Apart(own, fs, r) && p < n <= |fs|
    ensures Apart(own, Unshifted(fs, p, n, {}), r)
  {}

  /** A new footprint may keep objects of the old one, and add objects that were
      nowhere. */
  lemma ApartPut(own: set<object>, fs: seq<set<object>>, r: set<object>, s: nat, f: set<object>)
    requires Apart(own, fs, r) && s < |fs| && f !! (r - fs[s])
    ensures Apart(own, fs[s := f], r + f)
  {}

  /** The cells of one node handed over to another one. */
  lemma ApartPick(own: set<object>, fs: seq<set<object>>, r: set<object>, own': set<object>, src: seq<int>)
    requires Apart(own, fs, r) && Injective(src, |fs|) && own' !! r
    ensures Apart(own', Pick(fs, src, {}), r + own')
  {}

  // ── What an operation on the value does to the padded children ───────

  lemma PaddedInsert(ts: seq<Node>, w: nat, p: nat, c: Node)
    requires p <= |ts| < w
    ensures Pad(InsertAt(ts, p, c), w) == Shifted(Pad(ts, w), p, |ts|, c)
  {
    var l, r := Pad(InsertAt(ts, p, c), w), Shifted(Pad(ts, w), p, |ts|, c);
    forall i | 0 <= i < w ensures l[i] == r[i] {}
  }

  lemma PaddedPut(ts: seq<Node>, w: nat, i: nat, c: Node)
    requires |ts| == w && i < w
    ensures Pad(Put(ts, i, c), w) == Pad(ts, w)[i := c] && Pad(ts, w) == ts
  {}

  lemma DirectParts(o: Block, t: Node)
    requires Sized(o) && Header(o, t) && t.N256? && LocalSound(t)
    ensures t.N256? && t.Inner() && o.kind == K256 == KindOf(t) && o.prefix == t.prefix && o.hasEnd == t.hasEnd && o.n == t.n
    ensures t.Inner() && !Full(t) && |t.ch| == o.ch.Length == |o.foot| == 256
    ensures o.keys.Length == 0 && o.idx.Length == 0 && Own(o) == {o, o.keys, o.idx, o.ch}
  {}

  lemma PaddedAdd(t: Node, b: byte, c: Node)
    requires t.N256? && |t.ch| == 256
    ensures AddCh(t, b, c).Inner() && Padded(AddCh(t, b, c)) == Padded(t)[b := c] && |Padded(t)| == 256
  {
    PaddedPut(t.ch, 256, b, c);
  }

  lemma PaddedRemove(ts: seq<Node>, w: nat, p: nat)
    requires p <= |ts| <= w
    ensures p < |ts| ==> Pad(RemoveAt(ts, p), w) == Unshifted(Pad(ts, w), p, |ts|, Empty)
    ensures p == |ts| ==> RemoveAt(ts, p) == ts
  {
    if p < |ts| {
      var l, r := Pad(RemoveAt(ts, p), w), Unshifted(Pad(ts, w), p, |ts|, Empty);
      forall i | 0 <= i < w ensures l[i] == r[i] {}
    }
  }

  /** What `del_ch` counts on. */
  predicate Deletable(t: Node, b: byte) {
    match t
    case N4(_, _, ks, ch) => |ks| == |ch| <= 4
    case N16(_, _, ks, ch) => |ks| == |ch| <= 16
    case N48(_, _, m, idx, ch) => |idx| == 256 && |ch| == 48 && m > 0 && (idx[b] == NIL || idx[b] < 48)
    case N256(_, _, m, ch) => |ch| == 256 && (ch[b] != Empty ==> m > 0)
    case _ => false
  }

  lemma DeletedHeader(o: Block, t: Node, b: byte)
    requires (t.N4? || t.N16?) && Deletable(t, b) && Sized(o) && o.kind == KindOf(t)
    requires o.prefix == t.prefix && o.hasEnd == t.hasEnd
    requires o.n == |t.keys| - (if Find(t.keys, b) < |t.keys| then 1 else 0) && o.keys[..o.n] == RemoveAt(t.keys, Find(t.keys, b))
    ensures Header(o, DelCh(t, b)) && DelCh(t, b).ch == RemoveAt(t.ch, Find(t.keys, b)) && KindOf(DelCh(t, b)) == KindOf(t)
  {}

  lemma EmptyCell()
    ensures Represents(Hole, Empty, {})
  {}

  lemma CellIsHole(cs: seq<Slot>, ts: seq<Node>, fs: seq<set<object>>, i: nat)
    requires Cells(cs, ts, fs) && i < |cs|
    ensures cs[i] == Hole <==> ts[i] == Empty
  {
    HoleIsEmpty(cs[i], ts[i], fs[i]);
  }

  /** The cell of the child under `b`. */
  function CellIndex(t: Node, b: byte): nat {
    match t
    case N4(_, _, ks, _) => Find(ks, b)
    case N16(_, _, ks, _) => Find(ks, b)
    case N48(_, _, _, idx, _) => if b < |idx| then idx[b] else NIL
    case _ => b
  }

  lemma KindsOf(t: Node)
    requires t.Inner() && LocalSound(t) && !Full(t)
    ensures t.N4? || t.N16? ==> t.Count() == |t.ch| < KeyCap(KindOf(t)) == Cap(KindOf(t))
    ensures t.N48? ==> |t.idx| == 256 && |t.ch| == 48
    ensures t.N256? ==> |t.ch| == 256
  {}

  lemma AddedHeader(o: Block, t: Node, b: byte, c: Node)
    requires t.Inner() && Sized(o) && o.kind == KindOf(t) && LocalSound(t) && !Full(t)
    requires o.prefix == t.prefix && o.hasEnd == t.hasEnd
    requires o.n == if t.N256? then (t.n + 1) % U16 else if t.N48? then (t.n + 1) % U8 else t.Count() + 1
    requires t.N4? || t.N16? ==> o.n <= o.keys.Length && o.keys[..o.n] == InsertAt(t.keys, Below(t.keys, b), b)
    requires t.N48? ==> FirstEmpty(t.ch) < 48 && o.idx[..] == t.idx[b := FirstEmpty(t.ch)]
    ensures Header(o, AddCh(t, b, c))
  {}

  /** A Node48 that is not full has a free slot, and it is the first empty one. */
  lemma FreeSlot(cs: seq<Slot>, t: Node, fs: seq<set<object>>)
    requires t.N48? && LocalSound(t) && !Full(t) && Cells(cs, Padded(t), fs)
    ensures FirstEmpty(t.ch) < 48 && cs[FirstEmpty(t.ch)] == Hole
    ensures forall j :: 0 <= j < FirstEmpty(t.ch) ==> cs[j] != Hole
  {
    OccupiedUsed(t.idx, t.ch);
    OccupiedFull(t.ch);
    hide Represents;
    forall j | 0 <= j < 48 ensures cs[j] == Hole <==> t.ch[j] == Empty {
      assert Represents(cs[j], Padded(t)[j], fs[j]);
      HoleIsEmpty(cs[j], t.ch[j], fs[j]);
    }
  }

  /** Slot `s`, the first free one, now belongs to byte `b`. */
  ghost predicate TakesSlot(idx: seq<byte>, idx': seq<byte>, ch: seq<Slot>, ch': seq<Slot>,
                            foot: seq<set<object>>, foot': seq<set<object>>, b: byte, child: Slot, f: set<object>, s: nat)
    requires |idx| == 256 && |ch| == |foot| == 48
  {
    && s < 48 && ch[s] == Hole && (forall j :: 0 <= j < s ==> ch[j] != Hole)
    && idx' == idx[b := s] && ch' == ch[s := child] && foot' == foot[s := f]
  }

  lemma SameSlot(idx: seq<byte>, idx': seq<byte>, ch: seq<Slot>, ch': seq<Slot>,
                 foot: seq<set<object>>, foot': seq<set<object>>, b: byte, child: Slot, f: set<object>, t: Node)
    requires |idx| == 256 && |ch| == |foot| == 48 && t.N48? && SlotTaken(idx, idx', ch, ch', foot, foot', b, child, f)
    requires FirstEmpty(t.ch) < 48 && ch[FirstEmpty(t.ch)] == Hole && forall j :: 0 <= j < FirstEmpty(t.ch) ==> ch[j] != Hole
    ensures TakesSlot(idx, idx', ch, ch', foot, foot', b, child, f, FirstEmpty(t.ch))
    ensures var s: nat := FirstEmpty(t.ch); idx' == idx[b := s] && ch' == ch[s := child] && foot' == foot[s := f]
  {
    hide FirstEmpty;
    var s :| TakesSlot(idx, idx', ch, ch', foot, foot', b, child, f, s);
    assert s == FirstEmpty(t.ch);
  }

  ghost predicate SlotTaken(idx: seq<byte>, idx': seq<byte>, ch: seq<Slot>, ch': seq<Slot>,
                            foot: seq<set<object>>, foot': seq<set<object>>, b: byte, child: Slot, f: set<object>)
    requires |idx| == 256 && |ch| == |foot| == 48
  {
    exists s: nat :: TakesSlot(idx, idx', ch, ch', foot, foot', b, child, f, s)
  }

  /** The arrays have the sizes of the kind. */
  ghost predicate Sized(o: Block)
    reads o
  {
    && o.keys.Length == KeyCap(o.kind) && o.idx.Length == IdxCap(o.kind)
    && o.ch.Length == |o.foot| == Cap(o.kind)
  }

  /** Cells `p..n` moved up by one, `x` in the gap; cell `n` is overwritten. */
  function Shifted<T>(s: seq<T>, p: nat, n: nat, x: T): seq<T>
    requires p <= n < |s|
  {
    s[..p] + [x] + s[p..n] + s[n + 1..]
  }

  /** Cell `p` dropped, the cells up to `n` moved down, `x` in the last. */
  function Unshifted<T>(s: seq<T>, p: nat, n: nat, x: T): seq<T>
    requires p < n <= |s|
  {
    s[..p] + s[p + 1..n] + [x] + s[n..]
  }

  lemma IsInserted<T>(s: seq<T>, t: seq<T>, p: nat, x: T)
    requires p <= |s| == |t| - 1 && t[p] == x
    requires (forall j :: 0 <= j < p ==> t[j] == s[j]) && (forall j :: p < j < |t| ==> t[j] == s[j - 1])
    ensures t == InsertAt(s, p, x)
  {}

  lemma IsShifted<T>(s: seq<T>, t: seq<T>, p: nat, n: nat, x: T)
    requires p <= n < |s| == |t| && t[p] == x
    requires forall j :: 0 <= j < p || n < j < |s| ==> t[j] == s[j]
    requires forall j :: p < j <= n ==> t[j] == s[j - 1]
    ensures t == Shifted(s, p, n, x)
  {}

  lemma ShiftedLength<T>(s: seq<T>, p: nat, n: nat, x: T)
    requires p <= n < |s|
    ensures |Shifted(s, p, n, x)| == |s|
  {}

  lemma IsRemoved<T>(s: seq<T>, t: seq<T>, p: nat)
    requires p < |s| == |t| + 1
    requires (forall j :: 0 <= j < p ==> t[j] == s[j]) && (forall j :: p <= j < |t| ==> t[j] == s[j + 1])
    ensures t == RemoveAt(s, p)
  {}

  lemma IsUnshifted<T>(s: seq<T>, t: seq<T>, p: nat, n: nat, x: T)
    requires p < n <= |s| == |t| && t[n - 1] == x
    requires forall j :: 0 <= j < p || n <= j < |s| ==> t[j] == s[j]
    requires forall j :: p <= j < n - 1 ==> t[j] == s[j + 1]
    ensures t == Unshifted(s, p, n, x)
  {}

  lemma UnshiftedLength<T>(s: seq<T>, p: nat, n: nat, x: T)
    requires p < n <= |s|
    ensures |Unshifted(s, p, n, x)| == |s|
  {}

  lemma NothingRemoved(keys: Key)
    ensures RemoveAt(keys, |keys|) == keys
  {}

  lemma BelowStep(keys: Key, i: nat, b: byte)
    requires i <= |keys|
    ensures Below(keys[i..], b) == if i < |keys| && keys[i] < b then 1 + Below(keys[i + 1..], b) else 0
  {
    if i < |keys| { assert keys[i..][1..] == keys[i + 1..]; }
  }

  lemma FindStep(keys: Key, i: nat, b: byte)
    requires i <= |keys|
    ensures Find(keys[i..], b) == if i < |keys| && keys[i] != b then 1 + Find(keys[i + 1..], b) else 0
  {
    if i < |keys| { assert keys[i..][1..] == keys[i + 1..]; }
  }
}
