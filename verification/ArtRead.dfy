/** Reading the stored form back into nodes in memory. */
module ArtRead {
  import opened Options
  import opened Bytes
  import opened ArtNode
  import opened ArtSer
  import opened ArtHeap
  import opened ArtResize

  // ── Children read so far ─────────────────────────────────────────────

  /** Cells with separate footprints inside `all`. */
  ghost predicate Batch(cs: seq<Slot>, ts: seq<Node>, fs: seq<set<object>>, all: set<object>)
    reads Objects(fs)
  {
    && Cells(cs, ts, fs)
    && (forall i :: 0 <= i < |fs| ==> fs[i] <= all)
    && (forall i, j :: 0 <= i < j < |fs| ==> fs[i] !! fs[j])
  }

  lemma NoBatch()
    ensures Batch([], [], [], {}) && Objects([]) == {}
  {}

  lemma BatchMore(cs: seq<Slot>, ts: seq<Node>, fs: seq<set<object>>, all: set<object>, x: Slot, c: Node, f: set<object>)
    requires Batch(cs, ts, fs, all) && Represents(x, c, f) && f !! all
    ensures Batch(cs + [x], ts + [c], fs + [f], all + f)
    ensures Objects(fs + [f]) <= all + f
  {
    hide Represents;
    var cs', ts', fs' := cs + [x], ts + [c], fs + [f];
    forall i | 0 <= i < |cs'| ensures InObjects(fs', i) && Represents(cs'[i], ts'[i], fs'[i]) {
      if i < |cs| { assert InObjects(fs, i) && Represents(cs[i], ts[i], fs[i]); }
    }
  }

  function PadWith<T>(s: seq<T>, w: nat, d: T): (r: seq<T>)
    ensures |r| == w
  {
    seq(w, i requires 0 <= i < w => if i < |s| then s[i] else d)
  }

  /** A node takes its children over. */
  lemma Adopted(o: Block, t: Node, cs: seq<Slot>, ts: seq<Node>, fs: seq<set<object>>, all: set<object>)
    requires Batch(cs, ts, fs, all) && Own(o) !! all && Sized(o) && Header(o, t)
    requires o.ch[..] == PadWith(cs, Cap(o.kind), Hole) && o.foot == PadWith(fs, Cap(o.kind), {})
    requires t.ch == ts || t.ch == Pad(ts, Cap(o.kind))
    ensures Represents(Box(o), t, Own(o) + all)
  {
    var foot := o.foot;
    EmptyCell();
    forall i | 0 <= i < Cap(o.kind) ensures InObjects(foot, i) && Represents(o.ch[..][i], Padded(t)[i], foot[i]) {
      if i < |cs| { assert InObjects(fs, i) && Represents(cs[i], ts[i], fs[i]); }
    }
    Fold(o, t, Own(o) + all);
  }

  // ── Filling a node ───────────────────────────────────────────────────

  method FillCells(s: Block, cs: seq<Slot>)
    requires |cs| <= s.ch.Length && forall j :: 0 <= j < s.ch.Length ==> s.ch[j] == Hole
    modifies s.ch
    ensures s.ch[..] == PadWith(cs, s.ch.Length, Hole)
  {
    for i := 0 to |cs|
      invariant forall j :: 0 <= j < s.ch.Length ==> s.ch[j] == if j < i then cs[j] else Hole
    {
      s.ch[i] := cs[i];
    }
  }

  method FillKeys(s: Block, keys: Key)
    requires |keys| <= s.keys.Length
    modifies s.keys
    ensures s.keys[..|keys|] == keys
  {
    for i := 0 to |keys|
      invariant forall j :: 0 <= j < i ==> s.keys[j] == keys[j]
    {
      s.keys[i] := keys[i];
    }
  }

  method FillTable(s: Block, idx: seq<byte>)
    requires |idx| == s.idx.Length
    modifies s.idx
    ensures s.idx[..] == idx
  {
    for i := 0 to |idx|
      invariant forall j :: 0 <= j < i ==> s.idx[j] == idx[j]
    {
      s.idx[i] := idx[i];
    }
  }

  // ── Reading ──────────────────────────────────────────────────────────

  ghost function PairsThen(ks: Key, ts: seq<Node>, p: Parsed<(Key, seq<Node>)>): Parsed<(Key, seq<Node>)> {
    if p.Bad? then Bad else Got((ks + p.value.0, ts + p.value.1), p.next)
  }

  ghost function KidsThen(ts: seq<Node>, p: Parsed<seq<Node>>): Parsed<seq<Node>> {
    if p.Bad? then Bad else Got(ts + p.value, p.next)
  }

  lemma PairsFirst(p: Parsed<(Key, seq<Node>)>)
    ensures PairsThen([], [], p) == p
  {
    if p.Got? { assert [] + p.value.0 == p.value.0 && [] + p.value.1 == p.value.1; }
  }

  lemma PairsNext(data: Key, pos: nat, n: nat, ks: Key, ts: seq<Node>)
    requires n > 0
    ensures pos >= |data| || DeNode(data, pos + 1).Bad? ==> PairsThen(ks, ts, DePairs(data, pos, n)) == Bad
    ensures pos < |data| && DeNode(data, pos + 1).Got? ==>
      var c := DeNode(data, pos + 1);
      PairsThen(ks, ts, DePairs(data, pos, n)) == PairsThen(ks + [data[pos]], ts + [c.value], DePairs(data, c.next, n - 1))
  {
    hide DeNode;
    if pos < |data| && DeNode(data, pos + 1).Got? {
      var c := DeNode(data, pos + 1);
      var rest := DePairs(data, c.next, n - 1);
      if rest.Got? {
        assert ks + ([data[pos]] + rest.value.0) == ks + [data[pos]] + rest.value.0;
        assert ts + ([c.value] + rest.value.1) == ts + [c.value] + rest.value.1;
      }
    }
  }

  lemma PairsLast(data: Key, pos: nat, ks: Key, ts: seq<Node>)
    ensures PairsThen(ks, ts, DePairs(data, pos, 0)) == Got((ks, ts), pos)
  {
    assert ks + [] == ks && ts + [] == ts;
  }

  lemma KidsFirst(p: Parsed<seq<Node>>)
    ensures KidsThen([], p) == p
  {
    if p.Got? { assert [] + p.value == p.value; }
  }

  lemma KidsNext(data: Key, pos: nat, n: nat, ts: seq<Node>)
    requires n > 0
    ensures DeNode(data, pos).Bad? ==> KidsThen(ts, DeKids(data, pos, n)) == Bad
    ensures DeNode(data, pos).Got? ==>
      var c := DeNode(data, pos);
      KidsThen(ts, DeKids(data, pos, n)) == KidsThen(ts + [c.value], DeKids(data, c.next, n - 1))
  {
    hide DeNode;
    if DeNode(data, pos).Got? {
      var c := DeNode(data, pos);
      var rest := DeKids(data, c.next, n - 1);
      if rest.Got? { assert ts + ([c.value] + rest.value) == ts + [c.value] + rest.value; }
    }
  }

  lemma KidsLast(data: Key, pos: nat, ts: seq<Node>)
    ensures KidsThen(ts, DeKids(data, pos, 0)) == Got(ts, pos)
  {
    assert ts + [] == ts;
  }

  /** `de_node`. */
  method ReadNode(data: Key, pos: nat) returns (got: bool, s: Slot, next: nat, ghost f: set<object>)
    ensures got <==> DeNode(data, pos).Got?
    ensures got ==> next == DeNode(data, pos).next && Represents(s, DeNode(data, pos).value, f)
    ensures fresh(f)
    decreases |data| - pos, 3
  {
    hide DePfx, DeList, De48, De256, FromBigEndian;
    s, next, f := Hole, pos, {};
    if pos >= |data| { return false, s, next, f; }
    var tag := data[pos];
    if tag == TAG_EMPTY { return true, Hole, pos + 1, {}; }
    if tag == TAG_LEAF {
      if pos + 3 > |data| { return false, s, next, f; }
      var end := pos + 3 + FromBigEndian(data[pos + 1..pos + 3]);
      if |data| < end { return false, s, next, f; }
      return true, Tail(data[pos + 3..end]), end, {};
    }
    if tag == TAG_N4 || tag == TAG_N16 {
      got, s, next, f := ReadList(data, pos + 1, tag == TAG_N4);
    } else if tag == TAG_N48 {
      got, s, next, f := ReadTable(data, pos + 1);
    } else if tag == TAG_N256 {
      got, s, next, f := ReadDirect(data, pos + 1);
    } else {
      got := false;
    }
  }

  /** The key bytes and children of a list node, in turn. */
  method ReadPairs(data: Key, pos: nat, n: nat) returns (got: bool, keys: Key, cs: seq<Slot>, next: nat, ghost fs: seq<set<object>>, ghost all: set<object>)
    ensures got <==> DePairs(data, pos, n).Got?
    ensures got ==> next == DePairs(data, pos, n).next && keys == DePairs(data, pos, n).value.0 && Batch(cs, DePairs(data, pos, n).value.1, fs, all)
    ensures fresh(all)
    decreases |data| - pos, 4 + n
  {
    hide DeNode, DePairs, Cells, Represents;
    keys, cs, next, fs, all := [], [], pos, [], {};
    ghost var ts: seq<Node> := [];
    NoBatch();
    PairsFirst(DePairs(data, pos, n));
    for i := 0 to n
      invariant if i == 0 then next == pos else pos < next <= |data|
      invariant DePairs(data, pos, n) == PairsThen(keys, ts, DePairs(data, next, n - i))
      invariant Batch(cs, ts, fs, all) && Objects(fs) <= all && fresh(all)
    {
      PairsNext(data, next, n - i, keys, ts);
      if next >= |data| { return false, keys, cs, next, fs, all; }
      var key := data[next];
      ghost var c := DeNode(data, next + 1);
      var ok, x, p;
      ghost var f;
      ok, x, p, f := ReadNode(data, next + 1);
      if !ok { return false, keys, cs, next, fs, all; }
      BatchMore(cs, ts, fs, all, x, c.value, f);
      keys, cs, next := keys + [key], cs + [x], p;
      ts, fs, all := ts + [c.value], fs + [f], all + f;
    }
    PairsLast(data, next, keys, ts);
    got := true;
  }

  /** Children one after another. */
  method ReadKids(data: Key, pos: nat, n: nat) returns (got: bool, cs: seq<Slot>, next: nat, ghost fs: seq<set<object>>, ghost all: set<object>)
    ensures got <==> DeKids(data, pos, n).Got?
    ensures got ==> next == DeKids(data, pos, n).next && Batch(cs, DeKids(data, pos, n).value, fs, all)
    ensures fresh(all)
    decreases |data| - pos, 4 + n
  {
    hide DeNode, DeKids, Cells, Represents;
    cs, next, fs, all := [], pos, [], {};
    ghost var ts: seq<Node> := [];
    NoBatch();
    KidsFirst(DeKids(data, pos, n));
    for i := 0 to n
      invariant if i == 0 then next == pos else pos < next <= |data|
      invariant DeKids(data, pos, n) == KidsThen(ts, DeKids(data, next, n - i))
      invariant Batch(cs, ts, fs, all) && Objects(fs) <= all && fresh(all)
    {
      KidsNext(data, next, n - i, ts);
      ghost var c := DeNode(data, next);
      var ok, x, p;
      ghost var f;
      ok, x, p, f := ReadNode(data, next);
      if !ok { return false, cs, next, fs, all; }
      BatchMore(cs, ts, fs, all, x, c.value, f);
      cs, next := cs + [x], p;
      ts, fs, all := ts + [c.value], fs + [f], all + f;
    }
    KidsLast(data, next, ts);
    got := true;
  }

  method ReadList(data: Key, pos: nat, small: bool) returns (got: bool, s: Slot, next: nat, ghost f: set<object>)
    ensures got <==> DeList(data, pos, small).Got?
    ensures got ==> next == DeList(data, pos, small).next && Represents(s, DeList(data, pos, small).value, f)
    ensures fresh(f)
    decreases |data| - pos, 3
  {
    s, next, f := Hole, pos, {};
    hide DePfx, DePairs, Represents, Batch;
    match DePfx(data, pos) {
      case Bad => return false, s, next, f;
      case Got(head, q) =>
        if q >= |data| || data[q] > (if small then 4 else 16) { return false, s, next, f; }
        var keys, cs;
        ghost var fs, all;
        got, keys, cs, next, fs, all := ReadPairs(data, q + 1, data[q]);
        if !got { return false, s, next, f; }
        ghost var ts := DePairs(data, q + 1, data[q]).value.1;
        s, f := BuildList(small, head.0, head.1, keys, cs, ts, fs, all);
    }
  }

  method BuildList(small: bool, p: Key, e: bool, keys: Key, cs: seq<Slot>, ghost ts: seq<Node>, ghost fs: seq<set<object>>, ghost all: set<object>)
    returns (s: Slot, ghost f: set<object>)
    requires Batch(cs, ts, fs, all) && |keys| == |ts| <= (if small then 4 else 16)
    ensures Represents(s, if small then N4(p, e, keys, ts) else N16(p, e, keys, ts), f) && f >= all && fresh(f - all)
  {
    hide *;
    BatchSize(cs, ts, fs, all);
    var o := new Block(if small then K4 else K16, p, e);
    Sizes(o);
    o.n := |keys|;
    FillKeys(o, keys);
    FillCells(o, cs);
    o.foot := PadWith(fs, o.ch.Length, {});
    ghost var t := if small then N4(p, e, keys, ts) else N16(p, e, keys, ts);
    ArtResize.ListHeader(o, t);
    Capacity(o.kind);
    Adopted(o, t, cs, ts, fs, all);
    s, f := Box(o), Own(o) + all;
  }

  method ReadTable(data: Key, pos: nat) returns (got: bool, s: Slot, next: nat, ghost f: set<object>)
    ensures got <==> De48(data, pos).Got?
    ensures got ==> next == De48(data, pos).next && Represents(s, De48(data, pos).value, f)
    ensures fresh(f)
    decreases |data| - pos, 3
  {
    s, next, f := Hole, pos, {};
    hide DePfx, DeKids, Represents, Batch, Pad;
    match DePfx(data, pos) {
      case Bad => return false, s, next, f;
      case Got(head, q) =>
        if q >= |data| || |data| < q + 257 { return false, s, next, f; }
        var n := data[q];
        var idx := data[q + 1..q + 257];
        var cs;
        ghost var fs, all;
        got, cs, next, fs, all := ReadKids(data, q + 257, if n <= 48 then n else 48);
        if !got { return false, s, next, f; }
        ghost var ts := DeKids(data, q + 257, if n <= 48 then n else 48).value;
        s, f := BuildTable(head.0, head.1, n, idx, cs, ts, fs, all);
    }
  }

  method BuildTable(p: Key, e: bool, n: nat, idx: seq<byte>, cs: seq<Slot>, ghost ts: seq<Node>, ghost fs: seq<set<object>>, ghost all: set<object>)
    returns (s: Slot, ghost f: set<object>)
    requires Batch(cs, ts, fs, all) && |idx| == 256 && |ts| <= 48
    ensures Represents(s, N48(p, e, n, idx, Pad(ts, 48)), f) && f >= all && fresh(f - all)
  {
    hide *;
    BatchSize(cs, ts, fs, all);
    var o := new Block(K48, p, e);
    Sizes(o);
    o.n := n;
    FillTable(o, idx);
    FillCells(o, cs);
    o.foot := PadWith(fs, o.ch.Length, {});
    ghost var t := N48(p, e, n, idx, Pad(ts, 48));
    TableHeader(o, t);
    Capacity(o.kind);
    Adopted(o, t, cs, ts, fs, all);
    s, f := Box(o), Own(o) + all;
  }

  /** All 256 cells; the counter is taken afresh. */
  method ReadDirect(data: Key, pos: nat) returns (got: bool, s: Slot, next: nat, ghost f: set<object>)
    ensures got <==> De256(data, pos).Got?
    ensures got ==> next == De256(data, pos).next && Represents(s, De256(data, pos).value, f)
    ensures fresh(f)
    decreases |data| - pos, 3
  {
    s, next, f := Hole, pos, {};
    hide DePfx, DeKids, Represents, Batch, Occupied;
    match DePfx(data, pos) {
      case Bad => return false, s, next, f;
      case Got(head, q) =>
        var cs;
        ghost var fs, all;
        got, cs, next, fs, all := ReadKids(data, q, 256);
        if !got { return false, s, next, f; }
        ghost var ts := DeKids(data, q, 256).value;
        s, f := BuildDirect(head.0, head.1, cs, ts, fs, all);
    }
  }

  method BuildDirect(p: Key, e: bool, cs: seq<Slot>, ghost ts: seq<Node>, ghost fs: seq<set<object>>, ghost all: set<object>)
    returns (s: Slot, ghost f: set<object>)
    requires Batch(cs, ts, fs, all) && |ts| == 256
    ensures Represents(s, N256(p, e, Occupied(ts), ts), f) && f >= all && fresh(f - all)
  {
    hide *;
    BatchSize(cs, ts, fs, all);
    var o := new Block(K256, p, e);
    Sizes(o);
    o.n := CountCells(cs, ts, fs, all);
    FillCells(o, cs);
    o.foot := PadWith(fs, o.ch.Length, {});
    ghost var t := N256(p, e, Occupied(ts), ts);
    DirectHeader(o, t);
    Capacity(o.kind);
    Adopted(o, t, cs, ts, fs, all);
    s, f := Box(o), Own(o) + all;
  }

  /** How many cells hold something. */
  method CountCells(cs: seq<Slot>, ghost ts: seq<Node>, ghost fs: seq<set<object>>, ghost all: set<object>) returns (n: nat)
    requires Batch(cs, ts, fs, all)
    ensures n == Occupied(ts)
  {
    n := 0;
    for i := 0 to |cs|
      invariant n == Occupied(ts[..i])
    {
      CellIsHole(cs, ts, fs, i);
      assert ts[..i + 1][..i] == ts[..i];
      if cs[i] != Hole { n := n + 1; }
    }
    assert ts[..|ts|] == ts;
  }

  lemma BatchSize(cs: seq<Slot>, ts: seq<Node>, fs: seq<set<object>>, all: set<object>)
    requires Batch(cs, ts, fs, all)
    ensures |cs| == |ts| == |fs| && Objects(fs) <= all
  {}

  lemma Capacity(k: Kind)
    ensures Cap(k) == match k case K4 => 4 case K16 => 16 case K48 => 48 case K256 => 256
  {}
}
