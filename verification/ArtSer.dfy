/** The stored form of a tree: bytes out, bytes in, and what a round trip keeps. */
module ArtSer {
  import opened Options
  import opened Bytes
  import opened ArtNode
  import opened ArtOps
  import opened ArtSet
  import opened ArtOrder
  import opened ArtShape

  const TAG_EMPTY: byte := 0
  const TAG_LEAF: byte := 1
  const TAG_N4: byte := 2
  const TAG_N16: byte := 3
  const TAG_N48: byte := 4
  const TAG_N256: byte := 5

  // ── Writing ──────────────────────────────────────────────────────────

  function SerPfx(p: Key, e: bool): Key {
    [|p| % 256] + (p + [if e then 1 else 0])
  }

  function Ser(t: Node): (s: Key)
    ensures |s| > 0
    decreases t, 1
  {
    match t
    case Empty => [TAG_EMPTY]
    case Leaf(sfx) => [TAG_LEAF] + (BigEndian(|sfx|, 2) + sfx)
    case N4(p, e, ks, ch) => [TAG_N4] + (SerPfx(p, e) + ([|ks| % 256] + SerPairs(ks, ch)))
    case N16(p, e, ks, ch) => [TAG_N16] + (SerPfx(p, e) + ([|ks| % 256] + SerPairs(ks, ch)))
    case N48(p, e, n, idx, ch) => [TAG_N48] + (SerPfx(p, e) + ([n % 256] + (idx + SerKids(ch, n))))
    case N256(p, e, _, ch) => [TAG_N256] + (SerPfx(p, e) + SerKids(ch, 256))
  }

  /** Key bytes, each followed by its child. */
  function SerPairs(ks: Key, ch: seq<Node>): Key
    decreases ch, 0
  {
    if ks == [] || ch == [] then [] else [ks[0]] + (Ser(ch[0]) + SerPairs(ks[1..], ch[1..]))
  }

  /** The first `n` children. */
  function SerKids(ch: seq<Node>, n: nat): Key
    decreases ch, 0
  {
    if n == 0 || ch == [] then [] else Ser(ch[0]) + SerKids(ch[1..], n - 1)
  }

  // ── Reading ──────────────────────────────────────────────────────────

  datatype Parsed<T> = Got(value: T, next: nat) | Bad

  function DePfx(data: Key, pos: nat): (r: Parsed<(Key, bool)>)
    ensures r.Got? ==> pos + 2 <= r.next <= |data|
  {
    if pos >= |data| then Bad
    else
      var end := pos + 1 + data[pos];
      if |data| < end + 1 then Bad else Got((data[pos + 1..end], data[end] != 0), end + 1)
  }

  function DeNode(data: Key, pos: nat): (r: Parsed<Node>)
    ensures r.Got? ==> pos < r.next <= |data|
    decreases |data| - pos, 3
  {
    if pos >= |data| then Bad
    else if data[pos] == TAG_EMPTY then Got(Empty, pos + 1)
    else if data[pos] == TAG_LEAF then DeLeaf(data, pos + 1)
    else if data[pos] == TAG_N4 || data[pos] == TAG_N16 then DeList(data, pos + 1, data[pos] == TAG_N4)
    else if data[pos] == TAG_N48 then De48(data, pos + 1)
    else if data[pos] == TAG_N256 then De256(data, pos + 1)
    else Bad
  }

  function DeLeaf(data: Key, pos: nat): (r: Parsed<Node>)
    ensures r.Got? ==> pos < r.next <= |data|
  {
    if pos + 2 > |data| then Bad
    else
      var end := pos + 2 + FromBigEndian(data[pos..pos + 2]);
      if |data| < end then Bad else Got(Leaf(data[pos + 2..end]), end)
  }

  /** Node4 (`small`) or Node16, after the tag. */
  function DeList(data: Key, pos: nat, small: bool): (r: Parsed<Node>)
    ensures r.Got? ==> pos < r.next <= |data|
    decreases |data| - pos, 3
  {
    match DePfx(data, pos)
    case Bad => Bad
    case Got((p, e), q) =>
      if q >= |data| || data[q] > (if small then 4 else 16) then Bad
      else
        match DePairs(data, q + 1, data[q])
        case Bad => Bad
        case Got((ks, ch), r) => Got(if small then N4(p, e, ks, ch) else N16(p, e, ks, ch), r)
  }

  function De48(data: Key, pos: nat): (r: Parsed<Node>)
    ensures r.Got? ==> pos < r.next <= |data|
    decreases |data| - pos, 3
  {
    match DePfx(data, pos)
    case Bad => Bad
    case Got((p, e), q) =>
      if q >= |data| || |data| < q + 257 then Bad
      else
        match DeKids(data, q + 257, if data[q] <= 48 then data[q] else 48)
        case Bad => Bad
        case Got(ch, r) => Got(N48(p, e, data[q], data[q + 1..q + 257], Pad(ch, 48)), r)
  }

  function De256(data: Key, pos: nat): (r: Parsed<Node>)
    ensures r.Got? ==> pos < r.next <= |data|
    decreases |data| - pos, 3
  {
    match DePfx(data, pos)
    case Bad => Bad
    case Got((p, e), q) =>
      match DeKids(data, q, 256)
      case Bad => Bad
      case Got(ch, r) => Got(N256(p, e, Occupied(ch), ch), r)
  }

  function DePairs(data: Key, pos: nat, n: nat): (r: Parsed<(Key, seq<Node>)>)
    ensures r.Got? ==> pos <= r.next && (r.next <= |data| || r.next == pos)
    ensures r.Got? ==> |r.value.0| == |r.value.1| == n
    decreases |data| - pos, 4 + n
  {
    if n == 0 then Got(([], []), pos)
    else if pos >= |data| then Bad
    else
      match DeNode(data, pos + 1)
      case Bad => Bad
      case Got(c, p) =>
        match DePairs(data, p, n - 1)
        case Bad => Bad
        case Got((ks, cs), q) => Got(([data[pos]] + ks, [c] + cs), q)
  }

  function DeKids(data: Key, pos: nat, n: nat): (r: Parsed<seq<Node>>)
    ensures r.Got? ==> pos <= r.next && (r.next <= |data| || r.next == pos)
    ensures r.Got? ==> |r.value| == n
    decreases |data| - pos, 4 + n
  {
    if n == 0 then Got([], pos)
    else
      match DeNode(data, pos)
      case Bad => Bad
      case Got(c, p) =>
        match DeKids(data, p, n - 1)
        case Bad => Bad
        case Got(cs, q) => Got([c] + cs, q)
  }

  /** Writing goes through: `ser_pfx` asserts that no prefix is too long. */
  predicate Writable(t: Node)
    decreases t
  {
    t.Inner() ==>
      && |t.prefix| <= 255
      && forall i :: 0 <= i < |t.ch| && (t.N48? ==> i < t.n) ==> Writable(t.ch[i])
  }

  // ── Trees ────────────────────────────────────────────────────────────

  const U32: nat := 0x1_0000_0000

  function ToBytes(t: Tree): Key { BigEndian(t.len, 4) + Ser(t.root) }

  function FromBytes(data: Key): Option<Tree> {
    if |data| < 4 then None
    else
      match DeNode(data, 4)
      case Bad => None
      case Got(root, end) => if end != |data| then None else Some(Tree(root, FromBigEndian(data[..4])))
  }

  // ── What reading back gives ──────────────────────────────────────────

  /** Lengths fit their fields: `u8` for prefixes and counters, `u16` for leaves. */
  ghost predicate Fits(t: Node)
    decreases t
  {
    && (match t
        case Empty => true
        case Leaf(s) => |s| < 65536
        case N4(p, _, ks, ch) => |ks| == |ch| <= 4
        case N16(p, _, ks, ch) => |ks| == |ch| <= 16
        case N48(p, _, n, idx, ch) => n <= 48 && |idx| == 256 && |ch| == 48
        case N256(p, _, _, ch) => |ch| == 256)
    && (t.Inner() ==> |t.prefix| <= 255 && forall i :: 0 <= i < |t.ch| ==> Fits(t.ch[i]))
  }

  /** The tree as it is read back: Node48 slots from `n` on are gone and a
      Node256 is counted afresh. */
  function Reload(t: Node): Node
    decreases t
  {
    match t
    case Empty => t
    case Leaf(_) => t
    case N4(p, e, ks, ch) => N4(p, e, ks, seq(|ch|, i requires 0 <= i < |ch| => Reload(ch[i])))
    case N16(p, e, ks, ch) => N16(p, e, ks, seq(|ch|, i requires 0 <= i < |ch| => Reload(ch[i])))
    case N48(p, e, n, idx, ch) =>
      N48(p, e, n, idx, seq(|ch|, i requires 0 <= i < |ch| => if i < n then Reload(ch[i]) else Empty))
    case N256(p, e, n, ch) =>
      var r := seq(|ch|, i requires 0 <= i < |ch| => Reload(ch[i]));
      N256(p, e, Occupied(r), r)
  }

  /** `s` lies in `data` at `pos`. */
  predicate At(data: Key, pos: nat, s: Key) {
    pos + |s| <= |data| && data[pos..pos + |s|] == s
  }

  lemma AtSplit(data: Key, pos: nat, a: Key, b: Key)
    requires At(data, pos, a + b)
    ensures At(data, pos, a) && At(data, pos + |a|, b)
  {
    var w := data[pos..pos + |a| + |b|];
    assert w[..|a|] == a && w[|a|..] == b;
    assert data[pos..pos + |a|] == w[..|a|];
    assert data[pos + |a|..pos + |a| + |b|] == w[|a|..];
  }

  lemma AtByte(data: Key, pos: nat, x: byte, b: Key)
    requires At(data, pos, [x] + b)
    ensures pos < |data| && data[pos] == x && At(data, pos + 1, b)
  {
    AtSplit(data, pos, [x], b);
    assert data[pos..pos + 1][0] == x;
  }

  lemma DePfxAt(data: Key, pos: nat, p: Key, e: bool, rest: Key)
    requires |p| <= 255 && At(data, pos, SerPfx(p, e) + rest)
    ensures DePfx(data, pos) == Got((p, e), pos + |p| + 2)
    ensures At(data, pos + |p| + 2, rest)
  {
    AtSplit(data, pos, SerPfx(p, e), rest);
    AtByte(data, pos, |p| % 256, p + [if e then 1 else 0]);
    AtSplit(data, pos + 1, p, [if e then 1 else 0]);
    AtByte(data, pos + 1 + |p|, if e then 1 else 0, []);
  }

  /** The reloads of the first `n` children. */
  function Reloads(ch: seq<Node>, n: nat): (r: seq<Node>)
    requires n <= |ch|
    ensures |r| == n
  {
    seq(n, j requires 0 <= j < n => Reload(ch[j]))
  }

  lemma ReloadsStep(ch: seq<Node>, n: nat)
    requires 0 < n <= |ch|
    ensures Reloads(ch, n) == [Reload(ch[0])] + Reloads(ch[1..], n - 1)
  {}

  /** Reading a written tree gives its reload and consumes every byte of it. */
  lemma {:induction false} RoundTrip(t: Node, data: Key, pos: nat)
    requires Fits(t) && At(data, pos, Ser(t))
    ensures DeNode(data, pos) == Got(Reload(t), pos + |Ser(t)|)
    decreases t, 1
  {
    if t == Empty {
      AtByte(data, pos, TAG_EMPTY, []);
    } else if t.Leaf? {
      AtByte(data, pos, TAG_LEAF, BigEndian(|t.sfx|, 2) + t.sfx);
      RoundTripLeaf(t.sfx, data, pos + 1);
    } else if t.N4? || t.N16? {
      ListTag(t, data, pos);
      RoundTripList(t, data, pos + 1);
    } else if t.N48? {
      Tag48(t, data, pos);
      RoundTrip48(t, data, pos + 1);
    } else {
      Tag256(t, data, pos);
      RoundTrip256(t, data, pos + 1);
    }
  }

  lemma ListTag(t: Node, data: Key, pos: nat)
    requires (t.N4? || t.N16?) && |t.prefix| <= 255 && |t.keys| <= 16 && At(data, pos, Ser(t))
    ensures DeNode(data, pos) == DeList(data, pos + 1, t.N4?)
    ensures ListAt(t, data, pos + 1) && |Ser(t)| == 4 + |t.prefix| + |SerPairs(t.keys, t.ch)|
  {
    AtByte(data, pos, if t.N4? then TAG_N4 else TAG_N16, SerPfx(t.prefix, t.hasEnd) + ([|t.keys| % 256] + SerPairs(t.keys, t.ch)));
    ListHeader(t, data, pos + 1);
  }

  lemma Tag48(t: Node, data: Key, pos: nat)
    requires t.N48? && |t.prefix| <= 255 && t.n <= 48 && |t.idx| == 256 && At(data, pos, Ser(t))
    ensures DeNode(data, pos) == De48(data, pos + 1)
    ensures At48(t, data, pos + 1) && |Ser(t)| == 260 + |t.prefix| + |SerKids(t.ch, t.n)|
  {
    AtByte(data, pos, TAG_N48, SerPfx(t.prefix, t.hasEnd) + ([t.n % 256] + (t.idx + SerKids(t.ch, t.n))));
    Header48(t, data, pos + 1);
  }

  lemma Tag256(t: Node, data: Key, pos: nat)
    requires t.N256? && |t.prefix| <= 255 && At(data, pos, Ser(t))
    ensures DeNode(data, pos) == De256(data, pos + 1)
    ensures At256(t, data, pos + 1) && |Ser(t)| == 3 + |t.prefix| + |SerKids(t.ch, 256)|
  {
    AtByte(data, pos, TAG_N256, SerPfx(t.prefix, t.hasEnd) + SerKids(t.ch, 256));
    Header256(t, data, pos + 1);
  }

  // The fields of a written node, found where the reader looks for them.

  predicate ListAt(t: Node, data: Key, pos: nat)
    requires t.N4? || t.N16?
  {
    var q := pos + |t.prefix| + 2;
    && DePfx(data, pos) == Got((t.prefix, t.hasEnd), q) && q < |data| && data[q] == |t.keys|
    && At(data, q + 1, SerPairs(t.keys, t.ch))
  }

  predicate At48(t: Node, data: Key, pos: nat)
    requires t.N48?
  {
    var q := pos + |t.prefix| + 2;
    && DePfx(data, pos) == Got((t.prefix, t.hasEnd), q) && q + 257 <= |data| && data[q] == t.n
    && data[q + 1..q + 257] == t.idx && At(data, q + 257, SerKids(t.ch, t.n))
  }

  predicate At256(t: Node, data: Key, pos: nat)
    requires t.N256?
  {
    var q := pos + |t.prefix| + 2;
    DePfx(data, pos) == Got((t.prefix, t.hasEnd), q) && At(data, q, SerKids(t.ch, 256))
  }

  lemma RoundTripLeaf(s: Key, data: Key, pos: nat)
    requires |s| < 65536 && At(data, pos, BigEndian(|s|, 2) + s)
    ensures DeLeaf(data, pos) == Got(Leaf(s), pos + 2 + |s|)
  {
    hide *;
    var len := BigEndian(|s|, 2);
    AtSplit(data, pos, len, s);
    AtRange(data, pos, len);
    AtRange(data, pos + 2, s);
    TwoBytes(|s|);
    LeafRead(data, pos, |s|);
  }

  lemma TwoBytes(n: nat)
    requires n < 65536
    ensures FromBigEndian(BigEndian(n, 2)) == n
  {
    assert Pow256(1) == 256 && Pow256(2) == 65536;
    BigEndianRoundTrip(n, 2);
  }

  lemma LeafRead(data: Key, pos: nat, n: nat)
    requires pos + 2 + n <= |data| && FromBigEndian(data[pos..pos + 2]) == n
    ensures DeLeaf(data, pos) == Got(Leaf(data[pos + 2..pos + 2 + n]), pos + 2 + n)
  {
    hide FromBigEndian;
  }

  // One step of each reader, and the shape of its result, on their own.

  lemma De256Step(data: Key, pos: nat, p: Key, e: bool, q: nat, ch: seq<Node>, r: nat)
    requires DePfx(data, pos) == Got((p, e), q) && DeKids(data, q, 256) == Got(ch, r)
    ensures De256(data, pos) == Got(N256(p, e, Occupied(ch), ch), r)
  {}

  lemma De48Step(data: Key, pos: nat, p: Key, e: bool, q: nat, n: nat, ch: seq<Node>, r: nat)
    requires DePfx(data, pos) == Got((p, e), q) && q + 257 <= |data| && data[q] == n <= 48
    requires DeKids(data, q + 257, n) == Got(ch, r)
    ensures De48(data, pos) == Got(N48(p, e, n, data[q + 1..q + 257], Pad(ch, 48)), r)
  {}

  lemma DeListStep(data: Key, pos: nat, small: bool, p: Key, e: bool, q: nat, ks: Key, ch: seq<Node>, r: nat)
    requires DePfx(data, pos) == Got((p, e), q) && q < |data| && data[q] <= if small then 4 else 16
    requires DePairs(data, q + 1, data[q]) == Got((ks, ch), r)
    ensures DeList(data, pos, small) == Got(if small then N4(p, e, ks, ch) else N16(p, e, ks, ch), r)
  {}

  lemma DePairsStep(data: Key, pos: nat, n: nat, c: Node, p: nat, ks: Key, cs: seq<Node>, q: nat)
    requires n > 0 && pos < |data|
    requires DeNode(data, pos + 1) == Got(c, p) && DePairs(data, p, n - 1) == Got((ks, cs), q)
    ensures DePairs(data, pos, n) == Got(([data[pos]] + ks, [c] + cs), q)
  {}

  lemma DeKidsStep(data: Key, pos: nat, n: nat, c: Node, p: nat, cs: seq<Node>, q: nat)
    requires n > 0 && DeNode(data, pos) == Got(c, p) && DeKids(data, p, n - 1) == Got(cs, q)
    ensures DeKids(data, pos, n) == Got([c] + cs, q)
  {}

  lemma ReloadKids(t: Node)
    requires Fits(t) && t.Inner()
    ensures t.N4? ==> Reload(t) == N4(t.prefix, t.hasEnd, t.keys, Reloads(t.ch, |t.ch|))
    ensures t.N16? ==> Reload(t) == N16(t.prefix, t.hasEnd, t.keys, Reloads(t.ch, |t.ch|))
    ensures t.N48? ==> Reload(t) == N48(t.prefix, t.hasEnd, t.n, t.idx, Pad(Reloads(t.ch, t.n), 48))
    ensures t.N256? ==> Reload(t) == N256(t.prefix, t.hasEnd, Occupied(Reloads(t.ch, 256)), Reloads(t.ch, 256))
  {
    match t {
      case N4(p, e, ks, ch) => assert Reload(t).ch == Reloads(ch, |ch|);
      case N16(p, e, ks, ch) => assert Reload(t).ch == Reloads(ch, |ch|);
      case N48(p, e, n, idx, ch) => assert Reload(t).ch == Pad(Reloads(ch, n), 48);
      case N256(p, e, n, ch) => assert Reload(t).ch == Reloads(ch, 256);
    }
  }

  lemma ListHeader(t: Node, data: Key, pos: nat)
    requires (t.N4? || t.N16?) && |t.prefix| <= 255 && |t.keys| <= 16
    requires At(data, pos, SerPfx(t.prefix, t.hasEnd) + ([|t.keys| % 256] + SerPairs(t.keys, t.ch)))
    ensures ListAt(t, data, pos)
  {
    hide SerPairs, SerPfx, DePfx, At;
    var rest := [|t.keys| % 256] + SerPairs(t.keys, t.ch);
    DePfxAt(data, pos, t.prefix, t.hasEnd, rest);
    AtByte(data, pos + |t.prefix| + 2, |t.keys| % 256, SerPairs(t.keys, t.ch));
  }

  lemma Header256(t: Node, data: Key, pos: nat)
    requires t.N256? && |t.prefix| <= 255 && At(data, pos, SerPfx(t.prefix, t.hasEnd) + SerKids(t.ch, 256))
    ensures At256(t, data, pos)
    ensures |Ser(t)| == 3 + |t.prefix| + |SerKids(t.ch, 256)|
  {
    DePfxAt(data, pos, t.prefix, t.hasEnd, SerKids(t.ch, 256));
  }

  lemma AtRange(data: Key, pos: nat, s: Key)
    requires At(data, pos, s)
    ensures pos + |s| <= |data| && data[pos..pos + |s|] == s
  {}

  lemma Header48(t: Node, data: Key, pos: nat)
    requires t.N48? && |t.prefix| <= 255 && t.n <= 48 && |t.idx| == 256
    requires At(data, pos, SerPfx(t.prefix, t.hasEnd) + ([t.n % 256] + (t.idx + SerKids(t.ch, t.n))))
    ensures At48(t, data, pos)
  {
    hide SerKids, SerPfx, DePfx, At;
    var q, rest := pos + |t.prefix| + 2, t.idx + SerKids(t.ch, t.n);
    DePfxAt(data, pos, t.prefix, t.hasEnd, [t.n % 256] + rest);
    AtByte(data, q, t.n, rest);
    AtSplit(data, q + 1, t.idx, SerKids(t.ch, t.n));
    AtRange(data, q + 1, t.idx);
  }

  lemma ListParts(t: Node, data: Key, pos: nat)
    requires Fits(t) && (t.N4? || t.N16?) && ListAt(t, data, pos)
    ensures t.Inner() && |t.keys| == |t.ch| <= (if t.N4? then 4 else 16) && forall j :: 0 <= j < |t.ch| ==> Fits(t.ch[j])
    ensures var q := pos + |t.prefix| + 2;
      && DePfx(data, pos) == Got((t.prefix, t.hasEnd), q) && q < |data| && data[q] == |t.keys|
      && At(data, q + 1, SerPairs(t.keys, t.ch))
  {
    hide DePfx, At, SerPairs;
  }

  lemma {:induction false} RoundTripList(t: Node, data: Key, pos: nat)
    requires Fits(t) && (t.N4? || t.N16?)
    requires ListAt(t, data, pos)
    ensures DeList(data, pos, t.N4?) == Got(Reload(t), pos + 3 + |t.prefix| + |SerPairs(t.keys, t.ch)|)
    decreases t, 0
  {
    hide *;
    var q := pos + |t.prefix| + 2;
    ListParts(t, data, pos);
    RoundTripPairs(t.keys, t.ch, data, q + 1);
    DeListStep(data, pos, t.N4?, t.prefix, t.hasEnd, q, t.keys, Reloads(t.ch, |t.ch|), q + 1 + |SerPairs(t.keys, t.ch)|);
    ReloadKids(t);
  }

  lemma {:induction false} RoundTrip48(t: Node, data: Key, pos: nat)
    requires t.N48? && Fits(t)
    requires At48(t, data, pos)
    ensures De48(data, pos) == Got(Reload(t), pos + 259 + |t.prefix| + |SerKids(t.ch, t.n)|)
    decreases t, 0
  {
    var q, n := pos + |t.prefix| + 2, t.n;
    RoundTripKids(t.ch, n, data, q + 257);
    De48Step(data, pos, t.prefix, t.hasEnd, q, n, Reloads(t.ch, n), q + 257 + |SerKids(t.ch, n)|);
    ReloadKids(t);
  }

  lemma {:induction false} RoundTrip256(t: Node, data: Key, pos: nat)
    requires t.N256? && Fits(t) && At256(t, data, pos)
    ensures De256(data, pos) == Got(Reload(t), pos + 2 + |t.prefix| + |SerKids(t.ch, 256)|)
    decreases t, 0
  {
    var q := pos + |t.prefix| + 2;
    RoundTripKids(t.ch, 256, data, q);
    De256Step(data, pos, t.prefix, t.hasEnd, q, Reloads(t.ch, 256), q + |SerKids(t.ch, 256)|);
    ReloadKids(t);
  }

  lemma NothingRead(data: Key, pos: nat, ch: seq<Node>)
    ensures DePairs(data, pos, 0) == Got(([], []), pos) && DeKids(data, pos, 0) == Got([], pos)
    ensures SerPairs([], []) == [] && SerKids(ch, 0) == [] && Reloads(ch, 0) == []
  {}

  lemma PairsUnfold(ks: Key, ch: seq<Node>)
    requires ks != [] && ch != []
    ensures SerPairs(ks, ch) == [ks[0]] + (Ser(ch[0]) + SerPairs(ks[1..], ch[1..]))
  {
    hide Ser;
  }

  lemma PairHeader(ks: Key, ch: seq<Node>, data: Key, pos: nat)
    requires ks != [] && ch != [] && At(data, pos, SerPairs(ks, ch))
    ensures var p, rest := pos + 1 + |Ser(ch[0])|, SerPairs(ks[1..], ch[1..]);
      && pos < |data| && data[pos] == ks[0] && At(data, pos + 1, Ser(ch[0])) && At(data, p, rest)
      && |SerPairs(ks, ch)| == 1 + |Ser(ch[0])| + |rest|
  {
    hide *;
    PairsUnfold(ks, ch);
    AtByte(data, pos, ks[0], Ser(ch[0]) + SerPairs(ks[1..], ch[1..]));
    AtSplit(data, pos + 1, Ser(ch[0]), SerPairs(ks[1..], ch[1..]));
  }

  lemma {:induction false} RoundTripPairs(ks: Key, ch: seq<Node>, data: Key, pos: nat)
    requires |ks| == |ch| && (forall j :: 0 <= j < |ch| ==> Fits(ch[j])) && At(data, pos, SerPairs(ks, ch))
    ensures DePairs(data, pos, |ch|) == Got((ks, Reloads(ch, |ch|)), pos + |SerPairs(ks, ch)|)
    decreases ch, 0
  {
    hide *;
    if ch == [] {
      NothingRead(data, pos, ch);
      assert ks == [];
    } else {
      PairHeader(ks, ch, data, pos);
      RoundTrip(ch[0], data, pos + 1);
      var p := pos + 1 + |Ser(ch[0])|;
      RoundTripPairs(ks[1..], ch[1..], data, p);
      assert ks == [ks[0]] + ks[1..];
      ReloadsStep(ch, |ch|);
      DePairsStep(data, pos, |ch|, Reload(ch[0]), p, ks[1..], Reloads(ch[1..], |ch| - 1), p + |SerPairs(ks[1..], ch[1..])|);
    }
  }

  lemma KidsHeader(ch: seq<Node>, n: nat, data: Key, pos: nat)
    requires 0 < n <= |ch| && At(data, pos, SerKids(ch, n))
    ensures At(data, pos, Ser(ch[0])) && At(data, pos + |Ser(ch[0])|, SerKids(ch[1..], n - 1))
    ensures |SerKids(ch, n)| == |Ser(ch[0])| + |SerKids(ch[1..], n - 1)|
  {
    AtSplit(data, pos, Ser(ch[0]), SerKids(ch[1..], n - 1));
  }

  lemma {:induction false} RoundTripKids(ch: seq<Node>, n: nat, data: Key, pos: nat)
    requires n <= |ch| && (forall j :: 0 <= j < |ch| ==> Fits(ch[j])) && At(data, pos, SerKids(ch, n))
    ensures DeKids(data, pos, n) == Got(Reloads(ch, n), pos + |SerKids(ch, n)|)
    decreases ch, 0
  {
    hide *;
    if n == 0 {
      NothingRead(data, pos, ch);
    } else {
      KidsHeader(ch, n, data, pos);
      RoundTrip(ch[0], data, pos);
      var p := pos + |Ser(ch[0])|;
      RoundTripKids(ch[1..], n - 1, data, p);
      ReloadsStep(ch, n);
      DeKidsStep(data, pos, n, Reload(ch[0]), p, Reloads(ch[1..], n - 1), p + |SerKids(ch[1..], n - 1)|);
    }
  }

  /** What is written can be read, whatever the number of keys. */
  lemma TreeReads(t: Tree)
    requires Fits(t.root)
    ensures FromBytes(ToBytes(t)).Some? && FromBytes(ToBytes(t)).value.root == Reload(t.root)
  {
    var data := ToBytes(t);
    assert At(data, 4, Ser(t.root));
    RoundTrip(t.root, data, 4);
  }

  /** Storing a tree and reading it back. */
  lemma TreeRoundTrip(t: Tree)
    requires Fits(t.root) && t.len < U32
    ensures FromBytes(ToBytes(t)) == Some(Tree(Reload(t.root), t.len))
  {
    var data := ToBytes(t);
    assert At(data, 4, Ser(t.root));
    RoundTrip(t.root, data, 4);
    assert Pow256(1) == 256 && Pow256(2) == 65536 && Pow256(3) == 16777216 && Pow256(4) == U32;
    BigEndianRoundTrip(t.len, 4);
    assert data[..4] == BigEndian(t.len, 4);
  }

  // ── The format, byte by byte ─────────────────────────────────────────

  function Joined(parts: seq<Key>): Key {
    if parts == [] then [] else parts[0] + Joined(parts[1..])
  }

  /** The bytes of the children, in order of cells, slots or branch bytes. */
  function KidBytes(ch: seq<Node>): (r: seq<Key>)
    ensures |r| == |ch|
  {
    seq(|ch|, i requires 0 <= i < |ch| => Ser(ch[i]))
  }

  function PairBytes(ks: Key, ch: seq<Node>): (r: seq<Key>)
    requires |ks| == |ch|
    ensures |r| == |ch|
  {
    seq(|ch|, i requires 0 <= i < |ch| => [ks[i]] + Ser(ch[i]))
  }

  lemma {:induction false} KidsJoined(ch: seq<Node>, n: nat)
    requires n <= |ch|
    ensures SerKids(ch, n) == Joined(KidBytes(ch[..n]))
  {
    if n != 0 {
      KidsJoined(ch[1..], n - 1);
      assert ch[..n][1..] == ch[1..][..n - 1];
      assert KidBytes(ch[..n])[1..] == KidBytes(ch[1..][..n - 1]);
    }
  }

  lemma {:induction false} PairsJoined(ks: Key, ch: seq<Node>)
    requires |ks| == |ch|
    ensures SerPairs(ks, ch) == Joined(PairBytes(ks, ch))
  {
    if ks != [] {
      PairsJoined(ks[1..], ch[1..]);
      assert PairBytes(ks, ch)[1..] == PairBytes(ks[1..], ch[1..]);
      assert [ks[0]] + (Ser(ch[0]) + SerPairs(ks[1..], ch[1..])) == ([ks[0]] + Ser(ch[0])) + SerPairs(ks[1..], ch[1..]);
    }
  }

  /** The stored form in literal bytes: a tag from 0 to 5; for a leaf its length
      in two bytes; for an inner node the prefix with its length, the end flag,
      the counter except on a Node256, the table of a Node48, and the children,
      with their branch bytes on a Node4 or Node16. */
  lemma FormatExact(t: Node)
    requires Fits(t)
    ensures t.Empty? ==> Ser(t) == [0]
    ensures t.Leaf? ==> Ser(t) == [1, |t.sfx| / 256, |t.sfx| % 256] + t.sfx
    ensures t.Inner() ==>
      var head := [|t.prefix|] + t.prefix + [if t.hasEnd then 1 else 0];
      Ser(t) == match t
        case N4(_, _, ks, ch) => [2] + head + [|ks|] + Joined(PairBytes(ks, ch))
        case N16(_, _, ks, ch) => [3] + head + [|ks|] + Joined(PairBytes(ks, ch))
        case N48(_, _, n, idx, ch) => [4] + head + [n] + idx + Joined(KidBytes(ch[..n]))
        case N256(_, _, _, ch) => [5] + head + Joined(KidBytes(ch))
        case _ => []
  {
    if t.Leaf? {
      LeafFormat(t);
    } else if t.Inner() {
      HeadBytes(t);
      if t.N4? || t.N16? {
        ListFormat(t);
      } else if t.N48? {
        Format48(t);
      } else {
        Format256(t);
      }
    }
    hide Ser, Joined, PairBytes, KidBytes, Fits;
  }

  function Head(t: Node): Key
    requires t.Inner() && |t.prefix| <= 255
  {
    [|t.prefix|] + t.prefix + [if t.hasEnd then 1 else 0]
  }

  lemma LeafFormat(t: Node)
    requires t.Leaf? && |t.sfx| < 65536
    ensures Ser(t) == [1, |t.sfx| / 256, |t.sfx| % 256] + t.sfx
  {
    LeafLength(|t.sfx|);
  }

  lemma ListFormat(t: Node)
    requires (t.N4? || t.N16?) && Fits(t)
    ensures Ser(t) == [if t.N4? then 2 else 3] + Head(t) + [|t.keys|] + Joined(PairBytes(t.keys, t.ch))
  {
    ListIs(t);
    PairsJoined(t.keys, t.ch);
    HeadBytes(t);
    hide *;
  }

  lemma ListIs(t: Node)
    requires (t.N4? || t.N16?) && Fits(t)
    ensures Ser(t) == [if t.N4? then 2 else 3] + (SerPfx(t.prefix, t.hasEnd) + ([|t.keys|] + SerPairs(t.keys, t.ch)))
    ensures |t.prefix| <= 255 && |t.keys| == |t.ch|
  {
    hide SerPfx, SerPairs;
  }

  lemma Format48(t: Node)
    requires t.N48? && Fits(t)
    ensures Ser(t) == [4] + Head(t) + [t.n] + t.idx + Joined(KidBytes(t.ch[..t.n]))
  {
    var kids := Joined(KidBytes(t.ch[..t.n]));
    KidsJoined(t.ch, t.n);
    HeadBytes(t);
    assert Ser(t) == [4] + (Head(t) + ([t.n] + (t.idx + kids))) by {
      hide Joined, KidBytes, SerKids, Head, SerPfx;
    }
    hide *;
  }

  lemma Format256(t: Node)
    requires t.N256? && Fits(t)
    ensures Ser(t) == [5] + Head(t) + Joined(KidBytes(t.ch))
  {
    var kids := Joined(KidBytes(t.ch));
    KidsJoined(t.ch, 256);
    assert t.ch[..256] == t.ch;
    HeadBytes(t);
    assert Ser(t) == [5] + (Head(t) + kids) by {
      hide Joined, KidBytes, SerKids, Head, SerPfx;
    }
    hide *;
  }

  lemma LeafLength(n: nat)
    requires n < 65536
    ensures BigEndian(n, 2) == [n / 256, n % 256]
  {
    assert BigEndian(n / 256, 1) == [] + [n / 256 % 256];
  }

  lemma HeadBytes(t: Node)
    requires t.Inner() && |t.prefix| <= 255
    ensures SerPfx(t.prefix, t.hasEnd) == Head(t) == [|t.prefix|] + t.prefix + [if t.hasEnd then 1 else 0]
  {}
}
