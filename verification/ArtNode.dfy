/** The adaptive radix tree as a value: what a node of the in-place tree
    (modules ArtHeap and ArtInPlace) stands for, and the step each operation takes on it.
    Dead array cells do not appear: a Node4 or Node16 value holds exactly its
    live keys and children. Node48 keeps its slots, because their numbering is
    visible in the serialised form. */
module ArtNode {
  import opened Bytes

  /** `N48_NIL`: "no slot" in a Node48 index. */
  const NIL: byte := 255

  /** The counters are a `u8` up to Node48 and a `u16` in a Node256. */
  const U8: nat := 0x100
  const U16: nat := 0x1_0000

  datatype Node =
    | Empty
    | Leaf(sfx: Key)
    | N4(prefix: Key, hasEnd: bool, keys: Key, ch: seq<Node>)
    | N16(prefix: Key, hasEnd: bool, keys: Key, ch: seq<Node>)
    | N48(prefix: Key, hasEnd: bool, n: nat, idx: seq<byte>, ch: seq<Node>)
    | N256(prefix: Key, hasEnd: bool, n: nat, ch: seq<Node>)
  {
    predicate Inner() { !Empty? && !Leaf? }

    /** The child counter the code keeps. */
    function Count(): nat {
      match this
      case N4(_, _, ks, _) => |ks|
      case N16(_, _, ks, _) => |ks|
      case N48(_, _, m, _, _) => m
      case N256(_, _, m, _) => m
      case _ => 0
    }
  }

  // ── Sequences of keys, slots and children ────────────────────────────

  /** Index of the first occurrence of `b`, or `|keys|`. */
  function Find(keys: Key, b: byte): (i: nat)
    ensures i <= |keys|
    ensures i < |keys| ==> keys[i] == b
    ensures forall j :: 0 <= j < i ==> keys[j] != b
  {
    if keys == [] || keys[0] == b then 0
    else
      var i := 1 + Find(keys[1..], b);
      assert forall j :: 0 < j < i ==> keys[j] == keys[1..][j - 1];
      i
  }

  /** Index of the last occurrence of `b`, or `|keys|`. */
  function Last(keys: Key, b: byte): (i: nat)
    ensures i <= |keys|
    ensures i < |keys| ==> keys[i] == b
    ensures forall j :: 0 <= j < |keys| && (i == |keys| || i < j) ==> keys[j] != b
  {
    if keys == [] then 0
    else if keys[|keys| - 1] == b then |keys| - 1
    else
      var i := Last(keys[..|keys| - 1], b);
      if i < |keys| - 1 then i else |keys|
  }

  /** How many leading keys are below `b`: the insertion point. */
  function Below(keys: Key, b: byte): (i: nat)
    ensures i <= |keys|
    ensures forall j :: 0 <= j < i ==> keys[j] < b
    ensures i < |keys| ==> keys[i] >= b
  {
    if keys == [] || keys[0] >= b then 0
    else
      var i := 1 + Below(keys[1..], b);
      assert forall j :: 0 < j < i ==> keys[j] == keys[1..][j - 1];
      i
  }

  function InsertAt<T>(s: seq<T>, i: nat, x: T): seq<T> {
    if i <= |s| then s[..i] + [x] + s[i..] else s
  }

  function RemoveAt<T>(s: seq<T>, i: nat): seq<T> {
    if i < |s| then s[..i] + s[i + 1..] else s
  }

  function Put<T>(s: seq<T>, i: nat, x: T): seq<T> {
    if i < |s| then s[i := x] else s
  }

  predicate Ascending(keys: Key) {
    forall i, j :: 0 <= i < j < |keys| ==> keys[i] < keys[j]
  }

  /** The child stored under `b` in a key-list node. */
  function Lookup(keys: Key, ch: seq<Node>, b: byte): Node {
    var i := Find(keys, b);
    if i < |keys| && i < |ch| then ch[i] else Empty
  }

  /** The child stored under `b` in a Node48. */
  function SlotLookup(idx: seq<byte>, ch: seq<Node>, b: byte): Node {
    if b < |idx| && idx[b] < |ch| then ch[idx[b]] else Empty
  }

  predicate NoEmpty(ch: seq<Node>) {
    forall i :: 0 <= i < |ch| ==> ch[i] != Empty
  }

  /** Number of occupied slots. */
  function Occupied(ch: seq<Node>): (c: nat)
    ensures c <= |ch|
  {
    if ch == [] then 0
    else Occupied(ch[..|ch| - 1]) + if ch[|ch| - 1] == Empty then 0 else 1
  }

  /** First unoccupied slot, or `|ch|`. */
  function FirstEmpty(ch: seq<Node>): (i: nat)
    ensures i <= |ch|
    ensures i < |ch| ==> ch[i] == Empty
    ensures forall j :: 0 <= j < i ==> ch[j] != Empty
  {
    if ch == [] || ch[0] == Empty then 0
    else
      var i := 1 + FirstEmpty(ch[1..]);
      assert forall j :: 0 < j < i ==> ch[j] == ch[1..][j - 1];
      i
  }

  /** Byte-to-slot table for the keys of `keys`, written in order: where a byte
      occurs twice, the later entry stands. */
  function SlotIndex(keys: Key): (idx: seq<byte>)
    ensures |idx| == 256
  {
    seq(256, b requires 0 <= b < 256 =>
      var i := Last(keys, b);
      if i < |keys| && i < 48 then i else NIL)
  }

  function Pad(ch: seq<Node>, w: nat): (r: seq<Node>)
    ensures |r| == w
  {
    seq(w, i requires 0 <= i < w => if i < |ch| then ch[i] else Empty)
  }

  // ── Reading a node ───────────────────────────────────────────────────

  /** The child reached over byte `b`; `Empty` when there is none. */
  function Child(t: Node, b: byte): Node {
    match t
    case N4(_, _, ks, ch) => Lookup(ks, ch, b)
    case N16(_, _, ks, ch) => Lookup(ks, ch, b)
    case N48(_, _, _, idx, ch) => SlotLookup(idx, ch, b)
    case N256(_, _, _, ch) => if b < |ch| then ch[b] else Empty
    case _ => Empty
  }

  predicate HasChild(t: Node, b: byte) {
    match t
    case N4(_, _, ks, _) => Find(ks, b) < |ks|
    case N16(_, _, ks, _) => Find(ks, b) < |ks|
    case N48(_, _, _, idx, _) => b < |idx| && idx[b] != NIL
    case N256(_, _, _, ch) => b < |ch| && ch[b] != Empty
    case _ => false
  }

  /** Bytes below `hi` that lead to a child, ascending. */
  function LiveUpTo(t: Node, hi: nat): (l: Key)
    requires hi <= 256
    ensures |l| <= hi
  {
    if hi == 0 then []
    else LiveUpTo(t, hi - 1) + if Child(t, hi - 1) == Empty then [] else [hi - 1]
  }

  function Live(t: Node): (l: Key) { LiveUpTo(t, 256) }

  function Kids(t: Node, l: Key): (r: seq<Node>)
    ensures |r| == |l|
  {
    seq(|l|, i requires 0 <= i < |l| => Child(t, l[i]))
  }

  /** Membership: the path `k` leads to a leaf or to a set end flag. */
  predicate Has(t: Node, k: Key)
    decreases |k|
  {
    match t
    case Empty => false
    case Leaf(s) => s == k
    case _ =>
      t.prefix <= k &&
      var r := k[|t.prefix|..];
      if r == [] then t.hasEnd else Has(Child(t, r[0]), r[1..])
  }

  // ── Rewriting one node ───────────────────────────────────────────────

  function SetEnd(t: Node, e: bool): Node {
    if t.Inner() then t.(hasEnd := e) else t
  }

  function SetPrefix(t: Node, p: Key): Node {
    if t.Inner() then t.(prefix := p) else t
  }

  /** Add a child under `b`. The counter wraps around. */
  function AddCh(t: Node, b: byte, c: Node): Node {
    match t
    case N4(p, e, ks, ch) =>
      N4(p, e, InsertAt(ks, Below(ks, b), b), InsertAt(ch, Below(ks, b), c))
    case N16(p, e, ks, ch) =>
      N16(p, e, InsertAt(ks, Below(ks, b), b), InsertAt(ch, Below(ks, b), c))
    case N48(p, e, m, idx, ch) =>
      var slot := FirstEmpty(ch);
      N48(p, e, (m + 1) % U8, Put(idx, b, if slot < 48 then slot else NIL), Put(ch, slot, c))
    case N256(p, e, m, ch) => N256(p, e, (m + 1) % U16, Put(ch, b, c))
    case _ => t
  }

  /** Write through the reference to the child under `b`. */
  function SetCh(t: Node, b: byte, c: Node): Node {
    match t
    case N4(p, e, ks, ch) => N4(p, e, ks, Put(ch, Find(ks, b), c))
    case N16(p, e, ks, ch) => N16(p, e, ks, Put(ch, Find(ks, b), c))
    case N48(p, e, m, idx, ch) => N48(p, e, m, idx, if b < |idx| then Put(ch, idx[b], c) else ch)
    case N256(p, e, m, ch) => N256(p, e, m, Put(ch, b, c))
    case _ => t
  }

  /** Drop the child under `b`. A Node256 counts down only when the cell still
      holds a child. */
  function DelCh(t: Node, b: byte): Node {
    match t
    case N4(p, e, ks, ch) => N4(p, e, RemoveAt(ks, Find(ks, b)), RemoveAt(ch, Find(ks, b)))
    case N16(p, e, ks, ch) => N16(p, e, RemoveAt(ks, Find(ks, b)), RemoveAt(ch, Find(ks, b)))
    case N48(p, e, m, idx, ch) =>
      if b < |idx| && idx[b] != NIL
      then N48(p, e, if m > 0 then m - 1 else U8 - 1, idx[b := NIL], Put(ch, idx[b], Empty))
      else t
    case N256(p, e, m, ch) =>
      if b < |ch| && ch[b] != Empty
      then N256(p, e, if m > 0 then m - 1 else U16 - 1, ch[b := Empty])
      else t
    case _ => t
  }

  /** No byte after `b` refers to the slot of `b`. */
  predicate LastOwner(idx: seq<byte>, b: nat) {
    b < |idx| && forall c :: b < c < |idx| ==> idx[c] != idx[b]
  }

  /** No byte before `b` refers to the slot of `b`. */
  predicate FirstOwner(idx: seq<byte>, b: nat) {
    b < |idx| && forall c :: 0 <= c < b ==> idx[c] != idx[b]
  }

  /** Node48 to Node256. A slot goes to the last byte that refers to it, and the
      scratch table `slot_byte` uses 0xFF for "no byte", so a child under byte
      0xFF is not copied. */
  function Widen48(t: Node): Node
    requires t.N48?
  {
    N256(t.prefix, t.hasEnd, t.n,
         seq(256, b requires 0 <= b < 256 => if b != NIL && LastOwner(t.idx, b) then Child(t, b) else Empty))
  }

  /** Bytes below `hi` that refer to a slot, ascending. */
  function RefsUpTo(idx: seq<byte>, hi: nat): (l: Key)
    requires hi <= 256
    ensures |l| <= hi
  {
    if hi == 0 then []
    else RefsUpTo(idx, hi - 1) + if hi <= |idx| && idx[hi - 1] != NIL then [hi - 1] else []
  }

  function Refs(idx: seq<byte>): (l: Key) { RefsUpTo(idx, 256) }

  /** Node48 to Node16: the counter is copied, every slot is taken once, and
      cells without a byte have key 0 and no child. */
  function Narrow48(t: Node): Node
    requires t.N48?
  {
    var l := Refs(t.idx);
    N16(t.prefix, t.hasEnd,
        seq(t.n, i requires 0 <= i < t.n => if i < |l| then l[i] else 0),
        seq(t.n, i requires 0 <= i < t.n => if i < |l| && FirstOwner(t.idx, l[i]) then Child(t, l[i]) else Empty))
  }

  function Grow(t: Node): Node {
    match t
    case N4(p, e, ks, ch) => if |ks| == 4 then N16(p, e, ks, ch) else t
    case N16(p, e, ks, ch) => if |ks| == 16 then N48(p, e, 16, SlotIndex(ks), Pad(ch, 48)) else t
    case N48(p, e, m, idx, ch) => if m == 48 then Widen48(t) else t
    case _ => t
  }

  /** Put a parent's prefix and branch byte in front of a node. */
  function Prepend(p: Key, b: byte, c: Node): Node {
    match c
    case Empty => Empty
    case Leaf(s) => Leaf(p + [b] + s)
    case _ => SetPrefix(c, p + [b] + c.prefix)
  }

  function Shrink(t: Node): Node {
    if !t.Inner() then t
    else if t.Count() == 0 && !t.hasEnd then Empty
    else match t
      case N4(p, e, ks, ch) =>
        if |ks| == 1 && |ch| == 1 && !e then Prepend(p, ks[0], ch[0]) else t
      case N16(p, e, ks, ch) => if |ks| <= 4 then N4(p, e, ks, ch) else t
      case N48(_, _, m, _, _) => if m <= 16 then Narrow48(t) else t
      case N256(p, e, m, _) =>
        if m <= 48 then N48(p, e, m, SlotIndex(Live(t)), Pad(Kids(t, Live(t)), 48)) else t
      case _ => t
  }

  // ── The two recursive operations ─────────────────────────────────────

  /** What is left of `k` after `m` bytes: a leaf, or the end flag. */
  function AddSuffix(t: Node, k: Key, m: nat): Node {
    if m < |k| then AddCh(t, k[m], Leaf(k[m + 1..])) else SetEnd(t, true)
  }

  /** A leaf makes room for a second key. */
  function SplitLeaf(s: Key, k: Key): Node {
    var c := CommonPrefix(s, k);
    AddSuffix(AddSuffix(N4(s[..c], false, [], []), s, c), k, c)
  }

  /** An inner node whose prefix leaves the key after `m` bytes gets a parent. */
  function SplitPrefix(t: Node, k: Key, m: nat): Node
    requires t.Inner() && m < |t.prefix|
  {
    var n0 := N4(t.prefix[..m], false, [], []);
    AddSuffix(AddCh(n0, t.prefix[m], SetPrefix(t, t.prefix[m + 1..])), k, m)
  }

  function Insert(t: Node, k: Key): (Node, bool)
    decreases |k|
  {
    match t
    case Empty => (Leaf(k), true)
    case Leaf(s) => if s == k then (t, false) else (SplitLeaf(s, k), true)
    case _ =>
      var m := CommonPrefix(t.prefix, k);
      if m < |t.prefix| then (SplitPrefix(t, k, m), true)
      else
        var r := k[m..];
        if r == [] then (SetEnd(t, true), !t.hasEnd)
        else if HasChild(t, r[0]) then
          var (c, added) := Insert(Child(t, r[0]), r[1..]);
          (SetCh(t, r[0], c), added)
        else (AddCh(Grow(t), r[0], Leaf(r[1..])), true)
  }

  function Remove(t: Node, k: Key): (Node, bool)
    decreases |k|
  {
    match t
    case Empty => (t, false)
    case Leaf(s) => if s == k then (Empty, true) else (t, false)
    case _ =>
      var m := CommonPrefix(t.prefix, k);
      if m < |t.prefix| then (t, false)
      else
        var r := k[m..];
        if r == [] then
          if t.hasEnd then (Shrink(SetEnd(t, false)), true) else (t, false)
        else if !HasChild(t, r[0]) then (t, false)
        else
          var (c, removed) := Remove(Child(t, r[0]), r[1..]);
          var t1 := SetCh(t, r[0], c);
          if removed && Child(t1, r[0]) == Empty
          then (Shrink(DelCh(t1, r[0])), true)
          else (t1, removed)
  }

  // ── Structural invariants ────────────────────────────────────────────

  /** Every referenced slot is occupied, and by one byte only. */
  ghost predicate SlotsOk(idx: seq<byte>, ch: seq<Node>)
    requires |idx| == 256 && |ch| == 48
  {
    && (forall b: byte :: idx[b] == NIL || (idx[b] < 48 && ch[idx[b]] != Empty))
    && (forall b: byte, c: byte :: idx[b] == idx[c] != NIL ==> b == c)
  }

  /** One node is in order: keys ascending, no empty child, Node48 slots and
      counter exact. The Node256 counter is only an upper bound (see DelCh). */
  ghost predicate LocalOk(t: Node) {
    match t
    case N4(_, _, ks, ch) => |ks| == |ch| <= 4 && Ascending(ks) && NoEmpty(ch)
    case N16(_, _, ks, ch) => |ks| == |ch| <= 16 && Ascending(ks) && NoEmpty(ch)
    case N48(_, _, m, idx, ch) =>
      |idx| == 256 && |ch| == 48 && SlotsOk(idx, ch) && Occupied(ch) == m == |Live(t)|
    case N256(_, _, m, ch) => |ch| == 256 && |Live(t)| <= m < U16
    case _ => true
  }

  ghost predicate Ok(t: Node)
    decreases t
  {
    LocalOk(t) && (t.Inner() ==> forall i :: 0 <= i < |t.ch| ==> Ok(t.ch[i]))
  }

  lemma OkChild(t: Node, b: byte)
    requires Ok(t)
    ensures Ok(Child(t, b))
  {
    if t.N48? {
      var s := t.idx[b];
      if s < 48 { assert Ok(t.ch[s]); }
    }
  }
}
