/** Where things live: account addresses and storage slots by their hash
    preimages, and the fixed-width values kept in slots. */
module Accounts {
  import opened Bytes

  const U64: nat := 0x1_0000_0000_0000_0000

  function Zeros(n: nat): (z: Key)
    ensures |z| == n && forall i :: 0 <= i < n ==> z[i] == 0
  {
    seq(n, _ => 0)
  }

  type Address = a: Key | |a| == 20 witness Zeros(20)
  type B256 = b: Key | |b| == 32 witness Zeros(32)

  function ZeroAddress(): Address { Zeros(20) }
  function ZeroWord(): B256 { Zeros(32) }

  /** `entity_address`: the first 20 bytes of the key. */
  function EntityAddress(key: B256): Address { key[..20] }

  // ── Account addresses ────────────────────────────────────────────────

  /** An account: an entity's own address, or the hash of a preimage. Hashing
      and truncation to 20 bytes are taken as collision-free. */
  datatype Account = EntityAccount(addr: Address) | Hashed(preimage: Key)

  /** `arkiv.pair` and `arkiv.index`. */
  const PAIR_TAG: Key := [97, 114, 107, 105, 118, 46, 112, 97, 105, 114]
  const INDEX_TAG: Key := [97, 114, 107, 105, 118, 46, 105, 110, 100, 101, 120]

  function PairAccount(k: Key, v: Key): Account { Hashed(PAIR_TAG + k + [0] + v) }
  function IndexAccount(k: Key): Account { Hashed(INDEX_TAG + k) }

  predicate ZeroFree(k: Key) { forall i :: 0 <= i < |k| ==> k[i] != 0 }

  lemma FirstZero(tag: Key, k: Key, v: Key)
    requires ZeroFree(k)
    ensures (tag + k + [0] + v)[|tag| + |k|] == 0
    ensures forall i :: |tag| <= i < |tag| + |k| ==> (tag + k + [0] + v)[i] != 0
  {
    forall i | |tag| <= i < |tag| + |k| ensures (tag + k + [0] + v)[i] != 0 {
      assert (tag + k + [0] + v)[i] == k[i - |tag|];
    }
  }

  /** The separator is the first zero byte, so key and value can be read off. */
  lemma PairInjective(k: Key, v: Key, k': Key, v': Key)
    requires ZeroFree(k) && ZeroFree(k') && PairAccount(k, v) == PairAccount(k', v')
    ensures k == k' && v == v'
  {
    var p, q := PAIR_TAG + k + [0] + v, PAIR_TAG + k' + [0] + v';
    FirstZero(PAIR_TAG, k, v);
    FirstZero(PAIR_TAG, k', v');
    assert k == p[10..10 + |k|] && k' == q[10..10 + |k'|];
    assert v == p[11 + |k|..] && v' == q[11 + |k'|..];
  }

  /** Without that rule on keys the separator does not separate. */
  lemma PairCollides()
    ensures PairAccount([97, 0], []) == PairAccount([97], [0])
  {
    assert PAIR_TAG + [97, 0] + [0] + [] == PAIR_TAG + [97] + [0] + [0];
  }

  lemma IndexInjective(k: Key, k': Key)
    requires IndexAccount(k) == IndexAccount(k')
    ensures k == k'
  {
    assert k == (INDEX_TAG + k)[11..] && k' == (INDEX_TAG + k')[11..];
  }

  lemma PairIndexDisjoint(k: Key, v: Key, k': Key)
    ensures PairAccount(k, v) != IndexAccount(k')
  {
    assert (PAIR_TAG + k + [0] + v)[6] == 112 && (INDEX_TAG + k')[6] == 105;
  }

  // ── System-account slots ─────────────────────────────────────────────

  /** `entity_count`, `id_to_addr`, `addr_to_id`, `nonces`, `payload_ref_nonce`. */
  const COUNT_SLOT: Key := [101, 110, 116, 105, 116, 121, 95, 99, 111, 117, 110, 116]
  const ID_TO_ADDR: Key := [105, 100, 95, 116, 111, 95, 97, 100, 100, 114]
  const ADDR_TO_ID: Key := [97, 100, 100, 114, 95, 116, 111, 95, 105, 100]
  const NONCES: Key := [110, 111, 110, 99, 101, 115]
  const PAYLOAD_NONCE: Key := [112, 97, 121, 108, 111, 97, 100, 95, 114, 101, 102, 95, 110, 111, 110, 99, 101]

  function IdToAddrSlot(id: nat): Key { ID_TO_ADDR + BigEndian(id, 8) }
  function AddrToIdSlot(a: Address): Key { ADDR_TO_ID + a }
  function NonceSlot(caller: Address): Key { NONCES + caller }
  function PayloadNonceSlot(caller: Address, nonce: B256): Key { PAYLOAD_NONCE + caller + nonce }

  lemma Pow256Eight()
    ensures Pow256(4) == 0x1_0000_0000 && Pow256(8) == U64
  {
    assert Pow256(1) == 256 && Pow256(2) == 65536 && Pow256(3) == 0x100_0000 && Pow256(4) == 0x1_0000_0000;
    assert Pow256(5) == 0x100_0000_0000 && Pow256(6) == 0x1_0000_0000_0000 && Pow256(7) == 0x100_0000_0000_0000;
  }

  /** The five slot families have preimages of five different lengths, so no two
      of them share a slot. */
  lemma SlotsDisjoint(id: nat, a: Address, c: Address, d: Address, n: B256)
    ensures |COUNT_SLOT| == 12 && |IdToAddrSlot(id)| == 18 && |AddrToIdSlot(a)| == 30
         && |NonceSlot(c)| == 26 && |PayloadNonceSlot(d, n)| == 69
    ensures COUNT_SLOT != IdToAddrSlot(id) && COUNT_SLOT != AddrToIdSlot(a) && COUNT_SLOT != NonceSlot(c)
         && COUNT_SLOT != PayloadNonceSlot(d, n)
    ensures IdToAddrSlot(id) != AddrToIdSlot(a) && IdToAddrSlot(id) != NonceSlot(c) && IdToAddrSlot(id) != PayloadNonceSlot(d, n)
    ensures AddrToIdSlot(a) != NonceSlot(c) && AddrToIdSlot(a) != PayloadNonceSlot(d, n)
    ensures NonceSlot(c) != PayloadNonceSlot(d, n)
  {}

  lemma IdToAddrInjective(id: nat, id': nat)
    requires id < U64 && id' < U64 && IdToAddrSlot(id) == IdToAddrSlot(id')
    ensures id == id'
  {
    Pow256Eight();
    assert BigEndian(id, 8) == IdToAddrSlot(id)[10..] && BigEndian(id', 8) == IdToAddrSlot(id')[10..];
    BigEndianRoundTrip(id, 8);
    BigEndianRoundTrip(id', 8);
  }

  lemma AddrToIdInjective(a: Address, a': Address)
    requires AddrToIdSlot(a) == AddrToIdSlot(a')
    ensures a == a'
  {
    assert a == AddrToIdSlot(a)[10..] && a' == AddrToIdSlot(a')[10..];
  }

  lemma NonceInjective(a: Address, a': Address)
    requires NonceSlot(a) == NonceSlot(a')
    ensures a == a'
  {
    assert a == NonceSlot(a)[6..] && a' == NonceSlot(a')[6..];
  }

  lemma PayloadNonceInjective(a: Address, n: B256, a': Address, n': B256)
    requires PayloadNonceSlot(a, n) == PayloadNonceSlot(a', n')
    ensures a == a' && n == n'
  {
    assert a == PayloadNonceSlot(a, n)[17..37] && a' == PayloadNonceSlot(a', n')[17..37];
    assert n == PayloadNonceSlot(a, n)[37..] && n' == PayloadNonceSlot(a', n')[37..];
  }

  // ── Slot values ──────────────────────────────────────────────────────

  function U64ToStorage(n: nat): B256 { Zeros(24) + BigEndian(n, 8) }
  function StorageToU64(b: B256): nat { FromBigEndian(b[24..]) }
  function U32ToStorage(n: nat): B256 { Zeros(28) + BigEndian(n, 4) }
  function StorageToU32(b: B256): nat { FromBigEndian(b[28..]) }
  function AddressToStorage(a: Address): B256 { Zeros(12) + a }
  function StorageToAddress(b: B256): Address { b[12..] }

  lemma U64RoundTrip(n: nat)
    requires n < U64
    ensures StorageToU64(U64ToStorage(n)) == n
  {
    Pow256Eight();
    BigEndianRoundTrip(n, 8);
    assert U64ToStorage(n)[24..] == BigEndian(n, 8);
  }

  lemma U32RoundTrip(n: nat)
    requires n < 0x1_0000_0000
    ensures StorageToU32(U32ToStorage(n)) == n
  {
    Pow256Eight();
    BigEndianRoundTrip(n, 4);
    assert U32ToStorage(n)[28..] == BigEndian(n, 4);
  }

  lemma AddressRoundTrip(a: Address)
    ensures StorageToAddress(AddressToStorage(a)) == a
    ensures AddressToStorage(a) == ZeroWord() <==> a == ZeroAddress()
  {
    assert AddressToStorage(a)[12..] == a;
    assert a == ZeroAddress() ==> AddressToStorage(a) == ZeroWord();
    if AddressToStorage(a) == ZeroWord() {
      assert a == ZeroWord()[12..] == ZeroAddress();
    }
  }

  lemma ZeroWordReads()
    ensures StorageToU64(ZeroWord()) == 0 && StorageToU32(ZeroWord()) == 0
  {
    U64RoundTrip(0);
    U32RoundTrip(0);
    ZeroBytes(8);
    ZeroBytes(4);
    assert ZeroWord() == U64ToStorage(0);
    assert ZeroWord() == U32ToStorage(0);
  }

  lemma {:induction false} ZeroBytes(w: nat)
    ensures BigEndian(0, w) == Zeros(w)
  {
    if w != 0 { ZeroBytes(w - 1); }
  }

  // ── The layout, spelled out ──────────────────────────────────────────

  /** The bytes of an ASCII text. */
  function Ascii(s: string): (k: Key)
    requires forall i :: 0 <= i < |s| ==> s[i] < 128 as char
    ensures |k| == |s|
  {
    seq(|s|, i requires 0 <= i < |s| => s[i] as int)
  }

  /** What is hashed for each account and slot. */
  lemma LayoutExact(k: Key, v: Key, id: nat, a: Address, n: B256)
    ensures PairAccount(k, v) == Hashed(Ascii("arkiv.pair") + k + [0] + v)
    ensures IndexAccount(k) == Hashed(Ascii("arkiv.index") + k)
    ensures COUNT_SLOT == Ascii("entity_count")
    ensures IdToAddrSlot(id) == Ascii("id_to_addr") + BigEndian(id, 8)
    ensures AddrToIdSlot(a) == Ascii("addr_to_id") + a
    ensures NonceSlot(a) == Ascii("nonces") + a
    ensures PayloadNonceSlot(a, n) == Ascii("payload_ref_nonce") + a + n
  {
    TagsSpelt();
    hide Ascii, PAIR_TAG, INDEX_TAG, COUNT_SLOT, ID_TO_ADDR, ADDR_TO_ID, NONCES, PAYLOAD_NONCE;
  }

  lemma TagsSpelt()
    ensures PAIR_TAG == Ascii("arkiv.pair") && INDEX_TAG == Ascii("arkiv.index")
    ensures COUNT_SLOT == Ascii("entity_count") && ID_TO_ADDR == Ascii("id_to_addr") && ADDR_TO_ID == Ascii("addr_to_id")
    ensures NONCES == Ascii("nonces") && PAYLOAD_NONCE == Ascii("payload_ref_nonce")
  {}

  /** Numbers and addresses are kept right-aligned in a word of 32 bytes. */
  lemma WordsExact(n: nat, a: Address)
    ensures n < U64 ==> FromBigEndian(U64ToStorage(n)) == n
    ensures n < 0x1_0000_0000 ==> FromBigEndian(U32ToStorage(n)) == n
    ensures AddressToStorage(a)[..12] == Zeros(12) && AddressToStorage(a)[12..] == a
  {
    Pow256Eight();
    ZerosLead(24, BigEndian(n, 8));
    ZerosLead(28, BigEndian(n, 4));
    if n < U64 { BigEndianRoundTrip(n, 8); }
    if n < 0x1_0000_0000 { BigEndianRoundTrip(n, 4); }
  }

  lemma {:induction false} ZerosLead(z: nat, k: Key)
    ensures FromBigEndian(Zeros(z) + k) == FromBigEndian(k)
    decreases |k|, z
  {
    var s := Zeros(z) + k;
    if k != [] {
      assert s[..|s| - 1] == Zeros(z) + k[..|k| - 1];
      ZerosLead(z, k[..|k| - 1]);
    } else if z != 0 {
      assert s[..|s| - 1] == Zeros(z - 1) + k;
      ZerosLead(z - 1, k);
    }
  }
}
