# Arkiv entity database: a verified model

This project models the part of Arkiv that decides what is stored and what a
query returns, and proves that the two agree. It follows the path of the data:

- **The radix tree** (`ArtNode`, `ArtOps`, `ArtSet`, `ArtShape`, `ArtOrder`,
  `ArtSer`, `ArtStore`, `ArtSound`, `ArtWalk`, `ArtLen`, `ArtRun`, `ArtCount`,
  `ArtStoredRun`, `ArtAlias`, `ArtFew`). The adaptive radix tree as a value, with
  every step the code takes on it: leaf split, prefix split, growth before
  insertion, shrinking, merging an only child, slots in Node48, counters of their
  width, and the byte format. `ArtSound`, `ArtWalk` and `ArtLen` are what holds of
  every tree that fits its arrays, in order or not; `ArtRun`, `ArtCount` and
  `ArtStoredRun` are whole runs, in memory and through storage; `ArtAlias` is what
  becomes of a tree after a hole; `ArtFew` is about trees of at most sixteen keys.
- **The radix tree in memory** (`ArtHeap`, `ArtResize`, `ArtInPlace`, `ArtRead`,
  `IndexTree`). The same tree as the code holds it: nodes with fixed arrays that
  are shifted, filled and rewritten in place, recursion through cells, shared
  buffers for enumeration and serialisation. Each method is proved to leave
  exactly the value the first group computes, on every tree that fits its arrays:
  wrong counters, slots that nothing was written to and slots that two bytes share
  included. One class `Block` stands for the four node structs; its kind fixes the
  array sizes.
- **The entity database** (`Accounts`, `Indexes`, `EntityDb`, `IndexRuns`).
  Accounts and slots by their hash preimages, the two index tiers, and the six
  handlers over code and storage. Each handler computes exactly `StepDb`, and
  `StepDb` keeps one invariant (`Consistent`): bitmaps, value trees, records and
  the two-way id map all say the same thing. Records, id map and readable trees
  survive even where a pair gets two flags (`EntityDb.StepFiles`). `IndexRuns`
  follows a database over any run of operations.
- **Queries** (`Query`, `Interpreter`, `Bounds`, `Paging`, `Lexer`, `Spelling`,
  `Parser`, `Grammar`, `Printer`, `Conditions`, `Search`). From query text to
  pages of entities, against a meaning that looks at one entity at a time and
  knows nothing of indexes. `Spelling` and `Conditions` say what a text asks in
  characters, fields and literals, without the lexer's and parser's functions.
- **The precompile** (`Operations`, `Attributes`, `Utf8`, `Gas`, `Payment`,
  `Lifecycle`, `Rules`, `ChainDb`, `Precompile`, `Answers`). Ownership and expiry
  as a state machine, nonces, gas, payment, attribute conversion, and batches that
  commit or restore. `Rules` is each operation in plain numbers and fields: exactly
  when it succeeds, every field it leaves, and the answer otherwise.
  The class `Precompile` runs every operation through the real handlers and gives
  exactly the answer of the state machine; `ChainDb` says which database
  operations each step of it stands for; `Answers` is what a query text returns
  after a run of batches.

`Bytes` and `Options` hold the shared vocabulary.

## Where the code does not do what is promised

Each of these is proved: a concrete run, and the exact condition under which
the promise holds.

- Growing a full Node48 drops the child under byte 0xFF (`index_tree.rs` 188-199).
  `ArtSet.InsertHas` says exactly which keys are dropped, and insertion is exact
  if and only if there are none (`ArtSet.InsertExact`). Forty-nine one-byte
  insertions, each reported as new, lose a key (`ArtRun.GrowthLosesKey`). Keys
  without a 0xFF byte, such as UTF-8 text (section 3 of RFC 3629), are safe over
  every run (`ArtRun.NoFFRun`, counters as below).
- A Node48 deletion leaves a hole and the byte format writes slots `0..n` only
  (`index_tree.rs` 851-859, 916-918). A removal survives being stored if and only
  if it frees no slot below the last one in use (`ArtStore.RemoveStoredExact`).
  Eighteen keys inserted and stored one by one, and the first one removed: the
  last one is gone as well (`ArtStoredRun.HoleRun`). Its byte still refers to the
  slot, so two insertions later a key shows up that was never inserted, and
  removing one key removes two (`ArtAlias.AliasRun`). `ArtAlias.SetShares` and
  `ArtAlias.AddShares` say exactly which bytes a write shows under on such a tree.
- The Node256 counter does not go down on removal: the child is emptied before
  `del_ch` looks at it (`index_tree.rs` 553-561, 867-872). Removal keeps nodes in
  order if and only if no such counter is passed on to a Node48
  (`ArtSet.RemoveOkExact`), and keeps the documented shape if and only if it
  removes no child of a Node256 (`ArtShape.RemoveShapeExact`). Forty-nine stored
  keys and two removals pass one on (`ArtStoredRun.CounterRun`). No key is lost in
  that step itself (`ArtStore.RemoveStoredHas`), but the wrong counter stays
  through every reload (`ArtStore.OvercountStays`).
- In memory that counter is a `u16` that never goes down, so the 65536th insertion
  can wrap it to zero (`index_tree.rs` 92-97, 862-866), and the next removal throws
  the node away. An insertion keeps the nodes in order if and only if its path
  does not end at a counter of 65535 (`ArtSet.InsertOkExact`). Forty-nine keys, then
  one more inserted and removed 65487 times: the tree is empty and `len` says
  forty-nine (`ArtCount.OverflowRun`; with overflow checks the code panics there).
  Runs with fewer than 65536 insertions are safe (`ArtCount.FewAddsFit`), and so is
  every stored tree, because reading counts afresh (`ArtSound.StoredRoom`).
- "Fully deterministic for any given key set" (`index_tree.rs` 36-38) holds for
  insertions up to the numbering of Node48 slots (`ArtRun.OrderIndependent`,
  `ArtRun.SimilarEqual`), and fails with Node48 (`ArtRun.SlotsFollowOrder`) and
  after removals (`ArtRun.RemoveNotCanonical`).
- A pair that is first indexed as `ENTITY_KEY` and then as `UINT` never reaches
  its tree (`lib.rs` 891-899); `Indexes.AddPairExact` says when the two tiers
  still agree, `IndexRuns.ClashRun` is a run from the empty database.
- A pair that is indexed as `UINT` and then as `ENTITY_KEY` leaves its value in
  the tree when the `UINT` entity goes, because the bitmap is not empty
  (`lib.rs` 923-931); `Indexes.DropPairExact` says when the two tiers still agree,
  one entity holding both flags included, and `IndexRuns.DropClashRun` is a run.
- DELETE and EXPIRE spell the `$key` pair with the caller's key. The id stays in a
  `$key` bitmap if and only if that key is not the one on record
  (`IndexRuns.DeleteLeaves`), which two keys with the same first 20 bytes bring
  about (`IndexRuns.StrayRun`, `IndexRuns.StrayInstance`). The invariant carries
  such ids, and queries resolve none of them (`Interpreter.DenotedIds`).
- The pair separator separates only keys without a zero byte
  (`Accounts.PairInjective`, `Accounts.PairCollides`); accepted attribute names
  and parsed query names have none (`Attributes.ConvertExact`,
  `Search.ParsedKeysOk`).
- The documentation gives `$all`, `$creator`, `$owner` and `$key` a value tree and
  lets an entity expire strictly after its expiry block (`docs/2_state-model.md`
  490-501, 659). The code gives them none (`lib.rs` 771-842) and allows expiry from
  the block itself (`precompile.rs` 527). The model follows the code.

## Assumptions

- Keccak and the truncation to 20 bytes are collision-free on the preimages used;
  the preimages themselves are proved injective and disjoint. Minted entity keys
  are a parameter; that a new key does not collide with an earlier one is a
  hypothesis on each run (`NoCollision` in `Lifecycle`, `Supported` in `ChainDb`),
  because no function into 20 bytes can avoid collisions on all inputs.
- That no name and value is in use under both flags at a time (`FlagsAlong` in
  `ChainDb`) is asked only where indexes are to tell the truth: by `TrueOnRun`,
  `FewOnRun` and `Answers`. What the operations do to records, ids and balances,
  and their verdicts, do not depend on it.
- Receipt validation is a parameter that returns the nonce, content type, payment
  and provider, or nothing; the content type it returns has at most 128 bytes
  (`Sensible`, as `precompile.rs` 902-914 enforces). The Unicode character classes
  are a parameter, of which only `Sane` is used.
- `lossy` names the keys whose tree has been through a write that is not exact.
  It is pinned down: a write adds its key if and only if the tree does not hold
  the intended set, in order, afterwards (`Indexes.InsertTreeExact`,
  `Indexes.RemoveTreeExact`). The invariant claims nothing about those trees, and
  of queries that read them it is proved which entities are answered for sure and
  which may be (`Bounds.AnswerBounds`). A key with at most sixteen values at any
  time is never among them (`IndexRuns.FewStayExact`), nor one with
  values free of 0xFF whose removals are clean (`IndexRuns.TextStaysExact`).
- Fewer than 2^64 entities are created; block numbers fit 64 bits.

## Model

| member | source | states |
|---|---|---|
| `Bytes.BigEndianOrder` | crates/arkiv-entitydb/src/lib.rs:285-287 | Fixed-width big-endian encoding embeds numeric order into byte order, both directions |
| `Bytes.LtExact` | crates/arkiv-entitydb/src/index_tree.rs:284-307 | The order of byte strings is decided at their first difference, a proper prefix first |
| `ArtSet.InsertHas` | crates/arkiv-entitydb/src/index_tree.rs:400-508 | Membership after any insertion, lossy or not: the new key, and every old key but those under byte 0xFF of a full Node48 that grows on the way |
| `ArtSet.LosesExact` | crates/arkiv-entitydb/src/index_tree.rs:185-201 | An insertion drops some key if and only if its path ends at a full Node48 with a key under byte 0xFF |
| `ArtSet.InsertAdded` | crates/arkiv-entitydb/src/index_tree.rs:400-508 | The flag returned says whether the key was absent before |
| `ArtSet.InsertExact` | crates/arkiv-entitydb/src/index_tree.rs:400-508 | The keys afterwards are the old ones and the new one if and only if the path does not end at a full Node48 with keys under byte 0xFF |
| `ArtSet.InsertOk` | crates/arkiv-entitydb/src/index_tree.rs:400-508 | Insertion keeps every node in order, unless it overflows a counter: ascending keys, exact counters, no empty child, one owner per slot |
| `ArtSet.InsertOkExact` | crates/arkiv-entitydb/src/index_tree.rs:862-866 | It does so if and only if its path does not end, without a child for the next byte, at a Node256 whose counter is 65535 |
| `ArtSet.SplitPrefixSpec` | crates/arkiv-entitydb/src/index_tree.rs:450-475 | A prefix split keeps all keys and adds exactly the new one |
| `ArtSet.SplitLeafSpec` | crates/arkiv-entitydb/src/index_tree.rs:408-434 | A leaf split holds exactly the two keys |
| `ArtOps.GrowSpec` | crates/arkiv-entitydb/src/index_tree.rs:692-708 | Growth leaves room for one more child and keeps all children but the one under 0xFF of a full Node48, so `add_ch` never meets a full node |
| `ArtOps.ShrinkSpec` | crates/arkiv-entitydb/src/index_tree.rs:710-743 | Shrinking to a smaller inner node keeps every child under its byte |
| `ArtOps.AddChSpec` | crates/arkiv-entitydb/src/index_tree.rs:786-873 | Adding a child changes that byte only, for all four sizes; the node stays in order with one more counted, except that a Node256 counter of 65535 wraps to zero |
| `ArtOps.ClearChSpec` | crates/arkiv-entitydb/src/index_tree.rs:552-561 | Emptying and deleting a child removes that byte only; the counter goes down except on a Node256 |
| `ArtSet.NoFFNoLoss` | crates/arkiv-entitydb/src/index_tree.rs:185-201 | A tree whose keys have no 0xFF byte never loses a key to growth |
| `ArtSet.RemoveHas` | crates/arkiv-entitydb/src/index_tree.rs:512-564 | Removal takes out exactly the key, on every tree in order, and returns whether it was there |
| `ArtSet.RemoveOkExact` | crates/arkiv-entitydb/src/index_tree.rs:512-564 | Removal keeps the nodes in order if and only if no Node256 counter above its children is handed to a Node48 |
| `ArtSet.ShrinkSet` | crates/arkiv-entitydb/src/index_tree.rs:710-782 | Shrinking and single-child merging never change the key set |
| `ArtShape.InsertShape` | crates/arkiv-entitydb/src/index_tree.rs:400-508 | An insertion in which growth drops nothing keeps the documented shape: node size matches child count, no superfluous inner node, in both the plain and the strict reading |
| `ArtShape.RemoveShapeExact` | crates/arkiv-entitydb/src/index_tree.rs:512-564 | Removal keeps that shape if and only if it deletes no child of a Node256 |
| `ArtShape.UniqueTree` | crates/arkiv-entitydb/src/index_tree.rs:36-38 | Two trees of strict shape with the same keys are equal up to the numbering of Node48 slots |
| `ArtRun.OrderIndependent` | crates/arkiv-entitydb/src/index_tree.rs:36-38 | Any two insertion orders of one key set, in which growth drops nothing, give the same tree up to that numbering |
| `ArtRun.SimilarEqual` | crates/arkiv-entitydb/src/index_tree.rs:883-928 | Trees equal up to that numbering and without a Node48 are the same value, hence serialise to the same bytes |
| `ArtRun.SlotsFollowOrder` | crates/arkiv-entitydb/src/index_tree.rs:842-850 | Two lists of the same seventeen one-byte keys give different trees: Node48 slots remember the order of insertion |
| `ArtRun.RemoveNotCanonical` | crates/arkiv-entitydb/src/index_tree.rs:710-743 | Inserting a key and removing it again does not give back the tree: a childless Node4 stays where a leaf was |
| `ArtRun.GrowthLosesKey` | crates/arkiv-entitydb/src/index_tree.rs:185-201 | A run of forty-nine insertions of different one-byte keys, each reported as new, after which the one under 0xFF is missing |
| `ArtRun.RunExact` | crates/arkiv-entitydb/src/index_tree.rs:254-281 | After any run of insertions and removals in which growth drops nothing and no Node256 counter overflows, the tree holds exactly the ideal set and `len` is its size |
| `ArtRun.NoFFRun` | crates/arkiv-entitydb/src/index_tree.rs:185-201 | In every run over keys without a 0xFF byte that overflows no counter, growth drops nothing |
| `ArtCount.FewAddsFit` | crates/arkiv-entitydb/src/index_tree.rs:862-866 | A run with at most 65535 insertions overflows no counter |
| `ArtCount.FewAddsExact` | crates/arkiv-entitydb/src/index_tree.rs:254-281 | Any run of at most 65535 insertions, and any removals, over keys without a 0xFF byte holds exactly the ideal set |
| `ArtCount.OverflowRun` | crates/arkiv-entitydb/src/index_tree.rs:710-716 | Forty-nine keys and 65487 times one more inserted and removed: before the last time the tree is right, after it the root is empty and `len` is forty-nine |
| `ArtLen.StepCovered` | crates/arkiv-entitydb/src/index_tree.rs:266-282 | On every tree whose length covers it, in order or not: `len` goes up by one for an insertion reported as new, down by one for a removal reported as done, never from zero, and still covers the tree, reload included |
| `ArtLen.RunCovers` | crates/arkiv-entitydb/src/index_tree.rs:275-282 | Over any run in memory, losses and overflows included, the nodes hold at most `len` keys |
| `ArtOrder.CollectSorted` | crates/arkiv-entitydb/src/index_tree.rs:331-396 | The enumeration is strictly ascending in byte order |
| `ArtOrder.CollectHas` | crates/arkiv-entitydb/src/index_tree.rs:331-396 | The enumeration lists exactly the keys of the tree |
| `ArtOrder.ScanExact` | crates/arkiv-entitydb/src/index_tree.rs:284-307 | Every range and prefix scan returns exactly the keys asked for, ascending |
| `ArtSer.RoundTrip` | crates/arkiv-entitydb/src/index_tree.rs:883-1050 | Reading a written node anywhere in a buffer gives its reload and stops exactly behind its last byte |
| `ArtSer.TreeRoundTrip` | crates/arkiv-entitydb/src/index_tree.rs:309-326 | `from_bytes(to_bytes(t))` succeeds, consumes every byte and gives the reload of `t`, for trees whose lengths fit their fields and below 2^32 keys |
| `ArtSer.FormatExact` | crates/arkiv-entitydb/src/index_tree.rs:42-49 | The stored form in literal bytes: a tag from 0 to 5, leaf lengths, prefix with its length, end flag, counter, table, and the children in order |
| `ArtStore.ReloadHas` | crates/arkiv-entitydb/src/index_tree.rs:883-1050 | Writing and reading back a packed tree keeps exactly its keys, with a wrong counter too |
| `ArtStore.InsertStored` | crates/arkiv-entitydb/src/index_tree.rs:400-508 | Insertion keeps every Node48 packed and every path within its bound |
| `ArtStore.StoreInsertExact` | crates/arkiv-entitydb/src/lib.rs:891-899 | Read, insert, write: the stored bytes hold exactly one key more if and only if the value has at most 255 bytes, the counter has room, and growth drops nothing |
| `ArtStore.StoreRemoveExact` | crates/arkiv-entitydb/src/lib.rs:915-931 | Read, remove, write: the stored bytes hold exactly the other keys, in order, if and only if no hole and no wrong counter is left; the length written is right in any case |
| `ArtStore.RemoveStoredHas` | crates/arkiv-entitydb/src/index_tree.rs:512-564 | On any stored tree in order, a removal that leaves no hole takes out exactly its key, wrong counters notwithstanding |
| `ArtStore.RemoveStoredExact` | crates/arkiv-entitydb/src/index_tree.rs:851-859 | On any stored tree in order without an empty branch, a removal survives being written and read if and only if it frees no slot below the last one in use |
| `ArtStore.HoleLoses` | crates/arkiv-entitydb/src/index_tree.rs:916-918 | Otherwise a key other than the removed one is gone after reading back |
| `ArtStore.OvercountStays` | crates/arkiv-entitydb/src/index_tree.rs:232-245 | A counter handed on by a Node256 is still wrong after writing and reading back |
| `ArtStore.InsertNoVoid` | crates/arkiv-entitydb/src/index_tree.rs:400-508 | Insertion leaves a key below every child |
| `ArtStore.RemoveNoVoid` | crates/arkiv-entitydb/src/index_tree.rs:512-564 | Removal from a tree just read leaves a key below every child, where no wrong counter is handed on |
| `ArtSound.InsertSound` | crates/arkiv-entitydb/src/index_tree.rs:400-508 | Insertion into any tree within its arrays, a lossy one or one with wrong counters included, keeps every node within its arrays, unless it overflows a Node256 counter |
| `ArtSound.RemoveSound` | crates/arkiv-entitydb/src/index_tree.rs:512-564 | Removal keeps it too |
| `ArtSound.ReloadSound` | crates/arkiv-entitydb/src/index_tree.rs:883-1050 | Writing and reading back keeps it too |
| `ArtSound.SoundRoom` | crates/arkiv-entitydb/src/index_tree.rs:786-873 | On such a tree no array is left when a child is added, and no counter falls below zero |
| `ArtSound.AddRoomExact` | crates/arkiv-entitydb/src/index_tree.rs:786-873 | Growing and adding a child keeps arrays and counters in range if and only if a Node256 counter is not at 65535 |
| `ArtSound.StoredRoom` | crates/arkiv-entitydb/src/index_tree.rs:1018-1032 | Whatever bytes are read, no insertion into the tree they give overflows a counter |
| `ArtSound.OkSturdy` | crates/arkiv-entitydb/src/index_tree.rs:786-873 | Trees in order are within their arrays, Node48 tables included |
| `ArtWalk.WalkOk` | crates/arkiv-entitydb/src/index_tree.rs:331-396 | On a tree in order the enumeration, cell by cell and byte by byte as the code walks, is the ascending list of the keys |
| `ArtWalk.HasWalked` | crates/arkiv-entitydb/src/index_tree.rs:331-396 | On any tree within its arrays no key is left out |
| `ArtStoredRun.StoredRunExact` | crates/arkiv-entitydb/src/lib.rs:884-933 | After any run of clean stored insertions and removals from the empty tree, the bytes hold exactly the ideal set |
| `ArtStoredRun.RunSound` | crates/arkiv-entitydb/src/lib.rs:884-933 | After any stored run, clean or not, every node fits its arrays and no counter is near its limit |
| `ArtStoredRun.HoleRun` | crates/arkiv-entitydb/src/index_tree.rs:851-859 | Eighteen keys stored one by one and the first removed: the last is missing |
| `ArtStoredRun.CounterRun` | crates/arkiv-entitydb/src/index_tree.rs:867-872 | Forty-nine keys stored one by one and two removed: the tree is out of order, and no other key is missing |
| `ArtAlias.FlagsExact` | crates/arkiv-entitydb/src/index_tree.rs:400-564 | On every tree within its arrays insertion reports whether the key was absent, and removal whether it was there |
| `ArtAlias.SetShares` | crates/arkiv-entitydb/src/index_tree.rs:480-508 | A write to a child shows under every byte that refers to the same slot, and nowhere else |
| `ArtAlias.AddShares` | crates/arkiv-entitydb/src/index_tree.rs:842-850 | A new child shows under every byte that still refers to the slot it takes, and nowhere else |
| `ArtAlias.InsertPresent` | crates/arkiv-entitydb/src/index_tree.rs:400-508 | On every tree within its arrays the inserted key is there afterwards |
| `ArtAlias.AliasRun` | crates/arkiv-entitydb/src/index_tree.rs:842-850 | The run of `HoleRun` and two more insertions: a key is there that was never inserted, and removing one of the two that share a slot removes it |
| `ArtFew.FewInsert` | crates/arkiv-entitydb/src/index_tree.rs:692-708 | An insertion that leaves at most sixteen keys is clean and gives no node above Node16 |
| `ArtFew.FewRemove` | crates/arkiv-entitydb/src/index_tree.rs:710-743 | A removal from a tree without larger nodes is clean and keeps it so |
| `ArtHeap.Block.AddKeyed` | crates/arkiv-entitydb/src/index_tree.rs:786-799 | The search and the shifting loop insert key and child at the place of the key and move the rest up by one |
| `ArtHeap.Block.DelKeyed` | crates/arkiv-entitydb/src/index_tree.rs:800-812 | The shifting loop drops key and child, and the last cell ends up empty |
| `ArtHeap.Block.AddChild` | crates/arkiv-entitydb/src/index_tree.rs:662-670 | In place, on any node size, wrong counters, unwritten and shared slots included, the node then stands for the value with the child added, its counter of `u8` or `u16` width, and owns its cells |
| `ArtHeap.Block.DelChild` | crates/arkiv-entitydb/src/index_tree.rs:672-680 | In place, on any node size, the node then stands for the value with the child deleted, its counter of `u8` or `u16` width |
| `ArtHeap.Block.ChildCell` | crates/arkiv-entitydb/src/index_tree.rs:621-643 | The cell found is the child's, and one is found exactly if the value has a child there |
| `ArtHeap.CellsShifted` | crates/arkiv-entitydb/src/index_tree.rs:786-799 | Shifting cells, children and footprints together keeps every cell standing for its child |
| `ArtResize.N4ToN16` | crates/arkiv-entitydb/src/index_tree.rs:158-168 | The conversion keeps keys and children, in whatever order the list is |
| `ArtResize.N16ToN48` | crates/arkiv-entitydb/src/index_tree.rs:170-183 | The table maps each key to the slot of its position, the last one where a key repeats, every other byte to none |
| `ArtResize.N48ToN256` | crates/arkiv-entitydb/src/index_tree.rs:185-201 | The scratch table moves the child of every slot to the cell of the last byte that refers to it, except one under 0xFF, which is dropped; a slot nothing was written to gives nothing |
| `ArtResize.N16ToN4` | crates/arkiv-entitydb/src/index_tree.rs:203-213 | The first `n` keys and children move |
| `ArtResize.N48ToN16` | crates/arkiv-entitydb/src/index_tree.rs:215-230 | The bytes that refer to a slot are listed in ascending order, each slot is taken by the first of them, the counter is copied as it stands, right or wrong, and what it counts too many is key 0 without a child |
| `ArtResize.N256ToN48` | crates/arkiv-entitydb/src/index_tree.rs:232-245 | Children are numbered in byte order; the counter is copied as it stands |
| `ArtResize.SpreadCells` | crates/arkiv-entitydb/src/index_tree.rs:188-199 | The two loops over the scratch table place each child by its byte, for every byte but 0xFF |
| `ArtInPlace.MaybeGrow` | crates/arkiv-entitydb/src/index_tree.rs:692-708 | The node in memory becomes the grown value, on every tree within its arrays |
| `ArtInPlace.MaybeShrink` | crates/arkiv-entitydb/src/index_tree.rs:710-743 | The cell then stands for the shrunk value: empty, merged with its only child, or a smaller node |
| `ArtInPlace.PrependInto` | crates/arkiv-entitydb/src/index_tree.rs:747-782 | Parent prefix and branch byte end up in front of the child's own prefix or suffix |
| `ArtInPlace.InsertNode` | crates/arkiv-entitydb/src/index_tree.rs:400-508 | On every tree within its arrays in-place insertion leaves exactly the tree of the value computation, returns its flag, and adds only new objects |
| `ArtInPlace.RemoveNode` | crates/arkiv-entitydb/src/index_tree.rs:512-564 | On every tree within its arrays in-place removal leaves exactly the tree of the value computation and returns its flag |
| `ArtInPlace.CommonPrefixLength` | crates/arkiv-entitydb/src/index_tree.rs:877-879 | The loop finds the length of the longest common prefix |
| `ArtRead.ReadNode` | crates/arkiv-entitydb/src/index_tree.rs:939-1039 | Builds nodes in memory for exactly the value that the format describes, at the same end position, or fails with it |
| `IndexTree.Collector.CollectAll` | crates/arkiv-entitydb/src/index_tree.rs:331-396 | On every tree within its arrays: appends its keys behind the path, in the order of the walk, and restores the path |
| `IndexTree.Writer.SerNode` | crates/arkiv-entitydb/src/index_tree.rs:883-936 | Appends exactly the stored form of the tree to the buffer |
| `IndexTree.Index.Insert` | crates/arkiv-entitydb/src/index_tree.rs:266-273 | Root, `len` and flag are those of the value tree |
| `IndexTree.Index.Remove` | crates/arkiv-entitydb/src/index_tree.rs:275-282 | Root, `len` and flag are those of the value tree |
| `IndexTree.Index.Filtered` | crates/arkiv-entitydb/src/index_tree.rs:300-307 | Returns the filtered enumeration; on a tree in order, ascending |
| `IndexTree.Index.ToBytes` | crates/arkiv-entitydb/src/index_tree.rs:309-314 | Length and stored form |
| `IndexTree.FromBytes` | crates/arkiv-entitydb/src/index_tree.rs:316-326 | A fresh tree for exactly the inputs that are one stored tree |
| `IndexTree.RunReachable` | crates/arkiv-entitydb/src/lib.rs:884-933 | The bytes that any run of fewer than 2^32 stored operations leaves, holes, wrong counters and shared slots included, are within what the next two rows ask for |
| `IndexTree.InsertStoredBytes` | crates/arkiv-entitydb/src/lib.rs:891-899 | On all such bytes: read, insert in memory, write gives the bytes of the value computation, which hold one key more if and only if insertion is clean, and are such bytes again while `len` fits 32 bits |
| `IndexTree.RemoveStoredBytes` | crates/arkiv-entitydb/src/lib.rs:915-931 | On all such bytes: read, remove in memory, write gives the bytes of the value computation, which hold exactly the rest if and only if removal is clean, and are such bytes again; emptiness is reported |
| `Accounts.PairInjective` | crates/arkiv-entitydb/src/lib.rs:90-99 | Pair preimages determine key and value, for keys without a zero byte |
| `Accounts.PairCollides` | crates/arkiv-entitydb/src/lib.rs:90-99 | With a zero byte in the key two pairs share a preimage |
| `Accounts.PairIndexDisjoint` | crates/arkiv-entitydb/src/lib.rs:90-107 | No pair preimage is an index preimage |
| `Accounts.SlotsDisjoint` | crates/arkiv-entitydb/src/lib.rs:150-205 | No two slots of different families are equal, for all five families |
| `Accounts.PayloadNonceInjective` | crates/arkiv-entitydb/src/lib.rs:228-253 | A payload nonce slot determines caller and nonce |
| `Accounts.LayoutExact` | crates/arkiv-entitydb/src/lib.rs:90-189 | What is hashed for each account and slot, spelled out |
| `Accounts.WordsExact` | crates/arkiv-entitydb/src/lib.rs:207-256 | Numbers and addresses stand right-aligned in their 32-byte words |
| `Indexes.InsertTreeExact` | crates/arkiv-entitydb/src/lib.rs:891-899 | A tree that is right holds one value more after the write if and only if its key is not marked lossy; no other tree or bitmap changes |
| `Indexes.RemoveTreeExact` | crates/arkiv-entitydb/src/lib.rs:915-931 | The same for taking a value out, with an emptied tree cleared away |
| `Indexes.AddPairExact` | crates/arkiv-entitydb/src/lib.rs:884-901 | The bitmaps are those of the model with the pair added; both tiers agree with it if and only if the key is lossy or the value is new to its bitmap or already where its flag says |
| `Indexes.DropPairExact` | crates/arkiv-entitydb/src/lib.rs:908-933 | After a removal both tiers agree if and only if the entity does not hold the pair under the other flag too, and the key is lossy or nobody left holds the pair under the other flag |
| `Indexes.AddPairsAgree` | crates/arkiv-entitydb/src/lib.rs:862-878 | A list of pairs, in any order and with repetitions, is indexed as the set it is, and both tiers agree afterwards |
| `Indexes.DropPairsAgree` | crates/arkiv-entitydb/src/lib.rs:698-706 | The same for taking a list of pairs out |
| `Indexes.PairsExact` | crates/arkiv-entitydb/src/lib.rs:771-855 | What an entity is indexed under, spelled out: seven built-in pairs with their names, values and flags, and one pair for each attribute |
| `Indexes.AddPairsRead` | crates/arkiv-entitydb/src/lib.rs:862-878 | With values of at most 255 bytes, indexing never fails and leaves every tree readable, lossy ones included |
| `Indexes.DropPairsRead` | crates/arkiv-entitydb/src/lib.rs:698-706 | Removal from the indexes never fails on readable trees and leaves them readable |
| `EntityDb.StateDb.InsertIntoIndexes` | crates/arkiv-entitydb/src/lib.rs:884-901 | Bitmap first, tree only for a new bitmap with the flag: exactly `AddPair`, and fails exactly with it |
| `EntityDb.StateDb.RemoveFromIndexes` | crates/arkiv-entitydb/src/lib.rs:908-933 | Tree only once the bitmap is empty: exactly `DropPair`, on every state |
| `EntityDb.StateDb.IndexAll` | crates/arkiv-entitydb/src/lib.rs:862-878 | The loop over the list minus the skipped ones is exactly `AddPairs` |
| `EntityDb.StateDb.Create` | crates/arkiv-entitydb/src/lib.rs:501-564 | Code, storage and lossy keys are those of `StepDb`, and it fails exactly where `StepDb` does; the record written has these nine fields, sender twice and block twice, and no other record changes |
| `EntityDb.StateDb.Update` | crates/arkiv-entitydb/src/lib.rs:580-608 | The same, with only the pairs that differ written; the record gets payload, content type, attributes and block, and keeps its other five fields; nothing changes without a record |
| `EntityDb.StateDb.Extend` | crates/arkiv-entitydb/src/lib.rs:613-643 | The same, with the expiry and its pair moved; the record gets expiry and block and keeps the rest |
| `EntityDb.StateDb.Transfer` | crates/arkiv-entitydb/src/lib.rs:648-678 | The same, with the owner and its pair moved; the record gets owner and block and keeps the rest |
| `EntityDb.StateDb.Delete` | crates/arkiv-entitydb/src/lib.rs:684-719 | The same, with the record, its pairs and both id slots gone, for any spelling of the key |
| `EntityDb.StateDb.Expire` | crates/arkiv-entitydb/src/lib.rs:724-726 | Exactly the same state change as a deletion |
| `EntityDb.StepWrites` | crates/arkiv-entitydb/src/lib.rs:501-726 | Which record each operation writes, field by field, and that no other record changes |
| `EntityDb.StepKeeps` | crates/arkiv-entitydb/src/lib.rs:501-726 | Every step that passes on no flag clash keeps `Consistent`: bitmaps, trees of keys not lossy, records and id map all agree with the entities afterwards |
| `EntityDb.StepFiles` | crates/arkiv-entitydb/src/lib.rs:501-726 | Every step keeps records and id map, whatever flags the pairs have, and changes the id slots as it should |
| `EntityDb.StepReads` | crates/arkiv-entitydb/src/lib.rs:501-726 | With values of at most 255 bytes a step fails only for want of its record, and every tree stays readable |
| `IndexRuns.RunSane` | crates/arkiv-entitydb/src/lib.rs:501-726 | Over any run of permitted steps, from any consistent database, nothing fails and the invariant holds |
| `IndexRuns.RunSteady` | crates/arkiv-entitydb/src/lib.rs:501-726 | Over any run of fitting steps nothing fails, and records, id map and readable trees stay in order, whatever flags the pairs get |
| `IndexRuns.OneFlagRun` | crates/arkiv-entitydb/src/lib.rs:891-931 | Such a run is a permitted one as long as no pair has two flags |
| `IndexRuns.FewStayExact` | crates/arkiv-entitydb/src/lib.rs:884-933 | Over any run of permitted steps from the empty database, a key (without a zero byte) that has at most sixteen ordered values at any time is never lossy, and its tree holds exactly the live values |
| `IndexRuns.TextStaysExact` | crates/arkiv-entitydb/src/lib.rs:884-933 | The same for a key whose ordered values never contain a 0xFF byte and whose removals leave no hole and no wrong counter, however many values it has |
| `IndexRuns.ClashRun` | crates/arkiv-entitydb/src/lib.rs:891-899 | From the empty database, one name and value as an entity key first and a number second: the value misses its tree |
| `IndexRuns.DropClashRun` | crates/arkiv-entitydb/src/lib.rs:923-931 | The other order, and the number removed: the value stays in a tree that should be empty |
| `IndexRuns.DeleteLeaves` | crates/arkiv-entitydb/src/lib.rs:684-719 | After a deletion the id is still in the `$key` bitmap of the record if and only if the caller's key is not the one on record |
| `IndexRuns.StrayRun` | crates/arkiv-entitydb/src/lib.rs:684-719 | From the empty database, a creation and a deletion under another key with the same address leave the free id in a bitmap |
| `IndexRuns.StrayInstance` | crates/arkiv-entitydb/src/lib.rs:684-719 | Two such keys, spelled out |
| `EntityDb.StateDb.BumpNonce` | crates/arkiv-entitydb/src/lib.rs:212-226 | Returns the old nonce and adds one, for this caller only and in no other slot; fails and changes nothing at the last one |
| `EntityDb.StateDb.ConsumePayloadReferenceNonce` | crates/arkiv-entitydb/src/lib.rs:243-256 | Spends this nonce of this caller and nothing else |
| `EntityDb.CreateIds` | crates/arkiv-entitydb/src/lib.rs:511-532 | Creation extends the id bijection by a fresh pair |
| `EntityDb.DeleteIds` | crates/arkiv-entitydb/src/lib.rs:684-719 | Deletion takes one pair out of the id bijection |
| `EntityDb.IdsInjective` | crates/arkiv-entitydb/src/lib.rs:511-532 | Two live entities never share an id |
| `Interpreter.Eval` | crates/arkiv-entitydb/src/query/interpreter.rs:33-135 | The evaluator with its early exit computes the set algebra of the query, and fails only on a tree that does not decode |
| `Interpreter.ReadIn` | crates/arkiv-entitydb/src/query/interpreter.rs:142-149 | The accumulating loop is the union of the pair bitmaps |
| `Interpreter.AnswerExact` | crates/arkiv-entitydb/src/query/interpreter.rs:33-149 | Under the invariant a live id is in the answer if and only if its entity satisfies the query, for every query form and nesting |
| `Interpreter.DenotedIds` | crates/arkiv-entitydb/src/query/interpreter.rs:33-149 | Every id in the answer is live, or was left in a `$key` bitmap by a deletion under another key and resolves to nothing |
| `Interpreter.Answer` | crates/arkiv-entitydb/src/query/interpreter.rs:25-31 | On a consistent database evaluation succeeds; among the live ids it gives exactly the matching ones, and the others have a zero slot |
| `Interpreter.ScanMeans` | crates/arkiv-entitydb/src/query/interpreter.rs:33-135 | A range or prefix leaf selects the entities with an ordered value that passes the test |
| `Interpreter.BitsMean` | crates/arkiv-entitydb/src/lib.rs:940-952 | Among the live ids a pair bitmap holds exactly those of the entities with that value |
| `Interpreter.AllMean` | crates/arkiv-entitydb/src/lib.rs:956-958 | `$all` holds exactly the ids of the live entities |
| `Bounds.ScanCarries` | crates/arkiv-entitydb/src/query/interpreter.rs:33-135 | Whatever the trees list, an entity that a range or prefix leaf returns carries a value that passes the test |
| `Bounds.AnswerBounds` | crates/arkiv-entitydb/src/query/interpreter.rs:33-149 | For every query on every consistent database, lossy trees or not: a condition on the entity alone that makes sure it is answered, and one that every answered entity meets |
| `Bounds.BoundsMeet` | crates/arkiv-entitydb/src/query/interpreter.rs:33-149 | Where no lossy tree is read, both conditions are the query |
| `Paging.Execute` | crates/arkiv-entitydb/src/query/interpreter.rs:188-227 | The page is the first ids below the cursor, newest first, that resolve, up to the page size, with the right next cursor |
| `Paging.WalkComplete` | crates/arkiv-entitydb/src/query/interpreter.rs:188-227 | Following the cursors yields every resolvable match once, in descending order, whatever the page size; all pages but the last are full |
| `Paging.WalkExists` | crates/arkiv-entitydb/src/query/interpreter.rs:188-227 | Following the cursors comes to an end |
| `Paging.ResolveExact` | crates/arkiv-entitydb/src/lib.rs:977-988 | An id resolves if and only if it is in `$all`, and then to its entity's record |
| `Paging.PagedAnswer` | crates/arkiv-entitydb/src/query/interpreter.rs:188-227 | The pages of a query list exactly the records of the live entities that satisfy it |
| `Lexer.Lexer.NextToken` | crates/arkiv-entitydb/src/query/lexer.rs:107-200 | The position moves to behind the token that `Next` reads off the rest of the text, which the rows of `Spelling` describe by characters alone |
| `Lexer.Lexer.LexString` | crates/arkiv-entitydb/src/query/lexer.rs:218-242 | The escape loop reads the body of the literal |
| `Lexer.Progress` | crates/arkiv-entitydb/src/query/lexer.rs:107-200 | Every token takes at least one character |
| `Lexer.Tokenize` | crates/arkiv-entitydb/src/query/lexer.rs:64-71 | The loop returns all tokens of the text, or fails with it |
| `Spelling.ScanFront` | crates/arkiv-entitydb/src/query/lexer.rs:107-200 | What is taken off the front of a text is a spelling of the token given, and ends where it must |
| `Spelling.FrontScan` | crates/arkiv-entitydb/src/query/lexer.rs:107-341 | Every spelling that ends where it must is read as its token: `&&` and two bars or words in any case, hex digits and `0x` in either case, leading zeros, the five escapes |
| `Spelling.TokensExact` | crates/arkiv-entitydb/src/query/lexer.rs:64-71 | The lexer accepts exactly the texts that are tokens in any spelling, with white space between them or none where the next cannot belong to the last, and gives those tokens |
| `Parser.Parser.TopLevel` | crates/arkiv-entitydb/src/query/parser.rs:177-192 | The parser returns what the grammar functions say about the whole token list |
| `Parser.Parser.Predicate` | crates/arkiv-entitydb/src/query/parser.rs:233-313 | One comparison, list or glob predicate, exactly as the parse function, with the same refusals; the rows of `Conditions` say in fields and literals what each asks |
| `Parser.Parser.Term` | crates/arkiv-entitydb/src/query/parser.rs:214-231 | NOT only before parentheses |
| `Parser.Parser.AndExpr` | crates/arkiv-entitydb/src/query/parser.rs:204-212 | The loop nests to the left |
| `Parser.Parser.OrExpr` | crates/arkiv-entitydb/src/query/parser.rs:194-202 | The loop nests to the left, below AND |
| `Grammar.ParserExact` | crates/arkiv-entitydb/src/query/parser.rs:5-24 | The parser accepts a token list with result `q` if and only if the list derives `q` |
| `Grammar.Unambiguous` | crates/arkiv-entitydb/src/query/parser.rs:5-24 | A token list derives at most one query |
| `Conditions.LeafExact` | crates/arkiv-entitydb/src/query/parser.rs:233-460 | For every key, operator and literal: accepted exactly as a literal table says, and then asks exactly what the fields of the entity say, as `$owner = a` if and only if the owner is `a` |
| `Conditions.KeyTextExact` | crates/arkiv-entitydb/src/query/parser.rs:474-488 | Which quoted texts are entity keys, character by character |
| `Conditions.ExprExact` | crates/arkiv-entitydb/src/query/parser.rs:177-313 | An expression has a meaning exactly if its parts fit, and the query asks exactly what the expression says, through IN, NOT IN, AND, OR and NOT |
| `Conditions.ReadExact` | crates/arkiv-entitydb/src/query/parser.rs:177-231 | The parser accepts exactly `*`, `$all` and the token lists that read as an expression whose parts fit |
| `Printer.ParsePrinted` | crates/arkiv-entitydb/src/query/parser.rs:177-398 | Printing an expression and parsing it gives its meaning, and no shorter list of tokens does |
| `Printer.LexWritten` | crates/arkiv-entitydb/src/query/lexer.rs:64-341 | Writing tokens down, with escapes, numbers up to 2^64-1 and hex, and lexing the text gives the tokens back |
| `Printer.ReadBack` | crates/arkiv-entitydb/src/query/parser.rs:138-145 | Text written for an expression parses to its meaning |
| `Search.WrittenQuery` | crates/arkiv-entitydb/src/query/parser.rs:138-145 | The query that runs for a written expression is the one it means |
| `Search.ParsedKeysOk` | crates/arkiv-entitydb/src/query/parser.rs:356-368 | No text can name a `$` key as a user key or a key with a zero byte |
| `Search.ExecuteText` | crates/arkiv-entitydb/src/query/interpreter.rs:188-227 | Text in, page out: nothing for zero size or text that does not parse; wherever the trees are readable or can be trusted it answers; and what it returns is the page of the parsed query |
| `Search.SearchExact` | crates/arkiv-entitydb/src/query/interpreter.rs:172-187 | For every text that parses, the pages list exactly the live entities that satisfy it, each once, newest first |
| `Search.NumericLeaf` | crates/arkiv-entitydb/src/query/parser.rs:430-468 | On a key with numbers only, a byte comparison with the encoded literal is the comparison of the numbers |
| `Search.NumericAnswer` | crates/arkiv-entitydb/src/query/parser.rs:430-468 | Over the database, `k > n` and its kin select exactly the entities with such a number |
| `Search.EncodersAgree` | crates/arkiv-node/src/precompile.rs:1350-1370 | A number literal is encoded to the stored bytes of a `UINT` attribute if and only if it is its number |
| `Utf8.TextNoFF` | crates/arkiv-node/src/precompile.rs:1313-1328 | Accepted text has no 0xFF byte |
| `Utf8.TextExact` | crates/arkiv-node/src/precompile.rs:1313-1328 | Accepted text is exactly what some string of characters is in UTF-8 |
| `Utf8.LongestText` | crates/arkiv-node/src/precompile.rs:1313-1328 | The position of the first byte outside text ends the longest beginning that is text |
| `Utf8.EncodeText` | crates/arkiv-entitydb/src/query/parser.rs:464-464 | The bytes of a text are text, and contain a zero or start with `$` only if the text does |
| `Attributes.ValidateIdent32` | crates/arkiv-node/src/precompile.rs:586-613 | The one-pass check gives the first offending byte, or accepts |
| `Attributes.IdentExact` | crates/arkiv-node/src/precompile.rs:555-613 | Accepted are exactly a letter, then name bytes, then padding; the stored name is a user key and padding restores the original |
| `Attributes.RejectEmbeddedNull` | crates/arkiv-node/src/precompile.rs:1286-1304 | The one-pass check gives the first byte after a zero, or accepts |
| `Attributes.ConvertExact` | crates/arkiv-node/src/precompile.rs:1350-1387 | On accepted attributes nothing is lost: name, type and value can be read back, and every stored key is non-empty, starts with a-z and has no zero byte |
| `Attributes.ConvertShort` | crates/arkiv-node/src/precompile.rs:1350-1387 | No stored value has more than 128 bytes, so every prefix of a tree fits its length byte |
| `Attributes.ConvertInjective` | crates/arkiv-node/src/precompile.rs:1350-1387 | The stored attributes determine the calldata |
| `Attributes.ValueAccepted` | crates/arkiv-node/src/precompile.rs:1286-1379 | Exactly which values are accepted, by type: a number or an entity key is any first word and zeros, a string is the UTF-8 of a text without NUL and zeros, no other type; the value stored, and the word reported |
| `Attributes.ListAccepted` | crates/arkiv-node/src/precompile.rs:1350-1387 | Attributes convert if and only if all values are acceptable |
| `Attributes.NamesAccepted` | crates/arkiv-node/src/precompile.rs:617-622 | The names pass if and only if each is an identifier |
| `Attributes.IdentRefused` | crates/arkiv-node/src/precompile.rs:586-613 | The position reported is the first where no identifier has that byte |
| `Attributes.StringRefused` | crates/arkiv-node/src/precompile.rs:1286-1328 | The position reported is the first byte after padding, or else the end of the longest beginning that is text |
| `Attributes.ListRefused` | crates/arkiv-node/src/precompile.rs:1350-1387 | A refused list is answered as its first refused value is |
| `Attributes.NamesRefused` | crates/arkiv-node/src/precompile.rs:617-622 | Refused names are answered as the first refused one is |
| `Attributes.FaithfulOnce` | crates/arkiv-node/src/precompile.rs:1350-1387 | The calldata determines the stored attribute |
| `Operations.StripTrailingZeros` | crates/arkiv-node/src/precompile.rs:1267-1272 | The popping loop keeps everything up to the last byte that is not zero |
| `Gas.OpGasExact` | crates/arkiv-node/src/precompile.rs:1214-1255 | The nested saturating cost of an operation is its exact cost in numbers, by kind, payload byte, attribute, number or string, and signed reference, clipped once |
| `Gas.TotalGasExact` | crates/arkiv-node/src/precompile.rs:1208-1212 | The saturating fold is 5000 and the exact costs of the bag of operations, clipped once |
| `Gas.TotalGasOrder` | crates/arkiv-node/src/precompile.rs:1208-1212 | The total does not depend on the order and never falls when operations are appended |
| `Gas.ReferenceExact` | crates/arkiv-node/src/precompile.rs:165-167 | Which 128 bytes of calldata are the media type of a payload reference |
| `Payment.SplitExact` | crates/arkiv-node/src/precompile.rs:971-984 | Provider amount plus burn is the payment, and no product overflows 256 bits |
| `Payment.PayExact` | crates/arkiv-node/src/precompile.rs:937-1033 | In numbers: when the payment of gas times base fee goes through, that the provider gains the `s` with `10000 s <= paid * bps < 10000 (s + 1)` and the caller loses what is paid, and which answer is given otherwise; the shortage after the transfer is never reported |
| `Payment.PayConserves` | crates/arkiv-node/src/precompile.rs:937-1033 | The total of all balances falls by exactly what is paid and not given to the provider |
| `Payment.PayGoesThrough` | crates/arkiv-node/src/precompile.rs:937-1033 | With all balances below 2^256 in total, a caller who can pay does pay |
| `Rules.CreateRule` | crates/arkiv-node/src/precompile.rs:355-391 | CREATE succeeds if and only if lifetime, names, values, receipt, nonces and payment are in order; then all nine fields of the record, the nonces, the receipt, the balances and the event |
| `Rules.UpdateRule` | crates/arkiv-node/src/precompile.rs:393-426 | UPDATE succeeds if and only if names, values, ownership, receipt and payment are in order; then payload, content type, attributes and block are new, five fields and all other entities are as before |
| `Rules.ExtendRule` | crates/arkiv-node/src/precompile.rs:428-456 | EXTEND succeeds if and only if the lifetime is positive, the entity is there, unexpired and the caller's, and the new expiry is later; then exactly that expiry and block; else which error |
| `Rules.TransferRule` | crates/arkiv-node/src/precompile.rs:458-495 | TRANSFER succeeds if and only if the entity is there, unexpired and the caller's and the new owner is neither zero nor the owner; then exactly that owner and block; else which error |
| `Rules.DeleteRule` | crates/arkiv-node/src/precompile.rs:497-516 | DELETE succeeds if and only if the entity is there, unexpired and the caller's; then only it is gone; else which error |
| `Rules.ExpireRule` | crates/arkiv-node/src/precompile.rs:518-549 | EXPIRE succeeds if and only if the entity is there and expired; then only it is gone; else which error |
| `Rules.CreateRefused` | crates/arkiv-node/src/precompile.rs:355-391 | Which of the checks gives the answer when a CREATE fails |
| `Rules.UpdateRefused` | crates/arkiv-node/src/precompile.rs:393-426 | The same for UPDATE |
| `Rules.SettleRule` | crates/arkiv-node/src/precompile.rs:684-714 | A receipt is taken if and only if the calldata says so, the payload validates, its nonce is fresh and the payment goes through; then that nonce is spent and the payment made |
| `Rules.EventsExact` | crates/arkiv-node/src/precompile.rs:1184-1206 | A path of operations appends one event for each, in order, with its key, kind, owner and clipped expiry |
| `Rules.BatchRule` | crates/arkiv-node/src/precompile.rs:254-325 | A batch is done if and only if it is not empty, its cost in numbers is covered, and each operation succeeds in the state left by the ones before; otherwise nothing changes, and which answer is given |
| `Lifecycle.StepExact` | crates/arkiv-node/src/precompile.rs:335-549 | What each successful operation did at every address: creator, creation block and key stay; expiry grows only by the owner's extend; owner changes only by the owner's transfer |
| `Lifecycle.OneWayOut` | crates/arkiv-node/src/precompile.rs:497-549 | DELETE succeeds exactly for the owner before expiry, EXPIRE for anybody from expiry on; never both at one block |
| `Lifecycle.History` | crates/arkiv-node/src/precompile.rs:335-549 | Along any path, a minted key that is gone never returns, and what is still there has kept its identity |
| `Lifecycle.Untouched` | crates/arkiv-node/src/precompile.rs:1107-1137 | Along any path without operations of the owner, and before expiry, an entity does not change |
| `Lifecycle.Frozen` | crates/arkiv-node/src/precompile.rs:518-549 | From its expiry on an entity can only be removed |
| `Lifecycle.SpentOnce` | crates/arkiv-node/src/precompile.rs:684-714 | Each pair of caller and payload nonce backs at most one successful operation, ever |
| `Lifecycle.AllKnownKept` | crates/arkiv-node/src/precompile.rs:1175-1182 | Along any path every live entity was minted |
| `Lifecycle.RunIsPath` | crates/arkiv-node/src/precompile.rs:254-305 | A run of batches is the path of the operations of those that committed |
| `Precompile.Precompile.ApplyPayment` | crates/arkiv-node/src/precompile.rs:937-1033 | Balances and answer are those of the payment function, and those of the rule in numbers |
| `Precompile.Precompile.TakeReceipt` | crates/arkiv-node/src/precompile.rs:684-714 | Nonce check, nonce write and payment in the order of the code |
| `Precompile.Precompile.LoadEntityForOwner` | crates/arkiv-node/src/precompile.rs:1107-1137 | There, not expired, the caller's; else the matching error |
| `ChainDb.OpRefines` | crates/arkiv-node/src/precompile.rs:335-549 | Each successful operation of the state machine is a run of database steps, none of which fails, after which the database shows exactly the new state; records, ids and readable trees stay in order, whatever the attributes are |
| `ChainDb.PathRefines` | crates/arkiv-node/src/precompile.rs:254-305 | The same along any path of operations |
| `ChainDb.TrueOnRun` | crates/arkiv-node/src/precompile.rs:254-305 | Over any run of batches from an empty chain in which no name and value is in use under two flags at a time, the whole invariant holds: bitmaps, trees, records and ids agree with the entities of the state machine |
| `ChainDb.FewOnRun` | crates/arkiv-node/src/precompile.rs:254-305 | Over any such run, the tree of a key with at most sixteen ordered values at any time holds exactly those of the live entities |
| `Precompile.Precompile.ApplyCreate` | crates/arkiv-node/src/precompile.rs:355-391 | Through the real handlers: exactly the answer and state of the state machine, success and state as in `Rules.CreateRule`, and exactly its database steps; never a failure of its own |
| `Precompile.Precompile.ApplyUpdate` | crates/arkiv-node/src/precompile.rs:393-426 | The same for UPDATE, as in `Rules.UpdateRule` |
| `Precompile.Precompile.ApplyExtend` | crates/arkiv-node/src/precompile.rs:428-456 | The same for EXTEND, as in `Rules.ExtendRule` |
| `Precompile.Precompile.ApplyTransfer` | crates/arkiv-node/src/precompile.rs:458-495 | The same for TRANSFER, as in `Rules.TransferRule` |
| `Precompile.Precompile.ApplyDelete` | crates/arkiv-node/src/precompile.rs:497-516 | The same for DELETE, as in `Rules.DeleteRule`, under any spelling of the key |
| `Precompile.Precompile.ApplyExpire` | crates/arkiv-node/src/precompile.rs:518-549 | The same for EXPIRE, as in `Rules.ExpireRule`, under any spelling of the key |
| `Precompile.Precompile.Execute` | crates/arkiv-node/src/precompile.rs:254-305 | State and verdict are the state machine's outright, whatever names and values the attributes have; a batch commits all its operations or restores code, storage, balances and logs; records, ids and readable trees always stay in order |
| `Answers.ReachedShows` | crates/arkiv-node/src/precompile.rs:254-305 | After any run of batches in which no pair has two flags at a time, the database agrees with the registry's state |
| `Answers.RunAnswered` | crates/arkiv-entitydb/src/query/interpreter.rs:172-227 | After such a run, the pages of any text whose ranges and prefixes are over keys with at most sixteen ordered values at any time list exactly the live entities of the registry that satisfy it, each once, newest first |
| `Answers.TextAccepted` | crates/arkiv-entitydb/src/query/parser.rs:138-145 | A text is accepted if and only if it is written, in any spelling, as a whole-set selector or as an expression whose parts fit |
| `Answers.RunListed` | crates/arkiv-entitydb/src/query/interpreter.rs:172-227 | After a regular run of batches, the pages of a written expression list exactly the live entities that meet it, said in fields and literals from batch and text to page |

## Left out

- `EntityDb.StateDb.TreeInsertValue`: uses the value functions on the stored bytes rather than the class in `IndexTree`, which `IndexTree.InsertStoredBytes` shows to give the same bytes; its failure stands for a tree that does not decode and for the panic on a prefix over 255 bytes.
- `ArtInPlace.InsertNode`: a mutable reference to a cell is an in-out parameter that the owner writes back; the stack of borrows is not modelled.
- `ArtInPlace.RemoveNode`: asks the cell it has just written whether the child is empty, where the code looks the child up again.
- `ArtResize.N48ToN16`: the sort of pairs that are collected in ascending order anyway.
- `ChainDb.TrueOnRun`: while a pair has two flags, nothing is claimed of any index, where only the tree of its key, and its bitmaps if one entity has both, can be wrong.
- `IndexTree.InsertStoredBytes`: values over 255 bytes, on which writing may panic.
- `Lexer.Lexer.NextToken`: does not give the byte offset and text of an error.
- `Parser.Parser.TopLevel`: does not give the text of an error.
- `Search.ExecuteText`: walks a fixed state; concurrent writes between bitmap and record are only present as ids that do not resolve.
- `Precompile.Precompile.Execute`: the journal is a copy of code, storage, balances and logs that is put back; events are records, not encoded logs; static-call, value and selector checks are not modelled.
- Keccak, secp256k1 recovery, JSON, ABI decoding, roaring bitmaps and RLP: library code; bitmaps and records are kept decoded.
- Reading malformed tree bytes: modelled, but nothing is claimed beyond the round trip and agreement of the two readers.
- The nonces view, RPC projection, state adapters, genesis, protocol schedule, installation and command line: plumbing and wire formats.
