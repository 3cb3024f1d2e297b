/** What one node of the file-notify policy holds, without its bytes: the map from uuid and name to
    mask, how many bytes of the buffer that takes, and how large the buffer is. */
module MaskShelf {
  import opened Bytes
  import opened MaskLayout

  const LIMIT: nat := 512               // file_notify_checklist_limit
  const MAX_SIZE: nat := 0x8000_0000    // no allocation is larger

  datatype Shelf = Shelf(contents: map<Key, bv32>, used: nat, size: nat)

  const NEW_SHELF := Shelf(map[], 0, LIMIT)

  /** The bits stored under a key; none if there is no entry. */
  function Bits(m: map<Key, bv32>, key: Key): bv32 { if key in m then m[key] else 0 }

  /** There is a segment for this uuid. */
  ghost predicate Known(m: map<Key, bv32>, uuid: seq<byte>) { exists name :: (uuid, name) in m }

  /** The bytes an insert takes: none for a known name, an entry for a new name of a known uuid, and a
      segment for a new uuid. */
  ghost function Needed(m: map<Key, bv32>, key: Key): nat {
    if key in m then 0 else if Known(m, key.0) then EntryLen(|key.1|) else SOMASK + EntryLen(|key.1|)
  }

  /** The size _mask_realloc asks for. */
  function NextSize(size: nat): nat { if size == 0 then LIMIT else 2 * size }

  /** The size after as many reallocations as `need` bytes call for, or until one fails. */
  function Grown(size: nat, need: nat, alloc: nat -> bool): nat
    decreases need - size
  {
    if need <= size || !alloc(NextSize(size)) then size else Grown(NextSize(size), need, alloc)
  }

  /** Whether an insert succeeds ... */
  ghost predicate Takes(s: Shelf, key: Key, alloc: nat -> bool) {
    var need := s.used + Needed(s.contents, key);
    need <= Grown(s.size, need, alloc)
  }

  /** ... and what it leaves: the bits added, or a larger buffer at most. */
  ghost function PutIn(s: Shelf, key: Key, mask: bv32, alloc: nat -> bool): Shelf {
    var need := s.used + Needed(s.contents, key);
    var size := Grown(s.size, need, alloc);
    if need <= size then Shelf(s.contents[key := Plus(Bits(s.contents, key), mask)], need, size) else s.(size := size)
  }

  /** What is left of the map when bits are taken; a key left without bits goes. */
  function Without(m: map<Key, bv32>, key: Key, mask: bv32): map<Key, bv32> {
    if key !in m then m
    else if Minus(m[key], mask) == 0 then m - {key}
    else m[key := Minus(m[key], mask)]
  }

  /** The bytes of an entry, and of its segment if it was the last. */
  ghost function Freed(m: map<Key, bv32>, key: Key, mask: bv32): nat {
    if key !in m || Minus(m[key], mask) != 0 then 0
    else if Known(m - {key}, key.0) then EntryLen(|key.1|)
    else SOMASK + EntryLen(|key.1|)
  }

  ghost function TakenOut(s: Shelf, key: Key, mask: bv32): Shelf {
    var n := Freed(s.contents, key, mask);
    s.(contents := Without(s.contents, key, mask), used := if n <= s.used then s.used - n else 0)
  }

  /** Memory for every buffer smaller than twice the need is enough. */
  lemma {:induction false} GrowsEnough(size: nat, need: nat, alloc: nat -> bool)
    requires size >= LIMIT && forall n :: LIMIT < n < 2 * need ==> alloc(n)
    ensures need <= Grown(size, need, alloc)
    decreases need - size
  {
    if size < need { GrowsEnough(2 * size, need, alloc); }
  }

  /** A buffer is made larger only if it has to be, and at most until it is twice as large as that. */
  lemma {:induction false} GrownNoMore(size: nat, need: nat, alloc: nat -> bool)
    requires size >= LIMIT
    ensures Grown(size, need, alloc) == size || Grown(size, need, alloc) < 2 * need
    decreases need - size
  {
    if size < need && alloc(NextSize(size)) { GrownNoMore(NextSize(size), need, alloc); }
  }

  /** A buffer never gets smaller. */
  lemma {:induction false} GrownIsLarger(size: nat, need: nat, alloc: nat -> bool)
    ensures size <= Grown(size, need, alloc)
    decreases need - size
  {
    if size < need && alloc(NextSize(size)) { GrownIsLarger(NextSize(size), need, alloc); }
  }
}
