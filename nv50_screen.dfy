/**
 * Descriptor-slot bookkeeping of the nv50 screen: the TIC (texture image
 * control) and TSC (texture sampler control) entry tables with their lock
 * bitmaps, and the status bits a resource collects when it is validated
 * for GPU access.
 */
module Nv50Screen {
  import opened Simd

  /** NV50_TIC_MAX_ENTRIES and NV50_TSC_MAX_ENTRIES. */
  const MaxEntries: nat := 2048

  /** Words of the lock bitmap: one bit per entry, 32 per word. */
  const LockWords: nat := MaxEntries / 32

  /** Bit `b` of a lock word. */
  predicate BitSet(w: bv32, b: bv5)
  {
    (w >> b) & 1 == 1
  }

  /** `w &= ~(1 << b)`: the word with bit b cleared. */
  function ClearBit(w: bv32, b: bv5): (r: bv32)
    ensures !BitSet(r, b)
  {
    w & !(1 << b)
  }

  /** ClearBit clears bit b and keeps every other bit. */
  lemma ClearBitExactly(w: bv32, b: bv5, k: bv5)
    ensures BitSet(ClearBit(w, b), k) <==> k != b && BitSet(w, k)
  {
  }

  /** Entry id is locked: bit id % 32 of lock word id / 32. */
  predicate Locked(lock: seq<bv32>, id: nat)
    requires |lock| == LockWords && id < MaxEntries
  {
    BitSet(lock[id / 32], BitOf(id))
  }

  /** Position of entry id's bit in its lock word: id % 32. */
  function BitOf(id: nat): (b: bv5)
    ensures b as int == id % 32
  {
    (id % 32) as bv5
  }

  /** The lock bitmap after unlocking entry id. */
  function Unlocked(lock: seq<bv32>, id: nat): (r: seq<bv32>)
    requires |lock| == LockWords && id < MaxEntries
    ensures |r| == LockWords
  {
    lock[id / 32 := ClearBit(lock[id / 32], BitOf(id))]
  }

  /** Unlocking entry id leaves it unlocked. */
  lemma UnlockClears(lock: seq<bv32>, id: nat)
    requires |lock| == LockWords && id < MaxEntries
    ensures !Locked(Unlocked(lock, id), id)
  {
    ClearBitExactly(lock[id / 32], BitOf(id), BitOf(id));
  }

  /** Unlocking entry id leaves the lock bit of every other entry as it was. */
  lemma UnlockKeepsOthers(lock: seq<bv32>, id: nat, other: nat)
    requires |lock| == LockWords && id < MaxEntries && other < MaxEntries && other != id
    ensures Locked(Unlocked(lock, id), other) <==> Locked(lock, other)
  {
    if other / 32 == id / 32 {
      assert id == 32 * (id / 32) + id % 32 && other == 32 * (other / 32) + other % 32;
      assert BitOf(other) != BitOf(id);
      ClearBitExactly(lock[id / 32], BitOf(id), BitOf(other));
    }
  }

  /** Only the word holding id changes. */
  lemma UnlockedWordsUnchanged(lock: seq<bv32>, id: nat, word: nat)
    requires |lock| == LockWords && id < MaxEntries && word < LockWords && word != id / 32
    ensures Unlocked(lock, id)[word] == lock[word]
  {
  }

  /** A second unlock of the same entry changes nothing. */
  lemma UnlockIdempotent(lock: seq<bv32>, id: nat)
    requires |lock| == LockWords && id < MaxEntries
    ensures Unlocked(Unlocked(lock, id), id) == Unlocked(lock, id)
  {
    var w := lock[id / 32];
    assert ClearBit(ClearBit(w, BitOf(id)), BitOf(id)) == ClearBit(w, BitOf(id));
  }

  /**
   * One of the screen's two descriptor tables (tic or tsc): `entries`
   * holds the entry object bound to each slot (None for NULL), `lock` the
   * bitmap of slots in use by the current command stream.
   */
  class DescriptorTable {
    const entries: array<Option<nat>>
    var next: int
    const lock: array<bv32>

    ghost predicate Valid()
      reads this
    {
      entries.Length == MaxEntries && lock.Length == LockWords
    }

    constructor ()
      ensures Valid() && fresh(entries) && fresh(lock)
      ensures forall i :: 0 <= i < MaxEntries ==> entries[i] == None
      ensures forall w :: 0 <= w < LockWords ==> lock[w] == 0
    {
      entries := new Option<nat>[MaxEntries](_ => None);
      lock := new bv32[LockWords](_ => 0);
      next := 0;
    }

    /** The unlock functions: a negative id (an entry never given a slot) is ignored. */
    method Unlock(id: int)
      requires Valid() && id < MaxEntries
      modifies lock
      ensures id < 0 ==> lock[..] == old(lock[..])
      ensures id >= 0 ==> lock[..] == Unlocked(old(lock[..]), id)
    {
      if id >= 0 {
        lock[id / 32] := ClearBit(lock[id / 32], BitOf(id));
        assert lock[..] == Unlocked(old(lock[..]), id);
      }
    }

    /** The free functions: the slot's entry becomes NULL and its lock bit is cleared. */
    method Free(id: int)
      requires Valid() && id < MaxEntries
      modifies entries, lock
      ensures id < 0 ==> entries[..] == old(entries[..]) && lock[..] == old(lock[..])
      ensures id >= 0 ==> entries[..] == old(entries[..])[id := None]
      ensures id >= 0 ==> lock[..] == Unlocked(old(lock[..]), id)
    {
      if id >= 0 {
        entries[id] := None;
        lock[id / 32] := ClearBit(lock[id / 32], BitOf(id));
        assert lock[..] == Unlocked(old(lock[..]), id);
      }
    }
  }

  /** The part of nv50_screen these functions touch. */
  class Screen {
    const tic: DescriptorTable
    const tsc: DescriptorTable

    ghost predicate Valid()
      reads this, tic, tsc
    {
      tic.Valid() && tsc.Valid() &&
      tic.entries != tsc.entries && tic.lock != tsc.lock
    }

    constructor ()
      ensures Valid() && fresh(tic) && fresh(tsc)
      ensures fresh(tic.entries) && fresh(tic.lock) && fresh(tsc.entries) && fresh(tsc.lock)
    {
      tic := new DescriptorTable();
      tsc := new DescriptorTable();
    }

    /** nv50_screen_tic_unlock: only the tic lock bitmap changes. */
    method TicUnlock(id: int)
      requires Valid() && id < MaxEntries
      modifies tic.lock
      ensures id < 0 ==> tic.lock[..] == old(tic.lock[..])
      ensures id >= 0 ==> tic.lock[..] == Unlocked(old(tic.lock[..]), id)
    {
      tic.Unlock(id);
    }

    /** nv50_screen_tsc_unlock: only the tsc lock bitmap changes. */
    method TscUnlock(id: int)
      requires Valid() && id < MaxEntries
      modifies tsc.lock
      ensures id < 0 ==> tsc.lock[..] == old(tsc.lock[..])
      ensures id >= 0 ==> tsc.lock[..] == Unlocked(old(tsc.lock[..]), id)
    {
      tsc.Unlock(id);
    }

    /** nv50_screen_tic_free: the tic entry is cleared and unlocked; the tsc table is untouched. */
    method TicFree(id: int)
      requires Valid() && id < MaxEntries
      modifies tic.entries, tic.lock
      ensures id < 0 ==> tic.entries[..] == old(tic.entries[..]) && tic.lock[..] == old(tic.lock[..])
      ensures id >= 0 ==> tic.entries[..] == old(tic.entries[..])[id := None]
      ensures id >= 0 ==> tic.lock[..] == Unlocked(old(tic.lock[..]), id)
    {
      tic.Free(id);
    }

    /** nv50_screen_tsc_free: the tsc entry is cleared and unlocked; the tic table is untouched. */
    method TscFree(id: int)
      requires Valid() && id < MaxEntries
      modifies tsc.entries, tsc.lock
      ensures id < 0 ==> tsc.entries[..] == old(tsc.entries[..]) && tsc.lock[..] == old(tsc.lock[..])
      ensures id >= 0 ==> tsc.entries[..] == old(tsc.entries[..])[id := None]
      ensures id >= 0 ==> tsc.lock[..] == Unlocked(old(tsc.lock[..]), id)
    {
      tsc.Free(id);
    }
  }

  /** A second free of the same slot leaves both arrays as the first left them. */
  lemma FreeIdempotent(entries: seq<Option<nat>>, lock: seq<bv32>, id: nat)
    requires |entries| == MaxEntries && |lock| == LockWords && id < MaxEntries
    ensures entries[id := None][id := None] == entries[id := None]
    ensures Unlocked(Unlocked(lock, id), id) == Unlocked(lock, id)
  {
    UnlockIdempotent(lock, id);
  }

  /** NOUVEAU_BO_RD and NOUVEAU_BO_WR access flags. */
  const BoRd: bv32 := 4
  const BoWr: bv32 := 8

  /** NOUVEAU_BUFFER_STATUS_GPU_READING, _GPU_WRITING and _DIRTY. */
  const StatusGpuReading: bv32 := 1
  const StatusGpuWriting: bv32 := 2
  const StatusDirty: bv32 := 4

  /** The status nv50_resource_validate leaves for access `flags`. */
  function ValidatedStatus(status: bv32, hasBo: bool, flags: bv32): bv32
  {
    if !hasBo then status
    else
      var s1 := if flags & BoWr != 0 then status | StatusGpuWriting | StatusDirty else status;
      if flags & BoRd != 0 then s1 | StatusGpuReading else s1
  }

  /** The bits validation may add: GPU_WRITING and DIRTY for a write, GPU_READING for a read. */
  function AddedStatus(hasBo: bool, flags: bv32): (added: bv32)
    ensures added & !(StatusGpuReading | StatusGpuWriting | StatusDirty) == 0
  {
    (if hasBo && flags & BoWr != 0 then StatusGpuWriting | StatusDirty else 0) |
    (if hasBo && flags & BoRd != 0 then StatusGpuReading else 0)
  }

  /**
   * With storage, validation ORs in GPU_WRITING and DIRTY for a write and
   * GPU_READING for a read; without it the status is not touched.
   */
  lemma ValidatedStatusIsOr(status: bv32, hasBo: bool, flags: bv32)
    ensures !hasBo ==> ValidatedStatus(status, hasBo, flags) == status
    ensures ValidatedStatus(status, hasBo, flags) == status | AddedStatus(hasBo, flags)
  {
  }

  /** Validation never clears a status bit. */
  lemma ValidateOnlyAdds(status: bv32, hasBo: bool, flags: bv32)
    ensures status & ValidatedStatus(status, hasBo, flags) == status
  {
    ValidatedStatusIsOr(status, hasBo, flags);
    var added := AddedStatus(hasBo, flags);
    assert ValidatedStatus(status, hasBo, flags) == status | added;
    OrKeeps(status, added);
  }

  /** No bit outside GPU_READING, GPU_WRITING and DIRTY changes. */
  lemma ValidateTouchesOnlyStatusBits(status: bv32, hasBo: bool, flags: bv32)
    ensures ValidatedStatus(status, hasBo, flags) & !(StatusGpuReading | StatusGpuWriting | StatusDirty) ==
            status & !(StatusGpuReading | StatusGpuWriting | StatusDirty)
  {
    ValidatedStatusIsOr(status, hasBo, flags);
    var added := AddedStatus(hasBo, flags);
    assert ValidatedStatus(status, hasBo, flags) == status | added;
    OrOutside(status, added, StatusGpuReading | StatusGpuWriting | StatusDirty);
  }

  lemma OrKeeps(s: bv32, x: bv32)
    ensures s & (s | x) == s
  {
  }

  lemma OrOutside(s: bv32, x: bv32, m: bv32)
    requires x & !m == 0
    ensures (s | x) & !m == s & !m
  {
  }

  /** The access being validated is recorded: a write as GPU_WRITING and DIRTY, a read as GPU_READING. */
  lemma ValidateRecordsAccess(status: bv32, hasBo: bool, flags: bv32)
    requires hasBo
    ensures flags & BoWr != 0 ==>
      ValidatedStatus(status, hasBo, flags) & (StatusGpuWriting | StatusDirty) == StatusGpuWriting | StatusDirty
    ensures flags & BoRd != 0 ==> ValidatedStatus(status, hasBo, flags) & StatusGpuReading == StatusGpuReading
  {
    ValidatedStatusIsOr(status, hasBo, flags);
  }

  /** Validating again for the same access changes nothing. */
  lemma ValidateIdempotent(status: bv32, hasBo: bool, flags: bv32)
    ensures ValidatedStatus(ValidatedStatus(status, hasBo, flags), hasBo, flags) == ValidatedStatus(status, hasBo, flags)
  {
  }

  /** The part of nv04_resource validation reads and writes: its bo (present or not) and status. */
  class Resource {
    const hasBo: bool
    var status: bv32

    constructor (hasBo: bool, status: bv32)
      ensures this.hasBo == hasBo && this.status == status
    {
      this.hasBo := hasBo;
      this.status := status;
    }

    /** nv50_resource_validate, status part. */
    method Validate(flags: bv32)
      modifies this`status
      ensures status == ValidatedStatus(old(status), hasBo, flags)
    {
      if hasBo {
        if flags & BoWr != 0 {
          status := status | StatusGpuWriting | StatusDirty;
        }
        if flags & BoRd != 0 {
          status := status | StatusGpuReading;
        }
      }
    }
  }
}
