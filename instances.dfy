/**
 * The instance registry of the engine (`InstanceManager` in
 * src/wgpu_engine/instance.rs).
 *
 * A registry maps caller-chosen 128-bit ids to slots of a host-side vector of
 * instances and keeps a device buffer of fixed 64-byte records in step with
 * that vector.  Freed slots go on a LIFO stack and are reused before the
 * vector grows; the device buffer starts at 4 bytes and, when an append does
 * not fit, is replaced by one whose size is doubled until it does, after which
 * every record is uploaded again.
 *
 * The device buffer is modelled abstractly: a byte size and a partial map from
 * byte offset to the record written there.  The serialisation of an instance
 * into its record (`Instance::to_raw`, float matrix arithmetic) is a parameter
 * `toRaw` that the model never looks into, so every property below holds for
 * any serialisation.
 */
module Instances {
  import opened Types

  /** Instance ids are `u128`. */
  type U128 = x: int | 0 <= x < 0x1_0000_0000_0000_0000_0000_0000_0000_0000

  /** A rotation (`ultraviolet::Rotor3`); its float fields are modelled as reals. */
  datatype Rotor3 = Rotor3(s: real, xy: real, xz: real, yz: real)

  /** One drawn object: its id and its transform. */
  datatype Instance = Instance(id: U128, position: Vec3, rotation: Rotor3, scale: real)

  /** The serialised record: a 4x4 matrix of f32, column by column. */
  datatype InstanceRaw = InstanceRaw(model: seq<real>)

  /** `InstanceRaw::SIZE`: 16 f32 values of 4 bytes each. */
  const RecordSize: nat := 64

  /** The byte size of the buffer a new registry creates. */
  const InitialBufferSize: nat := 4

  /** Byte offset of slot `i` in the device buffer. */
  function Offset(i: nat): (r: nat)
  {
    i * RecordSize
  }

  // ---------------------------------------------------------------------------
  // The device buffer
  // ---------------------------------------------------------------------------

  /**
   * A device buffer: its byte size and the records written into it, by byte
   * offset.  A fresh buffer holds no records (its bytes are zero).
   */
  datatype DeviceBuffer = DeviceBuffer(size: nat, records: map<nat, InstanceRaw>)

  function CreateBuffer(size: nat): (r: DeviceBuffer)
  {
    DeviceBuffer(size, map[])
  }

  /** The record last written at byte offset `offset`, if any. */
  function RecordAt(buf: DeviceBuffer, offset: nat): (r: Option<InstanceRaw>)
  {
    if offset in buf.records then Some(buf.records[offset]) else None
  }

  /** The record held for slot `i`. */
  function SlotRecord(buf: DeviceBuffer, i: nat): (r: Option<InstanceRaw>)
  {
    RecordAt(buf, Offset(i))
  }

  /**
   * `queue.write_buffer(buf, offset, cast_slice(raws))`: the records of `raws`
   * land one after the other from `offset` on.  The write must lie inside the
   * buffer (the device rejects it otherwise); nothing outside the written
   * range changes, and the size is kept.
   */
  function WriteBuffer(buf: DeviceBuffer, offset: nat, raws: seq<InstanceRaw>): (r: DeviceBuffer)
    requires offset + |raws| * RecordSize <= buf.size
    ensures r.size == buf.size
    ensures forall k :: 0 <= k < |raws| ==> RecordAt(r, offset + k * RecordSize) == Some(raws[k])
    ensures forall off: nat :: (off < offset || offset + |raws| * RecordSize <= off) ==> RecordAt(r, off) == RecordAt(buf, off)
    decreases |raws|
  {
    if raws == [] then
      buf
    else
      var next := DeviceBuffer(buf.size, buf.records[offset := raws[0]]);
      var r := WriteBuffer(next, offset + RecordSize, raws[1..]);
      assert forall k :: 1 <= k < |raws| ==> offset + k * RecordSize == offset + RecordSize + (k - 1) * RecordSize;
      r
  }

  /** The records of all instances, in slot order (`instances.iter().map(to_raw)`). */
  function Raws(toRaw: Instance -> InstanceRaw, instances: seq<Instance>): (r: seq<InstanceRaw>)
  {
    seq(|instances|, i requires 0 <= i < |instances| => toRaw(instances[i]))
  }

  // ---------------------------------------------------------------------------
  // Buffer growth
  // ---------------------------------------------------------------------------

  /** 2 to the power `k`. */
  function Pow2(k: nat): (r: nat)
  {
    if k == 0 then 1 else 2 * Pow2(k - 1)
  }

  /**
   * The size `while need > size { size *= 2 }` ends with: at least `need`,
   * never below `size`, equal to `size` exactly when `need` already fits, and
   * otherwise less than twice `need` (the last doubling was needed).
   */
  function GrownSize(size: nat, need: nat): (r: nat)
    requires size > 0
    ensures r >= size && r >= need
    ensures r == size <==> need <= size
    ensures r > size ==> r < 2 * need
    decreases if size < need then need - size else 0
  {
    if need > size then GrownSize(2 * size, need) else size
  }

  /** The growth is by doublings only: the result is `size * 2^k` for some `k`. */
  lemma {:induction false} GrownSizeIsDoubling(size: nat, need: nat) returns (k: nat)
    requires size > 0
    ensures GrownSize(size, need) == size * Pow2(k)
    decreases if size < need then need - size else 0
  {
    if need > size {
      var j := GrownSizeIsDoubling(2 * size, need);
      k := j + 1;
      var p := Pow2(j);
      assert Pow2(k) == 2 * p;
      assert (2 * size) * p == size * (2 * p);
    } else {
      k := 0;
    }
  }

  /**
   * It is the FEWEST doublings: any number of doublings of `size` that reaches
   * `need` gives at least the grown size.
   */
  lemma {:induction false} GrownSizeIsLeast(size: nat, need: nat, k: nat)
    requires size > 0
    requires size * Pow2(k) >= need
    ensures GrownSize(size, need) <= size * Pow2(k)
    decreases k
  {
    if need > size {
      assert k > 0;
      calc {
        size * Pow2(k);
        size * (2 * Pow2(k - 1));
        (2 * size) * Pow2(k - 1);
      }
      GrownSizeIsLeast(2 * size, need, k - 1);
    } else {
      assert Pow2(k) >= 1 by { Pow2Positive(k); }
      assert size * Pow2(k) >= size * 1;
    }
  }

  lemma {:induction false} Pow2Positive(k: nat)
    ensures Pow2(k) >= 1
  {
    if k > 0 {
      Pow2Positive(k - 1);
    }
  }

  /** A legal buffer size: the initial 4 bytes doubled some number of times. */
  predicate IsCapacity(n: nat)
    decreases n
  {
    n == InitialBufferSize || (n > InitialBufferSize && n % 2 == 0 && IsCapacity(n / 2))
  }

  /** `IsCapacity(n)` means `n == 4 * 2^k`. */
  lemma {:induction false} CapacityIsPowerOfTwoMultiple(n: nat) returns (k: nat)
    requires IsCapacity(n)
    ensures n == InitialBufferSize * Pow2(k)
    decreases n
  {
    if n == InitialBufferSize {
      k := 0;
    } else {
      var j := CapacityIsPowerOfTwoMultiple(n / 2);
      k := j + 1;
    }
  }

  /** Growing a legal size gives a legal size. */
  lemma {:induction false} GrownSizeKeepsCapacity(size: nat, need: nat)
    requires size > 0 && IsCapacity(size)
    ensures IsCapacity(GrownSize(size, need))
    decreases if size < need then need - size else 0
  {
    if need > size {
      assert (2 * size) / 2 == size;
      assert IsCapacity(2 * size);
      GrownSizeKeepsCapacity(2 * size, need);
    }
  }

  // ---------------------------------------------------------------------------
  // The registry state and its invariant
  // ---------------------------------------------------------------------------

  /**
   * The state of an `InstanceManager`: the instance vector, the id-to-slot
   * map, the stack of freed slots (top at the end) and the device buffer.
   */
  datatype Registry = Registry(
    instances: seq<Instance>,
    idToIndex: map<U128, nat>,
    removeIdxs: seq<nat>,
    buffer: DeviceBuffer)

  /** The state `InstanceManager::new` builds. */
  function NewRegistry(): (r: Registry)
  {
    Registry([], map[], [], CreateBuffer(InitialBufferSize))
  }

  /** Every mapped slot exists and holds an instance with that id. */
  ghost predicate MapSound(reg: Registry)
  {
    forall id :: id in reg.idToIndex ==>
      reg.idToIndex[id] < |reg.instances| && reg.instances[reg.idToIndex[id]].id == id
  }

  /** Every freed slot exists, is not mapped, and is on the stack once. */
  ghost predicate FreeSound(reg: Registry)
  {
    && (forall k :: 0 <= k < |reg.removeIdxs| ==> reg.removeIdxs[k] < |reg.instances|)
    && (forall id, k :: id in reg.idToIndex && 0 <= k < |reg.removeIdxs| ==> reg.idToIndex[id] != reg.removeIdxs[k])
    && (forall j, k :: 0 <= j < k < |reg.removeIdxs| ==> reg.removeIdxs[j] != reg.removeIdxs[k])
  }

  /** The buffer size is 4 * 2^k and holds a record for every slot. */
  ghost predicate CapacitySound(reg: Registry)
  {
    IsCapacity(reg.buffer.size) && |reg.instances| * RecordSize <= reg.buffer.size
  }

  ghost predicate WellFormed(reg: Registry)
  {
    MapSound(reg) && FreeSound(reg) && CapacitySound(reg)
  }

  /** The device buffer mirrors the vector: slot `i` holds `toRaw(instances[i])`, stale slots included. */
  ghost predicate Mirrors(toRaw: Instance -> InstanceRaw, reg: Registry)
  {
    forall i :: 0 <= i < |reg.instances| ==> SlotRecord(reg.buffer, i) == Some(toRaw(reg.instances[i]))
  }

  ghost predicate Inv(toRaw: Instance -> InstanceRaw, reg: Registry)
  {
    WellFormed(reg) && Mirrors(toRaw, reg)
  }

  // ---------------------------------------------------------------------------
  // The operations, as functions of the state
  // ---------------------------------------------------------------------------

  /**
   * `update_instance`: the slot mapped to the instance's id is overwritten in
   * the vector and in the buffer; an unmapped id is an error.
   */
  function Updated(toRaw: Instance -> InstanceRaw, reg: Registry, instance: Instance): (r: (Registry, Result<()>))
    requires WellFormed(reg)
    ensures r.1.Err? <==> instance.id !in reg.idToIndex
    ensures r.1.Err? ==> r.0 == reg
    ensures WellFormed(r.0)
    ensures r.0.idToIndex == reg.idToIndex && r.0.removeIdxs == reg.removeIdxs
    ensures |r.0.instances| == |reg.instances| && r.0.buffer.size == reg.buffer.size
    ensures r.1.Ok? ==> r.0.instances[reg.idToIndex[instance.id]] == instance
  {
    if instance.id in reg.idToIndex then
      var index := reg.idToIndex[instance.id];
      var buffer := WriteBuffer(reg.buffer, Offset(index), [toRaw(instance)]);
      (reg.(instances := reg.instances[index := instance], buffer := buffer), Ok(()))
    else
      (reg, Err(InstanceNotFound))
  }

  /** The free-slot path of `add_instance` up to its call of `update_instance`. */
  function Claimed(reg: Registry, instance: Instance): (r: Registry)
    requires WellFormed(reg) && |reg.removeIdxs| > 0
    ensures WellFormed(r)
  {
    var index := reg.removeIdxs[|reg.removeIdxs| - 1];
    var r := reg.(
      removeIdxs := reg.removeIdxs[..|reg.removeIdxs| - 1],
      idToIndex := reg.idToIndex[instance.id := index],
      instances := reg.instances[index := instance]);
    assert MapSound(r) by {
      forall id | id in r.idToIndex
        ensures r.idToIndex[id] < |r.instances| && r.instances[r.idToIndex[id]].id == id
      {
        if id != instance.id {
          assert reg.idToIndex[id] != reg.removeIdxs[|reg.removeIdxs| - 1];
        }
      }
    }
    r
  }

  /**
   * `add_instance`.  With a freed slot on the stack, the most recently freed
   * one is popped, mapped to the id and overwritten through `update_instance`.
   * Otherwise the record goes at the end: if `(len + 1) * 64` bytes do not fit,
   * the buffer is replaced by a doubled one and every record is uploaded
   * again; then the new record is written, the id mapped to `len` and the
   * instance pushed.  There is no duplicate-id check.
   */
  function Added(toRaw: Instance -> InstanceRaw, reg: Registry, instance: Instance): (r: Registry)
    requires WellFormed(reg)
    ensures WellFormed(r)
    ensures instance.id in r.idToIndex && r.instances[r.idToIndex[instance.id]] == instance
    ensures |r.instances| == |reg.instances| + (if reg.removeIdxs == [] then 1 else 0)
    ensures r.buffer.size >= reg.buffer.size
  {
    if |reg.removeIdxs| > 0 then
      Updated(toRaw, Claimed(reg, instance), instance).0
    else
      var rawSize := RecordSize * (|reg.instances| + 1);
      var buffer :=
        if rawSize > reg.buffer.size then
          GrownSizeKeepsCapacity(reg.buffer.size, rawSize);
          WriteBuffer(CreateBuffer(GrownSize(reg.buffer.size, rawSize)), 0, Raws(toRaw, reg.instances))
        else
          reg.buffer;
      Registry(
        reg.instances + [instance],
        reg.idToIndex[instance.id := |reg.instances|],
        reg.removeIdxs,
        WriteBuffer(buffer, rawSize - RecordSize, [toRaw(instance)]))
  }

  /**
   * `remove_instance`: the mapping is deleted and its slot pushed on the free
   * stack; the instance as last stored is returned.  The vector and the buffer
   * are left alone.  An unmapped id is an error.
   */
  function Removed(reg: Registry, id: U128): (r: (Registry, Result<Instance>))
    requires WellFormed(reg)
    ensures r.1.Err? <==> id !in reg.idToIndex
    ensures r.1.Err? ==> r.0 == reg
    ensures WellFormed(r.0)
    ensures r.1.Ok? ==> r.1.value.id == id && id !in r.0.idToIndex
    ensures r.0.instances == reg.instances && r.0.buffer == reg.buffer
  {
    if id in reg.idToIndex then
      var index := reg.idToIndex[id];
      (reg.(idToIndex := reg.idToIndex - {id}, removeIdxs := reg.removeIdxs + [index]), Ok(reg.instances[index]))
    else
      (reg, Err(InstanceNotFound))
  }

  // ---------------------------------------------------------------------------
  // The invariant is established and preserved
  // ---------------------------------------------------------------------------

  /** A new registry is empty, has a 4-byte buffer, and satisfies the invariant. */
  lemma NewRegistryInv(toRaw: Instance -> InstanceRaw)
    ensures Inv(toRaw, NewRegistry())
    ensures NewRegistry().instances == [] && NewRegistry().idToIndex == map[] && NewRegistry().removeIdxs == []
    ensures NewRegistry().buffer.size == InitialBufferSize
  {
  }

  /** Overwriting one slot's record keeps the mirror of a vector updated at that slot. */
  lemma MirrorAfterSlotWrite(toRaw: Instance -> InstanceRaw, reg: Registry, index: nat, instance: Instance)
    requires Mirrors(toRaw, reg) && index < |reg.instances|
    requires Offset(index) + RecordSize <= reg.buffer.size
    ensures Mirrors(toRaw, reg.(instances := reg.instances[index := instance],
                                buffer := WriteBuffer(reg.buffer, Offset(index), [toRaw(instance)])))
  {

  }

  lemma UpdateKeepsInv(toRaw: Instance -> InstanceRaw, reg: Registry, instance: Instance)
    requires WellFormed(reg)
    ensures WellFormed(Updated(toRaw, reg, instance).0)
    ensures Inv(toRaw, reg) ==> Inv(toRaw, Updated(toRaw, reg, instance).0)
  {

  }

  /** The buffer after an append: every old slot still mirrored, the new record at `len`. */
  lemma MirrorAfterAppend(toRaw: Instance -> InstanceRaw, reg: Registry, instance: Instance)
    requires Inv(toRaw, reg) && reg.removeIdxs == []
    ensures Mirrors(toRaw, Added(toRaw, reg, instance))
    ensures CapacitySound(Added(toRaw, reg, instance))
  {
    var len := |reg.instances|;
    var rawSize := RecordSize * (len + 1);
    var r := Added(toRaw, reg, instance);
    var buffer :=
      if rawSize > reg.buffer.size then
        WriteBuffer(CreateBuffer(GrownSize(reg.buffer.size, rawSize)), 0, Raws(toRaw, reg.instances))
      else
        reg.buffer;
    assert IsCapacity(reg.buffer.size);
    assert reg.buffer.size > 0;
    assert forall i :: 0 <= i < len ==> SlotRecord(buffer, i) == Some(toRaw(reg.instances[i])) by {
      forall i | 0 <= i < len
        ensures SlotRecord(buffer, i) == Some(toRaw(reg.instances[i]))
      {
        if rawSize > reg.buffer.size {
          var raws := Raws(toRaw, reg.instances);
          assert raws[i] == toRaw(reg.instances[i]);
          assert 0 + i * RecordSize == Offset(i);
        }
      }
    }
    assert r.buffer == WriteBuffer(buffer, Offset(len), [toRaw(instance)]);
    forall i | 0 <= i < len + 1
      ensures SlotRecord(r.buffer, i) == Some(toRaw(r.instances[i]))
    {
      if i == len {
        assert Offset(len) + 0 * RecordSize == Offset(i);
      } else {
        assert Offset(i) + RecordSize <= Offset(len);
      }
    }
    if rawSize > reg.buffer.size {
      GrownSizeKeepsCapacity(reg.buffer.size, rawSize);
    }
  }

  lemma AddKeepsInv(toRaw: Instance -> InstanceRaw, reg: Registry, instance: Instance)
    requires Inv(toRaw, reg)
    ensures Inv(toRaw, Added(toRaw, reg, instance))
  {
    if |reg.removeIdxs| > 0 {
      var claimed := Claimed(reg, instance);
      var index := reg.removeIdxs[|reg.removeIdxs| - 1];
      MirrorAfterSlotWrite(toRaw, reg, index, instance);
      assert claimed.instances[index := instance] == claimed.instances;
      UpdateKeepsInv(toRaw, claimed, instance);
    } else {
      var len := |reg.instances|;
      var r := Added(toRaw, reg, instance);
      MirrorAfterAppend(toRaw, reg, instance);
      assert MapSound(r) by {
        forall id | id in r.idToIndex
          ensures r.idToIndex[id] < |r.instances| && r.instances[r.idToIndex[id]].id == id
        {
          if id != instance.id {
            assert r.idToIndex[id] == reg.idToIndex[id];
          }
        }
      }
    }
  }

  lemma RemoveKeepsInv(toRaw: Instance -> InstanceRaw, reg: Registry, id: U128)
    requires Inv(toRaw, reg)
    ensures Inv(toRaw, Removed(reg, id).0)
  {

  }

  // ---------------------------------------------------------------------------
  // What each operation does
  // ---------------------------------------------------------------------------

  /**
   * With a freed slot available, `add_instance` pops the most recently freed
   * slot, maps the id to it, overwrites it and its record, and neither grows
   * the vector nor touches the buffer size.
   */
  lemma AddReusesLastFreed(toRaw: Instance -> InstanceRaw, reg: Registry, instance: Instance)
    requires Inv(toRaw, reg) && |reg.removeIdxs| > 0
    ensures var index := reg.removeIdxs[|reg.removeIdxs| - 1];
            var r := Added(toRaw, reg, instance);
            && r.removeIdxs == reg.removeIdxs[..|reg.removeIdxs| - 1]
            && r.idToIndex == reg.idToIndex[instance.id := index]
            && r.instances == reg.instances[index := instance]
            && |r.instances| == |reg.instances|
            && r.buffer.size == reg.buffer.size
            && SlotRecord(r.buffer, index) == Some(toRaw(instance))
  {

  }

  /**
   * With no freed slot, `add_instance` appends: the id maps to the old length,
   * the vector grows by one, the record lands at slot `len`, and the buffer is
   * the old one grown by doublings to `(len + 1) * 64` bytes, unchanged when
   * that already fits.
   */
  lemma AddAppendsWithoutFreeSlot(toRaw: Instance -> InstanceRaw, reg: Registry, instance: Instance)
    requires Inv(toRaw, reg) && reg.removeIdxs == []
    ensures var len := |reg.instances|;
            var r := Added(toRaw, reg, instance);
            && r.removeIdxs == []
            && r.idToIndex == reg.idToIndex[instance.id := len]
            && r.instances == reg.instances + [instance]
            && SlotRecord(r.buffer, len) == Some(toRaw(instance))
            && r.buffer.size == GrownSize(reg.buffer.size, (len + 1) * RecordSize)
            && (r.buffer.size == reg.buffer.size <==> (len + 1) * RecordSize <= reg.buffer.size)
  {

  }

  /** No operation ever shrinks the buffer; update and remove never resize it. */
  lemma CapacityNeverShrinks(toRaw: Instance -> InstanceRaw, reg: Registry, instance: Instance, id: U128)
    requires Inv(toRaw, reg)
    ensures Added(toRaw, reg, instance).buffer.size >= reg.buffer.size
    ensures Updated(toRaw, reg, instance).0.buffer.size == reg.buffer.size
    ensures Removed(reg, id).0.buffer.size == reg.buffer.size
  {

  }

  /**
   * `update_instance` fails exactly on an unmapped id and then changes
   * nothing; otherwise it overwrites the mapped slot and its record and keeps
   * the map, the free stack, the buffer size and every other record.
   */
  lemma UpdateSpec(toRaw: Instance -> InstanceRaw, reg: Registry, instance: Instance)
    requires Inv(toRaw, reg)
    ensures var (r, res) := Updated(toRaw, reg, instance);
            && (res.Err? <==> instance.id !in reg.idToIndex)
            && (res.Err? ==> r == reg)
            && (res.Ok? ==>
                  var index := reg.idToIndex[instance.id];
                  && r.instances == reg.instances[index := instance]
                  && SlotRecord(r.buffer, index) == Some(toRaw(instance))
                  && (forall i :: 0 <= i < |reg.instances| && i != index ==> SlotRecord(r.buffer, i) == SlotRecord(reg.buffer, i))
                  && r.idToIndex == reg.idToIndex
                  && r.removeIdxs == reg.removeIdxs
                  && r.buffer.size == reg.buffer.size)
  {

  }

  /**
   * `remove_instance` fails exactly on an unmapped id and then changes
   * nothing; otherwise it returns the instance as last stored, unmaps the id,
   * pushes its slot, and leaves the vector and the whole buffer as they were.
   */
  lemma RemoveSpec(toRaw: Instance -> InstanceRaw, reg: Registry, id: U128)
    requires Inv(toRaw, reg)
    ensures var (r, res) := Removed(reg, id);
            && (res.Err? <==> id !in reg.idToIndex)
            && (res.Err? ==> r == reg)
            && (res.Ok? ==>
                  var index := reg.idToIndex[id];
                  && res.value == reg.instances[index]
                  && res.value.id == id
                  && r.idToIndex == reg.idToIndex - {id}
                  && r.removeIdxs == reg.removeIdxs + [index]
                  && r.instances == reg.instances
                  && r.buffer == reg.buffer)
  {
  }

  /** After a successful removal, updating or removing the same id fails. */
  lemma RemovedIdIsGone(toRaw: Instance -> InstanceRaw, reg: Registry, instance: Instance)
    requires Inv(toRaw, reg) && instance.id in reg.idToIndex
    ensures var r := Removed(reg, instance.id).0;
            && WellFormed(r)
            && Updated(toRaw, r, instance).1 == Err(InstanceNotFound)
            && Removed(r, instance.id).1 == Err(InstanceNotFound)
  {

  }

  /**
   * Re-adding an id right after removing it reuses the very slot it had (the
   * free stack is LIFO), and the slot then holds the new instance, not the
   * removed one.
   */
  lemma ReaddReusesSlot(toRaw: Instance -> InstanceRaw, reg: Registry, instance: Instance)
    requires Inv(toRaw, reg) && instance.id in reg.idToIndex
    ensures var index := reg.idToIndex[instance.id];
            var removed := Removed(reg, instance.id).0;
            && WellFormed(removed)
            && var r := Added(toRaw, removed, instance);
            && r.idToIndex == reg.idToIndex[instance.id := index]
            && r.instances == reg.instances[index := instance]
            && r.removeIdxs == reg.removeIdxs
            && SlotRecord(r.buffer, index) == Some(toRaw(instance))
  {
    var removed := Removed(reg, instance.id).0;
    RemoveKeepsInv(toRaw, reg, instance.id);
    AddReusesLastFreed(toRaw, removed, instance);
    assert removed.removeIdxs[..|removed.removeIdxs| - 1] == reg.removeIdxs;
  }

  /**
   * There is no duplicate-id check: adding an id that is already mapped maps
   * it to another slot (the popped freed slot, or `len` when none is free)
   * and leaves its old slot neither mapped nor free, still holding the old
   * instance.
   */
  lemma DuplicateAddOrphansSlot(toRaw: Instance -> InstanceRaw, reg: Registry, instance: Instance)
    requires Inv(toRaw, reg) && instance.id in reg.idToIndex
    ensures var old_index := reg.idToIndex[instance.id];
            var r := Added(toRaw, reg, instance);
            && (reg.removeIdxs == [] ==> r.idToIndex[instance.id] == |reg.instances|)
            && (reg.removeIdxs != [] ==> r.idToIndex[instance.id] == reg.removeIdxs[|reg.removeIdxs| - 1])
            && (forall id :: id in r.idToIndex ==> r.idToIndex[id] != old_index)
            && (forall k :: 0 <= k < |r.removeIdxs| ==> r.removeIdxs[k] != old_index)
            && r.instances[old_index] == reg.instances[old_index]
  {
    if reg.removeIdxs != [] {
      AddReusesLastFreed(toRaw, reg, instance);
    }
  }

  // ---------------------------------------------------------------------------
  // The manager object
  // ---------------------------------------------------------------------------

  /**
   * `InstanceManager`: the three host-side tables and the device buffer are
   * fields that its methods update in place.  The device, queue and shared
   * model handles are not part of this model.
   */
  class InstanceManager {
    var instances: seq<Instance>
    var idToIndex: map<U128, nat>
    var removeIdxs: seq<nat>
    var instanceBuffer: DeviceBuffer
    /** The serialisation `Instance::to_raw`, left uninterpreted. */
    const toRaw: Instance -> InstanceRaw

    function State(): (r: Registry)
      reads this
    {
      Registry(instances, idToIndex, removeIdxs, instanceBuffer)
    }

    ghost predicate Valid()
      reads this
    {
      Inv(toRaw, State())
    }

    /** `InstanceManager::new`: empty tables and a 4-byte buffer. */
    constructor (toRaw: Instance -> InstanceRaw)
      ensures Valid()
      ensures this.toRaw == toRaw
      ensures instances == [] && idToIndex == map[] && removeIdxs == []
      ensures instanceBuffer.size == InitialBufferSize
    {
      this.toRaw := toRaw;
      instances := [];
      idToIndex := map[];
      removeIdxs := [];
      instanceBuffer := CreateBuffer(InitialBufferSize);
      new;
      NewRegistryInv(toRaw);
    }

    /** `add_instance`. */
    method AddInstance(instance: Instance)
      requires Valid()
      modifies this
      ensures Valid()
      ensures State() == Added(toRaw, old(State()), instance)
    {
      ghost var before := State();
      if |removeIdxs| > 0 {
        var index := removeIdxs[|removeIdxs| - 1];
        removeIdxs := removeIdxs[..|removeIdxs| - 1];
        idToIndex := idToIndex[instance.id := index];
        instances := instances[index := instance];
        assert State() == Claimed(before, instance);
        var r := UpdateInstance(instance);
        assert r.Ok?;
        assert State() == Added(toRaw, before, instance);
        AddKeepsInv(toRaw, before, instance);
        return;
      }

      var rawSize := RecordSize * (|instances| + 1);
      var bufferSize := instanceBuffer.size;
      if rawSize > bufferSize {
        while rawSize > bufferSize
          invariant bufferSize > 0
          invariant GrownSize(bufferSize, rawSize) == GrownSize(before.buffer.size, rawSize)
          decreases rawSize - bufferSize
        {
          bufferSize := bufferSize * 2;
        }
        instanceBuffer := CreateBuffer(bufferSize);
        var raws := Raws(toRaw, instances);
        instanceBuffer := WriteBuffer(instanceBuffer, 0, raws);
      }
      var raw := toRaw(instance);
      instanceBuffer := WriteBuffer(instanceBuffer, rawSize - RecordSize, [raw]);
      idToIndex := idToIndex[instance.id := |instances|];
      instances := instances + [instance];
      assert State() == Added(toRaw, before, instance);
      AddKeepsInv(toRaw, before, instance);
    }

    /**
     * `update_instance`.  It is also called from the free-slot path of
     * `add_instance` before the buffer has caught up, so it asks only for the
     * tables to be well formed; it keeps the full invariant when given it.
     */
    method UpdateInstance(instance: Instance) returns (r: Result<()>)
      requires WellFormed(State())
      modifies this
      ensures WellFormed(State())
      ensures old(Valid()) ==> Valid()
      ensures (State(), r) == Updated(toRaw, old(State()), instance)
    {
      UpdateKeepsInv(toRaw, State(), instance);
      if instance.id in idToIndex {
        var index := idToIndex[instance.id];
        var raw := toRaw(instance);
        instanceBuffer := WriteBuffer(instanceBuffer, Offset(index), [raw]);
        instances := instances[index := instance];
        r := Ok(());
      } else {
        r := Err(InstanceNotFound);
      }
    }

    /** `remove_instance`. */
    method RemoveInstance(instanceId: U128) returns (r: Result<Instance>)
      requires Valid()
      modifies this
      ensures Valid()
      ensures (State(), r) == Removed(old(State()), instanceId)
    {
      RemoveKeepsInv(toRaw, State(), instanceId);
      if instanceId in idToIndex {
        var index := idToIndex[instanceId];
        idToIndex := idToIndex - {instanceId};
        var instance := instances[index];
        removeIdxs := removeIdxs + [index];
        r := Ok(instance);
      } else {
        r := Err(InstanceNotFound);
      }
    }
  }
}
