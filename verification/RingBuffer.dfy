/**
 * The ring queue as the object the code declares, its methods run one at a time. This is
 * the sequential meaning of Push, Pop and PopBatch; `RingQueue` covers the interleavings.
 */
module RingBuffer {
  import opened Bits
  import opened Bytes
  import opened RingQueue

  class LockFreeQueue {
    const k: nat                  // capacity is Pow2(k)
    const slots: array<Slot>
    var head: nat
    var tail: nat
    var notEmpty: bool
    ghost var Contents: seq<Msg>

    ghost predicate Valid()
      reads this, slots
    {
      && slots.Length == Pow2(k)
      && tail <= head <= tail + Pow2(k)
      && |Contents| == head - tail
      && (forall i: nat {:trigger SlotOf(i, k)} | tail <= i < head ::
          slots[SlotOf(i, k)] == Slot(Some(Contents[i - tail]), true))
      && (forall i: nat {:trigger SlotOf(i, k)} | head <= i < tail + Pow2(k) ::
          slots[SlotOf(i, k)] == Slot(None, false))
    }

    constructor (k: nat)
      ensures Valid() && fresh(slots) && this.k == k && Contents == [] && !notEmpty
    {
      this.k := k;
      slots := new Slot[Pow2(k)](_ => Slot(None, false));
      head, tail, notEmpty, Contents := 0, 0, false, [];
    }

    method Push(msg: Msg) returns (ok: bool)
      requires Valid()
      modifies this, slots
      ensures Valid()
      ensures ok == (|old(Contents)| < Pow2(k))
      ensures Contents == if ok then old(Contents) + [msg] else old(Contents)
      ensures notEmpty == (ok || old(notEmpty))
    {
      if head - tail >= Pow2(k) {
        return false;
      }
      SlotIsPrivate(head, tail, k);
      var x := SlotOf(head, k);
      slots[x] := Slot(Some(msg), slots[x].ready);
      slots[x] := Slot(slots[x].msg, true);
      head := head + 1;
      notEmpty := true;
      Contents := Contents + [msg];
      return true;
    }

    method Pop() returns (msg: Option<Msg>)
      requires Valid()
      modifies this, slots
      ensures Valid() && notEmpty == old(notEmpty)
      ensures old(Contents) == [] ==> msg == None && Contents == []
      ensures old(Contents) != [] ==> msg == Some(old(Contents)[0]) && Contents == old(Contents)[1..]
    {
      if tail >= head {
        return None;
      }
      SlotIsPrivate(tail, tail, k);
      SameSlotNextLap(tail, k);
      var x := SlotOf(tail, k);
      msg := slots[x].msg;
      slots[x] := Slot(None, slots[x].ready);
      slots[x] := Slot(slots[x].msg, false);
      tail := tail + 1;
      Contents := Contents[1..];
    }

    method PopBatch(batch: array<Option<Msg>>) returns (count: nat)
      requires Valid() && slots as object != batch as object
      modifies this, slots, batch
      ensures Valid() && notEmpty == old(notEmpty)
      ensures count == if batch.Length <= |old(Contents)| then batch.Length else |old(Contents)|
      ensures forall i :: 0 <= i < count ==> batch[i] == Some(old(Contents)[i])
      ensures forall i :: count <= i < batch.Length ==> batch[i] == old(batch[i])
      ensures Contents == old(Contents)[count..]
    {
      count := 0;
      while count < batch.Length
        invariant Valid() && notEmpty == old(notEmpty)
        invariant count <= batch.Length && count <= |old(Contents)|
        invariant forall i :: 0 <= i < count ==> batch[i] == Some(old(Contents)[i])
        invariant forall i :: count <= i < batch.Length ==> batch[i] == old(batch[i])
        invariant Contents == old(Contents)[count..]
      {
        if tail >= head {
          break;
        }
        var m := Pop();
        batch[count] := m;
        count := count + 1;
      }
    }

    method IsEmpty() returns (r: bool)
      requires Valid()
      ensures r <==> Contents == []
    {
      r := tail >= head;
    }
  }
}
