/** The pool of DMA buffers a recorder or a live stream leases from: acquire_recorder_dma_buffer and
    release_recorder_dma_buffer of src/utils/mp4_recorder.cpp, and their copies in
    src/device/live_webrtc_session.cpp. The operating system's answers are parameters. */
module DmaPool {
  import opened Options

  const MAX_SLOTS: nat := 6

  /** fd is negative, and size 0, while the slot has no buffer. */
  datatype Slot = Slot(fd: int, size: nat, inUse: bool)

  datatype Lease = Lease(slot: nat, fd: int, size: nat)

  /** The slots agree with the leases out there and with the descriptors that are open: a slot is in use
      exactly while one lease names it, and that lease's buffer is open and of its size; no two slots share
      a descriptor, and none is leaked. */
  ghost predicate PoolOk(slots: seq<Slot>, leases: set<Lease>, open: set<int>) {
    && |slots| <= MAX_SLOTS
    && (forall i | 0 <= i < |slots| ::
          if slots[i].fd < 0 then slots[i] == Slot(slots[i].fd, 0, false) else slots[i].size > 0)
    && (forall i, j | 0 <= i < j < |slots| && slots[i].fd >= 0 :: slots[i].fd != slots[j].fd)
    && (forall i | 0 <= i < |slots| && slots[i].fd >= 0 :: slots[i].fd in open)
    && (forall fd | fd in open :: exists i | 0 <= i < |slots| :: slots[i].fd == fd && fd >= 0)
    && (forall l | l in leases :: l.slot < |slots| && slots[l.slot] == Slot(l.fd, l.size, true))
    && (forall i | 0 <= i < |slots| && slots[i].inUse :: Lease(i, slots[i].fd, slots[i].size) in leases)
  }

  lemma LeasesDistinct(slots: seq<Slot>, leases: set<Lease>, open: set<int>, a: Lease, b: Lease)
    requires PoolOk(slots, leases, open) && a in leases && b in leases && a != b
    ensures a.slot != b.slot && a.fd != b.fd && a.fd in open && b.fd in open
  {
    assert slots[a.slot].fd == a.fd >= 0 && slots[b.slot].fd == b.fd >= 0;
  }

  /** The slots that are in use. */
  function Used(slots: seq<Slot>): nat {
    if slots == [] then 0 else Used(slots[..|slots| - 1]) + if slots[|slots| - 1].inUse then 1 else 0
  }

  lemma {:induction false} UsedIsLeases(slots: seq<Slot>, leases: set<Lease>)
    requires forall l | l in leases :: l.slot < |slots| && slots[l.slot] == Slot(l.fd, l.size, true)
    requires forall i | 0 <= i < |slots| && slots[i].inUse :: Lease(i, slots[i].fd, slots[i].size) in leases
    ensures |leases| == Used(slots)
  {
    if slots == [] {
      assert leases == {};
    } else {
      var n := |slots| - 1;
      var last := Lease(n, slots[n].fd, slots[n].size);
      UsedIsLeases(slots[..n], leases - {last});
    }
  }

  lemma {:induction false} UsedAll(slots: seq<Slot>)
    ensures Used(slots) <= |slots|
    ensures Used(slots) == |slots| <==> forall i | 0 <= i < |slots| :: slots[i].inUse
  {
    if slots != [] {
      UsedAll(slots[..|slots| - 1]);
    }
  }

  /** There are never more than six leases, and with six of them every slot is in use. */
  lemma AtMostSixLeases(slots: seq<Slot>, leases: set<Lease>, open: set<int>)
    requires PoolOk(slots, leases, open)
    ensures |leases| <= 6
    ensures |leases| == 6 <==> |slots| == 6 && forall i | 0 <= i < |slots| :: slots[i].inUse
  {
    UsedIsLeases(slots, leases);
    UsedAll(slots);
  }

  lemma AddingSlot(slots: seq<Slot>, leases: set<Lease>, open: set<int>)
    requires PoolOk(slots, leases, open) && |slots| < MAX_SLOTS
    ensures PoolOk(slots + [Slot(-1, 0, false)], leases, open)
  {
    var more := slots + [Slot(-1, 0, false)];
    forall fd | fd in open ensures exists i | 0 <= i < |more| :: more[i].fd == fd && fd >= 0 {
      var i :| 0 <= i < |slots| && slots[i].fd == fd && fd >= 0;
      assert more[i].fd == fd;
    }
  }

  lemma ClosingIdle(slots: seq<Slot>, leases: set<Lease>, open: set<int>, i: nat)
    requires PoolOk(slots, leases, open) && i < |slots| && !slots[i].inUse
    ensures PoolOk(slots[i := Slot(-1, 0, false)], leases, open - {slots[i].fd})
  {
    var less := slots[i := Slot(-1, 0, false)];
    forall fd | fd in open - {slots[i].fd} ensures exists j | 0 <= j < |less| :: less[j].fd == fd && fd >= 0 {
      var j :| 0 <= j < |slots| && slots[j].fd == fd && fd >= 0;
      assert less[j].fd == fd;
    }
    forall l | l in leases ensures l.slot < |less| && less[l.slot] == Slot(l.fd, l.size, true) {
      assert slots[l.slot].inUse;
    }
  }

  lemma OpeningIdle(slots: seq<Slot>, leases: set<Lease>, open: set<int>, i: nat, fd: int, size: nat)
    requires PoolOk(slots, leases, open) && i < |slots| && slots[i].fd < 0 && fd >= 0 && fd !in open && size > 0
    ensures PoolOk(slots[i := Slot(fd, size, false)], leases, open + {fd})
  {
    var more := slots[i := Slot(fd, size, false)];
    forall d | d in open + {fd} ensures exists j | 0 <= j < |more| :: more[j].fd == d && d >= 0 {
      if d == fd {
        assert more[i].fd == fd;
      } else {
        var j :| 0 <= j < |slots| && slots[j].fd == d && d >= 0;
        assert more[j].fd == d;
      }
    }
    forall l | l in leases ensures l.slot < |more| && more[l.slot] == Slot(l.fd, l.size, true) {
      assert slots[l.slot].inUse && slots[l.slot].fd >= 0;
    }
  }

  lemma LeasingIdle(slots: seq<Slot>, leases: set<Lease>, open: set<int>, i: nat)
    requires PoolOk(slots, leases, open) && i < |slots| && !slots[i].inUse && slots[i].fd >= 0
    ensures PoolOk(slots[i := slots[i].(inUse := true)], leases + {Lease(i, slots[i].fd, slots[i].size)}, open)
    ensures Lease(i, slots[i].fd, slots[i].size) !in leases
  {
    var now := slots[i := slots[i].(inUse := true)];
    forall d | d in open ensures exists j | 0 <= j < |now| :: now[j].fd == d && d >= 0 {
      var j :| 0 <= j < |slots| && slots[j].fd == d && d >= 0;
      assert now[j].fd == d;
    }
    forall l | l in leases ensures l.slot < |now| && now[l.slot] == Slot(l.fd, l.size, true) {
      assert slots[l.slot].inUse;
    }
  }

  lemma Returning(slots: seq<Slot>, leases: set<Lease>, open: set<int>, lease: Lease)
    requires PoolOk(slots, leases, open) && lease in leases
    ensures PoolOk(slots[lease.slot := slots[lease.slot].(inUse := false)], leases - {lease}, open)
  {
    var now := slots[lease.slot := slots[lease.slot].(inUse := false)];
    forall d | d in open ensures exists j | 0 <= j < |now| :: now[j].fd == d && d >= 0 {
      var j :| 0 <= j < |slots| && slots[j].fd == d && d >= 0;
      assert now[j].fd == d;
    }
    forall l | l in leases - {lease} ensures l.slot < |now| && now[l.slot] == Slot(l.fd, l.size, true) {
      LeasesDistinct(slots, leases, open, l, lease);
    }
  }

  function FirstSized(slots: seq<Slot>, size: nat, from: nat): (i: nat)
    requires from <= |slots|
    ensures from <= i <= |slots| && (i < |slots| ==> !slots[i].inUse && slots[i].size == size)
    ensures forall j | from <= j < i :: slots[j].inUse || slots[j].size != size
    decreases |slots| - from
  {
    if from == |slots| || (!slots[from].inUse && slots[from].size == size) then from
    else FirstSized(slots, size, from + 1)
  }

  function FirstIdle(slots: seq<Slot>, from: nat): (i: nat)
    requires from <= |slots|
    ensures from <= i <= |slots| && (i < |slots| ==> !slots[i].inUse)
    ensures forall j | from <= j < i :: slots[j].inUse
    decreases |slots| - from
  {
    if from == |slots| || !slots[from].inUse then from else FirstIdle(slots, from + 1)
  }

  /** The slot a request gets: an idle one of its size, else any idle one, else the next new one. */
  function Chosen(slots: seq<Slot>, size: nat): (i: nat)
    ensures i <= |slots| && (i < |slots| ==> !slots[i].inUse)
    ensures i == |slots| ==> forall j | 0 <= j < |slots| :: slots[j].inUse
    ensures (exists j | 0 <= j < |slots| :: !slots[j].inUse && slots[j].size == size)
      ==> i < |slots| && slots[i].size == size
    ensures forall j | 0 <= j < i ::
      slots[j].inUse || (slots[j].size != size && exists k | 0 <= k < |slots| :: !slots[k].inUse && slots[k].size == size)
  {
    if FirstSized(slots, size, 0) < |slots| then FirstSized(slots, size, 0) else FirstIdle(slots, 0)
  }

  /** A descriptor the kernel can return: none that is open, save the one the chosen slot closes first. */
  ghost predicate IsFree(fd: int, slots: seq<Slot>, size: nat, open: set<int>) {
    fd >= 0 && (fd in open ==> Chosen(slots, size) < |slots| && slots[Chosen(slots, size)].fd == fd)
  }

  class DmaPool {
    var heapOpen: bool
    var slots: seq<Slot>
    ghost var leases: set<Lease>
    ghost var open: set<int>

    ghost predicate Valid()
      reads this
    {
      PoolOk(slots, leases, open)
    }

    constructor ()
      ensures Valid() && leases == {} && open == {} && slots == []
    {
      heapOpen, slots, leases, open := false, [], {}, {};
    }

    /** The two searches for a slot. */
    method FindIdle(size: nat) returns (found: nat)
      ensures found == Chosen(slots, size)
    {
      found := 0;
      while found < |slots|
        invariant found <= |slots| && FirstSized(slots, size, 0) == FirstSized(slots, size, found)
      {
        if !slots[found].inUse && slots[found].size == size {
          return;
        }
        found := found + 1;
      }
      found := 0;
      while found < |slots|
        invariant found <= |slots| && FirstIdle(slots, 0) == FirstIdle(slots, found)
      {
        if !slots[found].inUse {
          return;
        }
        found := found + 1;
      }
    }

    /** The slot gets a buffer of this size: the one it has, or a new one instead of it. buffer is what the
        kernel returns: an error, or a descriptor that is not open. */
    method Provide(i: nat, size: nat, buffer: Option<int>) returns (ok: bool)
      requires Valid() && i < |slots| && !slots[i].inUse && size > 0
      requires buffer.Some? ==> buffer.value >= 0 && buffer.value !in open - {slots[i].fd}
      modifies this`slots, this`open
      ensures Valid() && |slots| == |old(slots)| && !slots[i].inUse
      ensures forall j | 0 <= j < |slots| && j != i :: slots[j] == old(slots)[j]
      ensures ok ==> slots[i].fd >= 0 && slots[i].size == size
      ensures old(slots)[i].fd >= 0 && old(slots)[i].size == size ==> ok && slots == old(slots) && open == old(open)
      ensures buffer.Some? ==> ok
      ensures !ok ==> slots[i] == Slot(-1, 0, false) && open == old(open) - {old(slots)[i].fd}
      ensures ok && !(old(slots)[i].fd >= 0 && old(slots)[i].size == size) ==>
        && buffer.Some? && slots[i] == Slot(buffer.value, size, false)
        && open == old(open) - {old(slots)[i].fd} + {buffer.value}
    {
      hide PoolOk;
      var slot := slots[i];
      if slot.fd >= 0 && slot.size == size {
        return true;
      }
      ClosingIdle(slots, leases, open, i);
      if slot.fd >= 0 {
        open := open - {slot.fd};
      } else {
        NegativeNotOpen(slots, leases, open, i);
      }
      slots := slots[i := Slot(-1, 0, false)];
      if buffer.None? {
        return false;
      }
      OpeningIdle(slots, leases, open, i, buffer.value, size);
      slots := slots[i := Slot(buffer.value, size, false)];
      open := open + {buffer.value};
      return true;
    }

    /** acquire_recorder_dma_buffer. Leases handed out before stay as they are. */
    method Acquire(size: nat, heapOpens: bool, buffer: Option<int>) returns (lease: Option<Lease>, poolExhausted: bool)
      requires Valid()
      requires buffer.Some? ==> IsFree(buffer.value, slots, size, open)
      modifies this
      ensures Valid()
      ensures lease.None? ==> leases == old(leases)
      ensures lease.Some? ==>
        leases == old(leases) + {lease.value} && lease.value !in old(leases) && lease.value.size == size
      ensures lease.Some? ==> lease.value.slot == Chosen(old(slots), size)
      ensures |old(slots)| <= |slots| <= |old(slots)| + 1
      ensures forall i | 0 <= i < |old(slots)| && i != Chosen(old(slots), size) :: slots[i] == old(slots)[i]
      ensures poolExhausted <==> size > 0 && (old(heapOpen) || heapOpens) && |old(leases)| == 6
      ensures size > 0 && (old(heapOpen) || heapOpens) && !poolExhausted && buffer.Some? ==> lease.Some?
      ensures (size > 0 && (old(heapOpen) || heapOpens)
               && exists i | 0 <= i < |old(slots)| :: !old(slots)[i].inUse && old(slots)[i].size == size)
        ==> lease.Some? && open == old(open)
    {
      hide PoolOk;
      if size == 0 {
        return None, false;
      }
      if !heapOpen {
        if !heapOpens {
          return None, false;
        }
        heapOpen := true;
      }
      AtMostSixLeases(slots, leases, open);
      SizedSlotsHaveBuffers(slots, leases, open);
      var i := FindIdle(size);
      if i == |slots| {
        if |slots| >= MAX_SLOTS {
          return None, true;
        }
        AddingSlot(slots, leases, open);
        slots := slots + [Slot(-1, 0, false)];
      }
      var ok := Provide(i, size, buffer);
      if !ok {
        return None, false;
      }
      LeasingIdle(slots, leases, open, i);
      lease := Some(Lease(i, slots[i].fd, slots[i].size));
      slots := slots[i := slots[i].(inUse := true)];
      leases := leases + {lease.value};
      return lease, false;
    }

    /** release_recorder_dma_buffer; a lease is given back once. */
    method Release(lease: Lease)
      requires Valid() && lease in leases && lease.slot < |slots|
      modifies this`slots, this`leases
      ensures Valid() && leases == old(leases) - {lease}
      ensures slots == old(slots)[lease.slot := old(slots)[lease.slot].(inUse := false)]
    {
      hide PoolOk;
      Returning(slots, leases, open, lease);
      slots := slots[lease.slot := slots[lease.slot].(inUse := false)];
      leases := leases - {lease};
    }
  }

  lemma NegativeNotOpen(slots: seq<Slot>, leases: set<Lease>, open: set<int>, i: nat)
    requires PoolOk(slots, leases, open) && i < |slots| && slots[i].fd < 0
    ensures open - {slots[i].fd} == open
  {
  }

  lemma SizedSlotsHaveBuffers(slots: seq<Slot>, leases: set<Lease>, open: set<int>)
    requires PoolOk(slots, leases, open)
    ensures forall i | 0 <= i < |slots| && slots[i].size > 0 :: slots[i].fd >= 0
    ensures |slots| <= MAX_SLOTS
  {
  }
}
