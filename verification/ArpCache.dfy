/** The table of arp.c updated in place, each critical section a method. */
module ArpCache {
  import opened Words
  import opened Arp
  import opened Wrappers

  class Cache {
    const table: array<Entry>
    var timestamp: int
    /** Names the next buffer a packet is copied to. */
    var buffers: nat
    ghost var born: seq<Parcel>
    ghost var log: seq<Fate>
    ghost var heard: set<(Word, Ha)>

    ghost predicate Valid()
      reads this
    {
      buffers == |born| && table.Length == TABLE_SIZE
    }

    ghost function Model(): State
      reads this, table
    {
      State(table[..], timestamp, born, log, heard)
    }

    /** `arp_init` (arp.c:381-390). */
    constructor (now: int)
      ensures Valid() && fresh(table) && Model() == Start(now)
    {
      table := new Entry[TABLE_SIZE](i => CLEAR);
      timestamp, buffers, born, log, heard := now, 0, [], [], {};
    }

    /** `arp_table_freespace` (arp.c:89-101). */
    method FreeEntry() returns (i: nat)
      ensures i == Freespace(table[..])
    {
      i := 0;
      while i < table.Length
        invariant i <= table.Length
        invariant forall j :: 0 <= j < i ==> table[j].used
      {
        if !table[i].used { return; }
        i := i + 1;
      }
    }

    /** `arp_table_select` (arp.c:118-129). */
    method SelectEntry(pa: Word) returns (i: nat)
      ensures i == Select(table[..], pa)
    {
      i := 0;
      while i < table.Length
        invariant i <= table.Length
        invariant forall j :: 0 <= j < i ==> !(table[j].used && table[j].pa == pa)
      {
        if table[i].used && table[i].pa == pa { return; }
        i := i + 1;
      }
    }

    /** `arp_table_insert` (arp.c:103-116); -1 when nothing is free. */
    method InsertEntry(pa: Word, ha: Ha, now: int) returns (ok: bool)
      modifies table
      ensures table[..] == Inserted(old(table[..]), pa, ha, now)
      ensures ok <==> Freespace(old(table[..])) < table.Length
    {
      var i := FreeEntry();
      if i == table.Length { return false; }
      table[i] := table[i].(used := true, pa := pa, ha := ha, stamp := now);
      return true;
    }

    /** `arp_table_update` (arp.c:131-160); -1 when there is no entry. */
    method UpdateEntry(dev: nat, pa: Word, ha: Ha, now: int) returns (ok: bool, tx: Option<Fate>)
      requires Valid()
      modifies this`log, table
      ensures ok <==> Select(old(table[..]), pa) < table.Length
      ensures Model() == if ok then ResolveAt(old(Model()), Select(old(table[..]), pa), dev, ha, now)
                         else old(Model())
      ensures log == old(log) + if tx.Some? then [tx.value] else []
    {
      tx := None;
      var i := SelectEntry(pa);
      if i == table.Length { return false, tx; }
      var e := table[i];
      if e.data.Some? {
        var out := if e.netif.Some? && e.netif.value.dev != dev then e.netif.value.dev else dev;
        tx := Some(Sent(e.data.value.id, ha, out, e.data.value.bytes));
        log := log + [tx.value];
      }
      table[i] := e.(ha := ha, stamp := now, data := None);
      return true, tx;
    }

    /** `arp_entry_clear` (arp.c:162-173). */
    method ClearEntry(i: nat, ghost cause: Cause)
      requires Valid() && i < table.Length
      modifies this`log, table
      ensures Model() == ClearAt(old(Model()), i, cause)
    {
      if table[i].data.Some? {
        log := log + [Lost(table[i].data.value.id, cause)];
      }
      table[i] := CLEAR;
    }

    /** `arp_table_patrol` (arp.c:241-252). */
    method PatrolEntries()
      requires Valid()
      modifies this`log, table
      ensures Model() == PatrolTo(old(Model()), TABLE_SIZE)
    {
      var i := 0;
      while i < table.Length
        invariant i <= table.Length
        invariant Valid() && Model() == PatrolTo(old(Model()), i)
      {
        if table[i].used && timestamp - table[i].stamp > ENTRY_TIMEOUT {
          ClearEntry(i, Expiry);
        }
        i := i + 1;
      }
    }

    /** `arp_rx` under its first lock (arp.c:285-295). */
    method Receive(dev: nat, spa: Word, sha: Ha, now: int) returns (merged: bool, tx: Option<Fate>)
      requires Valid()
      modifies this, table
      ensures Valid() && Updated(Model(), merged) == RxUpdate(old(Model()), dev, spa, sha, now)
      ensures log == Patrolled(Hear(old(Model()), spa, sha), now).log + if tx.Some? then [tx.value] else []
    {
      heard := heard + {(spa, sha)};
      if now - timestamp > PATROL_PERIOD {
        timestamp := now;
        PatrolEntries();
      }
      merged, tx := UpdateEntry(dev, spa, sha, now);
    }

    /** `arp_rx` under its second lock (arp.c:300-304). */
    method ReceiveInsert(spa: Word, sha: Ha, now: int)
      requires Valid()
      modifies this, table
      ensures Valid() && Model() == RxInsert(old(Model()), spa, sha, now)
    {
      heard := heard + {(spa, sha)};
      var _ := InsertEntry(spa, sha, now);
    }

    /** `arp_resolve` up to its wait or its return (arp.c:313-379). */
    method ResolveCall(netif: Netif, pa: Word, data: Option<seq<Byte>>, now: int) returns (answer: Answer)
      requires Valid()
      modifies this, table
      ensures Valid() && Resolved(Model(), answer) == Resolve(old(Model()), netif, pa, data, now)
    {
      var i := SelectEntry(pa);
      if i < table.Length {
        return if table[i].ha == ANY then Waits(i) else Found(table[i].ha);
      }
      i := FreeEntry();
      if i == table.Length { return Error; }
      var e := table[i];
      if data.Some? {
        e := e.(data := Some(Held(buffers, data.value)));
        buffers := buffers + 1;
        born := born + [Parcel(pa, netif.dev, data.value)];
      }
      table[i] := e.(used := true, pa := pa, stamp := now, netif := Some(netif));
      return Query;
    }

    /** `arp_resolve` after its wait (arp.c:337-349). */
    method WakeCall(slot: nat, timedOut: bool) returns (answer: Answer)
      requires Valid() && slot < table.Length
      modifies this`log, table
      ensures Valid() && Resolved(Model(), answer) == Wake(old(Model()), slot, timedOut)
    {
      if !table[slot].used || timedOut {
        if table[slot].used { ClearEntry(slot, Timeout); }
        return Error;
      }
      return Found(table[slot].ha);
    }
  }
}
