/**
  The pool objects themselves: the cache, the entries with their lease count and retired flag, and the
  lock-guarded blocks that update them in place. Each block is proved to be exactly one step of TokenPool.Next,
  so everything TokenPool proves about interleavings holds of these objects.
*/
module TenantPools {
  import opened Base
  import opened TokenPool

  lemma {:induction false} WhatInvalidateDoes(s: State, t: Task, tenant: Tenant)
    requires Inv(s) && PhaseOf(s, t).Idle?
    ensures Next(s, Invalidate(t, tenant)).Some? && Inv(Next(s, Invalidate(t, tenant)).value)
    ensures tenant !in s.cache ==> Next(s, Invalidate(t, tenant)) == Some(s)
    ensures tenant in s.cache ==>
      var e := s.cache[tenant];
      Next(s, Invalidate(t, tenant))
        == Some(State(s.entries[e := s.entries[e].(retired := true)], s.cache - {tenant},
                      s.tasks[t := if s.entries[e].leases == 0 then Closing(e) else Idle]))
  {
    StepKeepsInv(s, Invalidate(t, tenant));
  }

  class TenantPool {
    ghost const id: EntryId
    ghost var closed: nat
    var leases: int
    var retired: bool

    constructor (ghost id: EntryId)
      ensures this.id == id && leases == 0 && !retired && closed == 0
    {
      this.id := id;
      leases, retired, closed := 0, false, 0;
    }

    ghost function Value(): Entry
      reads this
    {
      Entry(leases, retired, closed)
    }

    /** Closes both clients and the token pool under them. */
    method Close()
      modifies this`closed
      ensures closed == old(closed) + 1
    {
      closed := closed + 1;
    }
  }

  class Pool {
    var cache: map<Tenant, TenantPool>
    // every entry ever built, the number of each cached one, and where each task stands
    ghost var built: seq<TenantPool>
    ghost var index: map<Tenant, EntryId>
    ghost var tasks: map<Task, Phase>

    /** Entries are numbered in the order they were built, and the cache holds only built ones. */
    ghost predicate Linked()
      reads this`cache, this`built, this`index
    {
      && (forall i | 0 <= i < |built| :: built[i].id == i)
      && (forall tenant :: tenant in cache <==> tenant in index)
      && (forall tenant | tenant in cache :: index[tenant] < |built| && built[index[tenant]] == cache[tenant])
    }

    ghost predicate Valid()
      reads this, built
    {
      Linked() && Inv(Snapshot())
    }

    ghost function Snapshot(): State
      reads this, built
    {
      State(seq(|built|, i requires 0 <= i < |built| reads this, built => built[i].Value()),
            index, tasks)
    }

    /** The task runs next: it is in a position for op, whose step the caller is about to take. */
    ghost predicate Ready(op: Op)
      requires Valid()
      reads this, built
    {
      Next(Snapshot(), op).Some?
    }

    constructor ()
      ensures Valid() && Snapshot() == Initial()
    {
      cache, built, index, tasks := map[], [], map[], map[];
    }

    /** The cache look-up under the lock: a hit counts the caller's lease at once, a miss starts a build. */
    method LeaseOrMiss(ghost task: Task, tenant: Tenant) returns (entry: TenantPool?)
      requires Valid() && Ready(TokenPool.LeaseOrMiss(task, tenant))
      modifies this`tasks, built`leases
      ensures Valid() && Snapshot() == Next(old(Snapshot()), TokenPool.LeaseOrMiss(task, tenant)).value
      ensures built == old(built) && cache == old(cache)
      ensures entry != null <==> tenant in old(cache)
      ensures entry != null ==> entry == cache[tenant] && tasks[task] == Inside(entry.id)
      ensures entry == null ==> tasks[task] == Building(tenant)
    {
      hide Counted, ClosedOnce, CacheIsLive;
      ghost var s, op := Snapshot(), TokenPool.LeaseOrMiss(task, tenant);
      StepKeepsInv(s, op);
      if tenant in cache {
        entry := cache[tenant];
        entry.leases := entry.leases + 1;
        tasks := tasks[task := Inside(entry.id)];
      } else {
        entry := null;
        tasks := tasks[task := Building(tenant)];
      }
      assert Snapshot().entries == Next(s, op).value.entries;
    }

    /** The end of a build: the new entry is cached and leased before the lock is let go. */
    method Publish(ghost task: Task, tenant: Tenant) returns (entry: TenantPool)
      requires Valid() && PhaseOf(Snapshot(), task) == Building(tenant)
      modifies this
      ensures Valid() && Snapshot() == Next(old(Snapshot()), TokenPool.Publish(task, true)).value
      ensures fresh(entry) && built == old(built) + [entry] && cache == old(cache)[tenant := entry]
      ensures tasks[task] == Inside(entry.id)
    {
      hide Counted, ClosedOnce, CacheIsLive;
      ghost var s, op := Snapshot(), TokenPool.Publish(task, true);
      StepKeepsInv(s, op);
      entry := new TenantPool(|built|);
      built := built + [entry];
      cache, index := cache[tenant := entry], index[tenant := entry.id];
      entry.leases := entry.leases + 1;
      tasks := tasks[task := Inside(entry.id)];
      assert Snapshot().entries == Next(s, op).value.entries;
    }

    /** The end of a lease block: the count goes down, and the last one out of a retired entry has to close it. */
    method Leave(ghost task: Task, entry: TenantPool) returns (closeable: bool)
      requires Valid() && entry in built && PhaseOf(Snapshot(), task) == Inside(entry.id)
      modifies this`tasks, entry`leases
      ensures Valid() && Snapshot() == Next(old(Snapshot()), TokenPool.Leave(task)).value
      ensures closeable <==> tasks[task] == Closing(entry.id)
      ensures closeable ==> forall t | t in tasks :: tasks[t] != Inside(entry.id)
    {
      hide Counted, ClosedOnce, CacheIsLive;
      ghost var s, op := Snapshot(), TokenPool.Leave(task);
      StepKeepsInv(s, op);
      entry.leases := entry.leases - 1;
      closeable := entry.retired && entry.leases == 0;
      tasks := tasks[task := if closeable then Closing(entry.id) else Idle];
      assert Snapshot().entries == Next(s, op).value.entries;
      if closeable {
        forall t | t in tasks
          ensures tasks[t] != Inside(entry.id)
        {
          SomeoneInside(Snapshot(), t);
        }
      }
    }

    /** The cache's pop. */
    method Uncache(tenant: Tenant) returns (entry: TenantPool)
      requires Linked() && tenant in cache
      modifies this`cache, this`index
      ensures entry == old(cache)[tenant]
      ensures Linked() && entry in built && tenant in old(index) && old(index)[tenant] == entry.id < |built|
      ensures Snapshot() == old(Snapshot()).(cache := old(index) - {tenant})
    {
      entry := cache[tenant];
      cache, index := cache - {tenant}, index - {tenant};
    }

    /** The entry will be closed by whoever leaves it last, or by the caller if nobody is inside. */
    method Retire(ghost task: Task, entry: TenantPool) returns (closeable: bool)
      requires Linked() && entry in built && entry.id < |built|
      modifies entry`retired, this`tasks
      ensures Linked() && closeable == (entry.leases == 0)
      ensures var s, e := old(Snapshot()), entry.id;
        Snapshot() == s.(entries := s.entries[e := s.entries[e].(retired := true)],
                         tasks := s.tasks[task := if closeable then Closing(e) else Idle])
    {
      entry.retired := true;
      closeable := entry.leases == 0;
      tasks := tasks[task := if closeable then Closing(entry.id) else Idle];
      assert Snapshot().entries == old(Snapshot().entries[entry.id := Snapshot().entries[entry.id].(retired := true)]);
    }

    /** Takes the tenant's entry out of the cache; an entry nobody holds is the caller's to close. */
    method Invalidate(ghost task: Task, tenant: Tenant) returns (entry: TenantPool?, closeable: bool)
      requires Valid() && PhaseOf(Snapshot(), task) == Idle
      modifies this`cache, this`index, this`tasks, built`retired
      ensures Valid() && Snapshot() == Next(old(Snapshot()), TokenPool.Invalidate(task, tenant)).value
      ensures if tenant in old(cache) then entry == old(cache)[tenant] && closeable == (entry.leases == 0)
              else entry == null && !closeable
    {
      ghost var s, op := Snapshot(), TokenPool.Invalidate(task, tenant);
      WhatInvalidateDoes(s, task, tenant);
      assert tenant in cache <==> tenant in s.cache;
      hide Counted, ClosedOnce, CacheIsLive, Next, Linked, Snapshot;
      if tenant !in cache {
        return null, false;
      }
      entry := Uncache(tenant);
      closeable := Retire(task, entry);
    }

    /** The close after the lock was let go: nobody inside, the cache does not know the entry, it was never closed. */
    method CloseEntry(ghost task: Task, entry: TenantPool)
      requires Valid() && entry in built && PhaseOf(Snapshot(), task) == Closing(entry.id)
      modifies this`tasks, entry`closed
      ensures Valid() && Snapshot() == Next(old(Snapshot()), TokenPool.Close(task)).value
      ensures old(entry.closed) == 0 && entry.closed == 1 && entry.retired && entry.leases == 0
      ensures forall tenant | tenant in cache :: cache[tenant] != entry
    {
      hide Counted, ClosedOnce;
      ghost var s, op := Snapshot(), TokenPool.Close(task);
      SomeoneInside(s, task);
      StepKeepsInv(s, op);
      assert s.entries[entry.id].retired;
      forall tenant | tenant in cache
        ensures cache[tenant] != entry
      {
        assert tenant in s.cache && built[s.cache[tenant]] == cache[tenant];
      }
      entry.Close();
      tasks := tasks[task := Idle];
      assert Snapshot().entries == Next(s, op).value.entries;
    }
  }
}
