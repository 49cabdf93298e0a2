/**
  The per-tenant client pools and their reference counts. Every lock-guarded block of the pool is one atomic
  step; builds and closes are awaited outside those steps, so any other step may come in between. The model
  does not use the tenant lock beyond that: a build may even be overtaken by another one.
*/
module TokenPool {
  import opened Base

  type Tenant = string
  type Task = nat
  type EntryId = nat

  /** One pool with its two clients: how many leases are inside, whether it left the cache, how often it was closed. */
  datatype Entry = Entry(leases: int, retired: bool, closed: nat)

  /** A task is outside, building a pool, inside a lease, or has an entry to close. */
  datatype Phase = Idle | Building(tenant: Tenant) | Inside(entry: EntryId) | Closing(entry: EntryId)

  datatype State = State(entries: seq<Entry>, cache: map<Tenant, EntryId>, tasks: map<Task, Phase>)

  datatype Op =
    | LeaseOrMiss(task: Task, tenant: Tenant)
    | Publish(task: Task, built: bool)
    | Leave(task: Task)
    | Invalidate(task: Task, tenant: Tenant)
    | Close(task: Task)

  function PhaseOf(s: State, t: Task): Phase {
    if t in s.tasks then s.tasks[t] else Idle
  }

  predicate CacheOk(s: State) {
    forall tenant | tenant in s.cache :: s.cache[tenant] < |s.entries|
  }

  predicate TasksOk(s: State) {
    forall t | t in s.tasks ::
      && (s.tasks[t].Inside? ==> s.tasks[t].entry < |s.entries|)
      && (s.tasks[t].Closing? ==> s.tasks[t].entry < |s.entries|)
  }

  predicate InRange(s: State) {
    CacheOk(s) && TasksOk(s)
  }

  /** One step of one task; None when the task is not in a position to take it. */
  function Next(s: State, op: Op): Option<State>
    requires InRange(s)
  {
    var phase := PhaseOf(s, op.task);
    match op
    case LeaseOrMiss(t, tenant) =>
      // the lock-guarded head of _get_or_build: a hit counts the lease at once
      if !phase.Idle? then None
      else if tenant in s.cache then
        var e := s.cache[tenant];
        Some(s.(entries := s.entries[e := s.entries[e].(leases := s.entries[e].leases + 1)],
                tasks := s.tasks[t := Inside(e)]))
      else Some(s.(tasks := s.tasks[t := Building(tenant)]))
    case Publish(t, built) =>
      // a build that fails (no active account) publishes nothing
      if !phase.Building? then None
      else if !built then Some(s.(tasks := s.tasks[t := Idle]))
      else
        var e := |s.entries|;
        Some(State(s.entries + [Entry(1, false, 0)], s.cache[phase.tenant := e], s.tasks[t := Inside(e)]))
    case Leave(t) =>
      if !phase.Inside? then None
      else
        var e := phase.entry;
        var entry := s.entries[e].(leases := s.entries[e].leases - 1);
        Some(s.(entries := s.entries[e := entry],
                tasks := s.tasks[t := if entry.retired && entry.leases == 0 then Closing(e) else Idle]))
    case Invalidate(t, tenant) =>
      if !phase.Idle? then None
      else if tenant !in s.cache then Some(s)
      else
        var e := s.cache[tenant];
        Some(State(s.entries[e := s.entries[e].(retired := true)], s.cache - {tenant},
                   s.tasks[t := if s.entries[e].leases == 0 then Closing(e) else Idle]))
    case Close(t) =>
      if !phase.Closing? then None
      else
        var e := phase.entry;
        Some(s.(entries := s.entries[e := s.entries[e].(closed := s.entries[e].closed + 1)],
                tasks := s.tasks[t := Idle]))
  }

  function Initial(): State {
    State([], map[], map[])
  }

  /** A run of the pool: None as soon as one step was not possible. */
  function Exec(ops: seq<Op>): (r: Option<State>)
    ensures r.Some? ==> InRange(r.value)
  {
    if ops == [] then Some(Initial())
    else
      var before := Exec(ops[..|ops| - 1]);
      if before.None? then None else Next(before.value, ops[|ops| - 1])
  }

  // ---------------------------------------------------------------- the invariant

  /** The tasks in a given phase. */
  function At(tasks: map<Task, Phase>, p: Phase): set<Task> {
    set t | t in tasks && tasks[t] == p
  }

  /** The count of an entry is the number of tasks inside it. */
  predicate Counted(s: State) {
    forall e | 0 <= e < |s.entries| :: s.entries[e].leases == |At(s.tasks, Inside(e))|
  }

  /** Cached entries are not retired, and no two tenants share one. */
  predicate CacheIsLive(s: State) {
    && (forall tenant | tenant in s.cache :: s.cache[tenant] < |s.entries| && !s.entries[s.cache[tenant]].retired)
    && forall a, b | a in s.cache && b in s.cache && a != b :: s.cache[a] != s.cache[b]
  }

  predicate Done(entry: Entry) {
    entry.retired && entry.leases == 0
  }

  /** A retired entry without leases is closed or has one task about to close it; no other entry is either. */
  predicate ClosedOnce(s: State) {
    forall e | 0 <= e < |s.entries| ::
      s.entries[e].closed + |At(s.tasks, Closing(e))| == if Done(s.entries[e]) then 1 else 0
  }

  predicate Inv(s: State) {
    InRange(s) && Counted(s) && CacheIsLive(s) && ClosedOnce(s)
  }

  /** Moving one task to phase q changes the head counts of its old and new phase by one and no other. */
  lemma {:induction false} MovingATask(tasks: map<Task, Phase>, t: Task, q: Phase, p: Phase)
    requires !p.Idle?
    ensures |At(tasks[t := q], p)|
         == |At(tasks, p)| + (if q == p then 1 else 0) - (if t in tasks && tasks[t] == p then 1 else 0)
  {
    var before, after := At(tasks, p), At(tasks[t := q], p);
    assert after - {t} == before - {t};
    if t in before { assert |before - {t}| == |before| - 1; } else { assert before - {t} == before; }
    if t in after { assert |after - {t}| == |after| - 1; } else { assert after - {t} == after; }
  }

  lemma {:induction false} SomeoneInside(s: State, t: Task)
    requires Inv(s) && t in s.tasks
    ensures s.tasks[t].Inside? ==> s.entries[s.tasks[t].entry].leases >= 1
    ensures s.tasks[t].Closing? ==> Done(s.entries[s.tasks[t].entry]) && s.entries[s.tasks[t].entry].closed == 0
  {
    var p := s.tasks[t];
    assert t in At(s.tasks, p);
    assert |At(s.tasks, p)| >= 1;
  }

  /** Counts after one task moves and at most one entry changes. */
  predicate Balanced(s: State, s': State, t: Task, e: EntryId) {
    && |s'.entries| >= |s.entries|
    && (e < |s.entries| <= |s'.entries| ==>
         && s'.entries[e].leases - s.entries[e].leases
            == (if PhaseOf(s', t) == Inside(e) then 1 else 0) - (if PhaseOf(s, t) == Inside(e) then 1 else 0)
         && (s'.entries[e].closed + if PhaseOf(s', t) == Closing(e) then 1 else 0)
            - (s.entries[e].closed + if PhaseOf(s, t) == Closing(e) then 1 else 0)
            == (if Done(s'.entries[e]) then 1 else 0) - (if Done(s.entries[e]) then 1 else 0))
  }

  lemma {:induction false} StepBalances(s: State, op: Op, e: EntryId)
    requires Inv(s) && Next(s, op).Some? && e < |s.entries|
    ensures Balanced(s, Next(s, op).value, op.task, e)
  {
    if op.task in s.tasks { SomeoneInside(s, op.task); }
    assert s.entries[e].leases == |At(s.tasks, Inside(e))|;
    assert s.entries[e].closed + |At(s.tasks, Closing(e))| == if Done(s.entries[e]) then 1 else 0;
  }

  lemma {:induction false} CountsKept(s: State, op: Op)
    requires Inv(s) && Next(s, op).Some?
    ensures Counted(Next(s, op).value) && ClosedOnce(Next(s, op).value)
  {
    var s' := Next(s, op).value;
    var t := op.task;
    if s' != s {
      assert s'.tasks == s.tasks[t := s'.tasks[t]];
      forall e | 0 <= e < |s'.entries|
        ensures s'.entries[e].leases == |At(s'.tasks, Inside(e))|
        ensures s'.entries[e].closed + |At(s'.tasks, Closing(e))| == if Done(s'.entries[e]) then 1 else 0
      {
        MovingATask(s.tasks, t, s'.tasks[t], Inside(e));
        MovingATask(s.tasks, t, s'.tasks[t], Closing(e));
        if e < |s.entries| {
          StepBalances(s, op, e);
        } else {
          assert At(s.tasks, Inside(e)) == {} && At(s.tasks, Closing(e)) == {};
        }
      }
    }
  }

  lemma {:induction false} CacheWithNewEntry(s: State, tenant: Tenant, s': State)
    requires CacheIsLive(s) && s'.entries == s.entries + [Entry(1, false, 0)]
    requires s'.cache == s.cache[tenant := |s.entries|]
    ensures CacheIsLive(s')
  {
    forall x | x in s'.cache
      ensures s'.cache[x] < |s'.entries| && !s'.entries[s'.cache[x]].retired
    {
      if x != tenant { assert x in s.cache; }
    }
  }

  lemma {:induction false} CacheWithoutEntry(s: State, tenant: Tenant, s': State)
    requires CacheIsLive(s) && tenant in s.cache && s'.cache == s.cache - {tenant}
    requires s'.entries == s.entries[s.cache[tenant] := s.entries[s.cache[tenant]].(retired := true)]
    ensures CacheIsLive(s')
  {
    forall x | x in s'.cache
      ensures s'.cache[x] < |s'.entries| && !s'.entries[s'.cache[x]].retired
    {
      assert x in s.cache && s.cache[x] != s.cache[tenant];
    }
  }

  lemma {:induction false} RetiredFlagsKept(s: State, op: Op)
    requires InRange(s) && Next(s, op).Some? && !op.Publish? && !op.Invalidate?
    ensures |Next(s, op).value.entries| == |s.entries|
    ensures forall e | 0 <= e < |s.entries| :: Next(s, op).value.entries[e].retired == s.entries[e].retired
  {
  }

  lemma {:induction false} CacheKept(s: State, op: Op)
    requires InRange(s) && CacheIsLive(s) && Next(s, op).Some?
    ensures CacheIsLive(Next(s, op).value)
  {
    var s' := Next(s, op).value;
    match op
    case Publish(t, built) =>
      if built { CacheWithNewEntry(s, PhaseOf(s, t).tenant, s'); }
    case Invalidate(t, tenant) =>
      if tenant in s.cache { CacheWithoutEntry(s, tenant, s'); }
    case _ =>
      RetiredFlagsKept(s, op);
      assert s'.cache == s.cache;
  }

  lemma {:induction false} RangeKept(s: State, op: Op)
    requires InRange(s) && Next(s, op).Some?
    ensures InRange(Next(s, op).value)
  {
  }

  /** Every step of every task keeps the invariant. */
  lemma {:induction false} StepKeepsInv(s: State, op: Op)
    requires Inv(s) && Next(s, op).Some?
    ensures Inv(Next(s, op).value)
  {
    CountsKept(s, op);
    CacheKept(s, op);
    RangeKept(s, op);
    hide Counted, ClosedOnce, CacheIsLive, InRange, Next;
  }

  lemma {:induction false} ReachableInv(ops: seq<Op>)
    requires Exec(ops).Some?
    ensures Inv(Exec(ops).value)
  {
    if ops == [] {
      assert Inv(Initial());
    } else {
      ReachableInv(ops[..|ops| - 1]);
      StepKeepsInv(Exec(ops[..|ops| - 1]).value, ops[|ops| - 1]);
    }
  }

  // ---------------------------------------------------------------- what the pool promises

  /** In every interleaving: the count is the number of tasks inside, and neither they nor the cache see a closed
      entry. */
  lemma {:induction false} NoUseAfterClose(ops: seq<Op>, e: EntryId)
    requires Exec(ops).Some? && e < |Exec(ops).value.entries|
    ensures var s := Exec(ops).value;
      && s.entries[e].leases == |At(s.tasks, Inside(e))|
      && (forall t | t in s.tasks && s.tasks[t] == Inside(e) :: s.entries[e].leases >= 1 && s.entries[e].closed == 0)
      && (forall tenant | tenant in s.cache && s.cache[tenant] == e :: s.entries[e].closed == 0)
  {
    var s := Exec(ops).value;
    ReachableInv(ops);
    forall t | t in s.tasks && s.tasks[t] == Inside(e)
      ensures s.entries[e].leases >= 1 && s.entries[e].closed == 0
    {
      SomeoneInside(s, t);
    }
  }

  /** An entry is closed at most once, only after it was retired and its last lease left, and by then always. */
  lemma {:induction false} RetiredEntriesCloseOnce(ops: seq<Op>, e: EntryId)
    requires Exec(ops).Some? && e < |Exec(ops).value.entries|
    ensures var s := Exec(ops).value;
      && s.entries[e].closed <= 1
      && (s.entries[e].closed == 1 ==> Done(s.entries[e]))
      && (Done(s.entries[e]) ==>
           (s.entries[e].closed == 1 <==> forall t | t in s.tasks :: s.tasks[t] != Closing(e)))
      && (forall t, u | t in s.tasks && u in s.tasks && s.tasks[t] == s.tasks[u] == Closing(e) :: t == u)
  {
    var s := Exec(ops).value;
    ReachableInv(ops);
    var closers := At(s.tasks, Closing(e));
    assert s.entries[e].closed + |closers| == if Done(s.entries[e]) then 1 else 0;
    forall t, u | t in s.tasks && u in s.tasks && s.tasks[t] == s.tasks[u] == Closing(e)
      ensures t == u
    {
      assert t in closers && u in closers;
      if t != u { assert |{t, u}| == 2; SubsetSize({t, u}, closers); }
    }
    if closers != {} { var t :| t in closers; assert t in s.tasks && s.tasks[t] == Closing(e); }
    forall t | t in s.tasks && s.tasks[t] == Closing(e)
      ensures t in closers
    {
    }
  }

  lemma {:induction false} SubsetSize(a: set<Task>, b: set<Task>)
    requires a <= b
    ensures |a| <= |b|
  {
    assert b == a + (b - a) && a !! (b - a);
  }

  /** What one step can never undo: a retired entry stays retired and takes no new lease, a close is final. */
  predicate Settles(a: Entry, b: Entry) {
    && a.closed <= b.closed
    && (a.retired ==> b.retired && b.leases <= a.leases)
  }

  lemma {:induction false} RetiredForGood(ops: seq<Op>, more: seq<Op>, e: EntryId)
    requires Exec(ops).Some? && Exec(ops + more).Some? && e < |Exec(ops).value.entries|
    ensures e < |Exec(ops + more).value.entries|
    ensures Settles(Exec(ops).value.entries[e], Exec(ops + more).value.entries[e])
    ensures Exec(ops).value.entries[e].retired ==>
      forall tenant | tenant in Exec(ops + more).value.cache :: Exec(ops + more).value.cache[tenant] != e
  {
    if more == [] {
      assert ops + more == ops;
      ReachableInv(ops);
    } else {
      var init := more[..|more| - 1];
      assert (ops + more)[..|ops + more| - 1] == ops + init;
      RetiredForGood(ops, init, e);
      ReachableInv(ops + init);
      ReachableInv(ops + more);
      var s, op := Exec(ops + init).value, more[|more| - 1];
      assert Next(s, op) == Exec(ops + more);
      if op.task in s.tasks { SomeoneInside(s, op.task); }
    }
  }
}
