/**
  Many executors and closers on one run row. Ownership is nothing but the version a party holds; reads, claims
  and touches interleave freely, and parties may die at any moment. Each attempt is a party of its own.
*/
module Ownership {
  import opened Base
  import opened Stores

  /** An executor has seen the row it is about to claim; a closer has found the row it is about to close. */
  datatype Phase =
    | Fresh
    | Seen(row: RunRow)
    | Found(row: RunRow)
    | Owner(version: int)
    | Gone

  type Party = nat

  /** A successful compare-and-swap: who made it, and the version it produced. */
  datatype Win = Win(party: Party, version: int)

  /** `first` is the version the row had at the beginning; `log` lists the successful writes in order. */
  datatype State = State(row: RunRow, phases: map<Party, Phase>, first: int, log: seq<Win>)

  datatype Op =
    | LoadForRun(p: Party)
    | LoadForClosing(p: Party)
    | Claim(p: Party, worker: string)
    | Advance(p: Party, node: string)
    | Finish(p: Party)
    | Fail(p: Party, step: string, cause: string)
    | Close(p: Party, reason: string)
    | Die(p: Party)

  function PhaseOf(s: State, p: Party): Phase {
    if p in s.phases then s.phases[p] else Fresh
  }

  function Enter(s: State, p: Party, phase: Phase): State {
    s.(phases := s.phases[p := phase])
  }

  /** The outcome of a conditional write: on success the row moves and the win is logged. */
  function Written(s: State, p: Party, r: Option<RunRow>, won: Phase): State {
    match r
    case None => Enter(s, p, Gone)
    case Some(row) => Enter(s, p, won).(row := row, log := s.log + [Win(p, row.version)])
  }

  /** One store operation of one party; None when the party is not in a position to make it. */
  function Next(s: State, op: Op): Option<State> {
    var phase := PhaseOf(s, op.p);
    match op
    case LoadForRun(p) =>
      if !phase.Fresh? then None
      else Some(Enter(s, p, if s.row.status == COMPLETED then Gone else Seen(s.row)))
    case LoadForClosing(p) =>
      if !phase.Fresh? then None
      else Some(Enter(s, p, if s.row.status == RUNNING then Found(s.row) else Gone))
    case Claim(p, worker) =>
      if !phase.Seen? then None
      else Some(Written(s, p, ClaimRow(s.row, phase.row.version, worker), Owner(phase.row.version + 1)))
    case Advance(p, node) =>
      if !phase.Owner? then None
      else Some(Written(s, p, TouchRow(s.row, phase.version, Some(node), RUNNING, None), Owner(phase.version + 1)))
    case Finish(p) =>
      if !phase.Owner? then None
      else Some(Written(s, p, TouchRow(s.row, phase.version, None, COMPLETED, None), Gone))
    case Fail(p, step, cause) =>
      if !phase.Owner? then None
      else Some(Written(s, p, TouchRow(s.row, phase.version, Some(step), FAILED, Some(cause)), Gone))
    case Close(p, reason) =>
      if !phase.Found? then None
      else Some(Written(s, p, TouchRow(s.row, phase.row.version, phase.row.current, FAILED, Some(reason)), Gone))
    case Die(p) => Some(Enter(s, p, Gone))
  }

  function Exec(s: State, ops: seq<Op>): Option<State>
    decreases |ops|
  {
    if ops == [] then Some(s)
    else
      match Next(s, ops[0])
      case None => None
      case Some(s') => Exec(s', ops[1..])
  }

  // ---------------------------------------------------------------- the invariant

  /** The log counts the versions up, one by one, from the first to the present one. */
  predicate Counted(s: State) {
    && s.row.version == s.first + |s.log|
    && forall i | 0 <= i < |s.log| :: s.log[i].version == s.first + 1 + i
  }

  /** The version an owner holds is one it won itself. */
  predicate OwnersWon(s: State) {
    forall p | p in s.phases && s.phases[p].Owner? ::
      var i := s.phases[p].version - s.first - 1;
      0 <= i < |s.log| && s.log[i].party == p
  }

  /** What a party has read is the row as it is, or an older version of it. */
  predicate SeenIsPast(s: State) {
    forall p | p in s.phases && (s.phases[p].Seen? || s.phases[p].Found?) ::
      s.phases[p].row.version < s.row.version || s.phases[p].row == s.row
  }

  /** Executors are about to claim runs that were not completed, closers to close runs that were running; an owner's
      run is running until somebody else writes it. */
  predicate ReadsAreFit(s: State) {
    forall p | p in s.phases ::
      && (s.phases[p].Seen? ==> s.phases[p].row.status != COMPLETED)
      && (s.phases[p].Found? ==> s.phases[p].row.status == RUNNING)
      && (s.phases[p].Owner? && s.phases[p].version == s.row.version ==> s.row.status == RUNNING)
  }

  /** The version at which a party could write the row. */
  function Held(phase: Phase): Option<int> {
    match phase
    case Seen(row) => Some(row.version)
    case Found(row) => Some(row.version)
    case Owner(v) => Some(v)
    case _ => None
  }

  /** Nobody is in a position to write a completed row. */
  predicate CompletedIsClosed(s: State) {
    s.row.status == COMPLETED ==> forall p | p in s.phases :: Held(s.phases[p]) != Some(s.row.version)
  }

  predicate Inv(s: State) {
    Counted(s) && OwnersWon(s) && SeenIsPast(s) && ReadsAreFit(s) && CompletedIsClosed(s)
  }

  function Initial(row: RunRow): State {
    State(row, map[], row.version, [])
  }

  lemma {:induction false} WrittenInv(s: State, p: Party, r: Option<RunRow>, won: Phase)
    requires Inv(s) && p in s.phases
    requires r.Some? ==> r.value.version == s.row.version + 1 && (won == Gone || won == Owner(s.row.version + 1))
    requires r.Some? && r.value.status == COMPLETED ==> won == Gone
    requires r.Some? && won.Owner? ==> r.value.status == RUNNING
    ensures Inv(Written(s, p, r, won))
  {
  }

  lemma {:induction false} EnterInv(s: State, p: Party, phase: Phase)
    requires Inv(s) && (phase.Gone? || phase.Seen? || phase.Found?)
    requires phase.Seen? ==> phase.row == s.row && s.row.status != COMPLETED
    requires phase.Found? ==> phase.row == s.row && s.row.status == RUNNING
    ensures Inv(Enter(s, p, phase))
  {
  }

  lemma {:induction false} ReadInv(s: State, op: Op)
    requires Inv(s) && Next(s, op).Some? && (op.LoadForRun? || op.LoadForClosing? || op.Die?)
    ensures Inv(Next(s, op).value)
  {
    hide Inv;
    match op
    case LoadForRun(p) => EnterInv(s, p, if s.row.status == COMPLETED then Gone else Seen(s.row));
    case LoadForClosing(p) => EnterInv(s, p, if s.row.status == RUNNING then Found(s.row) else Gone);
    case Die(p) => EnterInv(s, p, Gone);
  }

  lemma {:induction false} NextInv(s: State, op: Op)
    requires Inv(s) && Next(s, op).Some?
    ensures Inv(Next(s, op).value)
  {
    hide Written, Counted, OwnersWon, SeenIsPast, ReadsAreFit, CompletedIsClosed;
    var phase := PhaseOf(s, op.p);
    match op
    case LoadForRun(p) => ReadInv(s, op);
    case LoadForClosing(p) => ReadInv(s, op);
    case Die(p) => ReadInv(s, op);
    case Claim(p, worker) => WrittenInv(s, p, ClaimRow(s.row, phase.row.version, worker), Owner(phase.row.version + 1));
    case Advance(p, node) =>
      WrittenInv(s, p, TouchRow(s.row, phase.version, Some(node), RUNNING, None), Owner(phase.version + 1));
    case Finish(p) => WrittenInv(s, p, TouchRow(s.row, phase.version, None, COMPLETED, None), Gone);
    case Fail(p, step, cause) => WrittenInv(s, p, TouchRow(s.row, phase.version, Some(step), FAILED, Some(cause)),
                                            Gone);
    case Close(p, reason) =>
      WrittenInv(s, p, TouchRow(s.row, phase.row.version, phase.row.current, FAILED, Some(reason)), Gone);
  }

  /** The invariant holds in every interleaving. */
  lemma {:induction false} AlwaysInv(s: State, ops: seq<Op>)
    requires Inv(s) && Exec(s, ops).Some?
    ensures Inv(Exec(s, ops).value)
    decreases |ops|
  {
    hide Next, Inv;
    if ops != [] {
      NextInv(s, ops[0]);
      AlwaysInv(Next(s, ops[0]).value, ops[1..]);
    }
  }

  // ---------------------------------------------------------------- what a win means

  /** Whoever wins, the row then says what it came to say, and it was in a state in which that may be said: an
      executor claims a run that is not completed, and a run is finished, failed or closed while it is running. */
  ghost predicate Wins(before: RunRow, op: Op, after: RunRow) {
    && after.version == before.version + 1
    && match op
       case Claim(_, worker) =>
         && before.status != COMPLETED && after.status == RUNNING && after.claimedBy == Some(worker)
         && after.current == before.current && after.error == before.error
       case Advance(_, node) =>
         before.status == after.status == RUNNING && after.current == Some(node) && after.error == None
       case Finish(_) =>
         before.status == RUNNING && after.status == COMPLETED && after.current == None && after.error == None
       case Fail(_, step, cause) =>
         && before.status == RUNNING && after.status == FAILED && after.current == Some(step)
         && IsStored(after.error, Some(cause))
       case Close(_, reason) =>
         && before.status == RUNNING && after.status == FAILED && after.current == before.current
         && IsStored(after.error, Some(reason))
       case _ => false
  }

  /** In every interleaving a step either leaves the row alone and wins nothing, or wins so. */
  lemma {:induction false} WinsAreWritten(row: RunRow, ops: seq<Op>, op: Op)
    requires Exec(Initial(row), ops).Some? && Next(Exec(Initial(row), ops).value, op).Some?
    ensures var s := Exec(Initial(row), ops).value;
      var s' := Next(s, op).value;
      if s'.log == s.log then s'.row == s.row
      else s'.log == s.log + [Win(op.p, s'.row.version)] && Wins(s.row, op, s'.row)
  {
    AlwaysInv(Initial(row), ops);
    hide Exec, Counted, OwnersWon, CompletedIsClosed;
  }

  // ---------------------------------------------------------------- a closer that nobody races

  /** `_fail_abandoned_run`: a run that is still running is failed where it stands, any other is left alone. */
  method FailAbandonedRun(runs: RunStore, reason: string)
    modifies runs
    ensures var s := Next(Initial(old(runs.row)), LoadForClosing(0)).value;
      var closed := Next(s, Close(0, reason));
      runs.row == if closed.Some? then closed.value.row else s.row
    ensures old(runs.row.status) != RUNNING ==> runs.row == old(runs.row)
    ensures old(runs.row.status) == RUNNING ==> Wins(old(runs.row), Close(0, reason), runs.row)
  {
    var found := runs.row;
    if found.status != RUNNING {
      return;
    }
    var _ := runs.Touch(found.version, found.current, FAILED, Some(reason));
  }

  // ---------------------------------------------------------------- ownership

  /** In every interleaving each version is won by exactly one write, and the row moves with no other. */
  lemma {:induction false} EachVersionWonOnce(row: RunRow, ops: seq<Op>, i: nat, j: nat)
    requires Exec(Initial(row), ops).Some?
    requires var s := Exec(Initial(row), ops).value; i < |s.log| && j < |s.log|
    ensures var s := Exec(Initial(row), ops).value;
            && (s.log[i].version == s.log[j].version ==> i == j)
            && s.row.version == row.version + |s.log|
  {
    AlwaysInv(Initial(row), ops);
    FirstKept(Initial(row), ops);
  }

  lemma {:induction false} FirstKept(s: State, ops: seq<Op>)
    requires Exec(s, ops).Some?
    ensures Exec(s, ops).value.first == s.first
    decreases |ops|
  {
    if ops != [] {
      FirstKept(Next(s, ops[0]).value, ops[1..]);
    }
  }

  /** At most one party owns the present version of the row. */
  lemma {:induction false} OneOwner(row: RunRow, ops: seq<Op>, p: Party, q: Party)
    requires Exec(Initial(row), ops).Some?
    requires var s := Exec(Initial(row), ops).value;
             PhaseOf(s, p) == Owner(s.row.version) && PhaseOf(s, q) == Owner(s.row.version)
    ensures p == q
  {
    AlwaysInv(Initial(row), ops);
  }

  /** A party whose attempt is over, or whose version has been overtaken. */
  predicate OutOfDate(s: State, p: Party) {
    var phase := PhaseOf(s, p);
    phase.Gone? || (Held(phase).Some? && Held(phase).value < s.row.version)
  }

  lemma {:induction false} StaysOutOfDate(s: State, op: Op, p: Party)
    requires Inv(s) && Next(s, op).Some? && OutOfDate(s, p)
    ensures var s' := Next(s, op).value;
            && OutOfDate(s', p)
            && s.log <= s'.log && (forall i | |s.log| <= i < |s'.log| :: s'.log[i].party != p)
            && (op.p == p ==> s'.row == s.row)
  {
  }

  /** Whoever has lost the row never writes it again. */
  lemma {:induction false} LosersNeverWrite(s: State, ops: seq<Op>, p: Party)
    requires Inv(s) && Exec(s, ops).Some? && OutOfDate(s, p)
    ensures var s' := Exec(s, ops).value;
            && OutOfDate(s', p)
            && s.log <= s'.log && forall i | |s.log| <= i < |s'.log| :: s'.log[i].party != p
    decreases |ops|
  {
    hide Next, Inv, OutOfDate;
    if ops != [] {
      StaysOutOfDate(s, ops[0], p);
      NextInv(s, ops[0]);
      LosersNeverWrite(Next(s, ops[0]).value, ops[1..], p);
    }
  }

  // ---------------------------------------------------------------- COMPLETED

  lemma {:induction false} CompletedStep(s: State, op: Op)
    requires Inv(s) && s.row.status == COMPLETED && Next(s, op).Some?
    ensures Next(s, op).value.row == s.row
  {
  }

  /** A completed run stays as it is in every interleaving, although neither write looks at the status. */
  lemma {:induction false} CompletedIsForever(s: State, ops: seq<Op>)
    requires Inv(s) && s.row.status == COMPLETED && Exec(s, ops).Some?
    ensures Exec(s, ops).value.row == s.row
    decreases |ops|
  {
    hide Next, Inv;
    if ops != [] {
      CompletedStep(s, ops[0]);
      NextInv(s, ops[0]);
      CompletedIsForever(Next(s, ops[0]).value, ops[1..]);
    }
  }
}
