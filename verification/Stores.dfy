/** The run row and the step table: the two stores an executor works against, one atomic operation a call. */
module Stores {
  import opened Base
  import opened Machine

  datatype RunStatus = PENDING | RUNNING | COMPLETED | FAILED

  datatype RunRow = RunRow(
    status: RunStatus,
    current: Option<string>,
    version: int,
    claimedBy: Option<string>,
    error: Option<string>)

  const MAX_ERROR := 2000

  /** The error column is truncated, and an empty error is no error. */
  function StoredError(error: Option<string>): Option<string> {
    if error.None? || error.value == "" then None
    else if |error.value| <= MAX_ERROR then error
    else Some(error.value[..MAX_ERROR])
  }

  /** Optimistic pickup; None when the version has moved on. */
  function ClaimRow(row: RunRow, expected: int, worker: string): Option<RunRow> {
    if row.version != expected then None
    else Some(row.(version := expected + 1, status := RUNNING, claimedBy := Some(worker)))
  }

  /** Progress and ownership in one; None when the version has moved on. */
  function TouchRow(row: RunRow, expected: int, current: Option<string>, status: RunStatus,
                    error: Option<string>): Option<RunRow> {
    if row.version != expected then None
    else Some(row.(version := expected + 1, current := current, status := status, error := StoredError(error)))
  }

  /** `stored` is what the error column keeps of `error`: nothing of an empty one, else its first 2000 characters. */
  predicate IsStored(stored: Option<string>, error: Option<string>) {
    if error.None? || error.value == "" then stored == None
    else
      && stored.Some? && stored.value <= error.value
      && |stored.value| == if |error.value| < 2000 then |error.value| else 2000
  }

  class RunStore {
    var row: RunRow

    constructor (row: RunRow)
      ensures this.row == row
    {
      this.row := row;
    }

    method Claim(expected: int, worker: string) returns (won: Option<int>)
      modifies this
      ensures var r := ClaimRow(old(row), expected, worker);
              row == (if r.Some? then r.value else old(row))
              && won == if r.Some? then Some(r.value.version) else None
      ensures won.Some? <==> old(row.version) == expected
      ensures won.Some? ==>
                && won.value == row.version == expected + 1 && row.status == RUNNING
                && row.claimedBy == Some(worker) && row.current == old(row.current) && row.error == old(row.error)
    {
      if row.version != expected {
        return None;
      }
      row := row.(version := expected + 1, status := RUNNING, claimedBy := Some(worker));
      won := Some(expected + 1);
    }

    method Touch(expected: int, current: Option<string>, status: RunStatus,
                 error: Option<string>) returns (won: Option<int>)
      modifies this
      ensures var r := TouchRow(old(row), expected, current, status, error);
              row == (if r.Some? then r.value else old(row))
              && won == if r.Some? then Some(r.value.version) else None
      ensures won.Some? <==> old(row.version) == expected
      ensures won.Some? ==>
                && won.value == row.version == expected + 1 && row.current == current && row.status == status
                && IsStored(row.error, error) && row.claimedBy == old(row.claimedBy)
    {
      if row.version != expected {
        return None;
      }
      row := row.(version := expected + 1, current := current, status := status, error := StoredError(error));
      won := Some(expected + 1);
    }
  }

  class StepStore {
    var table: map<StepKey, Row>

    constructor ()
      ensures table == map[]
    {
      table := map[];
    }

    /** Insert a RUNNING row unless there is one; true iff this call inserted it. */
    method ClaimStep(key: StepKey) returns (claimed: bool)
      modifies this
      ensures claimed == (key !in old(table))
      ensures table == if claimed then old(table)[key := Running] else old(table)
    {
      claimed := key !in table;
      if claimed {
        table := table[key := Running];
      }
    }

    method GetStep(key: StepKey) returns (row: Option<Row>)
      ensures row == Lookup(table, key)
    {
      row := Lookup(table, key);
    }

    /** An UPDATE by key: without a row it changes nothing. */
    method CompleteStep(key: StepKey, output: Output)
      modifies this
      ensures table == if key in old(table) then old(table)[key := Completed(output)] else old(table)
    {
      if key in table {
        table := table[key := Completed(output)];
      }
    }
  }
}
