/** A row of the `time_logs` table as the tracker reads and writes it. */
module Entries {

  import opened Wrappers
  import opened TimeOfDay

  /** One attendance record. `clockOut` and `hours` are absent while the
      entry is open; `hours` is what Time-Out computed. */
  datatype Row = Row(
    id: nat,
    userId: string,
    date: string,
    clockIn: Option<string>,
    clockOut: Option<string>,
    hours: Option<Hours>)

  /** JavaScript truthiness of an optional text field: `null`, `undefined`
      and the empty string are false. */
  predicate Truthy(f: Option<string>) {
    f.Some? && f.value != ""
  }

  /** The test `!entry.clock_out` that status derivation uses. */
  predicate IsOpen(r: Row) {
    !Truthy(r.clockOut)
  }
}
