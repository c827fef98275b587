# CalcList: an undo-log calculator

`CalcList` keeps a running total and a log of the operations that produced
it. Each call of `newOperation(func, operand)` applies one of four
operations (addition, subtraction, multiplication, division) to the total.
It then appends an entry to a doubly linked list bounded by two sentinel
nodes. The entry records the operation, the operand and the total *before*
the operation. `removeLastOperation` undoes the newest entry: it restores
the total that entry recorded and unlinks the node. `toString` walks the
list from the newest entry back to the oldest and prints one numbered line
per entry. A division by zero is rejected with an invalid-argument error
before anything changes. Undoing on an empty list is an out-of-range error.

The model has two modules:

- `Calculation` (`Calculation.dfy`) holds the value-level part. It defines
  the operations (`Func`), the entries (`Entry`, with the same three fields
  as `CalcEntry`) and `Calculate`, which rejects a division by zero, and
  `OpCharacter`. It states the log invariant `Chain`: the first entry starts
  from 0, each later entry starts from the result of the one before it, the
  total is the result of the last entry, and no entry divides by zero.
  `Replay` is an independent reference for it: it folds the logged
  operations over 0. `Record` and `Undo` are the state transitions as
  functions on a `Log` value. `Report` gives the lines of the printed
  report.
- `CalcLists` (`CalcList.dfy`) holds the class `CalcList`. Its fields
  `entries`, `currentTotal` and `numOperations` are updated in place by
  `NewOperation`, `RemoveLastOperation` and `Remove`. The sentinel-bounded
  node chain becomes the sequence `entries`, oldest first: the header's
  successor is `entries[0]` and the trailer's predecessor is the last
  element. `Valid()` is the object invariant: `numOperations` equals the
  number of entries, and the log is a `Chain` ending at `currentTotal`.

Values are modelled as `real`. Errors are modelled as return values
(`Outcome` and `Result`) instead of exceptions. On an error the state is
unchanged, as in the source, where the exception is raised before any
field is assigned.

## Model

| member | source | states |
|---|---|---|
| `Calculation.Calculate` | CalcList/CalcList.cpp:142-170 | fails exactly when the operation is a division and the second operand is 0, and the error is the "Cannot divide by zero." invalid argument |
| `Calculation.OpCharacter` | CalcList/CalcList.cpp:120-139 | the operator character is one of `+ - * /` |
| `Calculation.OpCharacterInjective` | CalcList/CalcList.cpp:123-137 | two operations are printed with the same character exactly when they are the same operation |
| `Calculation.ChainIffReplay` | CalcList/CalcList.cpp:38-65 | the log invariant holds exactly when replaying all logged operations from 0 gives the total, and replaying each prefix gives the `prevTotal` stored by the entry that follows it |
| `Calculation.Record` | CalcList/CalcList.cpp:38-65 | recording fails exactly on a division by zero; otherwise the log is the old log plus one entry holding the operand, the operation and the old total |
| `Calculation.Undo` | CalcList/CalcList.cpp:68-77 | undoing fails exactly on an empty log, with the "There are no operations to remove." out-of-range error |
| `Calculation.EmptyLogChain` | CalcList/CalcList.cpp:13-24 | the empty log with total 0 satisfies the log invariant |
| `Calculation.RecordPreservesChain` | CalcList/CalcList.cpp:38-65 | a recording that does not divide by zero succeeds, its total is the calculated value, and the log invariant still holds |
| `Calculation.UndoPreservesChain` | CalcList/CalcList.cpp:68-77 | undoing on a non-empty log keeps the log invariant |
| `Calculation.UndoRecord` | CalcList/CalcList.cpp:38-77 | undoing right after a successful recording gives back exactly the earlier log and total |
| `Calculation.ReportAt` | CalcList/CalcList.cpp:80-96 | the report has one line per entry; line k describes entry n-1-k (newest first) and carries number n-k |
| `Calculation.ReportResults` | CalcList/CalcList.cpp:86-93 | under the log invariant, each line's recomputed result equals the `prevTotal` of the next newer line, and the newest line's result equals the running total |
| `CalcLists.CalcList.constructor` | CalcList/CalcList.cpp:13-24 | a new calculator has no entries, total 0 and count 0, and satisfies the object invariant |
| `CalcLists.CalcList.Total` | CalcList/CalcList.hpp:42 | the total, which reads no more than the object, is what replaying the logged operations from 0 gives |
| `CalcLists.CalcList.Empty` | CalcList/CalcList.cpp:101-104 | true exactly when no entry lies between the sentinels, in any state; when the object invariant holds, exactly when the operation count is 0 |
| `CalcLists.CalcList.NewOperation` | CalcList/CalcList.cpp:38-65 | on a division by zero: the invalid-argument error, with entries, total and count unchanged. Otherwise: one entry (operand, operation, old total) is appended, earlier entries are untouched, the total is the calculated value and the count is one more. The object invariant is kept. |
| `CalcLists.CalcList.RemoveLastOperation` | CalcList/CalcList.cpp:68-77 | on an empty list: the out-of-range error, with nothing changed. Otherwise: the total becomes the last entry's `prevTotal`, the last entry is dropped, the others are untouched, and the count is one less. The object invariant is kept. |
| `CalcLists.CalcList.Remove` | CalcList/CalcList.cpp:107-117 | unlinks exactly the given entry, decrements the count and leaves the total alone |
| `CalcLists.CalcList.ToLines` | CalcList/CalcList.cpp:80-96 | walking newest to oldest while counting down from `numOperations` produces exactly `Report(entries)`; it never meets a division by zero |
| `CalcLists.UndoRestores` | CalcList/CalcList.cpp:38-77 | `newOperation` followed by `removeLastOperation` restores the exact entries, total and count (a rejected operation changes nothing) |

## Left out

- IEEE-754 `double` arithmetic (rounding, NaN, infinities, `-0.0 == 0`): values are exact `real`s. The undo and chain properties rest on stored totals, not on rounding.
- Text formatting in `toString`: the `precision` argument, `std::fixed`, `std::setprecision` and string building. `ToLines` returns the sequence of line tuples (number, previous total, operator character, operand, result) instead of one string.
- The destructor's teardown loop, `new`/`delete` and the raw `prev`/`next` sentinel pointers. The list is a sequence, so the mutual consistency of the links holds by construction and is not stated separately.
- The catch-and-rethrow in `newOperation`: exceptions are modelled as `Failed`/`Failure` results carrying the source's error kind and message.
- `CalcListInterface.hpp` is not part of this model. Only the four operation values used in the switches are modelled.
- Access control: `empty`, `remove`, `calculate` and `getOpCharacter` are private helpers in the source. Here they are ordinary members (`Calculate` and `OpCharacter` are module-level functions).
- The 32-bit `int` width of `numOperations`: the count is an unbounded integer. No overflow is modelled.
