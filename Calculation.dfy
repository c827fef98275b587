/**
  The value-level part of the calculator: the four operations, the entries
  the undo log stores, the arithmetic that may reject a division by zero,
  and the invariant that ties a log of entries to the running total.
 */
module Calculation {

  /** The four operations a calculator entry can record. */
  datatype Func = Addition | Subtraction | Multiplication | Division

  /** The errors the calculator raises, with the messages it raises them with. */
  datatype CalcError =
    | InvalidArgument(message: string)
    | OutOfRange(message: string)

  const DivideByZero := InvalidArgument("Cannot divide by zero.")
  const NothingToRemove := OutOfRange("There are no operations to remove.")

  datatype Result<+T> = Success(value: T) | Failure(error: CalcError)

  /** One logged operation: the operand, the operation and the total before it. */
  datatype Entry = Entry(value: real, operation: Func, prevTotal: real)

  /** True when applying `func` with `operand2` would divide by zero. */
  predicate DividesByZero(operand2: real, func: Func)
  {
    func == Division && operand2 == 0.0
  }

  /** Applies `func` to the two operands; only a division by zero is rejected. */
  function Calculate(operand1: real, operand2: real, func: Func): (r: Result<real>)
    ensures r.Failure? <==> DividesByZero(operand2, func)
    ensures r.Failure? ==> r.error == DivideByZero
  {
    match func
    case Addition => Success(operand1 + operand2)
    case Subtraction => Success(operand1 - operand2)
    case Multiplication => Success(operand1 * operand2)
    case Division =>
      if operand2 == 0.0 then Failure(DivideByZero) else Success(operand1 / operand2)
  }

  /** The character printed for each operation. */
  function OpCharacter(func: Func): (c: char)
    ensures c in "+-*/"
  {
    match func
    case Addition => '+'
    case Subtraction => '-'
    case Multiplication => '*'
    case Division => '/'
  }

  /** Distinct operations are printed with distinct characters. */
  lemma OpCharacterInjective(f: Func, g: Func)
    ensures OpCharacter(f) == OpCharacter(g) <==> f == g
  {
  }

  /** The result of re-applying an entry to the total it recorded. */
  function Applied(e: Entry): Result<real>
  {
    Calculate(e.prevTotal, e.value, e.operation)
  }

  /**
    The log invariant: no entry divides by zero, the first entry starts from
    0, each later entry starts from the result of the one before it, and the
    running total is the result of the last entry (0 for an empty log).
   */
  predicate Chain(entries: seq<Entry>, total: real)
  {
    && (forall i :: 0 <= i < |entries| ==> !DividesByZero(entries[i].value, entries[i].operation))
    && (forall i :: 0 < i < |entries| ==> entries[i].prevTotal == Applied(entries[i - 1]).value)
    && (if entries == [] then total == 0.0
        else entries[0].prevTotal == 0.0 && total == Applied(entries[|entries| - 1]).value)
  }

  /** The total obtained by applying the logged operations in order, starting from 0. */
  function Replay(entries: seq<Entry>): Result<real>
  {
    if entries == [] then Success(0.0)
    else
      var last := entries[|entries| - 1];
      match Replay(entries[..|entries| - 1])
      case Failure(e) => Failure(e)
      case Success(t) => Calculate(t, last.value, last.operation)
  }

  /** Every stored previous total is the replay of the entries before it. */
  ghost predicate PrefixesReplay(entries: seq<Entry>)
  {
    forall i :: 0 <= i < |entries| ==> Replay(entries[..i]) == Success(entries[i].prevTotal)
  }

  /** Dropping the newest entry leaves a chain ending at the total that entry started from. */
  lemma ChainInit(entries: seq<Entry>, total: real)
    requires Chain(entries, total)
    requires entries != []
    ensures Chain(entries[..|entries| - 1], entries[|entries| - 1].prevTotal)
  {
  }

  /** Appending an entry that starts from the total extends the chain to its result. */
  lemma ChainSnoc(init: seq<Entry>, last: Entry, total: real)
    requires Chain(init, last.prevTotal)
    requires Applied(last) == Success(total)
    ensures Chain(init + [last], total)
  {
  }

  /** The prefix property of a log splits into that of its older part and its newest entry. */
  lemma PrefixesReplaySnoc(init: seq<Entry>, last: Entry)
    ensures PrefixesReplay(init + [last])
        <==> PrefixesReplay(init) && Replay(init) == Success(last.prevTotal)
  {
    var entries := init + [last];
    assert entries[..|init|] == init;
    if PrefixesReplay(entries) {
      forall i | 0 <= i < |init|
        ensures Replay(init[..i]) == Success(init[i].prevTotal)
      {
        assert entries[..i] == init[..i] && entries[i] == init[i];
      }
      assert Replay(entries[..|init|]) == Success(entries[|init|].prevTotal);
    }
    if PrefixesReplay(init) && Replay(init) == Success(last.prevTotal) {
      forall i | 0 <= i < |entries|
        ensures Replay(entries[..i]) == Success(entries[i].prevTotal)
      {
        if i < |init| {
          assert entries[..i] == init[..i] && entries[i] == init[i];
        }
      }
    }
  }

  /** The chain invariant holds exactly when the log agrees with a replay of its operations. */
  lemma {:induction false} ChainIffReplay(entries: seq<Entry>, total: real)
    ensures Chain(entries, total) <==> Replay(entries) == Success(total) && PrefixesReplay(entries)
  {
    if entries != [] {
      var n := |entries| - 1;
      var init, last := entries[..n], entries[n];
      assert entries == init + [last];
      PrefixesReplaySnoc(init, last);
      ChainIffReplay(init, last.prevTotal);
      if Chain(entries, total) {
        ChainInit(entries, total);
      }
      if Replay(entries) == Success(total) && PrefixesReplay(entries) {
        ChainSnoc(init, last, total);
      }
    }
  }

  /** The state the calculator keeps: the log of entries and the running total. */
  datatype Log = Log(entries: seq<Entry>, total: real)

  const EmptyLog := Log([], 0.0)

  /** Records one operation: rejected on division by zero, otherwise appended. */
  function Record(log: Log, func: Func, operand: real): (r: Result<Log>)
    ensures r.Failure? <==> DividesByZero(operand, func)
    ensures r.Success? ==> r.value.entries == log.entries + [Entry(operand, func, log.total)]
  {
    match Calculate(log.total, operand, func)
    case Failure(e) => Failure(e)
    case Success(t) => Success(Log(log.entries + [Entry(operand, func, log.total)], t))
  }

  /** Undoes the newest operation, restoring the total it recorded. */
  function Undo(log: Log): (r: Result<Log>)
    ensures r.Failure? <==> log.entries == []
    ensures r.Failure? ==> r.error == NothingToRemove
  {
    if log.entries == [] then Failure(NothingToRemove)
    else
      var n := |log.entries| - 1;
      Success(Log(log.entries[..n], log.entries[n].prevTotal))
  }

  /** The empty log satisfies the chain invariant. */
  lemma EmptyLogChain()
    ensures Chain(EmptyLog.entries, EmptyLog.total)
  {
  }

  /** Recording an operation keeps the chain invariant and yields the calculated total. */
  lemma RecordPreservesChain(log: Log, func: Func, operand: real)
    requires Chain(log.entries, log.total)
    requires !DividesByZero(operand, func)
    ensures Record(log, func, operand).Success?
    ensures Record(log, func, operand).value.total == Calculate(log.total, operand, func).value
    ensures Chain(Record(log, func, operand).value.entries, Record(log, func, operand).value.total)
  {
  }

  /** Undoing an operation keeps the chain invariant. */
  lemma UndoPreservesChain(log: Log)
    requires Chain(log.entries, log.total)
    requires log.entries != []
    ensures Chain(Undo(log).value.entries, Undo(log).value.total)
  {
  }

  /** Undo after a successful Record restores exactly the log before it. */
  lemma UndoRecord(log: Log, func: Func, operand: real)
    requires Record(log, func, operand).Success?
    ensures Undo(Record(log, func, operand).value) == Success(log)
  {
  }

  /** One line of the report: its number, the stored total, the operator, the operand and the result. */
  datatype Line = Line(number: int, prevTotal: real, op: char, operand: real, result: real)

  /** The report line numbered `number` for an entry that does not divide by zero. */
  function LineOf(number: int, e: Entry): Line
    requires !DividesByZero(e.value, e.operation)
  {
    Line(number, e.prevTotal, OpCharacter(e.operation), e.value, Applied(e).value)
  }

  /** The report of a log: one line per entry, newest first, numbered from the count down to 1. */
  function Report(entries: seq<Entry>): (lines: seq<Line>)
    requires forall i :: 0 <= i < |entries| ==> !DividesByZero(entries[i].value, entries[i].operation)
  {
    if entries == [] then []
    else
      var n := |entries| - 1;
      [LineOf(|entries|, entries[n])] + Report(entries[..n])
  }

  /** Line k of the report describes entry |entries|-1-k and carries number |entries|-k. */
  lemma {:induction false} ReportAt(entries: seq<Entry>, k: int)
    requires forall i :: 0 <= i < |entries| ==> !DividesByZero(entries[i].value, entries[i].operation)
    requires 0 <= k < |entries|
    ensures |Report(entries)| == |entries|
    ensures Report(entries)[k] == LineOf(|entries| - k, entries[|entries| - 1 - k])
  {
    var n := |entries| - 1;
    if k == 0 {
      if n > 0 { ReportAt(entries[..n], 0); }
    } else {
      ReportAt(entries[..n], k - 1);
    }
  }

  /**
    Under the chain invariant each line's result is the total stored by the
    next newer line, and the newest line's result is the running total.
   */
  lemma ReportResults(entries: seq<Entry>, total: real, k: int)
    requires Chain(entries, total)
    requires 0 <= k < |entries|
    ensures |Report(entries)| == |entries|
    ensures Report(entries)[k].result == if k == 0 then total else Report(entries)[k - 1].prevTotal
  {
    ReportAt(entries, k);
    if k > 0 { ReportAt(entries, k - 1); }
  }
}
