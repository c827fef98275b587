/**
  The undo-log calculator itself: a running total, a count of logged
  operations and the log of entries between the list's two sentinels,
  held here as a sequence ordered oldest first.
 */
module CalcLists {
  import opened Calculation

  /** How a state-changing operation ended: normally, or with the error it raises. */
  datatype Outcome = Done | Failed(error: CalcError)

  class CalcList {
    /** The entries between the header and trailer sentinels, oldest first. */
    var entries: seq<Entry>
    var currentTotal: real
    /** The number of logged operations. */
    var numOperations: int

    /** The object invariant: the count matches the log and the log is a chain. */
    ghost predicate Valid()
      reads this
    {
      numOperations == |entries| && Chain(entries, currentTotal)
    }

    /** The log and total as a value. */
    function Snapshot(): Log
      reads this
    {
      Log(entries, currentTotal)
    }

    constructor ()
      ensures Valid()
      ensures entries == [] && currentTotal == 0.0 && numOperations == 0
    {
      entries := [];
      currentTotal := 0.0;
      numOperations := 0;
    }

    /** The running total, which is what replaying the logged operations from 0 yields. */
    function Total(): (r: real)
      reads this
      ensures Valid() ==> Replay(entries) == Success(r)
    {
      ChainIffReplay(entries, currentTotal);
      currentTotal
    }

    /** Whether no operation is logged. */
    function Empty(): (r: bool)
      reads this
      ensures r <==> entries == []
      ensures Valid() ==> (r <==> numOperations == 0)
    {
      entries == []
    }

    /**
      Applies `func` with `operand` to the total and logs the operation with
      the total it started from; a division by zero is rejected before
      anything changes.
     */
    method NewOperation(func: Func, operand: real) returns (outcome: Outcome)
      requires Valid()
      modifies this
      ensures Valid()
      ensures outcome.Failed? <==> DividesByZero(operand, func)
      ensures outcome.Failed? ==>
        && outcome.error == DivideByZero
        && entries == old(entries)
        && currentTotal == old(currentTotal)
        && numOperations == old(numOperations)
      ensures outcome.Done? ==>
        && entries == old(entries) + [Entry(operand, func, old(currentTotal))]
        && currentTotal == Calculate(old(currentTotal), operand, func).value
        && numOperations == old(numOperations) + 1
      ensures Record(old(Snapshot()), func, operand)
           == if outcome.Done? then Success(Snapshot()) else Failure(outcome.error)
    {
      var prevTotal := currentTotal;
      var result := Calculate(currentTotal, operand, func);
      if result.Failure? {
        return Failed(result.error);
      }
      RecordPreservesChain(Snapshot(), func, operand);
      currentTotal := result.value;
      entries := entries + [Entry(operand, func, prevTotal)];
      numOperations := numOperations + 1;
      outcome := Done;
    }

    /**
      Undoes the newest operation: restores the total it recorded and drops
      it from the log; an empty log is an out-of-range error.
     */
    method RemoveLastOperation() returns (outcome: Outcome)
      requires Valid()
      modifies this
      ensures Valid()
      ensures outcome.Failed? <==> old(entries) == []
      ensures outcome.Failed? ==>
        && outcome.error == NothingToRemove
        && entries == old(entries)
        && currentTotal == old(currentTotal)
        && numOperations == old(numOperations)
      ensures outcome.Done? ==>
        && currentTotal == old(entries[|entries| - 1].prevTotal)
        && entries == old(entries[..|entries| - 1])
        && numOperations == old(numOperations) - 1
      ensures Undo(old(Snapshot()))
           == if outcome.Done? then Success(Snapshot()) else Failure(outcome.error)
    {
      if Empty() {
        return Failed(NothingToRemove);
      }
      UndoPreservesChain(Snapshot());
      currentTotal := entries[|entries| - 1].prevTotal;
      Remove(|entries| - 1);
      outcome := Done;
    }

    /** Unlinks the entry at position `i` and decrements the count; the total is untouched. */
    method Remove(i: nat)
      requires i < |entries|
      modifies this
      ensures entries == old(entries[..i] + entries[i + 1..])
      ensures numOperations == old(numOperations) - 1
      ensures currentTotal == old(currentTotal)
    {
      entries := entries[..i] + entries[i + 1..];
      numOperations := numOperations - 1;
    }

    /**
      The lines of the printed report, produced by walking the log from the
      newest entry back to the oldest while counting the line number down.
     */
    method ToLines() returns (lines: seq<Line>)
      requires Valid()
      ensures lines == Report(entries)
    {
      lines := [];
      var operation := numOperations;
      var cursor := |entries|;
      while cursor > 0
        invariant 0 <= cursor <= |entries|
        invariant operation == cursor
        invariant |lines| == |entries| - cursor
        invariant forall k :: 0 <= k < |lines| ==>
          lines[k] == LineOf(|entries| - k, entries[|entries| - 1 - k])
      {
        var e := entries[cursor - 1];
        var result := Calculate(e.prevTotal, e.value, e.operation).value;
        lines := lines + [Line(operation, e.prevTotal, OpCharacter(e.operation), e.value, result)];
        operation := operation - 1;
        cursor := cursor - 1;
      }
      var report := Report(entries);
      if entries != [] {
        ReportAt(entries, 0);
      }
      assert |report| == |lines|;
      forall k | 0 <= k < |entries|
        ensures lines[k] == report[k]
      {
        ReportAt(entries, k);
      }
    }
  }

  /** A successful operation followed by an undo leaves the calculator as it was. */
  method UndoRestores(c: CalcList, func: Func, operand: real)
    requires c.Valid()
    modifies c
    ensures c.Valid()
    ensures c.entries == old(c.entries)
    ensures c.currentTotal == old(c.currentTotal)
    ensures c.numOperations == old(c.numOperations)
  {
    var recorded := c.NewOperation(func, operand);
    if recorded.Done? {
      var undone := c.RemoveLastOperation();
      assert undone.Done?;
    }
  }
}
