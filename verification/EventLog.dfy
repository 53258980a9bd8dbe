/** The append-only event log, the deferred log that keeps an attempt's rows in memory until the attempt
    is claimed, and the pipeline output the two are fed from. */
module EventLogs {

  /** A row of `response_events`; (responseId, num) is a unique key. */
  datatype Row = Row(responseId: string, num: nat, data: string)

  /** An SSE frame with the verdict of the content classifier. */
  datatype Frame = Frame(bytes: string, content: bool)

  /** What one pipeline run does, in order: record an event, or hand out a frame. */
  datatype Step = Append(data: string) | Emit(frame: Frame)

  function FramesOf(steps: seq<Step>): seq<Frame> {
    if steps == [] then []
    else FramesOf(steps[..|steps| - 1])
         + match steps[|steps| - 1] { case Emit(f) => [f] case Append(_) => [] }
  }

  /** A pipeline numbers its own events from 0. */
  function RowsOf(id: string, steps: seq<Step>): seq<Row> {
    if steps == [] then []
    else
      var front := RowsOf(id, steps[..|steps| - 1]);
      match steps[|steps| - 1]
      case Append(data) => front + [Row(id, |front|, data)]
      case Emit(_) => front
  }

  predicate HasContent(steps: seq<Step>) {
    exists i | 0 <= i < |steps| :: steps[i].Emit? && steps[i].frame.content
  }

  ghost predicate UniqueKeys(rows: seq<Row>) {
    forall i, j | 0 <= i < j < |rows| :: rows[i].responseId != rows[j].responseId || rows[i].num != rows[j].num
  }

  /** The rows of one run carry the sequence numbers 0, 1, 2, ... of its own response and nothing else,
      so they can be added to a log that has no row of that response without breaking the unique key. */
  lemma {:induction false} RowsAreNumbered(id: string, steps: seq<Step>, before: seq<Row>)
    requires UniqueKeys(before) && forall r | r in before :: r.responseId != id
    ensures forall i | 0 <= i < |RowsOf(id, steps)| :: RowsOf(id, steps)[i].responseId == id && RowsOf(id, steps)[i].num == i
    ensures UniqueKeys(before + RowsOf(id, steps))
  {
    if steps != [] {
      RowsAreNumbered(id, steps[..|steps| - 1], before);
    }
    var rows := RowsOf(id, steps);
    assert forall i | 0 <= i < |rows| :: rows[i].responseId == id && rows[i].num == i;
    forall i, j | 0 <= i < j < |before + rows|
      ensures (before + rows)[i].responseId != (before + rows)[j].responseId
           || (before + rows)[i].num != (before + rows)[j].num
    {
      if i < |before| {
        assert before[i] in before;
      }
    }
  }

  class EventLog {
    var rows: seq<Row>

    constructor ()
      ensures rows == []
    {
      rows := [];
    }

    method AppendEvent(row: Row)
      modifies this
      ensures rows == old(rows) + [row]
    {
      rows := rows + [row];
    }
  }

  class DeferredEventLog {
    const inner: EventLog
    var pending: seq<Row>
    var live: bool

    constructor (inner: EventLog)
      ensures this.inner == inner && pending == [] && !live
    {
      this.inner := inner;
      pending, live := [], false;
    }

    method AppendEvent(row: Row)
      modifies this, inner
      ensures live == old(live)
      ensures inner.rows == old(inner.rows) + if live then [row] else []
      ensures pending == old(pending) + if live then [] else [row]
    {
      if live {
        inner.AppendEvent(row);
        return;
      }
      pending := pending + [row];
    }

    /** Claims the attempt: writes the buffered rows in order and goes straight through from then on. */
    method Commit()
      modifies this, inner
      ensures live
      ensures old(live) ==> inner.rows == old(inner.rows) && pending == old(pending)
      ensures !old(live) ==> inner.rows == old(inner.rows) + old(pending) && pending == []
    {
      if live {
        return;
      }
      var rows := pending;
      pending := [];
      live := true;
      for i := 0 to |rows|
        invariant inner.rows == old(inner.rows) + rows[..i]
        invariant live && pending == []
      {
        inner.AppendEvent(rows[i]);
      }
    }

    method Discard()
      modifies this
      ensures pending == [] && live == old(live)
    {
      pending := [];
    }
  }
}
