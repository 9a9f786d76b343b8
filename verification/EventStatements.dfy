/** Appending to the event log and reading from it, in columns. */
module EventStatements {
  import opened Wrappers
  import opened ScanModel
  import opened ScanEvents

  // ---------- What the statements select ----------

  /** The rows of the scan, in the order of the table. */
  lemma OfScanExactly(rows: seq<Row>, r: Row, scanId: string)
    ensures OfScan([], scanId) == []
    ensures OfScan(rows + [r], scanId) == OfScan(rows, scanId) + if r.scanId == scanId then [r] else []
  {
    FilterGrows(rows, r, InScan(scanId));
  }

  predicate CountsAsOutput(r: Row, scanId: string)
  {
    r.scanId == scanId && (r.kind == ToolOutput || r.kind == ToolOutputTruncated || r.kind == ToolOutputDropped)
  }

  /** COUNT(*) of the scan's output events. */
  function OutputCount(rows: seq<Row>, scanId: string): nat
  {
    |set i | 0 <= i < |rows| && CountsAsOutput(rows[i], scanId)|
  }

  lemma {:induction false} OutputCountIs(rows: seq<Row>, scanId: string)
    ensures |Outputs(rows, scanId)| == OutputCount(rows, scanId)
  {
    hide CountsAsOutput, Filter;
    if rows == [] {
      NoOutputs(scanId);
      NothingCounted(scanId);
    } else {
      var front, last := rows[..|rows| - 1], rows[|rows| - 1];
      OutputCountIs(front, scanId);
      assert rows == front + [last];
      FilterGrows(front, last, OutputOf(scanId));
      OutputIs(last, scanId);
      assert (set i | 0 <= i < |rows| && CountsAsOutput(rows[i], scanId))
        == (set i | 0 <= i < |front| && CountsAsOutput(front[i], scanId))
           + if CountsAsOutput(last, scanId) then {|front|} else {};
    }
  }

  lemma NothingCounted(scanId: string)
    ensures OutputCount([], scanId) == 0
  {
  }

  lemma OutputIs(r: Row, scanId: string)
    ensures OutputOf(scanId)(r) <==> CountsAsOutput(r, scanId)
  {
    match r.kind
    case ToolOutput =>
    case ToolOutputTruncated =>
    case ToolOutputDropped =>
    case Other(_) =>
  }

  /** One beyond every sequence number the scan has used, 1 when it has none. */
  ghost predicate Follows(rows: seq<Row>, scanId: string, next: int)
  {
    && (forall i :: 0 <= i < |rows| && rows[i].scanId == scanId ==> rows[i].sequence < next)
    && if exists i :: 0 <= i < |rows| && rows[i].scanId == scanId then
         exists i :: 0 <= i < |rows| && rows[i].scanId == scanId && next == rows[i].sequence + 1
       else next == 1
  }

  lemma {:induction false} NextSequenceFollows(rows: seq<Row>, scanId: string)
    ensures MaxSequence(rows, scanId).None? <==> forall i :: 0 <= i < |rows| ==> rows[i].scanId != scanId
    ensures Follows(rows, scanId, NextSequence(rows, scanId))
  {
    if rows != [] {
      var front := rows[..|rows| - 1];
      NextSequenceFollows(front, scanId);
      assert forall i :: 0 <= i < |front| ==> front[i] == rows[i];
      if i :| 0 <= i < |front| && front[i].scanId == scanId && NextSequence(front, scanId) == front[i].sequence + 1 {
        assert rows[i].scanId == scanId;
      }
    }
  }

  // ---------- Appending ----------

  predicate TooLong(d: Payload)
  {
    match d
    case Raw(json, _) => |json| > 4096
    case Omitted(_, _, _) => false
    case Stopped(_, _) => false
  }

  /** What a line beyond the length limit is replaced with keeps its tool and its size. */
  function ShortOf(scanId: string, d: Draft): Draft
  {
    if TooLong(d.data) then Draft(ToolOutputTruncated, Omitted(scanId, d.data.toolName, |d.data.json|)) else d
  }

  function ToolOf(d: Payload): string
  {
    match d
    case Raw(_, toolName) => toolName
    case Omitted(_, toolName, _) => toolName
    case Stopped(_, toolName) => toolName
  }

  /**
   What becomes of an event: anything but output is kept; output is shortened, replaced by the one drop
   marker at the 2000th, and dropped after that.
  */
  lemma EnforcedExactly(scanId: string, d: Draft, count: nat)
    ensures (match d.kind
             case Other(_) => Enforced(scanId, d, count) == Some(d)
             case _ =>
               Enforced(scanId, d, count)
               == if count < 2000 then Some(ShortOf(scanId, d))
                  else if count == 2000 && (d.kind != ToolOutputDropped || TooLong(d.data)) then
                    Some(Draft(ToolOutputDropped, Stopped(scanId, ToolOf(d.data))))
                  else None)
  {
  }

  predicate MayAppend(db: Database, scanId: string, token: string)
  {
    token == "" || (scanId in db.scans && db.scans[scanId].status == Running && db.scans[scanId].leaseToken == token
                    && db.scans[scanId].cancelRequestedAt == None)
  }

  /** How an append is answered, its checks in order, and the row it adds. */
  lemma AppendAnswers(db: Database, rows: seq<Row>, w: Write)
    ensures var answer, kept := Append(db, rows, w), Enforced(w.scanId, w.draft, OutputCount(rows, w.scanId));
      if !MayAppend(db, w.scanId, w.token) then answer == Err(StaleScanLease)
      else if kept == None then answer == Err(EventDropped)
      else if w.scanId !in db.scans then answer == Err(UnknownScan)
      else if exists i :: 0 <= i < |rows| && rows[i].id == w.id then answer == Err(DuplicateId)
      else
        && answer.Ok? && |answer.value| == |rows| + 1 && answer.value[..|rows|] == rows
        && var r := answer.value[|rows|];
        && r == Row(w.id, w.scanId, r.sequence, kept.value.kind, kept.value.data, w.now)
        && Follows(rows, w.scanId, r.sequence)
  {
    hide Enforced, OutputCount, Outputs, Follows, NextSequence;
    OutputCountIs(rows, w.scanId);
    NextSequenceFollows(rows, w.scanId);
  }

  // ---------- Reading ----------

  /** The scan's row of least sequence number beyond the cursor. */
  lemma {:induction false} NextRowExactly(rows: seq<Row>, scanId: string, after: int)
    ensures var next := NextRow(rows, scanId, after);
      && (next == None <==> forall r :: r in rows ==> r.scanId != scanId || r.sequence <= after)
      && (next != None ==> next.value in rows && next.value.scanId == scanId && next.value.sequence > after)
      && (next != None ==>
            forall r :: r in rows && r.scanId == scanId && r.sequence > after ==> next.value.sequence <= r.sequence)
  {
    if rows != [] {
      var front, last := rows[..|rows| - 1], rows[|rows| - 1];
      NextRowExactly(front, scanId, after);
      assert forall r :: r in rows <==> r in front || r == last;
    }
  }

  /** Rows of the scan beyond the cursor, in increasing sequence. */
  ghost predicate Ascends(rows: seq<Row>, scanId: string, after: int, page: seq<Row>)
  {
    && (forall i :: 0 <= i < |page| ==> page[i] in rows && page[i].scanId == scanId && page[i].sequence > after)
    && forall i, j :: 0 <= i < j < |page| ==> page[i].sequence < page[j].sequence
  }

  /** The page shows the sequence number. */
  predicate Shows(page: seq<Row>, sequence: int)
  {
    exists i :: 0 <= i < |page| && page[i].sequence == sequence
  }

  /** No row beyond the cursor is passed over: what is missing lies beyond a full page. */
  ghost predicate PassesNone(rows: seq<Row>, scanId: string, after: int, limit: nat, page: seq<Row>)
  {
    forall r :: r in rows && r.scanId == scanId && r.sequence > after ==>
      Shows(page, r.sequence) || (|page| == limit && forall q :: q in page ==> q.sequence < r.sequence)
  }

  /** A page holds the scan's rows nearest beyond the cursor, and stops short only at the end. */
  lemma {:induction false} PageExactly(rows: seq<Row>, scanId: string, after: int, limit: nat)
    ensures var page := Page(rows, scanId, after, limit);
      |page| <= limit && Ascends(rows, scanId, after, page) && PassesNone(rows, scanId, after, limit, page)
    decreases limit
  {
    hide NextRow, Ascends, PassesNone;
    NextRowExactly(rows, scanId, after);
    var next := NextRow(rows, scanId, after);
    if limit == 0 || next.None? {
      EmptyPage(rows, scanId, after, limit);
    } else {
      PageExactly(rows, scanId, next.value.sequence, limit - 1);
      var rest := Page(rows, scanId, next.value.sequence, limit - 1);
      NextAscends(rows, scanId, after, next.value, rest);
      NextPassesNone(rows, scanId, after, limit, next.value, rest);
    }
  }

  lemma EmptyPage(rows: seq<Row>, scanId: string, after: int, limit: nat)
    requires limit == 0 || forall r :: r in rows ==> r.scanId != scanId || r.sequence <= after
    ensures Ascends(rows, scanId, after, []) && PassesNone(rows, scanId, after, limit, [])
  {
  }

  lemma NextAscends(rows: seq<Row>, scanId: string, after: int, next: Row, rest: seq<Row>)
    requires next in rows && next.scanId == scanId && next.sequence > after
    requires Ascends(rows, scanId, next.sequence, rest)
    ensures Ascends(rows, scanId, after, [next] + rest)
  {
  }

  lemma NextPassesNone(rows: seq<Row>, scanId: string, after: int, limit: nat, next: Row, rest: seq<Row>)
    requires limit > 0 && PassesNone(rows, scanId, next.sequence, limit - 1, rest)
    requires forall r :: r in rows && r.scanId == scanId && r.sequence > after ==> next.sequence <= r.sequence
    ensures PassesNone(rows, scanId, after, limit, [next] + rest)
  {
    hide Shows;
    var page := [next] + rest;
    forall r | r in rows && r.scanId == scanId && r.sequence > after
      ensures Shows(page, r.sequence) || (|page| == limit && forall q :: q in page ==> q.sequence < r.sequence)
    {
      ShowsMore(next, rest, r.sequence);
      if r.sequence != next.sequence {
        assert r.sequence > next.sequence;
      }
    }
  }

  lemma ShowsMore(next: Row, rest: seq<Row>, sequence: int)
    ensures Shows([next] + rest, sequence) <==> next.sequence == sequence || Shows(rest, sequence)
  {
    var page := [next] + rest;
    assert page[0] == next;
    if i :| 0 <= i < |rest| && rest[i].sequence == sequence {
      assert page[i + 1].sequence == sequence;
    }
  }

  /** A limit out of range reads 200 rows. */
  lemma LimitExactly(limit: int)
    ensures EffectiveLimit(limit) == if 1 <= limit <= 1000 then limit else 200
  {
  }

  // ---------- Every run ----------

  /** Output rows are those of the table that count as output. */
  lemma {:induction false} OutputsHold(rows: seq<Row>, r: Row, scanId: string)
    ensures r in Outputs(rows, scanId) <==> r in rows && CountsAsOutput(r, scanId)
  {
    hide CountsAsOutput, Filter;
    if rows == [] {
      NoOutputs(scanId);
    } else {
      var front, last := rows[..|rows| - 1], rows[|rows| - 1];
      assert rows == front + [last];
      OutputsHold(front, r, scanId);
      FilterGrows(front, last, OutputOf(scanId));
      OutputIs(last, scanId);
    }
  }

  /**
   Whatever is written and read, a scan stores at most 2001 output events, the last of 2001 is the drop
   marker, and none of them is too long.
  */
  lemma AlwaysWithinBudget(acts: seq<Act>, reader: string, scanId: string, r: Row)
    ensures var rows := Played(acts, reader).rows;
      && OutputCount(rows, scanId) <= 2001
      && (OutputCount(rows, scanId) == 2001 ==>
            exists marker :: marker in rows && marker.scanId == scanId && marker.kind == ToolOutputDropped
                             && marker.data.Stopped?)
      && (r in rows && CountsAsOutput(r, scanId) ==> !TooLong(r.data))
  {
    hide CountsAsOutput, OutputCount, Outputs, Played;
    var rows := Played(acts, reader).rows;
    var outs := Outputs(rows, scanId);
    AlwaysBudgeted(acts, reader, scanId);
    OutputCountIs(rows, scanId);
    OutputsHold(rows, r, scanId);
    if r in outs {
      var i :| 0 <= i < |outs| && outs[i] == r;
    }
    if |outs| == 2001 {
      assert outs[2000] in outs;
      OutputsHold(rows, outs[2000], scanId);
      CountsForScan(outs[2000], scanId);
    }
  }

  lemma CountsForScan(r: Row, scanId: string)
    ensures CountsAsOutput(r, scanId) ==> r.scanId == scanId
  {
  }
}
