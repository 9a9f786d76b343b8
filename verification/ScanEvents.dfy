/** The durable event log of scans: output budget, serial sequence numbers and paged reading. */
module ScanEvents {
  import opened Wrappers
  import opened ScanModel
  import opened ScanRuns

  const MAX_DATA_BYTES := 4096
  const MAX_OUTPUT_EVENTS := 2000

  datatype Kind = ToolOutput | ToolOutputTruncated | ToolOutputDropped | Other(name: string)

  /**
   Event data: what a caller submitted with the tool name its JSON carries, or one of the two
   replacement payloads.
  */
  datatype Payload =
    | Raw(json: string, toolName: string)
    | Omitted(scanId: string, toolName: string, originalBytes: nat)
    | Stopped(scanId: string, toolName: string)

  datatype Row = Row(id: string, scanId: string, sequence: int, kind: Kind, data: Payload, createdAt: int)

  datatype EventError = StaleScanLease | EventDropped | UnknownScan | DuplicateId

  datatype Draft = Draft(kind: Kind, data: Payload)

  predicate IsOutput(k: Kind)
  {
    !k.Other?
  }

  // ---------- Reading the table ----------

  function Filter(rows: seq<Row>, p: Row -> bool): (kept: seq<Row>)
    ensures |kept| <= |rows| && forall r :: r in kept ==> r in rows && p(r)
  {
    if rows == [] then []
    else
      var last := rows[|rows| - 1];
      Filter(rows[..|rows| - 1], p) + if p(last) then [last] else []
  }

  function InScan(scanId: string): Row -> bool
  {
    (r: Row) => r.scanId == scanId
  }

  function OutputOf(scanId: string): Row -> bool
  {
    (r: Row) => r.scanId == scanId && IsOutput(r.kind)
  }

  /** The events of a scan in the order they were appended. */
  function OfScan(rows: seq<Row>, scanId: string): seq<Row>
  {
    Filter(rows, InScan(scanId))
  }

  function Outputs(rows: seq<Row>, scanId: string): seq<Row>
  {
    Filter(rows, OutputOf(scanId))
  }

  /** MAX(sequence) of the scan, NULL when it has no event. */
  function MaxSequence(rows: seq<Row>, scanId: string): Option<int>
  {
    if rows == [] then None
    else
      var last, best := rows[|rows| - 1], MaxSequence(rows[..|rows| - 1], scanId);
      if last.scanId == scanId && (best.None? || best.value < last.sequence) then Some(last.sequence) else best
  }

  function NextSequence(rows: seq<Row>, scanId: string): int
  {
    (if MaxSequence(rows, scanId).Some? then MaxSequence(rows, scanId).value else 0) + 1
  }

  /** The scan's row of least sequence beyond `after`. */
  function NextRow(rows: seq<Row>, scanId: string, after: int): Option<Row>
  {
    if rows == [] then None
    else
      var last, best := rows[|rows| - 1], NextRow(rows[..|rows| - 1], scanId, after);
      if last.scanId == scanId && last.sequence > after && (best.None? || last.sequence < best.value.sequence) then
        Some(last) else best
  }

  /** WHERE scan_id = ? AND sequence > ? ORDER BY sequence LIMIT ? */
  function Page(rows: seq<Row>, scanId: string, after: int, limit: nat): seq<Row>
    decreases limit
  {
    if limit == 0 then []
    else
      var next := NextRow(rows, scanId, after);
      if next.None? then [] else [next.value] + Page(rows, scanId, next.value.sequence, limit - 1)
  }

  function EffectiveLimit(limit: int): nat
  {
    if limit <= 0 || limit > 1000 then 200 else limit
  }

  // ---------- Output policy ----------

  predicate Oversized(d: Payload)
  {
    d.Raw? && |d.json| > MAX_DATA_BYTES
  }

  /** An oversized output line keeps only its size and tool. */
  function Shrunk(scanId: string, d: Draft): Draft
  {
    if Oversized(d.data) then Draft(ToolOutputTruncated, Omitted(scanId, d.data.toolName, |d.data.json|)) else d
  }

  /** What is stored for a draft when the scan already has `count` output events. */
  function Enforced(scanId: string, d: Draft, count: nat): Option<Draft>
  {
    if !IsOutput(d.kind) then Some(d)
    else
      var kept := Shrunk(scanId, d);
      if count < MAX_OUTPUT_EVENTS then Some(kept)
      else if count > MAX_OUTPUT_EVENTS || kept.kind.ToolOutputDropped? then None
      else Some(Draft(ToolOutputDropped, Stopped(scanId, kept.data.toolName)))
  }

  /** A caller's event; an empty token appends without a lease. */
  datatype Write = Write(scanId: string, id: string, draft: Draft, token: string, now: int)

  /** AppendScanEvent on the scans of db. */
  function Append(db: Database, rows: seq<Row>, w: Write): Result<seq<Row>, EventError>
  {
    if w.token != "" && !HoldsLease(db, w.scanId, w.token) then Err(StaleScanLease)
    else
      var kept := Enforced(w.scanId, w.draft, |Outputs(rows, w.scanId)|);
      if kept.None? then Err(EventDropped)
      else if w.scanId !in db.scans then Err(UnknownScan)
      else if exists i :: 0 <= i < |rows| && rows[i].id == w.id then Err(DuplicateId)
      else Ok(rows + [Row(w.id, w.scanId, NextSequence(rows, w.scanId), kept.value.kind, kept.value.data, w.now)])
  }

  // ---------- The store ----------

  class Event {
    var id: string
    var scanId: string
    var sequence: int
    var eventType: Kind
    var data: Payload
    var leaseToken: string
    var createdAt: Option<int>

    constructor (id: string, scanId: string, eventType: Kind, data: Payload, leaseToken: string, createdAt: Option<int>)
      ensures this.id == id && this.scanId == scanId && this.sequence == 0 && this.eventType == eventType
      ensures this.data == data
      ensures this.leaseToken == leaseToken && this.createdAt == createdAt
    {
      this.id, this.scanId, this.sequence, this.eventType := id, scanId, 0, eventType;
      this.data, this.leaseToken, this.createdAt := data, leaseToken, createdAt;
    }
  }

  class EventStore {
    var db: Database
    var rows: seq<Row>

    /** Rewrites the event in place; true means the event is dropped. */
    method EnforceDurableScanEventPolicy(event: Event) returns (dropped: bool)
      modifies event`eventType, event`data
      ensures var kept :=
        Enforced(event.scanId, Draft(old(event.eventType), old(event.data)), |Outputs(rows, event.scanId)|);
        && (dropped <==> kept.None?)
        && (!dropped ==> Draft(event.eventType, event.data) == kept.value)
    {
      if event.eventType.Other? {
        return false;
      }
      if Oversized(event.data) {
        event.data := Omitted(event.scanId, event.data.toolName, |event.data.json|);
        event.eventType := ToolOutputTruncated;
      }
      var count := CountOutputs(event.scanId);
      if count < MAX_OUTPUT_EVENTS {
        return false;
      }
      if count > MAX_OUTPUT_EVENTS || event.eventType.ToolOutputDropped? {
        return true;
      }
      event.data := Stopped(event.scanId, event.data.toolName);
      event.eventType := ToolOutputDropped;
      dropped := false;
    }

    method CountOutputs(scanId: string) returns (count: nat)
      ensures count == |Outputs(rows, scanId)|
    {
      count := 0;
      for i := 0 to |rows|
        invariant count == |Outputs(rows[..i], scanId)|
      {
        FilterGrows(rows[..i], rows[i], OutputOf(scanId));
        assert rows[..i + 1] == rows[..i] + [rows[i]];
        if rows[i].scanId == scanId && IsOutput(rows[i].kind) {
          count := count + 1;
        }
      }
      assert rows[..|rows|] == rows;
    }

    method SelectNextSequence(scanId: string) returns (next: int)
      ensures next == NextSequence(rows, scanId)
    {
      var max: Option<int> := None;
      for i := 0 to |rows|
        invariant max == MaxSequence(rows[..i], scanId)
      {
        assert rows[..i + 1][..i] == rows[..i];
        if rows[i].scanId == scanId && (max.None? || max.value < rows[i].sequence) {
          max := Some(rows[i].sequence);
        }
      }
      assert rows[..|rows|] == rows;
      next := if max.Some? then max.value + 1 else 1;
    }

    /** freshId and now stand for the generated id and the clock. */
    method AppendScanEvent(event: Event, freshId: string, now: int) returns (error: Option<EventError>)
      modifies this`rows, event
      ensures
        var w := Write(old(event.scanId), if old(event.id) == "" then freshId else old(event.id),
                       Draft(old(event.eventType), old(event.data)), old(event.leaseToken),
                       if old(event.createdAt).Some? then old(event.createdAt).value else now);
        var spec := Append(db, old(rows), w);
        && rows == (if spec.Ok? then spec.value else old(rows))
        && error == (if spec.Ok? then None else Some(spec.error))
        && (error.None? ==> Some(rows[|rows| - 1])
                            == Some(Row(event.id, event.scanId, event.sequence, event.eventType, event.data, w.now)))
    {
      hide Enforced, Outputs, NextSequence, HoldsLease;
      if event.leaseToken != "" && !HoldsLease(db, event.scanId, event.leaseToken) {
        return Some(StaleScanLease);
      }
      var dropped := EnforceDurableScanEventPolicy(event);
      if dropped {
        return Some(EventDropped);
      }
      if event.id == "" {
        event.id := freshId;
      }
      if event.createdAt.None? {
        event.createdAt := Some(now);
      }
      event.sequence := SelectNextSequence(event.scanId);
      if event.scanId !in db.scans {
        return Some(UnknownScan);
      }
      for i := 0 to |rows|
        invariant forall k :: 0 <= k < i ==> rows[k].id != event.id
      {
        if rows[i].id == event.id {
          return Some(DuplicateId);
        }
      }
      rows := rows + [Row(event.id, event.scanId, event.sequence, event.eventType, event.data, event.createdAt.value)];
      error := None;
    }

    method ListScanEvents(scanId: string, afterSequence: int, limit: int) returns (page: seq<Row>)
      ensures page == Page(rows, scanId, afterSequence, EffectiveLimit(limit))
    {
      var left := if limit <= 0 || limit > 1000 then 200 else limit;
      var after := afterSequence;
      page := [];
      while left > 0
        invariant 0 <= left
        invariant Page(rows, scanId, afterSequence, EffectiveLimit(limit)) == page + Page(rows, scanId, after, left)
        decreases left
      {
        var next := SelectNext(scanId, after);
        if next.None? {
          return;
        }
        page, after, left := page + [next.value], next.value.sequence, left - 1;
      }
    }

    method SelectNext(scanId: string, after: int) returns (next: Option<Row>)
      ensures next == NextRow(rows, scanId, after)
    {
      next := None;
      for i := 0 to |rows|
        invariant next == NextRow(rows[..i], scanId, after)
      {
        assert rows[..i + 1][..i] == rows[..i];
        if rows[i].scanId == scanId && rows[i].sequence > after
          && (next.None? || rows[i].sequence < next.value.sequence) {
          next := Some(rows[i]);
        }
      }
      assert rows[..|rows|] == rows;
    }
  }

  // ---------- Sequences ----------

  lemma FilterGrows(rows: seq<Row>, r: Row, p: Row -> bool)
    ensures Filter(rows + [r], p) == Filter(rows, p) + if p(r) then [r] else []
  {
    assert (rows + [r])[..|rows|] == rows;
  }

  /** The events of the scan are numbered 1 to n in the order they were appended. */
  ghost predicate Numbered(rows: seq<Row>, scanId: string)
  {
    forall i :: 0 <= i < |OfScan(rows, scanId)| ==> OfScan(rows, scanId)[i].sequence == i + 1
  }

  lemma {:induction false} MaxIsCount(rows: seq<Row>, scanId: string)
    requires Numbered(rows, scanId)
    ensures NextSequence(rows, scanId) == |OfScan(rows, scanId)| + 1
    ensures MaxSequence(rows, scanId).None? <==> OfScan(rows, scanId) == []
  {
    if rows != [] {
      var front, last := rows[..|rows| - 1], rows[|rows| - 1];
      assert forall i :: 0 <= i < |OfScan(front, scanId)| ==> OfScan(front, scanId)[i] == OfScan(rows, scanId)[i];
      MaxIsCount(front, scanId);
      if last.scanId == scanId {
        assert OfScan(rows, scanId)[|OfScan(front, scanId)|] == last;
      }
    }
  }

  lemma AppendKeepsNumbered(db: Database, rows: seq<Row>, w: Write, scanId: string)
    requires Numbered(rows, scanId) && Append(db, rows, w).Ok?
    ensures Numbered(Append(db, rows, w).value, scanId)
    ensures OfScan(rows, scanId) <= OfScan(Append(db, rows, w).value, scanId)
  {
    var after := Append(db, rows, w).value;
    FilterGrows(rows, after[|rows|], InScan(scanId));
    MaxIsCount(rows, scanId);
  }

  // ---------- Interleavings of writers and one reader ----------

  /**
   Writers see whatever the scans table holds at the time; the reader pages through one scan by its
   last-seen sequence.
  */
  datatype Act = Writing(db: Database, write: Write) | Reading(limit: int)

  datatype Log = Log(rows: seq<Row>, seen: seq<Row>)

  function Cursor(seen: seq<Row>): int
  {
    if seen == [] then 0 else seen[|seen| - 1].sequence
  }

  function Acted(w: Log, a: Act, scanId: string): Log
  {
    match a
    case Writing(db, write) => (match Append(db, w.rows, write) case Ok(rows) => w.(rows := rows) case Err(_) => w)
    case Reading(limit) => w.(seen := w.seen + Page(w.rows, scanId, Cursor(w.seen), EffectiveLimit(limit)))
  }

  /** The state after any interleaving, from an empty log. */
  function Played(acts: seq<Act>, scanId: string): Log
  {
    if acts == [] then Log([], [])
    else Acted(Played(acts[..|acts| - 1], scanId), acts[|acts| - 1], scanId)
  }

  lemma {:induction false} AlwaysNumbered(acts: seq<Act>, reader: string, scanId: string)
    ensures Numbered(Played(acts, reader).rows, scanId)
  {
    if acts != [] {
      AlwaysNumbered(acts[..|acts| - 1], reader, scanId);
      var before, last := Played(acts[..|acts| - 1], reader), acts[|acts| - 1];
      if last.Writing? && Append(last.db, before.rows, last.write).Ok? {
        AppendKeepsNumbered(last.db, before.rows, last.write, scanId);
      }
    }
  }

  lemma {:induction false} NextIsElement(rows: seq<Row>, scanId: string, after: nat)
    requires Numbered(rows, scanId)
    ensures NextRow(rows, scanId, after)
      == if after < |OfScan(rows, scanId)| then Some(OfScan(rows, scanId)[after]) else None
  {
    if rows != [] {
      var front, last := rows[..|rows| - 1], rows[|rows| - 1];
      assert forall i :: 0 <= i < |OfScan(front, scanId)| ==> OfScan(front, scanId)[i] == OfScan(rows, scanId)[i];
      NextIsElement(front, scanId, after);
      if last.scanId == scanId {
        assert OfScan(rows, scanId)[|OfScan(front, scanId)|] == last;
      }
    }
  }

  function Least(a: nat, b: nat): nat
  {
    if a < b then a else b
  }

  /** A page is the next stretch of the scan's events. */
  lemma {:induction false} PageIsSlice(rows: seq<Row>, scanId: string, after: nat, limit: nat)
    requires Numbered(rows, scanId) && after <= |OfScan(rows, scanId)|
    ensures Page(rows, scanId, after, limit)
      == OfScan(rows, scanId)[after..Least(after + limit, |OfScan(rows, scanId)|)]
    decreases limit
  {
    NextIsElement(rows, scanId, after);
    if limit > 0 && after < |OfScan(rows, scanId)| {
      PageIsSlice(rows, scanId, after + 1, limit - 1);
    }
  }

  /**
   However reads and appends interleave, the reader has seen a prefix of the scan's events: each
   once, in order, none skipped.
  */
  lemma {:induction false} ReaderSeesPrefix(acts: seq<Act>, scanId: string)
    ensures Played(acts, scanId).seen <= OfScan(Played(acts, scanId).rows, scanId)
    ensures Cursor(Played(acts, scanId).seen) == |Played(acts, scanId).seen|
  {
    hide Append, OfScan, Page;
    if acts != [] {
      var before, last := Played(acts[..|acts| - 1], scanId), acts[|acts| - 1];
      ReaderSeesPrefix(acts[..|acts| - 1], scanId);
      AlwaysNumbered(acts[..|acts| - 1], scanId, scanId);
      if last.Reading? {
        PageIsSlice(before.rows, scanId, |before.seen|, EffectiveLimit(last.limit));
      } else if Append(last.db, before.rows, last.write).Ok? {
        AppendKeepsNumbered(last.db, before.rows, last.write, scanId);
      }
    }
    AlwaysNumbered(acts, scanId, scanId);
    CursorIsLength(Played(acts, scanId), scanId);
  }

  lemma CursorIsLength(w: Log, scanId: string)
    requires Numbered(w.rows, scanId) && w.seen <= OfScan(w.rows, scanId)
    ensures Cursor(w.seen) == |w.seen|
  {
    hide OfScan;
    if w.seen != [] {
      assert w.seen[|w.seen| - 1] == OfScan(w.rows, scanId)[|w.seen| - 1];
    }
  }

  /** Each read brings as many unseen events as there are, up to the effective limit. */
  lemma ReadMakesProgress(acts: seq<Act>, scanId: string, limit: int)
    ensures var before, after := Played(acts, scanId), Played(acts + [Reading(limit)], scanId);
      |after.seen| == Least(|before.seen| + EffectiveLimit(limit), |OfScan(before.rows, scanId)|)
  {
    hide OfScan, Page;
    var before := Played(acts, scanId);
    assert (acts + [Reading(limit)])[..|acts|] == acts;
    ReaderSeesPrefix(acts, scanId);
    AlwaysNumbered(acts, scanId, scanId);
    PageIsSlice(before.rows, scanId, |before.seen|, EffectiveLimit(limit));
  }

  // ---------- Budget ----------

  /**
   At most limit + 1 output events, the one beyond the limit a drop marker, none holding more raw
   data than allowed.
  */
  ghost predicate Budgeted(rows: seq<Row>, scanId: string)
  {
    var outs := Outputs(rows, scanId);
    && |outs| <= MAX_OUTPUT_EVENTS + 1
    && (|outs| > MAX_OUTPUT_EVENTS ==>
      outs[MAX_OUTPUT_EVENTS].kind.ToolOutputDropped? && outs[MAX_OUTPUT_EVENTS].data.Stopped?)
    && forall i :: 0 <= i < |outs| ==> !Oversized(outs[i].data)
  }

  /** The output events grow by at most one row: within the budget as submitted, at the limit a drop marker. */
  predicate Grows(outs: seq<Row>, after: seq<Row>, marks: bool)
  {
    || after == outs
    || (|after| == |outs| + 1 && after[..|outs|] == outs && |outs| <= MAX_OUTPUT_EVENTS
      && Accepts(|outs|, after[|outs|], marks))
  }

  predicate Accepts(count: nat, r: Row, marks: bool)
  {
    && !Oversized(r.data)
    && (count == MAX_OUTPUT_EVENTS ==> r.kind.ToolOutputDropped? && r.data.Stopped?)
    && (count < MAX_OUTPUT_EVENTS && !marks ==> !r.kind.ToolOutputDropped?)
  }

  lemma AppendGrows(db: Database, rows: seq<Row>, w: Write, scanId: string)
    requires Append(db, rows, w).Ok?
    ensures Grows(Outputs(rows, scanId), Outputs(Append(db, rows, w).value, scanId), w.draft.kind.ToolOutputDropped?)
  {
    hide HoldsLease, Filter;
    var after := Append(db, rows, w).value;
    FilterGrows(rows, after[|rows|], OutputOf(scanId));
  }

  lemma {:induction false} AlwaysBudgeted(acts: seq<Act>, reader: string, scanId: string)
    ensures Budgeted(Played(acts, reader).rows, scanId)
  {
    hide Append, Outputs;
    if acts != [] {
      AlwaysBudgeted(acts[..|acts| - 1], reader, scanId);
      var before, last := Played(acts[..|acts| - 1], reader), acts[|acts| - 1];
      if last.Writing? && Append(last.db, before.rows, last.write).Ok? {
        AppendGrows(last.db, before.rows, last.write, scanId);
      }
    } else {
      NoOutputs(scanId);
    }
  }

  lemma NoOutputs(scanId: string)
    ensures Outputs([], scanId) == []
  {
  }

  /** No caller submits drop markers of its own. */
  ghost predicate NoCallerMarkers(acts: seq<Act>)
  {
    forall i :: 0 <= i < |acts| && acts[i].Writing? ==> !acts[i].write.draft.kind.ToolOutputDropped?
  }

  /** Then the only drop marker is the one output event beyond the limit. */
  lemma {:induction false} OneMarker(acts: seq<Act>, reader: string, scanId: string, i: nat)
    requires NoCallerMarkers(acts) && i < |Outputs(Played(acts, reader).rows, scanId)|
    ensures Outputs(Played(acts, reader).rows, scanId)[i].kind.ToolOutputDropped? <==> i == MAX_OUTPUT_EVENTS
  {
    hide Append, Outputs;
    NoOutputs(scanId);
    if acts != [] {
      var front := acts[..|acts| - 1];
      var before, last := Played(front, reader), acts[|acts| - 1];
      assert NoCallerMarkers(front);
      if last.Writing? && Append(last.db, before.rows, last.write).Ok? {
        AppendGrows(last.db, before.rows, last.write, scanId);
      }
      if i < |Outputs(before.rows, scanId)| {
        OneMarker(front, reader, scanId, i);
      }
    }
  }

  // ---------- Fencing ----------

  /** Once a lease token was reclaimed, finalized or cancelled, no event is appended in its name. */
  lemma FencedAppend(ws: seq<ScanRuns.World>, es: seq<ScanRuns.Event>, i: nat, j: nat, rows: seq<Row>, w: Write)
    requires Run(ws, es) && i <= j < |ws| && Retired(ws[i].db, w.scanId, w.token)
    ensures Append(ws[j].db, rows, w) == Err(StaleScanLease)
  {
    RetiredForever(ws, es, i, j, w.scanId, w.token);
  }
}
