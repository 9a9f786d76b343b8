/** The scan steps the fix protocol reckons with are those the scan protocol takes. */
module ScanMoves {
  import opened Wrappers
  import Fix = FixModel
  import FixProtocol
  import opened ScanModel
  import opened ScanRuns

  /** The status of a scan as the fix transactions read it. */
  function Seen(status: ScanStatus): Fix.ScanStatus
  {
    match status
    case Pending => Fix.Pending
    case Running => Fix.ScanRunning
    case Completed => Fix.Completed
    case Failed => Fix.ScanFailed
    case Cancelled => Fix.ScanCancelled
  }

  /** A step of the scan protocol moves each scan as the fix protocol allows for, and removes none. */
  lemma EveryStepIsAMove(db: Database, e: Event, now: int, id: string)
    requires id in db.scans && Disciplined(db, e)
    ensures id in After(db, e, now).scans
    ensures FixProtocol.ScanMoves(Seen(db.scans[id].status), Seen(After(db, e, now).scans[id].status))
  {
    if IsEvidence(e) {
      EvidenceKeepsLeases(db, e, now);
    }
  }

  /** A scan that finished keeps its status in every later state of every run, unless a completed one is failed. */
  lemma {:induction false} FinishedForever(ws: seq<World>, es: seq<Event>, i: nat, j: nat, id: string)
    requires Run(ws, es) && i <= j < |ws| && id in ws[i].db.scans
    requires ws[i].db.scans[id].status in {Completed, Failed, Cancelled}
    ensures id in ws[j].db.scans
    ensures var before, after := ws[i].db.scans[id].status, ws[j].db.scans[id].status;
      after == before || (before == Completed && after == Failed)
    decreases j - i
  {
    hide After, Disciplined;
    if i < j {
      FinishedForever(ws, es, i, j - 1, id);
      assert Next(ws[j - 1], es[j - 1], ws[j]);
      EveryStepIsAMove(ws[j - 1].db, es[j - 1], ws[j].clock, id);
    }
  }
}
