/** Scan metadata and finding rows of the fleet overview, and the identities it compares them by. */
module FleetModel {
  import opened Wrappers
  import opened Text

  /** Nanoseconds in a day. */
  const DAY := 86_400_000_000_000

  /** complete says that the scan's evidence passes the empty gate policy. */
  datatype Scan = Scan(
    id: string, repoId: string, branch: string, createdAt: int, completedAt: Option<int>, complete: bool,
    scope: string, releaseId: string, manifestDigest: string)

  /**
   builtKey is the comparison identity when no fingerprint is stored; flagged says the stored
   baseline state is "resurfaced".
  */
  datatype Finding = Finding(
    id: string, scanId: string, repoId: string, fingerprint: string, stableFingerprint: string,
    locationFingerprint: string, toolName: string, ruleId: string, filePath: string, lineStart: int,
    severity: string, status: string, suppressed: bool, security: bool, flagged: bool, createdAt: int, builtKey: string)

  function ObservedAt(s: Scan): int
  {
    if s.completedAt.Some? then s.completedAt.value else s.createdAt
  }

  function IdentKey(repoId: string, ident: string): string
  {
    repoId + "\0" + ident
  }

  function BranchKey(s: Scan): string
  {
    IdentKey(s.repoId, s.branch)
  }

  function Digits(n: nat): string
  {
    if n < 10 then [(n as char) + '0'] else Digits(n / 10) + [((n % 10) as char) + '0']
  }

  function Decimal(n: int): string
  {
    if n < 0 then "-" + Digits(-n) else Digits(n)
  }

  /** The same issue across rescans: its location, not its semantic hash. */
  function FindingIdent(f: Finding): string
  {
    if TrimSpace(f.locationFingerprint) != "" then TrimSpace(f.locationFingerprint)
    else if TrimSpace(f.filePath) != "" || TrimSpace(f.ruleId) != "" then
      ToLower(TrimSpace(f.toolName) + "\0" + TrimSpace(f.ruleId) + "\0" + TrimSpace(f.filePath) + "\0"
        + Decimal(f.lineStart))
    else Or(TrimSpace(f.fingerprint), f.id)
  }

  /** The durable identity of an issue inside its repository. */
  function ProgressPart(f: Finding): string
  {
    Or(f.stableFingerprint, Or(f.fingerprint, FindingIdent(f)))
  }

  function ProgressKey(f: Finding): string
  {
    IdentKey(f.repoId, ProgressPart(f))
  }

  function DiffKey(f: Finding): string
  {
    Or(f.stableFingerprint, Or(f.fingerprint, f.builtKey))
  }

  predicate OpenEvidence(f: Finding)
  {
    f.status == "open" && !f.suppressed
  }

  function SeverityRank(severity: string): int
  {
    var s := ToLower(severity);
    if s == "critical" then 5 else if s == "high" then 4 else if s == "medium" then 3 else if s == "low" then 2 else 1
  }

  /** The finding rows of a scan that are their cluster's representative, in id order. */
  function Rows(source: map<string, seq<Finding>>, scanId: string): seq<Finding>
  {
    if scanId in source then source[scanId] else []
  }

  /** Scan ids are keys and every row belongs to the scan it was read for. */
  ghost predicate WellFormed(scans: seq<Scan>, source: map<string, seq<Finding>>)
  {
    && (forall i, j :: 0 <= i < j < |scans| ==> scans[i].id != scans[j].id)
    && (forall i, f :: 0 <= i < |scans| && f in Rows(source, scans[i].id) ==>
      f.scanId == scans[i].id && f.repoId == scans[i].repoId)
  }
}
