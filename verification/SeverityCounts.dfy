/** The severity and fixed counts that snapshot, dashboard, REST summary and MCP write independently. */
module SeverityCounts {
  import opened Store
  import opened Scanner
  import opened Scanning
  import opened Deletion
  import opened Retention
  import opened Lifecycle
  import opened Snapshots

  datatype Counts = Counts(critical: nat, high: nat, medium: nat, low: nat)

  function WithSeverity(db: Db, cves: set<CveId>, s: Severity): set<CveId> {
    set c | c in cves && c in db.vulns && db.vulns[c].severity == Some(s)
  }

  function CountBySeverity(db: Db, cves: set<CveId>): Counts {
    Counts(|WithSeverity(db, cves, Critical)|, |WithSeverity(db, cves, High)|,
           |WithSeverity(db, cves, Medium)|, |WithSeverity(db, cves, Low)|)
  }

  /** Snapshot: one severity per vulnerability id, rows without a severity left out. */
  function SnapshotCounts(db: Db): Counts {
    CountBySeverity(db, OpenNow(db))
  }

  /** Dashboard and REST summary: distinct (id, severity) rows, filtered by severity. */
  function SeverityRows(db: Db): set<(CveId, Option<Severity>)> {
    set k | k in Actionable(db) && k.cve in db.vulns :: (k.cve, db.vulns[k.cve].severity)
  }

  function RowsWith(rows: set<(CveId, Option<Severity>)>, s: Severity): set<(CveId, Option<Severity>)> {
    set r | r in rows && r.1 == Some(s)
  }

  function SummaryCounts(db: Db): Counts {
    var rows := SeverityRows(db);
    Counts(|RowsWith(rows, Critical)|, |RowsWith(rows, High)|, |RowsWith(rows, Medium)|, |RowsWith(rows, Low)|)
  }

  lemma {:induction false} PairsCount(cves: set<CveId>, s: Option<Severity>, pairs: set<(CveId, Option<Severity>)>)
    requires pairs == set c | c in cves :: (c, s)
    ensures |pairs| == |cves|
  {
    if cves != {} {
      var c :| c in cves;
      var fewer := set d | d in cves - {c} :: (d, s);
      PairsCount(cves - {c}, s, fewer);
      assert pairs == fewer + {(c, s)};
    }
  }

  lemma RowsAreVulnerabilities(db: Db, s: Severity)
    ensures |RowsWith(SeverityRows(db), s)| == |WithSeverity(db, OpenNow(db), s)|
  {
    var cves := WithSeverity(db, OpenNow(db), s);
    var rows := RowsWith(SeverityRows(db), s);
    forall r | r in rows
      ensures r.0 in cves && r == (r.0, Some(s))
    {
      var k :| k in Actionable(db) && k.cve in db.vulns && r == (k.cve, db.vulns[k.cve].severity);
    }
    forall c | c in cves
      ensures (c, Some(s)) in rows
    {
      var k :| k in Actionable(db) && HasSeverity(db, k.cve) && k.cve == c;
      assert (c, Some(s)) == (k.cve, db.vulns[k.cve].severity);
    }
    assert rows == set c | c in cves :: (c, Some(s));
    PairsCount(cves, Some(s), rows);
  }

  /** Snapshot and summary count the same vulnerabilities: rows without a severity change neither. */
  lemma CountsAgree(db: Db)
    ensures SnapshotCounts(db) == SummaryCounts(db)
  {
    RowsAreVulnerabilities(db, Critical);
    RowsAreVulnerabilities(db, High);
    RowsAreVulnerabilities(db, Medium);
    RowsAreVulnerabilities(db, Low);
  }

  /** The MCP counters: one bucket per severity, the last one for unknown or missing. */
  datatype Buckets = Buckets(critical: nat, high: nat, medium: nat, low: nat, unknown: nat)

  /** The sum over all buckets, which the summary reports as its total. */
  function Total(b: Buckets): nat { b.critical + b.high + b.medium + b.low + b.unknown }

  /** The actionable vulnerabilities, one row each. */
  function ActionableCves(db: Db): set<CveId> {
    set k | k in Actionable(db) && k.cve in db.vulns :: k.cve
  }

  /** `rows` lists `cves` without repetition, in any order. */
  ghost predicate Lists(rows: seq<CveId>, cves: set<CveId>) {
    && (forall c :: c in rows <==> c in cves)
    && (forall i, j :: 0 <= i < j < |rows| ==> rows[i] != rows[j])
  }

  /** How many of the first `n` rows have severity `s`. */
  function Occurrences(rows: seq<Option<Severity>>, n: nat, s: Option<Severity>): nat
    requires n <= |rows|
  {
    if n == 0 then 0 else Occurrences(rows, n - 1, s) + if rows[n - 1] == s then 1 else 0
  }

  /** The counters hold what the first `n` rows hold. */
  ghost predicate Tallies(rows: seq<Option<Severity>>, n: nat, b: Buckets)
    requires n <= |rows|
  {
    && b.critical == Occurrences(rows, n, Some(Critical))
    && b.high == Occurrences(rows, n, Some(High))
    && b.medium == Occurrences(rows, n, Some(Medium))
    && b.low == Occurrences(rows, n, Some(Low))
    && b.unknown == Occurrences(rows, n, Some(Unknown)) + Occurrences(rows, n, None)
  }

  lemma {:induction false} EveryRowOccurs(rows: seq<Option<Severity>>, n: nat)
    requires n <= |rows|
    ensures Occurrences(rows, n, Some(Critical)) + Occurrences(rows, n, Some(High)) + Occurrences(rows, n, Some(Medium))
          + Occurrences(rows, n, Some(Low)) + Occurrences(rows, n, Some(Unknown)) + Occurrences(rows, n, None) == n
  {
    if n > 0 {
      EveryRowOccurs(rows, n - 1);
      if rows[n - 1].Some? {
        var s := rows[n - 1].value;
        assert s == Critical || s == High || s == Medium || s == Low || s == Unknown;
      }
    }
  }

  /** The bucket a severity is counted in. */
  function Bump(b: Buckets, s: Option<Severity>): Buckets {
    match s
    case Some(Critical) => b.(critical := b.critical + 1)
    case Some(High) => b.(high := b.high + 1)
    case Some(Medium) => b.(medium := b.medium + 1)
    case Some(Low) => b.(low := b.low + 1)
    case Some(Unknown) => b.(unknown := b.unknown + 1)
    case None => b.(unknown := b.unknown + 1)
  }

  /** The counting loop over the severities of the result rows. */
  method CountRows(rows: seq<Option<Severity>>) returns (b: Buckets)
    ensures Tallies(rows, |rows|, b)
  {
    b := Buckets(0, 0, 0, 0, 0);
    for i := 0 to |rows|
      invariant Tallies(rows, i, b)
    {
      b := Bump(b, rows[i]);
    }
  }

  function SeverityColumn(db: Db, rows: seq<CveId>): (column: seq<Option<Severity>>)
    requires forall i :: 0 <= i < |rows| ==> rows[i] in db.vulns
    ensures |column| == |rows| && forall i :: 0 <= i < |rows| ==> column[i] == db.vulns[rows[i]].severity
  {
    seq(|rows|, i requires 0 <= i < |rows| => db.vulns[rows[i]].severity)
  }

  function Prefix(rows: seq<CveId>, n: nat): set<CveId>
    requires n <= |rows|
  {
    set i | 0 <= i < n :: rows[i]
  }

  lemma PrefixStep(rows: seq<CveId>, n: nat)
    requires n < |rows| && (forall i, j :: 0 <= i < j < |rows| ==> rows[i] != rows[j])
    ensures rows[n] !in Prefix(rows, n) && Prefix(rows, n + 1) == Prefix(rows, n) + {rows[n]}
  {
  }

  lemma OneMoreCve(db: Db, before: set<CveId>, c: CveId, s: Severity)
    requires c in db.vulns && c !in before
    ensures |WithSeverity(db, before + {c}, s)|
         == |WithSeverity(db, before, s)| + if db.vulns[c].severity == Some(s) then 1 else 0
  {
    if db.vulns[c].severity == Some(s) {
      assert WithSeverity(db, before + {c}, s) == WithSeverity(db, before, s) + {c};
    } else {
      assert WithSeverity(db, before + {c}, s) == WithSeverity(db, before, s);
    }
  }

  lemma {:induction false} PrefixSize(rows: seq<CveId>, n: nat)
    requires n <= |rows| && (forall i, j :: 0 <= i < j < |rows| ==> rows[i] != rows[j])
    ensures |Prefix(rows, n)| == n
  {
    if n == 0 {
      assert Prefix(rows, 0) == {};
    } else {
      PrefixSize(rows, n - 1);
      PrefixStep(rows, n - 1);
    }
  }

  lemma {:induction false} ListedCount(db: Db, rows: seq<CveId>, n: nat, s: Severity)
    requires n <= |rows| && (forall i, j :: 0 <= i < j < |rows| ==> rows[i] != rows[j])
    requires forall i :: 0 <= i < |rows| ==> rows[i] in db.vulns
    ensures Occurrences(SeverityColumn(db, rows), n, Some(s)) == |WithSeverity(db, Prefix(rows, n), s)|
  {
    if n == 0 {
      assert Prefix(rows, 0) == {} && WithSeverity(db, {}, s) == {};
    } else {
      ListedCount(db, rows, n - 1, s);
      PrefixStep(rows, n - 1);
      OneMoreCve(db, Prefix(rows, n - 1), rows[n - 1], s);
    }
  }

  lemma UnratedNeverCount(db: Db, s: Severity)
    ensures WithSeverity(db, ActionableCves(db), s) == WithSeverity(db, OpenNow(db), s)
  {
  }

  /** However a query orders the vulnerabilities, the rows of a severity are as many as there are
      vulnerabilities with it. */
  lemma ListedCounts(db: Db, rows: seq<CveId>, cves: set<CveId>)
    requires Lists(rows, cves) && cves <= db.vulns.Keys
    ensures |rows| == |cves| && forall i :: 0 <= i < |rows| ==> rows[i] in db.vulns
    ensures forall s: Severity :: Occurrences(SeverityColumn(db, rows), |rows|, Some(s)) == |WithSeverity(db, cves, s)|
  {
    assert forall i :: 0 <= i < |rows| ==> rows[i] in rows;
    assert Prefix(rows, |rows|) == cves;
    forall s: Severity {
      ListedCount(db, rows, |rows|, s);
    }
    PrefixSize(rows, |rows|);
  }

  /** The MCP summary, for its rows in any order: the four named buckets are the counts of the
      other surfaces, and the total is the number of actionable vulnerabilities. */
  method SummarizeVulnerabilities(db: Db, rows: seq<CveId>) returns (b: Buckets)
    requires Lists(rows, ActionableCves(db))
    ensures Counts(b.critical, b.high, b.medium, b.low) == SnapshotCounts(db)
    ensures Total(b) == |ActionableCves(db)|
  {
    ListedCounts(db, rows, ActionableCves(db));
    b := CountRows(SeverityColumn(db, rows));
    forall s: Severity {
      UnratedNeverCount(db, s);
    }
    EveryRowOccurs(SeverityColumn(db, rows), |rows|);
  }

  /** One of the snapshot's sums: the rows with severity `s`. */
  method CountOf(rows: seq<Option<Severity>>, s: Severity) returns (n: nat)
    ensures n == Occurrences(rows, |rows|, Some(s))
  {
    n := 0;
    for i := 0 to |rows|
      invariant n == Occurrences(rows, i, Some(s))
    {
      if rows[i] == Some(s) {
        n := n + 1;
      }
    }
  }

  /** The snapshot's counts for rows in any order: each vulnerability counted once, by its severity. */
  method CountSnapshot(db: Db, rows: seq<CveId>, ghost cves: set<CveId>) returns (counts: Counts)
    requires Lists(rows, cves) && cves <= db.vulns.Keys
    ensures counts == CountBySeverity(db, cves)
  {
    ListedCounts(db, rows, cves);
    var severities := SeverityColumn(db, rows);
    var critical := CountOf(severities, Critical);
    var high := CountOf(severities, High);
    var medium := CountOf(severities, Medium);
    var low := CountOf(severities, Low);
    counts := Counts(critical, high, medium, low);
  }

  function DateOf(t: Time): Date { t / DAY }

  /** Dashboard and MCP: vulnerabilities with a fixed link. */
  function FixedCves(db: Db): set<CveId> {
    set k | k in db.links && db.links[k].status == Fixed :: k.cve
  }

  /** The last instant of a day. */
  function DayEnd(day: Date): Time { (day + 1) * DAY - 1 }

  /** Snapshot: the link is fixed, dated, and dated by `day`. */
  function FixedLinksBy(db: Db, day: Date): set<LinkKey> {
    set k | k in db.links && db.links[k].status == Fixed && db.links[k].fixedAt.Some?
            && DateOf(db.links[k].fixedAt.value) <= day
  }

  function FixedBy(db: Db, day: Date): set<CveId> {
    CvesOf(FixedLinksBy(db, day))
  }

  /** For a day no fix lies behind of, the snapshot's fixed count is the dashboard's. */
  lemma FixedCountsAgree(db: Db, now: Time)
    requires FixedIffDated(db.links)
    requires forall k :: k in db.links && db.links[k].fixedAt.Some? ==> db.links[k].fixedAt.value <= now
    ensures FixedBy(db, DateOf(now)) == FixedCves(db)
  {
  }

  /** The links whose fix a step makes undone or takes away. */
  function Unfixed(db: Db, op: Op): set<LinkKey> {
    match op
    case Delete(s, _, _) =>
      if s in db.sboms then set k | k in db.links && (k.sbom == s || k.sbom in Rest(db.sboms, s)) else {}
    case Prune(cutoff) => LinksPruned(db, cutoff)
    case _ => {}
  }

  lemma FixedAfterPrune(db: Db, cutoff: Option<Time>, day: Date)
    requires NoDangling(db)
    ensures FixedLinksBy(PruneSboms(db, cutoff), day) == FixedLinksBy(db, day) - LinksPruned(db, cutoff)
  {
    if cutoff.Some? {
      NothingDangles(db, cutoff.value);
    }
  }

  /** The exact difference a later step makes to what was fixed by a day: deletions and prunes take
      links away, and no step adds any. */
  lemma FixedAfterDay(db: Db, op: Op, day: Date)
    requires Consistent(db) && Allowed(db, op) && LaterThan(op, DayEnd(day))
    ensures FixedLinksBy(Apply(db, op), day) == FixedLinksBy(db, day) - Unfixed(db, op)
  {
    match op
    case Scan(s, o, t1, t2) => ScanKeepsFixed(db, s, o, t1, t2, day);
    case Delete(s, pick, at) =>
      if s in db.sboms {
        OwnedServicesGiveScopes(db);
        DeleteIsPointwise(db.sboms, db.links, s, pick, at);
        DeletedFixes(db, s, pick, at, day, DeleteSbom(db, s, pick, at));
      }
    case Prune(cutoff) => FixedAfterPrune(db, cutoff, day);
    case AddProject(_) =>
    case Upload(_, _, _, _, _) =>
    case AcceptRisk(_, _, _) =>
    case RevertRisk(_) =>
  }

  /** Each vulnerability that loses fixed links of the day to the step keeps another one. */
  ghost predicate KeepsFixed(db: Db, op: Op, day: Date) {
    forall k :: k in FixedLinksBy(db, day) * Unfixed(db, op) ==>
      exists o :: o in FixedLinksBy(db, day) - Unfixed(db, op) && o.cve == k.cve
  }

  lemma FixedStaysIff(db: Db, op: Op, day: Date)
    requires Consistent(db) && Allowed(db, op) && LaterThan(op, DayEnd(day))
    ensures FixedBy(Apply(db, op), day) == FixedBy(db, day) <==> KeepsFixed(db, op, day)
  {
    FixedAfterDay(db, op, day);
    var keys, lost := FixedLinksBy(db, day), Unfixed(db, op);
    assert keys - lost + {} == keys - lost;
    CvesOfDifference(keys, lost, {});
  }

  lemma ScanKeepsFixed(db: Db, s: SbomId, o: Outcome, t1: Time, t2: Time, day: Date)
    requires DayEnd(day) < t1 && DayEnd(day) < t2
    ensures FixedLinksBy(ScanSbom(db, s, o, t1, t2), day) == FixedLinksBy(db, day)
  {
    if s in db.sboms && Effective(db.sboms[s], o).Report? {
      var ms := Effective(db.sboms[s], o).matches;
      ScanKeepsOrFixes(db.sboms, db.links, s, ms, t1, t2);
      FixesStay(db, ScanSbom(db, s, o, t1, t2), ReportedKeys(s, ms), db.sboms[s].created, t1, t2, day);
    }
  }

  lemma FixesStay(db: Db, after: Db, added: set<LinkKey>, at: Time, t1: Time, t2: Time, day: Date)
    requires DayEnd(day) < t1 && DayEnd(day) < t2
    requires KeepsOrFixes(db.links, added, at, t1, t2, after.links)
    ensures FixedLinksBy(after, day) == FixedLinksBy(db, day)
  {
  }

  lemma DeletedFixes(db: Db, s: SbomId, pick: Option<SbomId>, at: Time, day: Date, after: Db)
    requires NoDanglingLinks(db) && DayEnd(day) < at && s in db.sboms
        && (pick.Some? ==> pick.value in Rest(db.sboms, s))
    requires DeletesTo(db.sboms, db.links, s, pick, at, after.links)
    ensures FixedLinksBy(after, day) == FixedLinksBy(db, day) - Unfixed(db, Delete(s, pick, at))
  {
    forall k
      ensures k in FixedLinksBy(after, day) <==> k in FixedLinksBy(db, day) && k !in Unfixed(db, Delete(s, pick, at))
    {
      assert Lookup(after.links, k) == DeletedLink(db.sboms, db.links, s, pick, at, k);
    }
  }
}
