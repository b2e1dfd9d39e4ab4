/** Which vulnerabilities count as open: today, from statuses, and on a past day, from dates. */
module Snapshots {
  import opened Store
  import opened Scanner
  import opened Scanning
  import opened Deletion
  import opened Retention
  import opened Acceptances
  import opened Lifecycle

  /* ----- open today and open on a past day ----- */

  predicate HasSeverity(db: Db, c: CveId) {
    c in db.vulns && db.vulns[c].severity.Some?
  }

  /** The live branch: vulnerabilities with an actionable open link and a severity. */
  function OpenNow(db: Db): set<CveId> {
    set k | k in Actionable(db) && HasSeverity(db, k.cve) :: k.cve
  }

  predicate CoveredAsOf(acceptances: map<AcceptanceId, Acceptance>, cve: CveId, sbom: Sbom, end: Time) {
    exists a :: a in acceptances && acceptances[a].created <= end && Covers(acceptances[a], cve, sbom)
  }

  predicate OpenLinkAsOf(l: Link, end: Time) {
    l.detectedAt <= end && (l.fixedAt.None? || l.fixedAt.value > end)
  }

  /** The links that count for a past day: detected by its end, not fixed by then, not accepted by then. */
  function LinksAsOf(db: Db, end: Time): set<LinkKey> {
    set k | k in db.links && k.sbom in db.sboms && OpenLinkAsOf(db.links[k], end)
            && HasSeverity(db, k.cve) && !CoveredAsOf(db.acceptances, k.cve, db.sboms[k.sbom], end)
  }

  function CvesOf(keys: set<LinkKey>): set<CveId> {
    set k | k in keys :: k.cve
  }

  function OpenAsOf(db: Db, end: Time): set<CveId> {
    CvesOf(LinksAsOf(db, end))
  }

  /** Every stored timestamp lies at or before `end`. */
  ghost predicate AllBy(db: Db, end: Time) {
    && (forall k :: k in db.links ==> db.links[k].detectedAt <= end
                                      && (db.links[k].fixedAt.Some? ==> db.links[k].fixedAt.value <= end))
    && (forall a :: a in db.acceptances ==> db.acceptances[a].created <= end)
  }

  function RatedNow(db: Db): set<LinkKey> {
    set k | k in Actionable(db) && HasSeverity(db, k.cve)
  }

  /** How the branches differ, link by link: the live one adds what is dated after the day, and leaves out
      what was fixed or accepted since. */
  lemma BranchesDiffer(db: Db, end: Time)
    requires FixedIffDated(db.links)
    ensures RatedNow(db) - LinksAsOf(db, end) == set k | k in RatedNow(db) && db.links[k].detectedAt > end
    ensures LinksAsOf(db, end) - RatedNow(db)
         == set k | k in LinksAsOf(db, end) && (db.links[k].status == Fixed || Covered(db, k.cve, db.sboms[k.sbom]))
  {
    forall k | k in db.links && k.sbom in db.sboms && CoveredAsOf(db.acceptances, k.cve, db.sboms[k.sbom], end)
      ensures Covered(db, k.cve, db.sboms[k.sbom])
    {
    }
  }

  /** Exactly when the branches count the same vulnerabilities: each one that is open now by links dated
      after the day is also counted for the day, and each one counted for it by links fixed or accepted
      since is also open now. */
  lemma BranchesAgreeIff(db: Db, end: Time)
    requires FixedIffDated(db.links)
    ensures OpenAsOf(db, end) == OpenNow(db)
            <==> && (forall k :: k in RatedNow(db) && db.links[k].detectedAt > end ==> k.cve in OpenAsOf(db, end))
                 && (forall k :: k in LinksAsOf(db, end)
                                 && (db.links[k].status == Fixed || Covered(db, k.cve, db.sboms[k.sbom]))
                                 ==> k.cve in OpenNow(db))
  {
    BranchesDiffer(db, end);
    assert OpenNow(db) == CvesOf(RatedNow(db));
    SameCves(RatedNow(db), LinksAsOf(db, end));
    assert forall k :: k in RatedNow(db) - LinksAsOf(db, end) <==> k in RatedNow(db) && db.links[k].detectedAt > end;
    assert forall k ::
        k in LinksAsOf(db, end) - RatedNow(db) <==>
        k in LinksAsOf(db, end) && (db.links[k].status == Fixed || Covered(db, k.cve, db.sboms[k.sbom]));
  }

  lemma SameCves(a: set<LinkKey>, b: set<LinkKey>)
    ensures CvesOf(b) == CvesOf(a)
            <==> (forall k :: k in a - b ==> k.cve in CvesOf(b)) && (forall k :: k in b - a ==> k.cve in CvesOf(a))
  {
    forall k | k in a ensures k.cve in CvesOf(a) {
    }
    forall k | k in b ensures k.cve in CvesOf(b) {
    }
  }

  /** In particular once the day end is past every stored timestamp. */
  lemma BranchesAgree(db: Db, end: Time)
    requires FixedIffDated(db.links) && AllBy(db, end)
    ensures OpenAsOf(db, end) == OpenNow(db)
  {
    BranchesAgreeIff(db, end);
    forall k | k in LinksAsOf(db, end)
      ensures !(db.links[k].status == Fixed || Covered(db, k.cve, db.sboms[k.sbom]))
    {
    }
  }

  /** What a scan after the day adds to it: newly linked CVEs of an SBOM dated within the day. */
  function Backdated(db: Db, s: SbomId, o: Outcome, end: Time): set<LinkKey> {
    if s !in db.sboms || Effective(db.sboms[s], o).Failed? || db.sboms[s].created > end then {}
    else
      set k | k in ReportedKeys(s, Effective(db.sboms[s], o).matches) && k !in db.links
              && !CoveredAsOf(db.acceptances, k.cve, db.sboms[s], end)
  }

  /** A scan that runs after a day changes what counts for that day by exactly its backdated
      links: retiring and reconciling after the day never removes anything from it. */
  lemma ScanAfterDay(db: Db, s: SbomId, o: Outcome, t1: Time, t2: Time, end: Time)
    requires Consistent(db) && end < t1 && end < t2
    ensures LinksAsOf(ScanSbom(db, s, o, t1, t2), end) == LinksAsOf(db, end) + Backdated(db, s, o, end)
  {
    if s in db.sboms && Effective(db.sboms[s], o).Report? {
      var ms := Effective(db.sboms[s], o).matches;
      ScanKeepsOrFixes(db.sboms, db.links, s, ms, t1, t2);
      RefreshKeepsRated(db.vulns, ms);
      ScannedAfterDay(db, s, o, ms, t1, t2, end,
                      db.(vulns := RefreshAll(db.vulns, ms), links := ScanLinks(db.sboms, db.links, s, ms, t1, t2)));
    }
  }

  lemma ScannedAfterDay(db: Db, s: SbomId, o: Outcome, ms: seq<Match>, t1: Time, t2: Time, end: Time, after: Db)
    requires NoDangling(db) && LinksRefer(db.links, db.vulns) && Rated(db.vulns) && FixedIffDated(db.links)
    requires end < t1 && end < t2
    requires s in db.sboms && Effective(db.sboms[s], o) == Report(ms)
    requires KeepsOrFixes(db.links, ReportedKeys(s, ms), db.sboms[s].created, t1, t2, after.links)
    requires Rated(after.vulns) && after.vulns.Keys == db.vulns.Keys + ReportedCves(ms)
    requires after.sboms == db.sboms && after.acceptances == db.acceptances
    ensures LinksAsOf(after, end) == LinksAsOf(db, end) + Backdated(db, s, o, end)
  {
  }

  lemma SameAcceptancesAsOf(db: Db, after: Db, end: Time)
    requires NoDanglingLinks(db)
    requires forall a: AcceptanceId :: (a in db.acceptances && db.acceptances[a].created <= end)
                         <==> (a in after.acceptances && after.acceptances[a].created <= end)
    requires forall a :: a in db.acceptances && db.acceptances[a].created <= end ==>
               after.acceptances[a] == db.acceptances[a]
    requires db.links == after.links && db.vulns == after.vulns
    requires forall s :: s in db.sboms ==> s in after.sboms && after.sboms[s] == db.sboms[s]
    ensures LinksAsOf(after, end) == LinksAsOf(db, end)
  {
  }

  ghost predicate NoDanglingLinks(db: Db) {
    forall k :: k in db.links ==> k.sbom in db.sboms
  }

  lemma AcceptAfterDay(db: Db, r: Request, id: AcceptanceId, at: Time, end: Time)
    requires NoDanglingLinks(db) && id !in db.acceptances && end < at
    ensures LinksAsOf(Accept(db, r, id, at), end) == LinksAsOf(db, end)
  {
    SameAcceptancesAsOf(db, Accept(db, r, id, at), end);
  }

  lemma UploadAfterDay(db: Db, d: Document, s: SbomId, svc: ServiceId, deps: set<DepId>, at: Time, end: Time)
    requires NoDanglingLinks(db) && s !in db.sboms
    ensures LinksAsOf(StoreDocument(db, d, s, svc, deps, at), end) == LinksAsOf(db, end)
  {
  }

  /** The links of a scope that a fix had taken out of a day by its end. */
  function FixedOutOf(db: Db, s: SbomId, end: Time): set<LinkKey>
    requires s in db.sboms
  {
    set k | k in db.links && k.sbom in Rest(db.sboms, s)
            && db.links[k].detectedAt <= end && db.links[k].fixedAt.Some? && db.links[k].fixedAt.value <= end
            && HasSeverity(db, k.cve) && !CoveredAsOf(db.acceptances, k.cve, db.sboms[k.sbom], end)
  }

  function LinksOn(db: Db, s: SbomId): set<LinkKey> {
    set k | k in db.links && k.sbom == s
  }

  /** Deleting an SBOM does rewrite the past, and this is by how much: its own links leave the
      day, and every link of the scope that was fixed by then comes back. */
  lemma DeleteAfterDay(db: Db, s: SbomId, pick: Option<SbomId>, t: Time, end: Time)
    requires Consistent(db) && end < t && s in db.sboms && ValidPick(db.sboms, s, pick)
    ensures LinksAsOf(DeleteSbom(db, s, pick, t), end)
         == LinksAsOf(db, end) - LinksOn(db, s) + FixedOutOf(db, s, end)
  {
    OwnedServicesGiveScopes(db);
    DeleteIsPointwise(db.sboms, db.links, s, pick, t);
    DeletedAfterDay(db, s, pick, t, end, DeleteSbom(db, s, pick, t));
  }

  lemma DeletedAfterDay(db: Db, s: SbomId, pick: Option<SbomId>, t: Time, end: Time, after: Db)
    requires NoDangling(db) && FixedIffDated(db.links) && end < t && s in db.sboms
        && (pick.Some? ==> pick.value in Rest(db.sboms, s))
    requires DeletesTo(db.sboms, db.links, s, pick, t, after.links)
    requires after.sboms == db.sboms - {s} && after.vulns == db.vulns && after.acceptances == db.acceptances
    ensures LinksAsOf(after, end) == LinksAsOf(db, end) - LinksOn(db, s) + FixedOutOf(db, s, end)
  {
    forall k: LinkKey
      ensures k in LinksAsOf(after, end)
              <==> (k in LinksAsOf(db, end) && k.sbom != s) || k in FixedOutOf(db, s, end)
    {
      assert Lookup(after.links, k) == DeletedLink(db.sboms, db.links, s, pick, t, k);
    }
  }

  /** The links of the SBOMs a prune deletes. */
  function LinksPruned(db: Db, cutoff: Option<Time>): set<LinkKey> {
    if cutoff.None? then {} else set k | k in db.links && k.sbom in Target(db.sboms, cutoff.value)
  }

  /** A prune takes the links of the SBOMs it deletes out of every past day. */
  lemma PruneAfterDay(db: Db, cutoff: Option<Time>, end: Time)
    requires NoDangling(db)
    ensures LinksAsOf(PruneSboms(db, cutoff), end) == LinksAsOf(db, end) - LinksPruned(db, cutoff)
  {
  }

  /** The links an acceptance keeps out of a day that they would count for. */
  function HiddenBy(db: Db, a: Acceptance, end: Time): set<LinkKey> {
    if a.created > end then {}
    else
      set k | k in db.links && k.sbom in db.sboms && OpenLinkAsOf(db.links[k], end)
              && HasSeverity(db, k.cve) && Covers(a, k.cve, db.sboms[k.sbom])
  }

  /** The row of a reverted acceptance is gone, so a revert rewrites every day since the acceptance:
      exactly the links it covered come back. */
  lemma RevertAfterDay(db: Db, id: AcceptanceId, end: Time)
    requires NoDanglingLinks(db) && Exclusive(db.acceptances) && id in db.acceptances
    ensures LinksAsOf(Revert(db, id), end) == LinksAsOf(db, end) + HiddenBy(db, db.acceptances[id], end)
  {
    var after, acc := Revert(db, id), db.acceptances[id];
    if acc.created > end {
      SameAcceptancesAsOf(db, after, end);
    } else {
      forall k | k in db.links
        ensures CoveredAsOf(after.acceptances, k.cve, db.sboms[k.sbom], end)
                <==> CoveredAsOf(db.acceptances, k.cve, db.sboms[k.sbom], end) && !Covers(acc, k.cve, db.sboms[k.sbom])
      {
        OnlyCover(db, id, k.cve, db.sboms[k.sbom], end);
      }
    }
  }

  lemma OnlyCover(db: Db, id: AcceptanceId, cve: CveId, sbom: Sbom, end: Time)
    requires Exclusive(db.acceptances) && id in db.acceptances && db.acceptances[id].created <= end
    ensures CoveredAsOf(Revert(db, id).acceptances, cve, sbom, end)
            <==> CoveredAsOf(db.acceptances, cve, sbom, end) && !Covers(db.acceptances[id], cve, sbom)
  {
    var after := Revert(db, id);
    if CoveredAsOf(db.acceptances, cve, sbom, end) {
      var a :| a in db.acceptances && db.acceptances[a].created <= end && Covers(db.acceptances[a], cve, sbom);
      assert a != id ==> a in after.acceptances;
    }
    if CoveredAsOf(after.acceptances, cve, sbom, end) {
      var a :| a in after.acceptances && after.acceptances[a].created <= end && Covers(after.acceptances[a], cve, sbom);
      assert a in db.acceptances;
    }
  }

  /* ----- every step, and whole histories ----- */

  /** What the step writes into links and acceptances is dated after the day. */
  predicate LaterThan(op: Op, end: Time) {
    match op
    case Scan(_, _, t1, t2) => end < t1 && end < t2
    case Delete(_, _, at) => end < at
    case AcceptRisk(_, _, at) => end < at
    case _ => true
  }

  /** The links a step takes out of a day before it. */
  function Lost(db: Db, op: Op): set<LinkKey> {
    match op
    case Delete(s, _, _) => LinksOn(db, s)
    case Prune(cutoff) => LinksPruned(db, cutoff)
    case _ => {}
  }

  /** The links a step brings into a day before it. */
  function Gained(db: Db, op: Op, end: Time): set<LinkKey> {
    match op
    case Scan(s, o, _, _) => Backdated(db, s, o, end)
    case Delete(s, _, _) => if s in db.sboms then FixedOutOf(db, s, end) else {}
    case RevertRisk(id) => if id in db.acceptances then HiddenBy(db, db.acceptances[id], end) else {}
    case _ => {}
  }

  /** How far history can be rewritten: the exact difference any later step makes to a past day. */
  lemma AfterDay(db: Db, op: Op, end: Time)
    requires Consistent(db) && Allowed(db, op) && LaterThan(op, end)
    ensures LinksAsOf(Apply(db, op), end) == LinksAsOf(db, end) - Lost(db, op) + Gained(db, op, end)
  {
    match op
    case Scan(s, o, t1, t2) => ScanAfterDay(db, s, o, t1, t2, end);
    case Delete(s, pick, at) =>
      if s in db.sboms {
        DeleteAfterDay(db, s, pick, at, end);
      }
    case Prune(cutoff) => PruneAfterDay(db, cutoff, end);
    case _ => LightAfterDay(db, op, end);
  }

  lemma LightAfterDay(db: Db, op: Op, end: Time)
    requires NoDangling(db) && Exclusive(db.acceptances) && Allowed(db, op) && LaterThan(op, end)
    requires !op.Scan? && !op.Delete? && !op.Prune?
    ensures LinksAsOf(Apply(db, op), end) == LinksAsOf(db, end) - Lost(db, op) + Gained(db, op, end)
  {
    match op
    case AddProject(p) => SameAcceptancesAsOf(db, Apply(db, op), end);
    case Upload(d, s, svc, deps, at) => UploadAfterDay(db, d, s, svc, deps, at, end);
    case AcceptRisk(r, id, at) => AcceptAfterDay(db, r, id, at, end);
    case RevertRisk(id) =>
      if id in db.acceptances {
        RevertAfterDay(db, id, end);
      } else {
        assert Revert(db, id) == db;
      }
  }

  /** The step leaves the count of the day alone: each vulnerability that loses links keeps or gains
      another one, and none is gained that was not counted. */
  ghost predicate Quiet(db: Db, op: Op, end: Time) {
    && (forall k :: k in LinksAsOf(db, end) * Lost(db, op) ==>
          exists o :: o in LinksAsOf(db, end) - Lost(db, op) + Gained(db, op, end) && o.cve == k.cve)
    && (forall k :: k in Gained(db, op, end) ==> k.cve in OpenAsOf(db, end))
  }

  lemma QuietIff(db: Db, op: Op, end: Time)
    requires Consistent(db) && Allowed(db, op) && LaterThan(op, end)
    ensures OpenAsOf(Apply(db, op), end) == OpenAsOf(db, end) <==> Quiet(db, op, end)
  {
    AfterDay(db, op, end);
    CvesOfDifference(LinksAsOf(db, end), Lost(db, op), Gained(db, op, end));
  }

  lemma CvesOfDifference(keys: set<LinkKey>, lost: set<LinkKey>, gained: set<LinkKey>)
    ensures CvesOf(keys - lost + gained) == CvesOf(keys)
            <==> && (forall k :: k in keys * lost ==> exists o :: o in keys - lost + gained && o.cve == k.cve)
                 && (forall k :: k in gained ==> k.cve in CvesOf(keys))
  {
    var left := keys - lost + gained;
    if CvesOf(left) == CvesOf(keys) {
      forall k | k in keys * lost
        ensures exists o :: o in left && o.cve == k.cve
      {
        assert k.cve in CvesOf(left);
      }
      forall k | k in gained
        ensures k.cve in CvesOf(keys)
      {
        assert k in left;
      }
    }
  }

  /** Over any number of later steps of any kind, the vulnerabilities counted for a day never change
      if and only if every single step is quiet. */
  lemma PastDayIsStable(run: seq<Db>, ops: seq<Op>, end: Time)
    requires History(run, ops) && Consistent(run[0])
    requires forall j :: 0 <= j < |ops| ==> LaterThan(ops[j], end)
    ensures (forall i :: 0 <= i < |run| ==> OpenAsOf(run[i], end) == OpenAsOf(run[0], end))
            <==> (forall j :: 0 <= j < |ops| ==> Quiet(run[j], ops[j], end))
  {
    forall j | 0 <= j < |ops|
      ensures OpenAsOf(run[j + 1], end) == OpenAsOf(run[j], end) <==> Quiet(run[j], ops[j], end)
    {
      ConsistentFrom(run, ops, j);
      QuietIff(run[j], ops[j], end);
    }
    if forall j :: 0 <= j < |ops| ==> Quiet(run[j], ops[j], end) {
      for i := 0 to |ops|
        invariant forall k :: 0 <= k <= i ==> OpenAsOf(run[k], end) == OpenAsOf(run[0], end)
      {
        assert Quiet(run[i], ops[i], end);
      }
    } else {
      var j :| 0 <= j < |ops| && !Quiet(run[j], ops[j], end);
      assert OpenAsOf(run[j + 1], end) != OpenAsOf(run[j], end);
    }
  }

  /** Steps of everyday use: nothing is deleted, no acceptance made by the day is reverted, and the SBOMs
      scanned are dated after it. */
  predicate Forward(db: Db, op: Op, end: Time) {
    match op
    case Scan(s, _, _, _) => s in db.sboms ==> db.sboms[s].created > end
    case Delete(_, _, _) => false
    case Prune(_) => false
    case RevertRisk(id) => id in db.acceptances ==> db.acceptances[id].created > end
    case _ => true
  }

  /** The plain guarantee: uploads, new projects, later acceptances and their reverts, and later scans of
      SBOMs dated after a day never change what counts for it. */
  lemma ForwardKeepsDay(run: seq<Db>, ops: seq<Op>, end: Time, i: nat)
    requires History(run, ops) && Consistent(run[0]) && i < |run|
    requires forall j :: 0 <= j < |ops| ==> LaterThan(ops[j], end) && Forward(run[j], ops[j], end)
    ensures OpenAsOf(run[i], end) == OpenAsOf(run[0], end)
  {
    forall j | 0 <= j < |ops|
      ensures Quiet(run[j], ops[j], end)
    {
      assert Lost(run[j], ops[j]) == {} && Gained(run[j], ops[j], end) == {};
    }
    PastDayIsStable(run, ops, end);
  }
}
