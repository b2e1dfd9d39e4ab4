/** Every operation on the store as one step, and what all sequences of steps keep. */
module Lifecycle {
  import opened Store
  import opened Scanner
  import opened Scanning
  import opened Deletion
  import opened Retention
  import opened Acceptances

  /** An upload request: `name` is the service name, given or found in the document ("" when
      neither), `stamp` the document's own timestamp. */
  datatype Document = Document(project: ProjectId, name: string, sha: string, stamp: Option<Time>, blank: bool)

  predicate Stored(db: Db, sha: string) {
    exists s :: s in db.sboms && db.sboms[s].sha == sha
  }

  /** `svc` is the service of that name in the project, or a new id when there is none. */
  ghost predicate ValidService(db: Db, d: Document, svc: ServiceId) {
    || (svc in db.services && db.services[svc] == Service(d.project, d.name))
    || (svc !in db.services && forall v :: v in db.services ==> db.services[v] != Service(d.project, d.name))
  }

  /** Storing a document: nothing happens for an unknown project or a document seen before. */
  function StoreDocument(db: Db, d: Document, s: SbomId, svc: ServiceId, deps: set<DepId>, now: Time): Db {
    if d.project !in db.projects || Stored(db, d.sha) then db
    else
      var service := if d.name == "" then None else Some(svc);
      var created := if d.stamp.Some? then d.stamp.value else now;
      db.(services := if d.name == "" then db.services else db.services[svc := Service(d.project, d.name)],
          sboms := db.sboms[s := Sbom(d.project, service, d.sha, now, created, d.blank)],
          deps := db.deps + (map x | x in deps :: s))
  }

  /** A document is stored once, whichever project or name it comes back with. */
  lemma SecondUploadIsIdle(db: Db, d: Document, s: SbomId, svc: ServiceId, deps: set<DepId>, now: Time,
                           again: Document, s2: SbomId, svc2: ServiceId, deps2: set<DepId>, later: Time)
    requires again.sha == d.sha && d.project in db.projects && s !in db.sboms
    ensures var once := StoreDocument(db, d, s, svc, deps, now);
            StoreDocument(once, again, s2, svc2, deps2, later) == once
  {
    var once := StoreDocument(db, d, s, svc, deps, now);
    if Stored(db, d.sha) {
      var e :| e in db.sboms && db.sboms[e].sha == d.sha;
      assert once == db;
    } else {
      assert s in once.sboms && once.sboms[s].sha == again.sha;
    }
  }

  /** A new document becomes the latest SBOM of its scope when the clock has moved on, whatever
      date the document carries, and no other scope gets a new latest SBOM. */
  lemma UploadBecomesLatest(db: Db, d: Document, s: SbomId, svc: ServiceId, deps: set<DepId>, now: Time)
    requires d.project in db.projects && !Stored(db, d.sha) && s !in db.sboms
    requires forall o :: o in db.sboms ==> db.sboms[o].uploaded < now
    ensures var after := StoreDocument(db, d, s, svc, deps, now);
            && after.deps.Keys == db.deps.Keys + deps && (forall x :: x in deps ==> after.deps[x] == s)
            && s in LatestIds(after.sboms)
            && after.sboms[s].project == d.project
            && (d.name == "" <==> after.sboms[s].service.None?)
            && (d.name != "" ==> after.services[after.sboms[s].service.value] == Service(d.project, d.name))
            && (forall o :: o in db.sboms ==>
                  (o in LatestIds(after.sboms)
                   <==> o in LatestIds(db.sboms) && !SameScope(db.sboms[o], after.sboms[s])))
  {
    var after := StoreDocument(db, d, s, svc, deps, now);
    NewestIsLatest(db.sboms, s, after.sboms[s]);
  }

  lemma NewestIsLatest(sboms: map<SbomId, Sbom>, s: SbomId, sbom: Sbom)
    requires s !in sboms && forall o :: o in sboms ==> sboms[o].uploaded < sbom.uploaded
    ensures s in LatestIds(sboms[s := sbom])
    ensures forall o :: o in sboms ==>
              (o in LatestIds(sboms[s := sbom]) <==> o in LatestIds(sboms) && !SameScope(sboms[o], sbom))
  {
    var more := sboms[s := sbom];
    LatestBeatsAll(more, s);
    forall o | o in sboms
      ensures o in LatestIds(more) <==> o in LatestIds(sboms) && !SameScope(sboms[o], sbom)
    {
      if SameScope(sboms[o], sbom) {
        assert s in Beaters(more, o);
      } else {
        assert Beaters(more, o) == Beaters(sboms, o);
      }
    }
  }

  datatype Op =
    | AddProject(project: ProjectId)
    | Upload(document: Document, newSbom: SbomId, svc: ServiceId, newDeps: set<DepId>, at: Time)
    | Scan(sbom: SbomId, outcome: Outcome, retireAt: Time, reconcileAt: Time)
    | Delete(sbom: SbomId, pick: Option<SbomId>, at: Time)
    | Prune(cutoff: Option<Time>)
    | AcceptRisk(request: Request, id: AcceptanceId, at: Time)
    | RevertRisk(id: AcceptanceId)

  /** New ids are new, and a query answers what the table holds. */
  ghost predicate Allowed(db: Db, op: Op) {
    match op
    case Upload(d, s, svc, deps, _) => s !in db.sboms && deps !! db.deps.Keys && ValidService(db, d, svc)
    case Delete(s, pick, _) => s in db.sboms ==> ValidPick(db.sboms, s, pick)
    case AcceptRisk(_, id, _) => id !in db.acceptances
    case _ => true
  }

  ghost function Apply(db: Db, op: Op): Db
    requires Allowed(db, op)
  {
    match op
    case AddProject(p) => db.(projects := db.projects + {p})
    case Upload(d, s, svc, deps, at) => StoreDocument(db, d, s, svc, deps, at)
    case Scan(s, o, t1, t2) => ScanSbom(db, s, o, t1, t2)
    case Delete(s, pick, at) => DeleteSbom(db, s, pick, at)
    case Prune(cutoff) => PruneSboms(db, cutoff)
    case AcceptRisk(r, id, at) => Accept(db, r, id, at)
    case RevertRisk(id) => Revert(db, id)
  }

  /** `run` is a history of the store: each state is the previous one after the matching step. */
  ghost predicate History(run: seq<Db>, ops: seq<Op>) {
    && |run| == |ops| + 1
    && forall i :: 0 <= i < |ops| ==> Allowed(run[i], ops[i]) && run[i + 1] == Apply(run[i], ops[i])
  }

  /* ----- what every history keeps ----- */

  /** A link is fixed exactly when it has a fix date. */
  ghost predicate FixedIffDated(links: map<LinkKey, Link>) {
    forall k :: k in links ==> (links[k].status == Fixed <==> links[k].fixedAt.Some?)
  }

  ghost predicate Rated(vulns: map<CveId, Vuln>) {
    forall c :: c in vulns ==> vulns[c].severity.Some?
  }

  ghost predicate LinksRefer(links: map<LinkKey, Link>, vulns: map<CveId, Vuln>) {
    forall k :: k in links ==> k.cve in vulns
  }

  ghost predicate UniqueDocuments(sboms: map<SbomId, Sbom>) {
    forall a, b :: a in sboms && b in sboms && sboms[a].sha == sboms[b].sha ==> a == b
  }

  ghost predicate UniqueNames(services: map<ServiceId, Service>) {
    forall a, b :: a in services && b in services && services[a] == services[b] ==> a == b
  }

  ghost predicate Consistent(db: Db) {
    && ServicesOwned(db)
    && NoDangling(db)
    && LinksRefer(db.links, db.vulns)
    && FixedIffDated(db.links)
    && Rated(db.vulns)
    && UniqueDocuments(db.sboms)
    && UniqueNames(db.services)
    && Exclusive(db.acceptances)
  }

  lemma UploadConsistent(db: Db, d: Document, s: SbomId, svc: ServiceId, deps: set<DepId>, now: Time)
    requires Consistent(db)
    requires s !in db.sboms && deps !! db.deps.Keys && ValidService(db, d, svc)
    ensures Consistent(StoreDocument(db, d, s, svc, deps, now))
  {
  }

  lemma ScanDates(sboms: map<SbomId, Sbom>, links: map<LinkKey, Link>, s: SbomId, ms: seq<Match>, t1: Time, t2: Time)
    requires s in sboms && FixedIffDated(links)
    ensures FixedIffDated(ScanLinks(sboms, links, s, ms, t1, t2))
  {
  }

  lemma RefreshKeepsRated(vulns: map<CveId, Vuln>, ms: seq<Match>)
    requires Rated(vulns)
    ensures Rated(RefreshAll(vulns, ms))
    ensures RefreshAll(vulns, ms).Keys == vulns.Keys + ReportedCves(ms)
  {
  }

  lemma ScanConsistent(db: Db, s: SbomId, o: Outcome, t1: Time, t2: Time)
    requires Consistent(db)
    ensures Consistent(ScanSbom(db, s, o, t1, t2))
  {
    if s in db.sboms && Effective(db.sboms[s], o).Report? {
      var ms := Effective(db.sboms[s], o).matches;
      RefreshKeepsRated(db.vulns, ms);
      ScanDates(db.sboms, db.links, s, ms, t1, t2);
      ScanSettlesScope(db.sboms, db.links, s, ms, t1, t2);
      ScannedRefer(db, s, ms, ScanLinks(db.sboms, db.links, s, ms, t1, t2), RefreshAll(db.vulns, ms));
    }
  }

  lemma ScannedRefer(db: Db, s: SbomId, ms: seq<Match>, links: map<LinkKey, Link>, vulns: map<CveId, Vuln>)
    requires Consistent(db) && s in db.sboms
    requires links.Keys == db.links.Keys + ReportedKeys(s, ms)
    requires vulns.Keys == db.vulns.Keys + ReportedCves(ms)
    requires FixedIffDated(links) && Rated(vulns)
    ensures Consistent(db.(vulns := vulns, links := links))
  {
  }

  lemma DeleteConsistent(db: Db, s: SbomId, pick: Option<SbomId>, t: Time)
    requires Consistent(db) && (s in db.sboms ==> ValidPick(db.sboms, s, pick))
    ensures Consistent(DeleteSbom(db, s, pick, t))
  {
    if s in db.sboms {
      OwnedServicesGiveScopes(db);
      var after := DeleteLinks(db.sboms, db.links, s, pick, t);
      DeleteIsPointwise(db.sboms, db.links, s, pick, t);
      DeletedKeys(db.sboms, db.links, s, pick, t, after);
      DeletedDates(db.sboms, db.links, s, pick, t, after);
    }
  }

  lemma DeletedDates(sboms: map<SbomId, Sbom>, links: map<LinkKey, Link>, s: SbomId, pick: Option<SbomId>, t: Time,
                     after: map<LinkKey, Link>)
    requires s in sboms && (pick.Some? ==> pick.value in Rest(sboms, s))
    requires DeletesTo(sboms, links, s, pick, t, after) && FixedIffDated(links)
    ensures FixedIffDated(after)
  {
    forall k | k in after
      ensures after[k].status == Fixed <==> after[k].fixedAt.Some?
    {
      assert Lookup(after, k) == DeletedLink(sboms, links, s, pick, t, k);
    }
  }

  lemma PruneConsistent(db: Db, cutoff: Option<Time>)
    requires Consistent(db)
    ensures Consistent(PruneSboms(db, cutoff))
  {
  }

  lemma StepConsistent(db: Db, op: Op)
    requires Consistent(db) && Allowed(db, op)
    ensures Consistent(Apply(db, op))
  {
    match op
    case AddProject(p) =>
    case Upload(d, s, svc, deps, at) => UploadConsistent(db, d, s, svc, deps, at);
    case Scan(s, o, t1, t2) => ScanConsistent(db, s, o, t1, t2);
    case Delete(s, pick, at) => DeleteConsistent(db, s, pick, at);
    case Prune(cutoff) => PruneConsistent(db, cutoff);
    case AcceptRisk(r, id, at) => AcceptKeepsExclusive(db, r, id, at);
    case RevertRisk(id) => RevertKeepsExclusive(db, id);
  }

  lemma {:induction false} ConsistentFrom(run: seq<Db>, ops: seq<Op>, i: nat)
    requires History(run, ops) && Consistent(run[0]) && i < |run|
    ensures Consistent(run[i])
  {
    if i > 0 {
      ConsistentFrom(run, ops, i - 1);
      StepConsistent(run[i - 1], ops[i - 1]);
    }
  }

  /** In every history that starts empty, every state is consistent: in particular links are
      fixed exactly when dated, nothing dangles, and acceptances exclude each other. */
  lemma AlwaysConsistent(run: seq<Db>, ops: seq<Op>, i: nat)
    requires History(run, ops) && run[0] == EMPTY_DB && i < |run|
    ensures Consistent(run[i])
  {
    ConsistentFrom(run, ops, i);
  }
}
