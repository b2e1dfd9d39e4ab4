/** What the operations on the store do, said from rows, fields and literals: each lemma names an
    operation and nothing that helps to define it. */
module Meaning {
  import opened Store
  import opened Scanner
  import opened Scanning
  import opened Deletion
  import opened Retention
  import opened Acceptances
  import opened Lifecycle
  import opened Snapshots
  import opened SeverityCounts
  import FindingStore

  /* ----- scopes, coverage ----- */

  /** The latest SBOM of its scope: every other one of the same project and service was uploaded before
      it, or at the same instant with a smaller id. */
  lemma LatestMeans(sboms: map<SbomId, Sbom>, l: SbomId)
    ensures l in LatestIds(sboms)
            <==> && l in sboms
                 && forall o :: o in sboms && o != l && sboms[o].project == sboms[l].project
                                && sboms[o].service == sboms[l].service ==>
                      || sboms[o].uploaded < sboms[l].uploaded
                      || (sboms[o].uploaded == sboms[l].uploaded && o < l)
  {
    if l in sboms {
      LatestBeatsAll(sboms, l);
    }
  }

  /** An acceptance row hides the vulnerability in its project, or in its service when it names one. */
  predicate Hides(a: Acceptance, cve: CveId, sbom: Sbom) {
    a.cve == cve && a.project == sbom.project && (a.service == None || a.service == sbom.service)
  }

  lemma ActionableMeans(db: Db, k: LinkKey)
    ensures k in Actionable(db)
            <==> && k in db.links && k.sbom in db.sboms && db.links[k].status == Open
                 && forall a :: a in db.acceptances ==> !Hides(db.acceptances[a], k.cve, db.sboms[k.sbom])
  {
    if k.sbom in db.sboms {
      assert forall a :: a in db.acceptances ==>
          Hides(db.acceptances[a], k.cve, db.sboms[k.sbom]) == Covers(db.acceptances[a], k.cve, db.sboms[k.sbom]);
    }
  }

  /* ----- uploads ----- */

  /** An upload to a project that does not exist, or of a document that is stored, changes nothing; any other
      adds one SBOM with its dependencies, under the service of that name in the project, dated by the
      document if it carries a date and by the clock otherwise. */
  lemma UploadMeans(db: Db, d: Document, s: SbomId, svc: ServiceId, deps: set<DepId>, now: Time)
    requires s !in db.sboms && deps !! db.deps.Keys && ValidService(db, d, svc)
    ensures var after := StoreDocument(db, d, s, svc, deps, now);
            if d.project !in db.projects || exists o :: o in db.sboms && db.sboms[o].sha == d.sha then after == db
            else
              && after == db.(services := after.services, sboms := after.sboms, deps := after.deps)
              && after.sboms.Keys == db.sboms.Keys + {s}
              && (forall o :: o in db.sboms ==> after.sboms[o] == db.sboms[o])
              && after.sboms[s].project == d.project && after.sboms[s].sha == d.sha && after.sboms[s].blank == d.blank
              && after.sboms[s].uploaded == now
              && after.sboms[s].created == (if d.stamp == None then now else d.stamp.value)
              && (after.sboms[s].service == None <==> d.name == "")
              && (d.name == "" ==> after.services == db.services)
              && (d.name != "" ==>
                    && after.sboms[s].service.value in after.services
                    && after.services[after.sboms[s].service.value] == Service(d.project, d.name)
                    && (forall v :: v in db.services ==> v in after.services && after.services[v] == db.services[v])
                    && (forall v :: v in after.services && v !in db.services ==> v == after.sboms[s].service.value))
              && (forall x :: x in after.deps <==> x in db.deps || x in deps)
              && (forall x :: x in after.deps ==> after.deps[x] == if x in deps then s else db.deps[x])
  {
    assert Stored(db, d.sha) <==> exists o :: o in db.sboms && db.sboms[o].sha == d.sha;
  }

  /* ----- scans ----- */

  /** A scanner that fails on a document leaves the store alone, and so does an SBOM that is gone. */
  lemma FailedScanIsIdle(db: Db, s: SbomId, o: Outcome, t1: Time, t2: Time)
    ensures s !in db.sboms ==> ScanSbom(db, s, o, t1, t2) == db
    ensures s in db.sboms && !db.sboms[s].blank ==> ScanSbom(db, s, Failed, t1, t2) == db
  {
  }

  /** An empty document counts as scanned clean, whatever the scanner would have done. */
  lemma BlankScanIsClean(db: Db, s: SbomId, o: Outcome, t1: Time, t2: Time)
    requires s in db.sboms && db.sboms[s].blank
    ensures ScanSbom(db, s, o, t1, t2) == ScanSbom(db, s, Report([]), t1, t2)
    ensures forall k :: k in ScanSbom(db, s, o, t1, t2).links && k.sbom == s ==>
              ScanSbom(db, s, o, t1, t2).links[k].status == Fixed
  {
    ScanSettlesScope(db.sboms, db.links, s, [], t1, t2);
    var after := ScanSbom(db, s, o, t1, t2).links;
    forall k | k in after && k.sbom == s
      ensures after[k].status == Fixed
    {
      assert after[k].status == Open ==> k.cve in OpenCves(after, s);
    }
  }

  /** What a report does to the links of the scanned SBOM: a reported pair without a link gets an open one,
      dated by the SBOM; an open link whose CVE no match names is fixed now; no other link moves. */
  lemma ScannedSbomMeans(db: Db, s: SbomId, ms: seq<Match>, t1: Time, t2: Time, k: LinkKey)
    requires s in db.sboms && !db.sboms[s].blank && k.sbom == s
    ensures var after := ScanSbom(db, s, Report(ms), t1, t2).links;
            && (k in after <==>
                  k in db.links || (exists m :: m in ms && m.cve == k.cve != "" && m.purl == k.purl != ""))
            && (k !in db.links && k in after ==> after[k] == Link(Open, None, db.sboms[s].created))
            && (k in db.links ==>
                  after[k] == if db.links[k].status == Open && !(exists m :: m in ms && m.cve == k.cve != "")
                              then Link(Fixed, Some(t1), db.links[k].detectedAt) else db.links[k])
  {
    ScanLinkByLink(db.sboms, db.links, s, ms, t1, t2, k);
    assert k.sbom !in OlderIds(db.sboms, s);
    assert k.cve in ReportedCves(ms) <==> exists m :: m in ms && m.cve == k.cve != "";
    assert k in ReportedKeys(s, ms) <==> exists m :: m in ms && m.cve == k.cve != "" && m.purl == k.purl != "";
  }

  /** And to all other links: an open one on an SBOM of the same project and service that was uploaded
      earlier is fixed when its CVE is open on no package of the scanned SBOM; no other link moves. */
  lemma ScannedScopeMeans(db: Db, s: SbomId, ms: seq<Match>, t1: Time, t2: Time, k: LinkKey)
    requires ServicesOwned(db) && s in db.sboms && !db.sboms[s].blank && k.sbom != s
    ensures var after := ScanSbom(db, s, Report(ms), t1, t2).links;
            && (k in after <==> k in db.links)
            && (k in db.links ==>
                  after[k] == if && db.links[k].status == Open && k.sbom in db.sboms
                                 && db.sboms[k.sbom].project == db.sboms[s].project
                                 && db.sboms[k.sbom].service == db.sboms[s].service
                                 && db.sboms[k.sbom].uploaded < db.sboms[s].uploaded
                                 && !(exists j :: j in after && j.sbom == s && j.cve == k.cve
                                                  && after[j].status == Open)
                              then Link(Fixed, Some(t2), db.links[k].detectedAt) else db.links[k])
  {
    OwnedServicesGiveScopes(db);
    var after := ScanSbom(db, s, Report(ms), t1, t2).links;
    ScanLinkByLink(db.sboms, db.links, s, ms, t1, t2, k);
    ScanSettlesScope(db.sboms, db.links, s, ms, t1, t2);
    assert k.cve in OpenCves(after, s) <==>
        exists j :: j in after && j.sbom == s && j.cve == k.cve && after[j].status == Open;
    if k.sbom in db.sboms {
      assert k.sbom in OlderIds(db.sboms, s) <==> && SameScope(db.sboms[s], db.sboms[k.sbom])
                                                  && db.sboms[k.sbom].uploaded < db.sboms[s].uploaded;
    }
  }

  /** A scan touches links and vulnerability rows only. */
  lemma ScanTouches(db: Db, s: SbomId, o: Outcome, t1: Time, t2: Time)
    ensures var after := ScanSbom(db, s, o, t1, t2);
            after == db.(vulns := after.vulns, links := after.links)
  {
  }

  /** One more match of a report on the vulnerability rows: no id, no effect; the row of its CVE takes
      severity, score and payload from it, the other fields only where it has them, and its package once. */
  lemma MatchMeans(vulns: map<CveId, Vuln>, ms: seq<Match>, m: Match)
    ensures RefreshAll(vulns, []) == vulns
    ensures var before, after := RefreshAll(vulns, ms), RefreshAll(vulns, ms + [m]);
            && (forall c :: c in after <==> c in before || c == m.cve != "")
            && (forall c :: c in before && (c != m.cve || m.cve == "") ==> after[c] == before[c])
            && (m.cve != "" ==>
                  && after[m.cve].severity == Some(m.severity) && after[m.cve].cvss == m.cvss
                  && after[m.cve].extra == m.payload
                  && after[m.cve].epss == (if m.epss.Some? || m.cve !in before then m.epss else before[m.cve].epss)
                  && after[m.cve].percentile ==
                       (if m.percentile.Some? || m.cve !in before then m.percentile else before[m.cve].percentile)
                  && after[m.cve].published ==
                       (if m.published.Some? || m.cve !in before then m.published else before[m.cve].published)
                  && after[m.cve].summary ==
                       (if m.description != "" || m.cve !in before then m.description else before[m.cve].summary)
                  && (var was := if m.cve in before then before[m.cve].affected else [];
                      after[m.cve].affected == if m.purl == "" || m.purl in was then was else was + [m.purl]))
  {
    assert (ms + [m])[..|ms|] == ms;
  }

  lemma ScanRefreshes(db: Db, s: SbomId, ms: seq<Match>, t1: Time, t2: Time)
    requires s in db.sboms && !db.sboms[s].blank
    ensures ScanSbom(db, s, Report(ms), t1, t2).vulns == RefreshAll(db.vulns, ms)
  {
  }

  /* ----- deletion ----- */

  /** `o` is another SBOM of the same project and service. */
  predicate Sibling(sboms: map<SbomId, Sbom>, o: SbomId, s: SbomId)
    requires s in sboms
  {
    o in sboms && o != s && sboms[o].project == sboms[s].project && sboms[o].service == sboms[s].service
  }

  /** The SBOM the deletion settles on: one of the same project and service that was uploaded last. */
  lemma PickMeans(sboms: map<SbomId, Sbom>, s: SbomId, pick: Option<SbomId>)
    requires s in sboms
    ensures ValidPick(sboms, s, pick)
            <==> if pick.None? then forall o :: !Sibling(sboms, o, s)
                 else Sibling(sboms, pick.value, s)
                      && forall o :: Sibling(sboms, o, s) ==> sboms[o].uploaded <= sboms[pick.value].uploaded
  {
    assert forall o :: o in Rest(sboms, s) <==> Sibling(sboms, o, s);
    if pick == None && Rest(sboms, s) != {} {
      var o :| o in Rest(sboms, s);
    }
  }

  /** The rows a deletion takes away, and what it does not touch. */
  lemma DeleteTakes(db: Db, s: SbomId, pick: Option<SbomId>, t: Time)
    requires ServicesOwned(db) && s in db.sboms && ValidPick(db.sboms, s, pick)
    ensures var after := DeleteSbom(db, s, pick, t);
            && after == db.(sboms := after.sboms, deps := after.deps, links := after.links)
            && after.sboms == db.sboms - {s}
            && (forall d :: d in after.deps <==> d in db.deps && db.deps[d] != s)
            && (forall d :: d in after.deps ==> after.deps[d] == db.deps[d])
            && (forall k :: k in after.links <==> k in db.links && k.sbom != s)
  {
    OwnedServicesGiveScopes(db);
    DeleteIsPointwise(db.sboms, db.links, s, pick, t);
    DeletedKeys(db.sboms, db.links, s, pick, t, DeleteLinks(db.sboms, db.links, s, pick, t));
  }

  /** What a deletion leaves of a link: in another project or service, the link; in the same one, fixed now
      when its SBOM was uploaded before the one settled on and its CVE has no link there, and open
      otherwise. */
  lemma DeletedMeans(db: Db, s: SbomId, pick: Option<SbomId>, t: Time, k: LinkKey)
    requires ServicesOwned(db) && s in db.sboms && ValidPick(db.sboms, s, pick)
    requires k in db.links && k.sbom in db.sboms && k.sbom != s
    ensures var after, l := DeleteSbom(db, s, pick, t).links, db.links[k];
            && k in after
            && after[k] ==
                 if || db.sboms[k.sbom].project != db.sboms[s].project
                    || db.sboms[k.sbom].service != db.sboms[s].service then l
                 else if && pick.Some? && db.sboms[k.sbom].uploaded < db.sboms[pick.value].uploaded
                         && !(exists j :: j in db.links && j.sbom == pick.value && j.cve == k.cve)
                   then Link(Fixed, Some(t), l.detectedAt)
                 else if l.status == Fixed then Link(Open, None, l.detectedAt)
                 else l
  {
    OwnedServicesGiveScopes(db);
    DeleteLinkByLink(db.sboms, db.links, s, pick, t, k);
    if pick.Some? {
      assert k.cve in LinkedCves(db.links, pick.value) <==>
          exists j :: j in db.links && j.sbom == pick.value && j.cve == k.cve;
    }
  }

  /* ----- retention ----- */

  /** What a prune keeps: SBOMs dated from the cutoff on, and of each project and service the one uploaded
      last, greatest id first; and the links and dependencies of what it keeps. */
  lemma PruneMeans(db: Db, c: Time)
    requires NoDangling(db)
    ensures PruneSboms(db, None) == db
    ensures var after := PruneSboms(db, Some(c));
            && after == db.(sboms := after.sboms, deps := after.deps, links := after.links)
            && (forall s :: s in after.sboms <==>
                  s in db.sboms && (db.sboms[s].created >= c || UploadedLast(db.sboms, s)))
            && (forall s :: s in after.sboms ==> after.sboms[s] == db.sboms[s])
            && (forall k :: k in after.links <==> k in db.links && k.sbom in after.sboms)
            && (forall k :: k in after.links ==> after.links[k] == db.links[k])
            && (forall d :: d in after.deps <==> d in db.deps && db.deps[d] in after.sboms)
            && (forall d :: d in after.deps ==> after.deps[d] == db.deps[d])
  {
    NothingDangles(db, c);
    forall s | s in db.sboms
      ensures s in db.sboms - Target(db.sboms, c) <==> db.sboms[s].created >= c || UploadedLast(db.sboms, s)
    {
      KeptExactly(db.sboms, c, s);
      LatestMeans(db.sboms, s);
      LatestBeatsAll(db.sboms, s);
    }
  }

  ghost predicate UploadedLast(sboms: map<SbomId, Sbom>, l: SbomId)
    requires l in sboms
  {
    forall o :: o in sboms && o != l && sboms[o].project == sboms[l].project && sboms[o].service == sboms[l].service ==>
      sboms[o].uploaded < sboms[l].uploaded || (sboms[o].uploaded == sboms[l].uploaded && o < l)
  }

  /* ----- acceptances ----- */

  /** Some link of the project, and of the service when one is named, is open for the vulnerability. */
  ghost predicate OpenFor(db: Db, r: Request) {
    exists k :: k in db.links && k.cve == r.cve && db.links[k].status == Open && k.sbom in db.sboms
                && db.sboms[k.sbom].project == r.project && (r.service == None || db.sboms[k.sbom].service == r.service)
  }

  ghost predicate ServiceFits(db: Db, r: Request) {
    r.service == None || (r.service.value in db.services && db.services[r.service.value].project == r.project)
  }

  /** The row `a` is for the requested project and vulnerability. */
  predicate Concerns(a: Acceptance, r: Request) {
    a.project == r.project && a.cve == r.cve
  }

  /** A request is served exactly when project, vulnerability and service exist and fit, something is open
      for it, and no row stands in its way: none at all for a project-wide request, none for the
      project or for the same service otherwise. Then its row is the only effect. */
  lemma AcceptMeans(db: Db, r: Request, id: AcceptanceId, now: Time)
    requires id !in db.acceptances
    ensures var served := && r.project in db.projects && r.cve in db.vulns && ServiceFits(db, r) && OpenFor(db, r)
                          && forall a :: a in db.acceptances && Concerns(db.acceptances[a], r) ==>
                               && r.service.Some? && db.acceptances[a].service.Some?
                               && db.acceptances[a].service != r.service;
            && (served <==> Check(db, r) == None)
            && Accept(db, r, id, now) ==
                 if served then db.(acceptances := db.acceptances[id := Acceptance(r.project, r.service, r.cve, now)])
                 else db
  {
    assert OpenFor(db, r) <==> OpenInScope(db, r);
    assert forall a :: a in Existing(db.acceptances, r) <==> a in db.acceptances && Concerns(db.acceptances[a], r);
    if Existing(db.acceptances, r) != {} {
      var a :| a in Existing(db.acceptances, r);
    }
  }

  /** The same condition by its purpose: a request is served exactly when its row would hide an open link
      and leave acceptances of one vulnerability exclusive. */
  lemma ServedIff(db: Db, r: Request, id: AcceptanceId, now: Time)
    requires Exclusive(db.acceptances) && id !in db.acceptances
    ensures var acc := Acceptance(r.project, r.service, r.cve, now);
            Accept(db, r, id, now).acceptances == db.acceptances[id := acc]
            <==> && r.project in db.projects && r.cve in db.vulns && ServiceFits(db, r)
                 && CoveredBy(db, acc) != {} && Exclusive(db.acceptances[id := acc])
  {
    var acc := Acceptance(r.project, r.service, r.cve, now);
    AcceptMeans(db, r, id, now);
    RoomIffExclusive(db.acceptances, r, id, now);
    if OpenFor(db, r) {
      var k :| k in db.links && k.cve == r.cve && db.links[k].status == Open && k.sbom in db.sboms
               && db.sboms[k.sbom].project == r.project && (r.service == None || db.sboms[k.sbom].service == r.service);
      assert k in CoveredBy(db, acc);
    }
    if CoveredBy(db, acc) != {} {
      var k :| k in CoveredBy(db, acc);
      assert OpenFor(db, r);
    }
    assert id in db.acceptances[id := acc];
  }

  lemma RoomIffExclusive(acceptances: map<AcceptanceId, Acceptance>, r: Request, id: AcceptanceId, now: Time)
    requires Exclusive(acceptances) && id !in acceptances
    ensures Exclusive(acceptances[id := Acceptance(r.project, r.service, r.cve, now)])
            <==> forall a :: a in acceptances && Concerns(acceptances[a], r) ==>
                   r.service.Some? && acceptances[a].service.Some? && acceptances[a].service != r.service
  {
    var more := acceptances[id := Acceptance(r.project, r.service, r.cve, now)];
    if Exclusive(more) {
      forall a | a in acceptances && Concerns(acceptances[a], r)
        ensures r.service.Some? && acceptances[a].service.Some? && acceptances[a].service != r.service
      {
        assert a in more && id in more && a != id;
      }
    }
  }

  /** Which refusal answers which request, the first that applies in this order. */
  lemma RefusalMeans(db: Db, r: Request)
    ensures Check(db, r) == Some(ProjectNotFound) <==> r.project !in db.projects
    ensures Check(db, r) == Some(VulnerabilityNotFound) <==> r.project in db.projects && r.cve !in db.vulns
    ensures var known := r.project in db.projects && r.cve in db.vulns;
            && (Check(db, r) == Some(ServiceNotInProject) <==> known && !ServiceFits(db, r))
            && (Check(db, r) == Some(NotOpenInScope) <==> known && ServiceFits(db, r) && !OpenFor(db, r))
    ensures var open := r.project in db.projects && r.cve in db.vulns && ServiceFits(db, r) && OpenFor(db, r);
            var whole := exists a :: a in db.acceptances && Concerns(db.acceptances[a], r)
                                     && db.acceptances[a].service == None;
            var same := exists a :: a in db.acceptances && Concerns(db.acceptances[a], r)
                                     && db.acceptances[a].service == r.service;
            && (Check(db, r) == Some(AcceptedForProject) <==>
                  open && r.service == None && exists a :: a in db.acceptances && Concerns(db.acceptances[a], r))
            && (Check(db, r) == Some(AcceptedAtProjectScope) <==> open && r.service.Some? && whole)
            && (Check(db, r) == Some(AcceptedInService) <==> open && r.service.Some? && !whole && same)
  {
    assert OpenFor(db, r) <==> OpenInScope(db, r);
    assert forall a :: a in Existing(db.acceptances, r) <==> a in db.acceptances && Concerns(db.acceptances[a], r);
    if Existing(db.acceptances, r) != {} {
      var a :| a in Existing(db.acceptances, r);
    }
  }

  /* ----- counts ----- */

  /** Counted today: rated, with an open link that no acceptance hides, whatever its dates. */
  lemma CountedTodayMeans(db: Db, day: Date, c: CveId)
    ensures c in FindingStore.CountedFor(db, day, day)
            <==> && c in db.vulns && db.vulns[c].severity.Some?
                 && exists k :: k in db.links && k.cve == c && k.sbom in db.sboms && db.links[k].status == Open
                                && forall a :: a in db.acceptances ==> !Hides(db.acceptances[a], c, db.sboms[k.sbom])
  {
    if c in OpenNow(db) {
      var k :| k in Actionable(db) && HasSeverity(db, k.cve) && k.cve == c;
      ActionableMeans(db, k);
    }
    if k :| k in db.links && k.cve == c && k.sbom in db.sboms && db.links[k].status == Open
            && forall a :: a in db.acceptances ==> !Hides(db.acceptances[a], c, db.sboms[k.sbom]) {
      ActionableMeans(db, k);
    }
  }

  /** The link counts for the day: detected before it was over, not fixed before, and hidden by no
      acceptance made before. A day has 86 400 000 000 ticks. */
  ghost predicate CountsOn(db: Db, day: Date, k: LinkKey)
    requires k in db.links && k.sbom in db.sboms
  {
    var over := (day + 1) * 86_400_000_000;
    && db.links[k].detectedAt < over
    && (db.links[k].fixedAt == None || db.links[k].fixedAt.value >= over)
    && forall a :: a in db.acceptances && db.acceptances[a].created < over ==>
         !Hides(db.acceptances[a], k.cve, db.sboms[k.sbom])
  }

  lemma CountedOnDayMeans(db: Db, day: Date, today: Date, c: CveId)
    requires day != today
    ensures c in FindingStore.CountedFor(db, day, today)
            <==> && c in db.vulns && db.vulns[c].severity.Some?
                 && exists k :: k in db.links && k.sbom in db.sboms && CountsOn(db, day, k) && k.cve == c
  {
    forall k | k in db.links && k.sbom in db.sboms
      ensures CountsOn(db, day, k)
              <==> && OpenLinkAsOf(db.links[k], DayEnd(day))
                   && !CoveredAsOf(db.acceptances, k.cve, db.sboms[k.sbom], DayEnd(day))
    {
      assert forall a :: a in db.acceptances ==>
          Hides(db.acceptances[a], k.cve, db.sboms[k.sbom]) == Covers(db.acceptances[a], k.cve, db.sboms[k.sbom]);
    }
    if c in OpenAsOf(db, DayEnd(day)) {
      var k :| k in LinksAsOf(db, DayEnd(day)) && k.cve == c;
      assert CountsOn(db, day, k);
    }
    if k :| k in db.links && k.sbom in db.sboms && CountsOn(db, day, k) && k.cve == c && HasSeverity(db, c) {
      assert k in LinksAsOf(db, DayEnd(day));
    }
  }

  /** The numbers of a stored row. */
  lemma SnapshotMeans(db: Db, day: Date, today: Date)
    ensures var row, counted := FindingStore.SnapshotOf(db, day, today), FindingStore.CountedFor(db, day, today);
            && row.counts.critical == |set c | c in counted && c in db.vulns && db.vulns[c].severity == Some(Critical)|
            && row.counts.high == |set c | c in counted && c in db.vulns && db.vulns[c].severity == Some(High)|
            && row.counts.medium == |set c | c in counted && c in db.vulns && db.vulns[c].severity == Some(Medium)|
            && row.counts.low == |set c | c in counted && c in db.vulns && db.vulns[c].severity == Some(Low)|
            && row.fixed == |FixedBy(db, day)| && row.dependencies == |FindingStore.DepsBy(db, day)|
  {
    var counted := FindingStore.CountedFor(db, day, today);
    forall s: Severity
      ensures WithSeverity(db, counted, s) == set c | c in counted && c in db.vulns && db.vulns[c].severity == Some(s)
    {
    }
  }

  lemma FixedAndDepsMean(db: Db, day: Date, c: CveId, d: DepId)
    ensures c in FixedBy(db, day)
            <==> exists k :: k in db.links && k.cve == c && db.links[k].status == Fixed && db.links[k].fixedAt.Some?
                             && db.links[k].fixedAt.value < (day + 1) * 86_400_000_000
    ensures d in FindingStore.DepsBy(db, day)
            <==> d in db.deps && db.deps[d] in db.sboms && db.sboms[db.deps[d]].created <= day * 86_400_000_000
  {
    forall k | k in db.links && db.links[k].fixedAt.Some?
      ensures DateOf(db.links[k].fixedAt.value) <= day <==> db.links[k].fixedAt.value < (day + 1) * 86_400_000_000
    {
    }
    if c in FixedBy(db, day) {
      var k :| k in FixedLinksBy(db, day) && k.cve == c;
    }
    if k :| k in db.links && k.cve == c && db.links[k].status == Fixed && db.links[k].fixedAt.Some?
            && db.links[k].fixedAt.value < (day + 1) * 86_400_000_000 {
      assert k in FixedLinksBy(db, day);
    }
  }

  /** What the summary totals and the dashboard's fixed count range over. */
  lemma SummaryMeans(db: Db, c: CveId)
    ensures c in ActionableCves(db) <==> c in db.vulns && exists k :: k in Actionable(db) && k.cve == c
    ensures c in FixedCves(db) <==> exists k :: k in db.links && k.cve == c && db.links[k].status == Fixed
  {
  }

  /* ----- histories ----- */

  /** What every state of every history from the empty store keeps. */
  lemma HistoryKeeps(run: seq<Db>, ops: seq<Op>, i: nat)
    requires History(run, ops) && run[0] == EMPTY_DB && i < |run|
    ensures var db := run[i];
            && (forall k :: k in db.links ==> k.sbom in db.sboms && k.cve in db.vulns)
            && (forall k :: k in db.links ==> (db.links[k].status == Fixed <==> db.links[k].fixedAt.Some?))
            && (forall d :: d in db.deps ==> db.deps[d] in db.sboms)
            && (forall c :: c in db.vulns ==> db.vulns[c].severity.Some?)
            && (forall s :: s in db.sboms ==> db.sboms[s].project in db.projects)
            && (forall s :: s in db.sboms && db.sboms[s].service.Some? ==>
                  && db.sboms[s].service.value in db.services
                  && db.services[db.sboms[s].service.value].project == db.sboms[s].project)
            && (forall a, b :: a in db.sboms && b in db.sboms && a != b ==> db.sboms[a].sha != db.sboms[b].sha)
            && (forall a, b :: a in db.services && b in db.services && a != b ==> db.services[a] != db.services[b])
            && (forall a, b :: a in db.acceptances && b in db.acceptances && a != b
                               && db.acceptances[a].project == db.acceptances[b].project
                               && db.acceptances[a].cve == db.acceptances[b].cve ==>
                  && db.acceptances[a].service.Some? && db.acceptances[b].service.Some?
                  && db.acceptances[a].service != db.acceptances[b].service)
  {
    AlwaysConsistent(run, ops, i);
  }
}
