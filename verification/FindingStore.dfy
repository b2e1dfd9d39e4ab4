/** The operations as they run: statements and loops over mutable tables, each proved to do what
    the specification functions say. */
module FindingStore {
  import opened Store
  import opened Scanner
  import opened Scanning
  import opened Deletion
  import opened Retention
  import opened Acceptances
  import opened Lifecycle
  import opened Snapshots
  import opened SeverityCounts

  datatype Snapshot = Snapshot(counts: Counts, fixed: nat, dependencies: nat)

  function DepsBy(db: Db, day: Date): set<DepId> {
    set d | d in db.deps && db.deps[d] in db.sboms && db.sboms[db.deps[d]].created <= day * DAY
  }

  /** The vulnerabilities a snapshot run counts: live for today, reconstructed for any other day. */
  function CountedFor(db: Db, day: Date, today: Date): set<CveId> {
    if day == today then OpenNow(db) else OpenAsOf(db, DayEnd(day))
  }

  /** The row a snapshot run stores for `day`. */
  function SnapshotOf(db: Db, day: Date, today: Date): Snapshot {
    Snapshot(CountBySeverity(db, CountedFor(db, day, today)), |FixedBy(db, day)|, |DepsBy(db, day)|)
  }

  lemma NothingToMark(links: map<LinkKey, Link>, t: Time)
    ensures MarkFixed(links, {}, t) == links
  {
  }

  lemma ReopenOneMore(links: map<LinkKey, Link>, ids: set<SbomId>, o: SbomId)
    ensures Reopen(Reopen(links, ids), {o}) == Reopen(links, ids + {o})
  {
  }

  class Session {
    var projects: set<ProjectId>
    var services: map<ServiceId, Service>
    var sboms: map<SbomId, Sbom>
    var deps: map<DepId, SbomId>
    var links: map<LinkKey, Link>
    var vulns: map<CveId, Vuln>
    var acceptances: map<AcceptanceId, Acceptance>
    var snapshots: map<Date, Snapshot>

    /** The tables as one value. */
    ghost function Contents(): Db
      reads this
    {
      Db(projects, services, sboms, deps, links, vulns, acceptances)
    }

    constructor ()
      ensures Contents() == EMPTY_DB && snapshots == map[]
    {
      projects, services, sboms, deps, links, vulns, acceptances := {}, map[], map[], map[], map[], map[], map[];
      snapshots := map[];
    }

    /* ----- upload ----- */

    method GetOrCreateService(project: ProjectId, name: string, newId: ServiceId) returns (svc: ServiceId)
      requires newId !in services
      modifies this`services
      ensures services == old(services)[svc := Service(project, name)]
      ensures (svc in old(services) && old(services)[svc] == Service(project, name))
              || (svc !in old(services) && forall v :: v in old(services) ==>
                  old(services)[v] != Service(project, name))
    {
      if v :| v in services && services[v] == Service(project, name) {
        svc := v;
        assert services == services[svc := Service(project, name)];
      } else {
        svc := newId;
        services := services[svc := Service(project, name)];
      }
    }

    /** Store a document once: a hash seen before answers with the SBOM that has it. */
    method StoreSbom(d: Document, newSbom: SbomId, newService: ServiceId, newDeps: set<DepId>, now: Time)
      returns (s: Option<SbomId>, ghost svc: ServiceId)
      requires newSbom !in sboms && newService !in services && newDeps !! deps.Keys
      modifies this`services, this`sboms, this`deps
      ensures ValidService(old(Contents()), d, svc)
      ensures Contents() == StoreDocument(old(Contents()), d, newSbom, svc, newDeps, now)
      ensures s.Some? <==> d.project in projects
      ensures s.Some? ==> s.value in sboms && sboms[s.value].sha == d.sha
    {
      svc := newService;
      if v :| v in services && services[v] == Service(d.project, d.name) {
        svc := v;
      }
      if d.project !in projects {
        return None, svc;
      }
      if existing :| existing in sboms && sboms[existing].sha == d.sha {
        return Some(existing), svc;
      }
      var service := None;
      if d.name != "" {
        var id := GetOrCreateService(d.project, d.name, newService);
        service, svc := Some(id), id;
      }
      var created := if d.stamp.Some? then d.stamp.value else now;
      sboms := sboms[newSbom := Sbom(d.project, service, d.sha, now, created, d.blank)];
      deps := deps + (map x | x in newDeps :: newSbom);
      s := Some(newSbom);
    }

    /* ----- scan ----- */

    /** Select, insert when missing, then refresh. */
    method UpsertVulnerability(m: Match)
      requires m.cve != ""
      modifies this`vulns
      ensures vulns == RefreshOne(old(vulns), m)
    {
      var v;
      if m.cve in vulns {
        v := vulns[m.cve];
      } else {
        v := NewVuln(m);
        vulns := vulns[m.cve := v];
      }
      v := v.(severity := Some(m.severity), cvss := m.cvss);
      if m.epss.Some? {
        v := v.(epss := m.epss);
      }
      if m.percentile.Some? {
        v := v.(percentile := m.percentile);
      }
      if m.description != "" {
        v := v.(summary := m.description);
      }
      if m.published.Some? {
        v := v.(published := m.published);
      }
      v := v.(extra := m.payload);
      if m.purl != "" && m.purl !in v.affected {
        v := v.(affected := v.affected + [m.purl]);
      }
      vulns := vulns[m.cve := v];
    }

    method LinkVulnerability(s: SbomId, m: Match)
      requires s in sboms && m.cve != ""
      modifies this`links
      ensures links == AddLinks(old(links), s, sboms[s].created, [m])
    {
      assert ReportedKeys(s, [m]) == if m.purl == "" then {} else {LinkKey(s, m.purl, m.cve)} by {
        assert [m][0] == m;
      }
      if m.purl == "" {
        return;
      }
      var k := LinkKey(s, m.purl, m.cve);
      if k in links {
        return;
      }
      links := links[k := Link(Open, None, sboms[s].created)];
    }

    /** The loop over the matches of a report; matches without an id are skipped. */
    method ProcessGrypeResults(s: SbomId, ms: seq<Match>) returns (ids: seq<CveId>)
      requires s in sboms
      modifies this`vulns, this`links
      ensures vulns == RefreshAll(old(vulns), ms)
      ensures links == AddLinks(old(links), s, sboms[s].created, ms)
      ensures (set c | c in ids) == ReportedCves(ms)
    {
      ids := [];
      assert AddLinks(links, s, sboms[s].created, []) == links;
      for i := 0 to |ms|
        invariant vulns == RefreshAll(old(vulns), ms[..i])
        invariant links == AddLinks(old(links), s, sboms[s].created, ms[..i])
        invariant (set c | c in ids) == ReportedCves(ms[..i])
      {
        var m := ms[i];
        assert ms[..i + 1][..i] == ms[..i];
        AddOneMore(old(links), s, sboms[s].created, ms, i);
        if m.cve != "" {
          UpsertVulnerability(m);
          LinkVulnerability(s, m);
          ids := ids + [m.cve];
        }
      }
      assert ms[..|ms|] == ms;
    }

    method RetireStaleVulnerabilities(s: SbomId, ids: set<CveId>, now: Time)
      modifies this`links
      ensures links == Retire(old(links), s, ids, now)
    {
      if ids != {} {
        links := MarkFixed(links, (set k | k in links && k.sbom == s && k.cve !in ids), now);
      } else {
        assert (set k | k in links && k.sbom == s) == StaleKeys(links, s, ids);
        links := MarkFixed(links, (set k | k in links && k.sbom == s), now);
      }
    }

    method ReconcileVulnerabilities(s: SbomId, now: Time)
      requires s in sboms
      modifies this`links
      ensures links == Reconcile(sboms, old(links), s, now)
    {
      var older := set o | o in sboms && ScopeFilter(sboms[s], sboms[o]) && o != s
          && sboms[o].uploaded < sboms[s].uploaded;
      if older == {} {
        assert OlderIds(sboms, s) == older;
        assert GoneKeys(sboms, links, s) == {};
        NothingToMark(links, now);
        return;
      }
      var current := set k | k in links && k.sbom == s && links[k].status == Open :: k.cve;
      if current != {} {
        links := MarkFixed(links, (set k | k in links && k.sbom in older && k.cve !in current), now);
      } else {
        assert (set k | k in links && k.sbom in older) == GoneKeys(sboms, links, s);
        links := MarkFixed(links, (set k | k in links && k.sbom in older), now);
      }
    }

    /** One scan task: unknown SBOM and failed scanner change nothing. */
    method DoScanSbom(s: SbomId, o: Outcome, retireAt: Time, reconcileAt: Time)
      modifies this`vulns, this`links
      ensures Contents() == ScanSbom(old(Contents()), s, o, retireAt, reconcileAt)
    {
      if s !in sboms {
        return;
      }
      var result := if sboms[s].blank then Report([]) else o;
      if result.Failed? {
        return;
      }
      var ids := ProcessGrypeResults(s, result.matches);
      RetireStaleVulnerabilities(s, (set c | c in ids), retireAt);
      ReconcileVulnerabilities(s, reconcileAt);
    }

    /* ----- delete ----- */

    /** Returns whether the SBOM existed, and the newest remaining SBOM of its scope it settled on. */
    method DeleteSbomById(s: SbomId, now: Time) returns (found: bool, latest: Option<SbomId>)
      modifies this`sboms, this`deps, this`links
      ensures found <==> s in old(sboms)
      ensures found ==> ValidPick(old(sboms), s, latest)
      ensures found ==> Contents() == DeleteSbom(old(Contents()), s, latest, now)
      ensures !found ==> Contents() == old(Contents())
    {
      found, latest := s in sboms, None;
      if !found {
        return;
      }
      var rest := set o | o in sboms && o != s && SameScope(sboms[o], sboms[s]);
      if rest != {} {
        NewestExists(sboms, rest);
        var p :| p in rest && forall o :: o in rest ==> sboms[o].uploaded <= sboms[p].uploaded;
        latest := Some(p);
      }
      sboms := sboms - {s};
      deps := map d | d in deps && deps[d] != s :: deps[d];
      links := DropLinks(links, s);
      ReopenAll(rest);
      if latest.Some? {
        ReconcileVulnerabilities(latest.value, now);
      }
    }

    /** One UPDATE per SBOM of the scope, in any order. */
    method ReopenAll(ids: set<SbomId>)
      modifies this`links
      ensures links == Reopen(old(links), ids)
    {
      var todo := ids;
      assert Reopen(links, {}) == links;
      while todo != {}
        invariant todo <= ids && links == Reopen(old(links), ids - todo)
        decreases todo
      {
        var o :| o in todo;
        ReopenOneMore(old(links), ids - todo, o);
        assert ids - (todo - {o}) == ids - todo + {o};
        links := Reopen(links, {o});
        todo := todo - {o};
      }
      assert ids - todo == ids;
    }

    /* ----- retention ----- */

    /** Three statements; each evaluates the target subquery on the tables it finds. No statement
        leaves a child row behind its SBOM. */
    method PruneExpired(cutoff: Option<Time>)
      requires NoDangling(Contents())
      modifies this`sboms, this`deps, this`links
      ensures Contents() == PruneSboms(old(Contents()), cutoff) && NoDangling(Contents())
    {
      if cutoff.None? {
        return;
      }
      NothingDangles(Contents(), cutoff.value);
      var target := Target(sboms, cutoff.value);
      links := map k | k in links && k.sbom !in target :: links[k];
      assert NoDangling(Contents());
      target := Target(sboms, cutoff.value);
      deps := map d | d in deps && deps[d] !in target :: deps[d];
      assert NoDangling(Contents());
      target := Target(sboms, cutoff.value);
      sboms := sboms - target;
    }

    /* ----- risk acceptances ----- */

    /** The checks in the order they are answered; a created row is the only effect. */
    method CreateRiskAcceptance(r: Request, id: AcceptanceId, now: Time) returns (reply: Reply)
      requires id !in acceptances
      modifies this`acceptances
      ensures Contents() == Accept(old(Contents()), r, id, now)
      ensures reply == match Check(old(Contents()), r) case None => Created case Some(why) => Refused(why)
    {
      if r.project !in projects {
        return Refused(ProjectNotFound);
      }
      if r.cve !in vulns {
        return Refused(VulnerabilityNotFound);
      }
      if r.service.Some? {
        if r.service.value !in services || services[r.service.value].project != r.project {
          return Refused(ServiceNotInProject);
        }
      }
      var open := set k | k in links && k.sbom in sboms && k.cve == r.cve && links[k].status == Open
                          && sboms[k.sbom].project == r.project;
      if r.service.Some? {
        open := set k | k in open && k.sbom in sboms && sboms[k.sbom].service == r.service;
      }
      assert open == {} <==> !OpenInScope(Contents(), r) by {
        if OpenInScope(Contents(), r) {
          var k :| k in links && k.sbom in sboms && k.cve == r.cve && links[k].status == Open
                   && sboms[k.sbom].project == r.project && (r.service.None? || sboms[k.sbom].service == r.service);
          assert k in open;
        }
      }
      if open == {} {
        return Refused(NotOpenInScope);
      }
      var existing := set a | a in acceptances && acceptances[a].project == r.project && acceptances[a].cve == r.cve;
      if r.service.None? {
        if existing != {} {
          return Refused(AcceptedForProject);
        }
      } else {
        if exists a :: a in existing && acceptances[a].service.None? {
          return Refused(AcceptedAtProjectScope);
        }
        if exists a :: a in existing && acceptances[a].service == r.service {
          return Refused(AcceptedInService);
        }
      }
      acceptances := acceptances[id := Acceptance(r.project, r.service, r.cve, now)];
      reply := Created;
    }

    method DeleteRiskAcceptance(id: AcceptanceId) returns (found: bool)
      modifies this`acceptances
      ensures found <==> id in old(acceptances)
      ensures Contents() == Revert(old(Contents()), id)
    {
      found := id in acceptances;
      if found {
        acceptances := acceptances - {id};
      } else {
        assert acceptances - {id} == acceptances;
      }
    }

    /* ----- snapshots ----- */

    /** One row per day: a second run for a day replaces its row, other days keep theirs. `rows` is
        what the query returns, each counted vulnerability once, in any order. */
    method DoSnapshotMetrics(day: Date, today: Date, rows: seq<CveId>)
      requires Lists(rows, CountedFor(Contents(), day, today))
      modifies this`snapshots
      ensures snapshots.Keys == old(snapshots.Keys) + {day}
      ensures forall d :: d in old(snapshots) && d != day ==> snapshots[d] == old(snapshots)[d]
      ensures snapshots[day] == SnapshotOf(Contents(), day, today)
    {
      var db := Db(projects, services, sboms, deps, links, vulns, acceptances);
      assert CountedFor(db, day, today) <= vulns.Keys;
      var counts := CountSnapshot(db, rows, CountedFor(db, day, today));
      snapshots := snapshots[day := Snapshot(counts, |FixedBy(db, day)|, |DepsBy(db, day)|)];
    }
  }

  lemma AddOneMore(links: map<LinkKey, Link>, s: SbomId, at: Time, ms: seq<Match>, i: nat)
    requires i < |ms|
    ensures AddLinks(links, s, at, ms[..i + 1]) == AddLinks(AddLinks(links, s, at, ms[..i]), s, at, [ms[i]])
    ensures ms[i].cve == "" ==> AddLinks(links, s, at, ms[..i + 1]) == AddLinks(links, s, at, ms[..i])
    ensures ReportedCves(ms[..i + 1]) == ReportedCves(ms[..i]) + if ms[i].cve == "" then {} else {ms[i].cve}
  {
    assert ms[..i + 1] == ms[..i] + [ms[i]];
    KeysOfBoth(s, ms[..i], ms[i]);
    AddKeysTwice(links, ReportedKeys(s, ms[..i]), ReportedKeys(s, [ms[i]]), at);
    if ms[i].cve == "" {
      NoKeyWithoutId(s, ms[i]);
      assert ReportedKeys(s, ms[..i + 1]) == ReportedKeys(s, ms[..i]);
    }
  }

  lemma NoKeyWithoutId(s: SbomId, m: Match)
    requires m.cve == ""
    ensures ReportedKeys(s, [m]) == {}
  {
  }

  lemma AddKeysTwice(links: map<LinkKey, Link>, a: set<LinkKey>, b: set<LinkKey>, at: Time)
    ensures AddKeys(AddKeys(links, a, at), b, at) == AddKeys(links, a + b, at)
  {
  }

  lemma KeysOfBoth(s: SbomId, ms: seq<Match>, m: Match)
    ensures ReportedKeys(s, ms + [m]) == ReportedKeys(s, ms) + ReportedKeys(s, [m])
    ensures ReportedCves(ms + [m]) == ReportedCves(ms) + if m.cve == "" then {} else {m.cve}
  {
  }

  /** Today's row agrees with the summary counts and with the dashboard's fixed count, and with a
      reconstruction of the day on the same store, once every stored instant lies by the end of the day. */
  lemma TodayAgrees(db: Db, day: Date)
    requires FixedIffDated(db.links) && AllBy(db, DayEnd(day))
    ensures SnapshotOf(db, day, day) == SnapshotOf(db, day, day + 1)
    ensures SnapshotOf(db, day, day).counts == SummaryCounts(db)
    ensures SnapshotOf(db, day, day).fixed == |FixedCves(db)|
  {
    BranchesAgree(db, DayEnd(day));
    CountsAgree(db);
    FixedCountsAgree(db, DayEnd(day));
  }

  /* ----- the row of a day, rebuilt later ----- */

  /** The vulnerabilities in `cves` still have the severities they had. */
  ghost predicate SameSeverities(before: Db, after: Db, cves: set<CveId>) {
    forall c :: c in cves ==>
        c in before.vulns && c in after.vulns && after.vulns[c].severity == before.vulns[c].severity
  }

  /** A scan gives each vulnerability in `cves` that it reports the severity it has: its last match
      about the vulnerability carries that one. */
  ghost predicate KeepsSeverities(db: Db, op: Op, cves: set<CveId>) {
    op.Scan? && op.sbom in db.sboms && Effective(db.sboms[op.sbom], op.outcome).Report? ==>
      ReportsKeep(db, Effective(db.sboms[op.sbom], op.outcome).matches, cves)
  }

  ghost predicate ReportsKeep(db: Db, ms: seq<Match>, cves: set<CveId>) {
    forall c :: c in cves && c in db.vulns && About(ms, c) != [] ==>
      db.vulns[c].severity == Some(About(ms, c)[|About(ms, c)| - 1].severity)
  }

  lemma ReportedSeverities(db: Db, ms: seq<Match>, cves: set<CveId>, after: Db)
    requires cves <= db.vulns.Keys && after.vulns == RefreshAll(db.vulns, ms)
    ensures SameSeverities(db, after, cves) <==> ReportsKeep(db, ms, cves)
  {
    forall c | c in cves {
      RefreshAllAt(db.vulns, ms, c);
    }
  }

  lemma SeveritiesStayIff(db: Db, op: Op, cves: set<CveId>)
    requires Allowed(db, op) && cves <= db.vulns.Keys
    ensures SameSeverities(db, Apply(db, op), cves) <==> KeepsSeverities(db, op, cves)
  {
    if op.Scan? && op.sbom in db.sboms && Effective(db.sboms[op.sbom], op.outcome).Report? {
      ReportedSeverities(db, Effective(db.sboms[op.sbom], op.outcome).matches, cves, Apply(db, op));
    } else {
      assert Apply(db, op).vulns == db.vulns;
    }
  }

  /** The dependencies whose SBOM a step deletes. */
  function DepsLost(db: Db, op: Op): set<DepId> {
    match op
    case Delete(s, _, _) => set d | d in db.deps && db.deps[d] == s
    case Prune(Some(c)) => set d | d in db.deps && db.deps[d] in Target(db.sboms, c)
    case _ => {}
  }

  /** The dependencies of a new document that is dated by the day. */
  function DepsGained(db: Db, op: Op, day: Date): set<DepId> {
    match op
    case Upload(d, _, _, deps, at) =>
      if d.project in db.projects && !Stored(db, d.sha) && (if d.stamp.Some? then d.stamp.value else at) <= day * DAY
      then deps else {}
    case _ => {}
  }

  lemma DepsAfterUpload(db: Db, d: Document, s: SbomId, svc: ServiceId, deps: set<DepId>, at: Time, day: Date)
    requires NoDangling(db) && s !in db.sboms && deps !! db.deps.Keys
    ensures DepsBy(StoreDocument(db, d, s, svc, deps, at), day)
         == DepsBy(db, day) + DepsGained(db, Upload(d, s, svc, deps, at), day)
  {
  }

  lemma DepsAfterPrune(db: Db, cutoff: Option<Time>, day: Date)
    requires NoDangling(db)
    ensures DepsBy(PruneSboms(db, cutoff), day) == DepsBy(db, day) - DepsLost(db, Prune(cutoff))
  {
    if cutoff.Some? {
      NothingDangles(db, cutoff.value);
    }
  }

  lemma DepsAfterDay(db: Db, op: Op, day: Date)
    requires NoDangling(db) && Allowed(db, op)
    ensures DepsBy(Apply(db, op), day) == DepsBy(db, day) - DepsLost(db, op) + DepsGained(db, op, day)
  {
    match op
    case Upload(d, s, svc, deps, at) => DepsAfterUpload(db, d, s, svc, deps, at, day);
    case Prune(cutoff) => DepsAfterPrune(db, cutoff, day);
    case Scan(s, o, t1, t2) => assert ScanSbom(db, s, o, t1, t2).deps == db.deps;
    case _ =>
  }

  ghost predicate KeepsDeps(db: Db, op: Op, day: Date) {
    DepsBy(db, day) !! DepsLost(db, op) && DepsGained(db, op, day) == {}
  }

  lemma DepsStayIff(db: Db, op: Op, day: Date)
    requires Consistent(db) && Allowed(db, op)
    ensures DepsBy(Apply(db, op), day) == DepsBy(db, day) <==> KeepsDeps(db, op, day)
  {
    DepsAfterDay(db, op, day);
    assert DepsGained(db, op, day) !! db.deps.Keys;
  }

  /** What a step must leave alone for the row of a day to stay what it was. */
  ghost predicate LeavesDay(db: Db, op: Op, day: Date) {
    && Quiet(db, op, DayEnd(day))
    && KeepsFixed(db, op, day)
    && KeepsDeps(db, op, day)
    && KeepsSeverities(db, op, OpenAsOf(db, DayEnd(day)))
  }

  /** The store still tells for the day what `before` told at its end: which vulnerabilities were open,
      with which severities, which were fixed, and which dependencies there were. */
  ghost predicate Tells(before: Db, now: Db, day: Date) {
    && OpenAsOf(now, DayEnd(day)) == OpenNow(before)
    && SameSeverities(before, now, OpenNow(before))
    && FixedBy(now, day) == FixedBy(before, day)
    && DepsBy(now, day) == DepsBy(before, day)
  }

  lemma SeveritiesCompose(before: Db, db: Db, after: Db, cves: set<CveId>)
    requires SameSeverities(before, db, cves)
    ensures SameSeverities(before, after, cves) <==> SameSeverities(db, after, cves)
  {
  }

  lemma TellsAfterStep(before: Db, db: Db, op: Op, day: Date)
    requires Consistent(db) && Allowed(db, op) && LaterThan(op, DayEnd(day)) && Tells(before, db, day)
    ensures Tells(before, Apply(db, op), day) <==> LeavesDay(db, op, day)
  {
    QuietIff(db, op, DayEnd(day));
    FixedStaysIff(db, op, day);
    DepsStayIff(db, op, day);
    SeveritiesStayIff(db, op, OpenNow(before));
    SeveritiesCompose(before, db, Apply(db, op), OpenNow(before));
  }

  /** Any number of later steps of any kind: every later store tells for the day what its end showed if
      and only if every single step leaves the day alone. */
  lemma DayIsRebuiltIff(run: seq<Db>, ops: seq<Op>, day: Date)
    requires History(run, ops) && Consistent(run[0]) && AllBy(run[0], DayEnd(day))
    requires forall j :: 0 <= j < |ops| ==> LaterThan(ops[j], DayEnd(day))
    ensures (forall i :: 0 <= i < |run| ==> Tells(run[0], run[i], day))
            <==> (forall j :: 0 <= j < |ops| ==> LeavesDay(run[j], ops[j], day))
  {
    BranchesAgree(run[0], DayEnd(day));
    forall j | 0 <= j < |ops| && Tells(run[0], run[j], day)
      ensures Tells(run[0], run[j + 1], day) <==> LeavesDay(run[j], ops[j], day)
    {
      ConsistentFrom(run, ops, j);
      TellsAfterStep(run[0], run[j], ops[j], day);
    }
    if forall j :: 0 <= j < |ops| ==> LeavesDay(run[j], ops[j], day) {
      for i := 0 to |ops|
        invariant forall k :: 0 <= k <= i ==> Tells(run[0], run[k], day)
      {
        assert Tells(run[0], run[i], day);
      }
    } else {
      var j :| 0 <= j < |ops| && !LeavesDay(run[j], ops[j], day);
      assert !(Tells(run[0], run[j], day) && Tells(run[0], run[j + 1], day));
    }
  }

  lemma SameCounts(before: Db, after: Db, cves: set<CveId>)
    requires SameSeverities(before, after, cves)
    ensures CountBySeverity(after, cves) == CountBySeverity(before, cves)
  {
    forall s: Severity
      ensures WithSeverity(after, cves, s) == WithSeverity(before, cves, s)
    {
    }
  }

  /** After any number of later steps that leave a day alone, rebuilding its row gives the row that was
      stored when it ended. */
  lemma RowIsRebuilt(run: seq<Db>, ops: seq<Op>, day: Date, today: Date, i: nat)
    requires History(run, ops) && Consistent(run[0]) && AllBy(run[0], DayEnd(day)) && i < |run| && day != today
    requires forall j :: 0 <= j < |ops| ==> LaterThan(ops[j], DayEnd(day)) && LeavesDay(run[j], ops[j], day)
    ensures SnapshotOf(run[i], day, today) == SnapshotOf(run[0], day, day)
  {
    DayIsRebuiltIff(run, ops, day);
    assert Tells(run[0], run[i], day);
    SameCounts(run[0], run[i], OpenNow(run[0]));
  }
}
