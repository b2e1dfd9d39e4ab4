/** The relational store: one value per table row, one map per table.
    A vulnerability is named by its CVE id: `cve_id` carries a unique index, and module
    UpsertRace proves that concurrent scans keep one row per CVE and agree on its id. */
module Store {
  type ProjectId = nat
  type ServiceId = nat
  type SbomId = nat
  type DepId = nat
  type AcceptanceId = nat
  type CveId = string
  type Purl = string
  type Time = int
  type Date = int

  /** Clock ticks in a day; a date `d` covers the instants `d * DAY` up to `(d + 1) * DAY - 1`. */
  const DAY: int := 86_400_000_000

  datatype Option<+T> = None | Some(value: T)

  function Lookup<K, V>(m: map<K, V>, k: K): Option<V> {
    if k in m then Some(m[k]) else None
  }

  datatype Severity = Critical | High | Medium | Low | Unknown

  datatype Status = Open | Fixed

  datatype Service = Service(project: ProjectId, name: string)

  /** `blank` says that the stored document is empty, in which case no scanner is started. */
  datatype Sbom = Sbom(
    project: ProjectId,
    service: Option<ServiceId>,
    sha: string,
    uploaded: Time,
    created: Time,
    blank: bool)

  datatype LinkKey = LinkKey(sbom: SbomId, purl: Purl, cve: CveId)

  datatype Link = Link(status: Status, fixedAt: Option<Time>, detectedAt: Time)

  datatype Vuln = Vuln(
    severity: Option<Severity>,
    cvss: Option<real>,
    epss: Option<real>,
    percentile: Option<real>,
    summary: string,
    affected: seq<Purl>,
    published: Option<Time>,
    extra: nat)

  datatype Acceptance = Acceptance(
    project: ProjectId,
    service: Option<ServiceId>,
    cve: CveId,
    created: Time)

  datatype Db = Db(
    projects: set<ProjectId>,
    services: map<ServiceId, Service>,
    sboms: map<SbomId, Sbom>,
    deps: map<DepId, SbomId>,
    links: map<LinkKey, Link>,
    vulns: map<CveId, Vuln>,
    acceptances: map<AcceptanceId, Acceptance>)

  const EMPTY_DB := Db({}, map[], map[], map[], map[], map[], map[])

  /* ----- scopes and ranking ----- */

  predicate SameScope(a: Sbom, b: Sbom) {
    a.project == b.project && a.service == b.service
  }

  /** `o` precedes `s` in the order `uploaded_at DESC, id DESC`. */
  predicate Beats(sboms: map<SbomId, Sbom>, o: SbomId, s: SbomId)
    requires o in sboms && s in sboms
  {
    sboms[o].uploaded > sboms[s].uploaded || (sboms[o].uploaded == sboms[s].uploaded && o > s)
  }

  function Beaters(sboms: map<SbomId, Sbom>, s: SbomId): set<SbomId>
    requires s in sboms
  {
    set o | o in sboms && SameScope(sboms[o], sboms[s]) && Beats(sboms, o, s)
  }

  /** `row_number()` over the scope of `s`, newest first. */
  function RowNumber(sboms: map<SbomId, Sbom>, s: SbomId): nat
    requires s in sboms
  {
    1 + |Beaters(sboms, s)|
  }

  /** The latest SBOM of every scope. */
  function LatestIds(sboms: map<SbomId, Sbom>): set<SbomId> {
    set s | s in sboms && RowNumber(sboms, s) == 1
  }

  /** A latest SBOM beats every other SBOM of its scope, and nothing else does. */
  lemma LatestBeatsAll(sboms: map<SbomId, Sbom>, l: SbomId)
    requires l in sboms
    ensures l in LatestIds(sboms) <==>
            forall o :: o in sboms && SameScope(sboms[o], sboms[l]) && o != l ==> Beats(sboms, l, o)
  {
    if l in LatestIds(sboms) {
      assert Beaters(sboms, l) == {};
      forall o | o in sboms && SameScope(sboms[o], sboms[l]) && o != l
        ensures Beats(sboms, l, o)
      {
        assert o !in Beaters(sboms, l);
      }
    } else {
      var o :| o in Beaters(sboms, l);
      assert !Beats(sboms, l, o);
    }
  }

  /** Every scope that has an SBOM has a latest one. */
  lemma {:induction false} LatestOf(sboms: map<SbomId, Sbom>, s: SbomId) returns (l: SbomId)
    requires s in sboms
    ensures l in LatestIds(sboms) && SameScope(sboms[l], sboms[s])
    ensures l == s || Beats(sboms, l, s)
    decreases |Beaters(sboms, s)|
  {
    if Beaters(sboms, s) == {} {
      l := s;
    } else {
      var o :| o in Beaters(sboms, s);
      assert Beaters(sboms, o) < Beaters(sboms, s) by {
        assert o !in Beaters(sboms, o);
      }
      SubsetSize(Beaters(sboms, o), Beaters(sboms, s));
      l := LatestOf(sboms, o);
    }
  }

  lemma {:induction false} SubsetSize<T>(a: set<T>, b: set<T>)
    requires a <= b
    ensures |a| <= |b|
    ensures a < b ==> |a| < |b|
  {
    assert b == a + (b - a);
    if a < b {
      var x :| x in b && x !in a;
      assert x in b - a;
    }
  }

  /** There is always a new id, above all in use. */
  lemma {:induction false} FreshId(ids: set<nat>) returns (id: nat)
    ensures id !in ids && forall i :: i in ids ==> i < id
  {
    if ids == {} {
      id := 0;
    } else {
      var i :| i in ids;
      var rest := FreshId(ids - {i});
      id := if i < rest then rest else i + 1;
      assert forall j :: j in ids ==> j == i || j in ids - {i};
    }
  }

  lemma LatestUnique(sboms: map<SbomId, Sbom>, a: SbomId, b: SbomId)
    requires a in LatestIds(sboms) && b in LatestIds(sboms) && SameScope(sboms[a], sboms[b])
    ensures a == b
  {
    LatestBeatsAll(sboms, a);
    LatestBeatsAll(sboms, b);
  }

  /* ----- findings ----- */

  /** The CVEs with an open link on SBOM `s`. */
  function OpenCves(links: map<LinkKey, Link>, s: SbomId): set<CveId> {
    set k | k in links && k.sbom == s && links[k].status == Open :: k.cve
  }

  /** An acceptance without a service covers the whole project; one with a service covers that
      service only. A project-scoped SBOM has no service, which equals no service id. */
  predicate Covers(a: Acceptance, cve: CveId, sbom: Sbom) {
    a.cve == cve && a.project == sbom.project && (a.service.None? || a.service == sbom.service)
  }

  predicate Covered(db: Db, cve: CveId, sbom: Sbom) {
    exists a :: a in db.acceptances && Covers(db.acceptances[a], cve, sbom)
  }

  /** The open links that no acceptance covers. */
  function Actionable(db: Db): set<LinkKey> {
    set k | k in db.links && k.sbom in db.sboms && db.links[k].status == Open
            && !Covered(db, k.cve, db.sboms[k.sbom])
  }

  datatype Finding = Finding(project: ProjectId, service: Option<ServiceId>, cve: CveId)

  function FindingOf(db: Db, k: LinkKey): Finding
    requires k.sbom in db.sboms
  {
    Finding(db.sboms[k.sbom].project, db.sboms[k.sbom].service, k.cve)
  }

  /** What alerting, lists and counts read: the findings with an actionable link. */
  function ActionableFindings(db: Db): set<Finding> {
    set k | k in Actionable(db) :: FindingOf(db, k)
  }

  /** Every vulnerability open anywhere in a scope is open on the latest SBOM of that scope. */
  ghost predicate Reconciled(sboms: map<SbomId, Sbom>, links: map<LinkKey, Link>) {
    forall l, k :: l in LatestIds(sboms) && k in links && k.sbom in sboms
                   && SameScope(sboms[k.sbom], sboms[l]) && links[k].status == Open
                   ==> k.cve in OpenCves(links, l)
  }

  /** No SBOM shares its upload instant with another one of its scope. */
  ghost predicate DistinctUploads(sboms: map<SbomId, Sbom>) {
    forall a, b :: a in sboms && b in sboms && a != b && SameScope(sboms[a], sboms[b])
                   ==> sboms[a].uploaded != sboms[b].uploaded
  }

  /** A service only holds SBOMs of the project that owns it. */
  ghost predicate ServicesOwned(db: Db) {
    forall s :: s in db.sboms ==>
      && db.sboms[s].project in db.projects
      && (db.sboms[s].service.Some? ==>
            && db.sboms[s].service.value in db.services
            && db.services[db.sboms[s].service.value].project == db.sboms[s].project)
  }
}
