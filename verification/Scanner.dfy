/** What one scan does to vulnerability metadata and to links, and what rescanning keeps.
    A scanner report is a list of matches whose fields are already parsed. */
module Scanner {
  import opened Store

  datatype Match = Match(
    cve: CveId,
    purl: Purl,
    severity: Severity,
    cvss: Option<real>,
    epss: Option<real>,
    percentile: Option<real>,
    description: string,
    published: Option<Time>,
    payload: nat)

  datatype Outcome = Failed | Report(matches: seq<Match>)

  /* ----- vulnerability metadata ----- */

  function AppendNew(xs: seq<Purl>, p: Purl): seq<Purl> {
    if p == "" || p in xs then xs else xs + [p]
  }

  /** A row as first inserted for match `m`. */
  function NewVuln(m: Match): Vuln {
    Vuln(Some(m.severity), m.cvss, m.epss, m.percentile, m.description,
         if m.purl == "" then [] else [m.purl], m.published, m.payload)
  }

  /** The metadata refresh: severity, score and payload always follow the report, the other
      fields only when the report carries them. */
  function Refresh(v: Vuln, m: Match): Vuln {
    Vuln(Some(m.severity), m.cvss,
         if m.epss.Some? then m.epss else v.epss,
         if m.percentile.Some? then m.percentile else v.percentile,
         if m.description != "" then m.description else v.summary,
         AppendNew(v.affected, m.purl),
         if m.published.Some? then m.published else v.published,
         m.payload)
  }

  function RefreshOne(vulns: map<CveId, Vuln>, m: Match): map<CveId, Vuln> {
    if m.cve == "" then vulns
    else vulns[m.cve := Refresh(if m.cve in vulns then vulns[m.cve] else NewVuln(m), m)]
  }

  function RefreshAll(vulns: map<CveId, Vuln>, ms: seq<Match>): map<CveId, Vuln> {
    if ms == [] then vulns
    else RefreshOne(RefreshAll(vulns, ms[..|ms| - 1]), ms[|ms| - 1])
  }

  /** The matches of a report that concern `c`, in report order. */
  function About(ms: seq<Match>, c: CveId): seq<Match> {
    if ms == [] then []
    else
      var rest := About(ms[..|ms| - 1], c);
      if ms[|ms| - 1].cve == c && c != "" then rest + [ms[|ms| - 1]] else rest
  }

  /** The last value present in `xs`, or `otherwise` when there is none. */
  function LastPresent<T>(xs: seq<Option<T>>, otherwise: Option<T>): (r: Option<T>)
    ensures otherwise.Some? ==> r.Some?
  {
    if xs == [] then otherwise
    else if xs[|xs| - 1].Some? then xs[|xs| - 1]
    else LastPresent(xs[..|xs| - 1], otherwise)
  }

  function AppendAllNew(xs: seq<Purl>, ps: seq<Purl>): seq<Purl> {
    if ps == [] then xs
    else AppendNew(AppendAllNew(xs, ps[..|ps| - 1]), ps[|ps| - 1])
  }

  function Epss(ms: seq<Match>): seq<Option<real>> { seq(|ms|, i requires 0 <= i < |ms| => ms[i].epss) }

  function Percentiles(ms: seq<Match>): seq<Option<real>> { seq(|ms|, i requires 0 <= i < |ms| => ms[i].percentile) }

  function Dates(ms: seq<Match>): seq<Option<Time>> { seq(|ms|, i requires 0 <= i < |ms| => ms[i].published) }

  function Summaries(ms: seq<Match>): seq<Option<string>> {
    seq(|ms|, i requires 0 <= i < |ms| => if ms[i].description == "" then None else Some(ms[i].description))
  }

  function Purls(ms: seq<Match>): seq<Purl> { seq(|ms|, i requires 0 <= i < |ms| => ms[i].purl) }

  /** The row that matches `ms`, all about one CVE, leave on top of `base`, field by field:
      the last match wins, the last value present wins, or packages accumulate in order. */
  function Summarised(base: Vuln, ms: seq<Match>): Vuln
    requires ms != []
  {
    var m := ms[|ms| - 1];
    Vuln(Some(m.severity), m.cvss,
         LastPresent(Epss(ms), base.epss),
         LastPresent(Percentiles(ms), base.percentile),
         LastPresent(Summaries(ms), Some(base.summary)).value,
         AppendAllNew(base.affected, Purls(ms)),
         LastPresent(Dates(ms), base.published),
         m.payload)
  }

  /** A row that does not exist yet behaves like an empty one. */
  const BLANK := Vuln(None, None, None, None, "", [], None, 0)

  lemma {:induction false} LastPresentTwice<T>(xs: seq<Option<T>>, d: Option<T>)
    ensures LastPresent(xs, LastPresent(xs, d)) == LastPresent(xs, d)
  {
    LastPresentAny(xs, d, LastPresent(xs, d));
  }

  /** Either some entry is present and the fallback is irrelevant, or the fallback is the result. */
  lemma {:induction false} LastPresentAny<T>(xs: seq<Option<T>>, d: Option<T>, e: Option<T>)
    ensures LastPresent(xs, d) == LastPresent(xs, e) || (LastPresent(xs, d) == d && LastPresent(xs, e) == e)
  {
    if xs != [] && xs[|xs| - 1].None? {
      LastPresentAny(xs[..|xs| - 1], d, e);
    }
  }

  /** Ordered-unique append keeps what was there, adds exactly the new non-empty entries, and
      keeps entries distinct. */
  lemma {:induction false} AppendAllNewContents(xs: seq<Purl>, ps: seq<Purl>)
    ensures xs <= AppendAllNew(xs, ps)
    ensures forall p :: p in AppendAllNew(xs, ps) <==> p in xs || (p in ps && p != "")
    ensures (forall i, j :: 0 <= i < j < |xs| ==> xs[i] != xs[j])
            ==> forall i, j :: 0 <= i < j < |AppendAllNew(xs, ps)| ==>
                AppendAllNew(xs, ps)[i] != AppendAllNew(xs, ps)[j]
  {
    if ps != [] {
      AppendAllNewContents(xs, ps[..|ps| - 1]);
      assert ps == ps[..|ps| - 1] + [ps[|ps| - 1]];
    }
  }

  lemma {:induction false} AppendNothingNew(xs: seq<Purl>, ps: seq<Purl>)
    requires forall p :: p in ps && p != "" ==> p in xs
    ensures AppendAllNew(xs, ps) == xs
  {
    if ps != [] {
      AppendNothingNew(xs, ps[..|ps| - 1]);
    }
  }

  /** Applying the same matches to their own result changes nothing. */
  lemma SummarisedTwice(base: Vuln, ms: seq<Match>)
    requires ms != []
    ensures Summarised(Summarised(base, ms), ms) == Summarised(base, ms)
  {
    LastPresentTwice(Epss(ms), base.epss);
    LastPresentTwice(Percentiles(ms), base.percentile);
    LastPresentTwice(Dates(ms), base.published);
    LastPresentTwice(Summaries(ms), Some(base.summary));
    AppendAllNewContents(base.affected, Purls(ms));
    AppendNothingNew(AppendAllNew(base.affected, Purls(ms)), Purls(ms));
  }

  /** One more match: the refresh step on top of a closed-form row is the longer closed form. */
  lemma SummarisedStep(base: Vuln, ms: seq<Match>, m: Match)
    ensures Summarised(base, ms + [m]) == Refresh(if ms == [] then base else Summarised(base, ms), m)
  {
    var all := ms + [m];
    assert Epss(all) == Epss(ms) + [m.epss];
    assert Percentiles(all) == Percentiles(ms) + [m.percentile];
    assert Dates(all) == Dates(ms) + [m.published];
    assert Summaries(all) == Summaries(ms) + [if m.description == "" then None else Some(m.description)];
    assert Purls(all) == Purls(ms) + [m.purl];
    LastPresentStep(Epss(ms), m.epss, base.epss);
    LastPresentStep(Percentiles(ms), m.percentile, base.percentile);
    LastPresentStep(Dates(ms), m.published, base.published);
    LastPresentStep(Summaries(ms), if m.description == "" then None else Some(m.description), Some(base.summary));
    AppendAllNewStep(base.affected, Purls(ms), m.purl);
  }

  lemma LastPresentStep<T>(xs: seq<Option<T>>, x: Option<T>, d: Option<T>)
    ensures LastPresent(xs + [x], d) == if x.Some? then x else LastPresent(xs, d)
  {
  }

  lemma AppendAllNewStep(xs: seq<Purl>, ps: seq<Purl>, p: Purl)
    ensures AppendAllNew(xs, ps + [p]) == AppendNew(AppendAllNew(xs, ps), p)
  {
  }

  function BaseRow(vulns: map<CveId, Vuln>, c: CveId): Vuln {
    if c in vulns then vulns[c] else BLANK
  }

  /** Row by row, the one-match-at-a-time loop computes the closed form. */
  lemma {:induction false} RefreshAllAt(vulns: map<CveId, Vuln>, ms: seq<Match>, c: CveId)
    ensures c in RefreshAll(vulns, ms) <==> c in vulns || About(ms, c) != []
    ensures About(ms, c) == [] && c in vulns ==> RefreshAll(vulns, ms)[c] == vulns[c]
    ensures About(ms, c) != [] ==> RefreshAll(vulns, ms)[c] == Summarised(BaseRow(vulns, c), About(ms, c))
  {
    if ms != [] {
      var init, m := ms[..|ms| - 1], ms[|ms| - 1];
      RefreshAllAt(vulns, init, c);
      if m.cve == c && c != "" {
        SummarisedStep(BaseRow(vulns, c), About(init, c), m);
      }
    }
  }

  /** A report processed twice leaves the metadata of one processing, whatever CVEs, packages
      or missing fields it repeats. */
  lemma RefreshTwice(vulns: map<CveId, Vuln>, ms: seq<Match>)
    ensures RefreshAll(RefreshAll(vulns, ms), ms) == RefreshAll(vulns, ms)
  {
    var once := RefreshAll(vulns, ms);
    forall c
      ensures c in RefreshAll(once, ms) <==> c in once
      ensures c in once ==> RefreshAll(once, ms)[c] == once[c]
    {
      RefreshAllAt(vulns, ms, c);
      RefreshAllAt(once, ms, c);
      if About(ms, c) != [] {
        SummarisedTwice(BaseRow(vulns, c), About(ms, c));
      }
    }
  }

  /* ----- links ----- */

  function ReportedCves(ms: seq<Match>): set<CveId> {
    set m | m in ms && m.cve != "" :: m.cve
  }

  /** The link keys a report asks for on SBOM `s`: matches without an id or a package give none. */
  function ReportedKeys(s: SbomId, ms: seq<Match>): set<LinkKey> {
    set m | m in ms && m.cve != "" && m.purl != "" :: LinkKey(s, m.purl, m.cve)
  }

  /** Missing links are inserted open; a link that exists is left alone, fixed ones included. */
  function AddLinks(links: map<LinkKey, Link>, s: SbomId, at: Time, ms: seq<Match>): map<LinkKey, Link> {
    AddKeys(links, ReportedKeys(s, ms), at)
  }

  function AddKeys(links: map<LinkKey, Link>, keys: set<LinkKey>, at: Time): map<LinkKey, Link> {
    (map k | k in keys :: Link(Open, None, at)) + links
  }

  /** An UPDATE that marks the open links among `targets` as fixed. */
  function MarkFixed(links: map<LinkKey, Link>, targets: set<LinkKey>, t: Time): map<LinkKey, Link> {
    map k | k in links ::
      if k in targets && links[k].status == Open then links[k].(status := Fixed, fixedAt := Some(t)) else links[k]
  }

  function StaleKeys(links: map<LinkKey, Link>, s: SbomId, ids: set<CveId>): set<LinkKey> {
    set k | k in links && k.sbom == s && k.cve !in ids
  }

  function Retire(links: map<LinkKey, Link>, s: SbomId, ids: set<CveId>, t: Time): map<LinkKey, Link> {
    MarkFixed(links, StaleKeys(links, s, ids), t)
  }

  /** The scope condition of a reconcile: the service alone when there is one, otherwise the
      project together with an absent service. */
  predicate ScopeFilter(s: Sbom, o: Sbom) {
    if s.service.Some? then o.service == s.service else o.project == s.project && o.service.None?
  }

  function OlderIds(sboms: map<SbomId, Sbom>, s: SbomId): set<SbomId>
    requires s in sboms
  {
    set o | o in sboms && ScopeFilter(sboms[s], sboms[o]) && o != s && sboms[o].uploaded < sboms[s].uploaded
  }

  function GoneKeys(sboms: map<SbomId, Sbom>, links: map<LinkKey, Link>, s: SbomId): set<LinkKey>
    requires s in sboms
  {
    var older, current := OlderIds(sboms, s), OpenCves(links, s);
    set k | k in links && k.sbom in older && k.cve !in current
  }

  /** Links of older SBOMs in the scope are fixed when their CVE is not open on `s`. */
  function Reconcile(sboms: map<SbomId, Sbom>, links: map<LinkKey, Link>, s: SbomId, t: Time): map<LinkKey, Link>
    requires s in sboms
  {
    MarkFixed(links, GoneKeys(sboms, links, s), t)
  }

  /** Insert, retire, reconcile: the link side of one successful scan. */
  function ScanLinks(sboms: map<SbomId, Sbom>, links: map<LinkKey, Link>, s: SbomId, ms: seq<Match>,
                     retireAt: Time, reconcileAt: Time): map<LinkKey, Link>
    requires s in sboms
  {
    var added := AddLinks(links, s, sboms[s].created, ms);
    var retired := Retire(added, s, ReportedCves(ms), retireAt);
    Reconcile(sboms, retired, s, reconcileAt)
  }

  /** What the scanner hands back: an empty document is a clean report without running it. */
  function Effective(s: Sbom, o: Outcome): Outcome {
    if s.blank then Report([]) else o
  }

  function ScanSbom(db: Db, s: SbomId, o: Outcome, retireAt: Time, reconcileAt: Time): Db {
    if s !in db.sboms || Effective(db.sboms[s], o).Failed? then db
    else
      var ms := Effective(db.sboms[s], o).matches;
      db.(vulns := RefreshAll(db.vulns, ms),
          links := ScanLinks(db.sboms, db.links, s, ms, retireAt, reconcileAt))
  }

  /** The link at `k` after a successful scan of `s`, from the links before it alone. */
  function ScannedLink(sboms: map<SbomId, Sbom>, links: map<LinkKey, Link>, s: SbomId, ms: seq<Match>,
                       retireAt: Time, reconcileAt: Time, k: LinkKey): Option<Link>
    requires s in sboms
  {
    if k in links then
      var l := links[k];
      if k.sbom == s && l.status == Open && k.cve !in ReportedCves(ms) then
        Some(l.(status := Fixed, fixedAt := Some(retireAt)))
      else if k.sbom in OlderIds(sboms, s) && l.status == Open && k.cve !in OpenAfter(links, s, ms) then
        Some(l.(status := Fixed, fixedAt := Some(reconcileAt)))
      else Some(l)
    else if k in ReportedKeys(s, ms) then Some(Link(Open, None, sboms[s].created))
    else None
  }

  /** The CVEs open on `s` after a scan: reported ones that were already open there, and
      reported ones with a package that had no link yet. */
  function OpenAfter(links: map<LinkKey, Link>, s: SbomId, ms: seq<Match>): set<CveId> {
    (OpenCves(links, s) * ReportedCves(ms)) + (set k | k in ReportedKeys(s, ms) && k !in links :: k.cve)
  }

  lemma OpenAfterRetire(links: map<LinkKey, Link>, s: SbomId, ms: seq<Match>, at: Time, t: Time)
    ensures OpenCves(Retire(AddLinks(links, s, at, ms), s, ReportedCves(ms), t), s) == OpenAfter(links, s, ms)
  {
    var added := AddLinks(links, s, at, ms);
    var retired := Retire(added, s, ReportedCves(ms), t);
    forall c | c in OpenCves(retired, s)
      ensures c in OpenAfter(links, s, ms)
    {
      var k :| k in retired && k.sbom == s && retired[k].status == Open && k.cve == c;
      assert k in added && added[k].status == Open && c in ReportedCves(ms);
    }
    forall c | c in OpenAfter(links, s, ms)
      ensures c in OpenCves(retired, s)
    {
      if c in OpenCves(links, s) * ReportedCves(ms) {
        var k :| k in links && k.sbom == s && links[k].status == Open && k.cve == c;
        assert retired[k] == links[k];
      } else {
        var k :| k in ReportedKeys(s, ms) && k !in links && k.cve == c;
        assert k in retired && retired[k].status == Open;
      }
    }
  }

  /** The three statements of a scan, run one after the other over the whole table, act on
      each link as `ScannedLink` says. */
  lemma ScanLinkByLink(sboms: map<SbomId, Sbom>, links: map<LinkKey, Link>, s: SbomId, ms: seq<Match>,
                       t1: Time, t2: Time, k: LinkKey)
    requires s in sboms
    ensures Lookup(ScanLinks(sboms, links, s, ms, t1, t2), k) == ScannedLink(sboms, links, s, ms, t1, t2, k)
  {
    var added := AddLinks(links, s, sboms[s].created, ms);
    var retired := Retire(added, s, ReportedCves(ms), t1);
    OpenAfterRetire(links, s, ms, sboms[s].created, t1);
    assert k in added <==> k in links || k in ReportedKeys(s, ms);
    assert k in retired <==> k in added;
    if k in added && k.sbom != s {
      assert k in links && retired[k] == links[k];
    }
  }
}
