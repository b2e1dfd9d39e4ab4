/** Consequences of scans: one scan, the same scan again, and the periodic rescan of the latest
    SBOM of every scope. */
module Scanning {
  import opened Store
  import opened Scanner

  /** The reconcile scope coincides with the (project, service) scope. */
  ghost predicate ScopesCoherent(sboms: map<SbomId, Sbom>) {
    forall a, b {:trigger ScopeFilter(sboms[a], sboms[b])} {:trigger SameScope(sboms[a], sboms[b])} ::
      a in sboms && b in sboms ==> (ScopeFilter(sboms[a], sboms[b]) <==> SameScope(sboms[a], sboms[b]))
  }

  lemma OwnedServicesGiveScopes(db: Db)
    requires ServicesOwned(db)
    ensures ScopesCoherent(db.sboms)
  {
  }

  /** `after` holds, link by link, what a successful scan of `s` makes of `links`. */
  ghost predicate ScansTo(sboms: map<SbomId, Sbom>, links: map<LinkKey, Link>, s: SbomId, ms: seq<Match>,
                          t1: Time, t2: Time, after: map<LinkKey, Link>)
    requires s in sboms
  {
    forall k :: Lookup(after, k) == ScannedLink(sboms, links, s, ms, t1, t2, k)
  }

  lemma ScanIsPointwise(sboms: map<SbomId, Sbom>, links: map<LinkKey, Link>, s: SbomId, ms: seq<Match>,
                        t1: Time, t2: Time)
    requires s in sboms
    ensures ScansTo(sboms, links, s, ms, t1, t2, ScanLinks(sboms, links, s, ms, t1, t2))
  {
    forall k {
      ScanLinkByLink(sboms, links, s, ms, t1, t2, k);
    }
  }

  /** A scan leaves a link alone or fixes it at one of its two instants, and inserts reported keys open. */
  ghost predicate KeepsOrFixes(links: map<LinkKey, Link>, added: set<LinkKey>, at: Time, t1: Time, t2: Time,
                               after: map<LinkKey, Link>)
  {
    && after.Keys == links.Keys + added
    && (forall k :: k in links ==>
          || after[k] == links[k]
          || (links[k].status == Open && (after[k] == FixedAt(links[k], t1) || after[k] == FixedAt(links[k], t2))))
    && (forall k :: k in added && k !in links ==> after[k] == Link(Open, None, at))
  }

  function FixedAt(l: Link, t: Time): Link {
    l.(status := Fixed, fixedAt := Some(t))
  }

  lemma ScanKeepsOrFixes(sboms: map<SbomId, Sbom>, links: map<LinkKey, Link>, s: SbomId, ms: seq<Match>,
                         t1: Time, t2: Time)
    requires s in sboms
    ensures KeepsOrFixes(links, ReportedKeys(s, ms), sboms[s].created, t1, t2, ScanLinks(sboms, links, s, ms, t1, t2))
  {
  }

  /** After a successful scan the open CVEs of the SBOM are reported ones, every strictly older
      SBOM of the scope has no open CVE beyond those, and nothing else moved. */
  ghost predicate Settles(sboms: map<SbomId, Sbom>, links: map<LinkKey, Link>, s: SbomId, ms: seq<Match>,
                          after: map<LinkKey, Link>)
    requires s in sboms
  {
    && OpenCves(after, s) == OpenAfter(links, s, ms) <= ReportedCves(ms)
    && (forall o :: o in OlderIds(sboms, s) ==> OpenCves(after, o) <= OpenCves(after, s))
    && (forall k: LinkKey :: k.sbom != s && k.sbom !in OlderIds(sboms, s) ==>
          (k in after <==> k in links) && (k in links ==> after[k] == links[k]))
    && (forall k :: k in links && links[k].status == Fixed ==> k in after && after[k] == links[k])
    && (forall k :: k in links ==> k in after && after[k].detectedAt == links[k].detectedAt)
    && after.Keys == links.Keys + ReportedKeys(s, ms)
  }

  lemma OpenOnScanned(sboms: map<SbomId, Sbom>, links: map<LinkKey, Link>, s: SbomId, ms: seq<Match>,
                      t1: Time, t2: Time, after: map<LinkKey, Link>)
    requires s in sboms && ScansTo(sboms, links, s, ms, t1, t2, after)
    ensures OpenCves(after, s) == OpenAfter(links, s, ms) <= ReportedCves(ms)
  {
    forall c | c in OpenCves(after, s)
      ensures c in OpenAfter(links, s, ms)
    {
      var k :| k in after && k.sbom == s && after[k].status == Open && k.cve == c;
      assert Lookup(after, k) == ScannedLink(sboms, links, s, ms, t1, t2, k);
    }
    forall c | c in OpenAfter(links, s, ms)
      ensures c in OpenCves(after, s) && c in ReportedCves(ms)
    {
      if c in OpenCves(links, s) * ReportedCves(ms) {
        var k :| k in links && k.sbom == s && links[k].status == Open && k.cve == c;
        assert Lookup(after, k) == ScannedLink(sboms, links, s, ms, t1, t2, k);
      } else {
        var k :| k in ReportedKeys(s, ms) && k !in links && k.cve == c;
        assert Lookup(after, k) == ScannedLink(sboms, links, s, ms, t1, t2, k);
      }
    }
  }

  lemma ScansSettle(sboms: map<SbomId, Sbom>, links: map<LinkKey, Link>, s: SbomId, ms: seq<Match>, t1: Time, t2: Time,
                    after: map<LinkKey, Link>)
    requires s in sboms && ScansTo(sboms, links, s, ms, t1, t2, after)
    ensures Settles(sboms, links, s, ms, after)
  {
    OpenOnScanned(sboms, links, s, ms, t1, t2, after);
    forall o, c | o in OlderIds(sboms, s) && c in OpenCves(after, o)
      ensures c in OpenAfter(links, s, ms)
    {
      var k :| k in after && k.sbom == o && after[k].status == Open && k.cve == c;
      assert Lookup(after, k) == ScannedLink(sboms, links, s, ms, t1, t2, k);
    }
    forall k
      ensures k in after <==> k in links || k in ReportedKeys(s, ms)
      ensures k in links ==> k in after && after[k].detectedAt == links[k].detectedAt
      ensures (k.sbom != s && k.sbom !in OlderIds(sboms, s)) || (k in links && links[k].status == Fixed)
              ==> Lookup(after, k) == Lookup(links, k)
    {
      assert Lookup(after, k) == ScannedLink(sboms, links, s, ms, t1, t2, k);
    }
    assert forall k :: k in links && links[k].status == Fixed ==> Lookup(after, k) == Some(links[k]);
    assert forall k: LinkKey :: k.sbom != s && k.sbom !in OlderIds(sboms, s) ==> Lookup(after, k) == Lookup(links, k);
  }

  /** A successful scan settles its scope, for every report and clock. */
  lemma ScanSettlesScope(sboms: map<SbomId, Sbom>, links: map<LinkKey, Link>, s: SbomId, ms: seq<Match>,
                         t1: Time, t2: Time)
    requires s in sboms
    ensures Settles(sboms, links, s, ms, ScanLinks(sboms, links, s, ms, t1, t2))
  {
    ScanIsPointwise(sboms, links, s, ms, t1, t2);
    ScansSettle(sboms, links, s, ms, t1, t2, ScanLinks(sboms, links, s, ms, t1, t2));
  }

  /** The first scan of an SBOM opens exactly the reported pairs that have an id and a package. */
  lemma FirstScanOpensReport(sboms: map<SbomId, Sbom>, links: map<LinkKey, Link>, s: SbomId, ms: seq<Match>,
                             t1: Time, t2: Time)
    requires s in sboms
    requires forall k :: k in links ==> k.sbom != s
    ensures var after := ScanLinks(sboms, links, s, ms, t1, t2);
            forall k: LinkKey :: k.sbom == s ==>
              && (k in after <==> k in ReportedKeys(s, ms))
              && (k in after ==> after[k] == Link(Open, None, sboms[s].created))
  {
  }

  /** The CVEs a report can place on an SBOM: those with an id and at least one package. */
  function PlaceableCves(ms: seq<Match>): set<CveId> {
    set m | m in ms && m.cve != "" && m.purl != "" :: m.cve
  }

  /** Some reported CVE has only fixed links on `s`: all its reported pairs are already linked
      and it is open on none of its packages. */
  ghost predicate OnlyFixedBefore(links: map<LinkKey, Link>, s: SbomId, ms: seq<Match>, c: CveId) {
    && (forall k :: k in ReportedKeys(s, ms) && k.cve == c ==> k in links)
    && (forall k :: k in links && k.sbom == s && k.cve == c ==> links[k].status == Fixed)
  }

  /** A scan leaves every reported CVE with a package open on its SBOM exactly when none of them
      was linked there by fixed links only: a scan never opens a fixed link again. */
  lemma ReportedIsOpenIff(sboms: map<SbomId, Sbom>, links: map<LinkKey, Link>, s: SbomId, ms: seq<Match>,
                          t1: Time, t2: Time)
    requires s in sboms
    ensures PlaceableCves(ms) <= OpenCves(ScanLinks(sboms, links, s, ms, t1, t2), s)
            <==> forall c :: c in PlaceableCves(ms) ==> !OnlyFixedBefore(links, s, ms, c)
  {
    ScanSettlesScope(sboms, links, s, ms, t1, t2);
    forall c | c in PlaceableCves(ms) {
      OpenAfterUnlessFixed(links, s, ms, c);
    }
  }

  lemma OpenAfterUnlessFixed(links: map<LinkKey, Link>, s: SbomId, ms: seq<Match>, c: CveId)
    requires c in PlaceableCves(ms)
    ensures c in OpenAfter(links, s, ms) <==> !OnlyFixedBefore(links, s, ms, c)
  {
  }

  /** Scanning again with the same report, at any later time, changes nothing at all. */
  lemma RescanChangesNothing(db: Db, s: SbomId, o: Outcome, t1: Time, t2: Time, u1: Time, u2: Time)
    ensures ScanSbom(ScanSbom(db, s, o, t1, t2), s, o, u1, u2) == ScanSbom(db, s, o, t1, t2)
  {
    if s in db.sboms && Effective(db.sboms[s], o).Report? {
      var ms := Effective(db.sboms[s], o).matches;
      RefreshTwice(db.vulns, ms);
      var once := ScanLinks(db.sboms, db.links, s, ms, t1, t2);
      ScanSettlesScope(db.sboms, db.links, s, ms, t1, t2);
      var twice := ScanLinks(db.sboms, once, s, ms, u1, u2);
      ScanIsPointwise(db.sboms, once, s, ms, u1, u2);
      SettledScanIsIdle(db.sboms, db.links, once, s, ms, u1, u2, twice);
    }
  }

  lemma SettledScanIsIdle(sboms: map<SbomId, Sbom>, links: map<LinkKey, Link>, once: map<LinkKey, Link>,
                          s: SbomId, ms: seq<Match>, u1: Time, u2: Time, twice: map<LinkKey, Link>)
    requires s in sboms
    requires Settles(sboms, links, s, ms, once)
    requires ScansTo(sboms, once, s, ms, u1, u2, twice)
    ensures twice == once
  {
    assert OpenAfter(once, s, ms) == OpenCves(once, s);
    forall k
      ensures k in twice <==> k in once
      ensures k in once ==> twice[k] == once[k]
    {
      assert Lookup(twice, k) == ScannedLink(sboms, once, s, ms, u1, u2, k);
      if k in once && once[k].status == Open {
        assert k.cve in OpenCves(once, k.sbom);
      }
    }
  }

  /** Scans of SBOMs in different scopes commute on links, whatever the clocks. */
  lemma ScansOfScopesCommute(sboms: map<SbomId, Sbom>, links: map<LinkKey, Link>,
                             a: SbomId, b: SbomId, ma: seq<Match>, mb: seq<Match>,
                             t1: Time, t2: Time, u1: Time, u2: Time)
    requires a in sboms && b in sboms && !SameScope(sboms[a], sboms[b])
    requires ScopesCoherent(sboms)
    ensures ScanLinks(sboms, ScanLinks(sboms, links, a, ma, t1, t2), b, mb, u1, u2)
         == ScanLinks(sboms, ScanLinks(sboms, links, b, mb, u1, u2), a, ma, t1, t2)
  {
    var la, lb := ScanLinks(sboms, links, a, ma, t1, t2), ScanLinks(sboms, links, b, mb, u1, u2);
    ScanIsPointwise(sboms, links, a, ma, t1, t2);
    ScanIsPointwise(sboms, links, b, mb, u1, u2);
    ScanIsPointwise(sboms, la, b, mb, u1, u2);
    ScanIsPointwise(sboms, lb, a, ma, t1, t2);
    PointwiseScansCommute(sboms, links, a, b, ma, mb, t1, t2, u1, u2, la, lb,
                          ScanLinks(sboms, la, b, mb, u1, u2), ScanLinks(sboms, lb, a, ma, t1, t2));
  }

  lemma PointwiseScansCommute(sboms: map<SbomId, Sbom>, links: map<LinkKey, Link>,
                              a: SbomId, b: SbomId, ma: seq<Match>, mb: seq<Match>,
                              t1: Time, t2: Time, u1: Time, u2: Time,
                              la: map<LinkKey, Link>, lb: map<LinkKey, Link>,
                              lab: map<LinkKey, Link>, lba: map<LinkKey, Link>)
    requires a in sboms && b in sboms && !SameScope(sboms[a], sboms[b])
    requires ScopesCoherent(sboms)
    requires ScansTo(sboms, links, a, ma, t1, t2, la) && ScansTo(sboms, links, b, mb, u1, u2, lb)
    requires ScansTo(sboms, la, b, mb, u1, u2, lab) && ScansTo(sboms, lb, a, ma, t1, t2, lba)
    ensures lab == lba
  {
    OtherScopeUnseen(sboms, links, la, a, b, ma, mb, t1, t2);
    OtherScopeUnseen(sboms, links, lb, b, a, mb, ma, u1, u2);
    forall k
      ensures Lookup(lab, k) == Lookup(lba, k)
    {
      assert Lookup(la, k) == ScannedLink(sboms, links, a, ma, t1, t2, k);
      assert Lookup(lb, k) == ScannedLink(sboms, links, b, mb, u1, u2, k);
      assert Lookup(lab, k) == ScannedLink(sboms, la, b, mb, u1, u2, k);
      assert Lookup(lba, k) == ScannedLink(sboms, lb, a, ma, t1, t2, k);
      ScannedLinksCommute(sboms, links, a, b, ma, mb, t1, t2, u1, u2, la, lb, k);
    }
    SameLookups(lab, lba);
  }

  lemma SameLookups<K, V>(m: map<K, V>, n: map<K, V>)
    requires forall k :: Lookup(m, k) == Lookup(n, k)
    ensures m == n
  {
    forall k
      ensures k in m <==> k in n
      ensures k in m ==> m[k] == n[k]
    {
      assert Lookup(m, k) == Lookup(n, k);
    }
  }

  lemma ScannedLinksCommute(sboms: map<SbomId, Sbom>, links: map<LinkKey, Link>,
                            a: SbomId, b: SbomId, ma: seq<Match>, mb: seq<Match>,
                            t1: Time, t2: Time, u1: Time, u2: Time,
                            la: map<LinkKey, Link>, lb: map<LinkKey, Link>, k: LinkKey)
    requires a in sboms && b in sboms && !SameScope(sboms[a], sboms[b]) && ScopesCoherent(sboms)
    requires Lookup(la, k) == ScannedLink(sboms, links, a, ma, t1, t2, k)
    requires Lookup(lb, k) == ScannedLink(sboms, links, b, mb, u1, u2, k)
    requires OpenAfter(la, b, mb) == OpenAfter(links, b, mb)
    requires OpenAfter(lb, a, ma) == OpenAfter(links, a, ma)
    ensures ScannedLink(sboms, la, b, mb, u1, u2, k) == ScannedLink(sboms, lb, a, ma, t1, t2, k)
  {
  }

  /** A scan of `a` leaves what a scan of `b`, in another scope, reads. */
  lemma OtherScopeUnseen(sboms: map<SbomId, Sbom>, links: map<LinkKey, Link>, la: map<LinkKey, Link>,
                         a: SbomId, b: SbomId, ma: seq<Match>, mb: seq<Match>, t1: Time, t2: Time)
    requires a in sboms && b in sboms && !SameScope(sboms[a], sboms[b])
    requires ScopesCoherent(sboms)
    requires ScansTo(sboms, links, a, ma, t1, t2, la)
    ensures OpenAfter(la, b, mb) == OpenAfter(links, b, mb) && OpenCves(la, b) == OpenCves(links, b)
    ensures forall k: LinkKey :: k.sbom in sboms && SameScope(sboms[k.sbom], sboms[b]) ==>
              (k in la <==> k in links) && (k in links ==> la[k] == links[k])
  {
    forall k: LinkKey | k.sbom in sboms && SameScope(sboms[k.sbom], sboms[b])
      ensures k in la <==> k in links
      ensures k in links ==> la[k] == links[k]
    {
      assert Lookup(la, k) == ScannedLink(sboms, links, a, ma, t1, t2, k);
    }
    assert forall k: LinkKey :: k.sbom == b ==> (k in la <==> k in links) && (k in links ==> la[k] == links[k]);
    assert OpenCves(la, b) == OpenCves(links, b);
    assert forall k: LinkKey :: k in ReportedKeys(b, mb) ==> (k in la <==> k in links);
    assert OpenAfter(la, b, mb) == OpenAfter(links, b, mb);
  }

  /* ----- the periodic rescan ----- */

  datatype Task = Task(sbom: SbomId, outcome: Outcome, retireAt: Time, reconcileAt: Time)

  function RunScans(db: Db, tasks: seq<Task>): Db {
    if tasks == [] then db
    else
      var t := tasks[|tasks| - 1];
      ScanSbom(RunScans(db, tasks[..|tasks| - 1]), t.sbom, t.outcome, t.retireAt, t.reconcileAt)
  }

  predicate Succeeds(sboms: map<SbomId, Sbom>, t: Task) {
    t.sbom in sboms && Effective(sboms[t.sbom], t.outcome).Report?
  }

  /** The links of one scope agree with its latest SBOM. */
  ghost predicate SettledScope(sboms: map<SbomId, Sbom>, links: map<LinkKey, Link>, l: SbomId)
    requires l in sboms
  {
    forall k :: k in links && k.sbom in sboms && SameScope(sboms[k.sbom], sboms[l]) && links[k].status == Open
                ==> k.cve in OpenCves(links, l)
  }

  /** Another SBOM of the scope of `l` with the same upload instant: the reconcile, which asks for
      strictly older ones, passes it by, while the ranking has put it behind `l`. */
  predicate Tied(sboms: map<SbomId, Sbom>, o: SbomId, l: SbomId)
    requires l in sboms
  {
    o in sboms && o != l && SameScope(sboms[o], sboms[l]) && sboms[o].uploaded == sboms[l].uploaded
  }

  ghost predicate OlderSettled(sboms: map<SbomId, Sbom>, links: map<LinkKey, Link>, l: SbomId)
    requires l in sboms
  {
    forall o :: o in OlderIds(sboms, l) ==> OpenCves(links, o) <= OpenCves(links, l)
  }

  lemma OthersAreOlderOrTied(sboms: map<SbomId, Sbom>, links: map<LinkKey, Link>, l: SbomId)
    requires l in LatestIds(sboms) && ScopesCoherent(sboms)
    ensures SettledScope(sboms, links, l)
            <==> && OlderSettled(sboms, links, l)
                 && forall o :: Tied(sboms, o, l) ==> OpenCves(links, o) <= OpenCves(links, l)
  {
    LatestBeatsAll(sboms, l);
    assert forall o :: o in OlderIds(sboms, l) || Tied(sboms, o, l)
                       <==> o in sboms && o != l && SameScope(sboms[o], sboms[l]);
    assert forall k :: k in links && links[k].status == Open ==> k.cve in OpenCves(links, k.sbom);
  }

  /** Exactly when a scan of the latest SBOM settles its scope: what is open on an SBOM tied with it
      must be open on it afterwards. */
  lemma ScanSettlesIff(sboms: map<SbomId, Sbom>, links: map<LinkKey, Link>, s: SbomId, ms: seq<Match>,
                       t1: Time, t2: Time)
    requires s in LatestIds(sboms) && ScopesCoherent(sboms)
    ensures SettledScope(sboms, ScanLinks(sboms, links, s, ms, t1, t2), s)
            <==> forall o :: Tied(sboms, o, s) ==> OpenCves(links, o) <= OpenAfter(links, s, ms)
  {
    var after := ScanLinks(sboms, links, s, ms, t1, t2);
    ScanSettlesScope(sboms, links, s, ms, t1, t2);
    OthersAreOlderOrTied(sboms, after, s);
    forall o | Tied(sboms, o, s)
      ensures OpenCves(after, o) == OpenCves(links, o)
    {
      SameOpen(links, after, o);
    }
  }

  lemma SameOpen(links: map<LinkKey, Link>, after: map<LinkKey, Link>, o: SbomId)
    requires forall k: LinkKey :: k.sbom == o ==> (k in after <==> k in links) && (k in links ==> after[k] == links[k])
    ensures OpenCves(after, o) == OpenCves(links, o)
  {
  }

  /** One task of a round: its own scope becomes settled towards older SBOMs, the scope of every other
      latest SBOM stays as it is, and what is open on tied SBOMs never moves. */
  lemma TaskSettles(db: Db, t: Task, l: SbomId)
    requires ScopesCoherent(db.sboms) && t.sbom in LatestIds(db.sboms) && l in LatestIds(db.sboms)
    ensures var after := ScanSbom(db, t.sbom, t.outcome, t.retireAt, t.reconcileAt).links;
            && ((t.sbom == l && Succeeds(db.sboms, t)) || OlderSettled(db.sboms, db.links, l)
                ==> OlderSettled(db.sboms, after, l))
            && (forall o :: Tied(db.sboms, o, l) ==> OpenCves(after, o) == OpenCves(db.links, o))
            && (t.outcome == Report([]) && (t.sbom == l || OpenCves(db.links, l) == {}) ==> OpenCves(after, l) == {})
  {
    if Succeeds(db.sboms, t) {
      var ms := Effective(db.sboms[t.sbom], t.outcome).matches;
      ScanSettlesScope(db.sboms, db.links, t.sbom, ms, t.retireAt, t.reconcileAt);
      SettlesOneScope(db.sboms, db.links, t.sbom, ms,
                      ScanLinks(db.sboms, db.links, t.sbom, ms, t.retireAt, t.reconcileAt), l);
    }
  }

  lemma SettlesOneScope(sboms: map<SbomId, Sbom>, links: map<LinkKey, Link>, s: SbomId, ms: seq<Match>,
                        after: map<LinkKey, Link>, l: SbomId)
    requires ScopesCoherent(sboms) && s in LatestIds(sboms) && l in LatestIds(sboms)
    requires Settles(sboms, links, s, ms, after)
    ensures s == l || OlderSettled(sboms, links, l) ==> OlderSettled(sboms, after, l)
    ensures forall o :: Tied(sboms, o, l) ==> OpenCves(after, o) == OpenCves(links, o)
    ensures ms == [] && (s == l || OpenCves(links, l) == {}) ==> OpenCves(after, l) == {}
  {
    forall o | o in sboms && o != s && o !in OlderIds(sboms, s)
      ensures OpenCves(after, o) == OpenCves(links, o)
    {
      SameOpen(links, after, o);
    }
    if s != l {
      OtherLatest(sboms, s, l);
    }
  }

  /** Two latest SBOMs have scopes apart: neither is reached by a scan of the other, nor is any SBOM
      of its scope. */
  lemma OtherLatest(sboms: map<SbomId, Sbom>, s: SbomId, l: SbomId)
    requires s in LatestIds(sboms) && l in LatestIds(sboms) && s != l && ScopesCoherent(sboms)
    ensures forall o :: o == l || o in OlderIds(sboms, l) || Tied(sboms, o, l) ==> o != s && o !in OlderIds(sboms, s)
  {
    if SameScope(sboms[s], sboms[l]) {
      LatestUnique(sboms, s, l);
    }
  }

  lemma {:induction false} ScansKeepSboms(db: Db, tasks: seq<Task>)
    ensures RunScans(db, tasks).sboms == db.sboms
  {
    if tasks != [] {
      ScansKeepSboms(db, tasks[..|tasks| - 1]);
    }
  }

  /** Scans of latest SBOMs, whatever they report, leave alone what is open on an SBOM tied with one. */
  lemma {:induction false} TiedUntouched(db: Db, tasks: seq<Task>, l: SbomId, o: SbomId)
    requires ScopesCoherent(db.sboms) && l in LatestIds(db.sboms) && Tied(db.sboms, o, l)
    requires forall t :: t in tasks ==> t.sbom in LatestIds(db.sboms)
    ensures OpenCves(RunScans(db, tasks).links, o) == OpenCves(db.links, o)
  {
    if tasks != [] {
      var init, last := tasks[..|tasks| - 1], tasks[|tasks| - 1];
      ScansKeepSboms(db, init);
      TiedUntouched(db, init, l, o);
      TaskSettles(RunScans(db, init), last, l);
    }
  }

  lemma {:induction false} OlderGetSettled(db: Db, tasks: seq<Task>, l: SbomId)
    requires ScopesCoherent(db.sboms) && l in LatestIds(db.sboms)
    requires forall t :: t in tasks ==> t.sbom in LatestIds(db.sboms)
    requires exists t :: t in tasks && t.sbom == l && Succeeds(db.sboms, t)
    ensures OlderSettled(db.sboms, RunScans(db, tasks).links, l)
  {
    var init, last := tasks[..|tasks| - 1], tasks[|tasks| - 1];
    assert tasks == init + [last];
    ScansKeepSboms(db, init);
    if !(last.sbom == l && Succeeds(db.sboms, last)) {
      OlderGetSettled(db, init, l);
    }
    TaskSettles(RunScans(db, init), last, l);
  }

  /** Scanning latest SBOMs in any order, with repeats and failures in between, settles the scope of
      an SBOM scanned successfully at least once if and only if nothing that was open on a tied SBOM
      before is missing on the scanned one afterwards. */
  lemma RescanSettles(db: Db, tasks: seq<Task>, l: SbomId)
    requires ScopesCoherent(db.sboms) && l in LatestIds(db.sboms)
    requires forall t :: t in tasks ==> t.sbom in LatestIds(db.sboms)
    requires exists t :: t in tasks && t.sbom == l && Succeeds(db.sboms, t)
    ensures SettledScope(db.sboms, RunScans(db, tasks).links, l)
            <==> forall o :: Tied(db.sboms, o, l) ==> OpenCves(db.links, o) <= OpenCves(RunScans(db, tasks).links, l)
  {
    OlderGetSettled(db, tasks, l);
    OthersAreOlderOrTied(db.sboms, RunScans(db, tasks).links, l);
    forall o | Tied(db.sboms, o, l) {
      TiedUntouched(db, tasks, l, o);
    }
  }

  /* ----- full rounds ----- */

  /** A fully successful round: it scans latest SBOMs, and each of them successfully at least once. */
  ghost predicate FullRound(sboms: map<SbomId, Sbom>, tasks: seq<Task>) {
    && (forall t :: t in tasks ==> t.sbom in LatestIds(sboms))
    && (forall l :: l in LatestIds(sboms) ==> exists t :: t in tasks && t.sbom == l && Succeeds(sboms, t))
  }

  /** Nothing is open on an SBOM tied with the latest one of its scope. */
  ghost predicate TiesIdle(sboms: map<SbomId, Sbom>, links: map<LinkKey, Link>) {
    forall l, o :: l in LatestIds(sboms) && Tied(sboms, o, l) ==> OpenCves(links, o) == {}
  }

  lemma RescanReconciles(db: Db, tasks: seq<Task>)
    requires ServicesOwned(db) && FullRound(db.sboms, tasks) && TiesIdle(db.sboms, db.links)
    ensures Reconciled(db.sboms, RunScans(db, tasks).links)
  {
    OwnedServicesGiveScopes(db);
    forall l | l in LatestIds(db.sboms)
      ensures SettledScope(db.sboms, RunScans(db, tasks).links, l)
    {
      RescanSettles(db, tasks, l);
    }
  }

  /** Exactly when rescanning can be relied on: every full round, in any order and with any reports,
      reconciles the whole store if and only if nothing is open on a tied SBOM when it starts. */
  lemma RoundsReconcileIff(db: Db)
    requires ServicesOwned(db)
    ensures (forall tasks :: FullRound(db.sboms, tasks) ==> Reconciled(db.sboms, RunScans(db, tasks).links))
            <==> TiesIdle(db.sboms, db.links)
  {
    if TiesIdle(db.sboms, db.links) {
      forall tasks | FullRound(db.sboms, tasks) {
        RescanReconciles(db, tasks);
      }
    } else {
      OwnedServicesGiveScopes(db);
      var l, o :| l in LatestIds(db.sboms) && Tied(db.sboms, o, l) && OpenCves(db.links, o) != {};
      var tasks := CleanTasks(LatestIds(db.sboms));
      assert FullRound(db.sboms, tasks);
      CleanRoundEmpties(db, tasks, l);
      TiedUntouched(db, tasks, l, o);
      var after := RunScans(db, tasks).links;
      var k :| k in after && k.sbom == o && after[k].status == Open;
      assert k.cve !in OpenCves(after, l);
    }
  }

  /** One task with an empty report for each of `ids`. */
  lemma {:induction false} CleanTasks(ids: set<SbomId>) returns (tasks: seq<Task>)
    ensures forall t :: t in tasks ==> t.sbom in ids && t.outcome == Report([])
    ensures forall s :: s in ids ==> exists t :: t in tasks && t.sbom == s
    decreases |ids|
  {
    if ids == {} {
      tasks := [];
    } else {
      var s :| s in ids;
      var rest := CleanTasks(ids - {s});
      var t := Task(s, Report([]), 0, 0);
      tasks := rest + [t];
      assert t in tasks && forall r :: r in rest ==> r in tasks;
      assert forall i :: i in ids ==> i == s || i in ids - {s};
    }
  }

  lemma {:induction false} CleanRoundEmpties(db: Db, tasks: seq<Task>, l: SbomId)
    requires ScopesCoherent(db.sboms) && l in LatestIds(db.sboms)
    requires forall t :: t in tasks ==> t.sbom in LatestIds(db.sboms) && t.outcome == Report([])
    requires exists t :: t in tasks && t.sbom == l
    ensures OpenCves(RunScans(db, tasks).links, l) == {}
  {
    var init, last := tasks[..|tasks| - 1], tasks[|tasks| - 1];
    assert tasks == init + [last];
    ScansKeepSboms(db, init);
    if last.sbom != l {
      CleanRoundEmpties(db, init, l);
    }
    TaskSettles(RunScans(db, init), last, l);
  }
}
