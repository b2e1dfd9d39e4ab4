/** Histories from the empty store that reach the states in which an expected property fails. The exact
    conditions are `Scanning.ReportedIsOpenIff`, `Scanning.RoundsReconcileIff`,
    `Retention.PruneHidesNothingIff`, `Snapshots.PastDayIsStable` and
    `Deletion.DeletionsAlwaysCommuteIff`. */
module Witnesses {
  import opened Store
  import opened Scanner
  import opened Scanning
  import opened Deletion
  import opened Retention
  import opened Acceptances
  import opened Lifecycle
  import opened Snapshots
  import opened SeverityCounts

  const MATCH := Match("CVE-1", "p", High, None, None, None, "", None, 0)
  const KEY := LinkKey(1, "p", "CVE-1")

  /** A project-scoped document that carries no date of its own. */
  function Plain(sha: string): Document {
    Document(1, "", sha, None, false)
  }

  /** Its upload as SBOM `s`, with one dependency. */
  function UploadOf(sha: string, s: SbomId, at: Time): Op {
    Upload(Plain(sha), s, 0, {s}, at)
  }

  lemma Extend(run: seq<Db>, ops: seq<Op>, op: Op) returns (longer: seq<Db>)
    requires History(run, ops) && Allowed(run[|ops|], op)
    ensures |longer| == |run| + 1 && longer[..|run|] == run && longer[|run|] == Apply(run[|ops|], op)
    ensures History(longer, ops + [op])
  {
    longer := run + [Apply(run[|ops|], op)];
  }

  const FIRST := Sbom(1, None, "a", 10, 10, false)

  lemma OneKeyReported()
    ensures ReportedKeys(1, [MATCH]) == {KEY} && ReportedCves([MATCH]) == {"CVE-1"} == PlaceableCves([MATCH])
  {
  }

  /** The first report opens the finding. */
  lemma Finds(db: Db)
    requires db == EMPTY_DB.(projects := {1}, sboms := map[1 := FIRST], deps := map[1 := 1])
    ensures var after := ScanSbom(db, 1, Report([MATCH]), 11, 11);
            after.links == map[KEY := Link(Open, None, 10)] && after == db.(vulns := after.vulns, links := after.links)
  {
    OneKeyReported();
    ScanKeepsOrFixes(map[1 := FIRST], map[], 1, [MATCH], 11, 11);
  }

  /** A report without it retires it. */
  lemma Retires(links: map<LinkKey, Link>)
    requires links.Keys == {KEY}
    ensures var after := ScanLinks(map[1 := FIRST], links, 1, [], 21, 21);
            after.Keys == {KEY} && after[KEY].status == Fixed
  {
  }

  /** And a report that names it again leaves it retired. */
  lemma StaysRetired(links: map<LinkKey, Link>)
    requires links.Keys == {KEY} && links[KEY].status == Fixed
    ensures var after := ScanLinks(map[1 := FIRST], links, 1, [MATCH], 31, 31);
            after.Keys == {KEY} && after[KEY].status == Fixed
  {
  }

  /** One SBOM, uploaded at 10. */
  lemma FirstUpload() returns (run: seq<Db>)
    ensures History(run, [AddProject(1), UploadOf("a", 1, 10)]) && run[0] == EMPTY_DB
    ensures run[2] == EMPTY_DB.(projects := {1}, sboms := map[1 := FIRST], deps := map[1 := 1])
  {
    var empty := EMPTY_DB.(projects := {1});
    var stored := empty.(sboms := map[1 := FIRST], deps := map[1 := 1]);
    assert Apply(EMPTY_DB, AddProject(1)) == empty;
    assert Apply(empty, UploadOf("a", 1, 10)) == stored;
    run := [EMPTY_DB, empty, stored];
  }

  /** The same SBOM, scanned with one finding. */
  lemma FirstFinding() returns (run: seq<Db>, ops: seq<Op>)
    ensures History(run, ops) && run[0] == EMPTY_DB
    ensures ops == [AddProject(1), UploadOf("a", 1, 10), Scan(1, Report([MATCH]), 11, 11)]
    ensures var db := run[3];
            && db.sboms == map[1 := FIRST] && db.links == map[KEY := Link(Open, None, 10)]
            && db.projects == {1} && db.services == map[] && db.deps == map[1 := 1] && db.acceptances == map[]
  {
    run := FirstUpload();
    ops := [AddProject(1), UploadOf("a", 1, 10)];
    run := Extend(run, ops, Scan(1, Report([MATCH]), 11, 11));
    ops := ops + [Scan(1, Report([MATCH]), 11, 11)];
    Finds(run[2]);
  }

  /** Scanned with a CVE and then without it. */
  lemma RetiredFinding() returns (run: seq<Db>, ops: seq<Op>)
    ensures History(run, ops) && run[0] == EMPTY_DB
    ensures ops == [AddProject(1), UploadOf("a", 1, 10), Scan(1, Report([MATCH]), 11, 11), Scan(1, Report([]), 21, 21)]
    ensures run[4].sboms == map[1 := FIRST] && run[4].links.Keys == {KEY} && run[4].links[KEY].status == Fixed
  {
    run, ops := FirstFinding();
    run := Extend(run, ops, Scan(1, Report([]), 21, 21));
    ops := ops + [Scan(1, Report([]), 21, 21)];
    Retires(map[KEY := Link(Open, None, 10)]);
  }

  /** Scanned with a CVE, without it, and with it again: the CVE is reported and open nowhere. */
  lemma ReportedYetOpenNowhere() returns (run: seq<Db>, ops: seq<Op>)
    ensures History(run, ops) && run[0] == EMPTY_DB
    ensures ops == [AddProject(1), UploadOf("a", 1, 10), Scan(1, Report([MATCH]), 11, 11),
                    Scan(1, Report([]), 21, 21), Scan(1, Report([MATCH]), 31, 31)]
    ensures "CVE-1" in PlaceableCves([MATCH])
    ensures run[5].links.Keys == {KEY} && run[5].links[KEY].status == Fixed
  {
    run, ops := RetiredFinding();
    StaysRetired(run[4].links);
    run := Extend(run, ops, Scan(1, Report([MATCH]), 31, 31));
    ops := ops + [Scan(1, Report([MATCH]), 31, 31)];
    OneKeyReported();
  }

  /** The finding and a second upload that is not scanned yet. */
  lemma SecondUpload(at: Time) returns (run: seq<Db>, ops: seq<Op>)
    ensures History(run, ops) && run[0] == EMPTY_DB && |ops| == 4
    ensures var db := run[4];
            && db.sboms == map[1 := FIRST, 2 := Sbom(1, None, "b", at, at, false)]
            && db.links == map[KEY := Link(Open, None, 10)] && db.deps == map[1 := 1, 2 := 2] && db.acceptances == map[]
  {
    run, ops := FirstFinding();
    run := Extend(run, ops, UploadOf("b", 2, at));
    ops := ops + [UploadOf("b", 2, at)];
  }

  lemma OnlyFinding(db: Db)
    requires db.sboms == map[1 := FIRST, 2 := Sbom(1, None, "b", 20, 20, false)]
    requires db.links == map[KEY := Link(Open, None, 10)] && db.acceptances == map[]
    ensures ActionableFindings(db) == {Finding(1, None, "CVE-1")}
  {
    assert KEY in Actionable(db);
  }

  lemma OnlyLinkPruned(db: Db)
    requires db.sboms == map[1 := FIRST, 2 := Sbom(1, None, "b", 20, 20, false)]
    requires db.links == map[KEY := Link(Open, None, 10)]
    ensures ActionableFindings(PruneSboms(db, Some(15))) == {}
  {
    assert 2 in Beaters(db.sboms, 1);
    assert 1 in Target(db.sboms, 15);
    assert PruneLinks(db, 15).links == map[];
  }

  /** A second upload that is not scanned yet supersedes the first one, which a prune then deletes with
      the only link of a finding. */
  lemma PruneCanHide() returns (run: seq<Db>, ops: seq<Op>)
    ensures History(run, ops) && run[0] == EMPTY_DB && |ops| == 5 && ops[4] == Prune(Some(15))
    ensures ActionableFindings(run[4]) == {Finding(1, None, "CVE-1")} && ActionableFindings(run[5]) == {}
  {
    run, ops := SecondUpload(20);
    OnlyFinding(run[4]);
    OnlyLinkPruned(run[4]);
    run := Extend(run, ops, Prune(Some(15)));
    ops := ops + [Prune(Some(15))];
  }

  /** Two uploads at one instant: a full round, which scans the SBOM that ranks first, leaves the finding
      of the other one open, and the store unreconciled. */
  lemma TieStaysOpen() returns (run: seq<Db>, ops: seq<Op>, round: seq<Task>)
    ensures History(run, ops) && run[0] == EMPTY_DB && |ops| == 4
    ensures FullRound(run[4].sboms, round) && !Reconciled(run[4].sboms, RunScans(run[4], round).links)
  {
    run, ops := SecondUpload(10);
    var db := run[4];
    LatestBeatsAll(db.sboms, 1);
    LatestBeatsAll(db.sboms, 2);
    assert Tied(db.sboms, 1, 2) && KEY.cve in OpenCves(db.links, 1);
    AlwaysConsistent(run, ops, 4);
    RoundsReconcileIff(db);
    round :| FullRound(db.sboms, round) && !Reconciled(db.sboms, RunScans(db, round).links);
  }

  lemma CountedOnFirstDay(run: seq<Db>, ops: seq<Op>)
    requires History(run, ops) && run[0] == EMPTY_DB && |ops| == 3
    requires run[3].sboms == map[1 := FIRST] && run[3].links == map[KEY := Link(Open, None, 10)]
    requires run[3].acceptances == map[]
    ensures LinksAsOf(run[3], DayEnd(0)) == {KEY} && OpenAsOf(run[3], DayEnd(0)) == {"CVE-1"}
  {
    AlwaysConsistent(run, ops, 3);
    assert KEY.cve in run[3].vulns;
    assert KEY in LinksAsOf(run[3], DayEnd(0));
  }

  /** Deleting the SBOM on the next day takes its vulnerability out of the day that counted it. */
  lemma DeletionRewritesDay() returns (run: seq<Db>, ops: seq<Op>)
    ensures History(run, ops) && run[0] == EMPTY_DB && |ops| == 4
    ensures ops[3] == Delete(1, None, DAY + 5) && LaterThan(ops[3], DayEnd(0))
    ensures OpenAsOf(run[3], DayEnd(0)) == {"CVE-1"} && OpenAsOf(run[4], DayEnd(0)) == {}
  {
    run, ops := FirstFinding();
    CountedOnFirstDay(run, ops);
    AlwaysConsistent(run, ops, 3);
    assert ValidPick(run[3].sboms, 1, None);
    AfterDay(run[3], Delete(1, None, DAY + 5), DayEnd(0));
    run := Extend(run, ops, Delete(1, None, DAY + 5));
    ops := ops + [Delete(1, None, DAY + 5)];
  }

  const AHEAD := Sbom(1, None, "a", 10, 2 * DAY, false)

  lemma AheadUpload() returns (run: seq<Db>, ops: seq<Op>)
    ensures History(run, ops) && run[0] == EMPTY_DB && |ops| == 2
    ensures run[2] == EMPTY_DB.(projects := {1}, sboms := map[1 := AHEAD], deps := map[1 := 1])
  {
    var upload := Upload(Document(1, "", "a", Some(2 * DAY), false), 1, 0, {1}, 10);
    var empty := EMPTY_DB.(projects := {1});
    var stored := empty.(sboms := map[1 := AHEAD], deps := map[1 := 1]);
    assert Apply(EMPTY_DB, AddProject(1)) == empty;
    assert Apply(empty, upload) == stored;
    run, ops := [EMPTY_DB, empty, stored], [AddProject(1), upload];
  }

  lemma AheadLink()
    ensures ScanLinks(map[1 := AHEAD], map[], 1, [MATCH], 11, 11) == map[KEY := Link(Open, None, 2 * DAY)]
  {
    OneKeyReported();
    ScanKeepsOrFixes(map[1 := AHEAD], map[], 1, [MATCH], 11, 11);
  }

  /** A document that carries a date two days ahead: the row stored on its first day counts its
      vulnerability, the row rebuilt for that day does not. */
  lemma AheadCountsToday() returns (run: seq<Db>, ops: seq<Op>)
    ensures History(run, ops) && run[0] == EMPTY_DB && |ops| == 3
    ensures OpenNow(run[3]) == {"CVE-1"} && OpenAsOf(run[3], DayEnd(0)) == {}
  {
    run, ops := AheadUpload();
    run := Extend(run, ops, Scan(1, Report([MATCH]), 11, 11));
    ops := ops + [Scan(1, Report([MATCH]), 11, 11)];
    AheadLink();
    AlwaysConsistent(run, ops, 3);
    AheadCounted(run[3]);
  }

  lemma AheadCounted(db: Db)
    requires db.sboms == map[1 := AHEAD] && db.links == map[KEY := Link(Open, None, 2 * DAY)]
    requires db.acceptances == map[] && HasSeverity(db, "CVE-1")
    ensures OpenNow(db) == {"CVE-1"} && OpenAsOf(db, DayEnd(0)) == {}
  {
    assert KEY in Actionable(db);
  }

  const ACCEPT := AcceptRisk(Request(1, None, "CVE-1"), 0, 12)

  lemma CanBeAccepted(db: Db)
    requires db.projects == {1} && "CVE-1" in db.vulns && db.acceptances == map[]
    requires db.sboms == map[1 := FIRST] && db.links == map[KEY := Link(Open, None, 10)]
    ensures Check(db, Request(1, None, "CVE-1")) == None
  {
    assert KEY in db.links && db.links[KEY].status == Open;
  }

  /** The finding, accepted on its first day. */
  lemma AcceptedFinding() returns (run: seq<Db>, ops: seq<Op>)
    ensures History(run, ops) && run[0] == EMPTY_DB && |ops| == 4 && ops[3] == ACCEPT
    ensures run[4].acceptances == map[0 := Acceptance(1, None, "CVE-1", 12)]
    ensures OpenAsOf(Revert(run[4], 0), DayEnd(0)) == {"CVE-1"} && OpenAsOf(run[4], DayEnd(0)) == {}
  {
    run, ops := FirstFinding();
    CountedOnFirstDay(run, ops);
    AlwaysConsistent(run, ops, 3);
    assert KEY.cve in run[3].vulns;
    CanBeAccepted(run[3]);
    AcceptThenRevert(run[3], Request(1, None, "CVE-1"), 0, 12);
    run := Extend(run, ops, ACCEPT);
    ops := ops + [ACCEPT];
    assert Covers(run[4].acceptances[0], "CVE-1", FIRST);
  }

  /** Reverting that acceptance, whenever it is done, brings the vulnerability back into the day. */
  lemma RevertRewritesDay() returns (run: seq<Db>, ops: seq<Op>)
    ensures History(run, ops) && run[0] == EMPTY_DB && |ops| == 5
    ensures ops[3] == ACCEPT && ops[4] == RevertRisk(0) && LaterThan(ops[4], DayEnd(0))
    ensures OpenAsOf(run[4], DayEnd(0)) == {} && OpenAsOf(run[5], DayEnd(0)) == {"CVE-1"}
  {
    run, ops := AcceptedFinding();
    run := Extend(run, ops, RevertRisk(0));
    ops := ops + [RevertRisk(0)];
  }

  /* ----- deletions under a tie ----- */

  function Later(sha: string, at: Time): Sbom {
    Sbom(1, None, sha, at, at, false)
  }

  const TWO: map<SbomId, Sbom> := map[1 := FIRST, 4 := Later("d", 12), 5 := Later("e", 14)]
  const THREE: map<SbomId, Sbom> := TWO[2 := Later("b", 20)]
  const CROWD: map<SbomId, Sbom> := THREE[3 := Later("c", 20)]

  /** Only plain uploads so far. */
  ghost predicate OnlyPlain(db: Db) {
    db.projects == {1} && db.services == map[] && db.deps.Keys == db.sboms.Keys
  }

  lemma UploadMore(run: seq<Db>, ops: seq<Op>, sha: string, s: SbomId, at: Time)
    returns (longer: seq<Db>, more: seq<Op>)
    requires History(run, ops) && OnlyPlain(run[|ops|]) && s !in run[|ops|].sboms && !Stored(run[|ops|], sha)
    ensures History(longer, more) && longer[0] == run[0] && |more| == |ops| + 1 && OnlyPlain(longer[|more|])
    ensures longer[|more|].sboms == run[|ops|].sboms[s := Later(sha, at)] && longer[|more|].links == run[|ops|].links
  {
    longer := Extend(run, ops, UploadOf(sha, s, at));
    more := ops + [UploadOf(sha, s, at)];
    assert longer[0] == longer[..|run|][0];
  }

  lemma TwoUploads() returns (run: seq<Db>, ops: seq<Op>)
    ensures History(run, ops) && run[0] == EMPTY_DB && |ops| == 5 && OnlyPlain(run[5])
    ensures run[5].sboms == TWO
    ensures run[5].links == map[KEY := Link(Open, None, 10)]
  {
    run, ops := FirstFinding();
    run, ops := UploadMore(run, ops, "d", 4, 12);
    run, ops := UploadMore(run, ops, "e", 5, 14);
  }

  lemma ThreeUploads() returns (run: seq<Db>, ops: seq<Op>)
    ensures History(run, ops) && run[0] == EMPTY_DB && |ops| == 6 && OnlyPlain(run[6])
    ensures run[6].sboms == THREE
    ensures run[6].links == map[KEY := Link(Open, None, 10)]
  {
    run, ops := TwoUploads();
    run, ops := UploadMore(run, ops, "b", 2, 20);
  }

  lemma FourUploads() returns (run: seq<Db>, ops: seq<Op>)
    ensures History(run, ops) && run[0] == EMPTY_DB && |ops| == 7
    ensures run[7].sboms == CROWD && run[7].links == map[KEY := Link(Open, None, 10)]
  {
    run, ops := ThreeUploads();
    run, ops := UploadMore(run, ops, "c", 3, 20);
  }

  lemma ScanOfThird(db: Db)
    requires 3 in db.sboms && db.links.Keys == {KEY} && !db.sboms[3].blank
    ensures var after := ScanSbom(db, 3, Report([MATCH]), 21, 21);
            after.sboms == db.sboms && after.links.Keys == {KEY, LinkKey(3, "p", "CVE-1")}
  {
    ScanKeepsOrFixes(db.sboms, db.links, 3, [MATCH], 21, 21);
    assert MATCH in [MATCH] && ReportedKeys(3, [MATCH]) == {LinkKey(3, "p", "CVE-1")};
  }

  lemma TiedTopsDisagree(sboms: map<SbomId, Sbom>, links: map<LinkKey, Link>)
    requires sboms == CROWD && links.Keys == {KEY, LinkKey(3, "p", "CVE-1")}
    ensures ScopesCoherent(sboms) && 4 in sboms && 5 in sboms && SameScope(sboms[4], sboms[5])
    ensures !TopsAgree(sboms, links, Rest(sboms, 4) - {5})
  {
    var ids := Rest(sboms, 4) - {5};
    assert ids == {1, 2, 3};
    assert Tops(sboms, ids, 2) && Tops(sboms, ids, 3);
    assert LinkKey(3, "p", "CVE-1") in links && KEY.cve in LinkedCves(links, 3);
    assert KEY in links && KEY.cve !in LinkedCves(links, 2);
  }

  lemma CrowdScanned() returns (run: seq<Db>, ops: seq<Op>)
    ensures History(run, ops) && run[0] == EMPTY_DB && |ops| == 8 && ops[7] == Scan(3, Report([MATCH]), 21, 21)
    ensures run[8].sboms == CROWD && run[8].links.Keys == {KEY, LinkKey(3, "p", "CVE-1")}
  {
    run, ops := FourUploads();
    ScanOfThird(run[7]);
    run := Extend(run, ops, Scan(3, Report([MATCH]), 21, 21));
    ops := ops + [Scan(3, Report([MATCH]), 21, 21)];
  }

  /** Among three SBOMs that stay, the two newest ones share their instant and only one of them carries
      the CVE of the oldest: which one the query returns after the second deletion decides whether the
      oldest keeps its finding open. */
  lemma DeletionsDisagree() returns (run: seq<Db>, ops: seq<Op>)
    ensures History(run, ops) && run[0] == EMPTY_DB && |ops| == 8 && 4 in run[8].sboms && 5 in run[8].sboms
    ensures !AlwaysCommute(run[8].sboms, run[8].links, 4, 5, 31, 32)
  {
    run, ops := CrowdScanned();
    TiedTopsDisagree(run[8].sboms, run[8].links);
    DeletionsAlwaysCommuteIff(run[8].sboms, run[8].links, 4, 5, 31, 32);
  }
}
