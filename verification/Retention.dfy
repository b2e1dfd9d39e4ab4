/** Pruning expired SBOMs: three deletes, children first, that select their target anew. */
module Retention {
  import opened Store

  /** Superseded SBOMs whose own creation date lies before the cutoff. */
  function Target(sboms: map<SbomId, Sbom>, cutoff: Time): set<SbomId> {
    set s | s in sboms && RowNumber(sboms, s) > 1 && sboms[s].created < cutoff
  }

  function PruneLinks(db: Db, cutoff: Time): Db {
    var target := Target(db.sboms, cutoff);
    db.(links := map k | k in db.links && k.sbom !in target :: db.links[k])
  }

  function PruneDeps(db: Db, cutoff: Time): Db {
    var target := Target(db.sboms, cutoff);
    db.(deps := map d | d in db.deps && db.deps[d] !in target :: db.deps[d])
  }

  function PruneRows(db: Db, cutoff: Time): Db {
    db.(sboms := db.sboms - Target(db.sboms, cutoff))
  }

  /** Retention is off when there is no cutoff. */
  function PruneSboms(db: Db, cutoff: Option<Time>): Db {
    match cutoff
    case None => db
    case Some(c) => PruneRows(PruneDeps(PruneLinks(db, c), c), c)
  }

  /** Every child row names an SBOM that exists. */
  ghost predicate NoDangling(db: Db) {
    (forall k :: k in db.links ==> k.sbom in db.sboms) && (forall d :: d in db.deps ==> db.deps[d] in db.sboms)
  }

  /** No statement of a prune ever leaves a child without its SBOM, and the pruned store keeps
      exactly the children of the SBOMs it keeps. */
  lemma NothingDangles(db: Db, cutoff: Time)
    requires NoDangling(db)
    ensures NoDangling(PruneLinks(db, cutoff))
    ensures NoDangling(PruneDeps(PruneLinks(db, cutoff), cutoff))
    ensures NoDangling(PruneSboms(db, Some(cutoff)))
    ensures var after := PruneSboms(db, Some(cutoff));
            && (forall k :: k in after.links <==> k in db.links && k.sbom in after.sboms)
            && (forall k :: k in after.links ==> after.links[k] == db.links[k])
            && (forall d :: d in after.deps <==> d in db.deps && db.deps[d] in after.sboms)
  {
  }

  lemma LatestIsKept(sboms: map<SbomId, Sbom>, cutoff: Time, s: SbomId)
    requires s in sboms && s !in Target(sboms, cutoff)
    ensures s in LatestIds(sboms) <==> s in LatestIds(sboms - Target(sboms, cutoff))
  {
    var left := sboms - Target(sboms, cutoff);
    assert Beaters(left, s) <= Beaters(sboms, s);
    SubsetSize(Beaters(left, s), Beaters(sboms, s));
    if s !in LatestIds(sboms) {
      var l := LatestOf(sboms, s);
      assert l in Beaters(left, s);
    }
  }

  /** The latest SBOM of every scope survives and the list of latest SBOMs does not change. */
  lemma LatestSurvives(sboms: map<SbomId, Sbom>, cutoff: Time)
    ensures LatestIds(sboms - Target(sboms, cutoff)) == LatestIds(sboms)
  {
    var left := sboms - Target(sboms, cutoff);
    forall s | s in left {
      LatestIsKept(sboms, cutoff, s);
    }
    assert forall s :: s in LatestIds(sboms) ==> s in left;
  }

  /** What a prune keeps: the latest SBOM of every scope, and every SBOM dated from the cutoff on. */
  lemma KeptExactly(sboms: map<SbomId, Sbom>, cutoff: Time, s: SbomId)
    requires s in sboms
    ensures s in sboms - Target(sboms, cutoff)
            <==> sboms[s].created >= cutoff
                 || forall o :: o in sboms && o != s && SameScope(sboms[o], sboms[s]) ==> Beats(sboms, s, o)
  {
    LatestBeatsAll(sboms, s);
  }

  lemma NothingLeftToPrune(sboms: map<SbomId, Sbom>, cutoff: Time, again: Time)
    requires again <= cutoff
    ensures Target(sboms - Target(sboms, cutoff), again) == {}
  {
    var left := sboms - Target(sboms, cutoff);
    LatestSurvives(sboms, cutoff);
    forall s | s in left && left[s].created < again
      ensures RowNumber(left, s) == 1
    {
      assert s in LatestIds(left);
    }
  }

  lemma EmptyTargetIsIdle(db: Db, cutoff: Time)
    requires Target(db.sboms, cutoff) == {}
    ensures PruneSboms(db, Some(cutoff)) == db
  {
  }

  /** A second prune with the same cutoff, or an earlier one, deletes nothing. */
  lemma SecondPruneIsIdle(db: Db, cutoff: Time, again: Time)
    requires again <= cutoff
    ensures PruneSboms(PruneSboms(db, Some(cutoff)), Some(again)) == PruneSboms(db, Some(cutoff))
  {
    NothingLeftToPrune(db.sboms, cutoff, again);
    EmptyTargetIsIdle(PruneSboms(db, Some(cutoff)), again);
  }

  /** What a prune leaves: the rows of the SBOMs it keeps, the latest of every scope among them. */
  ghost predicate Keeps(db: Db, after: Db) {
    && after.acceptances == db.acceptances
    && after.sboms.Keys <= db.sboms.Keys
    && (forall s :: s in after.sboms ==> after.sboms[s] == db.sboms[s])
    && LatestIds(after.sboms) == LatestIds(db.sboms)
    && (forall k :: k in after.links <==> k in db.links && k.sbom in after.sboms)
    && (forall k :: k in after.links ==> after.links[k] == db.links[k])
  }

  /** Pruning cannot change what is actionable on a reconciled store: the same (project, service,
      vulnerability) findings stay open, and the store stays reconciled. */
  lemma PruneIsTransparent(db: Db, cutoff: Time)
    requires NoDangling(db) && Reconciled(db.sboms, db.links)
    ensures ActionableFindings(PruneSboms(db, Some(cutoff))) == ActionableFindings(db)
    ensures Reconciled(PruneSboms(db, Some(cutoff)).sboms, PruneSboms(db, Some(cutoff)).links)
  {
    LatestSurvives(db.sboms, cutoff);
    NothingDangles(db, cutoff);
    KeptIsTransparent(db, PruneSboms(db, Some(cutoff)));
  }

  lemma KeptIsTransparent(db: Db, after: Db)
    requires NoDangling(db) && Reconciled(db.sboms, db.links) && Keeps(db, after)
    ensures ActionableFindings(after) == ActionableFindings(db)
    ensures Reconciled(after.sboms, after.links)
  {
    KeptFindings(db, after);
    forall f | f in ActionableFindings(db)
      ensures f in ActionableFindings(after)
    {
      var k :| k in Actionable(db) && FindingOf(db, k) == f;
      var l := LatestOf(db.sboms, k.sbom);
      var kl := OpenOnLatest(db, after, l, k);
      SameCoverage(db, k, kl);
      assert kl in Actionable(after) && FindingOf(after, kl) == f;
    }
    forall l, k | l in LatestIds(after.sboms) && k in after.links && k.sbom in after.sboms
                  && SameScope(after.sboms[k.sbom], after.sboms[l]) && after.links[k].status == Open
      ensures k.cve in OpenCves(after.links, l)
    {
      var kl := OpenOnLatest(db, after, l, k);
    }
  }

  lemma OpenOnLatest(db: Db, after: Db, l: SbomId, k: LinkKey) returns (kl: LinkKey)
    requires Reconciled(db.sboms, db.links) && Keeps(db, after)
    requires l in LatestIds(db.sboms) && k in db.links && k.sbom in db.sboms
    requires SameScope(db.sboms[k.sbom], db.sboms[l]) && db.links[k].status == Open
    ensures kl in db.links && kl in after.links && kl.sbom == l && kl.cve == k.cve && after.links[kl].status == Open
  {
    assert k.cve in OpenCves(db.links, l);
    kl :| kl in db.links && kl.sbom == l && db.links[kl].status == Open && kl.cve == k.cve;
    assert l in LatestIds(after.sboms);
    assert after.links[kl] == db.links[kl];
  }

  lemma SameCoverage(db: Db, k: LinkKey, l: LinkKey)
    requires k.sbom in db.sboms && l.sbom in db.sboms && SameScope(db.sboms[k.sbom], db.sboms[l.sbom]) && k.cve == l.cve
    ensures Covered(db, k.cve, db.sboms[k.sbom]) <==> Covered(db, l.cve, db.sboms[l.sbom])
  {
  }

  lemma KeptFindings(db: Db, after: Db)
    requires after.sboms.Keys <= db.sboms.Keys && forall s :: s in after.sboms ==> after.sboms[s] == db.sboms[s]
    requires forall k :: k in after.links ==> k in db.links && after.links[k] == db.links[k]
    requires after.acceptances == db.acceptances
    ensures ActionableFindings(after) <= ActionableFindings(db)
    ensures forall k :: k in Actionable(after) <==> k in Actionable(db) && k in after.links && k.sbom in after.sboms
  {
    forall k | k in after.links && k.sbom in after.sboms
      ensures Covered(after, k.cve, after.sboms[k.sbom]) == Covered(db, k.cve, db.sboms[k.sbom])
    {
    }
    forall f | f in ActionableFindings(after)
      ensures f in ActionableFindings(db)
    {
      var k :| k in Actionable(after) && FindingOf(after, k) == f;
      assert k in Actionable(db) && FindingOf(db, k) == f;
    }
  }

  /** The finding of `k` is also actionable on an SBOM that the prune keeps. */
  ghost predicate KeptElsewhere(db: Db, cutoff: Time, k: LinkKey)
    requires k.sbom in db.sboms
  {
    exists o :: o in Actionable(db) && o.sbom !in Target(db.sboms, cutoff) && FindingOf(db, o) == FindingOf(db, k)
  }

  lemma ShownAfter(db: Db, after: Db, cutoff: Time, k: LinkKey)
    requires k in Actionable(db) && after.sboms == db.sboms - Target(db.sboms, cutoff)
    requires forall o :: o in Actionable(after) <==> o in Actionable(db) && o.sbom !in Target(db.sboms, cutoff)
    ensures FindingOf(db, k) in ActionableFindings(after)
            <==> k.sbom !in Target(db.sboms, cutoff) || KeptElsewhere(db, cutoff, k)
  {
  }

  /** Exactly when a prune hides no finding, reconciled or not: every finding that is actionable on
      an SBOM to be pruned is actionable on one that is kept. */
  lemma PruneHidesNothingIff(db: Db, cutoff: Time)
    requires NoDangling(db)
    ensures ActionableFindings(PruneSboms(db, Some(cutoff))) == ActionableFindings(db)
            <==> forall k :: k in Actionable(db) && k.sbom in Target(db.sboms, cutoff) ==> KeptElsewhere(db, cutoff, k)
  {
    var after := PruneSboms(db, Some(cutoff));
    NothingDangles(db, cutoff);
    KeptFindings(db, after);
    forall k | k in Actionable(db) {
      ShownAfter(db, after, cutoff, k);
    }
    if forall k :: k in Actionable(db) && k.sbom in Target(db.sboms, cutoff) ==> KeptElsewhere(db, cutoff, k) {
      forall f | f in ActionableFindings(db)
        ensures f in ActionableFindings(after)
      {
        var k :| k in Actionable(db) && FindingOf(db, k) == f;
      }
    }
  }
}
