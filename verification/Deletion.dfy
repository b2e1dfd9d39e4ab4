/** Deleting an SBOM re-opens its scope and reconciles it against the newest SBOM that is left. */
module Deletion {
  import opened Store
  import opened Scanner
  import opened Scanning

  function Rest(sboms: map<SbomId, Sbom>, s: SbomId): set<SbomId>
    requires s in sboms
  {
    set o | o in sboms && o != s && SameScope(sboms[o], sboms[s])
  }

  /** `pick` is what `ORDER BY uploaded_at DESC LIMIT 1` may return among the rest of the scope:
      any SBOM with the greatest upload instant, or nothing when the scope is empty. */
  ghost predicate ValidPick(sboms: map<SbomId, Sbom>, s: SbomId, pick: Option<SbomId>)
    requires s in sboms
  {
    match pick
    case None => Rest(sboms, s) == {}
    case Some(p) => p in Rest(sboms, s) && forall o :: o in Rest(sboms, s) ==> sboms[o].uploaded <= sboms[p].uploaded
  }

  function DropLinks(links: map<LinkKey, Link>, s: SbomId): map<LinkKey, Link> {
    map k | k in links && k.sbom != s :: links[k]
  }

  /** The fixed links of `ids` become open again and lose their fix date. */
  function Reopen(links: map<LinkKey, Link>, ids: set<SbomId>): map<LinkKey, Link> {
    map k | k in links ::
      if k.sbom in ids && links[k].status == Fixed then links[k].(status := Open, fixedAt := None) else links[k]
  }

  function DeleteLinks(sboms: map<SbomId, Sbom>, links: map<LinkKey, Link>, s: SbomId, pick: Option<SbomId>,
                       t: Time): map<LinkKey, Link>
    requires s in sboms && (pick.Some? ==> pick.value in Rest(sboms, s))
  {
    var reopened := Reopen(DropLinks(links, s), Rest(sboms, s));
    if pick.Some? then Reconcile(sboms - {s}, reopened, pick.value, t) else reopened
  }

  function DeleteSbom(db: Db, s: SbomId, pick: Option<SbomId>, t: Time): Db
    requires s in db.sboms ==> (pick.Some? ==> pick.value in Rest(db.sboms, s))
  {
    if s !in db.sboms then db
    else
      db.(sboms := db.sboms - {s},
          deps := (map d | d in db.deps && db.deps[d] != s :: db.deps[d]),
          links := DeleteLinks(db.sboms, db.links, s, pick, t))
  }

  /** The CVEs linked to `s`, open or not. */
  function LinkedCves(links: map<LinkKey, Link>, s: SbomId): set<CveId> {
    set k | k in links && k.sbom == s :: k.cve
  }

  /** The status a link has when its scope is canonical: it depends on link keys only. */
  function CanonicalStatus(sboms: map<SbomId, Sbom>, links: map<LinkKey, Link>, latest: SbomId, k: LinkKey): Status
    requires latest in sboms && k.sbom in sboms
  {
    if sboms[k.sbom].uploaded < sboms[latest].uploaded && k.cve !in LinkedCves(links, latest) then Fixed else Open
  }

  ghost predicate CanonicalScope(sboms: map<SbomId, Sbom>, links: map<LinkKey, Link>, latest: SbomId)
    requires latest in sboms
  {
    forall k :: k in links && k.sbom in sboms && SameScope(sboms[k.sbom], sboms[latest])
                ==> links[k].status == CanonicalStatus(sboms, links, latest, k)
  }

  /** The link at `k` after a deletion: gone with its SBOM, canonical in the scope, untouched elsewhere. */
  function DeletedLink(sboms: map<SbomId, Sbom>, links: map<LinkKey, Link>, s: SbomId, pick: Option<SbomId>, t: Time,
                       k: LinkKey): Option<Link>
    requires s in sboms && (pick.Some? ==> pick.value in Rest(sboms, s))
  {
    if k !in links || k.sbom == s then None
    else if k.sbom !in Rest(sboms, s) then Some(links[k])
    else if pick.Some? && CanonicalStatus(sboms, links, pick.value, k) == Fixed then
      Some(Link(Fixed, Some(t), links[k].detectedAt))
    else if links[k].status == Fixed then Some(Link(Open, None, links[k].detectedAt))
    else Some(links[k])
  }

  lemma ReopenedLatest(links: map<LinkKey, Link>, s: SbomId, ids: set<SbomId>, p: SbomId)
    requires p in ids && p != s
    ensures OpenCves(Reopen(DropLinks(links, s), ids), p) == LinkedCves(links, p)
  {
  }

  /** Drop, re-open, reconcile: link by link. */
  lemma DeleteLinkByLink(sboms: map<SbomId, Sbom>, links: map<LinkKey, Link>, s: SbomId, pick: Option<SbomId>,
                         t: Time, k: LinkKey)
    requires s in sboms && ValidPick(sboms, s, pick) && ScopesCoherent(sboms)
    ensures Lookup(DeleteLinks(sboms, links, s, pick, t), k) == DeletedLink(sboms, links, s, pick, t, k)
  {
    var left := sboms - {s};
    var reopened := Reopen(DropLinks(links, s), Rest(sboms, s));
    if pick.Some? {
      var p := pick.value;
      ReopenedLatest(links, s, Rest(sboms, s), p);
      assert forall o :: o in OlderIds(left, p) <==> o in Rest(sboms, s) && sboms[o].uploaded < sboms[p].uploaded;
    }
  }

  /** `after` holds, link by link, what the deletion of `s` makes of `links`. */
  ghost predicate DeletesTo(sboms: map<SbomId, Sbom>, links: map<LinkKey, Link>, s: SbomId, pick: Option<SbomId>,
                            t: Time, after: map<LinkKey, Link>)
    requires s in sboms && (pick.Some? ==> pick.value in Rest(sboms, s))
  {
    forall k :: Lookup(after, k) == DeletedLink(sboms, links, s, pick, t, k)
  }

  lemma DeleteIsPointwise(sboms: map<SbomId, Sbom>, links: map<LinkKey, Link>, s: SbomId, pick: Option<SbomId>, t: Time)
    requires s in sboms && ValidPick(sboms, s, pick) && ScopesCoherent(sboms)
    ensures DeletesTo(sboms, links, s, pick, t, DeleteLinks(sboms, links, s, pick, t))
  {
    forall k {
      DeleteLinkByLink(sboms, links, s, pick, t, k);
    }
  }

  lemma DeletedKeys(sboms: map<SbomId, Sbom>, links: map<LinkKey, Link>, s: SbomId, pick: Option<SbomId>, t: Time,
                    after: map<LinkKey, Link>)
    requires s in sboms && (pick.Some? ==> pick.value in Rest(sboms, s))
    requires DeletesTo(sboms, links, s, pick, t, after)
    ensures forall k :: k in after <==> k in links && k.sbom != s
    ensures forall k :: k in after ==> after[k].detectedAt == links[k].detectedAt
    ensures forall k :: k in after && k.sbom !in Rest(sboms, s) ==> after[k] == links[k]
    ensures forall p :: p != s ==> LinkedCves(after, p) == LinkedCves(links, p)
  {
    forall k
      ensures k in after <==> k in links && k.sbom != s
      ensures k in after ==> after[k].detectedAt == links[k].detectedAt
      ensures k in after && k.sbom !in Rest(sboms, s) ==> after[k] == links[k]
    {
      assert Lookup(after, k) == DeletedLink(sboms, links, s, pick, t, k);
    }
    forall p | p != s ensures LinkedCves(after, p) == LinkedCves(links, p) {
    }
  }

  /** Every deletion leaves the scope in canonical form, whatever the statuses were before, and
      leaves every other scope alone. */
  lemma DeleteGivesCanonical(sboms: map<SbomId, Sbom>, links: map<LinkKey, Link>, s: SbomId, pick: Option<SbomId>,
                             t: Time)
    requires s in sboms && ValidPick(sboms, s, pick) && ScopesCoherent(sboms)
    ensures var after := DeleteLinks(sboms, links, s, pick, t);
            && (forall k :: k in after <==> k in links && k.sbom != s)
            && (pick.Some? ==> CanonicalScope(sboms - {s}, after, pick.value))
            && (forall k :: k in after && k.sbom !in Rest(sboms, s) ==> after[k] == links[k])
            && (forall k :: k in after ==> after[k].detectedAt == links[k].detectedAt)
  {
    var after := DeleteLinks(sboms, links, s, pick, t);
    DeleteIsPointwise(sboms, links, s, pick, t);
    DeletedKeys(sboms, links, s, pick, t, after);
    if pick.Some? {
      PointwiseIsCanonical(sboms, links, s, pick.value, t, after);
    }
  }

  lemma PointwiseIsCanonical(sboms: map<SbomId, Sbom>, links: map<LinkKey, Link>, s: SbomId, p: SbomId, t: Time,
                             after: map<LinkKey, Link>)
    requires s in sboms && p in Rest(sboms, s) && DeletesTo(sboms, links, s, Some(p), t, after)
    ensures CanonicalScope(sboms - {s}, after, p)
  {
    DeletedKeys(sboms, links, s, Some(p), t, after);
    var left := sboms - {s};
    forall k | k in after && k.sbom in left && SameScope(left[k.sbom], left[p])
      ensures after[k].status == CanonicalStatus(left, after, p, k)
    {
      assert Lookup(after, k) == DeletedLink(sboms, links, s, Some(p), t, k);
      assert LinkedCves(after, p) == LinkedCves(links, p);
    }
  }

  /** What two tables share when they differ in fix dates only. */
  ghost predicate SameStatuses(a: map<LinkKey, Link>, b: map<LinkKey, Link>) {
    a.Keys == b.Keys
    && forall k :: k in a ==> a[k].status == b[k].status && a[k].detectedAt == b[k].detectedAt
  }

  /** What the statuses of the scope were before a deletion does not matter: tables with the same
      link keys and detection dates in the scope, equal elsewhere, end with the same statuses. */
  lemma DeleteForgetsStatuses(sboms: map<SbomId, Sbom>, a: map<LinkKey, Link>, b: map<LinkKey, Link>,
                              s: SbomId, pick: Option<SbomId>, t: Time, u: Time)
    requires s in sboms && ValidPick(sboms, s, pick) && ScopesCoherent(sboms)
    requires a.Keys == b.Keys && forall k :: k in a ==> a[k].detectedAt == b[k].detectedAt
    requires forall k :: k in a && k.sbom != s && k.sbom !in Rest(sboms, s) ==> a[k] == b[k]
    ensures SameStatuses(DeleteLinks(sboms, a, s, pick, t), DeleteLinks(sboms, b, s, pick, u))
  {
    DeleteIsPointwise(sboms, a, s, pick, t);
    DeleteIsPointwise(sboms, b, s, pick, u);
    SameKeysSameStatuses(sboms, a, b, s, pick, t, u, DeleteLinks(sboms, a, s, pick, t),
        DeleteLinks(sboms, b, s, pick, u));
  }

  lemma SameKeysSameStatuses(sboms: map<SbomId, Sbom>, a: map<LinkKey, Link>, b: map<LinkKey, Link>,
                             s: SbomId, pick: Option<SbomId>, t: Time, u: Time,
                             afterA: map<LinkKey, Link>, afterB: map<LinkKey, Link>)
    requires s in sboms && (pick.Some? ==> pick.value in Rest(sboms, s))
    requires a.Keys == b.Keys && forall k :: k in a ==> a[k].detectedAt == b[k].detectedAt
    requires forall k :: k in a && k.sbom != s && k.sbom !in Rest(sboms, s) ==> a[k] == b[k]
    requires DeletesTo(sboms, a, s, pick, t, afterA) && DeletesTo(sboms, b, s, pick, u, afterB)
    ensures SameStatuses(afterA, afterB)
  {
    DeletedKeys(sboms, a, s, pick, t, afterA);
    DeletedKeys(sboms, b, s, pick, u, afterB);
    assert pick.Some? ==> LinkedCves(a, pick.value) == LinkedCves(b, pick.value);
    forall k | k in afterA
      ensures afterA[k].status == afterB[k].status
    {
      assert Lookup(afterA, k) == DeletedLink(sboms, a, s, pick, t, k);
      assert Lookup(afterB, k) == DeletedLink(sboms, b, s, pick, u, k);
    }
  }

  /* ----- two deletions ----- */

  /** The two picks would fix the same links of `ids`. */
  ghost predicate PicksAgree(sboms: map<SbomId, Sbom>, links: map<LinkKey, Link>, ids: set<SbomId>,
                             p: Option<SbomId>, q: Option<SbomId>)
    requires ids <= sboms.Keys && (p.Some? ==> p.value in sboms) && (q.Some? ==> q.value in sboms)
  {
    forall k :: k in links && k.sbom in ids ==> PickedStatus(sboms, links, p, k) == PickedStatus(sboms, links, q, k)
  }

  function PickedStatus(sboms: map<SbomId, Sbom>, links: map<LinkKey, Link>, pick: Option<SbomId>, k: LinkKey): Status
    requires k.sbom in sboms && (pick.Some? ==> pick.value in sboms)
  {
    if pick.Some? then CanonicalStatus(sboms, links, pick.value, k) else Open
  }

  /** `after` is what two deletions leave: `pb` decides what the second one reached, `pa` the rest of
      what the first one reached. */
  ghost predicate TwiceDeleted(sboms: map<SbomId, Sbom>, links: map<LinkKey, Link>, a: SbomId, b: SbomId,
                               pa: Option<SbomId>, pb: Option<SbomId>, after: map<LinkKey, Link>)
    requires a in sboms && b in sboms && (pa.Some? ==> pa.value in sboms) && (pb.Some? ==> pb.value in sboms)
  {
    && (forall k :: k in after <==> k in links && k.sbom != a && k.sbom != b)
    && (forall k :: k in after ==> after[k].detectedAt == links[k].detectedAt)
    && (forall k :: k in after && k.sbom in Rest(sboms, b) ==> after[k].status == PickedStatus(sboms, links, pb, k))
    && (forall k :: k in after && k.sbom !in Rest(sboms, b) ==>
          after[k].status == if k.sbom in Rest(sboms, a) then PickedStatus(sboms, links, pa, k) else links[k].status)
  }

  lemma DeleteTwice(sboms: map<SbomId, Sbom>, links: map<LinkKey, Link>, a: SbomId, b: SbomId,
                    pa: Option<SbomId>, pb: Option<SbomId>, t: Time, u: Time,
                    once: map<LinkKey, Link>, after: map<LinkKey, Link>)
    requires a in sboms && b in sboms && a != b
    requires ValidPick(sboms, a, pa) && ValidPick(sboms - {a}, b, pb)
    requires DeletesTo(sboms, links, a, pa, t, once) && DeletesTo(sboms - {a}, once, b, pb, u, after)
    ensures TwiceDeleted(sboms, links, a, b, pa, pb, after)
  {
    DeletedKeys(sboms, links, a, pa, t, once);
    DeletedKeys(sboms - {a}, once, b, pb, u, after);
    assert Rest(sboms - {a}, b) == Rest(sboms, b) - {a};
    forall k | k in after
      ensures k.sbom in Rest(sboms, b) ==> after[k].status == PickedStatus(sboms, links, pb, k)
      ensures k.sbom !in Rest(sboms, b) ==>
                after[k].status == if k.sbom in Rest(sboms, a) then PickedStatus(sboms, links, pa, k)
                    else links[k].status
    {
      assert Lookup(once, k) == DeletedLink(sboms, links, a, pa, t, k);
      assert Lookup(after, k) == DeletedLink(sboms - {a}, once, b, pb, u, k);
    }
  }

  /** In one scope, the SBOMs finally settled on would fix the same links of those that are left; in two
      scopes, that holds for each. */
  ghost predicate OrdersAgree(sboms: map<SbomId, Sbom>, links: map<LinkKey, Link>, a: SbomId, b: SbomId,
                              pa: Option<SbomId>, pb: Option<SbomId>, qa: Option<SbomId>, qb: Option<SbomId>)
    requires a in sboms && b in sboms
    requires (pa.Some? ==> pa.value in sboms) && (pb.Some? ==> pb.value in sboms)
    requires (qa.Some? ==> qa.value in sboms) && (qb.Some? ==> qb.value in sboms)
  {
    if SameScope(sboms[a], sboms[b]) then
      PicksAgree(sboms, links, Rest(sboms, a) - {b}, pb, qa)
    else
      PicksAgree(sboms, links, Rest(sboms, a), pa, qa) && PicksAgree(sboms, links, Rest(sboms, b), pb, qb)
  }

  /** The two orders leave the same statuses exactly when their picks agree. */
  lemma OrdersAgreeIff(sboms: map<SbomId, Sbom>, links: map<LinkKey, Link>, a: SbomId, b: SbomId,
                            pa: Option<SbomId>, pb: Option<SbomId>, qa: Option<SbomId>, qb: Option<SbomId>,
                            t: Time, u: Time)
    requires a in sboms && b in sboms && a != b && ScopesCoherent(sboms)
    requires ValidPick(sboms, a, pa) && ValidPick(sboms - {a}, b, pb)
    requires ValidPick(sboms, b, qb) && ValidPick(sboms - {b}, a, qa)
    ensures SameStatuses(DeleteLinks(sboms - {a}, DeleteLinks(sboms, links, a, pa, t), b, pb, u),
                         DeleteLinks(sboms - {b}, DeleteLinks(sboms, links, b, qb, u), a, qa, t))
            <==> OrdersAgree(sboms, links, a, b, pa, pb, qa, qb)
  {
    var la, lb := DeleteLinks(sboms, links, a, pa, t), DeleteLinks(sboms, links, b, qb, u);
    var lab, lba := DeleteLinks(sboms - {a}, la, b, pb, u), DeleteLinks(sboms - {b}, lb, a, qa, t);
    DeleteIsPointwise(sboms, links, a, pa, t);
    DeleteIsPointwise(sboms, links, b, qb, u);
    DeleteIsPointwise(sboms - {a}, la, b, pb, u);
    DeleteIsPointwise(sboms - {b}, lb, a, qa, t);
    DeleteTwice(sboms, links, a, b, pa, pb, t, u, la, lab);
    DeleteTwice(sboms, links, b, a, qb, qa, u, t, lb, lba);
    TwiceDeletedAgree(sboms, links, a, b, pa, pb, qa, qb, lab, lba);
  }

  lemma TwiceDeletedAgree(sboms: map<SbomId, Sbom>, links: map<LinkKey, Link>, a: SbomId, b: SbomId,
                          pa: Option<SbomId>, pb: Option<SbomId>, qa: Option<SbomId>, qb: Option<SbomId>,
                          lab: map<LinkKey, Link>, lba: map<LinkKey, Link>)
    requires a in sboms && b in sboms && a != b
    requires (pa.Some? ==> pa.value in sboms) && (pb.Some? ==> pb.value in sboms)
    requires (qa.Some? ==> qa.value in sboms) && (qb.Some? ==> qb.value in sboms)
    requires TwiceDeleted(sboms, links, a, b, pa, pb, lab) && TwiceDeleted(sboms, links, b, a, qb, qa, lba)
    ensures SameStatuses(lab, lba)
            <==> OrdersAgree(sboms, links, a, b, pa, pb, qa, qb)
  {
    assert lab.Keys == lba.Keys;
    assert SameStatuses(lab, lba) <==> forall k :: k in lab ==> lab[k].status == lba[k].status;
    forall k | k in lab
      ensures lab[k].status == lba[k].status <==> AgreeAt(sboms, links, a, b, pa, pb, qa, qb, k)
    {
      AgreeLinkByLink(sboms, links, a, b, pa, pb, qa, qb, lab, lba, k);
    }
    PicksLinkByLink(sboms, links, a, b, pa, pb, qa, qb, lab.Keys);
  }

  /** The picks of the two orders agree about the link at `k`. */
  predicate AgreeAt(sboms: map<SbomId, Sbom>, links: map<LinkKey, Link>, a: SbomId, b: SbomId,
                    pa: Option<SbomId>, pb: Option<SbomId>, qa: Option<SbomId>, qb: Option<SbomId>, k: LinkKey)
    requires a in sboms && b in sboms
    requires (pa.Some? ==> pa.value in sboms) && (pb.Some? ==> pb.value in sboms)
    requires (qa.Some? ==> qa.value in sboms) && (qb.Some? ==> qb.value in sboms)
  {
    if k.sbom in Rest(sboms, b) then
      PickedStatus(sboms, links, pb, k) == PickedStatus(sboms, links, if k.sbom in Rest(sboms, a) then qa else qb, k)
    else
      k.sbom in Rest(sboms, a) ==> PickedStatus(sboms, links, pa, k) == PickedStatus(sboms, links, qa, k)
  }

  lemma AgreeLinkByLink(sboms: map<SbomId, Sbom>, links: map<LinkKey, Link>, a: SbomId, b: SbomId,
                        pa: Option<SbomId>, pb: Option<SbomId>, qa: Option<SbomId>, qb: Option<SbomId>,
                        lab: map<LinkKey, Link>, lba: map<LinkKey, Link>, k: LinkKey)
    requires a in sboms && b in sboms && a != b && k in lab
    requires (pa.Some? ==> pa.value in sboms) && (pb.Some? ==> pb.value in sboms)
    requires (qa.Some? ==> qa.value in sboms) && (qb.Some? ==> qb.value in sboms)
    requires TwiceDeleted(sboms, links, a, b, pa, pb, lab) && TwiceDeleted(sboms, links, b, a, qb, qa, lba)
    ensures k in lba && (lab[k].status == lba[k].status <==> AgreeAt(sboms, links, a, b, pa, pb, qa, qb, k))
  {
  }

  lemma PicksLinkByLink(sboms: map<SbomId, Sbom>, links: map<LinkKey, Link>, a: SbomId, b: SbomId,
                        pa: Option<SbomId>, pb: Option<SbomId>, qa: Option<SbomId>, qb: Option<SbomId>,
                        keys: set<LinkKey>)
    requires a in sboms && b in sboms && a != b
    requires (pa.Some? ==> pa.value in sboms) && (pb.Some? ==> pb.value in sboms)
    requires (qa.Some? ==> qa.value in sboms) && (qb.Some? ==> qb.value in sboms)
    requires forall k :: k in keys <==> k in links && k.sbom != a && k.sbom != b
    ensures (forall k :: k in keys ==> AgreeAt(sboms, links, a, b, pa, pb, qa, qb, k))
            <==> OrdersAgree(sboms, links, a, b, pa, pb, qa, qb)
  {
    if SameScope(sboms[a], sboms[b]) {
      assert forall k :: k in keys ==> (k.sbom in Rest(sboms, b) <==> k.sbom in Rest(sboms, a) - {b});
      assert forall k :: k in links && k.sbom in Rest(sboms, a) - {b} ==> k in keys;
    } else {
      assert forall k :: k in keys ==> k.sbom !in Rest(sboms, a) || k.sbom !in Rest(sboms, b);
      assert forall k :: k in links && (k.sbom in Rest(sboms, a) || k.sbom in Rest(sboms, b)) ==> k in keys;
    }
  }

  lemma {:induction false} NewestExists(sboms: map<SbomId, Sbom>, ids: set<SbomId>)
    requires ids != {} && ids <= sboms.Keys
    ensures exists p :: p in ids && forall o :: o in ids ==> sboms[o].uploaded <= sboms[p].uploaded
    decreases |ids|
  {
    var x :| x in ids;
    if ids != {x} {
      NewestExists(sboms, ids - {x});
      var p :| p in ids - {x} && forall o :: o in ids - {x} ==> sboms[o].uploaded <= sboms[p].uploaded;
      var best := if sboms[p].uploaded >= sboms[x].uploaded then p else x;
      assert best in ids && forall o :: o in ids ==> o == x || o in ids - {x};
    } else {
      assert forall o :: o in ids ==> o == x;
    }
  }

  /** Two deletions one after the other, with the SBOMs they settle on. */
  function DeleteBoth(sboms: map<SbomId, Sbom>, links: map<LinkKey, Link>, a: SbomId, pa: Option<SbomId>, t: Time,
                      b: SbomId, pb: Option<SbomId>, u: Time): map<LinkKey, Link>
    requires a in sboms && b in sboms && a != b
    requires (pa.Some? ==> pa.value in Rest(sboms, a)) && (pb.Some? ==> pb.value in Rest(sboms - {a}, b))
  {
    DeleteLinks(sboms - {a}, DeleteLinks(sboms, links, a, pa, t), b, pb, u)
  }

  /** SBOMs that the queries of two deletions, in both orders, may return. */
  ghost predicate ValidPicks(sboms: map<SbomId, Sbom>, a: SbomId, b: SbomId,
                             pa: Option<SbomId>, pb: Option<SbomId>, qa: Option<SbomId>, qb: Option<SbomId>)
    requires a in sboms && b in sboms && a != b
  {
    && ValidPick(sboms, a, pa) && ValidPick(sboms - {a}, b, pb)
    && ValidPick(sboms, b, qb) && ValidPick(sboms - {b}, a, qa)
  }

  predicate Tops(sboms: map<SbomId, Sbom>, ids: set<SbomId>, p: SbomId)
    requires ids <= sboms.Keys
  {
    p in ids && forall o :: o in ids ==> sboms[o].uploaded <= sboms[p].uploaded
  }

  /** The newest SBOMs among `ids` carry the same of the CVEs that older ones among them are linked to. */
  ghost predicate TopsAgree(sboms: map<SbomId, Sbom>, links: map<LinkKey, Link>, ids: set<SbomId>)
    requires ids <= sboms.Keys
  {
    forall p, q, k :: Tops(sboms, ids, p) && Tops(sboms, ids, q) && k in links && k.sbom in ids
                      && sboms[k.sbom].uploaded < sboms[p].uploaded
                      ==> (k.cve in LinkedCves(links, p) <==> k.cve in LinkedCves(links, q))
  }

  /** What two deletions leave is settled by SBOMs that agree: the newest among the rest of the scope,
      or among the rest of each of the two scopes. */
  ghost predicate NewestAgree(sboms: map<SbomId, Sbom>, links: map<LinkKey, Link>, a: SbomId, b: SbomId)
    requires a in sboms && b in sboms
  {
    if SameScope(sboms[a], sboms[b]) then
      TopsAgree(sboms, links, Rest(sboms, a) - {b})
    else
      TopsAgree(sboms, links, Rest(sboms, a)) && TopsAgree(sboms, links, Rest(sboms, b))
  }

  lemma SomePick(sboms: map<SbomId, Sbom>, s: SbomId) returns (pick: Option<SbomId>)
    requires s in sboms
    ensures ValidPick(sboms, s, pick)
  {
    if Rest(sboms, s) == {} {
      pick := None;
    } else {
      NewestExists(sboms, Rest(sboms, s));
      var p :| p in Rest(sboms, s) && forall o :: o in Rest(sboms, s) ==> sboms[o].uploaded <= sboms[p].uploaded;
      pick := Some(p);
    }
  }

  /** Picks among SBOMs whose newest ones agree would fix the same links. */
  lemma TopsGivePicks(sboms: map<SbomId, Sbom>, links: map<LinkKey, Link>, ids: set<SbomId>, p: Option<SbomId>,
                      q: Option<SbomId>)
    requires ids <= sboms.Keys && TopsAgree(sboms, links, ids)
    requires if ids == {} then p == None && q == None
             else p.Some? && q.Some? && Tops(sboms, ids, p.value) && Tops(sboms, ids, q.value)
    ensures PicksAgree(sboms, links, ids, p, q)
  {
  }

  lemma PicksGiveTops(sboms: map<SbomId, Sbom>, links: map<LinkKey, Link>, ids: set<SbomId>)
    requires ids <= sboms.Keys
    requires forall p, q :: Tops(sboms, ids, p) && Tops(sboms, ids, q) ==>
        PicksAgree(sboms, links, ids, Some(p), Some(q))
    ensures TopsAgree(sboms, links, ids)
  {
    forall p, q, k | Tops(sboms, ids, p) && Tops(sboms, ids, q) && k in links && k.sbom in ids
                     && sboms[k.sbom].uploaded < sboms[p].uploaded
      ensures k.cve in LinkedCves(links, p) <==> k.cve in LinkedCves(links, q)
    {
      assert PicksAgree(sboms, links, ids, Some(p), Some(q));
    }
  }

  /** Both orders leave the same keys, statuses and detection dates, whatever the queries return. */
  ghost predicate AlwaysCommute(sboms: map<SbomId, Sbom>, links: map<LinkKey, Link>, a: SbomId, b: SbomId,
                                t: Time, u: Time)
    requires a in sboms && b in sboms && a != b
  {
    forall pa, pb, qa, qb :: ValidPicks(sboms, a, b, pa, pb, qa, qb) ==>
      SameStatuses(DeleteBoth(sboms, links, a, pa, t, b, pb, u), DeleteBoth(sboms, links, b, qb, u, a, qa, t))
  }

  lemma AgreeingTopsCommute(sboms: map<SbomId, Sbom>, links: map<LinkKey, Link>, a: SbomId, b: SbomId,
                            pa: Option<SbomId>, pb: Option<SbomId>, qa: Option<SbomId>, qb: Option<SbomId>,
                            t: Time, u: Time)
    requires a in sboms && b in sboms && a != b && ScopesCoherent(sboms)
    requires ValidPicks(sboms, a, b, pa, pb, qa, qb)
    requires NewestAgree(sboms, links, a, b)
    ensures SameStatuses(DeleteBoth(sboms, links, a, pa, t, b, pb, u), DeleteBoth(sboms, links, b, qb, u, a, qa, t))
  {
    RestsAfter(sboms, a, b);
    if SameScope(sboms[a], sboms[b]) {
      TopsGivePicks(sboms, links, Rest(sboms, a) - {b}, pb, qa);
    } else {
      TopsGivePicks(sboms, links, Rest(sboms, a), pa, qa);
      TopsGivePicks(sboms, links, Rest(sboms, b), pb, qb);
    }
    OrdersAgreeIff(sboms, links, a, b, pa, pb, qa, qb, t, u);
  }

  lemma RestsAfter(sboms: map<SbomId, Sbom>, a: SbomId, b: SbomId)
    requires a in sboms && b in sboms && a != b
    ensures SameScope(sboms[a], sboms[b]) ==> Rest(sboms - {a}, b) == Rest(sboms - {b}, a) == Rest(sboms, a) - {b}
    ensures !SameScope(sboms[a], sboms[b]) ==>
              Rest(sboms - {a}, b) == Rest(sboms, b) && Rest(sboms - {b}, a) == Rest(sboms, a)
  {
  }

  lemma CommutingTopsAgree(sboms: map<SbomId, Sbom>, links: map<LinkKey, Link>, a: SbomId, b: SbomId,
                           t: Time, u: Time)
    requires a in sboms && b in sboms && a != b && ScopesCoherent(sboms)
    requires AlwaysCommute(sboms, links, a, b, t, u) && SameScope(sboms[a], sboms[b])
    ensures TopsAgree(sboms, links, Rest(sboms, a) - {b})
  {
    RestsAfter(sboms, a, b);
    var pa := SomePick(sboms, a);
    var qb := SomePick(sboms, b);
    var ids := Rest(sboms, a) - {b};
    forall p, q | Tops(sboms, ids, p) && Tops(sboms, ids, q)
      ensures PicksAgree(sboms, links, ids, Some(p), Some(q))
    {
      assert ValidPicks(sboms, a, b, pa, Some(p), Some(q), qb);
      OrdersAgreeIff(sboms, links, a, b, pa, Some(p), Some(q), qb, t, u);
    }
    PicksGiveTops(sboms, links, ids);
  }

  lemma CommutingScopesAgree(sboms: map<SbomId, Sbom>, links: map<LinkKey, Link>, a: SbomId, b: SbomId,
                             t: Time, u: Time)
    requires a in sboms && b in sboms && a != b && ScopesCoherent(sboms)
    requires AlwaysCommute(sboms, links, a, b, t, u) && !SameScope(sboms[a], sboms[b])
    ensures TopsAgree(sboms, links, Rest(sboms, a)) && TopsAgree(sboms, links, Rest(sboms, b))
  {
    RestsAfter(sboms, a, b);
    var pa := SomePick(sboms, a);
    var pb := SomePick(sboms, b);
    forall p, q | Tops(sboms, Rest(sboms, a), p) && Tops(sboms, Rest(sboms, a), q)
      ensures PicksAgree(sboms, links, Rest(sboms, a), Some(p), Some(q))
    {
      assert ValidPicks(sboms, a, b, Some(p), pb, Some(q), pb);
      OrdersAgreeIff(sboms, links, a, b, Some(p), pb, Some(q), pb, t, u);
    }
    forall p, q | Tops(sboms, Rest(sboms, b), p) && Tops(sboms, Rest(sboms, b), q)
      ensures PicksAgree(sboms, links, Rest(sboms, b), Some(p), Some(q))
    {
      assert ValidPicks(sboms, a, b, pa, Some(p), pa, Some(q));
      OrdersAgreeIff(sboms, links, a, b, pa, Some(p), pa, Some(q), t, u);
    }
    PicksGiveTops(sboms, links, Rest(sboms, a));
    PicksGiveTops(sboms, links, Rest(sboms, b));
  }

  /** Exactly when two deletions can be relied on to commute: when the SBOMs tied for newest among the
      rest of the scope, or of each of the two scopes, agree. */
  lemma DeletionsAlwaysCommuteIff(sboms: map<SbomId, Sbom>, links: map<LinkKey, Link>, a: SbomId, b: SbomId,
                                  t: Time, u: Time)
    requires a in sboms && b in sboms && a != b && ScopesCoherent(sboms)
    ensures AlwaysCommute(sboms, links, a, b, t, u)
            <==> NewestAgree(sboms, links, a, b)
  {
    if AlwaysCommute(sboms, links, a, b, t, u) {
      if SameScope(sboms[a], sboms[b]) {
        CommutingTopsAgree(sboms, links, a, b, t, u);
      } else {
        CommutingScopesAgree(sboms, links, a, b, t, u);
      }
    } else {
      var pa, pb, qa, qb :| ValidPicks(sboms, a, b, pa, pb, qa, qb) && !SameStatuses(
        DeleteBoth(sboms, links, a, pa, t, b, pb, u), DeleteBoth(sboms, links, b, qb, u, a, qa, t));
      if NewestAgree(sboms, links, a, b) {
        AgreeingTopsCommute(sboms, links, a, b, pa, pb, qa, qb, t, u);
      }
    }
  }

  lemma OneTop(sboms: map<SbomId, Sbom>, links: map<LinkKey, Link>, s: SbomId, ids: set<SbomId>)
    requires s in sboms && DistinctUploads(sboms) && ids <= Rest(sboms, s)
    ensures TopsAgree(sboms, links, ids)
  {
    forall p, q | Tops(sboms, ids, p) && Tops(sboms, ids, q)
      ensures p == q
    {
      assert SameScope(sboms[p], sboms[q]);
    }
  }

  /** Without ties in the upload instant two deletions always commute. */
  lemma DeletionsCommute(sboms: map<SbomId, Sbom>, links: map<LinkKey, Link>, a: SbomId, b: SbomId, t: Time, u: Time)
    requires a in sboms && b in sboms && a != b && ScopesCoherent(sboms) && DistinctUploads(sboms)
    ensures AlwaysCommute(sboms, links, a, b, t, u)
  {
    OneTop(sboms, links, a, Rest(sboms, a) - {b});
    OneTop(sboms, links, a, Rest(sboms, a));
    OneTop(sboms, links, b, Rest(sboms, b));
    DeletionsAlwaysCommuteIff(sboms, links, a, b, t, u);
  }

  /** Uploading, scanning and deleting a new SBOM `n` restores every status of the store exactly
      when the scope was canonical before. The scan may fail, and may report anything. */
  lemma UploadScanDeleteRestores(db: Db, n: SbomId, sbom: Sbom, o: Outcome, pick: Option<SbomId>,
                                 t1: Time, t2: Time, t3: Time)
    requires ServicesOwned(db.(sboms := db.sboms[n := sbom]))
    requires n !in db.sboms && forall k :: k in db.links ==> k.sbom in db.sboms
    requires ValidPick(db.sboms[n := sbom], n, pick)
    ensures var scanned := ScanSbom(db.(sboms := db.sboms[n := sbom]), n, o, t1, t2);
            var back := DeleteSbom(scanned, n, pick, t3);
            && back.sboms == db.sboms
            && (SameStatuses(back.links, db.links)
                <==> (pick.Some? ==> CanonicalScope(db.sboms, db.links, pick.value)))
  {
    var up := db.(sboms := db.sboms[n := sbom]);
    OwnedServicesGiveScopes(up);
    var scanned := ScanSbom(up, n, o, t1, t2);
    assert up.sboms - {n} == db.sboms;
    if Effective(sbom, o).Report? {
      var ms := Effective(sbom, o).matches;
      ScanSettlesScope(up.sboms, up.links, n, ms, t1, t2);
      ScannedBeside(up.sboms, db.links, scanned.links, n, ms);
    }
    DeleteIsPointwise(up.sboms, scanned.links, n, pick, t3);
    RestoredIff(up.sboms, db.links, scanned.links, n, pick, t3, DeleteLinks(up.sboms, scanned.links, n, pick, t3));
  }

  /** `scanned` differs from `before` in links of `n` and in statuses within the scope of `n`. */
  ghost predicate Beside(sboms: map<SbomId, Sbom>, before: map<LinkKey, Link>, scanned: map<LinkKey, Link>, n: SbomId)
    requires n in sboms
  {
    && (forall k :: k in before <==> k in scanned && k.sbom != n)
    && (forall k :: k in before ==> scanned[k].detectedAt == before[k].detectedAt)
    && (forall k :: k in before && k.sbom !in Rest(sboms, n) ==> scanned[k] == before[k])
  }

  lemma ScannedBeside(sboms: map<SbomId, Sbom>, before: map<LinkKey, Link>, scanned: map<LinkKey, Link>, n: SbomId,
                      ms: seq<Match>)
    requires n in sboms && ScopesCoherent(sboms)
    requires forall k :: k in before ==> k.sbom != n
    requires Settles(sboms, before, n, ms, scanned)
    ensures Beside(sboms, before, scanned, n)
  {
  }

  lemma RestoredIff(sboms: map<SbomId, Sbom>, before: map<LinkKey, Link>, scanned: map<LinkKey, Link>,
                    n: SbomId, pick: Option<SbomId>, t: Time, back: map<LinkKey, Link>)
    requires n in sboms && ValidPick(sboms, n, pick)
    requires forall k :: k in before ==> k.sbom in sboms && k.sbom != n
    requires Beside(sboms, before, scanned, n)
    requires DeletesTo(sboms, scanned, n, pick, t, back)
    ensures SameStatuses(back, before)
            <==> (pick.Some? ==> CanonicalScope(sboms - {n}, before, pick.value))
  {
    DeletedKeys(sboms, scanned, n, pick, t, back);
    assert back.Keys == before.Keys;
    if pick.Some? {
      var p := pick.value;
      var left := sboms - {n};
      PointwiseIsCanonical(sboms, scanned, n, p, t, back);
      assert LinkedCves(back, p) == LinkedCves(before, p);
      forall k | k in before && k.sbom in left && SameScope(left[k.sbom], left[p])
        ensures back[k].status == CanonicalStatus(left, before, p, k)
      {
        assert CanonicalStatus(left, back, p, k) == CanonicalStatus(left, before, p, k);
      }
    } else {
      assert forall k :: k in before ==> back[k] == scanned[k] == before[k];
    }
  }
}
