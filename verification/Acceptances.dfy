/** Risk acceptances: creating one hides findings, deleting one shows them again. */
module Acceptances {
  import opened Store

  datatype Refusal =
    | ProjectNotFound
    | VulnerabilityNotFound
    | ServiceNotInProject
    | NotOpenInScope
    | AcceptedForProject
    | AcceptedAtProjectScope
    | AcceptedInService
    | AcceptedConcurrently

  datatype Reply = Created | Refused(why: Refusal)

  datatype Request = Request(project: ProjectId, service: Option<ServiceId>, cve: CveId)

  /** An open link of the requested project, and of the requested service when one is given. */
  predicate OpenInScope(db: Db, r: Request) {
    exists k :: k in db.links && k.sbom in db.sboms && k.cve == r.cve && db.links[k].status == Open
                && db.sboms[k.sbom].project == r.project
                && (r.service.None? || db.sboms[k.sbom].service == r.service)
  }

  /** The acceptances of one (project, vulnerability). */
  function Existing(acceptances: map<AcceptanceId, Acceptance>, r: Request): set<AcceptanceId> {
    set a | a in acceptances && acceptances[a].project == r.project && acceptances[a].cve == r.cve
  }

  function Conflict(acceptances: map<AcceptanceId, Acceptance>, r: Request): Option<Refusal> {
    var existing := Existing(acceptances, r);
    if r.service.None? then
      if existing != {} then Some(AcceptedForProject) else None
    else if exists a :: a in existing && acceptances[a].service.None? then Some(AcceptedAtProjectScope)
    else if exists a :: a in existing && acceptances[a].service == r.service then Some(AcceptedInService)
    else None
  }

  function Check(db: Db, r: Request): Option<Refusal> {
    if r.project !in db.projects then Some(ProjectNotFound)
    else if r.cve !in db.vulns then Some(VulnerabilityNotFound)
    else if r.service.Some?
            && (r.service.value !in db.services || db.services[r.service.value].project != r.project) then
      Some(ServiceNotInProject)
    else if !OpenInScope(db, r) then Some(NotOpenInScope)
    else Conflict(db.acceptances, r)
  }

  /** One request served alone: the check and the insert see the same table. */
  function Accept(db: Db, r: Request, id: AcceptanceId, now: Time): Db {
    if Check(db, r).Some? then db
    else db.(acceptances := db.acceptances[id := Acceptance(r.project, r.service, r.cve, now)])
  }

  function Revert(db: Db, id: AcceptanceId): Db {
    db.(acceptances := db.acceptances - {id})
  }

  /** Two acceptances of one (project, vulnerability) are for two different services. */
  ghost predicate Exclusive(acceptances: map<AcceptanceId, Acceptance>) {
    forall a, b :: a in acceptances && b in acceptances && a != b
                   && acceptances[a].project == acceptances[b].project && acceptances[a].cve == acceptances[b].cve
                   ==> acceptances[a].service.Some? && acceptances[b].service.Some?
                       && acceptances[a].service != acceptances[b].service
  }

  lemma AcceptKeepsExclusive(db: Db, r: Request, id: AcceptanceId, now: Time)
    requires Exclusive(db.acceptances) && id !in db.acceptances
    ensures Exclusive(Accept(db, r, id, now).acceptances)
  {
    if Check(db, r).None? {
      var acc := db.acceptances;
      forall a | a in acc && acc[a].project == r.project && acc[a].cve == r.cve
        ensures r.service.Some? && acc[a].service.Some? && acc[a].service != r.service
      {
        assert a in Existing(acc, r);
      }
    }
  }

  lemma RevertKeepsExclusive(db: Db, id: AcceptanceId)
    requires Exclusive(db.acceptances)
    ensures Exclusive(Revert(db, id).acceptances)
  {
  }

  /** Every finding is covered by at most one acceptance. */
  lemma AtMostOneCover(db: Db, cve: CveId, sbom: Sbom, a: AcceptanceId, b: AcceptanceId)
    requires Exclusive(db.acceptances)
    requires a in db.acceptances && b in db.acceptances
    requires Covers(db.acceptances[a], cve, sbom) && Covers(db.acceptances[b], cve, sbom)
    ensures a == b
  {
  }

  /** The open links an acceptance covers. */
  function CoveredBy(db: Db, a: Acceptance): set<LinkKey> {
    set k | k in db.links && k.sbom in db.sboms && db.links[k].status == Open && Covers(a, k.cve, db.sboms[k.sbom])
  }

  /** A created acceptance hides exactly the open links it covers, and at least one of them was
      showing: the actionable set strictly shrinks. */
  lemma AcceptHides(db: Db, r: Request, id: AcceptanceId, now: Time)
    requires id !in db.acceptances && Check(db, r).None?
    ensures Actionable(Accept(db, r, id, now)) ==
        Actionable(db) - CoveredBy(db, Acceptance(r.project, r.service, r.cve, now))
    ensures Actionable(Accept(db, r, id, now)) < Actionable(db)
  {
    var acc := Acceptance(r.project, r.service, r.cve, now);
    var after := Accept(db, r, id, now);
    forall k | k in db.links && k.sbom in db.sboms
      ensures Covered(after, k.cve, db.sboms[k.sbom]) <==>
          Covered(db, k.cve, db.sboms[k.sbom]) || Covers(acc, k.cve, db.sboms[k.sbom])
    {
      CoveredAfterInsert(db, id, acc, k.cve, db.sboms[k.sbom]);
    }
    var k :| k in db.links && k.sbom in db.sboms && k.cve == r.cve && db.links[k].status == Open
             && db.sboms[k.sbom].project == r.project && (r.service.None? || db.sboms[k.sbom].service == r.service);
    assert forall a :: a in db.acceptances && Covers(db.acceptances[a], k.cve, db.sboms[k.sbom])
                       ==> a in Existing(db.acceptances, r);
    assert k in Actionable(db) && k in CoveredBy(db, acc);
  }

  lemma CoveredAfterInsert(db: Db, id: AcceptanceId, acc: Acceptance, cve: CveId, sbom: Sbom)
    requires id !in db.acceptances
    ensures Covered(db.(acceptances := db.acceptances[id := acc]), cve, sbom)
            <==> Covered(db, cve, sbom) || Covers(acc, cve, sbom)
  {
    var more := db.acceptances[id := acc];
    if Covered(db, cve, sbom) {
      var a :| a in db.acceptances && Covers(db.acceptances[a], cve, sbom);
      assert a in more && more[a] == db.acceptances[a];
    }
    if Covers(acc, cve, sbom) {
      assert more[id] == acc;
    }
  }

  /** Reverting an acceptance shows exactly the open links it covered, all of them and no other. */
  lemma RevertShows(db: Db, id: AcceptanceId)
    requires Exclusive(db.acceptances) && id in db.acceptances
    ensures Actionable(Revert(db, id)) == Actionable(db) + CoveredBy(db, db.acceptances[id])
    ensures Actionable(db) !! CoveredBy(db, db.acceptances[id])
  {
    var after := Revert(db, id);
    forall k | k in db.links && k.sbom in db.sboms
      ensures Covered(after, k.cve, db.sboms[k.sbom])
              <==> Covered(db, k.cve, db.sboms[k.sbom]) && !Covers(db.acceptances[id], k.cve, db.sboms[k.sbom])
    {
      var sbom := db.sboms[k.sbom];
      if Covered(db, k.cve, sbom) {
        var a :| a in db.acceptances && Covers(db.acceptances[a], k.cve, sbom);
        if a != id {
          assert a in after.acceptances;
        }
      }
      if Covered(after, k.cve, sbom) {
        var a :| a in after.acceptances && Covers(after.acceptances[a], k.cve, sbom);
        assert a in db.acceptances;
      }
    }
  }

  /** Accept then revert is the identity on the whole store. */
  lemma AcceptThenRevert(db: Db, r: Request, id: AcceptanceId, now: Time)
    requires id !in db.acceptances
    ensures Revert(Accept(db, r, id, now), id) == db
  {
  }
}
