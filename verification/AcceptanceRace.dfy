/** The same requests with their check and their insert interleaved: each request first reads the
    table, then inserts what it decided; only the two unique indexes stand in between. Requests that
    other checks refuse never write, so the ones here have passed those. */
module AcceptanceRace {
  import opened Store
  import opened Acceptances

  datatype Phase = Checking | Inserting | Answered(reply: Reply)

  type RequestId = nat

  datatype State = State(
    table: map<AcceptanceId, Acceptance>,
    requests: map<RequestId, Request>,
    phases: map<RequestId, Phase>)

  /** Any table that serial requests can have left, and requests none of which has started. */
  ghost predicate Init(s: State) {
    && Exclusive(s.table)
    && s.phases.Keys == s.requests.Keys
    && forall q :: q in s.phases ==> s.phases[q] == Checking
  }

  /** A row with the same (project, service, vulnerability): what the partial unique indexes,
      one for an absent service and one for a present service, reject together. */
  predicate Duplicate(table: map<AcceptanceId, Acceptance>, r: Request) {
    exists a :: a in table && table[a].project == r.project && table[a].service == r.service && table[a].cve == r.cve
  }

  ghost predicate CheckStep(s: State, s': State, q: RequestId) {
    && q in s.requests && q in s.phases && s.phases[q] == Checking
    && var c := Conflict(s.table, s.requests[q]);
       s' == s.(phases := s.phases[q := if c.Some? then Answered(Refused(c.value)) else Inserting])
  }

  ghost predicate InsertStep(s: State, s': State, q: RequestId, id: AcceptanceId, now: Time) {
    && q in s.requests && q in s.phases && s.phases[q] == Inserting && id !in s.table
    && var r := s.requests[q];
       if Duplicate(s.table, r) then
         s' == s.(phases := s.phases[q := Answered(Refused(AcceptedConcurrently))])
       else
         s' == s.(table := s.table[id := Acceptance(r.project, r.service, r.cve, now)],
                  phases := s.phases[q := Answered(Created)])
  }

  ghost predicate RevertStep(s: State, s': State, id: AcceptanceId) {
    id in s.table && s' == s.(table := s.table - {id})
  }

  ghost predicate Next(s: State, s': State) {
    || (exists q :: CheckStep(s, s', q))
    || (exists q, id, now :: InsertStep(s, s', q, id, now))
    || (exists id :: RevertStep(s, s', id))
  }

  ghost predicate Behavior(run: seq<State>) {
    && |run| > 0 && Init(run[0])
    && forall i :: 0 <= i < |run| - 1 ==> Next(run[i], run[i + 1])
  }

  /** What interleaving cannot break: one row per (project, service, vulnerability). */
  ghost predicate OneRowPerScope(table: map<AcceptanceId, Acceptance>) {
    forall a, b :: a in table && b in table
                   && table[a].project == table[b].project && table[a].service == table[b].service
                   && table[a].cve == table[b].cve
                   ==> a == b
  }

  lemma StepKeepsOneRow(s: State, s': State)
    requires OneRowPerScope(s.table) && Next(s, s')
    ensures OneRowPerScope(s'.table)
  {
  }

  lemma {:induction false} OneRowAlways(run: seq<State>, i: nat)
    requires Behavior(run) && i < |run|
    ensures OneRowPerScope(run[i].table)
  {
    if i > 0 {
      OneRowAlways(run, i - 1);
      assert Next(run[i - 1], run[i]);
      StepKeepsOneRow(run[i - 1], run[i]);
    }
  }

  /* ----- progress ----- */

  /** A request that has not been answered can always take its next step, and the one after an insert
      is its answer. */
  lemma RequestGoesOn(s: State, q: RequestId)
    requires q in s.requests && q in s.phases && !s.phases[q].Answered?
    ensures s.phases[q] == Checking ==> exists s' :: CheckStep(s, s', q) && s'.phases[q] != Checking
    ensures s.phases[q] == Inserting ==> exists s', id :: InsertStep(s, s', q, id, 0) && s'.phases[q].Answered?
  {
    if s.phases[q] == Checking {
      var c := Conflict(s.table, s.requests[q]);
      var s' := s.(phases := s.phases[q := if c.Some? then Answered(Refused(c.value)) else Inserting]);
      assert CheckStep(s, s', q);
    } else {
      var id := FreshId(s.table.Keys);
      var r := s.requests[q];
      var s' := if Duplicate(s.table, r) then s.(phases := s.phases[q := Answered(Refused(AcceptedConcurrently))])
                else s.(table := s.table[id := Acceptance(r.project, r.service, r.cve, 0)],
                        phases := s.phases[q := Answered(Created)]);
      assert InsertStep(s, s', q, id, 0);
    }
  }

  /* ----- when acceptances stay exclusive ----- */

  predicate SamePair(a: Request, b: Request) {
    a.project == b.project && a.cve == b.cve
  }

  /** Some (project, vulnerability) is requested both for the whole project and for a service. */
  ghost predicate Mixed(requests: map<RequestId, Request>) {
    exists p, q :: p in requests && q in requests && SamePair(requests[p], requests[q])
                   && requests[p].service.None? && requests[q].service.Some?
  }

  function RequestOf(a: Acceptance): Request {
    Request(a.project, a.service, a.cve)
  }

  /** Rows of one (project, vulnerability), and requests about to insert into it, are all for the
      whole project or all for a service. */
  ghost predicate OneKind(s: State) {
    && OneRowPerScope(s.table)
    && (forall a, b :: a in s.table && b in s.table && SamePair(RequestOf(s.table[a]), RequestOf(s.table[b]))
                       ==> (s.table[a].service.None? <==> s.table[b].service.None?))
    && (forall a, q :: a in s.table && q in s.requests && q in s.phases && s.phases[q] == Inserting
                       && SamePair(RequestOf(s.table[a]), s.requests[q])
                       ==> (s.table[a].service.None? <==> s.requests[q].service.None?))
  }

  lemma CheckKeepsOneKind(s: State, s': State, q: RequestId)
    requires OneKind(s) && CheckStep(s, s', q)
    ensures OneKind(s')
  {
    var r := s.requests[q];
    forall a | a in s.table && SamePair(RequestOf(s.table[a]), r) && s'.phases[q] == Inserting
      ensures s.table[a].service.None? <==> r.service.None?
    {
      assert a in Existing(s.table, r);
    }
  }

  lemma InsertKeepsOneKind(s: State, s': State, q: RequestId, id: AcceptanceId, now: Time)
    requires OneKind(s) && !Mixed(s.requests) && InsertStep(s, s', q, id, now)
    ensures OneKind(s')
  {
  }

  lemma StepKeepsOneKind(s: State, s': State)
    requires OneKind(s) && !Mixed(s.requests) && Next(s, s')
    ensures OneKind(s') && s'.requests == s.requests
  {
    if q :| CheckStep(s, s', q) {
      CheckKeepsOneKind(s, s', q);
    } else if q, id, now :| InsertStep(s, s', q, id, now) {
      InsertKeepsOneKind(s, s', q, id, now);
    }
  }

  lemma {:induction false} StaysOneKind(run: seq<State>, i: nat)
    requires Behavior(run) && i < |run| && !Mixed(run[0].requests)
    ensures OneKind(run[i]) && run[i].requests == run[0].requests
  {
    if i > 0 {
      StaysOneKind(run, i - 1);
      assert Next(run[i - 1], run[i]);
      StepKeepsOneKind(run[i - 1], run[i]);
    }
  }

  /** Two requests that both check before either inserts, on a table without their pair. */
  lemma BothInsert(s: State, p: RequestId, q: RequestId) returns (run: seq<State>)
    requires Init(s) && p in s.requests && q in s.requests && SamePair(s.requests[p], s.requests[q])
    requires s.requests[p].service.None? && s.requests[q].service.Some?
    requires Existing(s.table, s.requests[p]) == {}
    ensures Behavior(run) && run[0] == s && !Exclusive(run[|run| - 1].table)
  {
    var whole, part := s.requests[p], s.requests[q];
    var id := FreshId(s.table.Keys);
    var s1 := s.(phases := s.phases[p := Inserting]);
    var s2 := s1.(phases := s1.phases[q := Inserting]);
    var s3 := s2.(table := s2.table[id := Acceptance(whole.project, None, whole.cve, 0)],
                  phases := s2.phases[p := Answered(Created)]);
    var s4 := s3.(table := s3.table[id + 1 := Acceptance(part.project, part.service, part.cve, 0)],
                  phases := s3.phases[q := Answered(Created)]);
    assert Existing(s.table, part) == Existing(s.table, whole);
    forall a | a in s.table
      ensures !SamePair(RequestOf(s.table[a]), whole)
    {
      assert a !in Existing(s.table, whole);
    }
    assert CheckStep(s, s1, p) && CheckStep(s1, s2, q);
    assert InsertStep(s2, s3, p, id, 0) && InsertStep(s3, s4, q, id + 1, 0);
    run := [s, s1, s2, s3, s4];
    assert s4.table[id].service.None? && s4.table[id + 1].service.Some?;
  }

  /** Whatever rows the pair has at first, reverts can make room for the collision. */
  lemma {:induction false} Collide(s: State, p: RequestId, q: RequestId) returns (run: seq<State>)
    requires Init(s) && p in s.requests && q in s.requests && SamePair(s.requests[p], s.requests[q])
    requires s.requests[p].service.None? && s.requests[q].service.Some?
    ensures Behavior(run) && run[0] == s && !Exclusive(run[|run| - 1].table)
    decreases |Existing(s.table, s.requests[p])|
  {
    if Existing(s.table, s.requests[p]) == {} {
      run := BothInsert(s, p, q);
    } else {
      var a :| a in Existing(s.table, s.requests[p]);
      var less := s.(table := s.table - {a});
      assert Existing(less.table, s.requests[p]) == Existing(s.table, s.requests[p]) - {a};
      var rest := Collide(less, p, q);
      assert RevertStep(s, less, a);
      run := [s] + rest;
      assert forall i :: 0 < i < |run| ==> run[i] == rest[i - 1];
    }
  }

  /** Exactly when acceptances stay exclusive in every interleaving: when no (project, vulnerability)
      is requested both for the whole project and for a service. */
  lemma ExclusionSurvivesIff(s: State)
    requires Init(s)
    ensures (forall run: seq<State>, i: nat :: Behavior(run) && run[0] == s && i < |run| ==> Exclusive(run[i].table))
            <==> !Mixed(s.requests)
  {
    if Mixed(s.requests) {
      var p, q :| p in s.requests && q in s.requests && SamePair(s.requests[p], s.requests[q])
                  && s.requests[p].service.None? && s.requests[q].service.Some?;
      var run := Collide(s, p, q);
    } else {
      forall run: seq<State>, i: nat | Behavior(run) && run[0] == s && i < |run|
        ensures Exclusive(run[i].table)
      {
        StaysOneKind(run, i);
      }
    }
  }
}
