/** Concurrent scans. Each scan is one transaction that, match by match, selects a vulnerability,
    inserts it under a savepoint when it is missing, selects again when the insert conflicts, and
    does the same for the link. Statements of different scans interleave freely: a statement sees
    committed rows and the rows of its own transaction, and an insert waits while another open
    transaction holds a row with the same key. Transactions commit or abort at any time. */
module UpsertRace {
  import opened Store

  type WorkerId = nat
  type VulnId = nat
  type RowId = nat

  /** `owner` is the open transaction that inserted the row, or nothing once committed. */
  datatype VulnRow = VulnRow(cve: CveId, owner: Option<WorkerId>)

  datatype LinkRow = LinkRow(sbom: SbomId, purl: Purl, vuln: VulnId, owner: Option<WorkerId>)

  datatype Job = Job(cve: CveId, purl: Purl)

  datatype Phase =
    | SelectVuln
    | InsertVuln
    | ReselectVuln
    | SelectLink(id: VulnId)
    | InsertLink(id: VulnId)
    | Committed
    | Aborted

  /** A scan of `sbom` that has finished `|held|` of its jobs; `held[j]` is the vulnerability id it
      ended up with for job `j`. */
  datatype Worker = Worker(sbom: SbomId, jobs: seq<Job>, held: seq<VulnId>, phase: Phase)

  datatype State = State(vulns: map<VulnId, VulnRow>, links: map<RowId, LinkRow>, workers: map<WorkerId, Worker>)

  predicate Running(w: Worker) { !w.phase.Committed? && !w.phase.Aborted? }

  predicate Busy(s: State, w: WorkerId) {
    w in s.workers && Running(s.workers[w]) && |s.workers[w].held| < |s.workers[w].jobs|
  }

  function Now(s: State, w: WorkerId): Job
    requires Busy(s, w)
  {
    s.workers[w].jobs[|s.workers[w].held|]
  }

  predicate VisibleTo(owner: Option<WorkerId>, w: WorkerId) { owner == None || owner == Some(w) }

  predicate SeesVuln(s: State, w: WorkerId, id: VulnId, cve: CveId) {
    id in s.vulns && s.vulns[id].cve == cve && VisibleTo(s.vulns[id].owner, w)
  }

  predicate SameLink(r: LinkRow, sbom: SbomId, purl: Purl, vuln: VulnId) {
    r.sbom == sbom && r.purl == purl && r.vuln == vuln
  }

  predicate SeesLink(s: State, w: WorkerId, row: RowId, purl: Purl, vuln: VulnId)
    requires w in s.workers
  {
    row in s.links && SameLink(s.links[row], s.workers[w].sbom, purl, vuln) && VisibleTo(s.links[row].owner, w)
  }

  function AtPhase(s: State, w: WorkerId, p: Phase): State
    requires w in s.workers
  {
    s.(workers := s.workers[w := s.workers[w].(phase := p)])
  }

  /** The job is done with vulnerability `id`; on to the next. */
  function Advance(s: State, w: WorkerId, id: VulnId): State
    requires w in s.workers
  {
    s.(workers := s.workers[w := s.workers[w].(held := s.workers[w].held + [id], phase := SelectVuln)])
  }

  /* ----- statements ----- */

  ghost predicate SelectVulnStep(s: State, s': State, w: WorkerId) {
    && Busy(s, w) && s.workers[w].phase == SelectVuln
    && if exists id :: SeesVuln(s, w, id, Now(s, w).cve)
       then exists id :: SeesVuln(s, w, id, Now(s, w).cve) && s' == AtPhase(s, w, SelectLink(id))
       else s' == AtPhase(s, w, InsertVuln)
  }

  /** No step while another open transaction holds the CVE; a conflict when a committed row or a
      row of its own has it; otherwise a new row. */
  ghost predicate InsertVulnStep(s: State, s': State, w: WorkerId, newId: VulnId) {
    && Busy(s, w) && s.workers[w].phase == InsertVuln && newId !in s.vulns
    && (forall id :: id in s.vulns && s.vulns[id].cve == Now(s, w).cve ==> VisibleTo(s.vulns[id].owner, w))
    && if exists id :: id in s.vulns && s.vulns[id].cve == Now(s, w).cve
       then s' == AtPhase(s, w, ReselectVuln)
       else s' == AtPhase(s.(vulns := s.vulns[newId := VulnRow(Now(s, w).cve, Some(w))]), w, SelectLink(newId))
  }

  ghost predicate ReselectVulnStep(s: State, s': State, w: WorkerId) {
    && Busy(s, w) && s.workers[w].phase == ReselectVuln
    && exists id :: SeesVuln(s, w, id, Now(s, w).cve) && s' == AtPhase(s, w, SelectLink(id))
  }

  ghost predicate SelectLinkStep(s: State, s': State, w: WorkerId) {
    && Busy(s, w) && s.workers[w].phase.SelectLink?
    && var id := s.workers[w].phase.id;
       if Now(s, w).purl == "" || exists row :: SeesLink(s, w, row, Now(s, w).purl, id)
       then s' == Advance(s, w, id)
       else s' == AtPhase(s, w, InsertLink(id))
  }

  ghost predicate InsertLinkStep(s: State, s': State, w: WorkerId, row: RowId) {
    && Busy(s, w) && s.workers[w].phase.InsertLink? && row !in s.links
    && var id, worker := s.workers[w].phase.id, s.workers[w];
       && (forall r :: r in s.links && SameLink(s.links[r], worker.sbom, Now(s, w).purl, id) ==>
           VisibleTo(s.links[r].owner, w))
       && if exists r :: r in s.links && SameLink(s.links[r], worker.sbom, Now(s, w).purl, id)
          then s' == Advance(s, w, id)
          else s' == Advance(s.(links := s.links[row := LinkRow(worker.sbom, Now(s, w).purl, id, Some(w))]), w, id)
  }

  ghost predicate CommitStep(s: State, s': State, w: WorkerId) {
    && w in s.workers && Running(s.workers[w]) && |s.workers[w].held| == |s.workers[w].jobs|
    && s' == AtPhase(s.(vulns := (map id | id in s.vulns ::
                                    if s.vulns[id].owner == Some(w) then s.vulns[id].(owner := None) else s.vulns[id]),
                        links := (map r | r in s.links ::
                                    if s.links[r].owner == Some(w) then s.links[r].(owner := None) else s.links[r])),
                   w, Committed)
  }

  ghost predicate AbortStep(s: State, s': State, w: WorkerId) {
    && w in s.workers && Running(s.workers[w])
    && s' == AtPhase(s.(vulns := (map id | id in s.vulns && s.vulns[id].owner != Some(w) :: s.vulns[id]),
                        links := (map r | r in s.links && s.links[r].owner != Some(w) :: s.links[r])), w, Aborted)
  }

  datatype Statement =
    | DoSelectVuln | DoInsertVuln(newId: VulnId) | DoReselectVuln
    | DoSelectLink | DoInsertLink(row: RowId) | DoCommit | DoAbort

  ghost predicate WorkerStep(s: State, s': State, w: WorkerId, st: Statement) {
    match st
    case DoSelectVuln => SelectVulnStep(s, s', w)
    case DoInsertVuln(f) => InsertVulnStep(s, s', w, f)
    case DoReselectVuln => ReselectVulnStep(s, s', w)
    case DoSelectLink => SelectLinkStep(s, s', w)
    case DoInsertLink(row) => InsertLinkStep(s, s', w, row)
    case DoCommit => CommitStep(s, s', w)
    case DoAbort => AbortStep(s, s', w)
  }

  /** Committed rows may be there from earlier scans; no transaction has begun. */
  ghost predicate Init(s: State) {
    && (forall id :: id in s.vulns ==> s.vulns[id].owner == None)
    && (forall r :: r in s.links ==> s.links[r].owner == None)
    && OneRowPerCve(s) && OneRowPerLink(s)
    && (forall w :: w in s.workers ==> s.workers[w].held == [] && s.workers[w].phase == SelectVuln)
  }

  ghost predicate Behavior(run: seq<State>, who: seq<WorkerId>, what: seq<Statement>) {
    && |run| == |who| + 1 && |who| == |what| && Init(run[0])
    && forall i :: 0 <= i < |who| ==> WorkerStep(run[i], run[i + 1], who[i], what[i])
  }

  /* ----- invariant ----- */

  ghost predicate OneRowPerCve(s: State) {
    forall a, b :: a in s.vulns && b in s.vulns && s.vulns[a].cve == s.vulns[b].cve ==> a == b
  }

  ghost predicate OneRowPerLink(s: State) {
    forall a, b :: a in s.links && b in s.links
                   && SameLink(s.links[a], s.links[b].sbom, s.links[b].purl, s.links[b].vuln)
                   ==> a == b
  }

  /** Every job a worker finished has a row for its CVE and, with a package, a link row, both
      visible to the worker. */
  ghost predicate JobDone(s: State, w: WorkerId, j: nat)
    requires w in s.workers && j < |s.workers[w].held| <= |s.workers[w].jobs|
  {
    var job, id := s.workers[w].jobs[j], s.workers[w].held[j];
    && SeesVuln(s, w, id, job.cve)
    && (job.purl != "" ==> exists row :: SeesLink(s, w, row, job.purl, id))
  }

  /** The phase a vulnerability statement leads to says what its rows are. */
  ghost predicate PhaseOk(s: State, w: WorkerId)
    requires w in s.workers
  {
    match s.workers[w].phase
    case InsertVuln =>
      Busy(s, w) ==> forall id :: id in s.vulns && s.vulns[id].owner == Some(w) ==> s.vulns[id].cve != Now(s, w).cve
    case ReselectVuln => Busy(s, w) ==> exists id :: SeesVuln(s, w, id, Now(s, w).cve)
    case SelectLink(id) => Busy(s, w) ==> SeesVuln(s, w, id, Now(s, w).cve)
    case InsertLink(id) => Busy(s, w) ==> SeesVuln(s, w, id, Now(s, w).cve)
    case _ => true
  }

  ghost predicate WorkerOk(s: State, w: WorkerId)
    requires w in s.workers
  {
    var worker := s.workers[w];
    && |worker.held| <= |worker.jobs|
    && (!worker.phase.Aborted? ==> forall j :: 0 <= j < |worker.held| ==> JobDone(s, w, j))
    && (worker.phase.Committed? ==> |worker.held| == |worker.jobs|)
    && PhaseOk(s, w)
  }

  /** Uncommitted rows belong to running workers. */
  ghost predicate OwnersRun(s: State) {
    && (forall id :: id in s.vulns && s.vulns[id].owner.Some? ==>
          s.vulns[id].owner.value in s.workers && Running(s.workers[s.vulns[id].owner.value]))
    && (forall r :: r in s.links && s.links[r].owner.Some? ==>
          s.links[r].owner.value in s.workers && Running(s.workers[s.links[r].owner.value]))
  }

  ghost predicate TablesOk(s: State) {
    OneRowPerCve(s) && OneRowPerLink(s) && OwnersRun(s)
  }

  ghost predicate Inv(s: State) {
    && TablesOk(s)
    && forall w :: w in s.workers ==> WorkerOk(s, w)
  }

  /** Nothing that worker `o` could see has gone. */
  ghost predicate ViewGrows(s: State, s': State, o: WorkerId)
    requires o in s.workers && o in s'.workers
  {
    && (forall id, cve :: SeesVuln(s, o, id, cve) ==> SeesVuln(s', o, id, cve))
    && (forall row, purl, id :: SeesLink(s, o, row, purl, id) ==> SeesLink(s', o, row, purl, id))
  }

  /** A step of another worker leaves `o` and its own rows alone. */
  ghost predicate KeepsView(s: State, s': State, o: WorkerId) {
    && o in s.workers && o in s'.workers && s'.workers[o] == s.workers[o]
    && ViewGrows(s, s', o)
    && (forall id :: id in s'.vulns && s'.vulns[id].owner == Some(o) ==> id in s.vulns && s.vulns[id] == s'.vulns[id])
  }

  ghost predicate TablesGrow(s: State, s': State) {
    && (forall id :: id in s.vulns ==> id in s'.vulns && s'.vulns[id] == s.vulns[id])
    && (forall r :: r in s.links ==> r in s'.links && s'.links[r] == s.links[r])
    && s'.workers.Keys == s.workers.Keys
    && (forall w :: w in s.workers ==>
        s'.workers[w].sbom == s.workers[w].sbom && s'.workers[w].jobs == s.workers[w].jobs)
  }

  lemma StatementsGrowTables(s: State, s': State, w: WorkerId, st: Statement)
    requires WorkerStep(s, s', w, st) && !st.DoCommit? && !st.DoAbort?
    ensures TablesGrow(s, s')
  {
    match st
    case DoInsertVuln(id) => InsertVulnGrows(s, s', w, id);
    case DoInsertLink(row) => InsertLinkGrows(s, s', w, row);
    case _ =>
  }

  lemma InsertVulnGrows(s: State, s': State, w: WorkerId, id: VulnId)
    requires InsertVulnStep(s, s', w, id)
    ensures TablesGrow(s, s')
  {
  }

  lemma InsertLinkGrows(s: State, s': State, w: WorkerId, row: RowId)
    requires InsertLinkStep(s, s', w, row)
    ensures TablesGrow(s, s')
  {
  }

  lemma NewRowsAreOwn(s: State, s': State, w: WorkerId, st: Statement)
    requires WorkerStep(s, s', w, st) && !st.DoCommit? && !st.DoAbort?
    ensures forall id :: id in s'.vulns ==>
        (id in s.vulns && s.vulns[id] == s'.vulns[id]) || s'.vulns[id].owner == Some(w)
  {
  }

  lemma StepKeepsView(s: State, s': State, w: WorkerId, st: Statement, o: WorkerId)
    requires WorkerStep(s, s', w, st) && o in s.workers && (o == w ==> !st.DoAbort?)
    ensures o in s'.workers && ViewGrows(s, s', o)
  {
    if !st.DoCommit? && !st.DoAbort? {
      StatementsGrowTables(s, s', w, st);
    }
  }

  lemma OthersStayOk(s: State, s': State, o: WorkerId)
    requires o in s.workers && WorkerOk(s, o) && KeepsView(s, s', o)
    ensures WorkerOk(s', o)
  {
    var worker := s.workers[o];
    if worker.phase == ReselectVuln && Busy(s, o) {
      var id :| SeesVuln(s, o, id, Now(s, o).cve);
      assert SeesVuln(s', o, id, Now(s', o).cve);
    }
    if !worker.phase.Aborted? {
      forall j | 0 <= j < |worker.held|
        ensures JobDone(s', o, j)
      {
        assert JobDone(s, o, j);
        var job, id := worker.jobs[j], worker.held[j];
        if job.purl != "" {
          var row :| SeesLink(s, o, row, job.purl, id);
          assert SeesLink(s', o, row, job.purl, id);
        }
      }
    }
  }

  lemma StepKeepsOtherViews(s: State, s': State, w: WorkerId, st: Statement, o: WorkerId)
    requires WorkerStep(s, s', w, st) && o in s.workers && o != w
    ensures KeepsView(s, s', o)
  {
    StepKeepsView(s, s', w, st, o);
    if !st.DoCommit? && !st.DoAbort? {
      NewRowsAreOwn(s, s', w, st);
    }
  }

  lemma StepKeepsTables(s: State, s': State, w: WorkerId, st: Statement)
    requires Inv(s) && WorkerStep(s, s', w, st)
    ensures TablesOk(s') && s'.workers.Keys == s.workers.Keys
  {
    match st
    case DoInsertVuln(f) => InsertVulnKeepsTables(s, s', w, f);
    case DoInsertLink(row) => InsertLinkKeepsTables(s, s', w, row);
    case DoCommit => CommitKeepsTables(s, s', w);
    case DoAbort => AbortKeepsTables(s, s', w);
    case _ => SelectKeepsTables(s, s', w);
  }

  lemma SelectKeepsTables(s: State, s': State, w: WorkerId)
    requires TablesOk(s) && w in s.workers && Running(s.workers[w])
    requires s'.vulns == s.vulns && s'.links == s.links
    requires s'.workers.Keys == s.workers.Keys && forall o :: o in s.workers && Running(s.workers[o]) ==>
        Running(s'.workers[o])
    ensures TablesOk(s')
  {
  }

  lemma InsertVulnKeepsTables(s: State, s': State, w: WorkerId, f: VulnId)
    requires TablesOk(s) && InsertVulnStep(s, s', w, f)
    ensures TablesOk(s') && s'.workers.Keys == s.workers.Keys
  {
    InsertVulnKeepsOwners(s, s', w, f);
  }

  lemma InsertVulnKeepsOwners(s: State, s': State, w: WorkerId, f: VulnId)
    requires OwnersRun(s) && InsertVulnStep(s, s', w, f)
    ensures OwnersRun(s') && s'.links == s.links
  {
  }

  lemma InsertLinkKeepsOwners(s: State, s': State, w: WorkerId, row: RowId)
    requires OwnersRun(s) && InsertLinkStep(s, s', w, row)
    ensures OwnersRun(s') && s'.vulns == s.vulns
  {
  }

  lemma InsertLinkKeepsTables(s: State, s': State, w: WorkerId, row: RowId)
    requires TablesOk(s) && InsertLinkStep(s, s', w, row)
    ensures TablesOk(s') && s'.workers.Keys == s.workers.Keys
  {
    InsertLinkKeepsOwners(s, s', w, row);
  }

  lemma CommitKeepsTables(s: State, s': State, w: WorkerId)
    requires TablesOk(s) && CommitStep(s, s', w)
    ensures TablesOk(s') && s'.workers.Keys == s.workers.Keys
  {
  }

  lemma AbortKeepsTables(s: State, s': State, w: WorkerId)
    requires TablesOk(s) && AbortStep(s, s', w)
    ensures TablesOk(s') && s'.workers.Keys == s.workers.Keys
  {
  }

  /** What worker `w` had done stays done through its own statements, short of an abort. */
  lemma DoneStaysDone(s: State, s': State, w: WorkerId, st: Statement, j: nat)
    requires Inv(s) && WorkerStep(s, s', w, st) && !st.DoAbort?
    requires j < |s.workers[w].held|
    ensures w in s'.workers && j < |s'.workers[w].held| <= |s'.workers[w].jobs| && JobDone(s', w, j)
  {
    assert JobDone(s, w, j);
    StepKeepsView(s, s', w, st, w);
    HeldGrows(s, s', w, st);
    var job, id := s.workers[w].jobs[j], s.workers[w].held[j];
    if job.purl != "" {
      var row :| SeesLink(s, w, row, job.purl, id);
      assert SeesLink(s', w, row, job.purl, id);
    }
  }

  lemma HeldGrows(s: State, s': State, w: WorkerId, st: Statement)
    requires WorkerStep(s, s', w, st) && |s.workers[w].held| <= |s.workers[w].jobs|
    ensures w in s'.workers && s.workers[w].held <= s'.workers[w].held && |s'.workers[w].held| <= |s'.workers[w].jobs|
    ensures s'.workers[w].jobs == s.workers[w].jobs && s'.workers[w].sbom == s.workers[w].sbom
  {
  }

  lemma StepKeepsWorker(s: State, s': State, w: WorkerId, st: Statement)
    requires Inv(s) && WorkerStep(s, s', w, st)
    ensures w in s'.workers && WorkerOk(s', w)
  {
    HeldGrows(s, s', w, st);
    if !st.DoAbort? {
      JobsStayDone(s, s', w, st);
      if st.DoSelectLink? || st.DoInsertLink? {
        LinkStepFinishesJob(s, s', w, st);
      } else {
        VulnStepKeepsPhase(s, s', w, st);
      }
    }
  }

  lemma JobsStayDone(s: State, s': State, w: WorkerId, st: Statement)
    requires Inv(s) && WorkerStep(s, s', w, st) && !st.DoAbort?
    ensures w in s'.workers && |s'.workers[w].held| <= |s'.workers[w].jobs|
    ensures forall j :: 0 <= j < |s.workers[w].held| ==> j < |s'.workers[w].held| && JobDone(s', w, j)
  {
    HeldGrows(s, s', w, st);
    forall j | 0 <= j < |s.workers[w].held|
      ensures j < |s'.workers[w].held| && JobDone(s', w, j)
    {
      DoneStaysDone(s, s', w, st, j);
    }
  }

  lemma VulnStepKeepsPhase(s: State, s': State, w: WorkerId, st: Statement)
    requires Inv(s) && WorkerStep(s, s', w, st) && !st.DoSelectLink? && !st.DoInsertLink? && !st.DoAbort?
    ensures w in s'.workers && PhaseOk(s', w) && s'.workers[w].held == s.workers[w].held
    ensures s'.workers[w].phase.Committed? ==> |s'.workers[w].held| == |s'.workers[w].jobs|
  {
    match st
    case DoSelectVuln =>
      if s'.workers[w].phase == InsertVuln {
        forall id | id in s'.vulns && s'.vulns[id].owner == Some(w)
          ensures s'.vulns[id].cve != Now(s', w).cve
        {
          assert !SeesVuln(s, w, id, Now(s, w).cve);
        }
      }
    case DoInsertVuln(f) =>
      if s'.workers[w].phase == ReselectVuln {
        var id :| id in s.vulns && s.vulns[id].cve == Now(s, w).cve;
        assert SeesVuln(s', w, id, Now(s', w).cve);
      }
    case _ =>
  }

  lemma LinkStepFinishesJob(s: State, s': State, w: WorkerId, st: Statement)
    requires Inv(s) && WorkerStep(s, s', w, st) && (st.DoSelectLink? || st.DoInsertLink?)
    ensures w in s'.workers && |s'.workers[w].held| <= |s'.workers[w].jobs|
    ensures |s'.workers[w].held| <= |s.workers[w].held| + 1
    ensures |s'.workers[w].held| > |s.workers[w].held| ==> JobDone(s', w, |s.workers[w].held|)
    ensures Running(s'.workers[w]) && PhaseOk(s', w)
  {
    var job, id := Now(s, w), s.workers[w].phase.id;
    if |s'.workers[w].held| > |s.workers[w].held| {
      assert SeesVuln(s', w, id, job.cve);
      if job.purl != "" {
        if st.DoSelectLink? {
          var row :| SeesLink(s, w, row, job.purl, id);
          assert SeesLink(s', w, row, job.purl, id);
        } else if exists r :: r in s.links && SameLink(s.links[r], s.workers[w].sbom, job.purl, id) {
          var row :| row in s.links && SameLink(s.links[row], s.workers[w].sbom, job.purl, id);
          assert SeesLink(s', w, row, job.purl, id);
        } else {
          assert SeesLink(s', w, st.row, job.purl, id);
        }
      }
    }
  }

  lemma StepKeepsInv(s: State, s': State, w: WorkerId, st: Statement)
    requires Inv(s) && WorkerStep(s, s', w, st)
    ensures Inv(s')
  {
    StepKeepsTables(s, s', w, st);
    StepKeepsWorker(s, s', w, st);
    forall o | o in s'.workers && o != w
      ensures WorkerOk(s', o)
    {
      StepKeepsOtherViews(s, s', w, st, o);
      OthersStayOk(s, s', o);
    }
  }

  lemma {:induction false} InvAlways(run: seq<State>, who: seq<WorkerId>, what: seq<Statement>, i: nat)
    requires Behavior(run, who, what) && i < |run|
    ensures Inv(run[i])
  {
    if i > 0 {
      InvAlways(run, who, what, i - 1);
      StepKeepsInv(run[i - 1], run[i], who[i - 1], what[i - 1]);
    }
  }

  /* ----- what the scans rely on ----- */

  /** In every interleaving there is one row per CVE and one per link, committed or not: so no
      select of a single row ever finds two. */
  lemma OneRowEach(run: seq<State>, who: seq<WorkerId>, what: seq<Statement>, i: nat)
    requires Behavior(run, who, what) && i < |run|
    ensures OneRowPerCve(run[i]) && OneRowPerLink(run[i])
  {
    InvAlways(run, who, what, i);
  }

  /** The select after a conflict always finds exactly one row. */
  lemma ReselectFinds(run: seq<State>, who: seq<WorkerId>, what: seq<Statement>, i: nat, w: WorkerId)
    requires Behavior(run, who, what) && i < |run|
    requires Busy(run[i], w) && run[i].workers[w].phase == ReselectVuln
    ensures exists id :: SeesVuln(run[i], w, id, Now(run[i], w).cve)
                         && forall other :: SeesVuln(run[i], w, other, Now(run[i], w).cve) ==> other == id
  {
    InvAlways(run, who, what, i);
    assert WorkerOk(run[i], w);
    var id :| SeesVuln(run[i], w, id, Now(run[i], w).cve);
  }

  /** A committed scan holds, for every match, the id of the only row stored for its CVE, that row
      is committed, and the match with a package has exactly one link row, committed as well. */
  lemma CommittedScanIsStored(run: seq<State>, who: seq<WorkerId>, what: seq<Statement>, i: nat, w: WorkerId, j: nat)
    requires Behavior(run, who, what) && i < |run|
    requires w in run[i].workers && run[i].workers[w].phase == Committed && j < |run[i].workers[w].jobs|
    ensures var s, worker := run[i], run[i].workers[w];
            && |worker.held| == |worker.jobs|
            && worker.held[j] in s.vulns && s.vulns[worker.held[j]] == VulnRow(worker.jobs[j].cve, None)
            && (forall id :: id in s.vulns && s.vulns[id].cve == worker.jobs[j].cve ==> id == worker.held[j])
            && (worker.jobs[j].purl != "" ==>
                  exists row :: row in s.links
                      && s.links[row] == LinkRow(worker.sbom, worker.jobs[j].purl, worker.held[j], None))
  {
    InvAlways(run, who, what, i);
    var s := run[i];
    assert WorkerOk(s, w);
    assert JobDone(s, w, j);
    var worker := s.workers[w];
    if worker.jobs[j].purl != "" {
      var row :| SeesLink(s, w, row, worker.jobs[j].purl, worker.held[j]);
      assert s.links[row] == LinkRow(worker.sbom, worker.jobs[j].purl, worker.held[j], None);
    }
  }

  /* ----- nothing else is stored ----- */

  ghost predicate AsksForCve(w: Worker, cve: CveId) {
    exists j :: 0 <= j < |w.jobs| && w.jobs[j].cve == cve
  }

  /** A finished job of the scan asked for this link. */
  ghost predicate AsksForLink(w: Worker, sbom: SbomId, purl: Purl, vuln: VulnId) {
    w.sbom == sbom && purl != "" && exists j ::
        0 <= j < |w.held| && j < |w.jobs| && w.held[j] == vuln && w.jobs[j].purl == purl
  }

  /** A row with this owner is one of `w`: uncommitted and owned by it, or committed as it is. */
  predicate BelongsTo(s: State, owner: Option<WorkerId>, w: WorkerId) {
    w in s.workers && (owner == Some(w) || (owner == None && s.workers[w].phase == Committed))
  }

  ghost predicate CveAsked(s: State, r: VulnRow) {
    exists w :: BelongsTo(s, r.owner, w) && AsksForCve(s.workers[w], r.cve)
  }

  ghost predicate LinkAsked(s: State, r: LinkRow) {
    exists w :: BelongsTo(s, r.owner, w) && AsksForLink(s.workers[w], r.sbom, r.purl, r.vuln)
  }

  /** The rows there at first are still there, and every other row was asked for by the scan it belongs to. */
  ghost predicate Origin(s0: State, s: State) {
    && (forall id :: id in s0.vulns ==> id in s.vulns && s.vulns[id] == s0.vulns[id])
    && (forall r :: r in s0.links ==> r in s.links && s.links[r] == s0.links[r])
    && (forall id :: id in s.vulns && id !in s0.vulns ==> CveAsked(s, s.vulns[id]))
    && (forall r :: r in s.links && r !in s0.links ==> LinkAsked(s, s.links[r]))
  }

  /** Only a link with a package is inserted. */
  ghost predicate LinksNamed(s: State) {
    forall w :: Busy(s, w) && s.workers[w].phase.InsertLink? ==> Now(s, w).purl != ""
  }

  lemma StepKeepsNamed(s: State, s': State, w: WorkerId, st: Statement)
    requires WorkerStep(s, s', w, st) && LinksNamed(s)
    ensures LinksNamed(s')
  {
    forall o | Busy(s', o) && s'.workers[o].phase.InsertLink?
      ensures Now(s', o).purl != ""
    {
      if o != w {
        assert Busy(s, o) && s.workers[o] == s'.workers[o];
      }
    }
  }

  /** What a scan asked for it has asked for ever after, and a committed scan takes no more steps. */
  lemma AskedStays(s: State, s': State, w: WorkerId, st: Statement, o: WorkerId)
    requires WorkerStep(s, s', w, st) && |s.workers[w].held| <= |s.workers[w].jobs| && o in s.workers
    ensures o in s'.workers && s'.workers[o].sbom == s.workers[o].sbom && s'.workers[o].jobs == s.workers[o].jobs
    ensures s.workers[o].held <= s'.workers[o].held
    ensures s.workers[o].phase == Committed ==> o != w && s'.workers[o] == s.workers[o]
    ensures forall cve :: AsksForCve(s.workers[o], cve) ==> AsksForCve(s'.workers[o], cve)
    ensures forall sbom, purl, id :: AsksForLink(s.workers[o], sbom, purl, id) ==>
        AsksForLink(s'.workers[o], sbom, purl, id)
  {
    HeldGrows(s, s', w, st);
  }

  /** A row that stays with its owner, or is committed with it, stays asked for. */
  lemma RowStaysAsked(s: State, s': State, w: WorkerId, st: Statement,
                      before: Option<WorkerId>, after: Option<WorkerId>)
    requires WorkerStep(s, s', w, st) && |s.workers[w].held| <= |s.workers[w].jobs|
    requires after == (if st.DoCommit? && before == Some(w) then None else before)
    requires st.DoAbort? ==> before != Some(w)
    ensures forall cve :: CveAsked(s, VulnRow(cve, before)) ==> CveAsked(s', VulnRow(cve, after))
    ensures forall sbom, purl, id :: LinkAsked(s, LinkRow(sbom, purl, id, before)) ==>
        LinkAsked(s', LinkRow(sbom, purl, id, after))
  {
    forall o | BelongsTo(s, before, o)
      ensures BelongsTo(s', after, o)
      ensures forall cve :: AsksForCve(s.workers[o], cve) ==> AsksForCve(s'.workers[o], cve)
      ensures forall sbom, purl, id :: AsksForLink(s.workers[o], sbom, purl, id) ==>
          AsksForLink(s'.workers[o], sbom, purl, id)
    {
      AskedStays(s, s', w, st, o);
    }
  }

  /** Where the rows of a step come from: they were there, with this owner or committed by the step, or
      the step inserted them. */
  ghost predicate VulnFrom(s: State, s': State, w: WorkerId, st: Statement, id: VulnId)
    requires id in s'.vulns
  {
    if id in s.vulns then
      && s'.vulns[id].cve == s.vulns[id].cve
      && s'.vulns[id].owner == (if st.DoCommit? && s.vulns[id].owner == Some(w) then None else s.vulns[id].owner)
      && (st.DoAbort? ==> s.vulns[id].owner != Some(w))
    else
      && Busy(s, w) && s'.vulns[id] == VulnRow(Now(s, w).cve, Some(w))
      && w in s'.workers && s'.workers[w].jobs == s.workers[w].jobs
  }

  ghost predicate LinkFrom(s: State, s': State, w: WorkerId, st: Statement, r: RowId)
    requires r in s'.links
  {
    if r in s.links then
      && s'.links[r] == s.links[r].(owner := s'.links[r].owner)
      && s'.links[r].owner == (if st.DoCommit? && s.links[r].owner == Some(w) then None else s.links[r].owner)
      && (st.DoAbort? ==> s.links[r].owner != Some(w))
    else
      && Busy(s, w) && s.workers[w].phase.InsertLink?
      && s'.links[r] == LinkRow(s.workers[w].sbom, Now(s, w).purl, s.workers[w].phase.id, Some(w))
      && w in s'.workers
      && s'.workers[w] == s.workers[w].(held := s.workers[w].held + [s.workers[w].phase.id], phase := SelectVuln)
  }

  lemma VulnRowsFrom(s: State, s': State, w: WorkerId, st: Statement)
    requires WorkerStep(s, s', w, st)
    ensures forall id :: id in s'.vulns ==> VulnFrom(s, s', w, st, id)
    ensures forall id :: id in s.vulns && s.vulns[id].owner == None ==> id in s'.vulns
  {
  }

  lemma LinkRowsFrom(s: State, s': State, w: WorkerId, st: Statement)
    requires WorkerStep(s, s', w, st)
    ensures forall r :: r in s'.links ==> LinkFrom(s, s', w, st, r)
    ensures forall r :: r in s.links && s.links[r].owner == None ==> r in s'.links
  {
  }

  lemma VulnsKeepOrigin(s: State, s': State, w: WorkerId, st: Statement, id: VulnId)
    requires WorkerStep(s, s', w, st) && |s.workers[w].held| <= |s.workers[w].jobs|
    requires id in s'.vulns && VulnFrom(s, s', w, st, id)
    requires id in s.vulns ==> CveAsked(s, s.vulns[id])
    ensures CveAsked(s', s'.vulns[id])
  {
    if id in s.vulns {
      RowStaysAsked(s, s', w, st, s.vulns[id].owner, s'.vulns[id].owner);
    } else {
      assert s'.workers[w].jobs[|s.workers[w].held|] == Now(s, w);
      assert BelongsTo(s', Some(w), w) && AsksForCve(s'.workers[w], Now(s, w).cve);
    }
  }

  lemma LinksKeepOrigin(s: State, s': State, w: WorkerId, st: Statement, r: RowId)
    requires WorkerStep(s, s', w, st) && |s.workers[w].held| <= |s.workers[w].jobs| && LinksNamed(s)
    requires r in s'.links && LinkFrom(s, s', w, st, r)
    requires r in s.links ==> LinkAsked(s, s.links[r])
    ensures LinkAsked(s', s'.links[r])
  {
    if r in s.links {
      RowStaysAsked(s, s', w, st, s.links[r].owner, s'.links[r].owner);
    } else {
      var j := |s.workers[w].held|;
      assert s'.workers[w].jobs[j] == Now(s, w) && s'.workers[w].held[j] == s.workers[w].phase.id;
      assert BelongsTo(s', Some(w), w);
    }
  }

  lemma StepKeepsOrigin(s0: State, s: State, s': State, w: WorkerId, st: Statement)
    requires Init(s0) && Origin(s0, s) && LinksNamed(s)
    requires WorkerStep(s, s', w, st) && |s.workers[w].held| <= |s.workers[w].jobs|
    ensures Origin(s0, s')
  {
    VulnRowsFrom(s, s', w, st);
    LinkRowsFrom(s, s', w, st);
    FirstRowsStay(s0, s, s', w, st);
    forall id | id in s'.vulns && id !in s0.vulns
      ensures CveAsked(s', s'.vulns[id])
    {
      VulnsKeepOrigin(s, s', w, st, id);
    }
    forall r | r in s'.links && r !in s0.links
      ensures LinkAsked(s', s'.links[r])
    {
      LinksKeepOrigin(s, s', w, st, r);
    }
  }

  lemma FirstRowsStay(s0: State, s: State, s': State, w: WorkerId, st: Statement)
    requires Init(s0) && Origin(s0, s)
    requires forall id :: id in s'.vulns ==> VulnFrom(s, s', w, st, id)
    requires forall r :: r in s'.links ==> LinkFrom(s, s', w, st, r)
    requires forall id :: id in s.vulns && s.vulns[id].owner == None ==> id in s'.vulns
    requires forall r :: r in s.links && s.links[r].owner == None ==> r in s'.links
    ensures forall id :: id in s0.vulns ==> id in s'.vulns && s'.vulns[id] == s0.vulns[id]
    ensures forall r :: r in s0.links ==> r in s'.links && s'.links[r] == s0.links[r]
  {
  }

  lemma {:induction false} OriginAlways(run: seq<State>, who: seq<WorkerId>, what: seq<Statement>, i: nat)
    requires Behavior(run, who, what) && i < |run|
    ensures LinksNamed(run[i]) && Origin(run[0], run[i])
  {
    if i > 0 {
      OriginAlways(run, who, what, i - 1);
      InvAlways(run, who, what, i - 1);
      assert WorkerOk(run[i - 1], who[i - 1]);
      StepKeepsNamed(run[i - 1], run[i], who[i - 1], what[i - 1]);
      StepKeepsOrigin(run[0], run[i - 1], run[i], who[i - 1], what[i - 1]);
    }
  }

  ghost predicate StoresCve(s: State, cve: CveId) {
    exists id :: id in s.vulns && s.vulns[id] == VulnRow(cve, None)
  }

  ghost predicate StoresLink(s: State, sbom: SbomId, purl: Purl, vuln: VulnId) {
    exists r :: r in s.links && s.links[r] == LinkRow(sbom, purl, vuln, None)
  }

  /** What committed scans asked for. */
  ghost predicate CommittedCve(s: State, cve: CveId) {
    exists w :: w in s.workers && s.workers[w].phase == Committed && AsksForCve(s.workers[w], cve)
  }

  ghost predicate CommittedLink(s: State, sbom: SbomId, purl: Purl, vuln: VulnId) {
    exists w :: w in s.workers && s.workers[w].phase == Committed && AsksForLink(s.workers[w], sbom, purl, vuln)
  }

  /** What is stored, exactly: a CVE has a committed row if and only if it had one at first or a
      committed scan asked for it, and likewise for links. So a scan that aborted has left nothing. */
  lemma StoredExactly(run: seq<State>, who: seq<WorkerId>, what: seq<Statement>, i: nat)
    requires Behavior(run, who, what) && i < |run|
    ensures forall cve :: StoresCve(run[i], cve) <==> StoresCve(run[0], cve) || CommittedCve(run[i], cve)
    ensures forall sbom, purl, id ::
              StoresLink(run[i], sbom, purl, id) <==>
                  StoresLink(run[0], sbom, purl, id) || CommittedLink(run[i], sbom, purl, id)
    ensures forall w :: w in run[i].workers && run[i].workers[w].phase == Aborted ==>
              && (forall id :: id in run[i].vulns ==> run[i].vulns[id].owner != Some(w))
              && (forall r :: r in run[i].links ==> run[i].links[r].owner != Some(w))
  {
    OriginAlways(run, who, what, i);
    InvAlways(run, who, what, i);
    forall cve {
      CveStoredExactly(run, who, what, i, cve);
    }
    forall sbom, purl, id {
      LinkStoredExactly(run, who, what, i, sbom, purl, id);
    }
  }

  lemma CveStoredExactly(run: seq<State>, who: seq<WorkerId>, what: seq<Statement>, i: nat, cve: CveId)
    requires Behavior(run, who, what) && i < |run| && Origin(run[0], run[i])
    ensures StoresCve(run[i], cve) <==> StoresCve(run[0], cve) || CommittedCve(run[i], cve)
  {
    var s := run[i];
    if StoresCve(s, cve) {
      var id :| id in s.vulns && s.vulns[id] == VulnRow(cve, None);
      if id !in run[0].vulns {
        assert CveAsked(s, s.vulns[id]);
      }
    }
    if CommittedCve(s, cve) {
      var w :| w in s.workers && s.workers[w].phase == Committed && AsksForCve(s.workers[w], cve);
      var j :| 0 <= j < |s.workers[w].jobs| && s.workers[w].jobs[j].cve == cve;
      CommittedScanIsStored(run, who, what, i, w, j);
    }
  }

  lemma LinkStoredExactly(run: seq<State>, who: seq<WorkerId>, what: seq<Statement>, i: nat, sbom: SbomId, purl: Purl,
                          id: VulnId)
    requires Behavior(run, who, what) && i < |run| && Origin(run[0], run[i])
    ensures StoresLink(run[i], sbom, purl, id) <==>
        StoresLink(run[0], sbom, purl, id) || CommittedLink(run[i], sbom, purl, id)
  {
    var s := run[i];
    if StoresLink(s, sbom, purl, id) {
      var r :| r in s.links && s.links[r] == LinkRow(sbom, purl, id, None);
      if r !in run[0].links {
        assert LinkAsked(s, s.links[r]);
      }
    }
    if CommittedLink(s, sbom, purl, id) {
      var w :| w in s.workers && s.workers[w].phase == Committed && AsksForLink(s.workers[w], sbom, purl, id);
      var worker := s.workers[w];
      var j :| 0 <= j < |worker.held| && j < |worker.jobs| && worker.held[j] == id && worker.jobs[j].purl == purl;
      CommittedScanIsStored(run, who, what, i, w, j);
    }
  }

  /* ----- progress ----- */

  /** An insert of the scan waits for a row of another open transaction. */
  ghost predicate Waits(s: State, w: WorkerId) {
    && Busy(s, w)
    && match s.workers[w].phase
       case InsertVuln =>
         exists id :: id in s.vulns && s.vulns[id].cve == Now(s, w).cve && HeldByOther(s, s.vulns[id].owner, w)
       case InsertLink(v) =>
         exists r :: r in s.links && SameLink(s.links[r], s.workers[w].sbom, Now(s, w).purl, v)
                     && HeldByOther(s, s.links[r].owner, w)
       case _ => false
  }

  predicate HeldByOther(s: State, owner: Option<WorkerId>, w: WorkerId) {
    owner.Some? && owner.value != w && owner.value in s.workers && Running(s.workers[owner.value])
  }

  /** The scan can take a step other than an abort. */
  ghost predicate CanGoOn(s: State, w: WorkerId) {
    exists s', st :: WorkerStep(s, s', w, st) && !st.DoAbort?
  }

  /** In every interleaving a running scan can go on, unless its insert waits for another open
      transaction. */
  lemma NeverStuck(run: seq<State>, who: seq<WorkerId>, what: seq<Statement>, i: nat, w: WorkerId)
    requires Behavior(run, who, what) && i < |run|
    requires w in run[i].workers && Running(run[i].workers[w])
    ensures CanGoOn(run[i], w) || Waits(run[i], w)
  {
    InvAlways(run, who, what, i);
    GoesOn(run[i], w);
  }

  lemma GoesOn(s: State, w: WorkerId)
    requires Inv(s) && w in s.workers && Running(s.workers[w])
    ensures CanGoOn(s, w) || Waits(s, w)
  {
    assert WorkerOk(s, w);
    if |s.workers[w].held| == |s.workers[w].jobs| {
      var vulns := map id | id in s.vulns ::
        if s.vulns[id].owner == Some(w) then s.vulns[id].(owner := None) else s.vulns[id];
      var links := map r | r in s.links ::
        if s.links[r].owner == Some(w) then s.links[r].(owner := None) else s.links[r];
      var s' := AtPhase(s.(vulns := vulns, links := links), w, Committed);
      assert WorkerStep(s, s', w, DoCommit);
    } else {
      match s.workers[w].phase
      case SelectVuln => SelectVulnGoesOn(s, w);
      case InsertVuln => InsertVulnGoesOn(s, w);
      case ReselectVuln =>
        var id :| SeesVuln(s, w, id, Now(s, w).cve);
        assert WorkerStep(s, AtPhase(s, w, SelectLink(id)), w, DoReselectVuln);
      case SelectLink(id) =>
        var s' := if Now(s, w).purl == "" || exists row :: SeesLink(s, w, row, Now(s, w).purl, id)
                  then Advance(s, w, id) else AtPhase(s, w, InsertLink(id));
        assert WorkerStep(s, s', w, DoSelectLink);
      case InsertLink(id) => InsertLinkGoesOn(s, w, id);
    }
  }

  lemma SelectVulnGoesOn(s: State, w: WorkerId)
    requires Busy(s, w) && s.workers[w].phase == SelectVuln
    ensures CanGoOn(s, w)
  {
    if id :| SeesVuln(s, w, id, Now(s, w).cve) {
      assert WorkerStep(s, AtPhase(s, w, SelectLink(id)), w, DoSelectVuln);
    } else {
      assert WorkerStep(s, AtPhase(s, w, InsertVuln), w, DoSelectVuln);
    }
  }

  lemma InsertVulnGoesOn(s: State, w: WorkerId)
    requires OwnersRun(s) && Busy(s, w) && s.workers[w].phase == InsertVuln
    ensures CanGoOn(s, w) || Waits(s, w)
  {
    if !Waits(s, w) {
      var newId := FreshId(s.vulns.Keys);
      var s' := if exists id :: id in s.vulns && s.vulns[id].cve == Now(s, w).cve
                then AtPhase(s, w, ReselectVuln)
                else AtPhase(s.(vulns := s.vulns[newId := VulnRow(Now(s, w).cve, Some(w))]), w, SelectLink(newId));
      assert WorkerStep(s, s', w, DoInsertVuln(newId));
    }
  }

  lemma InsertLinkGoesOn(s: State, w: WorkerId, v: VulnId)
    requires OwnersRun(s) && Busy(s, w) && s.workers[w].phase == InsertLink(v)
    ensures CanGoOn(s, w) || Waits(s, w)
  {
    if !Waits(s, w) {
      var row := FreshId(s.links.Keys);
      var worker := s.workers[w];
      var s' := if exists r :: r in s.links && SameLink(s.links[r], worker.sbom, Now(s, w).purl, v)
                then Advance(s, w, v)
                else Advance(s.(links := s.links[row := LinkRow(worker.sbom, Now(s, w).purl, v, Some(w))]), w, v);
      assert WorkerStep(s, s', w, DoInsertLink(row));
    }
  }

  /** The statements a scan has left at most: five for each match, and the commit. */
  function Left(w: Worker): nat
    requires |w.held| <= |w.jobs|
  {
    if !Running(w) then 0
    else
      1 + 5 * (|w.jobs| - |w.held|) + match w.phase
                                     case SelectVuln => 4
                                     case InsertVuln => 3
                                     case ReselectVuln => 2
                                     case SelectLink(_) => 1
                                     case _ => 0
  }

  /** Every statement of a scan brings it nearer to its end, and no statement of another scan takes it
      back: so no scan repeats itself for ever. */
  lemma StepShrinks(s: State, s': State, w: WorkerId, st: Statement)
    requires WorkerStep(s, s', w, st) && |s.workers[w].held| <= |s.workers[w].jobs|
    ensures |s'.workers[w].held| <= |s'.workers[w].jobs| && Left(s'.workers[w]) < Left(s.workers[w])
    ensures forall o :: o in s.workers && o != w ==> o in s'.workers && s'.workers[o] == s.workers[o]
  {
    HeldGrows(s, s', w, st);
  }
}
