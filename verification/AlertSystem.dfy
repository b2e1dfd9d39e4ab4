/** Check runs against the store: what a run reads from findings and acceptances, and what a whole
    sequence of runs, with any changes to the store and to the rules in between, has done. */
module AlertSystem {
  import opened Store
  import opened AlertEpisodes
  import opened AlertRun
  import Retention
  import Acceptances
  import Scanning
  import Lifecycle

  /* ----- the open state ----- */

  function ServicePairs(findings: set<Finding>): set<(ProjectId, CveId)> {
    set f | f in findings && f.service.Some? :: (f.project, f.cve)
  }

  function ServicesFor(findings: set<Finding>, p: (ProjectId, CveId)): set<ServiceId> {
    set f | f in findings && (f.project, f.cve) == p && f.service.Some? :: f.service.value
  }

  /** The open pairs, and for each the distinct services it is open in; a finding without a
      service opens its pair but names no service. */
  function OpenStateOf(findings: set<Finding>): OpenState {
    OpenState(set f | f in findings :: (f.project, f.cve),
              map p | p in ServicePairs(findings) :: ServicesFor(findings, p))
  }

  function SetOf(rows: seq<Finding>): set<Finding> {
    set r | r in rows
  }

  /** The loop over the joined rows: one per open link, so findings repeat, in any order. */
  method OpenVulnerabilities(rows: seq<Finding>) returns (open: OpenState)
    ensures open == OpenStateOf(SetOf(rows))
  {
    var pairs: set<(ProjectId, CveId)> := {};
    var services: map<(ProjectId, CveId), set<ServiceId>> := map[];
    assert OpenStateOf(SetOf(rows[..0])) == OpenState({}, map[]);
    for i := 0 to |rows|
      invariant OpenState(pairs, services) == OpenStateOf(SetOf(rows[..i]))
    {
      var f := rows[i];
      var p := (f.project, f.cve);
      RowsGrow(rows, i);
      OneMoreFinding(SetOf(rows[..i]), f);
      pairs := pairs + {p};
      if f.service.Some? {
        services := services[p := (if p in services then services[p] else {}) + {f.service.value}];
      }
    }
    assert rows[..|rows|] == rows;
    open := OpenState(pairs, services);
  }

  lemma RowsGrow(rows: seq<Finding>, i: nat)
    requires i < |rows|
    ensures SetOf(rows[..i + 1]) == SetOf(rows[..i]) + {rows[i]}
  {
  }

  lemma OneMoreFinding(findings: set<Finding>, f: Finding)
    ensures var open, p := OpenStateOf(findings), (f.project, f.cve);
            OpenStateOf(findings + {f}) ==
              OpenState(open.pairs + {p},
                        if f.service.None? then open.services
                        else
                          var before := if p in open.services then open.services[p] else {};
                          open.services[p := before + {f.service.value}])
  {
    var more, p := findings + {f}, (f.project, f.cve);
    assert (set g | g in more :: (g.project, g.cve)) == (set g | g in findings :: (g.project, g.cve)) + {p};
    if f.service.None? {
      assert ServicePairs(more) == ServicePairs(findings);
      assert forall q :: ServicesFor(more, q) == ServicesFor(findings, q);
    } else {
      assert ServicePairs(more) == ServicePairs(findings) + {p};
      assert ServicesFor(more, p) == ServicesFor(findings, p) + {f.service.value};
      assert forall q :: q != p ==> ServicesFor(more, q) == ServicesFor(findings, q);
      assert p !in ServicePairs(findings) ==> ServicesFor(findings, p) == {};
    }
  }

  /** What a check run reads from the store. */
  function InputsOf(db: Db, rules: seq<Rule>, outcomes: Key -> bool): Inputs {
    Inputs(rules, OpenStateOf(ActionableFindings(db)), map c | c in db.vulns :: db.vulns[c].severity, outcomes)
  }

  /** One check task: read the open state off the joined rows, then run the rules over the shared
      notification table. */
  method CheckAlerts(db: Db, rows: seq<Finding>, rules: seq<Rule>, outcomes: Key -> bool, table: NotificationTable)
    returns (sent: seq<Key>)
    requires table.Valid() && DistinctRules(rules)
    requires SetOf(rows) == ActionableFindings(db)
    modifies table, table.Repr()
    ensures table.Valid()
    ensures table.Pairs() == Run(old(table.Pairs()), InputsOf(db, rules, outcomes))
    ensures SentExactly(sent, old(table.Pairs()), InputsOf(db, rules, outcomes))
  {
    var open := OpenVulnerabilities(rows);
    sent := table.DoCheckAlerts(Inputs(rules, open, map c | c in db.vulns :: db.vulns[c].severity, outcomes));
  }

  /* ----- sequences of runs ----- */

  ghost predicate Legal(inputs: seq<Inputs>) {
    forall i :: 0 <= i < |inputs| ==> DistinctRules(inputs[i].rules)
  }

  function NoRows(k: Key): seq<Row> { [] }

  /** The rows of every pair after a sequence of runs, from an empty table. */
  ghost function Runs(inputs: seq<Inputs>): (pairs: imap<Key, seq<Row>>)
    requires Legal(inputs)
    ensures forall k :: k in pairs
  {
    if inputs == [] then imap k: Key | true :: NoRows(k)
    else Run(Runs(inputs[..|inputs| - 1]), inputs[|inputs| - 1])
  }

  /** What the runs saw of one pair. */
  ghost function ViewsOf(inputs: seq<Inputs>, k: Key): (views: seq<View>)
    requires Legal(inputs)
    ensures |views| == |inputs| && forall i :: 0 <= i < |inputs| ==> views[i] == ViewOf(inputs[i], k)
  {
    seq(|inputs|, i requires 0 <= i < |inputs| => ViewOf(inputs[i], k))
  }

  /** The shared table is one episode automaton per pair, each fed what the runs saw of it. */
  lemma {:induction false} TableIsEpisodes(inputs: seq<Inputs>, k: Key)
    requires Legal(inputs)
    ensures Runs(inputs)[k] == After(ViewsOf(inputs, k))
  {
    if inputs != [] {
      var init := inputs[..|inputs| - 1];
      TableIsEpisodes(init, k);
      assert ViewsOf(inputs, k)[..|inputs| - 1] == ViewsOf(init, k);
    }
  }

  /** After any sequence of runs the active rows agree with the open state of the last one, for
      every rule it found enabled and every vulnerability. */
  lemma RunAgreesWithInputs(inputs: seq<Inputs>, last: Inputs, rule: Rule, cve: CveId)
    requires Legal(inputs) && DistinctRules(last.rules) && rule in last.rules
    ensures Legal(inputs + [last])
    ensures var k := Key(rule.id, cve);
            var rows, before := Runs(inputs + [last])[k], Runs(inputs)[k];
            if (rule.project, cve) !in last.open.pairs then ActiveRows(rows) == []
            else if SeverityRank(RatingOf(last, cve)) <= ThresholdRank(rule.threshold) then
              |ActiveRows(rows)| == 1 && ActiveRows(rows)[0].services == ServicesOf(last.open, rule.project, cve)
            else rows == before
  {
    var k := Key(rule.id, cve);
    var all := inputs + [last];
    assert Legal(all);
    TableIsEpisodes(inputs, k);
    TableIsEpisodes(all, k);
    assert ViewsOf(all, k) == ViewsOf(inputs, k) + [ViewOf(last, k)];
    assert ViewOf(last, k) == RuleView(last, rule, cve);
    RunAgrees(ViewsOf(inputs, k), ViewOf(last, k));
  }

  /** The services a run reads for a pair are those of its actionable links. */
  lemma ServicesRead(db: Db, rules: seq<Rule>, outcomes: Key -> bool, p: ProjectId, c: CveId)
    ensures ServicesOf(InputsOf(db, rules, outcomes).open, p, c) == OpenServices(db, p, c)
  {
    var findings := ActionableFindings(db);
    assert ServicesOf(OpenStateOf(findings), p, c) == ServicesFor(findings, (p, c)) by {
      if (p, c) !in ServicePairs(findings) {
        assert ServicesFor(findings, (p, c)) == {};
      }
    }
    forall v | v in ServicesFor(findings, (p, c))
      ensures v in OpenServices(db, p, c)
    {
      var f :| f in findings && (f.project, f.cve) == (p, c) && f.service == Some(v);
      var k :| k in Actionable(db) && FindingOf(db, k) == f;
    }
    forall v | v in OpenServices(db, p, c)
      ensures v in ServicesFor(findings, (p, c))
    {
      var k :| k in Actionable(db) && k.cve == c
               && db.sboms[k.sbom].project == p && db.sboms[k.sbom].service == Some(v);
      assert FindingOf(db, k) in findings;
    }
  }

  function OpenServices(db: Db, p: ProjectId, c: CveId): set<ServiceId> {
    set k | k in Actionable(db) && k.cve == c && db.sboms[k.sbom].project == p && db.sboms[k.sbom].service.Some?
      :: db.sboms[k.sbom].service.value
  }

  /** After any sequence of runs that ends with a check of this store, for every enabled rule and every
      vulnerability: no active row when nothing is actionable in the rule's project; one, for exactly the
      services it is actionable in, when its severity reaches the threshold; and the rows as before
      when it does not. */
  lemma ActiveRowsAgree(inputs: seq<Inputs>, db: Db, rules: seq<Rule>, outcomes: Key -> bool, rule: Rule, cve: CveId)
    requires Legal(inputs) && DistinctRules(rules) && rule in rules
    ensures Legal(inputs + [InputsOf(db, rules, outcomes)])
    ensures var k := Key(rule.id, cve);
            var rows, before := Runs(inputs + [InputsOf(db, rules, outcomes)])[k], Runs(inputs)[k];
            if forall l :: l in Actionable(db) && l.cve == cve ==> db.sboms[l.sbom].project != rule.project then
              ActiveRows(rows) == []
            else if cve in db.vulns && db.vulns[cve].severity in AtLeast(rule.threshold) then
              && |ActiveRows(rows)| == 1
              && ActiveRows(rows)[0].services ==
                   set l | l in Actionable(db) && l.cve == cve && db.sboms[l.sbom].project == rule.project
                           && db.sboms[l.sbom].service.Some? :: db.sboms[l.sbom].service.value
            else rows == before
  {
    var last := InputsOf(db, rules, outcomes);
    RunAgreesWithInputs(inputs, last, rule, cve);
    OpenPairs(db, (rule.project, cve));
    ServicesRead(db, rules, outcomes, rule.project, cve);
    ThresholdMeaning(RatingOf(last, cve), rule.threshold);
  }

  /** A pair in the log of such a check has, after it, one active row for those services, through the
      channel of the rule, sent or failed as the delivery went. */
  lemma DeliveryIsRecorded(inputs: seq<Inputs>, db: Db, rules: seq<Rule>, outcomes: Key -> bool, sent: seq<Key>,
                           rule: Rule, cve: CveId)
    requires Legal(inputs) && DistinctRules(rules) && rule in rules && Key(rule.id, cve) in sent
    requires SentExactly(sent, Runs(inputs), InputsOf(db, rules, outcomes))
    ensures Legal(inputs + [InputsOf(db, rules, outcomes)])
    ensures var active := ActiveRows(Runs(inputs + [InputsOf(db, rules, outcomes)])[Key(rule.id, cve)]);
            && |active| == 1 && active[0].channel == rule.channel
            && active[0].services == OpenServices(db, rule.project, cve)
            && (if outcomes(Key(rule.id, cve)) then active[0].status == Sent && active[0].attempts == 0
                else active[0].status == NotSent && 1 <= active[0].attempts <= 5)
  {
    var k, last := Key(rule.id, cve), InputsOf(db, rules, outcomes);
    var all := inputs + [last];
    assert Legal(all);
    SentIffUnsettled(inputs, last, sent, k);
    TableIsEpisodes(all, k);
    assert ViewsOf(all, k) == ViewsOf(inputs, k) + [ViewOf(last, k)];
    assert ViewOf(last, k) == RuleView(last, rule, cve);
    DeliveredRow(ViewsOf(inputs, k), ViewOf(last, k));
    ServicesRead(db, rules, outcomes, rule.project, cve);
  }

  /** `logs` are the deliveries each run made, run by run. */
  ghost predicate Logs(logs: seq<seq<Key>>, inputs: seq<Inputs>)
    requires Legal(inputs)
  {
    && |logs| == |inputs|
    && (inputs != [] ==>
          && Logs(logs[..|logs| - 1], inputs[..|inputs| - 1])
          && SentExactly(logs[|logs| - 1], Runs(inputs[..|inputs| - 1]), inputs[|inputs| - 1]))
  }

  lemma BeforeRuns(table: NotificationTable, inputs: seq<Inputs>)
    requires Legal(inputs) && table.rows == []
    ensures table.Pairs() == Runs(inputs[..0]) && Logs([], inputs[..0])
  {
    assert inputs[..0] == [];
    assert forall k :: table.RowsOf(k) == [] == NoRows(k);
  }

  /** Check runs one after the other over one table of notification objects that starts empty. */
  method RunChecks(inputs: seq<Inputs>) returns (table: NotificationTable, logs: seq<seq<Key>>)
    requires Legal(inputs)
    ensures fresh(table) && table.Valid()
    ensures table.Pairs() == Runs(inputs) && Logs(logs, inputs)
  {
    table := new NotificationTable();
    logs := [];
    BeforeRuns(table, inputs);
    for i := 0 to |inputs|
      invariant fresh(table) && fresh(table.Repr()) && table.Valid()
      invariant table.Pairs() == Runs(inputs[..i]) && Logs(logs, inputs[..i])
    {
      logs := RunNext(table, inputs, i, logs);
    }
    assert inputs[..|inputs|] == inputs;
  }

  /** One of them. */
  method RunNext(table: NotificationTable, inputs: seq<Inputs>, i: nat, logs: seq<seq<Key>>)
    returns (more: seq<seq<Key>>)
    requires table.Valid() && Legal(inputs) && i < |inputs|
    requires table.Pairs() == Runs(inputs[..i]) && Logs(logs, inputs[..i])
    modifies table, table.Repr()
    ensures table.Valid() && fresh(table.Repr() - old(table.Repr()))
    ensures table.Pairs() == Runs(inputs[..i + 1]) && Logs(more, inputs[..i + 1])
  {
    var sent := table.DoCheckAlerts(inputs[i]);
    OneMoreTurn(logs, inputs, i, sent);
    more := logs + [sent];
  }

  lemma OneMoreRun(inputs: seq<Inputs>, last: Inputs)
    requires Legal(inputs) && DistinctRules(last.rules)
    ensures Legal(inputs + [last]) && Runs(inputs + [last]) == Run(Runs(inputs), last)
  {
    assert (inputs + [last])[..|inputs|] == inputs;
  }

  lemma OneMoreLog(logs: seq<seq<Key>>, inputs: seq<Inputs>, sent: seq<Key>, last: Inputs)
    requires Legal(inputs) && DistinctRules(last.rules) && Legal(inputs + [last])
    requires Logs(logs, inputs) && SentExactly(sent, Runs(inputs), last)
    ensures Logs(logs + [sent], inputs + [last])
  {
    assert (inputs + [last])[..|inputs|] == inputs && (logs + [sent])[..|logs|] == logs;
  }

  lemma OneMoreTurn(logs: seq<seq<Key>>, inputs: seq<Inputs>, i: nat, sent: seq<Key>)
    requires Legal(inputs) && i < |inputs|
    requires Logs(logs, inputs[..i]) && SentExactly(sent, Runs(inputs[..i]), inputs[i])
    ensures Logs(logs + [sent], inputs[..i + 1])
    ensures Runs(inputs[..i + 1]) == Run(Runs(inputs[..i]), inputs[i])
  {
    var before, last := inputs[..i], inputs[i];
    assert inputs[..i + 1] == before + [last];
    OneMoreRun(before, last);
    OneMoreLog(logs, before, sent, last);
  }

  function TimesSent(logs: seq<seq<Key>>, k: Key): nat {
    if logs == [] then 0 else TimesSent(logs[..|logs| - 1], k) + if k in logs[|logs| - 1] then 1 else 0
  }

  lemma {:induction false} LogsCountSends(logs: seq<seq<Key>>, inputs: seq<Inputs>, k: Key)
    requires Legal(inputs) && Logs(logs, inputs)
    ensures TimesSent(logs, k) == Sends(ViewsOf(inputs, k))
  {
    if inputs != [] {
      var n := |inputs| - 1;
      LogsCountSends(logs[..n], inputs[..n], k);
      TableIsEpisodes(inputs[..n], k);
      LastView(inputs, k);
    }
  }

  lemma LastView(inputs: seq<Inputs>, k: Key)
    requires Legal(inputs) && inputs != []
    ensures Legal(inputs[..|inputs| - 1])
    ensures ViewsOf(inputs, k)[..|inputs| - 1] == ViewsOf(inputs[..|inputs| - 1], k)
    ensures ViewsOf(inputs, k)[|inputs| - 1] == ViewOf(inputs[|inputs| - 1], k)
  {
  }

  /** Over any sequence of runs, whatever happens to the store and to the rules in between, a pair
      is sent at most five times for each stretch it was open in with one set of services. */
  lemma SendsAreBounded(logs: seq<seq<Key>>, inputs: seq<Inputs>, k: Key)
    requires Legal(inputs) && Logs(logs, inputs)
    ensures TimesSent(logs, k) <= 5 * Begun(ViewsOf(inputs, k))
  {
    LogsCountSends(logs, inputs, k);
    DeliveryBudget(ViewsOf(inputs, k));
  }

  /** A run delivers for a pair exactly when the history of that pair says so. */
  lemma SentIffUnsettled(inputs: seq<Inputs>, last: Inputs, sent: seq<Key>, k: Key)
    requires Legal(inputs) && DistinctRules(last.rules)
    requires SentExactly(sent, Runs(inputs), last)
    ensures k in sent <==> ShouldDeliver(Current(ViewsOf(inputs, k)), ViewOf(last, k))
  {
    TableIsEpisodes(inputs, k);
    var views := ViewsOf(inputs, k) + [ViewOf(last, k)];
    assert views[..|inputs|] == ViewsOf(inputs, k);
    DeliveryIffUnsettled(views, |inputs|);
  }

  /** Two tables with the same rows for every pair hold the same rows altogether: the order in
      which runs visit pairs shows only in how rows of different pairs interleave. */
  lemma SamePairsSameTable(a: NotificationTable, b: NotificationTable)
    requires a.Pairs() == b.Pairs()
    ensures multiset(a.Table()) == multiset(b.Table())
  {
    forall t ensures multiset(a.Table())[t] == multiset(b.Table())[t] {
      CountOfKey(a.rows, t);
      CountOfKey(b.rows, t);
      assert a.RowsOf(t.key) == a.Pairs()[t.key] == b.RowsOf(t.key);
    }
  }

  lemma {:induction false} CountOfKey(ns: seq<Notification>, t: Tagged)
    ensures multiset(TaggedValues(ns))[t] == multiset(Values(Of(ns, t.key)))[t.row]
  {
    if ns != [] {
      var init, n := ns[..|ns| - 1], ns[|ns| - 1];
      CountOfKey(init, t);
      assert TaggedValues(ns) == TaggedValues(init) + [Tagged(Key(n.rule, n.cve), n.Value())];
      if Key(n.rule, n.cve) == t.key {
        assert Of(ns, t.key) == Of(init, t.key) + [n];
        assert Values(Of(ns, t.key)) == Values(Of(init, t.key)) + [n.Value()];
      }
    }
  }

  /* ----- the store and the alerts together ----- */

  /** A prune of a reconciled store is invisible to alerting: the next run reads the same inputs. */
  lemma PruneIsInvisible(db: Db, cutoff: Option<Time>, rules: seq<Rule>, outcomes: Key -> bool)
    requires Retention.NoDangling(db) && Reconciled(db.sboms, db.links)
    ensures InputsOf(Retention.PruneSboms(db, cutoff), rules, outcomes) == InputsOf(db, rules, outcomes)
  {
    if cutoff.Some? {
      Retention.PruneIsTransparent(db, cutoff.value);
    }
  }

  /** Finding `g` opens the pair of `f`, and in the service of `f` when it has one. */
  predicate Shows(g: Finding, f: Finding) {
    g.project == f.project && g.cve == f.cve && (f.service.None? || g.service == f.service)
  }

  ghost predicate ShownBy(fewer: set<Finding>, f: Finding) {
    exists g :: g in fewer && Shows(g, f)
  }

  lemma ShownWhenSame(fewer: set<Finding>, findings: set<Finding>, f: Finding)
    requires OpenStateOf(fewer) == OpenStateOf(findings) && f in findings
    ensures ShownBy(fewer, f)
  {
    var p := (f.project, f.cve);
    assert p in OpenStateOf(fewer).pairs;
    var g :| g in fewer && (g.project, g.cve) == p;
    if f.service.Some? {
      assert f.service.value in OpenStateOf(findings).services[p];
      assert f.service.value in ServicesFor(fewer, p);
    } else {
      assert Shows(g, f);
    }
  }

  lemma SameWhenShown(fewer: set<Finding>, findings: set<Finding>)
    requires fewer <= findings && forall f :: f in findings ==> ShownBy(fewer, f)
    ensures OpenStateOf(fewer) == OpenStateOf(findings)
  {
    assert OpenStateOf(fewer).pairs == OpenStateOf(findings).pairs;
    assert ServicePairs(fewer) == ServicePairs(findings);
    forall p ensures ServicesFor(fewer, p) == ServicesFor(findings, p) {
      forall v | v in ServicesFor(findings, p)
        ensures v in ServicesFor(fewer, p)
      {
        var f :| f in findings && (f.project, f.cve) == p && f.service == Some(v);
        assert ShownBy(fewer, f);
      }
    }
  }

  /** Some actionable link on an SBOM the prune keeps opens the pair of `k`, in its service if any. */
  ghost predicate StillShown(db: Db, cutoff: Time, k: LinkKey)
    requires k.sbom in db.sboms
  {
    exists o :: o in Actionable(db) && o.sbom !in Retention.Target(db.sboms, cutoff)
        && Shows(FindingOf(db, o), FindingOf(db, k))
  }

  /** Exactly when a prune is invisible to the next check, reconciled store or not. */
  lemma PruneIsInvisibleIff(db: Db, cutoff: Time, rules: seq<Rule>, outcomes: Key -> bool)
    requires Retention.NoDangling(db)
    ensures InputsOf(Retention.PruneSboms(db, Some(cutoff)), rules, outcomes) == InputsOf(db, rules, outcomes)
            <==> forall k :: k in Actionable(db) && k.sbom in Retention.Target(db.sboms, cutoff) ==>
                   StillShown(db, cutoff, k)
  {
    var after := Retention.PruneSboms(db, Some(cutoff));
    Retention.NothingDangles(db, cutoff);
    Retention.KeptFindings(db, after);
    forall k | k in Actionable(db) {
      PairShownAfter(db, after, cutoff, k);
    }
    ShownLinkByLink(db, ActionableFindings(after));
    SameIffShown(ActionableFindings(after), ActionableFindings(db));
  }

  lemma SameIffShown(fewer: set<Finding>, findings: set<Finding>)
    requires fewer <= findings
    ensures OpenStateOf(fewer) == OpenStateOf(findings) <==> forall f :: f in findings ==> ShownBy(fewer, f)
  {
    if OpenStateOf(fewer) == OpenStateOf(findings) {
      forall f | f in findings {
        ShownWhenSame(fewer, findings, f);
      }
    } else if forall f :: f in findings ==> ShownBy(fewer, f) {
      SameWhenShown(fewer, findings);
    }
  }

  lemma ShownLinkByLink(db: Db, fewer: set<Finding>)
    ensures (forall f :: f in ActionableFindings(db) ==> ShownBy(fewer, f))
            <==> (forall k :: k in Actionable(db) ==> ShownBy(fewer, FindingOf(db, k)))
  {
    assert forall k :: k in Actionable(db) ==> FindingOf(db, k) in ActionableFindings(db);
  }

  lemma PairShownAfter(db: Db, after: Db, cutoff: Time, k: LinkKey)
    requires k in Actionable(db) && after.sboms == db.sboms - Retention.Target(db.sboms, cutoff)
    requires forall o :: o in Actionable(after) <==>
        o in Actionable(db) && o.sbom !in Retention.Target(db.sboms, cutoff)
    ensures ShownBy(ActionableFindings(after), FindingOf(db, k))
            <==> k.sbom !in Retention.Target(db.sboms, cutoff) || StillShown(db, cutoff, k)
  {
    if ShownBy(ActionableFindings(after), FindingOf(db, k)) {
      var g :| g in ActionableFindings(after) && Shows(g, FindingOf(db, k));
      var o :| o in Actionable(after) && FindingOf(after, o) == g;
      assert FindingOf(db, o) == g;
    }
    if StillShown(db, cutoff, k) {
      var o :| o in Actionable(db) && o.sbom !in Retention.Target(db.sboms, cutoff)
               && Shows(FindingOf(db, o), FindingOf(db, k));
      assert FindingOf(after, o) in ActionableFindings(after);
    }
    if k.sbom !in Retention.Target(db.sboms, cutoff) {
      assert FindingOf(after, k) in ActionableFindings(after);
    }
  }

  lemma {:induction false} ScansStayConsistent(db: Db, tasks: seq<Scanning.Task>)
    requires Lifecycle.Consistent(db)
    ensures Lifecycle.Consistent(Scanning.RunScans(db, tasks))
  {
    if tasks != [] {
      var t := tasks[|tasks| - 1];
      ScansStayConsistent(db, tasks[..|tasks| - 1]);
      Lifecycle.ScanConsistent(Scanning.RunScans(db, tasks[..|tasks| - 1]), t.sbom, t.outcome, t.retireAt,
          t.reconcileAt);
    }
  }

  /** After a full rescan round, in whatever order its scans ran, pruning is invisible to alerting,
      unless something was open on an SBOM tied with the latest of its scope. */
  lemma RescanThenPrune(db: Db, tasks: seq<Scanning.Task>, cutoff: Option<Time>, rules: seq<Rule>,
                        outcomes: Key -> bool)
    requires Lifecycle.Consistent(db) && Scanning.FullRound(db.sboms, tasks) && Scanning.TiesIdle(db.sboms, db.links)
    ensures var scanned := Scanning.RunScans(db, tasks);
            InputsOf(Retention.PruneSboms(scanned, cutoff), rules, outcomes) == InputsOf(scanned, rules, outcomes)
  {
    ScansStayConsistent(db, tasks);
    Scanning.ScansKeepSboms(db, tasks);
    Scanning.RescanReconciles(db, tasks);
    PruneIsInvisible(Scanning.RunScans(db, tasks), cutoff, rules, outcomes);
  }

  lemma OpenPairs(db: Db, p: (ProjectId, CveId))
    ensures p in OpenStateOf(ActionableFindings(db)).pairs
            <==> exists k :: k in Actionable(db) && db.sboms[k.sbom].project == p.0 && k.cve == p.1
  {
    if p in OpenStateOf(ActionableFindings(db)).pairs {
      var f :| f in ActionableFindings(db) && (f.project, f.cve) == p;
      var k :| k in Actionable(db) && FindingOf(db, k) == f;
    }
    if exists k :: k in Actionable(db) && db.sboms[k.sbom].project == p.0 && k.cve == p.1 {
      var k :| k in Actionable(db) && db.sboms[k.sbom].project == p.0 && k.cve == p.1;
      assert FindingOf(db, k) in ActionableFindings(db);
    }
  }

  /** Accepting a vulnerability for a whole project closes its pair for every rule of the project. */
  lemma AcceptedPairCloses(db: Db, r: Acceptances.Request, id: AcceptanceId, now: Time)
    requires r.service.None? && id !in db.acceptances && Acceptances.Check(db, r).None?
    ensures (r.project, r.cve) in OpenStateOf(ActionableFindings(db)).pairs
    ensures (r.project, r.cve) !in OpenStateOf(ActionableFindings(Acceptances.Accept(db, r, id, now))).pairs
  {
    var after := Acceptances.Accept(db, r, id, now);
    Acceptances.AcceptHides(db, r, id, now);
    OpenPairs(db, (r.project, r.cve));
    OpenPairs(after, (r.project, r.cve));
    var k :| k in Actionable(db) && k !in Actionable(after);
    assert k in Acceptances.CoveredBy(db, Acceptance(r.project, r.service, r.cve, now));
  }

  /** Accept, check, revert, check: the run after the acceptance leaves no active row, and the run
      after the revert delivers again if the severity meets the threshold, however often the pair
      had been delivered before. */
  lemma RevertAlertsAgain(inputs: seq<Inputs>, db: Db, r: Acceptances.Request, id: AcceptanceId, now: Time,
                          rules: seq<Rule>, rule: Rule, first: Key -> bool, second: Key -> bool)
    requires Legal(inputs) && DistinctRules(rules) && rule in rules && rule.project == r.project
    requires r.service.None? && id !in db.acceptances && Acceptances.Check(db, r).None?
    requires SeverityRank(db.vulns[r.cve].severity) <= ThresholdRank(rule.threshold)
    ensures var accepted := Acceptances.Accept(db, r, id, now);
            var during, after := InputsOf(accepted, rules, first),
                InputsOf(Acceptances.Revert(accepted, id), rules, second);
            var k := Key(rule.id, r.cve);
            && Legal(inputs + [during])
            && ActiveRows(Runs(inputs + [during])[k]) == []
            && ShouldDeliver(Current(ViewsOf(inputs + [during], k)), ViewOf(after, k))
  {
    var accepted := Acceptances.Accept(db, r, id, now);
    var during, after := InputsOf(accepted, rules, first), InputsOf(Acceptances.Revert(accepted, id), rules, second);
    var k := Key(rule.id, r.cve);
    var all := inputs + [during];
    AcceptedPairCloses(db, r, id, now);
    Acceptances.AcceptThenRevert(db, r, id, now);
    RunAgreesWithInputs(inputs, during, rule, r.cve);
    assert ViewOf(during, k) == RuleView(during, rule, r.cve) == Closed;
    var views := ViewsOf(all, k);
    assert views[|views| - 1] == Closed;
    assert ViewOf(after, k) == RuleView(after, rule, r.cve);
  }
}
