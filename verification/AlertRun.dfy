/** One run of the alert check: loops over rules and open pairs that mutate shared notification
    objects, proved to act on each (rule, vulnerability) pair as `AlertEpisodes.Step` does. */
module AlertRun {
  import opened Store
  import opened AlertEpisodes

  type RuleId = nat

  datatype Threshold = CriticalOnly | HighAndAbove | MediumAndAbove | All

  datatype Rule = Rule(id: RuleId, project: ProjectId, threshold: Threshold, channel: Channel)

  datatype Key = Key(rule: RuleId, cve: CveId)

  /** The open state a run works on: actionable (project, vulnerability) pairs and the services
      each of them is open in. */
  datatype OpenState = OpenState(pairs: set<(ProjectId, CveId)>, services: map<(ProjectId, CveId), set<ServiceId>>)

  function SeverityRank(s: Option<Severity>): nat {
    match s
    case Some(Critical) => 0
    case Some(High) => 1
    case Some(Medium) => 2
    case Some(Low) => 3
    case _ => 99
  }

  function ThresholdRank(t: Threshold): nat {
    match t
    case CriticalOnly => 0
    case HighAndAbove => 1
    case MediumAndAbove => 2
    case All => 3
  }

  /** The severities a threshold lets through. */
  function AtLeast(t: Threshold): set<Option<Severity>> {
    match t
    case CriticalOnly => {Some(Critical)}
    case HighAndAbove => {Some(Critical), Some(High)}
    case MediumAndAbove => {Some(Critical), Some(High), Some(Medium)}
    case All => {Some(Critical), Some(High), Some(Medium), Some(Low)}
  }

  /** The rank comparison admits the listed severities only: unknown and missing ones pass no
      threshold, not even the lowest. */
  lemma ThresholdMeaning(s: Option<Severity>, t: Threshold)
    ensures SeverityRank(s) <= ThresholdRank(t) <==> s in AtLeast(t)
    ensures s in AtLeast(t)
            <==> || s == Some(Critical)
                 || (s == Some(High) && t != CriticalOnly)
                 || (s == Some(Medium) && (t == MediumAndAbove || t == All))
                 || (s == Some(Low) && t == All)
  {
  }

  function ServicesOf(open: OpenState, project: ProjectId, cve: CveId): set<ServiceId> {
    if (project, cve) in open.services then open.services[(project, cve)] else {}
  }

  /** Everything a run reads: enabled rules, open state, severities, and delivery outcomes. */
  datatype Inputs = Inputs(
    rules: seq<Rule>,
    open: OpenState,
    severities: map<CveId, Option<Severity>>,
    outcomes: Key -> bool)

  function RatingOf(input: Inputs, cve: CveId): Option<Severity> {
    if cve in input.severities then input.severities[cve] else None
  }

  /** What the run sees of the pair (rule, cve). */
  function RuleView(input: Inputs, rule: Rule, cve: CveId): View {
    if (rule.project, cve) !in input.open.pairs then Closed
    else
      Present(SeverityRank(RatingOf(input, cve)) <= ThresholdRank(rule.threshold),
              ServicesOf(input.open, rule.project, cve), rule.channel, input.outcomes(Key(rule.id, cve)))
  }

  ghost predicate DistinctRules(rules: seq<Rule>) {
    forall i, j :: 0 <= i < j < |rules| ==> rules[i].id != rules[j].id
  }

  /** The enabled rules by id. */
  function AlertById(rules: seq<Rule>): (byId: map<RuleId, Rule>)
    requires DistinctRules(rules)
    ensures forall i :: 0 <= i < |rules| ==> rules[i].id in byId && byId[rules[i].id] == rules[i]
    ensures forall id :: id in byId ==> byId[id] in rules && byId[id].id == id
  {
    map r | r in rules :: r.id := r
  }

  function ViewOf(input: Inputs, k: Key): View
    requires DistinctRules(input.rules)
  {
    var byId := AlertById(input.rules);
    if k.rule in byId then RuleView(input, byId[k.rule], k.cve) else Unwatched
  }

  class Notification {
    const rule: RuleId
    const cve: CveId
    var services: set<ServiceId>
    var channel: Channel
    var status: RowStatus
    var attempts: nat

    constructor (rule: RuleId, cve: CveId, services: set<ServiceId>, channel: Channel, status: RowStatus, attempts: nat)
      ensures this.rule == rule && this.cve == cve
      ensures Value() == Row(services, channel, status, attempts)
    {
      this.rule, this.cve := rule, cve;
      this.services, this.channel, this.status, this.attempts := services, channel, status, attempts;
    }

    function Value(): Row
      reads this
    {
      Row(services, channel, status, attempts)
    }
  }

  /** The notifications of one pair, oldest first. Rule and vulnerability never change, so this
      reads no state. */
  function Of(ns: seq<Notification>, k: Key): (own: seq<Notification>)
    ensures forall n :: n in own ==> n in ns && n.rule == k.rule && n.cve == k.cve
    ensures forall n :: n in ns && n.rule == k.rule && n.cve == k.cve ==> n in own
  {
    if ns == [] then []
    else
      var rest, n := Of(ns[..|ns| - 1], k), ns[|ns| - 1];
      assert ns == ns[..|ns| - 1] + [n];
      if n.rule == k.rule && n.cve == k.cve then rest + [n] else rest
  }

  function Values(ns: seq<Notification>): (rows: seq<Row>)
    reads ns
    ensures |rows| == |ns| && forall i :: 0 <= i < |ns| ==> rows[i] == ns[i].Value()
  {
    seq(|ns|, i requires 0 <= i < |ns| reads ns => ns[i].Value())
  }

  /** A row together with the pair it belongs to. */
  datatype Tagged = Tagged(key: Key, row: Row)

  ghost function TaggedValues(ns: seq<Notification>): (rows: seq<Tagged>)
    reads ns
    ensures |rows| == |ns| && forall i :: 0 <= i < |ns| ==> rows[i] == Tagged(Key(ns[i].rule, ns[i].cve), ns[i].Value())
  {
    seq(|ns|, i requires 0 <= i < |ns| reads ns => Tagged(Key(ns[i].rule, ns[i].cve), ns[i].Value()))
  }

  ghost predicate Distinct(ns: seq<Notification>) {
    forall i, j :: 0 <= i < j < |ns| ==> ns[i] != ns[j]
  }

  lemma {:induction false} OfDistinct(ns: seq<Notification>, k: Key)
    requires Distinct(ns)
    ensures Distinct(Of(ns, k))
  {
    if ns != [] {
      OfDistinct(ns[..|ns| - 1], k);
    }
  }

  lemma OfAppend(ns: seq<Notification>, n: Notification, k: Key)
    ensures Of(ns + [n], k) == if n.rule == k.rule && n.cve == k.cve then Of(ns, k) + [n] else Of(ns, k)
  {
  }

  /** `added` holds at most one notification, so it shows up at the end of its own pair or nowhere. */
  lemma OfConcat(ns: seq<Notification>, added: seq<Notification>, k: Key)
    requires |added| <= 1
    ensures Of(ns + added, k) == Of(ns, k) + Of(added, k)
    ensures Of(added, k) == if added != [] && added[0].rule == k.rule && added[0].cve == k.cve then added else []
  {
    assert added[..0] == [] && Of([], k) == [];
    if added == [] {
      assert ns + added == ns;
    } else {
      assert added == [added[0]];
      OfAppend(ns, added[0], k);
    }
  }

  class NotificationTable {
    var rows: seq<Notification>

    ghost predicate Valid()
      reads this
    {
      Distinct(rows)
    }

    /** The notification objects of the table. */
    ghost function Repr(): set<Notification>
      reads this
    {
      set n | n in rows
    }

    /** Those of one rule. */
    ghost function ReprOf(rule: RuleId): set<Notification>
      reads this
    {
      set n | n in rows && n.rule == rule
    }

    /** The rows of one pair, as values. */
    ghost function RowsOf(k: Key): seq<Row>
      reads this, rows
    {
      var own := Of(rows, k);
      assert forall i :: 0 <= i < |own| ==> own[i] in own && own[i] in rows;
      Values(own)
    }

    /** The rows of every pair. */
    ghost function Pairs(): (pairs: imap<Key, seq<Row>>)
      reads this, rows
      ensures forall k :: k in pairs && pairs[k] == RowsOf(k)
    {
      imap k: Key | true :: RowsOf(k)
    }

    /** The whole table in stored order. */
    ghost function Table(): seq<Tagged>
      reads this, rows
    {
      TaggedValues(rows)
    }

    constructor ()
      ensures Valid() && rows == []
    {
      rows := [];
    }

    /** Flip failed rows, or add a new one; a resend closes the active rows and adds a fresh one. */
    method RecordDelivery(rule: RuleId, cve: CveId, existing: seq<Notification>, action: Action,
                          channel: Channel, success: bool, services: set<ServiceId>)
      returns (ghost added: seq<Notification>)
      requires Distinct(existing)
      modifies this`rows, existing
      ensures |added| <= 1 && fresh(added) && rows == old(rows) + added
      ensures forall n :: n in added ==> n.rule == rule && n.cve == cve
      ensures Values(existing) + Values(added) == Record(old(Values(existing)), action, services, channel, success)
    {
      if action == Resend {
        CloseAll(existing);
        added := Add(rule, cve, Row(services, channel, StatusFor(success), if success then 0 else 1));
        return;
      }
      var failed, most := CollectFailed(existing);
      var attempts := if success then 0 else most + 1;
      if failed != [] {
        FlipAll(existing, failed, services, channel, success, attempts);
        added := [];
      } else {
        added := Add(rule, cve, Row(services, channel, StatusFor(success), attempts));
      }
    }

    method Add(rule: RuleId, cve: CveId, row: Row) returns (ghost added: seq<Notification>)
      modifies this`rows
      ensures |added| == 1 && fresh(added) && added[0].rule == rule && added[0].cve == cve
      ensures rows == old(rows) + added && Values(added) == [row]
    {
      var n := new Notification(rule, cve, row.services, row.channel, row.status, row.attempts);
      rows := rows + [n];
      added := [n];
    }

    /** A recorded delivery, seen from every pair: its own rows follow `Record`, the others stay. */
    method RecordForPair(rule: Rule, cve: CveId, existing: seq<Notification>, action: Action,
                         services: set<ServiceId>, success: bool)
      requires Valid() && existing == Of(rows, Key(rule.id, cve))
      modifies this`rows, existing
      ensures Valid() && Grown(old(rows), rows)
      ensures RowsOf(Key(rule.id, cve)) ==
          Record(old(RowsOf(Key(rule.id, cve))), action, services, rule.channel, success)
      ensures forall k :: k != Key(rule.id, cve) ==> Of(rows, k) == Of(old(rows), k) && RowsOf(k) == old(RowsOf(k))
      ensures fresh(Repr() - old(Repr()))
    {
      ghost var key := Key(rule.id, cve);
      OfDistinct(rows, key);
      ghost var added := RecordDelivery(rule.id, cve, existing, action, rule.channel, success, services);
      StaysDistinct(old(rows), added);
      OfAdded(old(rows), added, key);
      ValuesOfBoth(existing, added);
      KeysApart(old(rows), key);
      forall k | k != key
        ensures RowsOf(k) == old(RowsOf(k))
      {
        var own := Of(old(rows), k);
        assert forall n :: n in own ==> n !in existing;
        ValuesKept(own);
      }
    }

    /** Deliver for one pair when its rows call for it. Only the rows of that pair change. */
    method CheckPair(rule: Rule, cve: CveId, existing: seq<Notification>, services: set<ServiceId>, success: bool)
      returns (delivered: bool)
      requires Valid() && existing == Of(rows, Key(rule.id, cve))
      modifies this`rows, existing
      ensures Valid() && Grown(old(rows), rows)
      ensures var k, v := Key(rule.id, cve), Present(true, services, rule.channel, success);
              && Pairs() == old(Pairs())[k := Step(old(RowsOf(k)), v)]
              && delivered == Delivers(old(RowsOf(k)), v)
      ensures forall k :: k != Key(rule.id, cve) ==> Of(rows, k) == Of(old(rows), k)
      ensures fresh(Repr() - old(Repr()))
    {
      assert Values(existing) == RowsOf(Key(rule.id, cve));
      var action := DeliveryAction(Values(existing), services);
      delivered := action !in {Skip, GiveUp};
      if delivered {
        RecordForPair(rule, cve, existing, action, services, success);
        UpdatedAt(old(Pairs()), Pairs(), Key(rule.id, cve));
      } else {
        UpdatedAt(old(Pairs()), Pairs(), Key(rule.id, cve));
      }
    }

    /** Mark rows resolved when their rule is enabled and their vulnerability is no longer open. */
    method ResolveClosed(loaded: seq<Notification>, input: Inputs)
      requires Valid() && DistinctRules(input.rules)
      requires forall n :: n in loaded <==> n in rows && n.rule in AlertById(input.rules)
      modifies loaded
      ensures Pairs() == Swept(old(Pairs()), input)
    {
      var byId := AlertById(input.rules);
      for i := 0 to |loaded|
        invariant forall n :: n in rows ==>
                    n.Value() == if n in loaded[..i] && ViewOf(input, Key(n.rule, n.cve)) == Closed
                                 then Resolve(old(n.Value())) else old(n.Value())
      {
        var n := loaded[i];
        assert loaded[..i + 1] == loaded[..i] + [n];
        if n.rule in byId && (byId[n.rule].project, n.cve) !in input.open.pairs {
          n.status := Resolved;
        }
      }
      assert loaded[..|loaded|] == loaded;
      forall k
        ensures RowsOf(k) == if ViewOf(input, k) == Closed then Step(old(RowsOf(k)), Closed) else old(RowsOf(k))
      {
        var own := Of(rows, k);
        forall i | 0 <= i < |own|
          ensures own[i].Value() ==
              if ViewOf(input, k) == Closed then Resolve(old(own[i].Value())) else old(own[i].Value())
        {
          assert own[i] in own && Key(own[i].rule, own[i].cve) == k;
        }
      }
    }

    /** The index still holds the notifications of every pair of `todo` that the rule covers. */
    ghost predicate IndexHolds(index: map<Key, seq<Notification>>, rule: Rule, todo: set<(ProjectId, CveId)>)
      reads this
    {
      forall cve :: (rule.project, cve) in todo ==> At(index, Key(rule.id, cve)) == Of(rows, Key(rule.id, cve))
    }

    /** The inner loop for one rule: every open pair of its project, in any order. */
    method CheckRule(rule: Rule, input: Inputs, index: map<Key, seq<Notification>>) returns (sent: seq<Key>)
      requires Valid()
      requires IndexHolds(index, rule, input.open.pairs)
      modifies this`rows, ReprOf(rule.id)
      ensures Valid() && Grown(old(rows), rows)
      ensures Pairs() == Checked(old(Pairs()), rule, input, {})
      ensures forall k: Key :: k.rule != rule.id ==> Of(rows, k) == Of(old(rows), k)
      ensures fresh(Repr() - old(Repr()))
      ensures SentBy(sent, old(Pairs()), rule, input, {})
    {
      sent := [];
      var todo := input.open.pairs;
      while todo != {}
        invariant Valid() && Grown(old(rows), rows) && todo <= input.open.pairs
        invariant Pairs() == Checked(old(Pairs()), rule, input, todo)
        invariant IndexHolds(index, rule, todo)
        invariant forall k: Key :: k.rule != rule.id ==> Of(rows, k) == Of(old(rows), k)
        invariant fresh(Repr() - old(Repr()))
        invariant SentBy(sent, old(Pairs()), rule, input, todo)
        decreases todo
      {
        var pair :| pair in todo;
        ghost var before := rows;
        sent := VisitPair(rule, pair, input, index, sent, todo, old(Pairs()));
        GrownFurther(old(rows), before, rows);
        todo := todo - {pair};
      }
    }

    /** One turn of the inner loop. */
    method VisitPair(rule: Rule, pair: (ProjectId, CveId), input: Inputs, index: map<Key, seq<Notification>>,
                     sent: seq<Key>, ghost todo: set<(ProjectId, CveId)>, ghost start: imap<Key, seq<Row>>)
      returns (more: seq<Key>)
      requires Valid() && pair in todo && todo <= input.open.pairs && forall k :: k in start
      requires IndexHolds(index, rule, todo)
      requires Pairs() == Checked(start, rule, input, todo) && SentBy(sent, start, rule, input, todo)
      modifies this`rows, ReprOf(rule.id)
      ensures Valid() && Grown(old(rows), rows)
      ensures Pairs() == Checked(start, rule, input, todo - {pair}) && SentBy(more, start, rule, input, todo - {pair})
      ensures forall k :: k != Key(rule.id, pair.1) || pair.0 != rule.project ==> Of(rows, k) == Of(old(rows), k)
      ensures IndexHolds(index, rule, todo - {pair})
      ensures fresh(Repr() - old(Repr()))
    {
      var key := Key(rule.id, pair.1);
      var delivered := false;
      CheckedStep(start, rule, input, todo, pair);
      if pair.0 == rule.project && SeverityRank(RatingOf(input, pair.1)) <= ThresholdRank(rule.threshold) {
        delivered := CheckPair(rule, pair.1, At(index, key), ServicesOf(input.open, rule.project, pair.1),
            input.outcomes(key));
      }
      more := if delivered then sent + [key] else sent;
      SentStep(sent, start, rule, input, todo, pair, delivered);
    }

    /** A whole run. Every pair takes one `Step` for what the run sees of it, whatever order the
        open pairs are visited in, and exactly the pairs that step delivers for are sent, once. */
    method DoCheckAlerts(input: Inputs) returns (sent: seq<Key>)
      requires Valid() && DistinctRules(input.rules)
      modifies this`rows, Repr()
      ensures Valid() && Grown(old(rows), rows)
      ensures Pairs() == Run(old(Pairs()), input)
      ensures SentExactly(sent, old(Pairs()), input)
      ensures fresh(Repr() - old(Repr()))
    {
      sent := [];
      if input.rules == [] {
        NoRules(Pairs(), input);
        return;
      }
      var loaded := LoadAndResolve(input);
      var index := Index(loaded, input);
      SweptIsUpTo(old(Pairs()), input);
      sent := CheckRules(input, index, old(Pairs()));
      UpToAll(old(Pairs()), input, sent);
    }

    /** The index holds the notifications of every pair whose rule is still to be checked. */
    ghost predicate IndexFits(index: map<Key, seq<Notification>>, input: Inputs, a: nat)
      reads this
    {
      forall i, cve :: a <= i < |input.rules| ==>
          At(index, Key(input.rules[i].id, cve)) == Of(rows, Key(input.rules[i].id, cve))
    }

    /** Load the notifications of enabled rules and resolve closed episodes. */
    method LoadAndResolve(input: Inputs) returns (loaded: seq<Notification>)
      requires Valid() && DistinctRules(input.rules)
      modifies rows
      ensures Pairs() == Swept(old(Pairs()), input)
      ensures forall k: Key :: k.rule in AlertById(input.rules) ==> Of(rows, k) == Of(loaded, k)
    {
      loaded := LoadNotifications(rows, AlertById(input.rules));
      assert forall i :: 0 <= i < |loaded| ==> loaded[i] in loaded && loaded[i] in rows;
      ResolveClosed(loaded, input);
    }

    /** Group what was loaded by pair. */
    method Index(loaded: seq<Notification>, input: Inputs) returns (index: map<Key, seq<Notification>>)
      requires DistinctRules(input.rules)
      requires forall k: Key :: k.rule in AlertById(input.rules) ==> Of(rows, k) == Of(loaded, k)
      ensures IndexFits(index, input, 0) && Pairs() == old(Pairs())
    {
      index := IndexByPair(loaded);
    }

    /** The outer loop over the enabled rules. */
    method CheckRules(input: Inputs, index: map<Key, seq<Notification>>, ghost start: imap<Key, seq<Row>>)
      returns (sent: seq<Key>)
      requires Valid() && DistinctRules(input.rules) && forall k :: k in start
      requires Pairs() == UpTo(start, input, 0)
      requires IndexFits(index, input, 0)
      modifies this`rows, Repr()
      ensures Valid() && Grown(old(rows), rows)
      ensures Pairs() == UpTo(start, input, |input.rules|) && SentUpTo(sent, start, input, |input.rules|)
      ensures fresh(Repr() - old(Repr()))
    {
      sent := [];
      NothingSent(start, input);
      for a := 0 to |input.rules|
        invariant Valid() && Grown(old(rows), rows)
        invariant Pairs() == UpTo(start, input, a) && SentUpTo(sent, start, input, a)
        invariant IndexFits(index, input, a)
        invariant fresh(Repr() - old(Repr()))
      {
        ghost var before := rows;
        sent := CheckNext(input, index, a, sent, start);
        GrownFurther(old(rows), before, rows);
      }
    }

    /** One turn of the outer loop. */
    method CheckNext(input: Inputs, index: map<Key, seq<Notification>>, a: nat, sent: seq<Key>,
                     ghost start: imap<Key, seq<Row>>)
      returns (more: seq<Key>)
      requires Valid() && DistinctRules(input.rules) && a < |input.rules| && forall k :: k in start
      requires Pairs() == UpTo(start, input, a) && SentUpTo(sent, start, input, a)
      requires IndexFits(index, input, a)
      modifies this`rows, Repr()
      ensures Valid() && Grown(old(rows), rows)
      ensures Pairs() == UpTo(start, input, a + 1) && SentUpTo(more, start, input, a + 1)
      ensures IndexFits(index, input, a + 1)
      ensures fresh(Repr() - old(Repr()))
    {
      var own := CheckRule(input.rules[a], input, index);
      UpToStep(start, input, a);
      SentUpToStep(sent, own, start, input, a);
      more := sent + own;
    }
  }

  /** The effect of a run: every pair steps independently. */
  ghost function Run(pairs: imap<Key, seq<Row>>, input: Inputs): imap<Key, seq<Row>>
    requires DistinctRules(input.rules) && forall k :: k in pairs
  {
    imap k: Key | true :: Step(pairs[k], ViewOf(input, k))
  }

  ghost predicate AmongFirst(input: Inputs, a: nat, id: RuleId) {
    exists i :: 0 <= i < a && i < |input.rules| && input.rules[i].id == id
  }

  /** Every pair after the sweep and the first `a` rules. */
  ghost function UpTo(pairs: imap<Key, seq<Row>>, input: Inputs, a: nat): imap<Key, seq<Row>>
    requires DistinctRules(input.rules) && forall k :: k in pairs
  {
    imap k: Key | true ::
      if ViewOf(input, k) == Closed || AmongFirst(input, a, k.rule) then Step(pairs[k], ViewOf(input, k)) else pairs[k]
  }

  /** The pairs of the first `a` rules whose rows call for a delivery. */
  ghost function DueUpTo(pairs: imap<Key, seq<Row>>, input: Inputs, a: nat): iset<Key>
    requires DistinctRules(input.rules) && forall k :: k in pairs
  {
    iset k: Key | AmongFirst(input, a, k.rule) && Delivers(pairs[k], ViewOf(input, k))
  }

  ghost function KeysOf(sent: seq<Key>): iset<Key> {
    iset k | k in sent
  }

  ghost predicate NoRepeats(sent: seq<Key>) {
    forall i, j :: 0 <= i < j < |sent| ==> sent[i] != sent[j]
  }

  ghost predicate SentUpTo(sent: seq<Key>, pairs: imap<Key, seq<Row>>, input: Inputs, a: nat)
    requires DistinctRules(input.rules) && forall k :: k in pairs
  {
    KeysOf(sent) == DueUpTo(pairs, input, a) && NoRepeats(sent)
  }

  lemma NothingSent(pairs: imap<Key, seq<Row>>, input: Inputs)
    requires DistinctRules(input.rules) && forall k :: k in pairs
    ensures SentUpTo([], pairs, input, 0)
  {
  }

  lemma SweptIsUpTo(pairs: imap<Key, seq<Row>>, input: Inputs)
    requires DistinctRules(input.rules) && forall k :: k in pairs
    ensures UpTo(pairs, input, 0) == Swept(pairs, input)
  {
  }

  lemma FirstOrNext(input: Inputs, a: nat, k: Key)
    requires DistinctRules(input.rules) && a < |input.rules|
    ensures AmongFirst(input, a + 1, k.rule) <==> AmongFirst(input, a, k.rule) || k.rule == input.rules[a].id
    ensures k.rule == input.rules[a].id ==> !AmongFirst(input, a, k.rule)
                                            && ViewOf(input, k) == RuleView(input, input.rules[a], k.cve)
  {
  }

  lemma UpToStep(pairs: imap<Key, seq<Row>>, input: Inputs, a: nat)
    requires DistinctRules(input.rules) && a < |input.rules| && forall k :: k in pairs
    ensures Checked(UpTo(pairs, input, a), input.rules[a], input, {}) == UpTo(pairs, input, a + 1)
  {
    forall k
      ensures Checked(UpTo(pairs, input, a), input.rules[a], input, {})[k] == UpTo(pairs, input, a + 1)[k]
    {
      UpToStepAt(pairs, input, a, k);
    }
  }

  lemma UpToStepAt(pairs: imap<Key, seq<Row>>, input: Inputs, a: nat, k: Key)
    requires DistinctRules(input.rules) && a < |input.rules| && forall k :: k in pairs
    ensures Checked(UpTo(pairs, input, a), input.rules[a], input, {})[k] == UpTo(pairs, input, a + 1)[k]
  {
    FirstOrNext(input, a, k);
  }

  lemma DueKeys(sent: seq<Key>, pairs: imap<Key, seq<Row>>, input: Inputs, a: nat)
    requires DistinctRules(input.rules) && forall k :: k in pairs
    ensures KeysOf(sent) == DueUpTo(pairs, input, a)
            <==> forall k :: k in sent <==> AmongFirst(input, a, k.rule) && Delivers(pairs[k], ViewOf(input, k))
  {
    assert forall k :: k in sent <==> k in KeysOf(sent);
    assert forall k: Key ::
        k in DueUpTo(pairs, input, a) <==> AmongFirst(input, a, k.rule) && Delivers(pairs[k], ViewOf(input, k));
  }

  lemma SentUpToStep(sent: seq<Key>, more: seq<Key>, pairs: imap<Key, seq<Row>>, input: Inputs, a: nat)
    requires DistinctRules(input.rules) && a < |input.rules| && forall k :: k in pairs
    requires SentUpTo(sent, pairs, input, a)
    requires SentBy(more, UpTo(pairs, input, a), input.rules[a], input, {})
    ensures SentUpTo(sent + more, pairs, input, a + 1)
  {
    DueKeys(sent, pairs, input, a);
    forall k
      ensures k in sent + more <==> AmongFirst(input, a + 1, k.rule) && Delivers(pairs[k], ViewOf(input, k))
      ensures !(k in sent && k in more)
    {
      FirstOrNext(input, a, k);
    }
    DueKeys(sent + more, pairs, input, a + 1);
    NoRepeatsInBoth(sent, more);
  }

  lemma NoRepeatsInBoth(sent: seq<Key>, more: seq<Key>)
    requires NoRepeats(sent) && NoRepeats(more) && forall k :: !(k in sent && k in more)
    ensures NoRepeats(sent + more)
  {
    assert forall i :: 0 <= i < |sent| ==> sent[i] in sent;
    assert forall i :: 0 <= i < |more| ==> more[i] in more;
  }

  /** `sent` lists, once each, exactly the pairs whose rows called for a delivery. */
  ghost predicate SentExactly(sent: seq<Key>, pairs: imap<Key, seq<Row>>, input: Inputs)
    requires DistinctRules(input.rules) && forall k :: k in pairs
  {
    (forall k :: k in sent <==> Delivers(pairs[k], ViewOf(input, k))) && NoRepeats(sent)
  }

  lemma NoRules(pairs: imap<Key, seq<Row>>, input: Inputs)
    requires input.rules == [] && forall k :: k in pairs
    ensures Run(pairs, input) == pairs && SentExactly([], pairs, input)
  {
  }

  lemma UpToAll(pairs: imap<Key, seq<Row>>, input: Inputs, sent: seq<Key>)
    requires DistinctRules(input.rules) && forall k :: k in pairs
    requires SentUpTo(sent, pairs, input, |input.rules|)
    ensures UpTo(pairs, input, |input.rules|) == Run(pairs, input) && SentExactly(sent, pairs, input)
  {
    DueKeys(sent, pairs, input, |input.rules|);
    forall k: Key
      ensures ViewOf(input, k) != Unwatched <==> AmongFirst(input, |input.rules|, k.rule)
    {
      if k.rule in AlertById(input.rules) {
        var r := AlertById(input.rules)[k.rule];
        var i :| 0 <= i < |input.rules| && input.rules[i] == r;
      }
    }
  }

  lemma UpdatedAt(before: imap<Key, seq<Row>>, after: imap<Key, seq<Row>>, key: Key)
    requires forall k :: k in before && k in after
    requires forall k :: k != key ==> after[k] == before[k]
    ensures after == before[key := after[key]]
  {
  }

  ghost predicate Grown(before: seq<Notification>, after: seq<Notification>) {
    before <= after
  }

  /** New objects at the end keep the table free of repetition. */
  lemma StaysDistinct(before: seq<Notification>, added: seq<Notification>)
    requires Distinct(before) && |added| <= 1 && forall n :: n in added ==> n !in before
    ensures Distinct(before + added) && Grown(before, before + added)
  {
    assert forall i :: 0 <= i < |before| ==> before[i] in before;
    assert forall i :: 0 <= i < |added| ==> added[i] in added;
  }

  lemma GrownFurther(before: seq<Notification>, middle: seq<Notification>, after: seq<Notification>)
    requires Grown(before, middle) && Grown(middle, after)
    ensures Grown(before, after)
  {
  }

  /** Every pair after the sweep for closed episodes. */
  ghost function Swept(pairs: imap<Key, seq<Row>>, input: Inputs): imap<Key, seq<Row>>
    requires DistinctRules(input.rules) && forall k :: k in pairs
  {
    imap k: Key | true :: if ViewOf(input, k) == Closed then Step(pairs[k], Closed) else pairs[k]
  }

  /** Every pair once `rule` was checked against all open pairs but those in `todo`. */
  ghost function Checked(pairs: imap<Key, seq<Row>>, rule: Rule, input: Inputs,
                         todo: set<(ProjectId, CveId)>): imap<Key, seq<Row>>
    requires forall k :: k in pairs
  {
    imap k: Key | true ::
      if k.rule == rule.id && RuleView(input, rule, k.cve).Present? && (rule.project, k.cve) !in todo
      then Step(pairs[k], RuleView(input, rule, k.cve)) else pairs[k]
  }

  /** `sent` lists, once each, the pairs of `rule` outside `todo` whose rows called for a delivery. */
  ghost predicate SentBy(sent: seq<Key>, pairs: imap<Key, seq<Row>>, rule: Rule, input: Inputs,
                         todo: set<(ProjectId, CveId)>)
    requires forall k :: k in pairs
  {
    && (forall k :: k in sent <==> k.rule == rule.id && (rule.project, k.cve) !in todo
                                   && Delivers(pairs[k], RuleView(input, rule, k.cve)))
    && NoRepeats(sent)
  }

  lemma CheckedStep(pairs: imap<Key, seq<Row>>, rule: Rule, input: Inputs, todo: set<(ProjectId, CveId)>,
                    pair: (ProjectId, CveId))
    requires (forall k :: k in pairs) && pair in todo && todo <= input.open.pairs
    ensures var now, k, v := Checked(pairs, rule, input, todo), Key(rule.id, pair.1), RuleView(input, rule, pair.1);
            Checked(pairs, rule, input, todo - {pair}) ==
              if pair.0 == rule.project && v.meets then now[k := Step(now[k], v)] else now
  {
  }

  lemma SentStep(sent: seq<Key>, pairs: imap<Key, seq<Row>>, rule: Rule, input: Inputs, todo: set<(ProjectId, CveId)>,
                 pair: (ProjectId, CveId), delivered: bool)
    requires (forall k :: k in pairs) && pair in todo && todo <= input.open.pairs
    requires SentBy(sent, pairs, rule, input, todo)
    requires delivered <==>
        pair.0 == rule.project && Delivers(pairs[Key(rule.id, pair.1)], RuleView(input, rule, pair.1))
    ensures SentBy(if delivered then sent + [Key(rule.id, pair.1)] else sent, pairs, rule, input, todo - {pair})
  {
  }

  /** The notifications of enabled rules, in creation order. */
  method LoadNotifications(rows: seq<Notification>, byId: map<RuleId, Rule>) returns (loaded: seq<Notification>)
    ensures forall n :: n in loaded <==> n in rows && n.rule in byId
    ensures forall k: Key :: Of(loaded, k) == if k.rule in byId then Of(rows, k) else []
  {
    loaded := [];
    for i := 0 to |rows|
      invariant forall n :: n in loaded <==> n in rows[..i] && n.rule in byId
      invariant forall k: Key :: Of(loaded, k) == if k.rule in byId then Of(rows[..i], k) else []
    {
      assert rows[..i + 1] == rows[..i] + [rows[i]];
      forall k: Key
        ensures Of(rows[..i + 1], k) == Of(rows[..i], k) + Of([rows[i]], k)
        ensures Of(loaded + [rows[i]], k) == Of(loaded, k) + Of([rows[i]], k)
      {
        OfConcat(rows[..i], [rows[i]], k);
        OfConcat(loaded, [rows[i]], k);
      }
      if rows[i].rule in byId {
        loaded := loaded + [rows[i]];
      }
    }
    assert rows[..|rows|] == rows;
  }

  function At(index: map<Key, seq<Notification>>, k: Key): seq<Notification> {
    if k in index then index[k] else []
  }

  /** Group notifications by pair, keeping their order. */
  method IndexByPair(ns: seq<Notification>) returns (index: map<Key, seq<Notification>>)
    ensures forall k :: At(index, k) == Of(ns, k)
  {
    index := map[];
    for i := 0 to |ns|
      invariant forall k :: At(index, k) == Of(ns[..i], k)
    {
      assert ns[..i + 1] == ns[..i] + [ns[i]];
      forall k { OfAppend(ns[..i], ns[i], k); }
      var k := Key(ns[i].rule, ns[i].cve);
      index := index[k := At(index, k) + [ns[i]]];
    }
    assert ns[..|ns|] == ns;
  }

  twostate lemma ValuesKept(ns: seq<Notification>)
    requires forall n :: n in ns ==> unchanged(n)
    ensures Values(ns) == old(Values(ns))
  {
    forall i | 0 <= i < |ns|
      ensures ns[i].Value() == old(ns[i].Value())
    {
      assert ns[i] in ns && unchanged(ns[i]);
    }
  }

  lemma ValuesOfBoth(a: seq<Notification>, b: seq<Notification>)
    ensures Values(a + b) == Values(a) + Values(b)
  {
  }

  /** Appending notifications of one pair lengthens that pair only. */
  lemma OfAdded(ns: seq<Notification>, added: seq<Notification>, key: Key)
    requires |added| <= 1 && forall n :: n in added ==> n.rule == key.rule && n.cve == key.cve
    ensures forall k :: Of(ns + added, k) == if k == key then Of(ns, k) + added else Of(ns, k)
  {
    forall k
      ensures Of(ns + added, k) == if k == key then Of(ns, k) + added else Of(ns, k)
    {
      OfConcat(ns, added, k);
    }
  }

  /** Notifications of different pairs are different objects. */
  lemma KeysApart(ns: seq<Notification>, key: Key)
    ensures forall k, n :: k != key && n in Of(ns, k) ==> n !in Of(ns, key)
  {
  }

  method CloseAll(existing: seq<Notification>)
    requires Distinct(existing)
    modifies existing
    ensures Values(existing) == MapRows(old(Values(existing)), r => Resolve(r))
  {
    for i := 0 to |existing|
      invariant forall j :: 0 <= j < i ==> existing[j].Value() == Resolve(old(existing[j].Value()))
      invariant forall j :: i <= j < |existing| ==> existing[j].Value() == old(existing[j].Value())
    {
      if existing[i].status != Resolved {
        existing[i].status := Resolved;
      }
    }
  }

  /** The failed rows and their largest attempt count. */
  method CollectFailed(existing: seq<Notification>) returns (failed: seq<Notification>, most: nat)
    ensures forall n :: n in failed <==> n in existing && n.status == NotSent
    ensures failed == [] <==> Having(Values(existing), NotSent) == []
    ensures most == MaxAttempts(Having(Values(existing), NotSent))
  {
    failed, most := [], 0;
    ghost var rows := Values(existing);
    for i := 0 to |existing|
      invariant forall n :: n in failed <==> n in existing[..i] && n.status == NotSent
      invariant failed == [] <==> Having(rows[..i], NotSent) == []
      invariant most == MaxAttempts(Having(rows[..i], NotSent))
    {
      HavingNext(rows, i);
      assert existing[..i + 1] == existing[..i] + [existing[i]];
      if existing[i].status == NotSent {
        failed := failed + [existing[i]];
        most := if existing[i].attempts > most then existing[i].attempts else most;
      }
    }
    assert rows[..|existing|] == rows && existing[..|existing|] == existing;
  }

  lemma HavingNext(rows: seq<Row>, i: nat)
    requires i < |rows|
    ensures var before := Having(rows[..i], NotSent);
            if rows[i].status == NotSent then
              && Having(rows[..i + 1], NotSent) == before + [rows[i]]
              && MaxAttempts(before + [rows[i]]) ==
                   if rows[i].attempts > MaxAttempts(before) then rows[i].attempts else MaxAttempts(before)
            else Having(rows[..i + 1], NotSent) == before
  {
    assert rows[..i + 1][..i] == rows[..i];
  }

  method FlipAll(existing: seq<Notification>, failed: seq<Notification>, services: set<ServiceId>,
                 channel: Channel, success: bool, attempts: nat)
    requires forall n :: n in failed <==> n in existing && n.status == NotSent
    modifies existing
    ensures Values(existing) == MapRows(old(Values(existing)), r => Flip(r, services, channel, success, attempts))
  {
    assert forall n :: n in failed ==> n in existing;
    for i := 0 to |failed|
      invariant forall n :: n in existing && n !in failed[..i] ==> n.Value() == old(n.Value())
      invariant forall n :: n in failed[..i] ==> n.Value() == Row(services, channel, StatusFor(success), attempts)
    {
      var n := failed[i];
      assert n in failed;
      n.status, n.channel, n.attempts, n.services := StatusFor(success), channel, attempts, services;
      assert failed[..i + 1] == failed[..i] + [n];
    }
    assert failed[..|failed|] == failed;
  }
}
