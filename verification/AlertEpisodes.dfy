/** The delivery automaton of one (alert rule, vulnerability) pair: what a check run does to the
    notification rows of the pair, and what any sequence of runs has done to them. */
module AlertEpisodes {
  import opened Store

  datatype Channel = Email | Slack | Discord

  datatype RowStatus = Sent | NotSent | Resolved

  /** A notification row of one pair; `services` is the set its JSON list stands for. */
  datatype Row = Row(services: set<ServiceId>, channel: Channel, status: RowStatus, attempts: nat)

  const MAX_ATTEMPTS: nat := 5

  datatype Action = Skip | GiveUp | Resend | Retry | Deliver

  /** What a check run sees of the pair: its rule is not enabled; its vulnerability is not open in
      the rule's project; or it is open, with or without the required severity, in `services`,
      and a delivery through `channel` would succeed or not. */
  datatype View =
    | Unwatched
    | Closed
    | Present(meets: bool, services: set<ServiceId>, channel: Channel, success: bool)

  /* ----- the step of one run ----- */

  predicate Active(r: Row) { r.status != Resolved }

  function Having(rows: seq<Row>, s: RowStatus): seq<Row> {
    if rows == [] then []
    else
      var rest := Having(rows[..|rows| - 1], s);
      if rows[|rows| - 1].status == s then rest + [rows[|rows| - 1]] else rest
  }

  /** The largest attempt count, or 0 without rows. */
  function MaxAttempts(rows: seq<Row>): nat {
    if rows == [] then 0
    else
      var m := MaxAttempts(rows[..|rows| - 1]);
      if rows[|rows| - 1].attempts > m then rows[|rows| - 1].attempts else m
  }

  function DeliveryAction(rows: seq<Row>, services: set<ServiceId>): Action {
    var sent, failed := Having(rows, Sent), Having(rows, NotSent);
    if sent != [] then
      if sent[|sent| - 1].services == services then Skip else Resend
    else if failed != [] then
      if failed[|failed| - 1].services != services then Resend
      else if MaxAttempts(failed) >= MAX_ATTEMPTS then GiveUp
      else Retry
    else Deliver
  }

  function Resolve(r: Row): Row {
    r.(status := Resolved)
  }

  function MapRows(rows: seq<Row>, f: Row -> Row): (out: seq<Row>)
    ensures |out| == |rows| && forall i :: 0 <= i < |rows| ==> out[i] == f(rows[i])
  {
    seq(|rows|, i requires 0 <= i < |rows| => f(rows[i]))
  }

  function StatusFor(success: bool): RowStatus {
    if success then Sent else NotSent
  }

  /** Failed rows take the new outcome in place. */
  function Flip(r: Row, services: set<ServiceId>, channel: Channel, success: bool, attempts: nat): Row {
    if r.status == NotSent then Row(services, channel, StatusFor(success), attempts) else r
  }

  /** How a delivery outcome is recorded for each action that delivers. */
  function Record(rows: seq<Row>, a: Action, services: set<ServiceId>, channel: Channel, success: bool): seq<Row> {
    if a == Resend then
      MapRows(rows, r => Resolve(r)) + [Row(services, channel, StatusFor(success), if success then 0 else 1)]
    else
      var failed := Having(rows, NotSent);
      var attempts := if success then 0 else MaxAttempts(failed) + 1;
      if failed != [] then MapRows(rows, r => Flip(r, services, channel, success, attempts))
      else rows + [Row(services, channel, StatusFor(success), attempts)]
  }

  predicate Delivers(rows: seq<Row>, v: View) {
    v.Present? && v.meets && DeliveryAction(rows, v.services) !in {Skip, GiveUp}
  }

  function Step(rows: seq<Row>, v: View): seq<Row> {
    match v
    case Unwatched => rows
    case Closed => MapRows(rows, r => Resolve(r))
    case Present(meets, services, channel, success) =>
      if Delivers(rows, v) then Record(rows, DeliveryAction(rows, services), services, channel, success) else rows
  }

  /** The rows after a sequence of runs, from none. */
  function After(views: seq<View>): seq<Row> {
    if views == [] then [] else Step(After(views[..|views| - 1]), views[|views| - 1])
  }

  /* ----- the reference: episodes read off the views alone ----- */

  datatype Try = Try(channel: Channel, success: bool)

  /** A running stretch: the pair has been open and severe enough, with these services, on every
      run that looked at it since the stretch began. `tries` lists those runs. */
  datatype Stretch = Stretch(services: set<ServiceId>, tries: seq<Try>)

  /** The stretch after `views`. Runs that do not watch the pair, or see it below the threshold,
      neither extend nor end a stretch. */
  function Current(views: seq<View>): (s: Option<Stretch>)
    ensures s.Some? ==> s.value.tries != []
  {
    if views == [] then None
    else
      var before, v := Current(views[..|views| - 1]), views[|views| - 1];
      match v
      case Unwatched => before
      case Closed => None
      case Present(meets, services, channel, success) =>
        if !meets then before
        else if before.Some? && before.value.services == services then
          Some(Stretch(services, before.value.tries + [Try(channel, success)]))
        else Some(Stretch(services, [Try(channel, success)]))
  }

  /** Some try among the first `n` succeeded. */
  predicate SucceededWithin(tries: seq<Try>, n: nat) {
    exists i :: 0 <= i < |tries| && i < n && tries[i].success
  }

  /** The stretch is over for deliveries: one success, or five failures. */
  predicate Settled(tries: seq<Try>) {
    |tries| >= MAX_ATTEMPTS || SucceededWithin(tries, MAX_ATTEMPTS)
  }

  /** The tries of a stretch that were really made: up to the first success, five at most. */
  function Made(tries: seq<Try>): (made: seq<Try>)
    ensures made <= tries && |made| <= MAX_ATTEMPTS
    ensures tries != [] ==> made != []
    ensures forall i :: 0 <= i < |made| - 1 ==> !made[i].success
    ensures |made| < |tries| ==> |made| == MAX_ATTEMPTS || (made != [] && made[|made| - 1].success)
    decreases |tries|
  {
    if tries == [] then []
    else
      var made := Made(tries[..|tries| - 1]);
      if |made| < |tries| - 1 || |made| == MAX_ATTEMPTS || (made != [] && made[|made| - 1].success) then made else tries
  }

  /** The one active row a stretch leaves: sent with no attempts, or failed with as many attempts
      as were made; its channel is the one last used. */
  function ActiveRow(s: Stretch): Row
    requires s.tries != []
  {
    var made := Made(s.tries);
    var last := made[|made| - 1];
    Row(s.services, last.channel, StatusFor(last.success), if last.success then 0 else |made|)
  }

  function ActiveRows(rows: seq<Row>): seq<Row> {
    if rows == [] then []
    else
      var rest := ActiveRows(rows[..|rows| - 1]);
      if Active(rows[|rows| - 1]) then rest + [rows[|rows| - 1]] else rest
  }

  /** Rows of a pair at any time: resolved ones, then at most one active row. */
  ghost predicate Shaped(rows: seq<Row>) {
    forall i :: 0 <= i < |rows| - 1 ==> rows[i].status == Resolved
  }

  ghost predicate Matches(rows: seq<Row>, s: Option<Stretch>) {
    && Shaped(rows)
    && match s
       case None => rows == [] || rows[|rows| - 1].status == Resolved
       case Some(st) => st.tries != [] && rows != [] && rows[|rows| - 1] == ActiveRow(st)
  }

  /** On shaped rows only the last one can be sent or failed. */
  lemma HavingLast(rows: seq<Row>, s: RowStatus)
    requires Shaped(rows) && s != Resolved
    ensures Having(rows, s) == if rows != [] && rows[|rows| - 1].status == s then [rows[|rows| - 1]] else []
  {
  }

  lemma ActionOnShaped(rows: seq<Row>, services: set<ServiceId>)
    requires Shaped(rows)
    ensures DeliveryAction(rows, services) ==
              if rows == [] || rows[|rows| - 1].status == Resolved then Deliver
              else if rows[|rows| - 1].services != services then Resend
              else if rows[|rows| - 1].status == Sent then Skip
              else if rows[|rows| - 1].attempts >= MAX_ATTEMPTS then GiveUp
              else Retry
  {
    HavingLast(rows, Sent);
    HavingLast(rows, NotSent);
    if rows != [] && rows[|rows| - 1].status == NotSent {
      MaxOfOne(rows[|rows| - 1]);
    }
  }

  lemma MadeStep(tries: seq<Try>, t: Try)
    ensures Settled(tries) ==> Made(tries + [t]) == Made(tries)
    ensures !Settled(tries) ==> Made(tries) == tries && Made(tries + [t]) == tries + [t]
  {
  }

  lemma SettledRow(s: Stretch)
    requires s.tries != []
    ensures Settled(s.tries) <==> ActiveRow(s).status == Sent || ActiveRow(s).attempts >= MAX_ATTEMPTS
  {
  }

  /** The automaton decides from rows what the reference decides from views: deliver exactly when
      the pair is open, severe enough, and its stretch is new or not settled yet. */
  predicate ShouldDeliver(before: Option<Stretch>, v: View) {
    v.Present? && v.meets
    && (before.None? || before.value.services != v.services || !Settled(before.value.tries))
  }

  lemma StepFollows(rows: seq<Row>, before: Option<Stretch>, views: seq<View>, v: View)
    requires Matches(rows, before) && before == Current(views)
    ensures Delivers(rows, v) <==> ShouldDeliver(before, v)
    ensures Matches(Step(rows, v), Current(views + [v]))
  {
    assert (views + [v])[..|views|] == views;
    if v.Present? && v.meets {
      ActionOnShaped(rows, v.services);
      if before.Some? && before.value.services == v.services {
        SameStretchFollows(rows, before.value, v);
      } else {
        NewStretchFollows(rows, before, v);
      }
    }
  }

  lemma SameStretchFollows(rows: seq<Row>, s: Stretch, v: View)
    requires Matches(rows, Some(s)) && v.Present? && v.meets && s.services == v.services
    ensures Delivers(rows, v) <==> !Settled(s.tries)
    ensures Matches(Step(rows, v), Some(Stretch(v.services, s.tries + [Try(v.channel, v.success)])))
  {
    ActionOnShaped(rows, v.services);
    SettledRow(s);
    if Settled(s.tries) {
      MadeStep(s.tries, Try(v.channel, v.success));
    } else {
      RetryFollows(rows, s, v);
    }
  }

  lemma NewStretchFollows(rows: seq<Row>, before: Option<Stretch>, v: View)
    requires Matches(rows, before) && v.Present? && v.meets
    requires before.None? || before.value.services != v.services
    ensures Delivers(rows, v)
    ensures Matches(Step(rows, v), Some(Stretch(v.services, [Try(v.channel, v.success)])))
  {
    ActionOnShaped(rows, v.services);
    HavingLast(rows, NotSent);
    var t := Try(v.channel, v.success);
    assert Made([t]) == [t] by { assert [t][..0] == []; }
  }

  /** A retry rewrites the one failed row in place. */
  lemma RetryInPlace(rows: seq<Row>, v: View)
    requires Shaped(rows) && v.Present? && v.meets && DeliveryAction(rows, v.services) == Retry
    ensures rows != [] && |Step(rows, v)| == |rows| && Shaped(Step(rows, v))
    ensures Step(rows, v)[|rows| - 1] ==
            Row(v.services, v.channel, StatusFor(v.success), if v.success then 0 else rows[|rows| - 1].attempts + 1)
  {
    ActionOnShaped(rows, v.services);
    HavingLast(rows, NotSent);
    MaxOfOne(rows[|rows| - 1]);
  }

  lemma RetryFollows(rows: seq<Row>, s: Stretch, v: View)
    requires Matches(rows, Some(s)) && v.Present? && v.meets
    requires DeliveryAction(rows, v.services) == Retry
    ensures s.services == v.services && !Settled(s.tries)
    ensures Matches(Step(rows, v), Some(Stretch(v.services, s.tries + [Try(v.channel, v.success)])))
  {
    RetryIsUnsettled(rows, s, v);
    RetryInPlace(rows, v);
    RetriedRow(s, Try(v.channel, v.success));
  }

  lemma RetryIsUnsettled(rows: seq<Row>, s: Stretch, v: View)
    requires Matches(rows, Some(s)) && v.Present? && DeliveryAction(rows, v.services) == Retry
    ensures s.services == v.services && !Settled(s.tries) && s.tries != []
  {
    ActionOnShaped(rows, v.services);
    SettledRow(s);
  }

  lemma RetriedRow(s: Stretch, t: Try)
    requires s.tries != [] && !Settled(s.tries)
    ensures ActiveRow(Stretch(s.services, s.tries + [t])) ==
            Row(s.services, t.channel, StatusFor(t.success), if t.success then 0 else ActiveRow(s).attempts + 1)
  {
    MadeStep(s.tries, t);
    SettledRow(s);
  }

  /** After any sequence of runs the rows are determined by the views: resolved rows, then one
      active row in the state the current stretch prescribes, or none. */
  lemma {:induction false} HistoryDeterminesRows(views: seq<View>)
    ensures Matches(After(views), Current(views))
  {
    if views != [] {
      var init, v := views[..|views| - 1], views[|views| - 1];
      HistoryDeterminesRows(init);
      StepFollows(After(init), Current(init), init, v);
      assert init + [v] == views;
    }
  }

  /** Run `i` of a history delivers exactly when the reference says so: never again in a stretch
      after a success or five failures. */
  lemma DeliveryIffUnsettled(views: seq<View>, i: nat)
    requires i < |views|
    ensures Delivers(After(views[..i]), views[i]) <==> ShouldDeliver(Current(views[..i]), views[i])
  {
    HistoryDeterminesRows(views[..i]);
    StepFollows(After(views[..i]), Current(views[..i]), views[..i], views[i]);
  }

  /* ----- budgets over whole histories ----- */

  /** Deliveries attempted over a history. */
  function Sends(views: seq<View>): nat {
    if views == [] then 0
    else
      var init := views[..|views| - 1];
      Sends(init) + if Delivers(After(init), views[|views| - 1]) then 1 else 0
  }

  /** Deliveries that succeeded. */
  function Successes(views: seq<View>): nat {
    if views == [] then 0
    else
      var init, v := views[..|views| - 1], views[|views| - 1];
      Successes(init) + if Delivers(After(init), v) && v.success then 1 else 0
  }

  /** The run starts a new stretch. */
  predicate Begins(before: Option<Stretch>, v: View) {
    v.Present? && v.meets && (before.None? || before.value.services != v.services)
  }

  /** Stretches begun over a history. */
  function Begun(views: seq<View>): nat {
    if views == [] then 0
    else
      var init, v := views[..|views| - 1], views[|views| - 1];
      var before := Current(init);
      Begun(init) + if Begins(before, v) then 1 else 0
  }

  /** A run adds a row exactly when it starts a stretch. */
  lemma RowAddedByStretch(rows: seq<Row>, before: Option<Stretch>, v: View)
    requires Matches(rows, before)
    ensures |Step(rows, v)| == |rows| + if Begins(before, v) then 1 else 0
  {
    if v.Present? && v.meets {
      ActionOnShaped(rows, v.services);
      var action := DeliveryAction(rows, v.services);
      if Begins(before, v) {
        assert action == Deliver || action == Resend;
        HavingLast(rows, NotSent);
      } else if action == Retry {
        RetryInPlace(rows, v);
      } else {
        assert action == Skip || action == GiveUp;
      }
    }
  }

  /** One row for every stretch begun, neither more nor fewer: a stretch writes all its tries into
      the row its first try added. */
  lemma {:induction false} OneRowPerStretch(views: seq<View>)
    ensures |After(views)| == Begun(views)
  {
    if views != [] {
      var init, v := views[..|views| - 1], views[|views| - 1];
      OneRowPerStretch(init);
      HistoryDeterminesRows(init);
      RowAddedByStretch(After(init), Current(init), v);
    }
  }

  /** Tries the running stretch has left, and whether it can still succeed. */
  function TriesLeft(s: Option<Stretch>): nat {
    if s.None? then 0 else MAX_ATTEMPTS - |Made(s.value.tries)|
  }

  function SuccessLeft(s: Option<Stretch>): nat
    requires s.Some? ==> s.value.tries != []
  {
    if s.None? || ActiveRow(s.value).status == Sent then 0 else 1
  }

  /** One run: a delivery uses up a try, a success the chance of one, and only a new stretch brings
      new ones. */
  lemma BudgetStep(views: seq<View>, v: View)
    ensures var before, after := Current(views), Current(views + [v]);
            && (if ShouldDeliver(before, v) then 1 else 0) + TriesLeft(after)
               <= TriesLeft(before) + (if Begins(before, v) then MAX_ATTEMPTS else 0)
            && (if ShouldDeliver(before, v) && v.success then 1 else 0) + SuccessLeft(after)
               <= SuccessLeft(before) + (if Begins(before, v) then 1 else 0)
  {
    assert (views + [v])[..|views|] == views;
    var before := Current(views);
    if v.Present? && v.meets {
      var t := Try(v.channel, v.success);
      if Begins(before, v) {
        assert Made([t]) == [t] by { assert [t][..0] == []; }
      } else {
        MadeStep(before.value.tries, t);
        SettledRow(before.value);
      }
    }
  }

  /** Delivery budget: at most five sends and one success for each stretch begun, and what the
      running stretch has not used is still to come off that. */
  lemma {:induction false} DeliveryBudget(views: seq<View>)
    ensures Sends(views) + TriesLeft(Current(views)) <= 5 * Begun(views)
    ensures Successes(views) + SuccessLeft(Current(views)) <= Begun(views)
  {
    if views != [] {
      var init, v := views[..|views| - 1], views[|views| - 1];
      DeliveryBudget(init);
      HistoryDeterminesRows(init);
      StepFollows(After(init), Current(init), init, v);
      BudgetStep(init, v);
      assert init + [v] == views;
    }
  }

  /* ----- the runs of one stretch ----- */

  /** Every run sees the pair open and severe enough, in these services. */
  predicate AllPresent(views: seq<View>, services: set<ServiceId>) {
    forall i :: 0 <= i < |views| ==> views[i].Present? && views[i].meets && views[i].services == services
  }

  predicate AllFail(views: seq<View>) {
    forall i :: 0 <= i < |views| ==> views[i].Present? && !views[i].success
  }

  /** The pair is not in a stretch with these services: it was closed, or open in others. */
  predicate OutOf(before: Option<Stretch>, services: set<ServiceId>) {
    before.None? || before.value.services != services
  }

  lemma {:induction false} StretchRuns(history: seq<View>, views: seq<View>, services: set<ServiceId>)
    requires OutOf(Current(history), services) && AllPresent(views, services) && views != []
    ensures var now := Current(history + views);
            && now.Some? && now.value.services == services && |now.value.tries| == |views|
            && forall i :: 0 <= i < |views| ==> now.value.tries[i] == Try(views[i].channel, views[i].success)
  {
    var init, all := views[..|views| - 1], history + views;
    assert all[..|all| - 1] == history + init;
    if init == [] {
      assert history + init == history;
    } else {
      StretchRuns(history, init, services);
    }
  }

  lemma OneMoreSend(views: seq<View>, v: View)
    ensures Sends(views + [v]) == Sends(views) + if ShouldDeliver(Current(views), v) then 1 else 0
  {
    var all := views + [v];
    assert all[..|views|] == views;
    DeliveryIffUnsettled(all, |views|);
  }

  lemma SettledMeans(tries: seq<Try>)
    ensures Settled(tries) <==> |tries| >= 5 || exists i :: 0 <= i < |tries| && tries[i].success
  {
  }

  /** Tries that went as the runs did are settled by five runs or by one success. */
  lemma SettledAsRuns(tries: seq<Try>, views: seq<View>, services: set<ServiceId>)
    requires AllPresent(views, services) && |tries| == |views|
    requires forall i :: 0 <= i < |views| ==> tries[i] == Try(views[i].channel, views[i].success)
    ensures Settled(tries) <==> !(|views| < 5 && forall i :: 0 <= i < |views| ==> !views[i].success)
  {
    SettledMeans(tries);
    assert forall i :: 0 <= i < |views| ==> tries[i].success == views[i].success;
  }

  /** The run of a stretch that follows `views` delivers while fewer than five runs came before it and
      none of them succeeded. */
  lemma NextRun(history: seq<View>, views: seq<View>, v: View, services: set<ServiceId>)
    requires OutOf(Current(history), services) && AllPresent(views, services)
    requires v.Present? && v.meets && v.services == services
    ensures Sends(history + (views + [v])) == Sends(history + views)
              + if |views| < 5 && (forall i :: 0 <= i < |views| ==> !views[i].success) then 1 else 0
  {
    assert history + (views + [v]) == history + views + [v];
    OneMoreSend(history + views, v);
    if views == [] {
      assert history + views == history;
    } else {
      StretchRuns(history, views, services);
      SettledAsRuns(Current(history + views).value.tries, views, services);
    }
  }

  /** However long a pair stays open with failing deliveries, it is sent on the first five runs and
      on none after them, whatever its history was. */
  lemma {:induction false} FailingRuns(history: seq<View>, views: seq<View>, services: set<ServiceId>)
    requires OutOf(Current(history), services) && AllPresent(views, services) && AllFail(views)
    ensures Sends(history + views) == Sends(history) + if |views| <= 5 then |views| else 5
  {
    if views == [] {
      assert history + views == history;
    } else {
      var init, v := views[..|views| - 1], views[|views| - 1];
      assert views == init + [v];
      FailingRuns(history, init, services);
      NextRun(history, init, v, services);
    }
  }

  /** A success among the first five ends it: nothing is sent on later runs of the stretch. */
  lemma {:induction false} SuccessEnds(history: seq<View>, fails: seq<View>, ok: View, more: seq<View>,
                                       services: set<ServiceId>)
    requires OutOf(Current(history), services) && AllPresent(fails + [ok] + more, services)
    requires AllFail(fails) && |fails| < 5 && ok.Present? && ok.success
    ensures Sends(history + (fails + [ok] + more)) == Sends(history) + |fails| + 1
    decreases |more|
  {
    var upTo := fails + [ok];
    assert forall i :: 0 <= i < |fails| ==> (upTo + more)[i] == fails[i];
    assert (upTo + more)[|fails|] == ok;
    if more == [] {
      assert upTo + more == upTo;
      FailingRuns(history, fails, services);
      NextRun(history, fails, ok, services);
    } else {
      var init, v := more[..|more| - 1], more[|more| - 1];
      var before := upTo + init;
      assert upTo + more == before + [v] && (upTo + more)[|before|] == v;
      assert forall i :: 0 <= i < |before| ==> before[i] == (upTo + more)[i];
      SuccessEnds(history, fails, ok, init, services);
      NextRun(history, before, v, services);
      assert before[|fails|].success;
    }
  }

  /** A delivery leaves one active row, for the services and through the channel of the run that made it:
      sent with no attempts, or failed with one to five. */
  lemma DeliveredRow(views: seq<View>, v: View)
    requires ShouldDeliver(Current(views), v)
    ensures var active := ActiveRows(After(views + [v]));
            && |active| == 1 && active[0].services == v.services && active[0].channel == v.channel
            && if v.success then active[0].status == Sent && active[0].attempts == 0
               else active[0].status == NotSent && 1 <= active[0].attempts <= 5
  {
    var all, before, t := views + [v], Current(views), Try(v.channel, v.success);
    assert all[..|views|] == views;
    HistoryDeterminesRows(all);
    ActiveOfShaped(After(all));
    if OutOf(before, v.services) {
      assert Made([t]) == [t] by { assert [t][..0] == []; }
    } else {
      MadeStep(before.value.tries, t);
    }
  }

  /* ----- what every row keeps ----- */

  /** Only the status changes: services, channel and attempts of a resolved row stay as history. */
  predicate IsResolved(before: Row, after: Row) {
    && after.status == Resolved
    && after.services == before.services && after.channel == before.channel && after.attempts == before.attempts
  }

  /** How a run may change a row that exists: a resolved row never, a sent row only to resolved, a
      failed row to resolved, to sent with no attempts, or to failed with one attempt more. */
  ghost predicate Moves(before: Row, after: Row) {
    match before.status
    case Resolved => after == before
    case Sent => after == before || IsResolved(before, after)
    case NotSent =>
      || after == before
      || IsResolved(before, after)
      || (after.services == before.services && after.status == Sent && after.attempts == 0)
      || (after.services == before.services && after.status == NotSent && after.attempts == before.attempts + 1)
  }

  /** Sent rows carry no attempts, failed rows one to five. */
  predicate Counted(r: Row) {
    match r.status
    case Sent => r.attempts == 0
    case NotSent => 1 <= r.attempts <= 5
    case Resolved => true
  }

  /** One run on shaped rows appends at most one row and moves each row as `Moves` says. */
  lemma StepMoves(rows: seq<Row>, v: View)
    requires Shaped(rows)
    ensures |rows| <= |Step(rows, v)| <= |rows| + 1
    ensures forall i :: 0 <= i < |rows| ==> Moves(rows[i], Step(rows, v)[i])
  {
    if v.Present? && v.meets {
      ActionOnShaped(rows, v.services);
      HavingLast(rows, NotSent);
      if rows != [] {
        MaxOfOne(rows[|rows| - 1]);
      }
    }
  }

  lemma MaxOfOne(r: Row)
    ensures MaxAttempts([r]) == r.attempts
  {
  }

  /** A stretch never leaves an attempt count out of range. */
  lemma MatchesCounted(rows: seq<Row>, s: Option<Stretch>)
    requires Matches(rows, s)
    ensures forall i :: 0 <= i < |rows| ==> Counted(rows[i])
  {
  }

  /** Over all histories: rows are only appended, at most one at a time, each row moves as `Moves`
      says, attempt counts stay in range, and at most one row is active. */
  lemma RowLaws(views: seq<View>, v: View)
    ensures var rows, next := After(views), After(views + [v]);
            && |rows| <= |next| <= |rows| + 1
            && (forall i :: 0 <= i < |rows| ==> Moves(rows[i], next[i]))
            && (forall i :: 0 <= i < |next| ==> Counted(next[i]))
            && Shaped(next)
  {
    assert (views + [v])[..|views|] == views;
    HistoryDeterminesRows(views);
    HistoryDeterminesRows(views + [v]);
    StepMoves(After(views), v);
    MatchesCounted(After(views + [v]), Current(views + [v]));
  }

  lemma {:induction false} ActiveOfShaped(rows: seq<Row>)
    requires Shaped(rows)
    ensures ActiveRows(rows) == if rows != [] && Active(rows[|rows| - 1]) then [rows[|rows| - 1]] else []
  {
    if rows != [] {
      var init := rows[..|rows| - 1];
      assert Shaped(init);
      ActiveOfShaped(init);
    }
  }

  /** After a run the active rows agree with what the run saw, whatever came before: none when the
      pair is closed; exactly one, for the current services, when it is open and severe enough;
      and the rows are untouched when it is open below the threshold. */
  lemma RunAgrees(views: seq<View>, v: View)
    ensures var rows, next := After(views), After(views + [v]);
            match v
            case Unwatched => next == rows
            case Closed => ActiveRows(next) == []
            case Present(meets, services, _, _) =>
              if meets then |ActiveRows(next)| == 1 && ActiveRows(next)[0].services == services
              else next == rows
  {
    assert (views + [v])[..|views|] == views;
    HistoryDeterminesRows(views + [v]);
    ActiveOfShaped(After(views + [v]));
  }
}
