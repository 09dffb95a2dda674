/** The two scheduled jobs of `services/scheduler.py`: the monitoring job (probe
    every active server, check alerts for those that answered, send each alert)
    and the daily payment reminder job (remind about unpaid payments whose
    days-left is one of the reminder offsets, recording each offset once it was
    sent). Time, the probes and the outcome of each send are inputs. */
module Scheduler {
  import opened Wrappers
  import opened Text
  import Dates
  import Database
  import SshManager
  import MonitoringService
  import Formatters

  /** `MONITOR_INTERVAL`, seconds between monitoring runs. */
  const MonitorInterval := 300

  /** `REMINDER_DAYS` by default. */
  const DefaultReminderDays := [7, 3, 1, 0]

  /** Both jobs return at once unless a bot is set up and `GROUP_ID` is non-zero. */
  predicate Enabled(botPresent: bool, groupId: int) {
    botPresent && groupId != 0
  }

  // ---------------------------------------------------------------------------
  // monitoring_job

  /** The monitoring service's state: the alert log and the metrics cache. */
  datatype MonitorState = MonitorState(log: MonitoringService.AlertLog, cache: MonitoringService.Cache)

  /** The alerts a run tried to send, and the state it left. */
  datatype MonitorRound = MonitorRound(attempted: seq<MonitoringService.Alert>, state: MonitorState)

  /** `if metrics:` on `results.get(sid)`. */
  predicate HasMetrics(results: map<int, Option<SshManager.Metrics>>, id: int) {
    id in results && results[id].Some?
  }

  /** The ids of the listed servers that came back with metrics. */
  function CheckedIds(results: map<int, Option<SshManager.Metrics>>, servers: seq<Database.Server>): (ids: set<int>)
    ensures forall id :: id in ids ==> HasMetrics(results, id)
    decreases |servers|
  {
    if servers == [] then {}
    else (if HasMetrics(results, servers[0].id) then {servers[0].id} else {}) + CheckedIds(results, servers[1..])
  }

  /** The loop over the servers: `check_alerts` for each one with metrics, in
      list order, the alert log threaded through. */
  function AlertRound(log: MonitoringService.AlertLog, results: map<int, Option<SshManager.Metrics>>,
                      servers: seq<Database.Server>, t: MonitoringService.Thresholds, now: MonitoringService.Instant): (r: MonitoringService.Outcome)
    ensures |r.alerts| <= 3 * |servers|
    ensures forall k: MonitoringService.AlertKey :: k.server !in CheckedIds(results, servers) ==> Get(r.log, k) == Get(log, k)
    decreases |servers|
  {
    if servers == [] then MonitoringService.Outcome([], log)
    else
      var s := servers[0];
      var first := if HasMetrics(results, s.id)
        then MonitoringService.CheckAlerts(log, s.id, s.name, results[s.id].value, t, now)
        else MonitoringService.Outcome([], log);
      var rest := AlertRound(first.log, results, servers[1..], t, now);
      MonitoringService.Outcome(first.alerts + rest.alerts, rest.log)
  }

  /** The ids of the active servers. */
  function ActiveIds(store: Database.Store): set<int> {
    set s | s in Database.ActiveServers(store.servers) :: s.id
  }

  /** `probes` are the outcomes `collect_all` gathers: one for each server of
      `get_servers()`, in list order. */
  predicate ProbesActive(store: Database.Store, probes: seq<MonitoringService.Collected>) {
    var servers := Database.ActiveServers(store.servers);
    |probes| == |servers| && forall i :: 0 <= i < |probes| ==> probes[i].server == servers[i].id
  }

  /** Exactly the active servers are probed. */
  lemma ProbedAreActive(store: Database.Store, probes: seq<MonitoringService.Collected>)
    requires ProbesActive(store, probes)
    ensures MonitoringService.ServerIds(probes) == ActiveIds(store)
  {
    var servers := Database.ActiveServers(store.servers);
    forall id | id in ActiveIds(store)
      ensures id in MonitoringService.ServerIds(probes)
    {
      var x :| x in servers && x.id == id;
      var i :| 0 <= i < |servers| && servers[i] == x;
      assert probes[i].server == id;
    }
    forall id | id in MonitoringService.ServerIds(probes)
      ensures id in ActiveIds(store)
    {
      var i :| 0 <= i < |probes| && probes[i].server == id;
      assert servers[i] in servers;
    }
  }

  /** `collect_all` returns an entry for every active server and for no other id. */
  lemma CollectCoversActive(cache: MonitoringService.Cache, store: Database.Store, probes: seq<MonitoringService.Collected>)
    requires ProbesActive(store, probes)
    ensures MonitoringService.CollectAll(cache, probes).results.Keys == ActiveIds(store)
  {
    ProbedAreActive(store, probes);
  }

  /** `monitoring_job`: collect from every active server, then check the alerts
      of each server that answered. Nothing happens when the job is disabled. */
  function MonitoringJob(enabled: bool, st: MonitorState, store: Database.Store, probes: seq<MonitoringService.Collected>,
                         t: MonitoringService.Thresholds, now: MonitoringService.Instant): (r: MonitorRound)
    requires ProbesActive(store, probes)
    ensures !enabled ==> r == MonitorRound([], st)
    ensures enabled ==> forall id :: id !in ActiveIds(store) ==> Get(r.state.cache, id) == Get(st.cache, id)
    ensures enabled ==> forall k: MonitoringService.AlertKey :: k.server !in ActiveIds(store) ==>
      Get(r.state.log, k) == Get(st.log, k)
    ensures enabled ==> forall id :: id !in MonitoringService.ServerIds(probes) ==>
      Get(r.state.cache, id) == Get(st.cache, id)
    ensures enabled ==> forall k: MonitoringService.AlertKey :: k.server !in MonitoringService.ServerIds(probes) ==>
      Get(r.state.log, k) == Get(st.log, k)
  {
    ProbedAreActive(store, probes);
    if !enabled then MonitorRound([], st)
    else
      var col := MonitoringService.CollectAll(st.cache, probes);
      var out := AlertRound(st.log, col.results, Database.ActiveServers(store.servers), t, now);
      MonitorRound(out.alerts, MonitorState(out.log, col.cache))
  }

  /** Each active server's probe lands in the cache: the fresh metrics, or the
      entry it had when the probe failed. Server ids are the table's primary
      key, so the probes name distinct servers. */
  lemma JobCachesProbe(st: MonitorState, store: Database.Store, probes: seq<MonitoringService.Collected>,
                       t: MonitoringService.Thresholds, now: MonitoringService.Instant, i: nat)
    requires ProbesActive(store, probes) && MonitoringService.DistinctServers(probes) && i < |probes|
    ensures var r := MonitoringJob(true, st, store, probes, t, now);
      Get(r.state.cache, probes[i].server)
        == (if probes[i].metrics.Some? then probes[i].metrics else Get(st.cache, probes[i].server))
  {
    MonitoringService.CollectAllEntry(st.cache, probes, i);
  }

  /** The alerts that reach the chat: a failed send is logged and skipped. */
  function Deliver(attempted: seq<MonitoringService.Alert>, ok: seq<bool>): (r: seq<MonitoringService.Alert>)
    requires |ok| == |attempted|
    ensures |r| <= |attempted|
    decreases |attempted|
  {
    if attempted == [] then []
    else (if ok[0] then [attempted[0]] else []) + Deliver(attempted[1..], ok[1..])
  }

  /** A failed send does not stop the loop: what follows is delivered exactly as
      if the earlier sends had gone through, and every successful send arrives. */
  lemma {:induction false} DeliverSplit(a1: seq<MonitoringService.Alert>, ok1: seq<bool>, a2: seq<MonitoringService.Alert>, ok2: seq<bool>)
    requires |ok1| == |a1| && |ok2| == |a2|
    ensures Deliver(a1 + a2, ok1 + ok2) == Deliver(a1, ok1) + Deliver(a2, ok2)
    decreases |a1|
  {
    if a1 != [] {
      assert (a1 + a2)[1..] == a1[1..] + a2;
      assert (ok1 + ok2)[1..] == ok1[1..] + ok2;
      DeliverSplit(a1[1..], ok1[1..], a2, ok2);
    } else {
      assert a1 + a2 == a2 && ok1 + ok2 == ok2;
    }
  }

  lemma {:induction false} DeliverSucceeded(attempted: seq<MonitoringService.Alert>, ok: seq<bool>, i: nat)
    requires |ok| == |attempted| && i < |attempted| && ok[i]
    ensures attempted[i] in Deliver(attempted, ok)
    decreases i
  {
    if i > 0 {
      DeliverSucceeded(attempted[1..], ok[1..], i - 1);
    }
  }

  lemma AlertRoundOne(log: MonitoringService.AlertLog, results: map<int, Option<SshManager.Metrics>>,
                      s: Database.Server, t: MonitoringService.Thresholds, now: MonitoringService.Instant)
    requires HasMetrics(results, s.id)
    ensures AlertRound(log, results, [s], t, now) == MonitoringService.CheckAlerts(log, s.id, s.name, results[s.id].value, t, now)
  {
    var first := MonitoringService.CheckAlerts(log, s.id, s.name, results[s.id].value, t, now);
    assert [s][1..] == [];
    assert first.alerts + [] == first.alerts;
  }

  /** The alert is recorded when it is raised, before it is sent: if its send
      fails, a run inside the window does not raise it again. */
  lemma FailedAlertNotResent(log: MonitoringService.AlertLog, s: Database.Server, m: SshManager.Metrics,
                             t: MonitoringService.Thresholds, now: MonitoringService.Instant, later: MonitoringService.Instant,
                             metric: MonitoringService.Metric)
    requires MonitoringService.Breached(MonitoringService.CheckOf(m, t, metric))
    requires Get(log, MonitoringService.AlertKey(s.id, metric)).None?
    requires 0 <= later - now < (MonitoringService.AlertWindow + 1) * MonitoringService.MicrosPerSecond
    ensures var results := map[s.id := Some(m)];
      var first := AlertRound(log, results, [s], t, now);
      var second := AlertRound(first.log, results, [s], t, later);
      MonitoringService.Count(first.alerts, metric) == 1 && MonitoringService.Count(second.alerts, metric) == 0
  {
    var results := map[s.id := Some(m)];
    AlertRoundOne(log, results, s, t, now);
    var first := AlertRound(log, results, [s], t, now);
    MonitoringService.CheckAlertsMetric(log, s.id, s.name, m, t, now, metric);
    AlertRoundOne(first.log, results, s, t, later);
    MonitoringService.CheckAlertsMetric(first.log, s.id, s.name, m, t, later, metric);
    MonitoringService.WithinWindowQuiet(now, later);
  }

  // ---------------------------------------------------------------------------
  // payment_reminder_job

  /** The offsets recorded in `notified_days` (NULL read as empty): split on
      commas, each piece stripped, empty pieces dropped. */
  function ParseNotified(stored: Option<string>): (r: seq<string>)
    ensures Offsets(r)
  {
    var parts := SplitOn(stored.GetOr(""), ",");
    SplitOnPieces(stored.GetOr(""), ",");
    Clean(parts)
  }

  /** Non-empty, stripped, comma-free texts. */
  ghost predicate Offsets(xs: seq<string>) {
    forall i :: 0 <= i < |xs| ==> xs[i] != "" && Trimmed(xs[i]) && ',' !in xs[i]
  }

  /** `[x.strip() for x in parts if x.strip()]` */
  function Clean(parts: seq<string>): (r: seq<string>)
    requires forall i :: 0 <= i < |parts| ==> ',' !in parts[i]
    ensures Offsets(r)
    decreases |parts|
  {
    if parts == [] then []
    else
      var x := Strip(parts[0]);
      StripAbsent(parts[0], ',');
      (if x != "" then [x] else []) + Clean(parts[1..])
  }

  lemma {:induction false} CleanOffsets(xs: seq<string>)
    requires Offsets(xs)
    ensures Clean(xs) == xs
    decreases |xs|
  {
    if xs != [] {
      StripTrimmed(xs[0]);
      CleanOffsets(xs[1..]);
      assert [xs[0]] + xs[1..] == xs;
    }
  }

  /** Reading back a list stored by the job gives the list. */
  lemma NotifiedRoundTrip(xs: seq<string>)
    requires |xs| >= 1 && Offsets(xs)
    ensures ParseNotified(Some(Join(xs, ","))) == xs
  {
    SplitJoin(xs, ",");
    CleanOffsets(xs);
  }

  /** `str(days_left)` is a valid offset. */
  lemma OffsetText(d: int)
    ensures Offsets([IntToString(d)])
  {
    IntToStringTrimmed(d);
    IntToStringAbsent(d, ',');
  }

  /** A reminder the job tried to send. */
  datatype Attempt = Attempt(payment: int, daysLeft: int, message: Formatters.Reminder)

  /** What one payment of the loop leaves: the attempt, if any, and the store. */
  datatype Step = Step(attempt: Option<Attempt>, store: Database.Store)

  /** Whether the reminder for these days is due: an offset, and not yet recorded. */
  predicate Due(p: Database.Payment, daysLeft: int, reminderDays: seq<int>) {
    daysLeft in reminderDays && IntToString(daysLeft) !in ParseNotified(p.notifiedDays)
  }

  /** The stored list after a successful send of the reminder for `daysLeft`. */
  function Recorded(p: Database.Payment, daysLeft: int): string {
    Join(ParseNotified(p.notifiedDays) + [IntToString(daysLeft)], ",")
  }

  /** One pass of the loop body for a payment whose due date parsed: when a
      reminder is due it is attempted, and only a successful send appends the
      offset and persists the list. */
  function RemindOne(store: Database.Store, p: Database.Payment, due: Dates.Date, today: Dates.Date,
                     reminderDays: seq<int>, delivered: set<int>): (r: Step)
    requires Dates.Valid(due) && Dates.Valid(today)
    ensures r.attempt.Some? <==> Due(p, Dates.DaysLeft(due, today), reminderDays)
    ensures r.attempt.Some? ==>
      (r.attempt.value.payment == p.id && r.attempt.value.daysLeft == Dates.DaysLeft(due, today)
       && r.attempt.value.daysLeft in reminderDays)
    ensures r.store != store ==> r.attempt.Some? && p.id in delivered
  {
    var d := Dates.DaysLeft(due, today);
    if Due(p, d, reminderDays) then
      var message := Formatters.PaymentReminder(p, Database.ServerName(store, p), d);
      Step(Some(Attempt(p.id, d, message)),
           if p.id in delivered then Database.UpdatePaymentNotified(store, p.id, Recorded(p, d)) else store)
    else Step(None, store)
  }

  /** A failed send leaves the store as it was, so the next run (which sees the
      same row) attempts the same reminder again. */
  lemma RetryAfterFailure(store: Database.Store, p: Database.Payment, due: Dates.Date, today: Dates.Date,
                          reminderDays: seq<int>, delivered: set<int>, later: set<int>)
    requires Dates.Valid(due) && Dates.Valid(today)
    requires RemindOne(store, p, due, today, reminderDays, delivered).attempt.Some? && p.id !in delivered
    ensures RemindOne(store, p, due, today, reminderDays, delivered).store == store
    ensures RemindOne(store, p, due, today, reminderDays, later).attempt.Some?
  {
  }

  /** After a successful send the row records the offset, and a second run on the
      same day, reading that row, attempts nothing and changes nothing. */
  lemma SecondRunQuiet(store: Database.Store, p: Database.Payment, due: Dates.Date, today: Dates.Date,
                       reminderDays: seq<int>, delivered: set<int>, later: set<int>)
    requires Dates.Valid(due) && Dates.Valid(today)
    requires RemindOne(store, p, due, today, reminderDays, delivered).attempt.Some? && p.id in delivered
    ensures var d := Dates.DaysLeft(due, today);
      var after := RemindOne(store, p, due, today, reminderDays, delivered).store;
      var p2 := p.(notifiedDays := Some(Recorded(p, d)));
      && (forall i :: 0 <= i < |store.payments| && store.payments[i] == p ==> after.payments[i] == p2)
      && RemindOne(after, p2, due, today, reminderDays, later) == Step(None, after)
  {
    var d := Dates.DaysLeft(due, today);
    var xs := ParseNotified(p.notifiedDays) + [IntToString(d)];
    OffsetText(d);
    assert Offsets(xs) by {
      forall i | 0 <= i < |xs|
        ensures xs[i] != "" && Trimmed(xs[i]) && ',' !in xs[i]
      {
        if i == |xs| - 1 {
          assert xs[i] == [IntToString(d)][0];
        }
      }
    }
    NotifiedRoundTrip(xs);
    assert IntToString(d) == xs[|xs| - 1];
  }

  /** What a reminder run did: its attempts, the store it left, and whether an
      unparsable due date ended it early. */
  datatype Run = Run(attempts: seq<Attempt>, store: Database.Store, aborted: bool)

  /** Rows may differ only in `notified_days`. */
  ghost predicate OnlyNotified(a: Database.Store, b: Database.Store) {
    && b.servers == a.servers && b.ledger == a.ledger && b.settings == a.settings && b.admins == a.admins
    && |b.payments| == |a.payments|
    && forall i :: 0 <= i < |a.payments| ==> b.payments[i] == a.payments[i].(notifiedDays := b.payments[i].notifiedDays)
  }

  lemma OnlyNotifiedTrans(a: Database.Store, b: Database.Store, c: Database.Store)
    requires OnlyNotified(a, b) && OnlyNotified(b, c)
    ensures OnlyNotified(a, c)
  {
    forall i | 0 <= i < |a.payments|
      ensures c.payments[i] == a.payments[i].(notifiedDays := c.payments[i].notifiedDays)
    {
      assert b.payments[i] == a.payments[i].(notifiedDays := b.payments[i].notifiedDays);
    }
  }

  lemma RemindOneOnlyNotified(store: Database.Store, p: Database.Payment, due: Dates.Date, today: Dates.Date,
                              reminderDays: seq<int>, delivered: set<int>)
    requires Dates.Valid(due) && Dates.Valid(today)
    ensures OnlyNotified(store, RemindOne(store, p, due, today, reminderDays, delivered).store)
  {
  }

  /** The loop over the snapshot of unpaid payments. A due date that does not
      parse raises out of the job: the remaining payments are skipped, what was
      persisted stays. */
  function RemindAll(store: Database.Store, ps: seq<Database.Payment>, today: Dates.Date,
                     reminderDays: seq<int>, delivered: set<int>): (r: Run)
    requires Dates.Valid(today)
    ensures |r.attempts| <= |ps|
    ensures forall i :: 0 <= i < |r.attempts| ==> r.attempts[i].daysLeft in reminderDays
    ensures OnlyNotified(store, r.store)
    decreases |ps|
  {
    if ps == [] then Run([], store, false)
    else
      match Dates.ParseIsoDate(ps[0].dueDate)
      case None => Run([], store, true)
      case Some(due) =>
        var step := RemindOne(store, ps[0], due, today, reminderDays, delivered);
        RemindOneOnlyNotified(store, ps[0], due, today, reminderDays, delivered);
        var rest := RemindAll(step.store, ps[1..], today, reminderDays, delivered);
        OnlyNotifiedTrans(store, step.store, rest.store);
        Run((if step.attempt.Some? then [step.attempt.value] else []) + rest.attempts, rest.store, rest.aborted)
  }

  /** `payment_reminder_job`: the loop over `get_payments(active_only=True)`. */
  function ReminderJob(enabled: bool, store: Database.Store, today: Dates.Date, reminderDays: seq<int>,
                       delivered: set<int>): (r: Run)
    requires Dates.Valid(today)
    ensures !enabled ==> r == Run([], store, false)
    ensures OnlyNotified(store, r.store)
  {
    if !enabled then Run([], store, false)
    else RemindAll(store, Database.GetPayments(store, true), today, reminderDays, delivered)
  }

  /** Which reminders a run attempts is decided by the snapshot alone: the
      outcome of the sends, and the store they update, change nothing about it. */
  lemma {:induction false} AttemptsIgnoreDelivery(s1: Database.Store, s2: Database.Store, ps: seq<Database.Payment>,
                                                  today: Dates.Date, reminderDays: seq<int>, d1: set<int>, d2: set<int>)
    requires Dates.Valid(today)
    requires forall p :: p in ps ==> Database.ServerName(s1, p) == Database.ServerName(s2, p)
    requires s1.servers == s2.servers
    ensures RemindAll(s1, ps, today, reminderDays, d1).attempts == RemindAll(s2, ps, today, reminderDays, d2).attempts
    ensures RemindAll(s1, ps, today, reminderDays, d1).aborted == RemindAll(s2, ps, today, reminderDays, d2).aborted
    decreases |ps|
  {
    if ps != [] {
      match Dates.ParseIsoDate(ps[0].dueDate)
      case None =>
      case Some(due) =>
        var a := RemindOne(s1, ps[0], due, today, reminderDays, d1);
        var b := RemindOne(s2, ps[0], due, today, reminderDays, d2);
        assert a.attempt == b.attempt;
        RemindOneOnlyNotified(s1, ps[0], due, today, reminderDays, d1);
        RemindOneOnlyNotified(s2, ps[0], due, today, reminderDays, d2);
        assert forall p :: p in ps[1..] ==> p in ps;
        AttemptsIgnoreDelivery(a.store, b.store, ps[1..], today, reminderDays, d1, d2);
    }
  }

  /** A due date that does not parse ends the run before anything is attempted. */
  lemma BadDueDateAborts(store: Database.Store, p: Database.Payment, ps: seq<Database.Payment>,
                         today: Dates.Date, reminderDays: seq<int>, delivered: set<int>)
    requires Dates.Valid(today) && Dates.ParseIsoDate(p.dueDate).None?
    ensures RemindAll(store, [p] + ps, today, reminderDays, delivered) == Run([], store, true)
  {
  }

  /** With the default offsets, the reminders read "in 7 days", "in 3 days",
      "tomorrow" and "today". */
  lemma DefaultOffsetsUrgency()
    ensures Formatters.UrgencyOf(DefaultReminderDays[0]) == Formatters.Later(7)
    ensures Formatters.UrgencyOf(DefaultReminderDays[1]) == Formatters.Soon(3)
    ensures Formatters.UrgencyOf(DefaultReminderDays[2]) == Formatters.Tomorrow
    ensures Formatters.UrgencyOf(DefaultReminderDays[3]) == Formatters.Today
  {
  }
}
