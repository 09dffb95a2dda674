/** The monitoring service (`MonitoringService`): the cache of the last metrics read
    from every server, and the alert log that throttles threshold alerts. Both are
    state values handed in and returned; the probes arrive as per-server outcomes
    and the clock as an instant. */
module MonitoringService {
  import opened Wrappers
  import opened Text
  import SshManager

  // ---------------------------------------------------------------------------
  // Time

  /** A clock reading in microseconds, the resolution of `datetime.now()`. */
  type Instant = int

  const MicrosPerSecond := 1000000
  const SecondsPerDay := 86400

  /** The throttle window of `check_alerts`, in seconds. */
  const AlertWindow := 600

  /** `(now - last).seconds`: the whole seconds of the elapsed time once the whole
      days are split off, as a `timedelta` normalises it. Within a day it is the
      elapsed time in whole seconds. */
  function ElapsedSeconds(last: Instant, now: Instant): (s: int)
    ensures 0 <= s < SecondsPerDay
    ensures 0 <= now - last < SecondsPerDay * MicrosPerSecond ==>
      s * MicrosPerSecond <= now - last < (s + 1) * MicrosPerSecond
  {
    ((now - last) / MicrosPerSecond) % SecondsPerDay
  }

  // ---------------------------------------------------------------------------
  // Alert keys

  /** The three checked figures. */
  datatype Metric = Cpu | Ram | Disk

  function MetricName(m: Metric): string {
    match m
    case Cpu => "cpu"
    case Ram => "ram"
    case Disk => "disk"
  }

  /** The order in which `check_alerts` visits the metrics. */
  function Rank(m: Metric): nat {
    match m
    case Cpu => 0
    case Ram => 1
    case Disk => 2
  }

  /** A key of the alert log: one metric of one server. */
  datatype AlertKey = AlertKey(server: int, metric: Metric)

  /** The `"{server_id}:{metric}"` text the log is keyed by. */
  function KeyText(k: AlertKey): string {
    IntToString(k.server) + ":" + MetricName(k.metric)
  }

  lemma IntToStringNoColon(i: int)
    ensures ':' !in IntToString(i)
  {
    var s := IntToString(i);
    if i < 0 {
      var d := NatToString(-i);
      assert s == "-" + d;
      assert forall k :: 0 <= k < |d| ==> d[k] != ':';
    } else {
      assert forall k :: 0 <= k < |s| ==> s[k] != ':';
    }
  }

  /** Different keys have different texts, so keying the log by (server, metric)
      pairs loses nothing. */
  lemma KeyTextInjective(a: AlertKey, b: AlertKey)
    requires KeyText(a) == KeyText(b)
    ensures a == b
  {
    var sa, sb := IntToString(a.server), IntToString(b.server);
    IntToStringNoColon(a.server);
    IntToStringNoColon(b.server);
    var t := KeyText(a);
    assert t[..|sa|] == sa && t[|sa|] == ':';
    assert t[..|sb|] == sb && t[|sb|] == ':';
    IndexOfFirst(t, ':', |sa|);
    IndexOfFirst(t, ':', |sb|);
    IntToStringInjective(a.server, b.server);
    assert MetricName(a.metric) == t[|sa| + 1..] == MetricName(b.metric);
  }

  // ---------------------------------------------------------------------------
  // Throttling one key

  /** What one check leaves for one key: whether it alerted, and the key's entry. */
  datatype KeyStep = KeyStep(fired: bool, entry: Option<Instant>)

  /** One key of `_alerts_sent` under one check: a breach alerts when the key has no
      entry or its entry is more than the window old (by `.seconds`), and then
      records `now`; a breach inside the window changes nothing; a reading under
      the threshold removes the entry. */
  function Throttle(entry: Option<Instant>, breached: bool, now: Instant): (r: KeyStep)
    ensures r.fired <==> breached && (entry.None? || ElapsedSeconds(entry.value, now) > AlertWindow)
    ensures r.fired ==> r.entry == Some(now)
    ensures breached && !r.fired ==> r.entry == entry
    ensures !breached ==> r.entry.None?
  {
    if !breached then KeyStep(false, None)
    else
      match entry
      case None => KeyStep(true, Some(now))
      case Some(last) =>
        if ElapsedSeconds(last, now) > AlertWindow then KeyStep(true, Some(now)) else KeyStep(false, entry)
  }

  /** A check of one key at one instant. */
  datatype KeyReading = KeyReading(at: Instant, breached: bool)

  /** How many alerts a series of checks of one key raised, and the entry left. */
  datatype KeyRun = KeyRun(count: nat, entry: Option<Instant>)

  function ThrottleRun(entry: Option<Instant>, rs: seq<KeyReading>): (r: KeyRun)
    ensures r.count <= |rs|
    decreases |rs|
  {
    if rs == [] then KeyRun(0, entry)
    else
      var step := Throttle(entry, rs[0].breached, rs[0].at);
      var rest := ThrottleRun(step.entry, rs[1..]);
      KeyRun((if step.fired then 1 else 0) + rest.count, rest.entry)
  }

  /** Up to and including exactly 600 seconds after an alert, a breach stays quiet. */
  lemma WithinWindowQuiet(last: Instant, now: Instant)
    requires 0 <= now - last < (AlertWindow + 1) * MicrosPerSecond
    ensures Throttle(Some(last), true, now) == KeyStep(false, Some(last))
  {
  }

  /** From 601 seconds on, and for the rest of that day, a breach alerts again. */
  lemma AfterWindowFires(last: Instant, now: Instant)
    requires (AlertWindow + 1) * MicrosPerSecond <= now - last < SecondsPerDay * MicrosPerSecond
    ensures Throttle(Some(last), true, now) == KeyStep(true, Some(now))
  {
  }

  /** `.seconds` drops whole days: a breach within the window's length after a whole
      day since the last alert is still suppressed. */
  lemma DayLaterQuiet(last: Instant, now: Instant)
    requires SecondsPerDay * MicrosPerSecond <= now - last < (SecondsPerDay + AlertWindow + 1) * MicrosPerSecond
    ensures Throttle(Some(last), true, now) == KeyStep(false, Some(last))
  {
    var q := (now - last) / MicrosPerSecond;
    assert SecondsPerDay <= q <= SecondsPerDay + AlertWindow;
    assert q % SecondsPerDay == q - SecondsPerDay;
  }

  /** Breaches that all fall within the window of an alert add nothing and keep
      the entry. */
  lemma {:induction false} QuietWithinWindow(last: Instant, rs: seq<KeyReading>)
    requires forall i :: 0 <= i < |rs| ==> rs[i].breached && 0 <= rs[i].at - last < (AlertWindow + 1) * MicrosPerSecond
    ensures ThrottleRun(Some(last), rs) == KeyRun(0, Some(last))
    decreases |rs|
  {
    if rs != [] {
      WithinWindowQuiet(last, rs[0].at);
      QuietWithinWindow(last, rs[1..]);
    }
  }

  /** A burst of breaches on a key with no entry, all within 600 seconds of the
      first, raises exactly one alert, stamped with the first instant. */
  lemma BurstAlertsOnce(first: KeyReading, rs: seq<KeyReading>)
    requires first.breached
    requires forall i :: 0 <= i < |rs| ==> rs[i].breached && 0 <= rs[i].at - first.at < (AlertWindow + 1) * MicrosPerSecond
    ensures ThrottleRun(None, [first] + rs) == KeyRun(1, Some(first.at))
  {
    assert ([first] + rs)[1..] == rs;
    QuietWithinWindow(first.at, rs);
  }

  /** A reading under the threshold clears the key, so the next breach alerts
      straight away, whatever the entry was. */
  lemma RecoveryRearms(entry: Option<Instant>, down: KeyReading, up: KeyReading)
    requires !down.breached && up.breached
    ensures ThrottleRun(entry, [down, up]) == KeyRun(1, Some(up.at))
  {
    assert [up][1..] == [];
    assert ThrottleRun(None, [up]) == KeyRun(1, Some(up.at));
    assert [down, up][1..] == [up];
  }

  // ---------------------------------------------------------------------------
  // check_alerts

  /** `_alerts_sent`: when each key last alerted. */
  type AlertLog = map<AlertKey, Instant>

  /** `ALERT_CPU_THRESHOLD`, `ALERT_RAM_THRESHOLD` and `ALERT_DISK_THRESHOLD`, in percent. */
  datatype Thresholds = Thresholds(cpu: int, ram: int, disk: int)

  const DefaultThresholds := Thresholds(90, 90, 85)

  /** One entry of the `checks` list: a metric, its reading and its threshold. */
  datatype Check = Check(metric: Metric, value: real, threshold: int)

  /** An alert message: the server name, the metric's label, the reading and the
      threshold it reached. */
  datatype Alert = Alert(serverName: string, metric: Metric, value: real, threshold: int)

  /** Alerts and the log after some checks. */
  datatype Outcome = Outcome(alerts: seq<Alert>, log: AlertLog)

  predicate Breached(c: Check) {
    c.value >= c.threshold as real
  }

  function AlertOf(name: string, c: Check): Alert {
    Alert(name, c.metric, c.value, c.threshold)
  }

  /** The check of one metric. Parsed metrics always carry every key, so the
      `.get(…, 0)` defaults never apply. */
  function CheckOf(m: SshManager.Metrics, t: Thresholds, metric: Metric): (c: Check)
    ensures c.metric == metric
    ensures metric == Cpu ==> c.value == m.cpuPercent && c.threshold == t.cpu
    ensures metric == Ram ==> c.value == m.ramPercent && c.threshold == t.ram
    ensures metric == Disk ==> c.value == m.diskPercent && c.threshold == t.disk
  {
    match metric
    case Cpu => Check(Cpu, m.cpuPercent, t.cpu)
    case Ram => Check(Ram, m.ramPercent, t.ram)
    case Disk => Check(Disk, m.diskPercent, t.disk)
  }

  /** The `checks` list, in its order. */
  function Checks(m: SshManager.Metrics, t: Thresholds): seq<Check> {
    [CheckOf(m, t, Cpu), CheckOf(m, t, Ram), CheckOf(m, t, Disk)]
  }

  /** One pass of the loop body: the check's key moves as `Throttle` says, an alert
      is added when it fires, and no other key changes. */
  function Evaluate(log: AlertLog, server: int, name: string, c: Check, now: Instant): (r: Outcome)
    ensures var step := Throttle(Get(log, AlertKey(server, c.metric)), Breached(c), now);
      && r.alerts == (if step.fired then [AlertOf(name, c)] else [])
      && Get(r.log, AlertKey(server, c.metric)) == step.entry
    ensures forall k :: k != AlertKey(server, c.metric) ==> Get(r.log, k) == Get(log, k)
  {
    var key := AlertKey(server, c.metric);
    var step := Throttle(Get(log, key), Breached(c), now);
    Outcome(if step.fired then [AlertOf(name, c)] else [],
            match step.entry
            case Some(at) => log[key := at]
            case None => log - {key})
  }

  /** The loop of `check_alerts` over a list of checks. */
  function Sweep(log: AlertLog, server: int, name: string, checks: seq<Check>, now: Instant): (r: Outcome)
    ensures |r.alerts| <= |checks|
    ensures forall k: AlertKey :: k.server != server ==> Get(r.log, k) == Get(log, k)
    decreases |checks|
  {
    if checks == [] then Outcome([], log)
    else
      var first := Evaluate(log, server, name, checks[0], now);
      var rest := Sweep(first.log, server, name, checks[1..], now);
      Outcome(first.alerts + rest.alerts, rest.log)
  }

  /** The sweep over three checks is the three loop passes in turn. */
  lemma SweepThree(log: AlertLog, server: int, name: string, c0: Check, c1: Check, c2: Check, now: Instant)
    ensures var e0 := Evaluate(log, server, name, c0, now);
      var e1 := Evaluate(e0.log, server, name, c1, now);
      var e2 := Evaluate(e1.log, server, name, c2, now);
      Sweep(log, server, name, [c0, c1, c2], now) == Outcome(e0.alerts + e1.alerts + e2.alerts, e2.log)
  {
    var e0 := Evaluate(log, server, name, c0, now);
    var e1 := Evaluate(e0.log, server, name, c1, now);
    var e2 := Evaluate(e1.log, server, name, c2, now);
    assert [c2][1..] == [];
    assert Sweep(e1.log, server, name, [c2], now) == Outcome(e2.alerts + [], e2.log);
    assert [c1, c2][1..] == [c2];
    assert Sweep(e0.log, server, name, [c1, c2], now) == Outcome(e1.alerts + (e2.alerts + []), e2.log);
    assert [c0, c1, c2][1..] == [c1, c2];
    assert e0.alerts + (e1.alerts + (e2.alerts + [])) == e0.alerts + e1.alerts + e2.alerts;
  }

  /** `check_alerts`: at most one alert per metric, in the order cpu, ram, disk, each
      carrying its reading and threshold; the log of every other server is left
      alone. */
  function CheckAlerts(log: AlertLog, server: int, name: string, m: SshManager.Metrics, t: Thresholds, now: Instant): (r: Outcome)
    ensures |r.alerts| <= 3
    ensures forall i, j :: 0 <= i < j < |r.alerts| ==> Rank(r.alerts[i].metric) < Rank(r.alerts[j].metric)
    ensures forall i :: 0 <= i < |r.alerts| ==> r.alerts[i] == AlertOf(name, CheckOf(m, t, r.alerts[i].metric))
    ensures forall k: AlertKey :: k.server != server ==> Get(r.log, k) == Get(log, k)
  {
    var c0, c1, c2 := CheckOf(m, t, Cpu), CheckOf(m, t, Ram), CheckOf(m, t, Disk);
    SweepThree(log, server, name, c0, c1, c2, now);
    var e0 := Evaluate(log, server, name, c0, now);
    var e1 := Evaluate(e0.log, server, name, c1, now);
    var e2 := Evaluate(e1.log, server, name, c2, now);
    AlertsInOrder(e0.alerts, e1.alerts, e2.alerts, name, m, t);
    Sweep(log, server, name, Checks(m, t), now)
  }

  /** At most one alert per metric, in the order of the `checks` list. */
  lemma AlertsInOrder(a0: seq<Alert>, a1: seq<Alert>, a2: seq<Alert>, name: string, m: SshManager.Metrics, t: Thresholds)
    requires a0 == [] || a0 == [AlertOf(name, CheckOf(m, t, Cpu))]
    requires a1 == [] || a1 == [AlertOf(name, CheckOf(m, t, Ram))]
    requires a2 == [] || a2 == [AlertOf(name, CheckOf(m, t, Disk))]
    ensures var r := a0 + a1 + a2;
      && |r| <= 3
      && (forall i, j :: 0 <= i < j < |r| ==> Rank(r[i].metric) < Rank(r[j].metric))
      && (forall i :: 0 <= i < |r| ==> r[i] == AlertOf(name, CheckOf(m, t, r[i].metric)))
  {
  }

  /** How many of the alerts are about `metric`. */
  function Count(alerts: seq<Alert>, metric: Metric): (n: nat)
    ensures n <= |alerts|
    decreases |alerts|
  {
    if alerts == [] then 0
    else (if alerts[0].metric == metric then 1 else 0) + Count(alerts[1..], metric)
  }

  lemma {:induction false} CountAppend(a: seq<Alert>, b: seq<Alert>, metric: Metric)
    ensures Count(a + b, metric) == Count(a, metric) + Count(b, metric)
    decreases |a|
  {
    if a != [] {
      assert (a + b)[1..] == a[1..] + b;
      CountAppend(a[1..], b, metric);
    } else {
      assert a + b == b;
    }
  }

  /** On a server with no alert logged, the sweep raises exactly the alerts
      whose readings reach their thresholds: CPU against the CPU threshold, RAM
      against the RAM threshold, disk against the disk threshold. */
  lemma FirstSweepAlerts(server: int, name: string, m: SshManager.Metrics, t: Thresholds, now: Instant)
    ensures var r := CheckAlerts(map[], server, name, m, t, now);
      && (Count(r.alerts, Cpu) == 1 <==> m.cpuPercent >= t.cpu as real)
      && (Count(r.alerts, Ram) == 1 <==> m.ramPercent >= t.ram as real)
      && (Count(r.alerts, Disk) == 1 <==> m.diskPercent >= t.disk as real)
  {
    CheckAlertsMetric(map[], server, name, m, t, now, Cpu);
    CheckAlertsMetric(map[], server, name, m, t, now, Ram);
    CheckAlertsMetric(map[], server, name, m, t, now, Disk);
  }

  /** Each metric is throttled on its own: `check_alerts` raises an alert about a
      metric exactly when that metric's key fires, and leaves that key's entry as
      `Throttle` does, whatever the other two metrics read. */
  lemma CheckAlertsMetric(log: AlertLog, server: int, name: string, m: SshManager.Metrics, t: Thresholds, now: Instant, metric: Metric)
    ensures var r := CheckAlerts(log, server, name, m, t, now);
      var key := AlertKey(server, metric);
      var step := Throttle(Get(log, key), Breached(CheckOf(m, t, metric)), now);
      && Count(r.alerts, metric) == (if step.fired then 1 else 0)
      && Get(r.log, key) == step.entry
  {
    var c0, c1, c2 := CheckOf(m, t, Cpu), CheckOf(m, t, Ram), CheckOf(m, t, Disk);
    SweepThree(log, server, name, c0, c1, c2, now);
    var e0 := Evaluate(log, server, name, c0, now);
    var e1 := Evaluate(e0.log, server, name, c1, now);
    var e2 := Evaluate(e1.log, server, name, c2, now);
    CountAppend(e0.alerts, e1.alerts, metric);
    CountAppend(e0.alerts + e1.alerts, e2.alerts, metric);
    var key := AlertKey(server, metric);
    match metric
    case Cpu =>
      assert Get(e2.log, key) == Get(e1.log, key) == Get(e0.log, key);
    case Ram =>
      assert Get(e0.log, key) == Get(log, key);
      assert Get(e2.log, key) == Get(e1.log, key);
    case Disk =>
      assert Get(e1.log, key) == Get(e0.log, key) == Get(log, key);
  }

  // ---------------------------------------------------------------------------
  // Repeated checks of one server

  /** Metrics read from one server at one instant. */
  datatype Reading = Reading(at: Instant, metrics: SshManager.Metrics)

  /** `check_alerts` run on each reading in turn. */
  function Monitor(log: AlertLog, server: int, name: string, t: Thresholds, rs: seq<Reading>): (r: Outcome)
    ensures |r.alerts| <= 3 * |rs|
    decreases |rs|
  {
    if rs == [] then Outcome([], log)
    else
      var first := CheckAlerts(log, server, name, rs[0].metrics, t, rs[0].at);
      var rest := Monitor(first.log, server, name, t, rs[1..]);
      Outcome(first.alerts + rest.alerts, rest.log)
  }

  /** What the readings say about one metric. */
  function KeyReadings(rs: seq<Reading>, t: Thresholds, metric: Metric): (ks: seq<KeyReading>)
    ensures |ks| == |rs|
    decreases |rs|
  {
    if rs == [] then []
    else [KeyReading(rs[0].at, Breached(CheckOf(rs[0].metrics, t, metric)))] + KeyReadings(rs[1..], t, metric)
  }

  /** Over any number of runs, the alerts about a metric and its key's entry are
      exactly those of throttling that metric's readings alone. */
  lemma {:induction false} MonitorMetric(log: AlertLog, server: int, name: string, t: Thresholds, rs: seq<Reading>, metric: Metric)
    ensures var r := Monitor(log, server, name, t, rs);
      var run := ThrottleRun(Get(log, AlertKey(server, metric)), KeyReadings(rs, t, metric));
      Count(r.alerts, metric) == run.count && Get(r.log, AlertKey(server, metric)) == run.entry
    decreases |rs|
  {
    if rs != [] {
      var first := CheckAlerts(log, server, name, rs[0].metrics, t, rs[0].at);
      var rest := Monitor(first.log, server, name, t, rs[1..]);
      var k := KeyReading(rs[0].at, Breached(CheckOf(rs[0].metrics, t, metric)));
      MonitorCons(log, server, name, t, rs, metric);
      CheckAlertsMetric(log, server, name, rs[0].metrics, t, rs[0].at, metric);
      MonitorMetric(first.log, server, name, t, rs[1..], metric);
      CountAppend(first.alerts, rest.alerts, metric);
      RunCons(Get(log, AlertKey(server, metric)), k, KeyReadings(rs[1..], t, metric));
    }
  }

  lemma MonitorCons(log: AlertLog, server: int, name: string, t: Thresholds, rs: seq<Reading>, metric: Metric)
    requires rs != []
    ensures var first := CheckAlerts(log, server, name, rs[0].metrics, t, rs[0].at);
      var rest := Monitor(first.log, server, name, t, rs[1..]);
      && Monitor(log, server, name, t, rs) == Outcome(first.alerts + rest.alerts, rest.log)
      && KeyReadings(rs, t, metric)
        == [KeyReading(rs[0].at, Breached(CheckOf(rs[0].metrics, t, metric)))] + KeyReadings(rs[1..], t, metric)
  {
  }

  lemma RunCons(entry: Option<Instant>, k: KeyReading, ks: seq<KeyReading>)
    ensures var step := Throttle(entry, k.breached, k.at);
      var rest := ThrottleRun(step.entry, ks);
      ThrottleRun(entry, [k] + ks) == KeyRun((if step.fired then 1 else 0) + rest.count, rest.entry)
  {
    assert ([k] + ks)[1..] == ks;
  }

  /** A metric over its threshold in every reading of a 600-second stretch, with no
      earlier alert on record, is reported exactly once. */
  lemma MonitorBurstAlertsOnce(log: AlertLog, server: int, name: string, t: Thresholds, rs: seq<Reading>, metric: Metric)
    requires AlertKey(server, metric) !in log
    requires |rs| > 0
    requires forall i :: 0 <= i < |rs| ==>
      Breached(CheckOf(rs[i].metrics, t, metric)) && 0 <= rs[i].at - rs[0].at < (AlertWindow + 1) * MicrosPerSecond
    ensures Count(Monitor(log, server, name, t, rs).alerts, metric) == 1
  {
    MonitorMetric(log, server, name, t, rs, metric);
    var ks := KeyReadings(rs, t, metric);
    assert ks == [ks[0]] + ks[1..];
    assert forall i :: 0 <= i < |ks| ==> ks[i] == KeyReading(rs[i].at, Breached(CheckOf(rs[i].metrics, t, metric))) by {
      KeyReadingsAt(rs, t, metric);
    }
    BurstAlertsOnce(ks[0], ks[1..]);
  }

  lemma {:induction false} KeyReadingsAt(rs: seq<Reading>, t: Thresholds, metric: Metric)
    ensures forall i :: 0 <= i < |rs| ==>
      KeyReadings(rs, t, metric)[i] == KeyReading(rs[i].at, Breached(CheckOf(rs[i].metrics, t, metric)))
    decreases |rs|
  {
    if rs != [] {
      KeyReadingsAt(rs[1..], t, metric);
    }
  }

  // ---------------------------------------------------------------------------
  // The metrics cache

  /** `_last_metrics`: the last metrics read from each server. */
  type Cache = map<int, SshManager.Metrics>

  /** `get_cached_metrics`: the cached record of a server, if any. */
  function GetCachedMetrics(cache: Cache, id: int): (r: Option<SshManager.Metrics>)
    ensures r.Some? <==> id in cache
    ensures r.Some? ==> r.value == cache[id]
  {
    Get(cache, id)
  }

  /** One server's probe as `_collect_one` hands it back: the metrics, or `None`
      when `get_metrics` gave none or raised. */
  datatype Collected = Collected(server: int, metrics: Option<SshManager.Metrics>)

  /** What `collect_all` returns, and the cache it leaves. */
  datatype Collection = Collection(results: map<int, Option<SshManager.Metrics>>, cache: Cache)

  function ServerIds(cs: seq<Collected>): set<int> {
    set i | 0 <= i < |cs| :: cs[i].server
  }

  /** `collect_all`: a result for every probed server, `None` for the failures; the
      cache gains or replaces an entry only for a server that returned metrics, and
      keeps every other entry. */
  function CollectAll(cache: Cache, cs: seq<Collected>): (r: Collection)
    ensures r.results.Keys == ServerIds(cs)
    ensures cache.Keys <= r.cache.Keys
    ensures forall id :: id !in ServerIds(cs) ==> Get(r.cache, id) == Get(cache, id)
    decreases |cs|
  {
    if cs == [] then Collection(map[], cache)
    else
      var prev := CollectAll(cache, cs[..|cs| - 1]);
      var last := cs[|cs| - 1];
      assert ServerIds(cs) == ServerIds(cs[..|cs| - 1]) + {last.server} by {
        assert forall i :: 0 <= i < |cs| - 1 ==> cs[..|cs| - 1][i] == cs[i];
      }
      Collection(prev.results[last.server := last.metrics],
                 match last.metrics
                 case Some(m) => prev.cache[last.server := m]
                 case None => prev.cache)
  }

  predicate DistinctServers(cs: seq<Collected>) {
    forall i, j :: 0 <= i < j < |cs| ==> cs[i].server != cs[j].server
  }

  /** With one probe per server (the ids are the table's keys), each server's
      result is its probe's outcome, and its cache entry is the fresh metrics or,
      when the probe failed, the entry it had. */
  lemma {:induction false} CollectAllEntry(cache: Cache, cs: seq<Collected>, i: nat)
    requires DistinctServers(cs) && i < |cs|
    ensures var r := CollectAll(cache, cs);
      && r.results[cs[i].server] == cs[i].metrics
      && Get(r.cache, cs[i].server) == (if cs[i].metrics.Some? then cs[i].metrics else Get(cache, cs[i].server))
    decreases |cs|
  {
    var init := cs[..|cs| - 1];
    assert forall j :: 0 <= j < |init| ==> init[j] == cs[j];
    if i == |cs| - 1 {
      assert cs[i].server !in ServerIds(init);
    } else {
      CollectAllEntry(cache, init, i);
    }
  }

  /** What `collect_server` returns, and the cache it leaves. */
  datatype Fetched = Fetched(metrics: Option<SshManager.Metrics>, cache: Cache)

  /** `collect_server`: nothing, and no probe, for an unknown server; otherwise the
      probe's outcome, cached when there is one. No other server's entry changes. */
  function CollectServer(cache: Cache, id: int, known: bool, probe: Option<SshManager.Metrics>): (r: Fetched)
    ensures !known ==> r == Fetched(None, cache)
    ensures known ==> r.metrics == probe
    ensures forall k :: k != id ==> Get(r.cache, k) == Get(cache, k)
  {
    if !known then Fetched(None, cache)
    else
      match probe
      case Some(m) => Fetched(probe, cache[id := m])
      case None => Fetched(None, cache)
  }

  /** After `collect_server`, `get_cached_metrics` gives the fresh metrics when the
      probe succeeded and the earlier entry otherwise. */
  lemma CollectThenGet(cache: Cache, id: int, known: bool, probe: Option<SshManager.Metrics>)
    ensures GetCachedMetrics(CollectServer(cache, id, known, probe).cache, id)
      == (if known && probe.Some? then probe else GetCachedMetrics(cache, id))
  {
  }
}
