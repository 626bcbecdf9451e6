/** Performance and resource monitoring of the backend
    (backend/modules/monitoring.py): per-endpoint request logs capped at the
    newest hundred entries, per-endpoint error counters, a throttled history
    of CPU and memory readings capped at sixty, the performance summary, the
    health verdict and the reset. Clock readings and psutil's measurements
    are parameters; the lock is left out, as each operation here is one
    atomic step. */
module Monitoring {
  import opened Common

  const MaxRequestLog: nat := 100
  const MaxSystemHistory: nat := 60
  /** Seconds between two system-statistics updates. */
  const UpdatePeriod: real := 5.0

  datatype Entry = Entry(duration: real, timestamp: real, success: bool)

  datatype Sample = Sample(value: real, timestamp: real)

  /** `performance_stats` and `system_stats` together. A key missing from
      `requests` or `errors` reads as the empty log or zero, as a
      `defaultdict` would. */
  datatype Stats = Stats(
    requests: map<string, seq<Entry>>,
    errors: map<string, nat>,
    totalRequests: nat,
    startTime: real,
    cpuUsage: seq<Sample>,
    memoryUsage: seq<Sample>,
    lastUpdate: real)

  function Log(s: Stats, endpoint: string): seq<Entry>
  {
    if endpoint in s.requests then s.requests[endpoint] else []
  }

  function ErrorCount(s: Stats, endpoint: string): nat
  {
    if endpoint in s.errors then s.errors[endpoint] else 0
  }

  /** The bounds every reachable state keeps. */
  predicate WellFormed(s: Stats)
  {
    (forall e :: e in s.requests ==> 0 < |s.requests[e]| <= MaxRequestLog)
    && |s.cpuUsage| <= MaxSystemHistory && |s.memoryUsage| <= MaxSystemHistory
  }

  /** The state at import time, or after `reset_stats` at time `now`. */
  function Fresh(now: real): (s: Stats)
    ensures WellFormed(s)
    ensures forall e :: Log(s, e) == [] && ErrorCount(s, e) == 0
  {
    Stats(map[], map[], 0, now, [], [], 0.0)
  }

  /** `reset_stats()`: everything cleared, the uptime clock restarted and the
      throttle reopened. */
  function ResetStats(s: Stats, now: real): (r: Stats)
    ensures WellFormed(r) && r.totalRequests == 0 && r.startTime == now && r.lastUpdate == 0.0
    ensures forall e :: Log(r, e) == [] && ErrorCount(r, e) == 0
  {
    Fresh(now)
  }

  /** `record_request(endpoint, duration, success)` at time `now`: the entry
      joins the endpoint's log, which then keeps its newest hundred; the
      total grows by one; nothing else changes. */
  function RecordRequest(s: Stats, endpoint: string, duration: real, success: bool, now: real): (r: Stats)
    ensures Log(r, endpoint) == KeepLast(Log(s, endpoint) + [Entry(duration, now, success)], MaxRequestLog)
    ensures forall e :: e != endpoint ==> Log(r, e) == Log(s, e)
    ensures r.totalRequests == s.totalRequests + 1
    ensures r.errors == s.errors && r.cpuUsage == s.cpuUsage && r.memoryUsage == s.memoryUsage
    ensures r.startTime == s.startTime && r.lastUpdate == s.lastUpdate
    ensures WellFormed(s) ==> WellFormed(r)
  {
    var log := KeepLast(Log(s, endpoint) + [Entry(duration, now, success)], MaxRequestLog);
    s.(requests := s.requests[endpoint := log], totalRequests := s.totalRequests + 1)
  }

  /** `record_error(endpoint)`. */
  function RecordError(s: Stats, endpoint: string): (r: Stats)
    ensures ErrorCount(r, endpoint) == ErrorCount(s, endpoint) + 1
    ensures forall e :: e != endpoint ==> ErrorCount(r, e) == ErrorCount(s, e)
    ensures r.requests == s.requests && r.totalRequests == s.totalRequests
    ensures forall e :: Log(r, e) == Log(s, e)
    ensures WellFormed(s) ==> WellFormed(r)
  {
    s.(errors := s.errors[endpoint := ErrorCount(s, endpoint) + 1])
  }

  /** The name a wrapped call is logged under: the given endpoint name, or
      the function's own name when that is empty. */
  function EndpointOf(endpointName: string, funcName: string): string
  {
    if endpointName == "" then funcName else endpointName
  }

  /** How the wrapped function's call ended: it returned a value or raised
      an exception. */
  datatype Outcome<T> = Returned(value: T) | Raised(exception: string)

  /** The bookkeeping the wrapper does for one call on `endpoint`: the
      request is recorded, and also counted as an error when the call
      raised. */
  function LogCall(s: Stats, endpoint: string, duration: real, raised: bool, now: real): (r: Stats)
    ensures r.totalRequests == s.totalRequests + 1
    ensures r.requests == RecordRequest(s, endpoint, duration, !raised, now).requests
    ensures ErrorCount(r, endpoint) == ErrorCount(s, endpoint) + (if raised then 1 else 0)
    ensures WellFormed(s) ==> WellFormed(r)
  {
    var logged := RecordRequest(s, endpoint, duration, !raised, now);
    if raised then RecordError(logged, endpoint) else logged
  }

  /** The `monitor_performance(endpoint_name)` wrapper around one call of
      the function `funcName` that ended with `outcome`: the request is
      logged under the given name, or the function's when the name is
      empty; a call that raised is also counted as an error. The wrapper
      hands the caller the same outcome: the value is returned and the
      exception re-raised. */
  function MonitorPerformance<T>(s: Stats, endpointName: string, funcName: string,
                                 outcome: Outcome<T>, duration: real, now: real): (r: (Stats, Outcome<T>))
    ensures r.1 == outcome
    ensures r.0.totalRequests == s.totalRequests + 1
    ensures r.0.requests == RecordRequest(s, EndpointOf(endpointName, funcName), duration, outcome.Returned?, now).requests
    ensures ErrorCount(r.0, EndpointOf(endpointName, funcName))
      == ErrorCount(s, EndpointOf(endpointName, funcName)) + (if outcome.Raised? then 1 else 0)
    ensures WellFormed(s) ==> WellFormed(r.0)
  {
    (LogCall(s, EndpointOf(endpointName, funcName), duration, outcome.Raised?, now), outcome)
  }

  /** The wrapper touches no other endpoint's log or error count. */
  lemma MonitorLeavesOthers<T>(s: Stats, endpointName: string, funcName: string,
                               outcome: Outcome<T>, duration: real, now: real, e: string)
    requires e != EndpointOf(endpointName, funcName)
    ensures var r := MonitorPerformance(s, endpointName, funcName, outcome, duration, now).0;
            Log(r, e) == Log(s, e) && ErrorCount(r, e) == ErrorCount(s, e)
  {
  }

  /** The wrapped call's entry joins its endpoint's log, which keeps its
      newest hundred, whether or not the call raised. */
  lemma MonitorLogsCall<T>(s: Stats, endpointName: string, funcName: string,
                           outcome: Outcome<T>, duration: real, now: real)
    ensures var ep := EndpointOf(endpointName, funcName);
            Log(MonitorPerformance(s, endpointName, funcName, outcome, duration, now).0, ep)
            == KeepLast(Log(s, ep) + [Entry(duration, now, outcome.Returned?)], MaxRequestLog)
  {
  }

  // ---------------------------------------------------------------------
  // The log keeps the newest hundred

  /** Trimming before or after appending one entry gives the same tail. */
  lemma KeepLastSnoc<T>(h: seq<T>, x: T, n: nat)
    requires n > 0
    ensures KeepLast(KeepLast(h, n) + [x], n) == KeepLast(h + [x], n)
  {
    if |h| >= n {
      var k := h[|h| - n..];
      assert KeepLast(h, n) == k;
      assert KeepLast(k + [x], n) == (k + [x])[1..];
      assert (k + [x])[1..] == h[|h| - n + 1..] + [x];
      assert KeepLast(h + [x], n) == (h + [x])[|h| + 1 - n..];
      assert (h + [x])[|h| + 1 - n..] == h[|h| + 1 - n..] + [x];
    }
  }

  /** Records `requests` for one endpoint in order, each as `(duration,
      success, time)`. */
  function RecordAll(s: Stats, endpoint: string, calls: seq<Entry>): (r: Stats)
    ensures r.totalRequests == s.totalRequests + |calls|
    ensures forall e :: e != endpoint ==> Log(r, e) == Log(s, e)
    decreases |calls|
  {
    if |calls| == 0 then s
    else
      var last := calls[|calls| - 1];
      RecordRequest(RecordAll(s, endpoint, calls[..|calls| - 1]), endpoint, last.duration, last.success,
                    last.timestamp)
  }

  /** Whatever was recorded, an endpoint's log is the newest hundred of
      everything it had plus everything recorded since. */
  lemma {:induction false} LogIsNewestHundred(s: Stats, endpoint: string, calls: seq<Entry>)
    ensures Log(RecordAll(s, endpoint, calls), endpoint)
      == if |calls| == 0 then Log(s, endpoint) else KeepLast(Log(s, endpoint) + calls, MaxRequestLog)
    decreases |calls|
  {
    if |calls| > 0 {
      var h := Log(s, endpoint);
      var init := calls[..|calls| - 1];
      var last := calls[|calls| - 1];
      RecordAllLast(s, endpoint, calls);
      LogIsNewestHundred(s, endpoint, init);
      AppendLast(h, calls);
      if |init| > 0 {
        KeepLastSnoc(h + init, last, MaxRequestLog);
      }
    }
  }

  lemma AppendLast<T>(h: seq<T>, calls: seq<T>)
    requires |calls| > 0
    ensures h + calls == (h + calls[..|calls| - 1]) + [calls[|calls| - 1]]
  {
    assert calls == calls[..|calls| - 1] + [calls[|calls| - 1]];
  }

  lemma RecordAllLast(s: Stats, endpoint: string, calls: seq<Entry>)
    requires |calls| > 0
    ensures Log(RecordAll(s, endpoint, calls), endpoint)
      == KeepLast(Log(RecordAll(s, endpoint, calls[..|calls| - 1]), endpoint) + [calls[|calls| - 1]], MaxRequestLog)
  {
    var last := calls[|calls| - 1];
    assert Entry(last.duration, last.timestamp, last.success) == last;
  }

  // ---------------------------------------------------------------------
  // System statistics

  /** What psutil gave: both readings, the CPU reading failed, or the CPU
      reading succeeded and the memory reading failed. */
  datatype Probe = ProbeOk(cpu: real, memory: real) | CpuFails | MemoryFails(cpu: real)

  /** `update_system_stats()` at time `now`: nothing within five seconds of
      the last update; otherwise each successful reading is appended to its
      sixty-entry history, and the update time moves only when both
      readings succeeded. */
  function UpdateSystemStats(s: Stats, now: real, probe: Probe): (r: Stats)
    ensures now - s.lastUpdate < UpdatePeriod ==> r == s
    ensures now - s.lastUpdate >= UpdatePeriod ==>
      r.requests == s.requests && r.errors == s.errors && r.totalRequests == s.totalRequests
      && (r.lastUpdate == now <==> probe.ProbeOk?) && (!probe.ProbeOk? ==> r.lastUpdate == s.lastUpdate)
      && (r.cpuUsage == if probe.CpuFails? then s.cpuUsage
                        else KeepLast(s.cpuUsage + [Sample(probe.cpu, now)], MaxSystemHistory))
      && (r.memoryUsage == if probe.ProbeOk? then KeepLast(s.memoryUsage + [Sample(probe.memory, now)], MaxSystemHistory)
                           else s.memoryUsage)
    ensures WellFormed(s) ==> WellFormed(r)
  {
    if now - s.lastUpdate < UpdatePeriod then s
    else match probe
      case CpuFails => s
      case MemoryFails(cpu) => s.(cpuUsage := KeepLast(s.cpuUsage + [Sample(cpu, now)], MaxSystemHistory))
      case ProbeOk(cpu, memory) =>
        s.(cpuUsage := KeepLast(s.cpuUsage + [Sample(cpu, now)], MaxSystemHistory),
           memoryUsage := KeepLast(s.memoryUsage + [Sample(memory, now)], MaxSystemHistory),
           lastUpdate := now)
  }

  /** Right after a successful update, the next one within five seconds is
      a no-op whatever psutil reports. */
  lemma UpdateIsThrottled(s: Stats, now: real, later: real, probe: Probe, probe2: Probe)
    requires now - s.lastUpdate >= UpdatePeriod && probe.ProbeOk?
    requires now <= later < now + UpdatePeriod
    ensures var t := UpdateSystemStats(s, now, probe); UpdateSystemStats(t, later, probe2) == t
  {
  }

  // ---------------------------------------------------------------------
  // The performance summary

  function SuccessCount(log: seq<Entry>): (n: nat)
    ensures n <= |log|
  {
    if |log| == 0 then 0 else SuccessCount(log[..|log| - 1]) + (if log[|log| - 1].success then 1 else 0)
  }

  /** The positions below `k` of successful entries. */
  function SuccessfulBelow(log: seq<Entry>, k: nat): set<nat>
  {
    set i: nat | i < k && i < |log| && log[i].success
  }

  /** The successful entries, as an independent count. */
  lemma SuccessCountIsFilter(log: seq<Entry>)
    ensures SuccessCount(log) == |set i | 0 <= i < |log| && log[i].success|
  {
    SuccessCountPrefix(log, |log|);
    assert log[..|log|] == log;
    assert (set i | 0 <= i < |log| && log[i].success) == SuccessfulBelow(log, |log|);
  }

  lemma {:induction false} SuccessCountPrefix(log: seq<Entry>, k: nat)
    requires k <= |log|
    ensures SuccessCount(log[..k]) == |SuccessfulBelow(log, k)|
  {
    if k > 0 {
      SuccessCountPrefix(log, k - 1);
      assert log[..k][..k - 1] == log[..k - 1];
      var last: set<nat> := if log[k - 1].success then {k - 1} else {};
      assert SuccessfulBelow(log, k) == SuccessfulBelow(log, k - 1) + last;
      assert SuccessfulBelow(log, k - 1) !! last;
    } else {
      assert SuccessfulBelow(log, 0) == {};
    }
  }

  function Sum(xs: seq<real>): real
  {
    if |xs| == 0 then 0.0 else Sum(xs[..|xs| - 1]) + xs[|xs| - 1]
  }

  function Min(xs: seq<real>): (m: real)
    requires |xs| > 0
    ensures m in xs && forall i :: 0 <= i < |xs| ==> m <= xs[i]
  {
    if |xs| == 1 then xs[0]
    else
      var m := Min(xs[..|xs| - 1]);
      assert m in xs[..|xs| - 1];
      if xs[|xs| - 1] < m then xs[|xs| - 1] else m
  }

  function Max(xs: seq<real>): (m: real)
    requires |xs| > 0
    ensures m in xs && forall i :: 0 <= i < |xs| ==> xs[i] <= m
  {
    if |xs| == 1 then xs[0]
    else
      var m := Max(xs[..|xs| - 1]);
      assert m in xs[..|xs| - 1];
      if xs[|xs| - 1] > m then xs[|xs| - 1] else m
  }

  function Durations(log: seq<Entry>): (d: seq<real>)
    ensures |d| == |log| && forall i :: 0 <= i < |log| ==> d[i] == log[i].duration
  {
    seq(|log|, i requires 0 <= i < |log| => log[i].duration)
  }

  datatype EndpointSummary = EndpointSummary(
    totalRequests: nat,
    successCount: nat,
    errorCount: nat,
    successRate: real,
    avgDuration: real,
    minDuration: real,
    maxDuration: real)

  /** One endpoint's entry of the summary; its log is non-empty. The
      success count is the number of successful entries, the rate is that
      share as a percentage, the average is the mean duration, and the
      minimum and maximum are durations of the log bounding all others. */
  function SummarizeEndpoint(log: seq<Entry>, errors: nat): (r: EndpointSummary)
    requires |log| > 0
    ensures r.totalRequests == |log| && r.errorCount == errors
    ensures r.successCount == |set i | 0 <= i < |log| && log[i].success|
    ensures r.successCount <= r.totalRequests
    ensures r.successRate == r.successCount as real / |log| as real * 100.0
    ensures 0.0 <= r.successRate <= 100.0
    ensures r.successRate == 100.0 <==> forall i :: 0 <= i < |log| ==> log[i].success
    ensures r.avgDuration == Sum(Durations(log)) / |log| as real
    ensures exists i :: 0 <= i < |log| && r.minDuration == log[i].duration
    ensures exists i :: 0 <= i < |log| && r.maxDuration == log[i].duration
    ensures r.minDuration <= r.maxDuration
    ensures forall i :: 0 <= i < |log| ==> r.minDuration <= log[i].duration <= r.maxDuration
  {
    var d := Durations(log);
    var ok := SuccessCount(log);
    SuccessCountIsFilter(log);
    AllSuccessful(log);
    DurationAt(log, Min(d));
    DurationAt(log, Max(d));
    assert d[0] == log[0].duration;
    var q := ok as real / |log| as real;
    RateBounds(ok, |log|);
    EndpointSummary(|log|, ok, errors, q * 100.0,
                    Sum(d) / |log| as real, Min(d), Max(d))
  }

  lemma DurationAt(log: seq<Entry>, m: real)
    requires m in Durations(log)
    ensures exists i :: 0 <= i < |log| && m == log[i].duration
  {
    var i :| 0 <= i < |Durations(log)| && Durations(log)[i] == m;
  }

  /** A share of `n` items as a percentage lies in [0, 100] and is 100
      exactly when it is the whole. */
  lemma RateBounds(ok: nat, n: nat)
    requires 0 < n && ok <= n
    ensures var q := ok as real / n as real; 0.0 <= q * 100.0 <= 100.0 && (q * 100.0 == 100.0 <==> ok == n)
  {
    var q := ok as real / n as real;
    assert q * n as real == ok as real;
    if q == 1.0 {
      assert ok as real == n as real;
    }
  }

  /** Every entry succeeded exactly when the success count is the length. */
  lemma {:induction false} AllSuccessful(log: seq<Entry>)
    ensures SuccessCount(log) == |log| <==> forall i :: 0 <= i < |log| ==> log[i].success
  {
    if |log| > 0 {
      var n := |log| - 1;
      AllSuccessful(log[..n]);
      assert forall i :: 0 <= i < n ==> log[..n][i] == log[i];
    }
  }

  datatype Summary = Summary(
    uptime: real,
    totalRequests: nat,
    endpoints: map<string, EndpointSummary>,
    currentCpu: real,
    currentMemory: real,
    cpuHistory: seq<Sample>,
    memoryHistory: seq<Sample>)

  /** `get_performance_summary()` at time `now`: endpoints with an empty log
      are skipped; the system statistics are updated (with `probe`) before
      the histories are read. Returns the summary and the updated state. */
  function GetPerformanceSummary(s: Stats, now: real, probe: Probe, currentCpu: real, currentMemory: real)
    : (r: (Summary, Stats))
    ensures r.1 == UpdateSystemStats(s, now, probe)
    ensures r.0.uptime == now - s.startTime && r.0.totalRequests == s.totalRequests
    ensures forall e :: e in r.0.endpoints <==> e in s.requests && s.requests[e] != []
    ensures forall e :: e in s.requests && s.requests[e] != [] ==>
      e in r.0.endpoints && r.0.endpoints[e] == SummarizeEndpoint(s.requests[e], ErrorCount(s, e))
    ensures forall e :: e in r.0.endpoints ==>
      r.0.endpoints[e].totalRequests == |s.requests[e]| && r.0.endpoints[e].errorCount == ErrorCount(s, e)
      && r.0.endpoints[e].successCount <= r.0.endpoints[e].totalRequests
    ensures r.0.cpuHistory == r.1.cpuUsage && r.0.memoryHistory == r.1.memoryUsage
  {
    var endpoints := map e | e in s.requests && s.requests[e] != [] :: SummarizeEndpoint(s.requests[e], ErrorCount(s, e));
    var t := UpdateSystemStats(s, now, probe);
    (Summary(now - s.startTime, s.totalRequests, endpoints, currentCpu, currentMemory, t.cpuUsage, t.memoryUsage), t)
  }

  // ---------------------------------------------------------------------
  // Health

  const CpuLimit: real := 80.0
  const MemoryLimit: real := 85.0
  const DiskLimit: real := 90.0

  /** psutil's readings for the health check, or the exception it raised. */
  datatype HealthProbe = Measured(cpu: real, memory: real, disk: real) | HealthProbeFailed(reason: string)

  /** One warning of the health verdict; its text is the kind's prefix
      ("CPU使用率过高: ", "内存使用率过高: ", "磁盘使用率过高: ", "无法获取系统信息: ")
      followed by the value or the reason. */
  datatype HealthWarning = CpuHigh(cpu: real) | MemoryHigh(memory: real) | DiskHigh(disk: real) | NoSystemInfo(reason: string)

  datatype Health = Health(healthy: bool, warnings: seq<HealthWarning>, uptime: real)

  /** `get_health_status()` at time `now`: one warning per reading over its
      limit, in the order CPU, memory, disk; healthy exactly when there is
      none. A failed probe is unhealthy with a single warning. */
  function GetHealthStatus(s: Stats, now: real, probe: HealthProbe): (h: Health)
    ensures h.uptime == now - s.startTime
    ensures h.healthy <==> h.warnings == []
    ensures probe.HealthProbeFailed? ==> h.warnings == [NoSystemInfo(probe.reason)]
    ensures probe.Measured? ==>
      (h.healthy <==> probe.cpu <= CpuLimit && probe.memory <= MemoryLimit && probe.disk <= DiskLimit)
      && (CpuHigh(probe.cpu) in h.warnings <==> probe.cpu > CpuLimit)
      && (MemoryHigh(probe.memory) in h.warnings <==> probe.memory > MemoryLimit)
      && (DiskHigh(probe.disk) in h.warnings <==> probe.disk > DiskLimit)
      && |h.warnings| == (if probe.cpu > CpuLimit then 1 else 0) + (if probe.memory > MemoryLimit then 1 else 0)
                          + (if probe.disk > DiskLimit then 1 else 0)
  {
    match probe
    case HealthProbeFailed(reason) => Health(false, [NoSystemInfo(reason)], now - s.startTime)
    case Measured(cpu, memory, disk) =>
      var w := (if cpu > CpuLimit then [CpuHigh(cpu)] else [])
             + (if memory > MemoryLimit then [MemoryHigh(memory)] else [])
             + (if disk > DiskLimit then [DiskHigh(disk)] else []);
      Health(w == [], w, now - s.startTime)
  }

  /** The position of a warning kind in the verdict's fixed order. */
  function Rank(w: HealthWarning): nat
  {
    match w
    case CpuHigh(_) => 0
    case MemoryHigh(_) => 1
    case DiskHigh(_) => 2
    case NoSystemInfo(_) => 3
  }

  /** Warnings come in the fixed order CPU, memory, disk, whichever limits
      are breached, so no kind is listed twice; with all three breached
      the list is exactly those three. */
  lemma HealthWarningOrder(s: Stats, now: real, probe: HealthProbe)
    ensures var w := GetHealthStatus(s, now, probe).warnings;
            forall i, j :: 0 <= i < j < |w| ==> Rank(w[i]) < Rank(w[j])
    ensures probe.Measured? && probe.cpu > CpuLimit && probe.memory > MemoryLimit && probe.disk > DiskLimit ==>
      GetHealthStatus(s, now, probe).warnings == [CpuHigh(probe.cpu), MemoryHigh(probe.memory), DiskHigh(probe.disk)]
  {
  }
}
