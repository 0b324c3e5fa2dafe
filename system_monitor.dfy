/** `SystemMonitor`: metrics and a log list that are replaced by fresh data on
    mount and on every tick while live, a log filter by service whose choices
    are 'all' followed by the services present in the logs, and a guard that
    renders nothing until both metrics and logs exist. The data itself is
    produced at random in the component and is taken here as input. */
module SystemMonitor {
  import opened Seqs

  datatype LogLevel = Info | Warning | Error | Critical

  datatype LogEntry = LogEntry(id: string, timestamp: string, level: LogLevel, service: string, message: string)

  datatype Metrics = Metrics(
    cpu: int, memory: int, disk: int, upload: int, download: int, processes: int, uptime: string)

  /** The choice that shows every log. */
  const AllServices: string := "all"

  /** `log => log.service === selectedService` */
  function HasService(service: string): LogEntry -> bool
  {
    (log: LogEntry) => log.service == service
  }

  /** `filteredLogs` */
  function FilteredLogs(logs: seq<LogEntry>, selectedService: string): (r: seq<LogEntry>)
    ensures |r| <= |logs|
    ensures forall log :: log in r ==> log in logs
  {
    if selectedService == AllServices then logs else Filter(logs, HasService(selectedService))
  }

  /** 'all' shows every log; a service shows exactly its logs, each as often
      as it occurs, in order. */
  lemma FilteredLogsSpec(logs: seq<LogEntry>, service: string)
    ensures FilteredLogs(logs, AllServices) == logs
    ensures service != AllServices ==>
      forall log :: log in FilteredLogs(logs, service) <==> log in logs && log.service == service
    ensures service != AllServices ==> forall log ::
      multiset(FilteredLogs(logs, service))[log] == if log.service == service then multiset(logs)[log] else 0
    ensures service != AllServices ==> IsSubsequence(FilteredLogs(logs, service), logs)
  {
    forall log | service != AllServices
      ensures log in FilteredLogs(logs, service) <==> log in logs && log.service == service
      ensures multiset(FilteredLogs(logs, service))[log] == if log.service == service then multiset(logs)[log] else 0
    {
      FilterMembership(logs, HasService(service), log);
      FilterMultiset(logs, HasService(service), log);
    }
    FilterIsSubsequence(logs, HasService(service));
  }

  /** `logs.map(log => log.service)` */
  function ServiceNames(logs: seq<LogEntry>): seq<string>
  {
    seq(|logs|, i requires 0 <= i < |logs| => logs[i].service)
  }

  /** `Array.from(new Set(xs))`: each value once, in the order a `Set` keeps,
      which is the order in which values were first inserted. */
  function Unique(xs: seq<string>): (u: seq<string>)
    ensures Distinct(u)
    ensures forall x :: x in u <==> x in xs
  {
    if xs == [] then []
    else
      var prefix := xs[..|xs| - 1];
      assert xs == prefix + [xs[|xs| - 1]];
      var u := Unique(prefix);
      if xs[|xs| - 1] in u then u else u + [xs[|xs| - 1]]
  }

  /** Position of the first occurrence of `x` in `xs`. */
  function FirstIndex(xs: seq<string>, x: string): (i: nat)
    requires x in xs
    ensures i < |xs| && xs[i] == x && x !in xs[..i]
  {
    if xs[0] == x then 0 else 1 + FirstIndex(xs[1..], x)
  }

  /** Appending values does not move a first occurrence. */
  lemma FirstIndexOfPrefix(a: seq<string>, b: seq<string>, x: string)
    requires x in a
    ensures FirstIndex(a + b, x) == FirstIndex(a, x)
  {
    var k := FirstIndex(a, x);
    assert (a + b)[k] == x && (a + b)[..k] == a[..k];
  }

  /** `Unique` lists values in the order of their first occurrence. */
  lemma {:induction false} UniqueFirstOccurrenceOrder(xs: seq<string>, i: int, j: int)
    requires 0 <= i < j < |Unique(xs)|
    ensures FirstIndex(xs, Unique(xs)[i]) < FirstIndex(xs, Unique(xs)[j])
  {
    var n := |xs|;
    var prefix, last := xs[..n - 1], xs[n - 1];
    assert xs == prefix + [last];
    var u := Unique(prefix);
    assert Unique(xs)[i] in u;
    FirstIndexOfPrefix(prefix, [last], Unique(xs)[i]);
    if j < |u| {
      UniqueFirstOccurrenceOrder(prefix, i, j);
      FirstIndexOfPrefix(prefix, [last], Unique(xs)[j]);
    } else {
      assert Unique(xs)[j] == last && last !in prefix;
      assert xs[..n - 1] == prefix;
    }
  }

  /** `services`: the choices of the service filter. */
  function Services(logs: seq<LogEntry>): (s: seq<string>)
    ensures |s| >= 1 && s[0] == AllServices
    ensures forall x :: x in s[1..] <==> x in ServiceNames(logs)
  {
    assert ([AllServices] + Unique(ServiceNames(logs)))[1..] == Unique(ServiceNames(logs));
    [AllServices] + Unique(ServiceNames(logs))
  }

  /** The choices start with 'all', then list each service of the logs once
      and nothing else. */
  lemma ServicesSpec(logs: seq<LogEntry>)
    ensures Services(logs)[0] == AllServices
    ensures Distinct(Services(logs)[1..])
    ensures forall log :: log in logs ==> log.service in Services(logs)
    ensures forall s :: s in Services(logs)[1..] ==> exists k :: 0 <= k < |logs| && logs[k].service == s
  {
    var names := ServiceNames(logs);
    assert Services(logs)[1..] == Unique(names);
    forall log | log in logs
      ensures log.service in Services(logs)
    {
      var k :| 0 <= k < |logs| && logs[k] == log;
      assert names[k] == log.service;
    }
    forall s | s in Services(logs)[1..]
      ensures exists k :: 0 <= k < |logs| && logs[k].service == s
    {
      var k :| 0 <= k < |names| && names[k] == s;
    }
  }

  /** The services after 'all' come in the order in which they first occur in
      the logs. */
  lemma ServicesOrder(logs: seq<LogEntry>, i: int, j: int)
    requires 1 <= i < j < |Services(logs)|
    ensures FirstIndex(ServiceNames(logs), Services(logs)[i]) < FirstIndex(ServiceNames(logs), Services(logs)[j])
  {
    UniqueFirstOccurrenceOrder(ServiceNames(logs), i - 1, j - 1);
  }

  /** What the component renders once it has data. */
  datatype Screen = Screen(metrics: Metrics, logs: seq<LogEntry>, services: seq<string>, isLive: bool)

  /** The component's state. */
  class SystemMonitorView {
    var metrics: Option<Metrics>
    var logs: Option<seq<LogEntry>>
    var selectedService: string
    var isLive: bool

    constructor ()
      ensures metrics == None && logs == None && selectedService == AllServices && isLive
    {
      metrics, logs := None, None;
      selectedService := AllServices;
      isLive := true;
    }

    /** The render: `null` until both metrics and logs are set. */
    function Render(): (r: Option<Screen>)
      reads this
      ensures r.Some? <==> metrics.Some? && logs.Some?
      ensures r.Some? ==> r.value.metrics == metrics.value && r.value.isLive == isLive
      ensures r.Some? ==> r.value.logs == FilteredLogs(logs.value, selectedService)
      ensures r.Some? ==> r.value.services == Services(logs.value)
    {
      match (metrics, logs)
      case (Some(m), Some(l)) => Some(Screen(m, FilteredLogs(l, selectedService), Services(l), isLive))
      case _ => None
    }

    /** The mount effect: fresh metrics and logs. */
    method Mount(m: Metrics, l: seq<LogEntry>)
      modifies this
      ensures metrics == Some(m) && logs == Some(l)
      ensures selectedService == old(selectedService) && isLive == old(isLive)
      ensures Render().Some?
    {
      metrics, logs := Some(m), Some(l);
    }

    /** One tick of the three-second interval, which runs only while live. */
    method Tick(m: Metrics, l: seq<LogEntry>)
      requires isLive
      modifies this
      ensures metrics == Some(m) && logs == Some(l)
      ensures selectedService == old(selectedService) && isLive
    {
      metrics, logs := Some(m), Some(l);
    }

    /** The start/stop button. */
    method ToggleLive()
      modifies this
      ensures isLive == !old(isLive)
      ensures metrics == old(metrics) && logs == old(logs) && selectedService == old(selectedService)
    {
      isLive := !isLive;
    }

    /** The service `<select>`'s `onChange`. */
    method SelectService(service: string)
      modifies this
      ensures selectedService == service
      ensures metrics == old(metrics) && logs == old(logs) && isLive == old(isLive)
    {
      selectedService := service;
    }
  }
}
