/** What the Lightsail adapter concludes from its eight reads: the saturated month-to-date sums, the
    verdict on firewall and alarms, and when it may report HEALTHY. */
module Lightsail {
  import opened Models
  import opened AlarmPages
  import opened Firewalls

  // ---------- metric points ----------

  /** A datapoint of a metric response; anything that is not a finite number counts as unusable. */
  datatype RawPoint = Unusable | Number(value: real)

  /** The usable values of a response: non-negative numbers. */
  function Values(points: seq<RawPoint>): seq<real> {
    if points == [] then
      []
    else
      var last := points[|points| - 1];
      Values(points[..|points| - 1]) + if last.Number? && last.value >= 0.0 then [last.value] else []
  }

  lemma {:induction false} ValuesAreNonNegative(points: seq<RawPoint>)
    ensures forall i | 0 <= i < |Values(points)| :: Values(points)[i] >= 0.0
  {
    if points == [] {
    } else {
      ValuesAreNonNegative(points[..|points| - 1]);
    }
  }

  method MetricValues(points: seq<RawPoint>) returns (values: seq<real>)
    ensures values == Values(points)
    ensures forall i | 0 <= i < |values| :: values[i] >= 0.0
  {
    values := [];
    for i := 0 to |points|
      invariant values == Values(points[..i])
    {
      assert points[..i + 1][..|points[..i + 1]| - 1] == points[..i];
      if points[i].Number? && points[i].value >= 0.0 {
        values := values + [points[i].value];
      }
    }
    assert points[..|points|] == points;
    ValuesAreNonNegative(points);
  }

  /** The exact, unbounded sum of the whole parts of the values. */
  function Total(values: seq<real>): int {
    if values == [] then 0 else Total(values[..|values| - 1]) + values[|values| - 1].Floor
  }

  function Saturate(n: int): int {
    if n <= MAX_INTEGER then n else MAX_INTEGER
  }

  function MonthSum(points: seq<RawPoint>): Option<int> {
    if Values(points) == [] then None else Some(Saturate(Total(Values(points))))
  }

  /** Saturating after every addition is saturating once, at the end. */
  method SumMetric(points: seq<RawPoint>) returns (sum: Option<int>)
    ensures sum == MonthSum(points)
    ensures sum.Some? ==> 0 <= sum.value <= MAX_INTEGER
  {
    var values := MetricValues(points);
    if values == [] {
      return None;
    }
    var total := 0;
    for i := 0 to |values|
      invariant total == Saturate(Total(values[..i])) && 0 <= Total(values[..i])
    {
      assert values[..i + 1][..|values[..i + 1]| - 1] == values[..i];
      total := Saturate(total + values[i].Floor);
    }
    assert values[..|values|] == values;
    sum := Some(total);
  }

  lemma {:induction false} TotalConcat(a: seq<real>, b: seq<real>)
    ensures Total(a + b) == Total(a) + Total(b)
  {
    if b == [] {
      assert a + b == a;
    } else {
      assert (a + b)[..|a + b| - 1] == a + b[..|b| - 1];
      TotalConcat(a, b[..|b| - 1]);
    }
  }

  /** One occurrence can be taken out of both of two rearranged sequences. */
  lemma TakeOut<T>(front: seq<T>, last: T, b: seq<T>) returns (before: seq<T>, after: seq<T>)
    requires multiset(front + [last]) == multiset(b)
    ensures b == before + [last] + after && multiset(front) == multiset(before + after)
  {
    assert multiset(front + [last]) == multiset(front) + multiset{last};
    assert last in multiset(b);
    var i :| 0 <= i < |b| && b[i] == last;
    before, after := b[..i], b[i + 1..];
    assert b == before + [last] + after;
    assert multiset(b) == multiset(before) + multiset{last} + multiset(after);
    assert multiset(before + after) == multiset(before) + multiset(after);
    assert multiset(front) == multiset(b) - multiset{last} == multiset(before + after);
  }

  /** The saturated sum does not depend on the order the points came in. */
  lemma {:induction false} TotalIsOrderFree(a: seq<real>, b: seq<real>)
    requires multiset(a) == multiset(b)
    ensures Total(a) == Total(b)
    decreases |a|
  {
    if a == [] {
      assert |multiset(b)| == 0;
    } else {
      var front, last := a[..|a| - 1], a[|a| - 1];
      assert a == front + [last];
      var before, after := TakeOut(front, last, b);
      TotalIsOrderFree(front, before + after);
      TotalConcat(before, after);
      TotalConcat(before + [last], after);
      TotalConcat(before, [last]);
    }
  }

  lemma {:induction false} ValuesConcat(a: seq<RawPoint>, b: seq<RawPoint>)
    ensures Values(a + b) == Values(a) + Values(b)
  {
    if b == [] {
      assert a + b == a;
    } else {
      assert (a + b)[..|a + b| - 1] == a + b[..|b| - 1];
      ValuesConcat(a, b[..|b| - 1]);
    }
  }

  lemma {:induction false} ValuesMultiset(a: seq<RawPoint>, b: seq<RawPoint>)
    requires multiset(a) == multiset(b)
    ensures multiset(Values(a)) == multiset(Values(b))
    decreases |a|
  {
    if a == [] {
      assert |multiset(b)| == 0;
    } else {
      var front, last := a[..|a| - 1], a[|a| - 1];
      assert a == front + [last];
      var before, after := TakeOut(front, last, b);
      ValuesMultiset(front, before + after);
      ValuesConcat(before, after);
      ValuesConcat(before + [last], after);
      ValuesConcat(before, [last]);
      ValuesConcat(front, [last]);
    }
  }

  lemma MonthSumIsOrderFree(a: seq<RawPoint>, b: seq<RawPoint>)
    requires multiset(a) == multiset(b)
    ensures MonthSum(a) == MonthSum(b)
  {
    ValuesMultiset(a, b);
    TotalIsOrderFree(Values(a), Values(b));
    assert |Values(a)| == |multiset(Values(a))| == |multiset(Values(b))| == |Values(b)|;
  }

  function Capped(n: int): int {
    if n <= 9223372036854775807 then n else 9223372036854775807
  }

  /** One point: the whole part of a usable, non-negative number. */
  lemma MonthSumOfOne(point: RawPoint)
    ensures MonthSum([]) == None
    ensures MonthSum([point]) == if point.Number? && point.value >= 0.0 then Some(Capped(point.value.Floor)) else None
  {
    assert [point][..0] == [];
    assert Values([point]) == Values([]) + if point.Number? && point.value >= 0.0 then [point.value] else [];
    if point.Number? && point.value >= 0.0 {
      assert [point.value][..0] == [];
      assert Total([point.value]) == Total([]) + point.value.Floor;
    }
  }

  lemma {:induction false} TotalIsNatural(values: seq<real>)
    requires forall i | 0 <= i < |values| :: values[i] >= 0.0
    ensures Total(values) >= 0
  {
    if values == [] {
    } else {
      TotalIsNatural(values[..|values| - 1]);
    }
  }

  /** More points: their sums add up, and a sum beyond the largest SQLite integer stays there. */
  lemma MonthSumAddsUp(a: seq<RawPoint>, b: seq<RawPoint>)
    ensures MonthSum(a + b) ==
            if MonthSum(a).None? then MonthSum(b)
            else if MonthSum(b).None? then MonthSum(a)
            else Some(Capped(MonthSum(a).value + MonthSum(b).value))
  {
    ValuesConcat(a, b);
    TotalConcat(Values(a), Values(b));
    ValuesAreNonNegative(a);
    ValuesAreNonNegative(b);
    TotalIsNatural(Values(a));
    TotalIsNatural(Values(b));
    hide Values, Total;
    var x, y := Values(a), Values(b);
    assert |x + y| == |x| + |y|;
    assert x == [] ==> x + y == y;
    assert y == [] ==> x + y == x;
  }

  // ---------- the whole poll ----------

  datatype InstanceState = Running | Pending | ShuttingDown | Terminated | Stopping | Stopped | UnknownState

  datatype Instance = Instance(state: InstanceState, staticIp: Option<bool>, allocatedGb: Option<int>)

  datatype Read<+T> = ReadFailed | Got(value: T)

  /** The answers to the eight reads of one poll. */
  datatype Answers = Answers(
    instance: Read<Instance>,
    portStates: Read<Listed<Rule>>,
    networkIn: Read<seq<RawPoint>>,
    networkOut: Read<seq<RawPoint>>,
    cpu: Read<seq<RawPoint>>,
    burst: Read<seq<RawPoint>>,
    status: Read<seq<RawPoint>>,
    alarms: Collected)

  datatype Config = Config(expectedPorts: set<int>, allowance: Option<int>)

  const BYTES_PER_GB: int := 1024 * 1024 * 1024

  function PlanAllocation(instance: Instance): Option<int> {
    match instance.allocatedGb
    case None => None
    case Some(gb) => if gb > 0 && gb * BYTES_PER_GB <= MAX_INTEGER then Some(gb * BYTES_PER_GB) else None
  }

  function SumOf(read: Read<seq<RawPoint>>): Option<int> {
    match read
    case ReadFailed => None
    case Got(points) => MonthSum(points)
  }

  /** The traffic figures of a poll. */
  datatype Figures = Figures(networkIn: Option<int>, networkOut: Option<int>, used: Option<int>, plan: Option<int>)

  function UsedBytes(networkIn: Option<int>, networkOut: Option<int>): Option<int> {
    if networkIn.Some? && networkOut.Some? then Some(Saturate(networkIn.value + networkOut.value)) else None
  }

  function PlanBytes(config: Config, instance: Read<Instance>): Option<int> {
    if config.allowance.Some? then config.allowance
    else match instance
      case ReadFailed => None
      case Got(i) => PlanAllocation(i)
  }

  function FiguresOf(config: Config, answers: Answers): Figures {
    var networkIn, networkOut, plan := SumOf(answers.networkIn), SumOf(answers.networkOut),
        PlanBytes(config, answers.instance);
    Figures(networkIn, networkOut, UsedBytes(networkIn, networkOut),
            if plan.Some? && 0 < plan.value <= MAX_INTEGER then plan else None)
  }

  /** The transfer and the plan in numbers. */
  lemma FiguresAre(config: Config, answers: Answers, bytes: int)
    ensures var f := FiguresOf(config, answers);
            && f.networkIn == SumOf(answers.networkIn) && f.networkOut == SumOf(answers.networkOut)
            && f.used == (if f.networkIn.Some? && f.networkOut.Some?
                          then Some(Capped(f.networkIn.value + f.networkOut.value)) else None)
            && (f.plan == Some(bytes) <==>
                  && 0 < bytes <= 9223372036854775807
                  && (|| config.allowance == Some(bytes)
                      || (config.allowance == None && answers.instance.Got?
                          && answers.instance.value.allocatedGb.Some?
                          && bytes == answers.instance.value.allocatedGb.value * 1073741824)))
  {
  }

  predicate Below(values: seq<real>, bound: real) {
    forall i | 0 <= i < |values| :: values[i] < bound
  }

  predicate Above(values: seq<real>, bound: real) {
    forall i | 0 <= i < |values| :: values[i] > bound
  }

  predicate EveryReadWorked(answers: Answers) {
    && answers.instance.Got? && answers.portStates.Got? && answers.networkIn.Got? && answers.networkOut.Got?
    && answers.cpu.Got? && answers.burst.Got? && answers.status.Got? && !answers.alarms.Failed?
  }

  predicate AllAlarmsOk(alarms: Collected) {
    && alarms.Alarms? && !alarms.flagged && |alarms.states| <= MAX_ALARMS
    && forall i | 0 <= i < |alarms.states| :: Upper(StateText(alarms.states[i])) == "OK"
  }

  /** Everything that has to be so for HEALTHY. */
  predicate AllIsWell(config: Config, answers: Answers) {
    && EveryReadWorked(answers)
    && answers.instance.value.state == Running && answers.instance.value.staticIp == Some(true)
    && PlanBytes(config, answers.instance).Some?
    && SumOf(answers.networkIn).Some? && SumOf(answers.networkOut).Some?
    && Values(answers.cpu.value) != [] && Below(Values(answers.cpu.value), 85.0)
    && Values(answers.burst.value) != [] && Above(Values(answers.burst.value), 20.0)
    && SumOf(answers.status) == Some(0)
    && answers.portStates.value.List?
    && (forall i | 0 <= i < |answers.portStates.value.entries| ::
       Harmless(answers.portStates.value.entries[i], config.expectedPorts))
    && AllAlarmsOk(answers.alarms)
  }

  method Extreme(values: seq<real>, highest: bool) returns (extreme: real)
    requires values != []
    ensures highest ==> (forall bound: real :: extreme < bound <==> Below(values, bound))
    ensures !highest ==> (forall bound: real :: extreme > bound <==> Above(values, bound))
  {
    extreme := values[0];
    for n := 1 to |values|
      invariant extreme in values[..n]
      invariant forall i | 0 <= i < n :: if highest then values[i] <= extreme else values[i] >= extreme
    {
      if (highest && values[n] > extreme) || (!highest && values[n] < extreme) {
        extreme := values[n];
      }
    }
  }

  /** Every rule that is open to the world is for an expected port. */
  predicate ExposureExpected(config: Config, answers: Answers) {
    answers.portStates.Got? && answers.portStates.value.List?
    && forall i | 0 <= i < |answers.portStates.value.entries| ::
       ExposesExpected(answers.portStates.value.entries[i], config.expectedPorts)
  }

  /** Soundness of HEALTHY against the firewall. */
  lemma HealthyExposure(config: Config, answers: Answers)
    requires AllIsWell(config, answers)
    ensures ExposureExpected(config, answers)
  {
    hide Harmless, ExposesExpected;
    forall i | 0 <= i < |answers.portStates.value.entries|
      ensures ExposesExpected(answers.portStates.value.entries[i], config.expectedPorts)
    {
      HarmlessWorldOpen(answers.portStates.value.entries[i], config.expectedPorts);
    }
  }

  datatype Verdict = Verdict(state: HealthState, figures: Figures)

  /** The reads that failed, by name. */
  method Failures(answers: Answers) returns (failures: set<string>)
    ensures failures == {} <==> EveryReadWorked(answers)
  {
    failures := {};
    if answers.instance.ReadFailed? { failures := failures + {"get_instance"}; }
    if answers.portStates.ReadFailed? { failures := failures + {"get_instance_port_states"}; }
    if answers.networkIn.ReadFailed? { failures := failures + {"network_in"}; }
    if answers.networkOut.ReadFailed? { failures := failures + {"network_out"}; }
    if answers.cpu.ReadFailed? { failures := failures + {"cpu_utilization"}; }
    if answers.burst.ReadFailed? { failures := failures + {"burst_capacity"}; }
    if answers.status.ReadFailed? { failures := failures + {"status_check_failed"}; }
    if answers.alarms.Failed? { failures := failures + {"get_alarms"}; }
  }

  predicate AnyReadWorked(answers: Answers) {
    || answers.instance.Got? || answers.portStates.Got? || answers.networkIn.Got? || answers.networkOut.Got?
    || answers.cpu.Got? || answers.burst.Got? || answers.status.Got? || !answers.alarms.Failed?
  }

  /** What is wrong or missing so far. */
  datatype Concerns = Concerns(missing: set<string>, risks: set<string>)

  predicate Clean(concerns: Concerns) {
    concerns.missing == {} && concerns.risks == {}
  }

  function Missing(concerns: Concerns, what: string): Concerns {
    concerns.(missing := concerns.missing + {what})
  }

  function Risk(concerns: Concerns, what: string): Concerns {
    concerns.(risks := concerns.risks + {what})
  }

  /** The operational metrics: CPU maximum, burst minimum, status failures. */
  method CheckMetrics(answers: Answers, start: Concerns) returns (concerns: Concerns)
    ensures EveryReadWorked(answers) ==>
              (Clean(concerns) <==>
                 && Clean(start)
                 && Values(answers.cpu.value) != [] && Below(Values(answers.cpu.value), 85.0)
                 && Values(answers.burst.value) != [] && Above(Values(answers.burst.value), 20.0)
                 && SumOf(answers.status) == Some(0))
  {
    concerns := start;
    if answers.cpu.Got? {
      var values := MetricValues(answers.cpu.value);
      if values == [] {
        concerns := Missing(concerns, "cpu_utilization");
      } else {
        var highest := Extreme(values, true);
        if highest >= 85.0 {
          concerns := Risk(concerns, "high_cpu");
        }
      }
    }
    if answers.burst.Got? {
      var values := MetricValues(answers.burst.value);
      if values == [] {
        concerns := Missing(concerns, "burst_capacity");
      } else {
        var lowest := Extreme(values, false);
        if lowest <= 20.0 {
          concerns := Risk(concerns, "low_burst_capacity");
        }
      }
    }
    if answers.status.Got? {
      var failed := SumMetric(answers.status.value);
      if failed.None? {
        concerns := Missing(concerns, "status_check_failed");
      } else if failed.value > 0 {
        concerns := Risk(concerns, "status_check_failed");
      }
    }
  }

  /** The instance itself: known state, static address, a plan allocation from somewhere. */
  method CheckInstance(config: Config, instance: Read<Instance>, start: Concerns)
    returns (concerns: Concerns, plan: Option<int>)
    ensures plan == PlanBytes(config, instance)
    ensures instance.Got? ==>
              (Clean(concerns) <==>
                 Clean(start) && instance.value.state != UnknownState && instance.value.staticIp == Some(true)
                     && plan.Some?)
  {
    concerns := start;
    if instance.Got? {
      if instance.value.state == UnknownState {
        concerns := Missing(concerns, "instance_state");
      }
      if instance.value.staticIp.None? {
        concerns := Missing(concerns, "static_ip");
      } else if !instance.value.staticIp.value {
        concerns := Risk(concerns, "no_static_ip");
      }
    }
    plan := config.allowance;
    if plan.None? && instance.Got? {
      plan := PlanAllocation(instance.value);
      if plan.None? {
        concerns := Missing(concerns, "plan_allocation");
      }
    }
  }

  method CheckFirewall(config: Config, portStates: Read<Listed<Rule>>, start: Concerns) returns (concerns: Concerns)
    ensures portStates.Got? ==>
              (Clean(concerns) <==>
                 && Clean(start)
                 && portStates.value.List?
                 && forall i | 0 <= i < |portStates.value.entries| ::
                    Harmless(portStates.value.entries[i], config.expectedPorts))
  {
    hide AllRules, Harmless;
    concerns := start;
    if portStates.Got? {
      var firewall := EvaluateFirewall(portStates.value, config.expectedPorts);
      if portStates.value.List? {
        HarmlessFirewall(portStates.value.entries, config.expectedPorts);
      }
      if !firewall.available || firewall.invalidRules != 0 {
        concerns := Missing(concerns, "firewall_rules");
      }
      if firewall.unsafeWorldOpen != 0 {
        concerns := Risk(concerns, "unsafe_world_open_firewall");
      }
    }
  }

  method CheckAlarms(alarms: Collected, start: Concerns) returns (concerns: Concerns)
    ensures !alarms.Failed? ==> (Clean(concerns) <==> Clean(start) && AllAlarmsOk(alarms))
  {
    concerns := start;
    if !alarms.Failed? {
      var e := EvaluateAlarms(alarms);
      if alarms.Alarms? {
        NoneActiveAllOk(alarms.states);
      }
      if !e.available || e.truncated {
        concerns := Missing(concerns, "alarms");
      }
      if e.active != 0 {
        concerns := Risk(concerns, "active_alarms");
      }
      if e.indeterminate != 0 {
        concerns := Risk(concerns, "indeterminate_alarms");
      }
    }
  }

  /** The firewall and the alarms. */
  method CheckSecurity(config: Config, answers: Answers, start: Concerns) returns (concerns: Concerns)
    ensures EveryReadWorked(answers) ==>
              (Clean(concerns) <==>
                 && Clean(start)
                 && answers.portStates.value.List?
                 && (forall i | 0 <= i < |answers.portStates.value.entries| ::
                       Harmless(answers.portStates.value.entries[i], config.expectedPorts))
                 && AllAlarmsOk(answers.alarms))
  {
    hide Harmless, AllAlarmsOk, Clean;
    concerns := CheckFirewall(config, answers.portStates, start);
    concerns := CheckAlarms(answers.alarms, concerns);
  }

  predicate NotRunning(instance: Read<Instance>) {
    instance.Got? && instance.value.state != Running && instance.value.state != UnknownState
  }

  /** HEALTHY says all is well, exactly; an instance known to be down, or a poll without any
      answer, is UNAVAILABLE; everything else is DEGRADED. */
  method Evaluate(config: Config, answers: Answers) returns (verdict: Verdict)
    ensures verdict.figures == FiguresOf(config, answers)
    ensures verdict.state == Healthy <==> AllIsWell(config, answers)
    ensures verdict.state == Healthy ==> ExposureExpected(config, answers)
    ensures verdict.state == Unavailable <==> NotRunning(answers.instance) || !AnyReadWorked(answers)
    ensures verdict.state != Disabled
  {
    hide Harmless, AllAlarmsOk, MonthSum, PlanBytes, Below, Above, Values, ExposureExpected;
    var failures := Failures(answers);
    var concerns := Concerns({}, {});
    var networkIn: Option<int>, networkOut: Option<int> := None, None;
    if answers.networkIn.Got? {
      networkIn := SumMetric(answers.networkIn.value);
      if networkIn.None? {
        concerns := Missing(concerns, "network_in");
      }
    }
    if answers.networkOut.Got? {
      networkOut := SumMetric(answers.networkOut.value);
      if networkOut.None? {
        concerns := Missing(concerns, "network_out");
      }
    }
    var used: Option<int> := None;
    if networkIn.Some? && networkOut.Some? {
      used := Some(Saturate(networkIn.value + networkOut.value));
    }
    concerns := CheckMetrics(answers, concerns);
    var plan;
    concerns, plan := CheckInstance(config, answers.instance, concerns);
    concerns := CheckSecurity(config, answers, concerns);
    var state;
    if NotRunning(answers.instance) {
      state := Unavailable;
    } else if !AnyReadWorked(answers) {
      state := Unavailable;
    } else if failures != {} || concerns.missing != {} || concerns.risks != {} {
      state := Degraded;
    } else {
      state := Healthy;
      HealthyExposure(config, answers);
    }
    verdict := Verdict(state, Figures(networkIn, networkOut, used,
                                      if plan.Some? && 0 < plan.value <= MAX_INTEGER then plan else None));
  }

  /** Every alarm of every page is in the collected list. */
  lemma {:induction false} AlarmOnPage(pages: seq<Page>, page: nat, alarm: nat) returns (at: nat)
    requires page < |pages| && alarm < |pages[page].alarms|
    ensures at < |AllStates(pages)| && AllStates(pages)[at] == Keep(pages[page].alarms[alarm])
  {
    var front := pages[..|pages| - 1];
    if page == |pages| - 1 {
      at := |AllStates(front)| + alarm;
    } else {
      at := AlarmOnPage(front, page, alarm);
    }
  }

  predicate EveryAlarmOk(pages: seq<Page>) {
    forall page, alarm | 0 <= page < |pages| && 0 <= alarm < |pages[page].alarms| ::
      pages[page].alarms[alarm].Alarm? && Upper(pages[page].alarms[alarm].state) == "OK"
  }

  /** Soundness of HEALTHY against the server: paging saw a chain that ended by itself, and every
      alarm on every page of it is OK. */
  lemma HealthySawEveryAlarm(config: Config, answers: Answers, server: Server, pages: seq<Page>)
    requires AllIsWell(config, answers) && Paged(server, pages, answers.alarms)
    ensures Complete(server, pages) && EveryAlarmOk(pages)
  {
    hide Upper;
    forall page, alarm | 0 <= page < |pages| && 0 <= alarm < |pages[page].alarms|
      ensures pages[page].alarms[alarm].Alarm? && Upper(pages[page].alarms[alarm].state) == "OK"
    {
      var at := AlarmOnPage(pages, page, alarm);
      assert Upper(StateText(answers.alarms.states[at])) == "OK";
      EmptyIsNotOk();
    }
  }

  lemma EmptyIsNotOk()
    ensures Upper("") != "OK"
  {
  }

  /** The whole poll: seven other reads as they were answered, the alarms page by page, and the verdict. */
  method Poll(config: Config, others: Answers, server: Server)
    returns (answers: Answers, verdict: Verdict, ghost pages: seq<Page>)
    ensures answers == others.(alarms := answers.alarms) && Paged(server, pages, answers.alarms)
    ensures verdict.figures == FiguresOf(config, answers)
    ensures verdict.state == Healthy <==> AllIsWell(config, answers)
    ensures verdict.state == Healthy ==>
              Complete(server, pages) && EveryAlarmOk(pages) && ExposureExpected(config, answers)
  {
    hide FiguresOf, Paged, Complete, EveryAlarmOk, AllIsWell, ExposureExpected;
    var alarms;
    ghost var asked;
    alarms, pages, asked := CollectAlarmPages(server);
    answers := others.(alarms := alarms);
    verdict := Evaluate(config, answers);
    if verdict.state == Healthy {
      HealthySawEveryAlarm(config, answers, server, pages);
    }
  }
}
