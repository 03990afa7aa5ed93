/** Evaluation of one check against the series a Graphite render request
    returned: the newest real sample of each series is classified against the
    check's thresholds and turned into an alert, all or nothing.

    The thresholds' comparison (`Check.isBeyondErrorThreshold`,
    `Check.isBeyondWarnThreshold`) belongs to the check and is passed in as the
    predicates `beyondError` and `beyondWarn`. */
module TargetChecker {
  import opened Wrappers
  import opened Domain

  /** One `[value, timestamp]` pair of a series; `None` is the JSON `null` a
      backend writes for a slot it has no sample for. */
  datatype Datapoint = Datapoint(value: Option<real>, timestamp: int)

  /** One element of the parsed response: the resolved series name and its
      datapoints, oldest first. */
  datatype Series = Series(target: string, datapoints: seq<Datapoint>)

  /** The exception thrown when a series holds no real sample. */
  datatype CheckError = NoValidDatapoint(target: string)

  // ---------------------------------------------------------------------
  // Latest value

  /** The highest index whose datapoint holds a value, if there is one. */
  function LatestIndex(dps: seq<Datapoint>): (r: Option<nat>)
    ensures r.Some? ==> r.value < |dps| && dps[r.value].value.Some?
    ensures r.Some? ==> forall j :: r.value < j < |dps| ==> dps[j].value.None?
    ensures r.None? <==> forall j :: 0 <= j < |dps| ==> dps[j].value.None?
  {
    if |dps| == 0 then None
    else if dps[|dps| - 1].value.Some? then Some(|dps| - 1)
    else LatestIndex(dps[..|dps| - 1])
  }

  /** What `getLatestValue` yields for a series: the newest non-null value, or
      the "no valid datapoint" failure naming the series. */
  function LatestValue(s: Series): (r: Result<real, CheckError>)
    ensures r.Failure? <==> forall j :: 0 <= j < |s.datapoints| ==> s.datapoints[j].value.None?
    ensures r.Failure? ==> r.error == NoValidDatapoint(s.target)
    ensures r.Success? ==>
      exists i :: 0 <= i < |s.datapoints| && s.datapoints[i].value == Some(r.value) &&
        forall j :: i < j < |s.datapoints| ==> s.datapoints[j].value.None?
  {
    match LatestIndex(s.datapoints)
    case Some(i) => Success(s.datapoints[i].value.value)
    case None => Failure(NoValidDatapoint(s.target))
  }

  /** The reverse scan with early return. */
  method GetLatestValue(s: Series) returns (r: Result<real, CheckError>)
    ensures r == LatestValue(s)
  {
    var dps := s.datapoints;
    var i := |dps| - 1;
    while i >= 0
      invariant -1 <= i < |dps|
      invariant LatestIndex(dps) == LatestIndex(dps[..i + 1])
    {
      if dps[i].value.Some? {
        assert LatestIndex(dps[..i + 1]) == Some(i);
        return Success(dps[i].value.value);
      }
      assert dps[..i + 1][..i] == dps[..i];
      i := i - 1;
    }
    return Failure(NoValidDatapoint(s.target));
  }

  // ---------------------------------------------------------------------
  // Classification

  /** The state a value puts a check in, by strict priority: ERROR before
      WARN before OK. */
  function NewState(value: real, beyondError: real -> bool, beyondWarn: real -> bool): (t: AlertType)
    ensures t != UNKNOWN
    ensures t == ERROR <==> beyondError(value)
    ensures t == WARN <==> !beyondError(value) && beyondWarn(value)
    ensures t == OK <==> !beyondError(value) && !beyondWarn(value)
  {
    if beyondError(value) then ERROR
    else if beyondWarn(value) then WARN
    else OK
  }

  /** How severe a state is; UNKNOWN is not an outcome of evaluation. */
  function Severity(t: AlertType): nat
  {
    match t
    case OK => 0
    case WARN => 1
    case ERROR => 2
    case UNKNOWN => 0
  }

  /** The states whose condition a value meets: OK always, WARN and ERROR when
      their threshold is crossed. */
  function Matched(value: real, beyondError: real -> bool, beyondWarn: real -> bool): set<AlertType>
  {
    {OK} + (if beyondWarn(value) then {WARN} else {}) + (if beyondError(value) then {ERROR} else {})
  }

  /** Strict priority is the same as taking the most severe state the value
      qualifies for. */
  lemma NewStateIsMostSevere(value: real, beyondError: real -> bool, beyondWarn: real -> bool)
    ensures NewState(value, beyondError, beyondWarn) in Matched(value, beyondError, beyondWarn)
    ensures forall t :: t in Matched(value, beyondError, beyondWarn) ==>
      Severity(t) <= Severity(NewState(value, beyondError, beyondWarn))
  {
  }

  /** The alert record for one series; the record's fields come from the
      check, the series name, the value and the evaluation clock. */
  function ComposeAlert(check: Check, target: string, value: real, from: Option<AlertType>, to: AlertType, now: int): (a: Alert)
    ensures a.value == value && a.target == target
    ensures a.warn == check.warn && a.error == check.error
    ensures a.fromType == from && a.toType == to
    ensures a.timestamp == now
  {
    Alert(value, target, check.warn, check.error, from, to, now)
  }

  /** Classifies `value` and records the transition from the check's current
      state. */
  function CreateAlert(check: Check, target: string, value: real,
                       beyondError: real -> bool, beyondWarn: real -> bool, now: int): (a: Alert)
    ensures a.fromType == check.state
    ensures a.toType == NewState(value, beyondError, beyondWarn) && a.toType != UNKNOWN
    ensures a.toType == ERROR <==> beyondError(value)
    ensures a.value == value && a.target == target
    ensures a.warn == check.warn && a.error == check.error
    ensures a.timestamp == now
  {
    ComposeAlert(check, target, value, check.state, NewState(value, beyondError, beyondWarn), now)
  }

  // ---------------------------------------------------------------------
  // Whole check

  /** The alert for one series whose latest value is known. */
  function AlertFor(check: Check, s: Series, beyondError: real -> bool, beyondWarn: real -> bool, now: int): Alert
    requires LatestValue(s).Success?
  {
    CreateAlert(check, s.target, LatestValue(s).value, beyondError, beyondWarn, now)
  }

  /** The outcome of evaluating `check` against `response`, series by series
      from the first: the first series without a real sample aborts the whole
      evaluation. */
  function Evaluate(check: Check, response: seq<Series>,
                    beyondError: real -> bool, beyondWarn: real -> bool, now: int): Result<seq<Alert>, CheckError>
    decreases |response|
  {
    if response == [] then Success([])
    else
      var last := response[|response| - 1];
      match Evaluate(check, response[..|response| - 1], beyondError, beyondWarn, now)
      case Failure(e) => Failure(e)
      case Success(alerts) =>
        match LatestValue(last)
        case Failure(e) => Failure(e)
        case Success(v) => Success(alerts + [CreateAlert(check, last.target, v, beyondError, beyondWarn, now)])
  }

  /** Once a prefix of the response has failed, the rest is never looked at. */
  lemma {:induction false} EvaluateFailureSticks(check: Check, response: seq<Series>, n: nat,
                                                 beyondError: real -> bool, beyondWarn: real -> bool, now: int)
    requires n <= |response|
    requires Evaluate(check, response[..n], beyondError, beyondWarn, now).Failure?
    ensures Evaluate(check, response, beyondError, beyondWarn, now) == Evaluate(check, response[..n], beyondError, beyondWarn, now)
    decreases |response| - n
  {
    if n == |response| {
      assert response[..n] == response;
    } else {
      var init := response[..|response| - 1];
      assert init[..n] == response[..n];
      EvaluateFailureSticks(check, init, n, beyondError, beyondWarn, now);
    }
  }

  /** The evaluation succeeds exactly when every series holds a real sample. */
  lemma {:induction false} EvaluateSucceedsIff(check: Check, response: seq<Series>,
                                               beyondError: real -> bool, beyondWarn: real -> bool, now: int)
    ensures Evaluate(check, response, beyondError, beyondWarn, now).Success? <==>
      forall i :: 0 <= i < |response| ==> LatestValue(response[i]).Success?
    decreases |response|
  {
    if response != [] {
      var init := response[..|response| - 1];
      EvaluateSucceedsIff(check, init, beyondError, beyondWarn, now);
      assert forall i :: 0 <= i < |init| ==> init[i] == response[i];
    }
  }

  /** On success there is one alert per series, in response order, each built
      from that series' name and latest value. */
  lemma {:induction false} EvaluateAlerts(check: Check, response: seq<Series>,
                                          beyondError: real -> bool, beyondWarn: real -> bool, now: int)
    requires Evaluate(check, response, beyondError, beyondWarn, now).Success?
    ensures var alerts := Evaluate(check, response, beyondError, beyondWarn, now).value;
      |alerts| == |response| &&
      forall i :: 0 <= i < |response| ==>
        LatestValue(response[i]).Success? &&
        alerts[i] == AlertFor(check, response[i], beyondError, beyondWarn, now)
    decreases |response|
  {
    if response != [] {
      var n := |response| - 1;
      var init, last := response[..n], response[n];
      var before := Evaluate(check, init, beyondError, beyondWarn, now);
      assert before.Success? && LatestValue(last).Success?;
      EvaluateAlerts(check, init, beyondError, beyondWarn, now);
      var alerts := before.value + [AlertFor(check, last, beyondError, beyondWarn, now)];
      assert Evaluate(check, response, beyondError, beyondWarn, now).value == alerts;
      forall i | 0 <= i < |response|
        ensures LatestValue(response[i]).Success? && alerts[i] == AlertFor(check, response[i], beyondError, beyondWarn, now)
      {
        if i < n {
          assert init[i] == response[i];
        }
      }
    }
  }

  /** On success every alert shares the check's state as `fromType` and the
      check's thresholds, whatever state it computed. */
  lemma EvaluateSharedFromType(check: Check, response: seq<Series>,
                               beyondError: real -> bool, beyondWarn: real -> bool, now: int)
    requires Evaluate(check, response, beyondError, beyondWarn, now).Success?
    ensures forall a :: a in Evaluate(check, response, beyondError, beyondWarn, now).value ==>
      a.fromType == check.state && a.warn == check.warn && a.error == check.error && a.toType != UNKNOWN
  {
    EvaluateAlerts(check, response, beyondError, beyondWarn, now);
  }

  /** On failure the error names the first series that holds no real sample,
      and no alert is returned. */
  lemma {:induction false} EvaluateReportsFirstFailure(check: Check, response: seq<Series>,
                                                       beyondError: real -> bool, beyondWarn: real -> bool, now: int)
    requires Evaluate(check, response, beyondError, beyondWarn, now).Failure?
    ensures exists k ::
      && 0 <= k < |response|
      && LatestValue(response[k]).Failure?
      && Evaluate(check, response, beyondError, beyondWarn, now).error == NoValidDatapoint(response[k].target)
      && (forall j :: 0 <= j < k ==> LatestValue(response[j]).Success?)
    decreases |response|
  {
    var init := response[..|response| - 1];
    var last := response[|response| - 1];
    assert forall i :: 0 <= i < |init| ==> init[i] == response[i];
    if Evaluate(check, init, beyondError, beyondWarn, now).Failure? {
      EvaluateReportsFirstFailure(check, init, beyondError, beyondWarn, now);
    } else {
      EvaluateSucceedsIff(check, init, beyondError, beyondWarn, now);
      assert LatestValue(last).Failure?;
    }
  }

  /** The `check` loop: appends one alert per series and aborts on the first
      series without a real sample. */
  method CheckTarget(check: Check, response: seq<Series>,
                     beyondError: real -> bool, beyondWarn: real -> bool, now: int)
    returns (r: Result<seq<Alert>, CheckError>)
    ensures r == Evaluate(check, response, beyondError, beyondWarn, now)
  {
    var alerts: seq<Alert> := [];
    var i := 0;
    while i < |response|
      invariant 0 <= i <= |response|
      invariant Evaluate(check, response[..i], beyondError, beyondWarn, now) == Success(alerts)
    {
      var value := GetLatestValue(response[i]);
      assert response[..i + 1][..i] == response[..i];
      if value.Failure? {
        EvaluateFailureSticks(check, response, i + 1, beyondError, beyondWarn, now);
        return Failure(value.error);
      }
      alerts := alerts + [CreateAlert(check, response[i].target, value.value, beyondError, beyondWarn, now)];
      i := i + 1;
    }
    assert response[..i] == response;
    r := Success(alerts);
  }

  /** A check with warn 70 and error 90 whose thresholds are crossed upwards,
      in state OK: a series ending `null, null, 95` raises an ERROR alert
      carrying 95. */
  lemma ScenarioRisingToError(beyondError: real -> bool, beyondWarn: real -> bool)
    requires forall v :: beyondError(v) <==> v > 90.0
    requires forall v :: beyondWarn(v) <==> v > 70.0
    ensures var check := Check("c", "servers.*.load", 70.0, 90.0, true, Some(OK));
      var series := Series("servers.a.load", [Datapoint(Some(10.0), 0), Datapoint(None, 60), Datapoint(None, 120), Datapoint(Some(95.0), 180)]);
      Evaluate(check, [series], beyondError, beyondWarn, 1000) ==
        Success([Alert(95.0, "servers.a.load", 70.0, 90.0, Some(OK), ERROR, 1000)])
  {
    var series := Series("servers.a.load", [Datapoint(Some(10.0), 0), Datapoint(None, 60), Datapoint(None, 120), Datapoint(Some(95.0), 180)]);
    assert LatestIndex(series.datapoints) == Some(3);
    assert [series][..0] == [];
    var alert := Alert(95.0, "servers.a.load", 70.0, 90.0, Some(OK), ERROR, 1000);
    assert [] + [alert] == [alert];
  }

  /** Same check: a series ending `40, null` yields 40 and an OK alert. */
  lemma ScenarioStaysOk(beyondError: real -> bool, beyondWarn: real -> bool)
    requires forall v :: beyondError(v) <==> v > 90.0
    requires forall v :: beyondWarn(v) <==> v > 70.0
    ensures var check := Check("c", "servers.*.load", 70.0, 90.0, true, Some(OK));
      var series := Series("servers.a.load", [Datapoint(Some(80.0), 0), Datapoint(Some(40.0), 60), Datapoint(None, 120)]);
      Evaluate(check, [series], beyondError, beyondWarn, 1000) ==
        Success([Alert(40.0, "servers.a.load", 70.0, 90.0, Some(OK), OK, 1000)])
  {
    var series := Series("servers.a.load", [Datapoint(Some(80.0), 0), Datapoint(Some(40.0), 60), Datapoint(None, 120)]);
    assert series.datapoints[..2] == [Datapoint(Some(80.0), 0), Datapoint(Some(40.0), 60)];
    assert LatestIndex(series.datapoints) == Some(1);
    assert [series][..0] == [];
    var alert := Alert(40.0, "servers.a.load", 70.0, 90.0, Some(OK), OK, 1000);
    assert [] + [alert] == [alert];
  }
}
