/** The scheduler process: startup reads the configuration and fixes the
    purchase amount once, every run does redemption then purchase (the
    second whatever happened to the first) and reports both, and the main
    loop survives loop errors but stops on an interrupt or a fatal error. */
module Scheduler {

  import opened Opt
  import opened Text
  import opened Stage
  import opened Pricing
  import opened OrderFlow
  import opened Redemption
  import opened EnvFile

  /** The text shown for a failed stage whose record carries no error. */
  const UnknownError: string := "\U{672A}\U{77E5}\U{9519}\U{8BEF}"

  /** What one process keeps between runs: the redemption record, the
      purchase amount fixed when the purchase module was imported, and the
      carried-amount file. */
  datatype Process = Process(redeem: RedeemState, investmentAmount: string, carried: Option<string>)

  /** Process start: the env file is loaded, the redemption record starts
      from the configured amount (parsed by the caller), and the purchase
      amount is read once, from the carried-amount file if it holds digits. */
  function Startup(env: Env, envFile: Option<seq<string>>, carried: Option<string>, configuredTarget: real): (p: Process)
    ensures p.redeem == RedeemState(configuredTarget, [], 0, Pending)
    ensures p.carried == carried
    ensures var configured := GetConfig(LoadEnv(env, envFile), "BYBIT_INVESTMENT_AMOUNT", "20");
      && (carried.Some? && IsDigits(Strip(carried.value)) ==> p.investmentAmount == Strip(carried.value))
      && (carried.None? || !IsDigits(Strip(carried.value)) ==> p.investmentAmount == configured)
  {
    var configured := GetConfig(LoadEnv(env, envFile), "BYBIT_INVESTMENT_AMOUNT", "20");
    Process(RedeemState(configuredTarget, [], 0, Pending), ReadCarriedAmount(carried, configured), carried)
  }

  // ---------------------------------------------------------------------
  // One run
  // ---------------------------------------------------------------------

  /** What the scheduler keeps of a stage: its status and, when the stage
      raised, the error. */
  datatype StageResult = StageResult(status: Status, error: Option<Fault>)

  /** A stage's returned record reduced to its status. */
  const RedeemStatus := (s: RedeemState) => s.status
  const PurchaseStatus := (i: PurchaseInfo) => i.status

  /** The result the scheduler records for either stage: a raised stage
      becomes `failed` with its error, a returned record keeps its status
      and carries no error. */
  function ResultOf<T>(o: Outcome<T>, status: T -> Status): (r: StageResult)
    ensures r.error.Some? <==> o.Raised?
    ensures o.Raised? ==> r == StageResult(Failed, Some(o.fault))
    ensures o.Returned? ==> r == StageResult(status(o.info), None)
  {
    match o
    case Raised(f) => StageResult(Failed, Some(f))
    case Returned(info) => StageResult(status(info), None)
  }

  /** The error part of a failure line. */
  datatype ErrorText = FaultText(fault: Fault) | DefaultText(text: string)

  /** A stage's part of the notification: its summary, or a failure line. */
  datatype StageLine = Summary | Failure(error: ErrorText)

  /** A stage is summarised exactly when its status is `Success`; otherwise
      its error is shown, or the default text when it has none. */
  function LineFor(r: StageResult): (l: StageLine)
    ensures l.Summary? <==> r.status == Success
    ensures l.Failure? && r.error.Some? ==> l.error == FaultText(r.error.value)
    ensures l.Failure? && r.error.None? ==> l.error == DefaultText(UnknownError)
  {
    if r.status == Success then Summary
    else if r.error.Some? then Failure(FaultText(r.error.value))
    else Failure(DefaultText(UnknownError))
  }

  /** The closing line: complete success or partial failure, nothing between. */
  datatype Footer = AllSucceeded | PartlyFailed

  datatype RunReport = RunReport(
    redemption: StageResult, purchase: StageResult,
    redemptionLine: StageLine, purchaseLine: StageLine, footer: Footer)

  /** What one run observes: the redemption page and the purchase page. */
  datatype TickObs = TickObs(redeem: RedeemObs, purchase: PurchaseObs)

  /** The two stage scripts the scheduler calls, as functions of what the
      scheduler hands them: the redemption record and the purchase amount. */
  datatype Stages = Stages(
    redeem: (RedeemState, RedeemObs) -> RedeemRun,
    purchase: (PurchaseObs, string) -> Outcome<PurchaseInfo>)

  /** The stage scripts of this system. */
  const Scripts: Stages := Stages(RunRedemption, PurchaseStage)

  datatype FlowRun = FlowRun(process: Process, report: RunReport)

  /** `run_complete_flow`: redemption, then purchase with the amount fixed at
      startup whatever the redemption did, then one combined report. */
  function RunCompleteFlow(stages: Stages, p: Process, o: TickObs): (t: FlowRun)
    ensures t.report.redemption == ResultOf(stages.redeem(p.redeem, o.redeem).outcome, RedeemStatus)
    ensures t.report.purchase == ResultOf(stages.purchase(o.purchase, p.investmentAmount), PurchaseStatus)
    ensures t.report.redemptionLine == LineFor(t.report.redemption)
    ensures t.report.purchaseLine == LineFor(t.report.purchase)
    ensures t.report.footer == AllSucceeded <==>
      t.report.redemption.status == Success && t.report.purchase.status == Success
    ensures t.process.redeem == stages.redeem(p.redeem, o.redeem).state
    ensures t.process.investmentAmount == p.investmentAmount
    ensures stages.redeem(p.redeem, o.redeem).carried.Some? ==>
      t.process.carried == stages.redeem(p.redeem, o.redeem).carried
    ensures stages.redeem(p.redeem, o.redeem).carried.None? ==> t.process.carried == p.carried
  {
    var redeemed := stages.redeem(p.redeem, o.redeem);
    var rr := ResultOf(redeemed.outcome, RedeemStatus);
    var pr := ResultOf(stages.purchase(o.purchase, p.investmentAmount), PurchaseStatus);
    var footer := if rr.status == Success && pr.status == Success then AllSucceeded else PartlyFailed;
    var carried := if redeemed.carried.Some? then redeemed.carried else p.carried;
    FlowRun(Process(redeemed.state, p.investmentAmount, carried),
            RunReport(rr, pr, LineFor(rr), LineFor(pr), footer))
  }

  /** The purchase stage is isolated from the redemption stage: whatever
      the redemption page shows, including a failure, the purchase runs the
      same way and reports the same result. */
  lemma PurchaseIsolated(p: Process, r1: RedeemObs, r2: RedeemObs, q: PurchaseObs)
    ensures RunCompleteFlow(Scripts, p, TickObs(r1, q)).report.purchase
         == RunCompleteFlow(Scripts, p, TickObs(r2, q)).report.purchase
  {
  }

  /** The amount a redemption writes out is not picked up by this process:
      the next purchase still uses the amount fixed at startup. */
  lemma CarriedAmountNotReread(p: Process, o: TickObs, next: PurchaseObs)
    requires RunRedemption(p.redeem, o.redeem).carried.Some?
    ensures var t := RunCompleteFlow(Scripts, p, o);
      && t.process.carried == RunRedemption(p.redeem, o.redeem).carried
      && RunCompleteFlow(Scripts, t.process, TickObs(o.redeem, next)).report.purchase
           == ResultOf(PurchaseStage(next, p.investmentAmount), PurchaseStatus)
  {
  }

  /** An order whose result could not be confirmed is reported as a failure
      with the default error text, and the run as partly failed. */
  lemma UnconfirmedOrderReported(p: Process, o: TickObs)
    requires PurchaseStage(o.purchase, p.investmentAmount).Returned?
    requires ClassifyOutcome(o.purchase.surfaces, o.purchase.page, o.purchase.url).None?
    ensures RunCompleteFlow(Scripts, p, o).report.purchaseLine == Failure(DefaultText(UnknownError))
    ensures RunCompleteFlow(Scripts, p, o).report.footer == PartlyFailed
  {
  }

  // ---------------------------------------------------------------------
  // The main loop
  // ---------------------------------------------------------------------

  /** What happens in one minute of the main loop: nothing due, a due run,
      an exception inside the loop, an exception escaping it, or Ctrl-C. */
  datatype Event = Idle | Due(obs: TickObs) | LoopFault | HandlerFault | Interrupt

  /** Events that end the loop. */
  predicate Terminal(e: Event) {
    e.Interrupt? || e.HandlerFault?
  }

  function ExitCode(e: Event): int
    requires Terminal(e)
  {
    if e.Interrupt? then 0 else 1
  }

  /** Notifications, in the order they are sent. */
  datatype Notice = Started | Report(report: RunReport) | LoopError | Stopped | Critical

  datatype Session = Session(process: Process, notices: seq<Notice>, exit: Option<int>)

  /** The events before the first terminating one. */
  function Active(events: seq<Event>): (a: seq<Event>)
    ensures |a| <= |events|
  {
    if events == [] || Terminal(events[0]) then [] else [events[0]] + Active(events[1..])
  }

  /** The observations of the due runs among `events`. */
  function DueObs(events: seq<Event>): seq<TickObs> {
    if events == [] then []
    else (if events[0].Due? then [events[0].obs] else []) + DueObs(events[1..])
  }

  /** The run reports among the notices. */
  function Reports(notices: seq<Notice>): seq<RunReport> {
    if notices == [] then []
    else (if notices[0].Report? then [notices[0].report] else []) + Reports(notices[1..])
  }

  /** The exit status a sequence of minutes ends with: none while no
      terminating event has come, else the first one's code. */
  function ExitOf(events: seq<Event>): (r: Option<int>)
    ensures r.None? <==> forall j :: 0 <= j < |events| ==> !Terminal(events[j])
    ensures r.Some? ==> exists k :: 0 <= k < |events| && Terminal(events[k])
                                    && (forall j :: 0 <= j < k ==> !Terminal(events[j]))
                                    && r.value == ExitCode(events[k])
  {
    match FirstWhere(events, Terminal)
    case None => None
    case Some(k) => Some(ExitCode(events[k]))
  }

  /** The exit status is decided by the first minute when it terminates,
      and by the later minutes otherwise. */
  lemma ExitOfStep(events: seq<Event>)
    requires events != []
    ensures ExitOf(events) == if Terminal(events[0]) then Some(ExitCode(events[0])) else ExitOf(events[1..])
  {
    if !Terminal(events[0]) && ExitOf(events).Some? {
      var k :| 0 <= k < |events| && Terminal(events[k])
               && (forall j :: 0 <= j < k ==> !Terminal(events[j]))
               && ExitOf(events).value == ExitCode(events[k]);
      assert events[1..][k - 1] == events[k];
    }
  }

  /** Redemption never raises the target it was given. */
  ghost predicate KeepsTargetDown(stages: Stages) {
    forall st: RedeemState, o: RedeemObs ::
      0.0 <= st.target ==> 0.0 <= stages.redeem(st, o).state.target <= st.target
  }

  lemma ScriptsKeepTargetDown()
    ensures KeepsTargetDown(Scripts)
  {
    forall st: RedeemState, o: RedeemObs | 0.0 <= st.target
      ensures 0.0 <= Scripts.redeem(st, o).state.target <= st.target
    {
      assert Scripts.redeem(st, o) == RunRedemption(st, o);
    }
  }

  /** The loop over the minutes after the initial run. A loop error is
      reported and the loop goes on; Ctrl-C sends the stop notice and exits
      with 0; an exception escaping the loop sends the critical notice and
      exits with 1. */
  function Drive(stages: Stages, p: Process, events: seq<Event>): (s: Session)
    ensures s.exit == ExitOf(events)
    ensures s.exit == Some(0) ==> s.notices != [] && s.notices[|s.notices| - 1] == Stopped
    ensures s.exit == Some(1) ==> s.notices != [] && s.notices[|s.notices| - 1] == Critical
    ensures s.process.investmentAmount == p.investmentAmount
    ensures KeepsTargetDown(stages) && 0.0 <= p.redeem.target ==>
              0.0 <= s.process.redeem.target <= p.redeem.target
    decreases |events|
  {
    if events == [] then Session(p, [], None)
    else
      ExitOfStep(events);
      match events[0]
      case Interrupt => Session(p, [Stopped], Some(0))
      case HandlerFault => Session(p, [Critical], Some(1))
      case Idle => Drive(stages, p, events[1..])
      case LoopFault =>
        var s := Drive(stages, p, events[1..]);
        Session(s.process, [LoopError] + s.notices, s.exit)
      case Due(obs) =>
        var t := RunCompleteFlow(stages, p, obs);
        var s := Drive(stages, t.process, events[1..]);
        Session(s.process, [Report(t.report)] + s.notices, s.exit)
  }

  /** The reports of a sequence of runs made one after the other. */
  function Runs(stages: Stages, p: Process, obs: seq<TickObs>): seq<RunReport>
    decreases |obs|
  {
    if obs == [] then []
    else
      var t := RunCompleteFlow(stages, p, obs[0]);
      [t.report] + Runs(stages, t.process, obs[1..])
  }

  /** One step of the run list: the first run's report, then the rest from
      the state it left. */
  lemma RunsStep(stages: Stages, p: Process, obs: TickObs, rest: seq<TickObs>)
    ensures var t := RunCompleteFlow(stages, p, obs);
      Runs(stages, p, [obs] + rest) == [t.report] + Runs(stages, t.process, rest)
  {
    assert ([obs] + rest)[1..] == rest;
  }

  /** A due run adds its report in front of the loop's later reports. */
  lemma DriveDueStep(stages: Stages, p: Process, obs: TickObs, rest: seq<Event>)
    ensures var t := RunCompleteFlow(stages, p, obs);
      Reports(Drive(stages, p, [Due(obs)] + rest).notices) == [t.report] + Reports(Drive(stages, t.process, rest).notices)
  {
    var es := [Due(obs)] + rest;
    assert es[1..] == rest;
    var t := RunCompleteFlow(stages, p, obs);
    var n := Drive(stages, p, es).notices;
    assert n[1..] == Drive(stages, t.process, rest).notices;
  }

  /** The loop reports exactly the due runs before it ends, in order. */
  lemma {:induction false} DriveReports(stages: Stages, p: Process, events: seq<Event>)
    ensures Reports(Drive(stages, p, events).notices) == Runs(stages, p, DueObs(Active(events)))
    decreases |events|
  {
    if events != [] && !Terminal(events[0]) {
      var rest := events[1..];
      assert Active(events) == [events[0]] + Active(rest);
      assert Active(events)[1..] == Active(rest);
      match events[0]
      case Idle =>
        DriveReports(stages, p, rest);
        assert DueObs(Active(events)) == DueObs(Active(rest));
      case LoopFault =>
        DriveReports(stages, p, rest);
        assert DueObs(Active(events)) == DueObs(Active(rest));
        assert Drive(stages, p, events).notices[1..] == Drive(stages, p, rest).notices;
      case Due(obs) =>
        var t := RunCompleteFlow(stages, p, obs);
        DriveReports(stages, t.process, rest);
        assert events == [Due(obs)] + rest;
        DriveDueStep(stages, p, obs, rest);
        assert DueObs(Active(events)) == [obs] + DueObs(Active(rest));
        RunsStep(stages, p, obs, DueObs(Active(rest)));
    }
  }

  /** Every run in a process buys with the amount the process started with,
      whatever the redemptions before it wrote out. */
  lemma {:induction false} RunsUseStartupAmount(stages: Stages, p: Process, obs: seq<TickObs>)
    ensures |Runs(stages, p, obs)| == |obs|
    ensures forall i :: 0 <= i < |obs| ==>
              Runs(stages, p, obs)[i].purchase == ResultOf(stages.purchase(obs[i].purchase, p.investmentAmount), PurchaseStatus)
    decreases |obs|
  {
    if obs != [] {
      var t := RunCompleteFlow(stages, p, obs[0]);
      RunsUseStartupAmount(stages, t.process, obs[1..]);
      assert obs == [obs[0]] + obs[1..];
      RunsStep(stages, p, obs[0], obs[1..]);
    }
  }

  /** The startup notice carries no report; the first run's report comes
      before the loop's. */
  lemma StartedThenReport(r: RunReport, rest: seq<Notice>)
    ensures Reports([Started, Report(r)] + rest) == [r] + Reports(rest)
  {
    var notices := [Started, Report(r)] + rest;
    assert notices[1..] == [Report(r)] + rest;
    assert notices[1..][1..] == rest;
  }

  /** The scheduler once started: the startup notice, one run straight
      away, then the loop. */
  function Serve(stages: Stages, p: Process, first: TickObs, events: seq<Event>): (s: Session)
    ensures |s.notices| >= 2 && s.notices[0] == Started
    ensures s.notices[1] == Report(RunCompleteFlow(stages, p, first).report)
    ensures s.exit == ExitOf(events)
    ensures Reports(s.notices) == Runs(stages, p, [first] + DueObs(Active(events)))
  {
    var t := RunCompleteFlow(stages, p, first);
    var rest := Drive(stages, t.process, events);
    DriveReports(stages, t.process, events);
    var notices := [Started, Report(t.report)] + rest.notices;
    StartedThenReport(t.report, rest.notices);
    RunsStep(stages, p, first, DueObs(Active(events)));
    Session(rest.process, notices, rest.exit)
  }

  /** `main()`: startup, then serve. */
  function SchedulerMain(stages: Stages,
    env: Env, envFile: Option<seq<string>>, carried: Option<string>, configuredTarget: real,
    first: TickObs, events: seq<Event>): (s: Session)
    ensures |s.notices| >= 2 && s.notices[0] == Started
    ensures s.exit == ExitOf(events)
    ensures Reports(s.notices) == Runs(stages, Startup(env, envFile, carried, configuredTarget), [first] + DueObs(Active(events)))
  {
    Serve(stages, Startup(env, envFile, carried, configuredTarget), first, events)
  }

  /** Every report a scheduler session sends is for a purchase with the
      amount read at startup, and there is one per run: the initial run and
      each due run before the loop ends. */
  lemma SessionUsesStartupAmount(
    env: Env, envFile: Option<seq<string>>, carried: Option<string>, configuredTarget: real,
    first: TickObs, events: seq<Event>)
    ensures var s := SchedulerMain(Scripts, env, envFile, carried, configuredTarget, first, events);
      var obs := [first] + DueObs(Active(events));
      var amount := Startup(env, envFile, carried, configuredTarget).investmentAmount;
      && |Reports(s.notices)| == 1 + |DueObs(Active(events))|
      && forall i :: 0 <= i < |obs| ==>
           Reports(s.notices)[i].purchase == ResultOf(PurchaseStage(obs[i].purchase, amount), PurchaseStatus)
  {
    var p := Startup(env, envFile, carried, configuredTarget);
    var obs := [first] + DueObs(Active(events));
    RunsUseStartupAmount(Scripts, p, obs);
    forall i | 0 <= i < |obs|
      ensures Scripts.purchase(obs[i].purchase, p.investmentAmount) == PurchaseStage(obs[i].purchase, p.investmentAmount)
    {
    }
  }

  /** Over a whole session the redemption target never rises above the
      configured one. */
  lemma SessionTargetNeverGrows(
    env: Env, envFile: Option<seq<string>>, carried: Option<string>, configuredTarget: real,
    first: TickObs, events: seq<Event>)
    requires 0.0 <= configuredTarget
    ensures 0.0 <= SchedulerMain(Scripts, env, envFile, carried, configuredTarget, first, events).process.redeem.target <= configuredTarget
  {
    ScriptsKeepTargetDown();
    var p := Startup(env, envFile, carried, configuredTarget);
    var t := RunCompleteFlow(Scripts, p, first);
    assert Scripts.redeem(p.redeem, first.redeem) == RunRedemption(p.redeem, first.redeem);
  }

  /** A loop error does not stop the scheduler: the next due run still
      happens and is reported. */
  lemma LoopErrorsSurvived(stages: Stages, p: Process, obs: TickObs, events: seq<Event>)
    ensures var s := Drive(stages, p, [LoopFault, Due(obs)] + events);
      |s.notices| >= 2 && s.notices[0] == LoopError && s.notices[1] == Report(RunCompleteFlow(stages, p, obs).report)
  {
    var es := [LoopFault, Due(obs)] + events;
    assert es[1..] == [Due(obs)] + events;
    assert es[1..][1..] == events;
  }

  /** Nothing runs after Ctrl-C. */
  lemma InterruptStops(stages: Stages, p: Process, events: seq<Event>)
    ensures Drive(stages, p, [Interrupt] + events) == Session(p, [Stopped], Some(0))
  {
  }
}
