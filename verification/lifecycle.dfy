/**
 * main (srsenb/src/main.cc:346-379): install the SIGINT handler, parse the
 * arguments, initialise the eNodeB and the metrics, start the console
 * thread, keep the process alive until SIGINT (starting the plot once when
 * the GUI is enabled) and shut everything down in a fixed order.
 *
 * What main does to the world is recorded as the sequence of calls it
 * makes; an exception out of parse_args ends it with std::terminate.  The outcome of parse_args, whether enb::init succeeds and how
 * many passes the keep-alive loop makes before the signal handler clears
 * `running` are parameters.
 */
module Lifecycle {
  import opened Prelude
  import opened Options
  import opened Config
  import ConfigLemmas

  datatype Call =
    | InstallSigint
    | EnbInit(args: AllArgs)
    | MetricsInit(period: Option<Value>)
    | SpawnInput
    | StartPlot
    | Sleep
    | CancelInput
    | MetricsStop
    | EnbStop
    | EnbCleanup
    | ProcessExit(code: int)
    | Terminate

  /** gui.enable is set. */
  predicate GuiOn(args: AllArgs) {
    GuiEnable in args.fields && args.fields[GuiEnable] == Flag(true)
  }

  /** expert.metrics_period_secs, which metrics_stdout::init receives. */
  function MetricsPeriod(args: AllArgs): (p: Option<Value>)
    ensures p.Some? <==> Expert(MetricsPeriodSecs) in args.fields
  {
    var k := Expert(MetricsPeriodSecs);
    if k in args.fields then Some(args.fields[k]) else None
  }

  /** The calls after SIGINT, in the order main makes them. */
  const SHUTDOWN: seq<Call> := [CancelInput, MetricsStop, EnbStop, EnbCleanup, ProcessExit(0)]

  function Sleeps(n: nat): (s: seq<Call>)
    ensures |s| == n && forall i | 0 <= i < n :: s[i] == Sleep
  {
    seq(n, _ => Sleep)
  }

  /** The keep-alive loop over `passes` passes: the plot starts in the first one. */
  function KeepAlive(gui: bool, passes: nat): seq<Call> {
    (if gui && passes > 0 then [StartPlot] else []) + Sleeps(passes)
  }

  /** The calls main makes. */
  function MainTrace(outcome: Outcome, initOk: bool, passes: nat): seq<Call> {
    [InstallSigint] +
    match outcome
    case Exit(code) => [ProcessExit(code)]
    case Uncaught => [Terminate]
    case Configured(args, _) =>
      if !initOk then [EnbInit(args), ProcessExit(1)]
      else [EnbInit(args), MetricsInit(MetricsPeriod(args)), SpawnInput]
           + KeepAlive(GuiOn(args), passes) + SHUTDOWN
  }

  /**
   * main, lines 346-379.  `passes` is the number of times the keep-alive
   * loop finds `running` set; the console thread runs beside it and is
   * modelled in the Input module.
   */
  method RunEnb(outcome: Outcome, initOk: bool, passes: nat) returns (trace: seq<Call>)
    ensures trace == MainTrace(outcome, initOk, passes)
  {
    trace := [InstallSigint];
    if outcome.Exit? {
      trace := trace + [ProcessExit(outcome.code)];
      return;
    }
    if outcome.Uncaught? {
      trace := trace + [Terminate];
      return;
    }
    var args := outcome.args;
    trace := trace + [EnbInit(args)];
    if !initOk {
      trace := trace + [ProcessExit(1)];
      return;
    }
    trace := trace + [MetricsInit(MetricsPeriod(args)), SpawnInput];
    ghost var prefix := trace;
    var plotStarted := false;
    var pass := 0;
    while pass < passes
      invariant 0 <= pass <= passes
      invariant plotStarted == (GuiOn(args) && pass > 0)
      invariant trace == prefix + KeepAlive(GuiOn(args), pass)
    {
      if !plotStarted && GuiOn(args) {
        trace := trace + [StartPlot];
        plotStarted := true;
      }
      trace := trace + [Sleep];
      pass := pass + 1;
    }
    trace := trace + SHUTDOWN;
  }

  /** How a call ends the process: exit or std::terminate. */
  predicate Ends(c: Call) {
    c.ProcessExit? || c.Terminate?
  }

  /**
   * The process ends exactly once, with main's last call: std::terminate
   * when parse_args throws, otherwise exit with the parse_args code, 1 on
   * init failure, or 0.
   */
  lemma ExitIsLastCall(outcome: Outcome, initOk: bool, passes: nat)
    ensures var trace := MainTrace(outcome, initOk, passes);
      && trace != []
      && trace[|trace| - 1] == (
           if outcome.Uncaught? then Terminate
           else ProcessExit(if outcome.Exit? then outcome.code else if !initOk then 1 else 0))
      && forall i | 0 <= i < |trace| - 1 :: !Ends(trace[i])
  {
    var trace := MainTrace(outcome, initOk, passes);
    if outcome.Configured? && initOk {
      var args := outcome.args;
      var head := [InstallSigint, EnbInit(args), MetricsInit(MetricsPeriod(args)), SpawnInput];
      var body := KeepAlive(GuiOn(args), passes);
      assert trace == head + body + SHUTDOWN;
      forall i | 0 <= i < |trace| - 1
        ensures !Ends(trace[i])
      {
        if i < |head| {
          assert trace[i] == head[i];
        } else if i < |head| + |body| {
          assert trace[i] == body[i - |head|];
        } else {
          assert trace[i] == SHUTDOWN[i - |head| - |body|];
        }
      }
    }
  }

  /**
   * When enb::init fails, the process exits with 1 right after it: no
   * metrics, no console thread, no plot and no shutdown calls.
   */
  lemma InitFailureExits(args: AllArgs, warnings: seq<Warning>, passes: nat)
    ensures MainTrace(Configured(args, warnings), false, passes)
         == [InstallSigint, EnbInit(args), ProcessExit(1)]
  {
  }

  /**
   * The plot starts at most once: only the fifth call can be start_plot,
   * and it is exactly when the GUI is enabled and the keep-alive loop makes
   * a pass.  It follows the start of the console thread and precedes the
   * first sleep.
   */
  lemma PlotStartsOnce(outcome: Outcome, initOk: bool, passes: nat)
    ensures var trace := MainTrace(outcome, initOk, passes);
      var plotted := outcome.Configured? && initOk && GuiOn(outcome.args) && passes > 0;
      && (forall i | 0 <= i < |trace| :: trace[i] == StartPlot <==> plotted && i == 4)
      && (plotted ==> trace[3] == SpawnInput && trace[5] == Sleep)
  {
    var trace := MainTrace(outcome, initOk, passes);
    if outcome.Configured? && initOk {
      var args := outcome.args;
      var head := [InstallSigint, EnbInit(args), MetricsInit(MetricsPeriod(args)), SpawnInput];
      var plot: seq<Call> := if GuiOn(args) && passes > 0 then [StartPlot] else [];
      assert trace == head + plot + Sleeps(passes) + SHUTDOWN;
      forall i | 0 <= i < |trace|
        ensures trace[i] == StartPlot <==> plot != [] && i == 4
      {
        if i < |head| {
          assert trace[i] == head[i];
        } else if i < |head| + |plot| {
          assert trace[i] == StartPlot;
        } else if i < |head| + |plot| + passes {
          assert trace[i] == Sleeps(passes)[i - |head| - |plot|];
        } else {
          assert trace[i] == SHUTDOWN[i - |head| - |plot| - passes];
        }
      }
      if plot != [] {
        assert trace[5] == Sleeps(passes)[0];
      }
    }
  }

  /**
   * After the keep-alive loop the shutdown calls come in exactly this
   * order and end the trace: cancel the console thread, stop the metrics,
   * stop the eNodeB, clean it up, exit with 0.  Between the start of the
   * console thread and them there is only the plot and sleeping.
   */
  lemma ShutdownOrder(args: AllArgs, warnings: seq<Warning>, passes: nat)
    ensures var trace := MainTrace(Configured(args, warnings), true, passes);
      && |trace| >= 4 + |SHUTDOWN|
      && trace[..4] == [InstallSigint, EnbInit(args), MetricsInit(MetricsPeriod(args)), SpawnInput]
      && trace[|trace| - |SHUTDOWN|..] == SHUTDOWN
      && forall i | 4 <= i < |trace| - |SHUTDOWN| :: trace[i] in {StartPlot, Sleep}
  {
    var trace := MainTrace(Configured(args, warnings), true, passes);
    var head := [InstallSigint, EnbInit(args), MetricsInit(MetricsPeriod(args)), SpawnInput];
    var body := KeepAlive(GuiOn(args), passes);
    assert trace == head + body + SHUTDOWN;
    forall i | 4 <= i < |trace| - |SHUTDOWN|
      ensures trace[i] in {StartPlot, Sleep}
    {
      assert trace[i] == body[i - 4];
      if GuiOn(args) && passes > 0 && i > 4 {
        assert body[i - 4] == Sleeps(passes)[i - 5];
      } else if !(GuiOn(args) && passes > 0) {
        assert body[i - 4] == Sleeps(passes)[i - 4];
      }
    }
  }

  /**
   * A parse_args that exits for help, version or a missing configuration
   * file ends main with code 0 before the eNodeB is touched; a command-line
   * value the first store cannot convert ends it with std::terminate.
   */
  lemma ParseExitStopsMain(init: AllArgs, cmd: Source, files: map<string, Source>,
                           mccOf: Codec, mncOf: Codec, initOk: bool, passes: nat)
    requires Help in cmd || Version in cmd || ConfigFile !in cmd
    ensures MainTrace(ParseArgsSpec(init, cmd, files, mccOf, mncOf), initOk, passes)
         == [InstallSigint, if CommandLineOk(cmd) then ProcessExit(0) else Terminate]
  {
    ConfigLemmas.EarlyExits(init, cmd, files, mccOf, mncOf);
  }

  /** start_plot is called exactly when init succeeds, the loop makes a pass and gui.enable is set. */
  lemma PlotIffGui(args: AllArgs, warnings: seq<Warning>, initOk: bool, passes: nat)
    ensures StartPlot in MainTrace(Configured(args, warnings), initOk, passes)
        <==> initOk && passes > 0 && GuiOn(args)
  {
    var trace := MainTrace(Configured(args, warnings), initOk, passes);
    PlotStartsOnce(Configured(args, warnings), initOk, passes);
    if initOk && passes > 0 && GuiOn(args) {
      assert trace[4] == StartPlot;
    }
  }

  /** gui.enable and expert.metrics_period_secs are bound, defaulted, and no layer setting. */
  lemma PlainOption(k: Key)
    requires k == GuiEnable || k == Expert(MetricsPeriodSecs)
    ensures IsBound(k) && !IsLayerKey(k) && HasDefault(k)
  {
  }

  /**
   * The plot is started exactly when enb::init succeeds, the keep-alive
   * loop makes a pass and the effective gui.enable is true.
   */
  lemma PlotFollowsGuiOption(init: AllArgs, cmd: Source, files: map<string, Source>,
                             mccOf: Codec, mncOf: Codec, path: string, initOk: bool, passes: nat)
    requires InputsOk(cmd, files) && ConfigLemmas.ReadsConfigFile(cmd, files, path)
    requires FileAccepted(Store(map[], cmd), files[path])
    ensures var out := ParseArgsSpec(init, cmd, files, mccOf, mncOf);
      && out.Configured?
      && (StartPlot in MainTrace(out, initOk, passes) <==>
            initOk && passes > 0 && ConfigLemmas.Effective(cmd, files[path], GuiEnable) == Some(Flag(true)))
  {
    var out := ParseArgsSpec(init, cmd, files, mccOf, mncOf);
    PlainOption(GuiEnable);
    ConfigLemmas.OptionValue(init, cmd, files, mccOf, mncOf, path, GuiEnable);
    PlotIffGui(out.args, out.warnings, initOk, passes);
  }

  /**
   * For a configured run, metrics_stdout::init receives the effective
   * expert.metrics_period_secs: the command-line value, else the file value,
   * else the default 1.0.
   */
  lemma MetricsGetPeriodOption(init: AllArgs, cmd: Source, files: map<string, Source>,
                               mccOf: Codec, mncOf: Codec, path: string, passes: nat)
    requires InputsOk(cmd, files) && ConfigLemmas.ReadsConfigFile(cmd, files, path)
    requires FileAccepted(Store(map[], cmd), files[path])
    ensures var trace := MainTrace(ParseArgsSpec(init, cmd, files, mccOf, mncOf), true, passes);
      && |trace| > 2
      && trace[2] == MetricsInit(ConfigLemmas.Effective(cmd, files[path], Expert(MetricsPeriodSecs)))
  {
    var k := Expert(MetricsPeriodSecs);
    PlainOption(k);
    ConfigLemmas.OptionValue(init, cmd, files, mccOf, mncOf, path, k);
    var out := ParseArgsSpec(init, cmd, files, mccOf, mncOf);
    assert MetricsPeriod(out.args) == ConfigLemmas.Effective(cmd, files[path], k);
    MetricsInitThird(out.args, out.warnings, passes);
  }

  /** After a successful init, the third call is metrics_stdout::init with the record's period. */
  lemma MetricsInitThird(args: AllArgs, warnings: seq<Warning>, passes: nat)
    ensures var trace := MainTrace(Configured(args, warnings), true, passes);
      |trace| > 2 && trace[2] == MetricsInit(MetricsPeriod(args))
  {
  }
}
