/**
 The plugin: the timer object whose hook wrappers write into the shared
 duration table, its terminal summary, the option default, and the
 registration gate.
 */
module Plugin {
  import opened Wrappers
  import opened Phases
  import opened Durations
  import opened Report

  /**
   One completed run of an instrumented hook: the occurrence and the two
   clock readings taken around it. The readings are inputs; nothing is
   assumed about their order.
   */
  datatype HookCall = HookCall(phase: Phase, start: real, end: real)

  function Elapsed(c: HookCall): real {
    c.end - c.start
  }

  /** The table after a sequence of hook calls has been recorded, in order. */
  function Replay(es: seq<Entry>, calls: seq<HookCall>): seq<Entry>
    decreases |calls|
  {
    if calls == [] then es
    else Replay(Assign(es, Key(calls[0].phase), Elapsed(calls[0])), calls[1..])
  }

  /** Replaying hook calls never introduces a duplicate key. */
  lemma {:induction false} ReplayKeepsKeysUnique(es: seq<Entry>, calls: seq<HookCall>)
    requires UniqueKeys(KeysOf(es))
    ensures UniqueKeys(KeysOf(Replay(es, calls)))
    decreases |calls|
  {
    if calls != [] {
      AssignKeepsKeysUnique(es, Key(calls[0].phase), Elapsed(calls[0]));
      ReplayKeepsKeysUnique(Assign(es, Key(calls[0].phase), Elapsed(calls[0])), calls[1..]);
    }
  }

  /**
   `PytestExecutionTimer`. Its `durations` is a class attribute, so every
   instance refers to the one table it is constructed with.
   */
  class ExecutionTimer {
    const durations: DurationTable

    constructor (shared: DurationTable)
      ensures durations == shared
    {
      durations := shared;
    }

    method SessionStart(start: real, end: real)
      requires durations.Valid()
      modifies durations
      ensures durations.Valid()
      ensures durations.Entries() == Assign(old(durations.Entries()), SessionStartKey, end - start)
    {
      durations.Put(Key(Phases.SessionStart), end - start);
    }

    method Collection(start: real, end: real)
      requires durations.Valid()
      modifies durations
      ensures durations.Valid()
      ensures durations.Entries() == Assign(old(durations.Entries()), CollectionKey, end - start)
    {
      durations.Put(Key(Phases.Collection), end - start);
    }

    method CollectFile(path: string, start: real, end: real)
      requires durations.Valid()
      modifies durations
      ensures durations.Valid()
      ensures durations.Entries() == Assign(old(durations.Entries()), CollectFilePrefix + path, end - start)
    {
      durations.Put(Key(Phases.CollectFile(path)), end - start);
    }

    method ItemCollected(name: string, start: real, end: real)
      requires durations.Valid()
      modifies durations
      ensures durations.Valid()
      ensures durations.Entries() == Assign(old(durations.Entries()), ItemCollectedPrefix + name, end - start)
    {
      durations.Put(Key(Phases.ItemCollected(name)), end - start);
    }

    method RunTestLoop(start: real, end: real)
      requires durations.Valid()
      modifies durations
      ensures durations.Valid()
      ensures durations.Entries() == Assign(old(durations.Entries()), RunTestLoopKey, end - start)
    {
      durations.Put(Key(Phases.RunTestLoop), end - start);
    }

    method MakeCollectReport(nodeId: string, start: real, end: real)
      requires durations.Valid()
      modifies durations
      ensures durations.Valid()
      ensures durations.Entries() == Assign(old(durations.Entries()), MakeCollectReportPrefix + nodeId, end - start)
    {
      durations.Put(Key(Phases.MakeCollectReport(nodeId)), end - start);
    }

    /** The host invoking whichever hook wrapper a call belongs to. */
    method Observe(call: HookCall)
      requires durations.Valid()
      modifies durations
      ensures durations.Valid()
      ensures durations.Entries() == Assign(old(durations.Entries()), Key(call.phase), Elapsed(call))
    {
      match call.phase
      case SessionStart => SessionStart(call.start, call.end);
      case Collection => Collection(call.start, call.end);
      case CollectFile(path) => CollectFile(path, call.start, call.end);
      case ItemCollected(name) => ItemCollected(name, call.start, call.end);
      case RunTestLoop => RunTestLoop(call.start, call.end);
      case MakeCollectReport(nodeId) => MakeCollectReport(nodeId, call.start, call.end);
    }

    /**
     `pytest_terminal_summary`: writes the report; the table is only read.
     `overflow` reports the `OverflowError` raised when the threshold does
     not fit in a `timedelta`, after the header and the threshold line.
     */
    method TerminalSummary(reporter: TerminalReporter, minDurationMs: int) returns (overflow: bool)
      requires durations.Valid()
      modifies reporter
      ensures unchanged(durations)
      ensures overflow == SummaryRaises(durations.Entries(), minDurationMs)
      ensures reporter.lines == old(reporter.lines) + TerminalOutput(durations.Entries(), minDurationMs)
    {
      reporter.WriteSection(SectionTitle);
      reporter.WriteLine(Text(ThresholdText(minDurationMs)));
      var items := durations.Entries();
      assert Summary(items[..0], minDurationMs) == Header(minDurationMs);
      for i := 0 to |items|
        invariant i > 0 ==> TimedeltaInRange(minDurationMs)
        invariant reporter.lines == old(reporter.lines) + Summary(items[..i], minDurationMs)
      {
        var Entry(key, value) := items[i];
        var threshold := TimedeltaSeconds(minDurationMs);
        if threshold.None? {
          return true;
        }
        SummaryStep(items, i, minDurationMs);
        if value > threshold.value {
          reporter.WriteLine(DurationLine(value, key));
        }
      }
      assert items[..|items|] == items;
      overflow := false;
    }
  }

  /** `--minimum-duration` when it is not given on the command line. */
  const DefaultMinimumDurationMs: int := 100

  /** The two options the plugin registers, after parsing. */
  datatype Options = Options(executionTimer: bool, minimumDurationMs: int)

  /** `--execution-timer` is a store-true flag; `--minimum-duration` defaults to 100. */
  function ParseOptions(executionTimerGiven: bool, minimumDuration: Option<int>): (o: Options)
    ensures o.executionTimer == executionTimerGiven
    ensures minimumDuration.Some? ==> o.minimumDurationMs == minimumDuration.value
    ensures minimumDuration.None? ==> o.minimumDurationMs == DefaultMinimumDurationMs == 100
    ensures minimumDuration.None? ==> ThresholdSeconds(o.minimumDurationMs) == 0.1
  {
    Options(executionTimerGiven, if minimumDuration.Some? then minimumDuration.value else DefaultMinimumDurationMs)
  }

  /**
   Under the default threshold the test loop's entry is reported exactly when
   it took more than a tenth of a second; a loop of 0.2 s is reported and one
   of exactly 0.1 s is not.
   */
  lemma DefaultThresholdReportsSlowLoop(es: seq<Entry>, seconds: real)
    requires Entry(RunTestLoopKey, seconds) in es
    ensures DurationLine(seconds, RunTestLoopKey) in TerminalOutput(es, ParseOptions(true, None).minimumDurationMs)
            <==> seconds > 0.1
  {
    var m := ParseOptions(true, None).minimumDurationMs;
    var e := Entry(RunTestLoopKey, seconds);
    assert TerminalOutput(es, m) == Summary(es, m);
    KeptMember(es, m, e);
    if DurationLine(seconds, RunTestLoopKey) in Summary(es, m) {
      var i :| 0 <= i < |Summary(es, m)| && Summary(es, m)[i] == DurationLine(seconds, RunTestLoopKey);
      assert Summary(es, m)[i] == LinesOf(Kept(es, m))[i - 2];
      assert Kept(es, m)[i - 2] == e;
    }
    if seconds > 0.1 {
      var j :| 0 <= j < |Kept(es, m)| && Kept(es, m)[j] == e;
      assert Summary(es, m)[j + 2] == DurationLine(seconds, RunTestLoopKey);
    }
  }

  /** `pytest_configure`: a timer is registered only under `--execution-timer`. */
  method Configure(options: Options, shared: DurationTable) returns (plugin: Option<ExecutionTimer>)
    ensures plugin.Some? <==> options.executionTimer
    ensures plugin.Some? ==> plugin.value.durations == shared
  {
    if options.executionTimer {
      var timer := new ExecutionTimer(shared);
      plugin := Some(timer);
    } else {
      plugin := None;
    }
  }

  /**
   A session as the host drives it: configure, run every hook call in order
   through the registered timer, then ask it for the terminal summary.
   Without the flag nothing is recorded and nothing is written; `overflow`
   says that the summary hook raised `OverflowError`.
   */
  method RunSession(options: Options, shared: DurationTable, calls: seq<HookCall>, reporter: TerminalReporter)
    returns (overflow: bool)
    requires shared.Valid()
    modifies shared, reporter
    ensures shared.Valid()
    ensures !options.executionTimer ==> unchanged(shared) && reporter.lines == old(reporter.lines) && !overflow
    ensures options.executionTimer ==>
              && shared.Entries() == Replay(old(shared.Entries()), calls)
              && reporter.lines == old(reporter.lines) + TerminalOutput(shared.Entries(), options.minimumDurationMs)
              && overflow == SummaryRaises(shared.Entries(), options.minimumDurationMs)
  {
    overflow := false;
    var plugin := Configure(options, shared);
    if plugin.Some? {
      var timer := plugin.value;
      var i := 0;
      while i < |calls|
        invariant 0 <= i <= |calls|
        invariant timer.durations == shared && shared.Valid()
        invariant Replay(shared.Entries(), calls[i..]) == Replay(old(shared.Entries()), calls)
        invariant reporter.lines == old(reporter.lines)
      {
        ghost var before := shared.Entries();
        timer.Observe(calls[i]);
        assert calls[i..][0] == calls[i] && calls[i..][1..] == calls[i + 1..];
        assert Replay(before, calls[i..]) == Replay(shared.Entries(), calls[i + 1..]);
        i := i + 1;
      }
      overflow := timer.TerminalSummary(reporter, options.minimumDurationMs);
    }
  }
}
