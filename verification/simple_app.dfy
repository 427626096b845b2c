/** The simple Flipper app: a counter that steps the progress from 0 to 100
    by 5, switching the displayed stage every 20, stopped early when the Back
    button clears the running flag. */
module SimpleApp {
  import opened Wire
  import opened Seqs

  datatype InstallState =
    Idle | Detecting | Partitioning | Downloading | Installing | Configuring | Complete | Error

  /** The status line, abstracted from its exact text. */
  datatype Label =
    | ReadyPressOk          // "Ready - Press OK"
    | Ready                 // "Ready"
    | DetectingHardware     // "Detecting Hardware"
    | PartitioningDisk      // "Partitioning Disk"
    | DownloadingArch       // "Downloading Arch"
    | InstallingSystem      // "Installing System"
    | ConfiguringLabel      // "Configuring"
    | CompleteLabel         // "Complete!"

  datatype InputType = Press | Release | ShortPress | LongPress | Repeat
  datatype InputKey = Up | Down | Right | Left | Ok | Back
  datatype InputEvent = InputEvent(kind: InputType, key: InputKey)

  datatype Snapshot = Snapshot(state: InstallState, progress: nat, status: Label, running: bool)

  const Initial := Snapshot(Idle, 0, ReadyPressOk, false)

  /** The input callback. */
  function OnInput(s: Snapshot, ev: InputEvent): (t: Snapshot)
    ensures t.progress == s.progress
  {
    if ev.kind != Press then s
    else match ev.key
      case Ok => if !s.running then s.(running := true, state := Detecting, status := DetectingHardware) else s
      case Back => if s.running then s.(running := false, state := Idle, status := Ready) else s
      case _ => s
  }

  /** OK always starts a run when none is going, also after completion;
      Back always stops a running one; nothing else acts. */
  lemma InputStartsAndStops(s: Snapshot, ev: InputEvent)
    ensures ev == InputEvent(Press, Ok) && !s.running ==> OnInput(s, ev).running && OnInput(s, ev).state == Detecting
    ensures ev == InputEvent(Press, Back) && s.running ==> !OnInput(s, ev).running && OnInput(s, ev).state == Idle
    ensures OnInput(s, ev) != s ==> ev.kind == Press && (ev.key == Ok || ev.key == Back)
    ensures OnInput(s, ev) != s ==> OnInput(s, ev).running != s.running
    ensures ev == InputEvent(Press, Ok) && s.running ==> OnInput(s, ev) == s
    ensures ev == InputEvent(Press, Back) && !s.running ==> OnInput(s, ev) == s
  {
  }

  /** One pass of the simulation loop with loop value i. */
  function Body(s: Snapshot, i: nat): (t: Snapshot)
    ensures t.progress == i
  {
    var s := s.(progress := i);
    if i == 0 then s.(state := Detecting, status := DetectingHardware)
    else if i == 20 then s.(state := Partitioning, status := PartitioningDisk)
    else if i == 40 then s.(state := Downloading, status := DownloadingArch)
    else if i == 60 then s.(state := Installing, status := InstallingSystem)
    else if i == 80 then s.(state := Configuring, status := ConfiguringLabel)
    else if i == 100 then s.(state := Complete, status := CompleteLabel, running := false)
    else s
  }

  /** The stage that a progress value belongs to. */
  function StageOf(p: nat): InstallState {
    if p < 20 then Detecting
    else if p < 40 then Partitioning
    else if p < 60 then Downloading
    else if p < 80 then Installing
    else if p < 100 then Configuring
    else Complete
  }

  /** Stepping by 5 from 0, the state after each pass is the stage its
      progress value belongs to: stages change only at multiples of 20. */
  lemma BodyFollowsStage(s: Snapshot, i: nat)
    requires i % 5 == 0 && i <= 100
    requires i == 0 || s.state == StageOf(i - 5)
    ensures Body(s, i).state == StageOf(i)
    ensures Body(s, i).running == (s.running && i != 100)
  {
  }

  function StageRank(st: InstallState): nat {
    match st
    case Idle => 0
    case Detecting => 1
    case Partitioning => 2
    case Downloading => 3
    case Installing => 4
    case Configuring => 5
    case Complete => 6
    case Error => 7
  }

  /** Stages follow the enum order as the progress grows. */
  lemma StageOrdered(p: nat, q: nat)
    requires p <= q
    ensures StageRank(StageOf(p)) <= StageRank(StageOf(q))
  {
  }

  /** The outcome of the loop: the final snapshot and every value written to
      the progress field. */
  datatype Run = Run(final: Snapshot, writes: seq<nat>)

  const BackPress := InputEvent(Press, Back)

  /** The loop from value i, with a Back press landing just before the
      check of `i <= 100 && running` for value `backBefore`, if any. */
  function RunFrom(s: Snapshot, i: nat, backBefore: Option<nat>): (r: Run)
    decreases 101 - i
    ensures |r.writes| <= if i <= 100 then (100 - i) / 5 + 1 else 0
  {
    var s := if backBefore == Some(i) then OnInput(s, BackPress) else s;
    if i <= 100 && s.running then
      var r := RunFrom(Body(s, i), i + 5, backBefore);
      Run(r.final, [i] + r.writes)
    else Run(s, [])
  }

  /** The values 0, 5, 10, ... below `limit`, starting at `from`. */
  function Steps(from: nat, count: nat): (s: seq<nat>)
    ensures |s| == count
    ensures forall k :: 0 <= k < count ==> s[k] == from + 5 * k
  {
    seq(count, k requires 0 <= k < count => from + 5 * k)
  }

  /** The values from i, one pass after another. */
  lemma StepsCons(i: nat, count: nat)
    ensures Steps(i, count + 1) == [i] + Steps(i + 5, count)
  {
    var whole, rest := Steps(i, count + 1), Steps(i + 5, count);
    forall k | 0 <= k < |whole|
      ensures whole[k] == ([i] + rest)[k]
    {
      if k > 0 {
        assert ([i] + rest)[k] == rest[k - 1];
      }
    }
  }

  /** A pass that keeps the run going: write i, then carry on from i + 5. */
  lemma RunFromPass(s: Snapshot, i: nat, backBefore: Option<nat>)
    requires i <= 100 && s.running && backBefore != Some(i)
    ensures var r := RunFrom(Body(s, i), i + 5, backBefore);
      RunFrom(s, i, backBefore) == Run(r.final, [i] + r.writes)
  {
  }

  lemma {:induction false} UninterruptedFrom(s: Snapshot, i: nat)
    requires s.running && i % 5 == 0 && i <= 100
    ensures var r := RunFrom(s, i, None);
      r.final == s.(state := Complete, progress := 100, status := CompleteLabel, running := false) &&
      r.writes == Steps(i, (100 - i) / 5 + 1)
    decreases 100 - i
  {
    var t := Body(s, i);
    if i < 100 {
      assert t.running;
      UninterruptedFrom(t, i + 5);
      RunFromPass(s, i, None);
      StepsCons(i, (100 - i) / 5);
    } else {
      assert RunFrom(t, 105, None) == Run(t, []);
    }
  }

  /** Left alone, a run writes 0, 5, ..., 100 and ends Complete and stopped. */
  lemma UninterruptedRunCompletes(s: Snapshot)
    requires s.running
    ensures var r := RunFrom(s, 0, None);
      r.final == s.(state := Complete, progress := 100, status := CompleteLabel, running := false) &&
      r.writes == Steps(0, 21)
  {
    UninterruptedFrom(s, 0);
  }

  lemma {:induction false} CancelledFrom(s: Snapshot, i: nat, c: nat)
    requires s.running && i % 5 == 0 && c % 5 == 0 && i <= c <= 100
    ensures var r := RunFrom(s, i, Some(c));
      r.final == s.(state := Idle, progress := if c == i then s.progress else c - 5,
                    status := Ready, running := false) &&
      r.writes == Steps(i, (c - i) / 5)
    decreases c - i
  {
    if i < c {
      var t := Body(s, i);
      assert t.running;
      CancelledFrom(t, i + 5, c);
      RunFromPass(s, i, Some(c));
      StepsCons(i, (c - i) / 5 - 1);
    }
  }

  /** Back pressed before the check for value c stops the run with the
      progress left at the last value written, and the run never completes. */
  lemma CancelledRunStops(s: Snapshot, c: nat)
    requires s.running && c % 5 == 0 && c <= 100
    ensures var r := RunFrom(s, 0, Some(c));
      r.final.state == Idle && !r.final.running && r.final.status == Ready &&
      r.final.progress == (if c == 0 then s.progress else c - 5) &&
      r.writes == Steps(0, c / 5) && Complete != r.final.state
  {
    CancelledFrom(s, 0, c);
  }

  /** Without a press and without the running flag the loop does nothing. */
  lemma StoppedRunIsNoOp(s: Snapshot)
    requires !s.running
    ensures RunFrom(s, 0, None) == Run(s, [])
  {
  }

  /** The main loop: run the simulation when running and not yet complete. */
  function Tick(s: Snapshot, backBefore: Option<nat>): Snapshot {
    if s.running && s.state != Complete then RunFrom(s, 0, backBefore).final else s
  }

  /** From start-up, OK followed by one uninterrupted main-loop pass completes
      the installation; OK pressed again starts a fresh run that completes too. */
  lemma OkThenTickCompletes()
    ensures var done := Tick(OnInput(Initial, InputEvent(Press, Ok)), None);
      done == Snapshot(Complete, 100, CompleteLabel, false) &&
      Tick(OnInput(done, InputEvent(Press, Ok)), None) == done
  {
    UninterruptedRunCompletes(OnInput(Initial, InputEvent(Press, Ok)));
    var done := Snapshot(Complete, 100, CompleteLabel, false);
    UninterruptedRunCompletes(OnInput(done, InputEvent(Press, Ok)));
  }

  /** `uint8_t bar_width = (progress * 100) / 100` with 32-bit
      multiplication and the 8-bit store. */
  function BarWidth(progress: nat): (w: nat)
    requires progress < U32_LIMIT
    ensures w < 256
  {
    (((progress * 100) % U32_LIMIT) / 100) % 256
  }

  /** Within 0..100 the bar is exactly `progress` pixels long. */
  lemma BarWidthIsProgress(p: nat)
    requires p <= 100
    ensures BarWidth(p) == p
  {
    assert (p * 100) % U32_LIMIT == p * 100;
    assert (p * 100) / 100 == p;
  }

  // ---------------------------------------------------------------------------
  // The percentage text

  /** The percentage the screen prints, as written: a fixed "100%". */
  function PercentTextAsWritten(progress: nat): string {
    "100%"
  }

  lemma PercentTextIgnoresProgress()
    ensures PercentTextAsWritten(Initial.progress) == PercentTextAsWritten(100) == "100%"
  {
  }

  function DigitChar(d: nat): (c: char)
    requires d < 10
    ensures '0' <= c <= '9'
  {
    ('0' as int + d) as char
  }

  /** The decimal digits of n, without leading zeros. */
  function Decimal(n: nat): (s: string)
    ensures |s| >= 1 && forall k :: 0 <= k < |s| ==> '0' <= s[k] <= '9'
    decreases n
  {
    if n < 10 then [DigitChar(n)] else Decimal(n / 10) + [DigitChar(n % 10)]
  }

  predicate AllDigits(s: string) {
    forall k :: 0 <= k < |s| ==> '0' <= s[k] <= '9'
  }

  function ParseDecimal(s: string): nat
    requires AllDigits(s)
  {
    if s == [] then 0 else ParseDecimal(s[..|s| - 1]) * 10 + (s[|s| - 1] as int - '0' as int)
  }

  lemma {:induction false} DecimalRoundTrip(n: nat)
    ensures ParseDecimal(Decimal(n)) == n
    decreases n
  {
    if n >= 10 {
      DecimalRoundTrip(n / 10);
      var s := Decimal(n);
      assert s[..|s| - 1] == Decimal(n / 10);
    }
  }

  /** The percentage text as the other apps print it: the progress value and a
      percent sign. */
  function PercentText(progress: nat): string {
    Decimal(progress) + "%"
  }

  /** The text names the current progress: reading its digits back gives the
      progress, so different progress values show different texts. */
  lemma PercentTextShowsProgress(p: nat, q: nat)
    ensures var t := PercentText(p);
      |t| >= 2 && t[|t| - 1] == '%' && AllDigits(t[..|t| - 1]) && ParseDecimal(t[..|t| - 1]) == p
    ensures PercentText(p) == PercentText(q) ==> p == q
  {
    DecimalRoundTrip(p);
    DecimalRoundTrip(q);
    var t := PercentText(p);
    assert t[..|t| - 1] == Decimal(p);
    var u := PercentText(q);
    assert u[..|u| - 1] == Decimal(q);
  }

  // ---------------------------------------------------------------------------
  // The app

  class App {
    var state: InstallState
    var progress: nat
    var status: Label
    var running: bool
    /** Every value written to the progress field, in order. */
    ghost var progressLog: seq<nat>

    function View(): Snapshot
      reads this
    {
      Snapshot(state, progress, status, running)
    }

    constructor ()
      ensures View() == Initial && progressLog == []
    {
      running := false;
      progress := 0;
      state := Idle;
      status := ReadyPressOk;
      progressLog := [];
    }

    method HandleInput(ev: InputEvent)
      modifies this`state, this`status, this`running
      ensures View() == OnInput(old(View()), ev)
    {
      if ev.kind == Press {
        match ev.key
        case Ok =>
          if !running {
            running := true;
            state := Detecting;
            status := DetectingHardware;
          }
        case Back =>
          if running {
            running := false;
            state := Idle;
            status := Ready;
          }
        case _ =>
      }
    }

    /** One pass of the loop: write the progress value and switch on it. */
    method Pass(i: nat)
      modifies this`state, this`progress, this`status, this`running, this`progressLog
      ensures View() == Body(old(View()), i)
      ensures progressLog == old(progressLog) + [i]
    {
      progress := i;
      progressLog := progressLog + [i];
      if i == 0 {
        state, status := Detecting, DetectingHardware;
      } else if i == 20 {
        state, status := Partitioning, PartitioningDisk;
      } else if i == 40 {
        state, status := Downloading, DownloadingArch;
      } else if i == 60 {
        state, status := Installing, InstallingSystem;
      } else if i == 80 {
        state, status := Configuring, ConfiguringLabel;
      } else if i == 100 {
        state, status := Complete, CompleteLabel;
        running := false;
      }
    }

    /** The simulation loop; the input callback may fire between passes, here
        once, just before the check for value `backBefore`. */
    method SimulateInstallation(backBefore: Option<nat>)
      modifies this`state, this`progress, this`status, this`running, this`progressLog
      ensures View() == RunFrom(old(View()), 0, backBefore).final
      ensures progressLog == old(progressLog) + RunFrom(old(View()), 0, backBefore).writes
    {
      ghost var whole := RunFrom(View(), 0, backBefore);
      var i := 0;
      while true
        invariant i % 5 == 0 && i <= 105
        invariant RunFrom(View(), i, backBefore).final == whole.final
        invariant progressLog + RunFrom(View(), i, backBefore).writes == old(progressLog) + whole.writes
        decreases 105 - i
      {
        ghost var s0 := View();
        if backBefore == Some(i) {
          HandleInput(BackPress);
        }
        ghost var s1 := View();
        if !(i <= 100 && running) {
          assert RunFrom(s0, i, backBefore) == Run(s1, []);
          break;
        }
        ghost var logBefore := progressLog;
        Pass(i);
        assert View() == Body(s1, i);
        ghost var rest := RunFrom(View(), i + 5, backBefore);
        assert RunFrom(s0, i, backBefore) == Run(rest.final, [i] + rest.writes);
        AppendAssoc(logBefore, [i], rest.writes);
        i := i + 5;
      }
    }

    /** One pass of the main loop. */
    method MainLoopTick(backBefore: Option<nat>)
      modifies this`state, this`progress, this`status, this`running, this`progressLog
      ensures View() == Tick(old(View()), backBefore)
    {
      if running && state != Complete {
        SimulateInstallation(backBefore);
      }
    }
  }
}
