/** The complete Flipper app: a session record advanced by a worker through
    fifteen installation phases, each a run of sub-steps that write a step
    percentage, with a fixed overall-progress milestone after each phase; two
    buttons start, pause and reset the session, and the main loop maps the
    current phase to an overall percentage. */
module CompleteApp {
  import opened Arith
  import opened Seqs

  // ---------------------------------------------------------------------------
  // States and phases

  datatype InstallState =
    | Idle | HardwareDetect | DiskDetect | NetworkDetect | Partitioning
    | Formatting | Mounting | Downloading | Installing | Configuring
    | Bootloader | NetworkSetup | UserSetup | ServiceConfig | Optimization
    | Cleanup | Complete | Error

  /** The enum value of each state in the source. */
  function Code(s: InstallState): (c: nat)
    ensures c <= 17
    ensures (c == 0 <==> s == Idle) && (c == 16 <==> s == Complete) && (c == 17 <==> s == Error)
  {
    match s
    case Idle => 0
    case HardwareDetect => 1
    case DiskDetect => 2
    case NetworkDetect => 3
    case Partitioning => 4
    case Formatting => 5
    case Mounting => 6
    case Downloading => 7
    case Installing => 8
    case Configuring => 9
    case Bootloader => 10
    case NetworkSetup => 11
    case UserSetup => 12
    case ServiceConfig => 13
    case Optimization => 14
    case Cleanup => 15
    case Complete => 16
    case Error => 17
  }

  predicate IsPhase(s: InstallState) {
    1 <= Code(s) <= 15
  }

  /** The order in which the worker runs the phases. */
  const PhaseOrder: seq<InstallState> :=
    [HardwareDetect, DiskDetect, NetworkDetect, Partitioning, Formatting, Mounting,
     Downloading, Installing, Configuring, Bootloader, NetworkSetup, UserSetup,
     ServiceConfig, Optimization, Cleanup]

  lemma PhaseOrderFollowsEnum()
    ensures |PhaseOrder| == 15
    ensures forall k :: 0 <= k < 15 ==> Code(PhaseOrder[k]) == k + 1
  {
  }

  /** Overall progress once a phase has succeeded. */
  function Milestone(p: InstallState): (m: nat)
    requires IsPhase(p)
    ensures 5 <= m <= 100
  {
    match p
    case HardwareDetect => 5
    case DiskDetect => 10
    case NetworkDetect => 15
    case Partitioning => 30
    case Formatting => 40
    case Mounting => 50
    case Downloading => 65
    case Installing => 75
    case Configuring => 80
    case Bootloader => 82
    case NetworkSetup => 84
    case UserSetup => 86
    case ServiceConfig => 88
    case Optimization => 95
    case Cleanup => 100
  }

  const Milestones: seq<nat> :=
    [5, 10, 15, 30, 40, 50, 65, 75, 80, 82, 84, 86, 88, 95, 100]

  predicate StrictlyIncreasing(s: seq<nat>) {
    forall i, j :: 0 <= i < j < |s| ==> s[i] < s[j]
  }

  /** The milestones follow the phase order, rise strictly and end at 100. */
  lemma MilestonesRise()
    ensures |Milestones| == |PhaseOrder|
    ensures forall k :: 0 <= k < 15 ==> Milestones[k] == Milestone(PhaseOrder[k])
    ensures StrictlyIncreasing(Milestones)
    ensures Milestones[14] == 100 && forall k :: 0 <= k < 15 ==> Milestones[k] <= 100
  {
    assert forall k :: 0 <= k < 14 ==> Milestones[k] < Milestones[k + 1];
    forall i, j | 0 <= i < j < 15 ensures Milestones[i] < Milestones[j] {
      var m := i;
      while m < j
        invariant i <= m <= j
        invariant Milestones[i] <= Milestones[m]
        invariant m > i ==> Milestones[i] < Milestones[m]
      {
        m := m + 1;
      }
    }
  }

  lemma PhaseAt(k: nat)
    requires k < 15
    ensures IsPhase(PhaseOrder[k]) && Milestones[k] <= 100
  {
  }

  // ---------------------------------------------------------------------------
  // Sub-steps

  /** The counted phases: each walks a fixed table of commands or steps. */
  predicate IsCounted(p: InstallState) {
    4 <= Code(p) <= 15
  }

  /** Number of entries in each counted phase's table. */
  function StepCount(p: InstallState): (n: nat)
    requires IsCounted(p)
    ensures 1 <= n <= 100
  {
    match p
    case Partitioning => 9
    case Formatting => 4
    case Mounting => 6
    case Downloading => 19
    case Installing => 10
    case Configuring => 10
    case Bootloader => 5
    case NetworkSetup => 5
    case UserSetup => 5
    case ServiceConfig => 5
    case Optimization => 8
    case Cleanup => 5
  }

  /** `((i + 1) * 100) / n`: the step percentage after sub-step i of n. */
  function StepValue(i: nat, n: nat): nat
    requires i < n
  {
    ((i + 1) * 100) / n
  }

  function SubStepSchedule(n: nat): (s: seq<nat>)
    ensures |s| == n
  {
    seq(n, i requires 0 <= i < n => StepValue(i, n))
  }

  /** Every step percentage is at most 100, and the last one is exactly 100. */
  lemma StepValueBounds(i: nat, n: nat)
    requires i < n
    ensures StepValue(i, n) <= 100
    ensures StepValue(i, n) == 100 <== i == n - 1
  {
    DivMonotone((i + 1) * 100, n * 100, n);
    DivOfMultiple(100, n);
  }

  /** With at most 100 sub-steps the step percentage rises strictly. */
  lemma StepValueRises(i: nat, n: nat)
    requires i + 1 < n <= 100
    ensures StepValue(i, n) < StepValue(i + 1, n)
  {
    var x := (i + 1) * 100;
    assert (i + 2) * 100 == x + 100;
    DivMonotone(x + n, x + 100, n);
    DivAddDivisor(x, n);
  }

  lemma SubStepScheduleShape(n: nat)
    requires 1 <= n <= 100
    ensures StrictlyIncreasing(SubStepSchedule(n))
    ensures SubStepSchedule(n)[n - 1] == 100
    ensures forall i :: 0 <= i < n ==> 0 < SubStepSchedule(n)[i] <= 100
  {
    var s := SubStepSchedule(n);
    forall i | 0 <= i < n ensures 0 < s[i] <= 100 {
      StepValueBounds(i, n);
      DivMonotone(n, (i + 1) * 100, n);
      DivOfMultiple(1, n);
    }
    StepValueBounds(n - 1, n);
    forall i, j | 0 <= i < j < n ensures s[i] < s[j] {
      var m := i;
      while m < j
        invariant i <= m <= j
        invariant s[i] <= s[m] && (m > i ==> s[i] < s[m])
      {
        StepValueRises(m, n);
        m := m + 1;
      }
    }
  }

  /** All step-percentage values a phase writes after its initial 0. */
  function Schedule(p: InstallState): seq<nat>
    requires IsPhase(p)
  {
    if IsCounted(p) then SubStepSchedule(StepCount(p))
    else if p == HardwareDetect then [20, 40, 60, 80, 100]
    else [50, 100]
  }

  /** A schedule of positive percentages rising strictly to 100, once the
      initial 0 is put in front, still rises strictly from 0 to 100. */
  lemma PrependZero(t: seq<nat>)
    requires |t| > 0 && StrictlyIncreasing(t) && t[|t| - 1] == 100
    requires forall i :: 0 <= i < |t| ==> 0 < t[i] <= 100
    ensures var s := [0] + t;
      StrictlyIncreasing(s) && s[0] == 0 && s[|s| - 1] == 100 &&
      forall i :: 0 <= i < |s| ==> s[i] <= 100
  {
    var s := [0] + t;
    forall i, j | 0 <= i < j < |s| ensures s[i] < s[j] {
      if i > 0 {
        assert s[i] == t[i - 1] && s[j] == t[j - 1];
      }
    }
  }

  /** In every phase the step percentage starts at 0, rises strictly and ends at 100. */
  lemma ScheduleShape(p: InstallState)
    requires IsPhase(p)
    ensures var s := [0] + Schedule(p);
      StrictlyIncreasing(s) && s[0] == 0 && s[|s| - 1] == 100 &&
      forall i :: 0 <= i < |s| ==> s[i] <= 100
  {
    var t := Schedule(p);
    if IsCounted(p) {
      SubStepScheduleShape(StepCount(p));
    }
    assert |t| > 0 && StrictlyIncreasing(t) && t[|t| - 1] == 100;
    assert forall i :: 0 <= i < |t| ==> 0 < t[i] <= 100;
    PrependZero(t);
  }

  /** The step percentages phase k writes: its initial 0, then its schedule. */
  function PhaseSteps(k: nat): seq<nat>
    requires k < 15
  {
    PhaseAt(k);
    [0] + Schedule(PhaseOrder[k])
  }

  /** A step log after the first k phases have written to it, in order. */
  function StepLogAfter(log: seq<nat>, k: nat): seq<nat>
    requires k <= 15
  {
    if k == 0 then log else StepLogAfter(log, k - 1) + PhaseSteps(k - 1)
  }

  /** Across any number of phases the step percentage stays within 0..100,
      and once a phase has run it was last written as 100. */
  lemma {:induction false} StepLogBounded(log: seq<nat>, k: nat)
    requires k <= 15 && forall i :: 0 <= i < |log| ==> log[i] <= 100
    ensures var l := StepLogAfter(log, k);
      |l| >= |log| && l[..|log|] == log && forall i :: 0 <= i < |l| ==> l[i] <= 100
    ensures k > 0 ==> var l := StepLogAfter(log, k); |l| > |log| && l[|l| - 1] == 100
  {
    if k > 0 {
      StepLogBounded(log, k - 1);
      PhaseAt(k - 1);
      ScheduleShape(PhaseOrder[k - 1]);
      var a, b := StepLogAfter(log, k - 1), PhaseSteps(k - 1);
      assert StepLogAfter(log, k) == a + b;
      assert (a + b)[..|log|] == a[..|log|];
      forall i | 0 <= i < |a + b| ensures (a + b)[i] <= 100 {
        if i >= |a| {
          assert (a + b)[i] == b[i - |a|];
        }
      }
    }
  }

  // ---------------------------------------------------------------------------
  // The disk record

  /** Number of disks found, partitions on the first disk, whether it is mounted. */
  datatype DiskRecord = DiskRecord(count: nat, partitions: nat, mounted: bool)

  /** What a phase does to the disk record: detection finds one fresh disk,
      partitioning gives it four partitions, mounting mounts it. */
  function DiskEffect(p: InstallState, d: DiskRecord): DiskRecord {
    match p
    case DiskDetect => DiskRecord(1, 0, false)
    case Partitioning => d.(partitions := 4)
    case Mounting => d.(mounted := true)
    case _ => d
  }

  /** The disk record after the first k phases. */
  function DisksAfter(d: DiskRecord, k: nat): DiskRecord
    requires k <= 15
  {
    if k == 0 then d else DiskEffect(PhaseOrder[k - 1], DisksAfter(d, k - 1))
  }

  /** From disk detection on, the record holds one disk, partitioned once
      partitioning has run and mounted once mounting has, whatever it held
      before; a finished run leaves it with four partitions, mounted. */
  lemma {:induction false} DisksAfterRun(d: DiskRecord, k: nat)
    requires 2 <= k <= 15
    ensures DisksAfter(d, k) == DiskRecord(1, if k >= 4 then 4 else 0, k >= 6)
    decreases k
  {
    if k > 2 {
      DisksAfterRun(d, k - 1);
    }
  }

  // ---------------------------------------------------------------------------
  // Labels

  /** The status line, abstracted from its exact text. */
  datatype Label =
    | ReadyToStart                     // "Ready - Press OK to start"
    | ReadyPressOk                     // "Ready - Press OK"
    | PhaseIntro(phase: InstallState)  // the phase's opening text
    | StepLabel(phase: InstallState, step: nat, of: nat)  // "<Phase> step/of: entry"
    | PausedLabel                      // "Paused - Press OK to continue"
    | RunningLabel                     // "Running..."
    | CompleteLabel                    // "Installation complete!"

  /** The denominator the partition loop prints, as written: a literal 8
      although its table has nine commands. */
  function LabelTotalAsWritten(p: InstallState): nat
    requires IsCounted(p)
  {
    if p == Partitioning then 8 else StepCount(p)
  }

  /** The status a phase leaves behind: the label of its last sub-step for
      a counted phase, its opening text otherwise. */
  function FinalLabel(p: InstallState): Label {
    if IsCounted(p) then StepLabel(p, StepCount(p), LabelTotalAsWritten(p)) else PhaseIntro(p)
  }

  /** As written, partitioning ends on "Partition 9/8"; every other counted
      phase ends on n of n. */
  lemma PartitionLabelOverruns()
    ensures FinalLabel(Partitioning) == StepLabel(Partitioning, 9, 8)
    ensures FinalLabel(Partitioning).step > FinalLabel(Partitioning).of
    ensures forall p :: IsCounted(p) && p != Partitioning ==> FinalLabel(p).step == FinalLabel(p).of
  {
  }

  /** The corrected denominator: the size of the table. */
  function LabelTotal(p: InstallState): nat
    requires IsCounted(p)
  {
    StepCount(p)
  }

  /** The labels of a counted phase's sub-steps with the corrected denominator. */
  function StepLabels(p: InstallState): (l: seq<Label>)
    requires IsCounted(p)
    ensures |l| == StepCount(p)
  {
    seq(StepCount(p), i requires 0 <= i < StepCount(p) => StepLabel(p, i + 1, LabelTotal(p)))
  }

  /** The corrected labels count 1 of n, 2 of n, ... up to n of n, and agree
      with the labels as written in every phase but partitioning. */
  lemma StepLabelsInRange(p: InstallState)
    requires IsCounted(p)
    ensures var l, n := StepLabels(p), StepCount(p);
      l[0] == StepLabel(p, 1, n) && l[n - 1] == StepLabel(p, n, n) &&
      forall i :: 0 <= i < n ==> l[i].phase == p && l[i].step == i + 1 && 1 <= l[i].step <= l[i].of == n
    ensures p != Partitioning <==> StepLabels(p)[StepCount(p) - 1] == FinalLabel(p)
  {
    var n := StepCount(p);
    assert StepLabels(p)[0] == StepLabel(p, 0 + 1, LabelTotal(p));
    assert StepLabels(p)[n - 1] == StepLabel(p, n - 1 + 1, LabelTotal(p));
  }

  /** The error message, abstracted from its text: empty, or the failing
      phase's own message ("Hardware detection failed", "No disks detected",
      and so on, one per phase). */
  datatype ErrorLabel = NoError | PhaseFailed(phase: InstallState)

  // ---------------------------------------------------------------------------
  // Buttons and the main-loop tick, on a snapshot of the session

  datatype InputType = Press | Release | ShortPress | LongPress | Repeat
  datatype InputKey = Up | Down | Right | Left | Ok | Back
  datatype InputEvent = InputEvent(kind: InputType, key: InputKey)

  datatype Snapshot = Snapshot(
    state: InstallState, stepProgress: nat, totalProgress: nat,
    status: Label, running: bool, paused: bool)

  predicate Bounded(s: Snapshot) {
    s.stepProgress <= 100 && s.totalProgress <= 100
  }

  predicate IsTerminal(st: InstallState) {
    st == Complete || st == Error
  }

  /** The input callback. */
  function OnInput(s: Snapshot, ev: InputEvent): (t: Snapshot)
    ensures Bounded(s) ==> Bounded(t)
  {
    if ev.kind != Press then s
    else match ev.key
      case Ok =>
        if s.state == Idle && !s.running then s.(running := true, paused := false) else s
      case Back =>
        if s.running && !IsTerminal(s.state) then
          s.(paused := !s.paused, status := if !s.paused then PausedLabel else RunningLabel)
        else if IsTerminal(s.state) then
          s.(running := false, state := Idle, totalProgress := 0, stepProgress := 0, status := ReadyPressOk)
        else s
      case _ => s
  }

  /** Only presses matter; releases, repeats and the arrow keys change nothing. */
  lemma OnlyOkAndBackPressesAct(s: Snapshot, ev: InputEvent)
    requires ev.kind != Press || (ev.key != Ok && ev.key != Back)
    ensures OnInput(s, ev) == s
  {
  }

  /** OK starts a run only from an idle, stopped session, and never touches the
      state or either percentage. */
  lemma OkStartsOnlyFromIdle(s: Snapshot)
    ensures var t := OnInput(s, InputEvent(Press, Ok));
      (t != s <==> s.state == Idle && !s.running) &&
      (t != s ==> t.running && !t.paused) &&
      t.state == s.state && t.stepProgress == s.stepProgress && t.totalProgress == s.totalProgress
  {
  }

  /** Back during a run toggles the pause flag; pressing it twice restores
      everything but the status line. */
  lemma BackTwiceRestoresPause(s: Snapshot)
    requires s.running && !IsTerminal(s.state)
    ensures OnInput(s, InputEvent(Press, Back)).paused == !s.paused
    ensures OnInput(OnInput(s, InputEvent(Press, Back)), InputEvent(Press, Back)).(status := s.status) == s
  {
  }

  /** The "Press OK to continue" label is not honoured: OK during a paused run
      changes nothing. */
  lemma OkWhilePausedIgnored(s: Snapshot)
    requires s.running && s.paused
    ensures OnInput(s, InputEvent(Press, Ok)) == s
  {
  }

  /** Back after completion or error resets the session to idle with zero
      progress, after which OK starts a new run. */
  lemma BackResetsTerminal(s: Snapshot)
    requires IsTerminal(s.state)
    ensures var t := OnInput(s, InputEvent(Press, Back));
      t.state == Idle && !t.running && t.totalProgress == 0 && t.stepProgress == 0 &&
      OnInput(t, InputEvent(Press, Ok)).running
  {
  }

  /** The overall percentage the main loop shows for a state. */
  function TickProgress(st: InstallState, current: nat): (r: nat)
    ensures IsPhase(st) ==> r == Milestone(st)
  {
    if IsPhase(st) then Milestone(st)
    else if st == Complete then 100
    else current
  }

  /** The main loop's per-iteration update of the overall percentage. */
  function OnTick(s: Snapshot): (t: Snapshot)
    ensures Bounded(s) ==> Bounded(t)
    ensures t.(totalProgress := s.totalProgress) == s
  {
    if s.running && !s.paused then s.(totalProgress := TickProgress(s.state, s.totalProgress))
    else s
  }

  /** The main loop shows, for each phase, the same milestone the worker
      writes once that phase succeeds. */
  lemma TickAgreesWithWorker(k: nat, current: nat)
    requires k < 15
    ensures TickProgress(PhaseOrder[k], current) == Milestones[k]
  {
    MilestonesRise();
  }

  /** Over enum order, from the first phase to Complete, the main loop's
      percentage never decreases. */
  lemma TickMonotone(a: InstallState, b: InstallState, x: nat, y: nat)
    requires 1 <= Code(a) <= Code(b) <= 16
    ensures TickProgress(a, x) <= TickProgress(b, y)
  {
  }

  /** Idle, Error and a paused session keep their percentage. */
  lemma TickKeepsIdleErrorPaused(s: Snapshot)
    requires s.state == Idle || s.state == Error || s.paused || !s.running
    ensures OnTick(s) == s
  {
  }

  // ---------------------------------------------------------------------------
  // Drawing arithmetic

  const U32_LIMIT: nat := 0x1_0000_0000

  /** `uint8_t bar_width = (total_progress * 116) / 100` with 32-bit
      multiplication and the 8-bit store. */
  function BarWidth(total: nat): (w: nat)
    requires total < U32_LIMIT
    ensures w < 256
    ensures total <= 100 ==> w <= 116 && w * 100 <= total * 116 < (w + 1) * 100
  {
    BarArith(total);
    (((total * 116) % U32_LIMIT) / 100) % 256
  }

  /** Up to 100 % neither the 32-bit product nor the 8-bit store truncates. */
  lemma BarArith(total: nat)
    ensures total <= 100 ==> (total * 116) % U32_LIMIT == total * 116
    ensures total <= 100 ==> var w := (total * 116) / 100;
      w <= 116 && w % 256 == w && w * 100 <= total * 116 < (w + 1) * 100
  {
    if total <= 100 {
      var x := total * 116;
      DivUnique(x, U32_LIMIT, 0, x);
      var w := x / 100;
      DivUnique(w, 256, 0, w);
    }
  }

  /** Up to 100 % the bar grows with the percentage, empty at 0 and filling the
      116-pixel track at 100. */
  lemma BarWidthMonotone(a: nat, b: nat)
    requires a <= b <= 100
    ensures BarWidth(a) <= BarWidth(b)
    ensures BarWidth(0) == 0 && BarWidth(100) == 116
  {
    DivMonotone(a * 116, b * 116, 100);
  }

  // ---------------------------------------------------------------------------
  // The session

  class Session {
    var state: InstallState
    var stepProgress: nat
    var totalProgress: nat
    var status: Label
    var errorMessage: ErrorLabel
    var running: bool
    var paused: bool
    var diskCount: nat
    var primaryPartitions: nat
    var primaryMounted: bool

    /** Every value written to the step percentage, in order. */
    ghost var stepLog: seq<nat>
    /** Every value the worker writes to the overall percentage, in order. */
    ghost var milestoneLog: seq<nat>
    /** Every state the worker enters, in order. */
    ghost var stateLog: seq<InstallState>

    ghost predicate Valid()
      reads this
    {
      stepProgress <= 100 && totalProgress <= 100
    }

    function View(): Snapshot
      reads this
    {
      Snapshot(state, stepProgress, totalProgress, status, running, paused)
    }

    function Disk(): DiskRecord
      reads this
    {
      DiskRecord(diskCount, primaryPartitions, primaryMounted)
    }

    constructor ()
      ensures Valid()
      ensures View() == Snapshot(Idle, 0, 0, ReadyToStart, false, false)
      ensures errorMessage == NoError && diskCount == 0
      ensures stepLog == [] && milestoneLog == [] && stateLog == []
    {
      state := Idle;
      stepProgress, totalProgress := 0, 0;
      status := ReadyToStart;
      errorMessage := NoError;
      running, paused := false, false;
      diskCount, primaryPartitions, primaryMounted := 0, 0, false;
      stepLog, milestoneLog, stateLog := [], [], [];
    }

    method SetStep(v: nat)
      modifies this`stepProgress, this`stepLog
      ensures stepProgress == v && stepLog == old(stepLog) + [v]
    {
      stepProgress := v;
      stepLog := stepLog + [v];
    }

    /** The opening of every phase function: its state, its label, step 0. */
    method EnterPhase(p: InstallState)
      requires IsPhase(p)
      modifies this`state, this`status, this`stepProgress, this`stepLog, this`stateLog
      ensures state == p && status == PhaseIntro(p) && stepProgress == 0
      ensures stepLog == old(stepLog) + [0] && stateLog == old(stateLog) + [p]
    {
      state := p;
      status := PhaseIntro(p);
      SetStep(0);
      stateLog := stateLog + [p];
    }

    /** The counted loop of a phase: after entry i the step percentage is
        `((i + 1) * 100) / n` and the label names entry i + 1. */
    method RunSubSteps(p: InstallState)
      requires IsCounted(p)
      modifies this`stepProgress, this`status, this`stepLog
      ensures stepLog == old(stepLog) + SubStepSchedule(StepCount(p))
      ensures stepProgress == 100 && status == FinalLabel(p)
    {
      var n := StepCount(p);
      ghost var s := SubStepSchedule(n);
      for i := 0 to n
        invariant stepLog == old(stepLog) + s[..i]
        invariant i > 0 ==> stepProgress == s[i - 1] && status == StepLabel(p, i, LabelTotalAsWritten(p))
      {
        SetStep(((i + 1) * 100) / n);
        status := StepLabel(p, i + 1, LabelTotalAsWritten(p));
        assert s[..i + 1] == s[..i] + [s[i]];
      }
      assert s[..n] == s;
      StepValueBounds(n - 1, n);
    }

    method DetectHardware() returns (ok: bool)
      modifies this`state, this`status, this`stepProgress, this`stepLog, this`stateLog
      ensures ok
      ensures state == HardwareDetect && stepProgress == 100 && status == PhaseIntro(HardwareDetect)
      ensures stepLog == old(stepLog) + [0] + Schedule(HardwareDetect)
      ensures stateLog == old(stateLog) + [HardwareDetect]
    {
      EnterPhase(HardwareDetect);
      SetStep(20);
      SetStep(40);
      SetStep(60);
      SetStep(80);
      SetStep(100);
      ok := true;
    }

    /** Disk detection records exactly one disk, so it always succeeds. */
    method DetectDisks() returns (ok: bool)
      modifies this`state, this`status, this`stepProgress, this`stepLog, this`stateLog,
        this`diskCount, this`primaryPartitions, this`primaryMounted
      ensures diskCount == 1 && ok == (diskCount > 0)
      ensures primaryPartitions == 0 && !primaryMounted
      ensures state == DiskDetect && stepProgress == 100 && status == PhaseIntro(DiskDetect)
      ensures stepLog == old(stepLog) + [0] + Schedule(DiskDetect)
      ensures stateLog == old(stateLog) + [DiskDetect]
    {
      EnterPhase(DiskDetect);
      diskCount := 0;
      primaryPartitions := 0;
      primaryMounted := false;
      diskCount := diskCount + 1;
      SetStep(50);
      SetStep(100);
      ok := diskCount > 0;
    }

    method DetectNetwork() returns (ok: bool)
      modifies this`state, this`status, this`stepProgress, this`stepLog, this`stateLog
      ensures ok
      ensures state == NetworkDetect && stepProgress == 100 && status == PhaseIntro(NetworkDetect)
      ensures stepLog == old(stepLog) + [0] + Schedule(NetworkDetect)
      ensures stateLog == old(stateLog) + [NetworkDetect]
    {
      EnterPhase(NetworkDetect);
      SetStep(50);
      SetStep(100);
      ok := true;
    }

    /** Partitioning through cleanup: enter, walk the table, and for
        partitioning and mounting record the effect on the primary disk. */
    method RunCountedPhase(p: InstallState) returns (ok: bool)
      requires IsCounted(p)
      modifies this`state, this`status, this`stepProgress, this`stepLog, this`stateLog,
        this`primaryPartitions, this`primaryMounted
      ensures ok
      ensures state == p && stepProgress == 100 && status == FinalLabel(p)
      ensures stepLog == old(stepLog) + [0] + Schedule(p)
      ensures stateLog == old(stateLog) + [p]
      ensures primaryPartitions == if p == Partitioning then 4 else old(primaryPartitions)
      ensures primaryMounted == (p == Mounting || old(primaryMounted))
    {
      EnterPhase(p);
      RunSubSteps(p);
      if p == Partitioning {
        primaryPartitions := 4;
      } else if p == Mounting {
        primaryMounted := true;
      }
      ok := true;
    }

    /** One phase as the worker sees it. */
    method RunPhase(p: InstallState) returns (ok: bool)
      requires IsPhase(p) && Valid()
      modifies this`state, this`status, this`stepProgress, this`stepLog, this`stateLog,
        this`diskCount, this`primaryPartitions, this`primaryMounted
      ensures Valid()
      ensures state == p && stepProgress == 100 && status == FinalLabel(p)
      ensures stepLog == old(stepLog) + [0] + Schedule(p)
      ensures stateLog == old(stateLog) + [p]
      ensures Disk() == DiskEffect(p, old(Disk()))
      ensures p == DiskDetect ==> (ok <==> diskCount > 0)
    {
      if p == HardwareDetect {
        ok := DetectHardware();
      } else if p == DiskDetect {
        ok := DetectDisks();
      } else if p == NetworkDetect {
        ok := DetectNetwork();
      } else {
        ok := RunCountedPhase(p);
      }
    }

    /** Phase k of the worker followed by its bookkeeping: the milestone on
        success, the phase's error text on failure. */
    method RunStage(k: nat) returns (ok: bool)
      requires k < 15 && Valid()
      modifies this`state, this`status, this`stepProgress, this`stepLog, this`stateLog,
        this`diskCount, this`primaryPartitions, this`primaryMounted,
        this`totalProgress, this`milestoneLog, this`errorMessage
      ensures Valid()
      ensures state == PhaseOrder[k] && stateLog == old(stateLog) + [PhaseOrder[k]]
      ensures stepLog == old(stepLog) + PhaseSteps(k) && stepProgress == 100
      ensures status == FinalLabel(PhaseOrder[k]) && Disk() == DiskEffect(PhaseOrder[k], old(Disk()))
      ensures ok ==> totalProgress == Milestones[k] && milestoneLog == old(milestoneLog) + [Milestones[k]]
                     && errorMessage == old(errorMessage)
      ensures !ok ==> totalProgress == old(totalProgress) && milestoneLog == old(milestoneLog)
                      && errorMessage == PhaseFailed(PhaseOrder[k])
    {
      var p := PhaseOrder[k];
      PhaseAt(k);
      ok := RunPhase(p);
      if !ok {
        errorMessage := PhaseFailed(p);
      } else {
        totalProgress := Milestones[k];
        milestoneLog := milestoneLog + [Milestones[k]];
      }
    }

    /** The phases in order, the milestone after each success, stopping at
        the first failure; `entered` counts the phases begun. */
    method RunStages() returns (ok: bool, ghost entered: nat)
      requires Valid()
      modifies this`state, this`status, this`stepProgress, this`stepLog, this`stateLog,
        this`diskCount, this`primaryPartitions, this`primaryMounted,
        this`totalProgress, this`milestoneLog, this`errorMessage
      ensures Valid()
      ensures 1 <= entered <= 15 && (ok ==> entered == 15)
      ensures stateLog == old(stateLog) + PhaseOrder[..entered]
      ensures stepLog == StepLogAfter(old(stepLog), entered) && stepProgress == 100
      ensures status == FinalLabel(PhaseOrder[entered - 1]) && Disk() == DisksAfter(old(Disk()), entered)
      ensures ok ==> stateLog == old(stateLog) + PhaseOrder
      ensures ok ==> milestoneLog == old(milestoneLog) + Milestones && totalProgress == 100
                     && errorMessage == old(errorMessage)
      ensures !ok ==> milestoneLog == old(milestoneLog) + Milestones[..entered - 1]
                      && state == PhaseOrder[entered - 1]
                      && errorMessage == PhaseFailed(PhaseOrder[entered - 1])
                      && totalProgress == (if entered == 1 then old(totalProgress) else Milestones[entered - 2])
    {
      var k := 0;
      while k < 15
        invariant 0 <= k <= 15 && Valid()
        invariant stateLog == old(stateLog) + PhaseOrder[..k]
        invariant milestoneLog == old(milestoneLog) + Milestones[..k]
        invariant totalProgress == if k == 0 then old(totalProgress) else Milestones[k - 1]
        invariant errorMessage == old(errorMessage)
        invariant stepLog == StepLogAfter(old(stepLog), k) && Disk() == DisksAfter(old(Disk()), k)
        invariant k > 0 ==> stepProgress == 100 && status == FinalLabel(PhaseOrder[k - 1])
      {
        ok := RunStage(k);
        SliceExtend(PhaseOrder, 0, k);
        AppendAssoc(old(stateLog), PhaseOrder[..k], [PhaseOrder[k]]);
        if !ok {
          entered := k + 1;
          return;
        }
        SliceExtend(Milestones, 0, k);
        AppendAssoc(old(milestoneLog), Milestones[..k], [Milestones[k]]);
        k := k + 1;
      }
      FullPrefix(Milestones);
      FullPrefix(PhaseOrder);
      ok, entered := true, 15;
    }

    /** The worker: the phases in order, the milestone after each success,
        and on the first failure the phase's error text and -1. */
    method PerformInstallation() returns (code: int, ghost entered: nat)
      requires Valid()
      modifies this`state, this`status, this`stepProgress, this`stepLog, this`stateLog,
        this`diskCount, this`primaryPartitions, this`primaryMounted,
        this`totalProgress, this`milestoneLog, this`errorMessage
      ensures Valid()
      ensures code == 0 || code == -1
      ensures 1 <= entered <= 15
      ensures state == Complete <==> code == 0
      ensures stepLog == StepLogAfter(old(stepLog), entered) && stepProgress == 100
      ensures Disk() == DisksAfter(old(Disk()), entered)
      ensures code == 0 ==> entered == 15 && Disk() == DiskRecord(1, 4, true)
                            && state == Complete && status == CompleteLabel
                            && stateLog == old(stateLog) + PhaseOrder + [Complete]
                            && totalProgress == 100 && milestoneLog == old(milestoneLog) + Milestones
                            && errorMessage == old(errorMessage)
      ensures code == -1 ==> state == PhaseOrder[entered - 1] && status == FinalLabel(PhaseOrder[entered - 1])
                             && stateLog == old(stateLog) + PhaseOrder[..entered]
                             && milestoneLog == old(milestoneLog) + Milestones[..entered - 1]
                             && errorMessage == PhaseFailed(PhaseOrder[entered - 1])
                             && totalProgress == (if entered == 1 then old(totalProgress) else Milestones[entered - 2])
    {
      var ok;
      ok, entered := RunStages();
      if !ok {
        PhaseAt(entered - 1);
        return -1, entered;
      }
      DisksAfterRun(old(Disk()), entered);
      Finish();
      code := 0;
    }

    /** The worker's last step once every phase has succeeded. */
    method Finish()
      modifies this`state, this`status, this`stateLog
      ensures state == Complete && status == CompleteLabel && stateLog == old(stateLog) + [Complete]
    {
      state := Complete;
      status := CompleteLabel;
      stateLog := stateLog + [Complete];
    }

    method HandleInput(ev: InputEvent)
      requires Valid()
      modifies this`state, this`running, this`paused, this`totalProgress, this`stepProgress, this`status
      ensures Valid()
      ensures View() == OnInput(old(View()), ev)
    {
      if ev.kind == Press {
        match ev.key
        case Ok =>
          if state == Idle && !running {
            running := true;
            paused := false;
          }
        case Back =>
          if running && state != Complete && state != Error {
            paused := !paused;
            status := if paused then PausedLabel else RunningLabel;
          } else if state == Complete || state == Error {
            running := false;
            state := Idle;
            totalProgress := 0;
            stepProgress := 0;
            status := ReadyPressOk;
          }
        case _ =>
      }
    }

    /** One iteration of the main loop, apart from logging and notifications. */
    method MainLoopTick()
      requires Valid()
      modifies this`totalProgress
      ensures Valid()
      ensures View() == OnTick(old(View()))
    {
      if running && !paused {
        match state
        case HardwareDetect => totalProgress := 5;
        case DiskDetect => totalProgress := 10;
        case NetworkDetect => totalProgress := 15;
        case Partitioning => totalProgress := 30;
        case Formatting => totalProgress := 40;
        case Mounting => totalProgress := 50;
        case Downloading => totalProgress := 65;
        case Installing => totalProgress := 75;
        case Configuring => totalProgress := 80;
        case Bootloader => totalProgress := 82;
        case NetworkSetup => totalProgress := 84;
        case UserSetup => totalProgress := 86;
        case ServiceConfig => totalProgress := 88;
        case Optimization => totalProgress := 95;
        case Cleanup => totalProgress := 100;
        case Complete => totalProgress := 100;
        case Error =>
        case Idle =>
      }
    }
  }
}
