/** The USB-connected Flipper app: a worker that talks to the PC companion
    phase by phase, one reply for the hello and the disk detection, a
    monitoring read loop for every later phase; two buttons; and a main loop
    that polls the PC and shows its status text. */
module RealApp {
  import opened Wire
  import opened Polling
  import opened Seqs

  datatype RealState =
    Idle | Connected | Detecting | Partitioning | Formatting | Mounting
    | Downloading | Installing | Configuring | Complete | Error

  /** The enum value of each state in the source. */
  function Rank(s: RealState): nat {
    match s
    case Idle => 0
    case Connected => 1
    case Detecting => 2
    case Partitioning => 3
    case Formatting => 4
    case Mounting => 5
    case Downloading => 6
    case Installing => 7
    case Configuring => 8
    case Complete => 9
    case Error => 10
  }

  // ---------------------------------------------------------------------------
  // Reading replies

  /** One attempt to read a reply: a response, or a read that failed. */
  datatype Read = Got(response: Response) | ReadFailed

  /** What a phase monitor makes of a read: replies to other commands are
      skipped, that is, the monitor reads again. */
  function ReadVerdict(rd: Read): (v: Verdict)
    ensures v == Failed <==> rd == ReadFailed || (rd.response.command == CMD_STATUS && rd.response.status > 1)
    ensures v == Succeeded <==> rd.Got? && rd.response.command == CMD_STATUS && rd.response.status == 0
  {
    match rd
    case ReadFailed => Failed
    case Got(r) => if r.command != CMD_STATUS then KeepReading else Classify(r.status)
  }

  function Verdicts(replies: seq<Read>): (vs: seq<Verdict>)
    ensures |vs| == |replies|
    ensures forall j :: 0 <= j < |replies| ==> vs[j] == ReadVerdict(replies[j])
  {
    seq(|replies|, j requires 0 <= j < |replies| => ReadVerdict(replies[j]))
  }

  /** The monitoring loop of partition, format, mount, download, install and
      configure, after the command was sent (`sent`) or not. Running out of
      replies counts as a failed read. */
  method MonitorPhase(sent: bool, replies: seq<Read>) returns (ok: bool)
    ensures ok <==> sent && Settles(Verdicts(replies))
  {
    if !sent {
      return false;
    }
    ghost var vs := Verdicts(replies);
    var k := 0;
    while k < |replies|
      invariant 0 <= k <= |replies|
      invariant forall j :: 0 <= j < k ==> vs[j] == KeepReading
    {
      match replies[k]
      case ReadFailed =>
        FailureAfterProgressBlocks(vs, k);
        return false;
      case Got(r) =>
        if r.command == CMD_STATUS {
          if r.status == 0 {
            assert SucceedsAt(vs, k);
            return true;
          } else if r.status != 1 {
            FailureAfterProgressBlocks(vs, k);
            return false;
          }
        }
      k := k + 1;
    }
    ProgressOnlyNeverSettles(vs);
    return false;
  }

  /** The hello and disk-detection exchange: the command was sent and one
      reply was read, answering CMD_STATUS with status 0. */
  predicate SingleReplyOk(sent: bool, replies: seq<Read>) {
    sent && |replies| > 0 && replies[0].Got? &&
    replies[0].response.command == CMD_STATUS && replies[0].response.status == 0
  }

  /** A single-reply success would also satisfy a monitor, but not the other
      way round: the monitor keeps reading past "in progress" replies and
      replies to other commands, the single-reply check gives up. */
  lemma SingleReplyStricterThanMonitor(sent: bool, replies: seq<Read>)
    ensures SingleReplyOk(sent, replies) ==> sent && Settles(Verdicts(replies))
    ensures var late := [Got(Response(CMD_STATUS, 1, 50, "")), Got(Response(CMD_STATUS, 0, 100, ""))];
      !SingleReplyOk(true, late) && Settles(Verdicts(late))
  {
    if SingleReplyOk(sent, replies) {
      assert SucceedsAt(Verdicts(replies), 0);
    }
    var late := [Got(Response(CMD_STATUS, 1, 50, "")), Got(Response(CMD_STATUS, 0, 100, ""))];
    assert SucceedsAt(Verdicts(late), 1);
  }

  /** The reply the file-based transport makes up whenever the response file
      opens, whatever the file holds. */
  const StubReply: Read := Got(Response(CMD_STATUS, 0, 50, "Operation in progress"))

  /** With that transport every exchange whose command was written and whose
      response file opens succeeds on its first reply, for the single-reply
      stages and the monitors alike. */
  lemma StubReplySucceedsAtOnce(more: seq<Read>)
    ensures SingleReplyOk(true, [StubReply] + more)
    ensures Settles(Verdicts([StubReply] + more))
    ensures !SingleReplyOk(false, [StubReply] + more)
  {
    assert SucceedsAt(Verdicts([StubReply] + more), 0);
  }

  // ---------------------------------------------------------------------------
  // The installation sequence

  /** What the transport delivers for one exchange: whether the command could
      be written, and the replies read afterwards. */
  datatype Exchange = Exchange(sent: bool, replies: seq<Read>)

  /** The exchanges of a run in order: hello, disk detection, then the six
      monitored phases. Exchanges beyond the given ones fail to send. */
  function ExchangeAt(xs: seq<Exchange>, k: nat): Exchange {
    if k < |xs| then xs[k] else Exchange(false, [])
  }

  /** Stage k of the run succeeds. */
  predicate StageOk(xs: seq<Exchange>, k: nat) {
    var e := ExchangeAt(xs, k);
    if k < 2 then SingleReplyOk(e.sent, e.replies) else e.sent && Settles(Verdicts(e.replies))
  }

  /** The outcome of each of the eight stages. */
  function Outcomes(xs: seq<Exchange>): (oks: seq<bool>)
    ensures |oks| == 8 && forall k :: 0 <= k < 8 ==> oks[k] == StageOk(xs, k)
  {
    seq(8, k requires 0 <= k < 8 => StageOk(xs, k))
  }

  /** The first stage that fails, or 8 when none does. */
  function FirstFailure(xs: seq<Exchange>): nat {
    FirstFalse(Outcomes(xs))
  }

  /** The (state, progress) pair each monitored phase starts with, then the
      final pair. */
  const Stages: seq<(RealState, nat)> :=
    [(Partitioning, 20), (Formatting, 40), (Mounting, 60), (Downloading, 70),
     (Installing, 80), (Configuring, 90), (Complete, 100)]

  /** The commands a run sends, in order, the last being the closing FINISH. */
  const Commands: seq<Byte> :=
    [CMD_HELLO, CMD_DETECT_DISKS, CMD_PARTITION, CMD_FORMAT, CMD_MOUNT,
     CMD_DOWNLOAD, CMD_INSTALL, CMD_CONFIGURE, CMD_FINISH]

  /** Along a run both the state (in enum order) and the progress rise
      strictly, and only the last stage is Complete at 100. */
  lemma StagesRise()
    ensures |Stages| == 7 && Stages[6] == (Complete, 100)
    ensures forall i, j :: 0 <= i < j < 7 ==> Rank(Stages[i].0) < Rank(Stages[j].0) && Stages[i].1 < Stages[j].1
    ensures forall i :: 0 <= i < 6 ==> Stages[i].0 != Complete && Stages[i].1 < 100
  {
  }

  /** The failure reasons the worker records; later phases record none. */
  datatype ErrorMsg = NoError | ConnectFailed | DetectFailed

  // ---------------------------------------------------------------------------
  // Buttons and the main loop, on a snapshot

  /** The status line: fixed labels, or text copied from the PC's reply. */
  datatype Label =
    | ReadyPressOk             // "Ready - Press OK"
    | ConnectingToPc           // "Connecting to PC..."
    | PcDisconnected           // "PC Disconnected"
    | PcText(text: string)     // a reply's data, cut to the buffer

  datatype InputType = Press | Release | ShortPress | LongPress | Repeat
  datatype InputKey = Up | Down | Right | Left | Ok | Back
  datatype InputEvent = InputEvent(kind: InputType, key: InputKey)

  datatype Snapshot = Snapshot(
    state: RealState, progress: nat, status: Label, running: bool, pcConnected: bool)

  /** The input callback; OK also starts the worker, which is a separate step. */
  function OnInput(s: Snapshot, ev: InputEvent): (t: Snapshot)
    ensures t.progress == s.progress && t.pcConnected == s.pcConnected
  {
    if ev.kind != Press then s
    else match ev.key
      case Ok => if !s.running then s.(running := true, state := Detecting, status := ConnectingToPc) else s
      case Back => if s.running then s.(running := false, state := Idle, status := ReadyPressOk) else s
      case _ => s
  }

  /** OK acts only on a stopped app and Back only on a running one; neither
      resets the progress. A run that finished is still running, so a new one
      needs Back, then OK. */
  lemma InputStartsAndStops(s: Snapshot)
    ensures var t := OnInput(s, InputEvent(Press, Ok));
      (s.running ==> t == s) && (!s.running ==> t.running && t.state == Detecting)
    ensures var t := OnInput(s, InputEvent(Press, Back));
      (!s.running ==> t == s) && (s.running ==> !t.running && t.state == Idle && t.status == ReadyPressOk)
    ensures s.running ==>
      OnInput(OnInput(s, InputEvent(Press, Back)), InputEvent(Press, Ok)).state == Detecting
  {
  }

  /** The characters of a C string: everything before the first NUL. */
  function CText(d: string): (t: string)
    ensures |t| <= |d| && t == d[..|t|] && '\0' !in t
    ensures |t| < |d| ==> d[|t|] == '\0'
  {
    if d == [] || d[0] == '\0' then [] else [d[0]] + CText(d[1..])
  }

  const STATUS_CAPACITY: nat := 64

  /** `strncpy` into the 64-byte status buffer with its last byte forced to
      NUL: the first at most 63 characters of the reply text. */
  function StatusCopy(d: string): string {
    var t := CText(d);
    if |t| < STATUS_CAPACITY then t else t[..STATUS_CAPACITY - 1]
  }

  /** The copied status always fits the buffer with its terminator, is a NUL-free
      prefix of the reply, and is the whole text whenever that fits. */
  lemma StatusCopyFits(d: string)
    ensures var c := StatusCopy(d);
      |c| <= STATUS_CAPACITY - 1 && c == d[..|c|] && '\0' !in c &&
      (|CText(d)| < STATUS_CAPACITY ==> c == CText(d)) &&
      (|CText(d)| >= STATUS_CAPACITY ==> |c| == STATUS_CAPACITY - 1)
  {
    var t := CText(d);
    if |t| >= STATUS_CAPACITY {
      assert t[..STATUS_CAPACITY - 1] == d[..STATUS_CAPACITY - 1];
      assert forall i :: 0 <= i < STATUS_CAPACITY - 1 ==> t[..STATUS_CAPACITY - 1][i] == t[i];
    }
  }

  /** One main-loop pass: while running and not complete, send STATUS and read
      one reply (None when the read fails). */
  function OnTick(s: Snapshot, reply: Option<Response>): (t: Snapshot)
    ensures t.state == s.state && t.progress == s.progress && t.running == s.running
  {
    if s.running && s.state != Complete then
      match reply
      case None => s
      case Some(r) =>
        if r.command == CMD_STATUS && r.status == 0 then
          s.(pcConnected := true, status := if |CText(r.data)| > 0 then PcText(StatusCopy(r.data)) else s.status)
        else s.(pcConnected := false, status := PcDisconnected)
    else s
  }

  /** A successful reply marks the PC connected and shows its text when it has
      any; any other reply marks it disconnected; a failed read, a stopped app
      or a finished run changes nothing. */
  lemma TickReflectsReply(s: Snapshot, reply: Option<Response>)
    requires s.running && s.state != Complete
    ensures reply.Some? ==> (OnTick(s, reply).pcConnected <==> reply.value.command == CMD_STATUS && reply.value.status == 0)
    ensures reply.Some? && OnTick(s, reply).pcConnected && CText(reply.value.data) != [] ==>
      var c := OnTick(s, reply).status; c.PcText? && |c.text| < STATUS_CAPACITY && c.text == reply.value.data[..|c.text|]
    ensures reply.Some? && !OnTick(s, reply).pcConnected ==> OnTick(s, reply).status == PcDisconnected
    ensures reply == None ==> OnTick(s, reply) == s
  {
    if reply.Some? {
      StatusCopyFits(reply.value.data);
    }
  }

  // ---------------------------------------------------------------------------
  // The app

  class RealApp {
    var state: RealState
    var progress: nat
    var status: Label
    var errorMsg: ErrorMsg
    var running: bool
    var pcConnected: bool
    /** Every (state, progress) pair the worker sets, in order. */
    ghost var stageLog: seq<(RealState, nat)>
    /** Every command the worker tries to send, in order. */
    ghost var commandLog: seq<Byte>

    function View(): Snapshot
      reads this
    {
      Snapshot(state, progress, status, running, pcConnected)
    }

    constructor ()
      ensures View() == Snapshot(Idle, 0, ReadyPressOk, false, false)
      ensures errorMsg == NoError && stageLog == [] && commandLog == []
    {
      running := false;
      progress := 0;
      state := Idle;
      pcConnected := false;
      status := ReadyPressOk;
      errorMsg := NoError;
      stageLog, commandLog := [], [];
    }

    /** Enter monitored stage k: its state and progress. */
    method EnterStage(k: nat)
      requires k < 7
      modifies this`state, this`progress, this`stageLog
      ensures (state, progress) == Stages[k] && stageLog == old(stageLog) + [Stages[k]]
    {
      state, progress := Stages[k].0, Stages[k].1;
      stageLog := stageLog + [Stages[k]];
    }

    /** Partition through configure: enter each stage, send its command and
        monitor the replies, stopping at the first failure. */
    method RunMonitoredStages(xs: seq<Exchange>) returns (ok: bool)
      modifies this`state, this`progress, this`stageLog, this`commandLog
      ensures ok <==> FirstFalseFrom(Outcomes(xs), 2) == 8
      ensures ok ==> commandLog == old(commandLog) + Commands[2..8] && stageLog == old(stageLog) + Stages[..6]
                     && (state, progress) == Stages[5]
      ensures !ok ==> var f := FirstFalseFrom(Outcomes(xs), 2);
        commandLog == old(commandLog) + Commands[2..f + 1] &&
        stageLog == old(stageLog) + Stages[..f - 1] && (state, progress) == Stages[f - 2]
    {
      var k := 0;
      while k < 6
        invariant 0 <= k <= 6
        invariant FirstFalseFrom(Outcomes(xs), 2) == FirstFalseFrom(Outcomes(xs), k + 2)
        invariant commandLog == old(commandLog) + Commands[2..k + 2]
        invariant stageLog == old(stageLog) + Stages[..k]
        invariant k > 0 ==> (state, progress) == Stages[k - 1]
      {
        EnterStage(k);
        var e := ExchangeAt(xs, k + 2);
        commandLog := commandLog + [Commands[k + 2]];
        SliceExtend(Commands, 2, k + 2);
        SliceExtend(Stages, 0, k);
        AppendAssoc(old(commandLog), Commands[2..k + 2], [Commands[k + 2]]);
        AppendAssoc(old(stageLog), Stages[..k], [Stages[k]]);
        ok := MonitorPhase(e.sent, e.replies);
        assert ok == StageOk(xs, k + 2);
        if !ok {
          return;
        }
        k := k + 1;
      }
      ok := true;
    }

    /** The worker. `xs` holds what the transport delivers for each exchange. */
    method PerformRealInstallation(xs: seq<Exchange>) returns (code: int)
      modifies this`state, this`progress, this`errorMsg, this`stageLog, this`commandLog
      ensures code == 0 <==> FirstFailure(xs) == 8
      ensures code == -1 <==> FirstFailure(xs) < 8
      ensures commandLog == old(commandLog) + Commands[..if code == 0 then 9 else FirstFailure(xs) + 1]
      ensures code == 0 ==> state == Complete && progress == 100 && errorMsg == old(errorMsg)
                            && stageLog == old(stageLog) + Stages
      ensures FirstFailure(xs) < 2 ==> state == old(state) && progress == old(progress)
                                       && stageLog == old(stageLog)
                                       && errorMsg == (if FirstFailure(xs) == 0 then ConnectFailed else DetectFailed)
      ensures 2 <= FirstFailure(xs) < 8 ==> (state, progress) == Stages[FirstFailure(xs) - 2]
                                            && errorMsg == old(errorMsg)
                                            && stageLog == old(stageLog) + Stages[..FirstFailure(xs) - 1]
    {
      ghost var oks := Outcomes(xs);
      var e := ExchangeAt(xs, 0);
      commandLog := commandLog + [CMD_HELLO];
      if !SingleReplyOk(e.sent, e.replies) {
        assert !oks[0];
        errorMsg := ConnectFailed;
        return -1;
      }
      assert oks[0];
      e := ExchangeAt(xs, 1);
      commandLog := commandLog + [CMD_DETECT_DISKS];
      if !SingleReplyOk(e.sent, e.replies) {
        assert !oks[1] && FirstFalseFrom(oks, 1) == 1;
        errorMsg := DetectFailed;
        return -1;
      }
      assert oks[1] && FirstFalseFrom(oks, 1) == FirstFalseFrom(oks, 2);
      ghost var before := commandLog;
      assert before == old(commandLog) + Commands[..2];
      var ok := RunMonitoredStages(xs);
      ghost var f := FirstFailure(xs);
      if !ok {
        SliceJoin(Commands, 0, 2, f + 1);
        AppendAssoc(old(commandLog), Commands[..2], Commands[2..f + 1]);
        return -1;
      }
      EnterStage(6);
      // The reply to FINISH is not looked at.
      commandLog := commandLog + [CMD_FINISH];
      assert Commands[..2] + Commands[2..8] + [CMD_FINISH] == Commands[..9];
      assert Stages[..6] + [Stages[6]] == Stages;
      AppendAssoc(old(commandLog), Commands[..2], Commands[2..8]);
      AppendAssoc(old(commandLog), Commands[..2] + Commands[2..8], [CMD_FINISH]);
      AppendAssoc(old(stageLog), Stages[..6], [Stages[6]]);
      return 0;
    }

    method HandleInput(ev: InputEvent)
      modifies this`state, this`status, this`running
      ensures View() == OnInput(old(View()), ev)
    {
      if ev.kind == Press {
        match ev.key
        case Ok =>
          if !running {
            running := true;
            state := Detecting;
            status := ConnectingToPc;
          }
        case Back =>
          if running {
            running := false;
            state := Idle;
            status := ReadyPressOk;
          }
        case _ =>
      }
    }

    /** One main-loop pass; the outcome of sending STATUS is not looked at. */
    method MainLoopTick(reply: Option<Response>)
      modifies this`status, this`pcConnected
      ensures View() == OnTick(old(View()), reply)
    {
      if running && state != Complete {
        if reply.Some? {
          var r := reply.value;
          if r.command == CMD_STATUS && r.status == 0 {
            pcConnected := true;
            if |CText(r.data)| > 0 {
              status := PcText(StatusCopy(r.data));
            }
          } else {
            pcConnected := false;
            status := PcDisconnected;
          }
        }
      }
    }
  }
}
