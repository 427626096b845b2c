/** The PC companion: a USB client that frames commands as hex-prefixed ASCII
    packets, decodes 9-byte-header replies, polls each long-running phase
    until it settles, and chains the installation steps. */
module Companion {
  import opened Wire
  import opened Polling
  import opened Seqs
  import RealApp

  /** What the transport delivers for one step: whether the write to the
      device succeeds, and the raw result of each read afterwards (None when
      the read raises). */
  datatype Exchange = Exchange(writeOk: bool, replies: seq<Option<seq<Byte>>>)

  /** The reply a read yields on a connected client, if any. */
  function Reply(connected: bool, raw: Option<seq<Byte>>): (r: Option<Response>)
    ensures r.Some? <==> connected && raw.Some? && |raw.value| >= HEADER_SIZE
  {
    if connected && raw.Some? then DecodeResponse(raw.value) else None
  }

  /** How a polling loop classifies one read: no reply is a failure, and the
      command byte of a reply is not looked at. */
  function ReplyVerdict(connected: bool, raw: Option<seq<Byte>>): (v: Verdict)
    ensures v == Failed <==> Reply(connected, raw).None? || Reply(connected, raw).value.status > 1
  {
    match Reply(connected, raw)
    case None => Failed
    case Some(r) => Classify(r.status)
  }

  function ReplyVerdicts(connected: bool, raws: seq<Option<seq<Byte>>>): (vs: seq<Verdict>)
    ensures |vs| == |raws|
    ensures forall j :: 0 <= j < |raws| ==> vs[j] == ReplyVerdict(connected, raws[j])
  {
    seq(|raws|, j requires 0 <= j < |raws| => ReplyVerdict(connected, raws[j]))
  }

  /** The two sides disagree on a successful reply to another command: the
      companion takes it as success, the Flipper monitors skip it. */
  lemma CommandByteOnlyCheckedOnFlipper(r: Response)
    requires Encodable(r) && r.command != CMD_STATUS && r.status == 0
    ensures ReplyVerdict(true, Some(EncodeResponse(r))) == Succeeded
    ensures RealApp.ReadVerdict(RealApp.Got(r)) == KeepReading
  {
    ResponseRoundTrip(r);
  }

  /** `send_command` succeeds: connected, the payload is ASCII (so that the
      packet encodes), the write works. */
  predicate SendOk(connected: bool, data: string, writeOk: bool) {
    connected && IsAscii(data) && writeOk
  }

  /** One command, one reply, which must carry status 0. */
  predicate SingleOk(connected: bool, cmd: Byte, data: string, x: Exchange) {
    SendOk(connected, data, x.writeOk) && |x.replies| > 0 &&
    var r := Reply(connected, x.replies[0]); r.Some? && r.value.status == 0
  }

  /** One command, then replies until one settles the phase. */
  predicate PollOk(connected: bool, cmd: Byte, data: string, x: Exchange) {
    SendOk(connected, data, x.writeOk) && Settles(ReplyVerdicts(connected, x.replies))
  }

  // ---------------------------------------------------------------------------
  // Splitting the disk list

  /** Python's `str.split(sep)`: the pieces between separators, an empty
      string giving one empty piece. */
  function Split(s: string, sep: char): (parts: seq<string>)
    ensures |parts| >= 1
    decreases |s|
  {
    if s == [] then [[]]
    else
      var rest := Split(s[1..], sep);
      if s[0] == sep then [[]] + rest else [[s[0]] + rest[0]] + rest[1..]
  }

  function Join(parts: seq<string>, sep: char): string
    requires |parts| >= 1
    decreases |parts|
  {
    if |parts| == 1 then parts[0] else parts[0] + [sep] + Join(parts[1..], sep)
  }

  /** Splitting loses nothing: joining the pieces gives the text back, no piece
      holds the separator, and every piece of an ASCII text is ASCII. */
  lemma {:induction false} SplitJoin(s: string, sep: char)
    ensures Join(Split(s, sep), sep) == s
    ensures forall i :: 0 <= i < |Split(s, sep)| ==> sep !in Split(s, sep)[i]
    ensures IsAscii(s) ==> forall i :: 0 <= i < |Split(s, sep)| ==> IsAscii(Split(s, sep)[i])
    decreases |s|
  {
    if s != [] {
      var rest := Split(s[1..], sep);
      SplitJoin(s[1..], sep);
      if s[0] == sep {
        assert Split(s, sep)[1..] == rest;
        assert s == [] + [sep] + s[1..];
        forall i | 0 <= i < |Split(s, sep)| ensures sep !in Split(s, sep)[i] {
          if i > 0 {
            assert Split(s, sep)[i] == rest[i - 1];
          }
        }
        if IsAscii(s) {
          assert IsAscii(s[1..]);
          forall i | 0 <= i < |Split(s, sep)| ensures IsAscii(Split(s, sep)[i]) {
            if i > 0 {
              assert Split(s, sep)[i] == rest[i - 1];
            }
          }
        }
      } else {
        var parts := Split(s, sep);
        assert parts[0] == [s[0]] + rest[0];
        if |rest| == 1 {
          assert Join(rest, sep) == rest[0];
        } else {
          assert parts[1..] == rest[1..];
          assert Join(rest, sep) == rest[0] + [sep] + Join(rest[1..], sep);
        }
        forall i | 0 <= i < |parts| ensures sep !in parts[i] {
          if i > 0 {
            assert parts[i] == rest[i];
          }
        }
        if IsAscii(s) {
          assert IsAscii(s[1..]);
          forall i | 0 <= i < |parts| ensures IsAscii(parts[i]) {
            if i > 0 {
              assert parts[i] == rest[i];
            } else {
              assert forall k :: 0 <= k < |rest[0]| ==> parts[0][k + 1] == rest[0][k];
            }
          }
        }
      }
    }
  }

  /** The disk list `detect_disks` returns for an exchange. */
  function Disks(connected: bool, x: Exchange): seq<string> {
    if SingleOk(connected, CMD_DETECT_DISKS, "", x) then
      Split(Reply(connected, x.replies[0]).value.data, ';')
    else []
  }

  /** A successful detection always yields at least one (possibly empty) name,
      so the installation's "no disks" check fails only with the reply; an
      empty reply text gives the single name "". */
  lemma DisksNonEmptyIffReplyOk(connected: bool, x: Exchange)
    ensures |Disks(connected, x)| > 0 <==> SingleOk(connected, CMD_DETECT_DISKS, "", x)
    ensures SingleOk(connected, CMD_DETECT_DISKS, "", x) && Reply(connected, x.replies[0]).value.data == "" ==>
      Disks(connected, x) == [""]
  {
  }

  // ---------------------------------------------------------------------------
  // The installation plan

  const PARTITION_LAYOUT := "512M:2G:4G:remain"
  const FILESYSTEMS := "ext4:/dev/sda1;btrfs:/dev/sda2"
  const MOUNTS := "/dev/sda1:/mnt;/dev/sda2:/mnt/home"
  const MIRROR := "https://mirror.rackspace.com/archlinux"
  const PACKAGES := "base,base-devel,linux,networkmanager"
  const SYSTEM_CONFIG := "archinstallus,UTC,en_US.UTF-8"

  /** The command and payload of step k, given the first detected disk. */
  function PlanStep(disk: string, k: nat): (Byte, string)
    requires k < 8
  {
    if k == 0 then (CMD_HELLO, "PC_READY")
    else if k == 1 then (CMD_DETECT_DISKS, "")
    else if k == 2 then (CMD_PARTITION, disk + ":" + PARTITION_LAYOUT)
    else if k == 3 then (CMD_FORMAT, FILESYSTEMS)
    else if k == 4 then (CMD_MOUNT, MOUNTS)
    else if k == 5 then (CMD_DOWNLOAD, MIRROR)
    else if k == 6 then (CMD_INSTALL, PACKAGES)
    else (CMD_CONFIGURE, SYSTEM_CONFIG)
  }

  /** Steps lo to hi - 1 of the plan, in order. */
  function PlanRange(disk: string, lo: nat, hi: nat): (p: seq<(Byte, string)>)
    requires lo <= hi <= 8
    ensures |p| == hi - lo
    decreases hi
  {
    if lo == hi then [] else PlanRange(disk, lo, hi - 1) + [PlanStep(disk, hi - 1)]
  }

  /** A range holds exactly the steps it names, in order. */
  lemma {:induction false} PlanRangeAt(disk: string, lo: nat, hi: nat, k: nat)
    requires lo <= k < hi <= 8
    ensures PlanRange(disk, lo, hi)[k - lo] == PlanStep(disk, k)
    decreases hi
  {
    if k < hi - 1 {
      PlanRangeAt(disk, lo, hi - 1, k);
    }
  }

  /** The plan opens with the hello and the disk detection, whatever the disk. */
  lemma PlanOpens(disk: string)
    ensures PlanRange(disk, 0, 1) == [(CMD_HELLO, "PC_READY")]
    ensures PlanRange(disk, 0, 2) == [(CMD_HELLO, "PC_READY"), (CMD_DETECT_DISKS, "")]
  {
  }

  /** Running two consecutive ranges runs their union. */
  lemma {:induction false} PlanRangeSplit(disk: string, lo: nat, mid: nat, hi: nat)
    requires lo <= mid <= hi <= 8
    ensures PlanRange(disk, lo, hi) == PlanRange(disk, lo, mid) + PlanRange(disk, mid, hi)
    decreases hi
  {
    if mid < hi {
      PlanRangeSplit(disk, lo, mid, hi - 1);
    }
  }

  /** The packet `send_command` writes for one step, if it writes one. */
  function Written(connected: bool, step: (Byte, string), writeOk: bool): (w: seq<seq<Byte>>)
    ensures |w| <= 1
    ensures |w| == 1 <==> SendOk(connected, step.1, writeOk)
    ensures |w| == 1 ==> DecodePacket(w[0]) == Some(step)
  {
    if SendOk(connected, step.1, writeOk) then
      PacketRoundTrip(step.0, step.1);
      [EncodePacket(step.0, step.1).value]
    else []
  }

  /** The packets written while running steps lo to hi - 1 of the plan. */
  function PlanWritten(connected: bool, disk: string, xs: seq<Exchange>, lo: nat, hi: nat): (w: seq<seq<Byte>>)
    requires lo <= hi <= 8
    ensures |w| <= hi - lo
    decreases hi
  {
    if lo == hi then []
    else PlanWritten(connected, disk, xs, lo, hi - 1) + Written(connected, PlanStep(disk, hi - 1), ExchangeAt(xs, hi - 1).writeOk)
  }

  lemma {:induction false} PlanWrittenSplit(connected: bool, disk: string, xs: seq<Exchange>, lo: nat, mid: nat, hi: nat)
    requires lo <= mid <= hi <= 8
    ensures PlanWritten(connected, disk, xs, lo, hi) == PlanWritten(connected, disk, xs, lo, mid) + PlanWritten(connected, disk, xs, mid, hi)
    decreases hi
  {
    if mid < hi {
      PlanWrittenSplit(connected, disk, xs, lo, mid, hi - 1);
      AppendAssoc(PlanWritten(connected, disk, xs, lo, mid), PlanWritten(connected, disk, xs, mid, hi - 1),
                  Written(connected, PlanStep(disk, hi - 1), ExchangeAt(xs, hi - 1).writeOk));
    }
  }

  /** When every step of a stretch could send, the stretch wrote one packet
      per step, each decoding to that step's command and payload. */
  lemma {:induction false} PlanWrittenAt(connected: bool, disk: string, xs: seq<Exchange>, lo: nat, hi: nat)
    requires lo <= hi <= 8
    requires forall k :: lo <= k < hi ==> SendOk(connected, PlanStep(disk, k).1, ExchangeAt(xs, k).writeOk)
    ensures |PlanWritten(connected, disk, xs, lo, hi)| == hi - lo
    ensures forall k :: lo <= k < hi ==> DecodePacket(PlanWritten(connected, disk, xs, lo, hi)[k - lo]) == Some(PlanStep(disk, k))
    decreases hi
  {
    if lo < hi {
      PlanWrittenAt(connected, disk, xs, lo, hi - 1);
      var w := PlanWritten(connected, disk, xs, lo, hi);
      var front := PlanWritten(connected, disk, xs, lo, hi - 1);
      var last := Written(connected, PlanStep(disk, hi - 1), ExchangeAt(xs, hi - 1).writeOk);
      assert w == front + last;
      forall k | lo <= k < hi ensures DecodePacket(w[k - lo]) == Some(PlanStep(disk, k)) {
        if k < hi - 1 {
          assert w[k - lo] == front[k - lo];
        } else {
          assert w[k - lo] == last[0];
        }
      }
    }
  }

  /** The opening hello and disk detection write at most their two packets. */
  lemma PlanWrittenOpens(connected: bool, disk: string, xs: seq<Exchange>)
    ensures PlanWritten(connected, disk, xs, 0, 1) == Written(connected, (CMD_HELLO, "PC_READY"), ExchangeAt(xs, 0).writeOk)
    ensures PlanWritten(connected, disk, xs, 0, 2) ==
      PlanWritten(connected, disk, xs, 0, 1) + Written(connected, (CMD_DETECT_DISKS, ""), ExchangeAt(xs, 1).writeOk)
  {
    assert PlanWritten(connected, disk, xs, 0, 0) == [];
  }

  function ExchangeAt(xs: seq<Exchange>, k: nat): Exchange {
    if k < |xs| then xs[k] else Exchange(false, [])
  }

  /** The target: the first name the disk detection returned. */
  function PrimaryDisk(connected: bool, xs: seq<Exchange>): string {
    var d := Disks(connected, ExchangeAt(xs, 1));
    if |d| > 0 then d[0] else ""
  }

  /** A step other than the disk detection succeeds: hello and mount read
      one reply, the others poll. */
  predicate StepOkWith(connected: bool, step: (Byte, string), x: Exchange, single: bool) {
    if single then SingleOk(connected, step.0, step.1, x) else PollOk(connected, step.0, step.1, x)
  }

  /** Step k of the installation succeeds. */
  predicate StepOk(connected: bool, xs: seq<Exchange>, k: nat)
    requires k < 8
  {
    if k == 1 then |Disks(connected, ExchangeAt(xs, 1))| > 0
    else StepOkWith(connected, PlanStep(PrimaryDisk(connected, xs), k), ExchangeAt(xs, k), k == 0 || k == 4)
  }

  /** The hello succeeds when its single reply is a success; the disk
      detection when it names at least one disk. */
  lemma OpeningOutcomes(connected: bool, xs: seq<Exchange>)
    ensures Outcomes(connected, xs)[0] == SingleOk(connected, CMD_HELLO, "PC_READY", ExchangeAt(xs, 0))
    ensures Outcomes(connected, xs)[1] == (|Disks(connected, ExchangeAt(xs, 1))| > 0)
  {
  }

  /** From step 2 on, a step's outcome is that of its plan entry on the target
      disk; only the mount step reads a single reply. */
  lemma TargetStepOk(connected: bool, xs: seq<Exchange>, k: nat)
    requires 2 <= k < 8
    ensures Outcomes(connected, xs)[k] ==
      StepOkWith(connected, PlanStep(PrimaryDisk(connected, xs), k), ExchangeAt(xs, k), k == 4)
  {
  }

  /** The outcome of each of the eight steps. */
  function Outcomes(connected: bool, xs: seq<Exchange>): (oks: seq<bool>)
    ensures |oks| == 8 && forall k :: 0 <= k < 8 ==> oks[k] == StepOk(connected, xs, k)
  {
    seq(8, k requires 0 <= k < 8 => StepOk(connected, xs, k))
  }

  /** The first step that fails, or 8 when none does. */
  function FirstFailure(connected: bool, xs: seq<Exchange>): nat {
    FirstFalse(Outcomes(connected, xs))
  }

  /** A step that succeeds has sent its plan entry. */
  lemma StepOkSends(connected: bool, xs: seq<Exchange>, k: nat)
    requires k < 8 && StepOk(connected, xs, k)
    ensures SendOk(connected, PlanStep(PrimaryDisk(connected, xs), k).1, ExchangeAt(xs, k).writeOk)
  {
  }

  /** In a run that gets through, every step sent its plan entry. */
  lemma SuccessSendsEveryStep(connected: bool, xs: seq<Exchange>, disk: string)
    requires FirstFailure(connected, xs) == 8 && disk == PrimaryDisk(connected, xs)
    ensures forall k :: 0 <= k < 8 ==> SendOk(connected, PlanStep(disk, k).1, ExchangeAt(xs, k).writeOk)
  {
    var oks := Outcomes(connected, xs);
    FirstFalseIsFirst(oks);
    forall k | 0 <= k < 8 ensures SendOk(connected, PlanStep(disk, k).1, ExchangeAt(xs, k).writeOk) {
      assert oks[k];
      StepOkSends(connected, xs, k);
    }
  }

  /** A run that gets through wrote the whole plan, one packet per step in
      order, each decoding to that step's command and payload. */
  lemma SuccessWritesWholePlan(connected: bool, xs: seq<Exchange>)
    requires FirstFailure(connected, xs) == 8
    ensures var w := PlanWritten(connected, PrimaryDisk(connected, xs), xs, 0, 8);
      |w| == 8 && forall k :: 0 <= k < 8 ==> DecodePacket(w[k]) == Some(PlanStep(PrimaryDisk(connected, xs), k))
  {
    var disk := PrimaryDisk(connected, xs);
    SuccessSendsEveryStep(connected, xs, disk);
    PlanWrittenAt(connected, disk, xs, 0, 8);
  }

  /** The target disk is ASCII, so the partition payload, the only one not
      fixed in the source, can always be encoded. */
  lemma TargetDiskIsAscii(connected: bool, xs: seq<Exchange>)
    ensures IsAscii(PrimaryDisk(connected, xs))
    ensures IsAscii(PlanStep(PrimaryDisk(connected, xs), 2).1)
  {
    var x := ExchangeAt(xs, 1);
    if |Disks(connected, x)| > 0 {
      SplitJoin(Reply(connected, x.replies[0]).value.data, ';');
    }
    var disk := PrimaryDisk(connected, xs);
    AsciiConcat(disk, ":");
    AsciiConcat(disk + ":", PARTITION_LAYOUT);
  }

  /** Mounting reads one reply, so a status-1 "in progress" reply that a
      polling phase would wait past makes it fail. */
  lemma MountDoesNotPoll(cmd: Byte, data: string, progress: nat)
    requires IsAscii(data) && progress < U32_LIMIT
    ensures var x := Exchange(true, [Some(EncodeResponse(Response(CMD_STATUS, 1, progress, ""))),
                                     Some(EncodeResponse(Response(CMD_STATUS, 0, 100, "")))]);
      !SingleOk(true, cmd, data, x) && PollOk(true, cmd, data, x)
  {
    var r1 := Response(CMD_STATUS, 1, progress, "");
    var r2 := Response(CMD_STATUS, 0, 100, "");
    ResponseRoundTrip(r1);
    ResponseRoundTrip(r2);
    var x := Exchange(true, [Some(EncodeResponse(r1)), Some(EncodeResponse(r2))]);
    assert SucceedsAt(ReplyVerdicts(true, x.replies), 1);
  }

  // ---------------------------------------------------------------------------
  // The client

  class Client {
    var connected: bool
    var hasDevice: bool
    /** Every command passed to `send_command`, in order. */
    ghost var attempts: seq<(Byte, string)>
    /** Every packet written to the device, in order. */
    ghost var written: seq<seq<Byte>>

    constructor ()
      ensures !connected && !hasDevice && attempts == [] && written == []
    {
      connected := false;
      hasDevice := false;
      attempts, written := [], [];
    }

    /** `found`: the device is present; `setupOk`: configuring and claiming
        its interface does not raise. A failure leaves the flag as it was. */
    method Connect(found: bool, setupOk: bool) returns (ok: bool)
      modifies this`connected, this`hasDevice
      ensures hasDevice == found
      ensures ok <==> found && setupOk
      ensures connected == (ok || old(connected))
    {
      hasDevice := found;
      if !found {
        return false;
      }
      if !setupOk {
        return false;
      }
      connected := true;
      return true;
    }

    /** Releasing the interface clears the flag unless it raises; the device
        handle is kept. */
    method Disconnect(releaseOk: bool)
      modifies this`connected
      ensures connected == (old(connected) && !(hasDevice && releaseOk))
    {
      if hasDevice && releaseOk {
        connected := false;
      }
    }

    method SendCommand(cmd: Byte, data: string, writeOk: bool) returns (ok: bool)
      modifies this`attempts, this`written
      ensures ok == SendOk(connected, data, writeOk)
      ensures ok ==> |written| > 0 && DecodePacket(written[|written| - 1]) == Some((cmd, data))
      ensures attempts == old(attempts) + [(cmd, data)]
      ensures written == old(written) + Written(connected, (cmd, data), writeOk)
    {
      attempts := attempts + [(cmd, data)];
      if !connected {
        return false;
      }
      var packet := EncodePacket(cmd, data);
      if packet.None? || !writeOk {
        return false;
      }
      written := written + [packet.value];
      PacketRoundTrip(cmd, data);
      return true;
    }

    method ReceiveResponse(raw: Option<seq<Byte>>) returns (r: Option<Response>)
      ensures r == Reply(connected, raw)
    {
      if !connected {
        return None;
      }
      if raw.None? {
        return None;
      }
      r := DecodeResponse(raw.value);
    }

    method Hello(x: Exchange) returns (ok: bool)
      modifies this`attempts, this`written
      ensures ok == SingleOk(connected, CMD_HELLO, "PC_READY", x)
      ensures attempts == old(attempts) + [(CMD_HELLO, "PC_READY")]
      ensures written == old(written) + Written(connected, (CMD_HELLO, "PC_READY"), x.writeOk)
    {
      var sent := SendCommand(CMD_HELLO, "PC_READY", x.writeOk);
      if !sent || |x.replies| == 0 {
        return false;
      }
      var r := ReceiveResponse(x.replies[0]);
      ok := r.Some? && r.value.status == 0;
    }

    method DetectDisks(x: Exchange) returns (disks: seq<string>)
      modifies this`attempts, this`written
      ensures disks == Disks(connected, x)
      ensures attempts == old(attempts) + [(CMD_DETECT_DISKS, "")]
      ensures written == old(written) + Written(connected, (CMD_DETECT_DISKS, ""), x.writeOk)
    {
      var sent := SendCommand(CMD_DETECT_DISKS, "", x.writeOk);
      if sent && |x.replies| > 0 {
        var r := ReceiveResponse(x.replies[0]);
        if r.Some? && r.value.status == 0 {
          return Split(r.value.data, ';');
        }
      }
      return [];
    }

    /** Send one command, then read replies until one settles the phase;
        replies run out as a read that fails. */
    method PollPhase(cmd: Byte, data: string, x: Exchange) returns (ok: bool)
      modifies this`attempts, this`written
      ensures ok == PollOk(connected, cmd, data, x)
      ensures attempts == old(attempts) + [(cmd, data)]
      ensures written == old(written) + Written(connected, (cmd, data), x.writeOk)
    {
      var sent := SendCommand(cmd, data, x.writeOk);
      if !sent {
        return false;
      }
      ghost var vs := ReplyVerdicts(connected, x.replies);
      var k := 0;
      while k < |x.replies|
        invariant 0 <= k <= |x.replies|
        invariant forall j :: 0 <= j < k ==> vs[j] == KeepReading
        invariant attempts == old(attempts) + [(cmd, data)]
        invariant written == old(written) + Written(connected, (cmd, data), x.writeOk)
      {
        var r := ReceiveResponse(x.replies[k]);
        if r.None? {
          FailureAfterProgressBlocks(vs, k);
          return false;
        }
        if r.value.status == 0 {
          assert SucceedsAt(vs, k);
          return true;
        } else if r.value.status != 1 {
          FailureAfterProgressBlocks(vs, k);
          return false;
        }
        k := k + 1;
      }
      ProgressOnlyNeverSettles(vs);
      return false;
    }

    method PartitionDisk(diskPath: string, partitions: string, x: Exchange) returns (ok: bool)
      modifies this`attempts, this`written
      ensures ok == PollOk(connected, CMD_PARTITION, diskPath + ":" + partitions, x)
      ensures attempts == old(attempts) + [(CMD_PARTITION, diskPath + ":" + partitions)]
      ensures written == old(written) + Written(connected, (CMD_PARTITION, diskPath + ":" + partitions), x.writeOk)
    {
      ok := PollPhase(CMD_PARTITION, diskPath + ":" + partitions, x);
    }

    method FormatPartitions(formats: string, x: Exchange) returns (ok: bool)
      modifies this`attempts, this`written
      ensures ok == PollOk(connected, CMD_FORMAT, formats, x)
      ensures attempts == old(attempts) + [(CMD_FORMAT, formats)]
      ensures written == old(written) + Written(connected, (CMD_FORMAT, formats), x.writeOk)
    {
      ok := PollPhase(CMD_FORMAT, formats, x);
    }

    /** Mounting reads a single reply instead of polling. */
    method MountFilesystems(mounts: string, x: Exchange) returns (ok: bool)
      modifies this`attempts, this`written
      ensures ok == SingleOk(connected, CMD_MOUNT, mounts, x)
      ensures attempts == old(attempts) + [(CMD_MOUNT, mounts)]
      ensures written == old(written) + Written(connected, (CMD_MOUNT, mounts), x.writeOk)
    {
      var sent := SendCommand(CMD_MOUNT, mounts, x.writeOk);
      if !sent || |x.replies| == 0 {
        return false;
      }
      var r := ReceiveResponse(x.replies[0]);
      ok := r.Some? && r.value.status == 0;
    }

    method DownloadArch(mirror: string, x: Exchange) returns (ok: bool)
      modifies this`attempts, this`written
      ensures ok == PollOk(connected, CMD_DOWNLOAD, mirror, x)
      ensures attempts == old(attempts) + [(CMD_DOWNLOAD, mirror)]
      ensures written == old(written) + Written(connected, (CMD_DOWNLOAD, mirror), x.writeOk)
    {
      ok := PollPhase(CMD_DOWNLOAD, mirror, x);
    }

    method InstallSystem(packages: string, x: Exchange) returns (ok: bool)
      modifies this`attempts, this`written
      ensures ok == PollOk(connected, CMD_INSTALL, packages, x)
      ensures attempts == old(attempts) + [(CMD_INSTALL, packages)]
      ensures written == old(written) + Written(connected, (CMD_INSTALL, packages), x.writeOk)
    {
      ok := PollPhase(CMD_INSTALL, packages, x);
    }

    method ConfigureSystem(config: string, x: Exchange) returns (ok: bool)
      modifies this`attempts, this`written
      ensures ok == PollOk(connected, CMD_CONFIGURE, config, x)
      ensures attempts == old(attempts) + [(CMD_CONFIGURE, config)]
      ensures written == old(written) + Written(connected, (CMD_CONFIGURE, config), x.writeOk)
    {
      ok := PollPhase(CMD_CONFIGURE, config, x);
    }

    /** Steps 2 to 7 of the installation, with the target disk. */
    method RunStep(k: nat, disk: string, xs: seq<Exchange>) returns (ok: bool)
      requires 2 <= k < 8 && disk == PrimaryDisk(connected, xs)
      modifies this`attempts, this`written
      ensures ok == Outcomes(connected, xs)[k]
      ensures attempts == old(attempts) + [PlanStep(disk, k)]
      ensures written == old(written) + Written(connected, PlanStep(disk, k), ExchangeAt(xs, k).writeOk)
    {
      TargetStepOk(connected, xs, k);
      var x := ExchangeAt(xs, k);
      if k == 2 {
        ok := PartitionDisk(disk, PARTITION_LAYOUT, x);
      } else if k == 3 {
        ok := FormatPartitions(FILESYSTEMS, x);
      } else if k == 4 {
        ok := MountFilesystems(MOUNTS, x);
      } else if k == 5 {
        ok := DownloadArch(MIRROR, x);
      } else if k == 6 {
        ok := InstallSystem(PACKAGES, x);
      } else {
        ok := ConfigureSystem(SYSTEM_CONFIG, x);
      }
    }

    /** Steps 2 to 7 in order on the target disk, stopping at the first
        failure. */
    method RunTargetSteps(disk: string, xs: seq<Exchange>) returns (ok: bool)
      requires disk == PrimaryDisk(connected, xs)
      modifies this`attempts, this`written
      ensures var oks := Outcomes(connected, xs); ok <==> FirstFalseFrom(oks, 2) == 8
      ensures var f := FirstFalseFrom(Outcomes(connected, xs), 2);
        attempts == old(attempts) + PlanRange(disk, 2, f + (if ok then 0 else 1)) &&
        written == old(written) + PlanWritten(connected, disk, xs, 2, f + (if ok then 0 else 1))
    {
      ghost var oks := Outcomes(connected, xs);
      var k := 2;
      while k < 8
        invariant 2 <= k <= 8
        invariant FirstFalseFrom(oks, 2) == FirstFalseFrom(oks, k)
        invariant attempts == old(attempts) + PlanRange(disk, 2, k)
        invariant written == old(written) + PlanWritten(connected, disk, xs, 2, k)
      {
        ok := RunStep(k, disk, xs);
        AppendAssoc(old(attempts), PlanRange(disk, 2, k), [PlanStep(disk, k)]);
        AppendAssoc(old(written), PlanWritten(connected, disk, xs, 2, k),
                    Written(connected, PlanStep(disk, k), ExchangeAt(xs, k).writeOk));
        if !ok {
          return;
        }
        k := k + 1;
      }
      ok := true;
    }

    /** The two opening steps: hello, then the disk detection when the hello
        succeeded. */
    method OpenSession(xs: seq<Exchange>) returns (ok: bool, disks: seq<string>)
      modifies this`attempts, this`written
      ensures var oks := Outcomes(connected, xs); ok <==> oks[0] && oks[1]
      ensures var oks := Outcomes(connected, xs); FirstFalse(oks) == if ok then FirstFalseFrom(oks, 2) else if oks[0] then 1 else 0
      ensures ok ==> |disks| > 0 && disks[0] == PrimaryDisk(connected, xs)
      ensures attempts == old(attempts) + PlanRange(PrimaryDisk(connected, xs), 0, if Outcomes(connected, xs)[0] then 2 else 1)
      ensures written == old(written) + PlanWritten(connected, PrimaryDisk(connected, xs), xs, 0, if Outcomes(connected, xs)[0] then 2 else 1)
    {
      ghost var oks := Outcomes(connected, xs);
      ghost var disk := PrimaryDisk(connected, xs);
      OpeningOutcomes(connected, xs);
      PlanOpens(disk);
      PlanWrittenOpens(connected, disk, xs);
      ok := Hello(ExchangeAt(xs, 0));
      if !ok {
        assert FirstFalse(oks) == 0;
        return ok, [];
      }
      assert FirstFalse(oks) == FirstFalseFrom(oks, 1);
      disks := DetectDisks(ExchangeAt(xs, 1));
      ok := |disks| > 0;
      AppendAssoc(old(attempts), [(CMD_HELLO, "PC_READY")], [(CMD_DETECT_DISKS, "")]);
      AppendAssoc(old(written), Written(connected, (CMD_HELLO, "PC_READY"), ExchangeAt(xs, 0).writeOk),
                  Written(connected, (CMD_DETECT_DISKS, ""), ExchangeAt(xs, 1).writeOk));
    }

    /** Hello, disk detection, then the remaining steps in order on the first
        disk found, stopping at the first failure. */
    method PerformInstallation(xs: seq<Exchange>) returns (ok: bool)
      modifies this`attempts, this`written
      ensures ok <==> FirstFailure(connected, xs) == 8
      ensures attempts == old(attempts) + PlanRange(PrimaryDisk(connected, xs), 0, FirstFailure(connected, xs) + (if ok then 0 else 1))
      ensures written == old(written) + PlanWritten(connected, PrimaryDisk(connected, xs), xs, 0, FirstFailure(connected, xs) + (if ok then 0 else 1))
    {
      ghost var disk := PrimaryDisk(connected, xs);
      ghost var oks := Outcomes(connected, xs);
      var disks;
      ok, disks := OpenSession(xs);
      if !ok {
        return;
      }
      ok := RunTargetSteps(disks[0], xs);
      ghost var n := FirstFalse(oks) + (if ok then 0 else 1);
      PlanRangeSplit(disk, 0, 2, n);
      AppendAssoc(old(attempts), PlanRange(disk, 0, 2), PlanRange(disk, 2, n));
      PlanWrittenSplit(connected, disk, xs, 0, 2, n);
      AppendAssoc(old(written), PlanWritten(connected, disk, xs, 0, 2), PlanWritten(connected, disk, xs, 2, n));
    }
  }
}
