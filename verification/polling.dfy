/** How a phase decides its outcome from the responses it reads: status 0
    settles it as a success, status 1 asks for another read, and any other
    status (or a read that fails) settles it as a failure. Both the Flipper
    monitors and the PC polling loops follow this rule; they differ only in
    which responses they look at. Both installation sequences then chain the
    phases and stop at the first that fails. */
module Polling {

  datatype Verdict = Succeeded | KeepReading | Failed

  /** The status field of a response, as every phase reads it. */
  function Classify(status: nat): (v: Verdict)
    ensures v == Succeeded <==> status == 0
    ensures v == KeepReading <==> status == 1
    ensures v == Failed <==> status > 1
  {
    if status == 0 then Succeeded else if status == 1 then KeepReading else Failed
  }

  /** The k-th read is the first one that settles the phase, and it settles it
      as a success. */
  predicate SucceedsAt(vs: seq<Verdict>, k: int) {
    0 <= k < |vs| && vs[k] == Succeeded && forall j :: 0 <= j < k ==> vs[j] == KeepReading
  }

  /** A polling loop over the reads `vs` ends with success. Reads are consumed
      in order; running out of reads counts as a failed read. */
  predicate Settles(vs: seq<Verdict>) {
    exists k | 0 <= k < |vs| :: SucceedsAt(vs, k)
  }

  /** The reference reading of the loop, one read at a time. */
  function PollFrom(vs: seq<Verdict>): (ok: bool)
  {
    if vs == [] then false
    else match vs[0]
      case Succeeded => true
      case KeepReading => PollFrom(vs[1..])
      case Failed => false
  }

  lemma {:induction false} PollFromSettles(vs: seq<Verdict>)
    ensures PollFrom(vs) <==> Settles(vs)
  {
    if vs != [] {
      match vs[0]
      case Succeeded =>
        assert SucceedsAt(vs, 0);
      case Failed =>
      case KeepReading =>
        PollFromSettles(vs[1..]);
        if PollFrom(vs[1..]) {
          var k :| SucceedsAt(vs[1..], k);
          assert SucceedsAt(vs[1..], k);
          assert SucceedsAt(vs, k + 1);
        } else {
          forall k | SucceedsAt(vs, k) ensures false {
            assert k != 0;
            assert SucceedsAt(vs[1..], k - 1);
          }
        }
    }
  }

  /** Reads after the one that settled the phase are never looked at. */
  lemma SettlesIgnoresLaterReads(vs: seq<Verdict>, more: seq<Verdict>)
    requires Settles(vs)
    ensures Settles(vs + more)
  {
    var k :| SucceedsAt(vs, k);
    assert SucceedsAt(vs, k);
    assert SucceedsAt(vs + more, k);
  }

  /** A failed read or an error status ends the phase with failure, whatever
      comes after it. */
  lemma FailureIsFinal(vs: seq<Verdict>, more: seq<Verdict>)
    requires !Settles(vs) && vs != [] && vs[|vs| - 1] == Failed
    ensures !Settles(vs + more)
  {
    forall k | 0 <= k < |vs + more| ensures !SucceedsAt(vs + more, k) {
      if k < |vs| {
        assert forall j :: 0 <= j <= k ==> vs[j] == (vs + more)[j];
        assert !SucceedsAt(vs, k);
      } else {
        assert (vs + more)[|vs| - 1] == Failed;
      }
    }
  }

  /** A phase that only ever reads "in progress" never succeeds. */
  lemma {:induction false} ProgressOnlyNeverSettles(vs: seq<Verdict>)
    requires forall j :: 0 <= j < |vs| ==> vs[j] == KeepReading
    ensures !Settles(vs)
  {
    forall k | 0 <= k < |vs| ensures !SucceedsAt(vs, k) {
      assert vs[k] == KeepReading;
    }
  }

  /** A failure that comes after nothing but "in progress" reads settles the
      phase as a failure. */
  lemma FailureAfterProgressBlocks(vs: seq<Verdict>, k: nat)
    requires k < |vs| && vs[k] == Failed
    requires forall j :: 0 <= j < k ==> vs[j] == KeepReading
    ensures !Settles(vs)
  {
    forall m | 0 <= m < |vs| ensures !SucceedsAt(vs, m) {
      if m > k {
        assert vs[k] != KeepReading;
      }
    }
  }

  // ---------------------------------------------------------------------------
  // A chain of phases that stops at the first failure

  /** The first index at or after k whose outcome is a failure, or the length
      when there is none. */
  function FirstFalseFrom(oks: seq<bool>, k: nat): (f: nat)
    requires k <= |oks|
    ensures k <= f <= |oks|
    decreases |oks| - k
  {
    if k == |oks| then k else if !oks[k] then k else FirstFalseFrom(oks, k + 1)
  }

  function FirstFalse(oks: seq<bool>): nat {
    FirstFalseFrom(oks, 0)
  }

  lemma {:induction false} FirstFalseFromIsFirst(oks: seq<bool>, k: nat)
    requires k <= |oks|
    ensures var f := FirstFalseFrom(oks, k);
      (forall j :: k <= j < f ==> oks[j]) && (f < |oks| ==> !oks[f])
    decreases |oks| - k
  {
    if k < |oks| && oks[k] {
      FirstFalseFromIsFirst(oks, k + 1);
    }
  }

  /** A chain gets through exactly when every phase succeeds, and otherwise
      stops at the first that fails. */
  lemma FirstFalseIsFirst(oks: seq<bool>)
    ensures FirstFalse(oks) == |oks| <==> forall j :: 0 <= j < |oks| ==> oks[j]
    ensures FirstFalse(oks) < |oks| ==> !oks[FirstFalse(oks)] && forall j :: 0 <= j < FirstFalse(oks) ==> oks[j]
  {
    FirstFalseFromIsFirst(oks, 0);
  }
}
