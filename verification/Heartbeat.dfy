/** One dispatched Kanban run (cli/cmd_kanban.go): `executeDispatchedKanbanRun` starts a heartbeat
    goroutine, runs the command, stops the goroutine and records the end of the run. The model
    interleaves the two threads with ticks, store failures and a cancellation of the parent context. */
module Heartbeat {

  datatype MainPc =
    | Running | Finished(failed: bool) | StopClosed(failed: bool)
    | Joined(failed: bool, heartbeatErr: bool) | Returned(result: Result)

  datatype Result = Completed | CompleteFailed | RecordFailed | HeartbeatFailed | CommandCancelled | CommandFailed

  datatype BeatPc = Selecting | Beating | Failing | Cancelling | Leaving | Gone

  /** The calls of the store for the run, in order, and whether they succeeded; a call that failed stored
      nothing. */
  datatype Record = Beat(ok: bool) | Fail(ok: bool) | Complete(ok: bool)

  datatype State = State(
    parentDone: bool,     // the dispatcher's context
    cancelled: bool,      // cancelRun has been called
    stop: bool,           // the stop channel is closed
    done: bool,           // the done channel is closed
    errCh: nat,           // errors in the buffered channel of capacity one
    main: MainPc,
    beat: BeatPc,
    log: seq<Record>)

  datatype Label =
    | CancelParent
    | CommandEnds(failed: bool)
    | CloseStop
    | Join                     // <-done, then the select on errCh
    | RecordEnd(ok: bool)      // FailKanbanRun or CompleteKanbanRun, or neither
    | LeaveLoop                // the goroutine's select takes ctx.Done or stop
    | Tick                     // the goroutine's select takes the ticker
    | StoreBeat(ok: bool)
    | SendErr
    | CancelRun
    | CloseDone

  const INITIAL := State(false, false, false, false, 0, Running, Selecting, [])

  predicate CtxDone(s: State) { s.parentDone || s.cancelled }

  predicate Enabled(l: Label, s: State) {
    match l
    case CancelParent => true
    case CommandEnds(_) => s.main.Running?
    case CloseStop => s.main.Finished? && !s.stop
    case Join => s.main.StopClosed? && s.done
    case RecordEnd(_) => s.main.Joined?
    case LeaveLoop => s.beat.Selecting? && (CtxDone(s) || s.stop)
    case Tick => s.beat.Selecting?
    case StoreBeat(_) => s.beat.Beating?
    case SendErr => s.beat.Failing? && s.errCh < 1
    case CancelRun => s.beat.Cancelling?
    case CloseDone => s.beat.Leaving? && !s.done
  }

  /** The branches of executeDispatchedKanbanRun after the goroutine has been joined. */
  function EndOf(s: State, ok: bool): State
    requires s.main.Joined?
  {
    if s.main.failed then
      var result := if !ok then RecordFailed else if s.main.heartbeatErr then HeartbeatFailed
                    else if s.parentDone then CommandCancelled else CommandFailed;
      s.(main := Returned(result), log := s.log + [Fail(ok)])
    else if s.main.heartbeatErr then s.(main := Returned(HeartbeatFailed))
    else s.(main := Returned(if ok then Completed else CompleteFailed), log := s.log + [Complete(ok)])
  }

  function Apply(l: Label, s: State): State
    requires Enabled(l, s)
  {
    match l
    case CancelParent => s.(parentDone := true)
    case CommandEnds(failed) => s.(main := Finished(failed))
    case CloseStop => s.(stop := true, main := StopClosed(s.main.failed))
    case Join => s.(main := Joined(s.main.failed, s.errCh > 0), errCh := 0)
    case RecordEnd(ok) => EndOf(s, ok)
    case LeaveLoop => s.(beat := Leaving)
    case Tick => s.(beat := Beating)
    case StoreBeat(ok) => s.(beat := if ok then Selecting else Failing, log := s.log + [Beat(ok)])
    case SendErr => s.(errCh := s.errCh + 1, beat := Cancelling)
    case CancelRun => s.(cancelled := true, beat := Leaving)
    case CloseDone => s.(done := true, beat := Gone)
  }

  ghost predicate IsRun(ss: seq<State>, ls: seq<Label>) {
    && |ss| == |ls| + 1 && ss[0] == INITIAL
    && forall i {:trigger ls[i]} :: 0 <= i < |ls| ==> Enabled(ls[i], ss[i]) && ss[i + 1] == Apply(ls[i], ss[i])
  }

  // ----- The invariant

  predicate IsTerminal(r: Record) { !r.Beat? }

  predicate BeatsOnly(log: seq<Record>) { forall i :: 0 <= i < |log| ==> log[i].Beat? }

  predicate AnyFailedBeat(log: seq<Record>) { exists i :: 0 <= i < |log| && log[i] == Beat(false) }

  /** Heartbeats first, and at most one record of the end after them. */
  predicate EndsOnce(log: seq<Record>) {
    forall i :: 0 <= i < |log| - 1 ==> log[i].Beat?
  }

  predicate Inv(s: State) {
    && (s.stop <==> !s.main.Running? && !s.main.Finished?)
    && (s.done <==> s.beat.Gone?)
    && (s.main.Joined? || s.main.Returned? ==> s.done)
    && s.errCh <= 1
    // a failed heartbeat is the last one, and its error is in the goroutine's hand, in the channel or with main
    && (s.main.Returned? || BeatsOnly(s.log))
    && EndsOnce(s.log)
    && (forall i :: 0 <= i < |s.log| && s.log[i] == Beat(false) ==>
          !s.beat.Selecting? && !s.beat.Beating?)
    && (s.beat.Failing? || s.errCh > 0 || (s.main.Joined? && s.main.heartbeatErr) ==> AnyFailedBeat(s.log))
    && (!s.main.Returned? && AnyFailedBeat(s.log) ==>
        s.beat.Failing? || s.errCh > 0 || (s.main.Joined? && s.main.heartbeatErr))
    && (s.errCh > 0 ==> !s.beat.Failing? && !s.main.Joined? && !s.main.Returned?)
    && (s.main.Returned? ==> ReturnedInv(s.log, s.main.result))
  }

  /** The result of the run and the calls of the store. */
  predicate ReturnedInv(log: seq<Record>, result: Result) {
    match result
    case Completed => log != [] && log[|log| - 1] == Complete(true) && !AnyFailedBeat(log)
    case CompleteFailed => log != [] && log[|log| - 1] == Complete(false) && !AnyFailedBeat(log)
    case RecordFailed => log != [] && log[|log| - 1] == Fail(false)
    case HeartbeatFailed => AnyFailedBeat(log) && (BeatsOnly(log) || log[|log| - 1] == Fail(true))
    case _ => log != [] && log[|log| - 1] == Fail(true) && !AnyFailedBeat(log)
  }

  lemma SnocRecord(log: seq<Record>, r: Record)
    ensures AnyFailedBeat(log + [r]) <==> AnyFailedBeat(log) || r == Beat(false)
    ensures BeatsOnly(log) && r.Beat? ==> BeatsOnly(log + [r])
    ensures BeatsOnly(log) ==> EndsOnce(log + [r])
  {
    var log' := log + [r];
    assert forall i :: 0 <= i < |log| ==> log'[i] == log[i];
    assert log'[|log|] == r;
  }

  lemma InvStep(l: Label, s: State)
    requires Inv(s) && Enabled(l, s)
    ensures Inv(Apply(l, s))
  {
    match l {
      case StoreBeat(ok) => SnocRecord(s.log, Beat(ok));
      case RecordEnd(ok) => SnocRecord(s.log, Fail(ok)); SnocRecord(s.log, Complete(ok));
      case _ =>
    }
  }

  lemma {:induction false} InvOnRun(ss: seq<State>, ls: seq<Label>, i: nat)
    requires IsRun(ss, ls) && i <= |ls|
    ensures Inv(ss[i])
  {
    if i > 0 {
      InvOnRun(ss, ls, i - 1);
      InvStep(ls[i - 1], ss[i - 1]);
    }
  }

  // ----- What holds over every run

  lemma {:induction false} GoneStaysGone(ss: seq<State>, ls: seq<Label>, i: nat, j: nat)
    requires IsRun(ss, ls) && i <= j <= |ls| && ss[i].done
    ensures ss[j].done
  {
    if i < j {
      GoneStaysGone(ss, ls, i, j - 1);
      assert ss[j] == Apply(ls[j - 1], ss[j - 1]);
    }
  }

  /** Once the stop function has returned, the goroutine neither starts nor stores another heartbeat. */
  lemma NoHeartbeatAfterStop(ss: seq<State>, ls: seq<Label>, i: nat, j: nat)
    requires IsRun(ss, ls) && i < j < |ls| && ls[i] == Join
    ensures ls[j] != Tick && !ls[j].StoreBeat?
  {
    assert ss[i].done && ss[i + 1].done;
    GoneStaysGone(ss, ls, i + 1, j);
    InvOnRun(ss, ls, j);
  }

  /** At most one call records the end of the run, and it follows all heartbeats. */
  lemma EndIsRecordedOnceAndLast(ss: seq<State>, ls: seq<Label>, i: nat, k: nat)
    requires IsRun(ss, ls) && i <= |ls| && k < |ss[i].log| && IsTerminal(ss[i].log[k])
    ensures k == |ss[i].log| - 1 && ss[i].main.Returned?
  {
    InvOnRun(ss, ls, i);
  }

  predicate EndIsStored(log: seq<Record>) { Fail(true) in log || Complete(true) in log }

  /** What the result of a run says of the records. A failed heartbeat is never followed by Complete; it is
      reported unless the command failed too and recording that failure did not succeed, in which case its
      error is dropped. Success is reported exactly if the completion is stored. The end is stored except
      when storing it fails, or when only the heartbeat failed. */
  lemma OutcomeMatchesTheRecords(ss: seq<State>, ls: seq<Label>, i: nat)
    requires IsRun(ss, ls) && i <= |ls| && ss[i].main.Returned?
    ensures var log, result := ss[i].log, ss[i].main.result;
            && (AnyFailedBeat(log) ==> Complete(true) !in log && Complete(false) !in log)
            && (result == HeartbeatFailed <==> AnyFailedBeat(log) && Fail(false) !in log)
            && (result == RecordFailed <==> Fail(false) in log)
            && (result == CompleteFailed <==> Complete(false) in log)
            && (result == Completed <==> Complete(true) in log)
            && (result in {CommandCancelled, CommandFailed} <==> Fail(true) in log && !AnyFailedBeat(log))
    ensures var log, result := ss[i].log, ss[i].main.result;
            EndIsStored(log) <==>
              result in {Completed, CommandCancelled, CommandFailed} || (result == HeartbeatFailed && !BeatsOnly(log))
  {
    InvOnRun(ss, ls, i);
    var log := ss[i].log;
    assert forall k :: 0 <= k < |log| - 1 ==> log[k].Beat?;
  }

  // ----- The outcome and the command

  /** What the thread of the command knows of its exit. */
  predicate Knows(pc: MainPc, failed: bool) {
    match pc
    case Running => false
    case Finished(f) => f == failed
    case StopClosed(f) => f == failed
    case Joined(f, _) => f == failed
    case Returned(_) => false
  }

  /** How the command ended decides which call records the end. */
  predicate MatchesExit(s: State, failed: bool) {
    match s.main
    case Running => false
    case Returned(result) =>
      && (failed ==> result in {RecordFailed, HeartbeatFailed, CommandCancelled, CommandFailed})
      && (failed ==> Fail(true) in s.log || Fail(false) in s.log)
      && (failed ==> Complete(true) !in s.log && Complete(false) !in s.log)
      && (!failed ==> result in {Completed, CompleteFailed, HeartbeatFailed})
      && (!failed ==> Fail(true) !in s.log && Fail(false) !in s.log)
      && (!failed ==> result == HeartbeatFailed || Complete(true) in s.log || Complete(false) in s.log)
    case _ => Knows(s.main, failed) && BeatsOnly(s.log)
  }

  lemma ExitStep(l: Label, s: State, failed: bool)
    requires Inv(s) && Enabled(l, s)
    requires MatchesExit(s, failed) || l == CommandEnds(failed)
    ensures MatchesExit(Apply(l, s), failed)
  {
    match l {
      case StoreBeat(ok) => SnocRecord(s.log, Beat(ok));
      case RecordEnd(ok) =>
        var log := Apply(l, s).log;
        assert log != s.log ==> log[|s.log|] in log;
        assert forall r :: r in log ==> r in s.log || r == log[|s.log|];
      case _ =>
    }
  }

  /** A run whose command failed records a failure and no completion, and one whose command succeeded records a
      completion, unless a heartbeat failed, and no failure. */
  lemma {:induction false} OutcomeMatchesTheExit(ss: seq<State>, ls: seq<Label>, i: nat, j: nat)
    requires IsRun(ss, ls) && j < i <= |ls| && ls[j].CommandEnds?
    ensures MatchesExit(ss[i], ls[j].failed)
  {
    InvOnRun(ss, ls, i - 1);
    assert ss[i] == Apply(ls[i - 1], ss[i - 1]);
    if j < i - 1 { OutcomeMatchesTheExit(ss, ls, i - 1, j); }
    ExitStep(ls[i - 1], ss[i - 1], ls[j].failed);
  }

  /** No end is recorded before the command has ended. */
  lemma {:induction false} EndFollowsTheCommand(ss: seq<State>, ls: seq<Label>, i: nat) returns (j: nat)
    requires IsRun(ss, ls) && i <= |ls| && !ss[i].main.Running?
    ensures j < i && ls[j].CommandEnds?
  {
    assert ss[i] == Apply(ls[i - 1], ss[i - 1]);
    if ss[i - 1].main.Running? {
      j := i - 1;
    } else {
      j := EndFollowsTheCommand(ss, ls, i - 1);
    }
  }

  /** Cancellation by the dispatcher is reported exactly when the command failed, its failure was stored, no
      heartbeat failed, and the dispatcher's context was done when the end was recorded. */
  lemma CancelledIff(ss: seq<State>, ls: seq<Label>, i: nat)
    requires IsRun(ss, ls) && i < |ls| && ls[i].RecordEnd?
    ensures ss[i + 1].main == Returned(CommandCancelled) <==>
              && CommandEnds(true) in ls[..i] && ls[i].ok && !AnyFailedBeat(ss[i].log) && CancelParent in ls[..i]
    ensures ss[i + 1].main == Returned(CommandFailed) <==>
              && CommandEnds(true) in ls[..i] && ls[i].ok && !AnyFailedBeat(ss[i].log) && CancelParent !in ls[..i]
  {
    InvOnRun(ss, ls, i);
    assert ss[i + 1] == Apply(ls[i], ss[i]);
    var j := EndFollowsTheCommand(ss, ls, i);
    OutcomeMatchesTheExit(ss, ls, i, j);
    assert ls[..i][j] == ls[j];
    ParentIsDone(ss, ls, i);
    if CommandEnds(true) in ls[..i] {
      var k :| 0 <= k < i && ls[k] == CommandEnds(true);
      OutcomeMatchesTheExit(ss, ls, i, k);
    }
  }

  lemma {:induction false} ParentIsDone(ss: seq<State>, ls: seq<Label>, i: nat)
    requires IsRun(ss, ls) && i <= |ls|
    ensures ss[i].parentDone <==> CancelParent in ls[..i]
  {
    if i > 0 {
      ParentIsDone(ss, ls, i - 1);
      assert ls[..i] == ls[..i - 1] + [ls[i - 1]] && ss[i] == Apply(ls[i - 1], ss[i - 1]);
    }
  }

  /** A failed heartbeat cancels the command's context and stops the goroutine: it is the last heartbeat. */
  lemma FailedHeartbeatIsTheLast(ss: seq<State>, ls: seq<Label>, i: nat, j: nat)
    requires IsRun(ss, ls) && i < j < |ls| && ls[i] == StoreBeat(false)
    ensures ls[j] != Tick && !ls[j].StoreBeat?
  {
    var k := |ss[i].log|;
    assert ss[i + 1].log[k] == Beat(false);
    LogGrows(ss, ls, i + 1, j);
    InvOnRun(ss, ls, j);
    assert ss[j].log[k] == Beat(false);
  }

  lemma {:induction false} LogGrows(ss: seq<State>, ls: seq<Label>, i: nat, j: nat)
    requires IsRun(ss, ls) && i <= j <= |ls|
    ensures ss[i].log <= ss[j].log
  {
    if i < j {
      LogGrows(ss, ls, i, j - 1);
      assert ss[j] == Apply(ls[j - 1], ss[j - 1]);
    }
  }

  /** It cancels the command's context before the goroutine is done. */
  lemma {:induction false} FailedHeartbeatCancels(ss: seq<State>, ls: seq<Label>, i: nat)
    requires IsRun(ss, ls) && i <= |ls| && AnyFailedBeat(ss[i].log) && (ss[i].beat.Leaving? || ss[i].done)
    ensures ss[i].cancelled
  {
    InvOnRun(ss, ls, i);
    assert i > 0;
    InvOnRun(ss, ls, i - 1);
    var l, s := ls[i - 1], ss[i - 1];
    assert ss[i] == Apply(l, s);
    if !l.CancelRun? {
      if ss[i].log != s.log { SnocRecord(s.log, ss[i].log[|s.log|]); }
      FailedHeartbeatCancels(ss, ls, i - 1);
    }
  }

  predicate ByGoroutine(l: Label) {
    l.LeaveLoop? || l.StoreBeat? || l.SendErr? || l.CancelRun? || l.CloseDone?
  }

  function StepsLeft(beat: BeatPc): nat {
    match beat
    case Beating => 3
    case Failing => 3
    case Selecting => 2
    case Cancelling => 2
    case Leaving => 1
    case Gone => 0
  }

  ghost predicate Leads(s: State, ls: seq<Label>, s': State)
    decreases |ls|
  {
    if ls == [] then s == s' else Enabled(ls[0], s) && Leads(Apply(ls[0], s), ls[1..], s')
  }

  /** The stop function cannot hang: wherever the goroutine is, a few of its own steps let it return. */
  lemma {:induction false} StopCanReturn(s: State) returns (ls: seq<Label>, s': State)
    requires Inv(s) && s.main.StopClosed?
    ensures |ls| == StepsLeft(s.beat) <= 3 && (forall i :: 0 <= i < |ls| ==> ByGoroutine(ls[i]))
    ensures Leads(s, ls, s') && Enabled(Join, s')
    decreases StepsLeft(s.beat)
  {
    if s.beat.Gone? {
      ls, s' := [], s;
    } else {
      var l := match s.beat {
        case Selecting => LeaveLoop case Beating => StoreBeat(true) case Failing => SendErr
        case Cancelling => CancelRun case _ => CloseDone };
      InvStep(l, s);
      var rest;
      rest, s' := StopCanReturn(Apply(l, s));
      ls := [l] + rest;
    }
  }

  // ----- What can be lost

  lemma Extend(ss: seq<State>, ls: seq<Label>, l: Label) returns (ss': seq<State>, ls': seq<Label>)
    requires IsRun(ss, ls) && Enabled(l, ss[|ls|])
    ensures IsRun(ss', ls') && ls' == ls + [l] && ss'[|ls'|] == Apply(l, ss[|ls|])
  {
    ss', ls' := ss + [Apply(l, ss[|ls|])], ls + [l];
  }

  /** The heartbeat fails, which kills the command; recording the failure fails as well, and what is returned
      does not mention the heartbeat. */
  lemma HeartbeatErrorIsDropped() returns (ss: seq<State>, ls: seq<Label>)
    ensures IsRun(ss, ls) && ss[|ls|].main == Returned(RecordFailed) && ss[|ls|].log == [Beat(false), Fail(false)]
  {
    ss, ls := Extend([INITIAL], [], Tick);
    ss, ls := Extend(ss, ls, StoreBeat(false));
    ss, ls := Extend(ss, ls, SendErr);
    ss, ls := Extend(ss, ls, CancelRun);
    ss, ls := Extend(ss, ls, CloseDone);
    ss, ls := Extend(ss, ls, CommandEnds(true));
    ss, ls := Extend(ss, ls, CloseStop);
    ss, ls := Extend(ss, ls, Join);
    ss, ls := Extend(ss, ls, RecordEnd(false));
  }

  /** No heartbeat fails, and the store is left without the end of a command that succeeded. */
  lemma EndIsNotStored() returns (ss: seq<State>, ls: seq<Label>)
    ensures IsRun(ss, ls) && ss[|ls|].main == Returned(CompleteFailed) && ss[|ls|].log == [Complete(false)]
    ensures !EndIsStored(ss[|ls|].log)
  {
    ss, ls := Extend([INITIAL], [], CommandEnds(false));
    ss, ls := Extend(ss, ls, CloseStop);
    ss, ls := Extend(ss, ls, LeaveLoop);
    ss, ls := Extend(ss, ls, CloseDone);
    ss, ls := Extend(ss, ls, Join);
    ss, ls := Extend(ss, ls, RecordEnd(false));
  }
}
