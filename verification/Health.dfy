/** The lock-free health tracker of an account (core/health.go): any number of `MarkDegraded`,
    `MarkReady` and `MarkStopped` calls interleave at their atomic loads, compare-and-swaps and
    stores. Each call is shown to take effect at one instant between its start and its end, as an
    operation of a sequential three-state machine. */
module Health {

  type Call = nat

  datatype AccountHealth = Ready | Degraded | Stopped

  /** `at` is the clock reading passed to MarkDegraded, in nanoseconds. */
  datatype Op = MarkDegraded(at: int) | MarkReady | MarkStopped

  datatype Pc = Started | Loaded(cur: AccountHealth) | Swapped | Done

  /** `pos` is history: where in the log the call took effect. */
  datatype Thread = Thread(op: Op, pc: Pc, pos: nat)

  /** `log` is history: the operations in the order in which they took effect. */
  datatype State = State(health: AccountHealth, lastPanicNs: int, threads: map<Call, Thread>, log: seq<(Call, Op)>)

  datatype Label =
    | Begin(c: Call, op: Op)
    | Load(c: Call)
    | Swap(c: Call)         // CompareAndSwap
    | StoreTime(c: Call)
    | StoreStopped(c: Call)

  const INITIAL := State(Ready, 0, map[], [])

  predicate Enabled(l: Label, s: State) {
    match l
    case Begin(c, _) => c !in s.threads
    case Load(c) => c in s.threads && s.threads[c].pc.Started? && !s.threads[c].op.MarkStopped?
    case Swap(c) => c in s.threads && s.threads[c].pc.Loaded?
    case StoreTime(c) => c in s.threads && s.threads[c].pc.Swapped? && s.threads[c].op.MarkDegraded?
    case StoreStopped(c) => c in s.threads && s.threads[c].pc.Started? && s.threads[c].op.MarkStopped?
  }

  function Goto(s: State, c: Call, pc: Pc): State
    requires c in s.threads
  {
    s.(threads := s.threads[c := s.threads[c].(pc := pc)])
  }

  /** The point at which the call takes effect. */
  function Linearize(s: State, c: Call): State
    requires c in s.threads
  {
    s.(log := s.log + [(c, s.threads[c].op)], threads := s.threads[c := s.threads[c].(pos := |s.log|)])
  }

  function Apply(l: Label, s: State): State
    requires Enabled(l, s)
  {
    match l
    case Begin(c, op) => s.(threads := s.threads[c := Thread(op, Started, 0)])
    case Load(c) =>
      if s.health == Stopped then Goto(Linearize(s, c), c, Done) else Goto(s, c, Loaded(s.health))
    case Swap(c) =>
      if s.health != s.threads[c].pc.cur then Goto(s, c, Started)
      else if s.threads[c].op.MarkDegraded? then Goto(Linearize(s, c), c, Swapped).(health := Degraded)
      else Goto(Linearize(s, c), c, Done).(health := Ready)
    case StoreTime(c) => Goto(s, c, Done).(lastPanicNs := s.threads[c].op.at)
    case StoreStopped(c) => Goto(Linearize(s, c), c, Done).(health := Stopped)
  }

  ghost predicate IsRun(ss: seq<State>, ls: seq<Label>) {
    && |ss| == |ls| + 1 && ss[0] == INITIAL
    && forall i {:trigger ls[i]} :: 0 <= i < |ls| ==> Enabled(ls[i], ss[i]) && ss[i + 1] == Apply(ls[i], ss[i])
  }

  // ----- The sequential machine

  function Next(h: AccountHealth, op: Op): AccountHealth {
    match op
    case MarkStopped => Stopped
    case MarkDegraded(_) => if h == Stopped then Stopped else Degraded
    case MarkReady => if h == Stopped then Stopped else Ready
  }

  /** The state of the sequential machine after the operations of the log. */
  function Replay(log: seq<(Call, Op)>): AccountHealth {
    if log == [] then Ready else Next(Replay(log[..|log| - 1]), log[|log| - 1].1)
  }

  /** The operation at position `k` is a MarkDegraded that was not a no-op. */
  predicate Panics(log: seq<(Call, Op)>, k: nat) {
    k < |log| && log[k].1.MarkDegraded? && Replay(log[..k]) != Stopped
  }

  predicate HasEffect(t: Thread) { t.pc.Swapped? || t.pc.Done? }

  predicate EntryInv(s: State, k: nat)
    requires k < |s.log|
  {
    var c := s.log[k].0;
    c in s.threads && HasEffect(s.threads[c]) && s.threads[c].pos == k && s.threads[c].op == s.log[k].1
  }

  predicate ThreadInv(s: State, c: Call)
    requires c in s.threads
  {
    var t := s.threads[c];
    && (HasEffect(t) ==> t.pos < |s.log| && s.log[t.pos] == (c, t.op))
    && (t.pc.Loaded? ==> t.pc.cur != Stopped && !t.op.MarkStopped?)
    && (t.pc.Swapped? ==> Panics(s.log, t.pos))
  }

  predicate Inv(s: State) {
    && s.health == Replay(s.log)
    && (forall k :: 0 <= k < |s.log| ==> EntryInv(s, k))
    && (forall c :: c in s.threads ==> ThreadInv(s, c))
  }

  lemma ReplaySnoc(log: seq<(Call, Op)>, e: (Call, Op))
    ensures Replay(log + [e]) == Next(Replay(log), e.1)
    ensures forall k :: 0 <= k <= |log| ==> (log + [e])[..k] == log[..k]
  {
    assert (log + [e])[..|log|] == log;
  }

  /** A longer log does not change what an operation in it did. */
  lemma PanicsSnoc(log: seq<(Call, Op)>, e: (Call, Op), k: nat)
    requires k < |log|
    ensures Panics(log + [e], k) <==> Panics(log, k)
  {
    assert (log + [e])[..k] == log[..k];
  }

  lemma EntryStep(l: Label, s: State, k: nat)
    requires Inv(s) && Enabled(l, s) && k < |Apply(l, s).log|
    ensures EntryInv(Apply(l, s), k)
  {
    if k < |s.log| { assert EntryInv(s, k); }
  }

  lemma OwnThreadStep(l: Label, s: State)
    requires Enabled(l, s) && s.health == Replay(s.log) && (l.c in s.threads ==> ThreadInv(s, l.c))
    ensures ThreadInv(Apply(l, s), l.c)
  {
    if !l.Begin? {
      assert (s.log + [(l.c, s.threads[l.c].op)])[..|s.log|] == s.log;
    }
  }

  lemma ThreadStep(l: Label, s: State, c: Call)
    requires Inv(s) && Enabled(l, s) && c in Apply(l, s).threads
    ensures ThreadInv(Apply(l, s), c)
  {
    if c == l.c {
      OwnThreadStep(l, s);
    } else {
      assert ThreadInv(s, c);
      if Apply(l, s).log != s.log && s.threads[c].pc.Swapped? {
        PanicsSnoc(s.log, (l.c, s.threads[l.c].op), s.threads[c].pos);
      }
    }
  }

  lemma InvStep(l: Label, s: State)
    requires Inv(s) && Enabled(l, s)
    ensures Inv(Apply(l, s))
  {
    var s' := Apply(l, s);
    if s'.log != s.log { ReplaySnoc(s.log, (l.c, s.threads[l.c].op)); }
    assert s'.health == Replay(s'.log) by {
      if l.Swap? { assert ThreadInv(s, l.c); }
    }
    forall k | 0 <= k < |s'.log| ensures EntryInv(s', k) { EntryStep(l, s, k); }
    forall c | c in s'.threads ensures ThreadInv(s', c) { ThreadStep(l, s, c); }
  }

  lemma {:induction false} InvOnRun(ss: seq<State>, ls: seq<Label>, i: nat)
    requires IsRun(ss, ls) && i <= |ls|
    ensures Inv(ss[i])
  {
    if i > 0 {
      InvOnRun(ss, ls, i - 1);
      InvStep(ls[i - 1], ss[i - 1]);
    }
  }

  lemma {:induction false} LogGrows(ss: seq<State>, ls: seq<Label>, i: nat, j: nat)
    requires IsRun(ss, ls) && i <= j <= |ls|
    ensures ss[i].log <= ss[j].log
  {
    if i < j {
      LogGrows(ss, ls, i, j - 1);
      assert ss[j] == Apply(ls[j - 1], ss[j - 1]);
    }
  }

  // ----- What holds over every run

  /** What the log makes of the tracker: it is stopped exactly if some call stopped it, and otherwise degraded
      exactly if the last call to take effect was a panic. */
  lemma {:induction false} LastCallDecides(log: seq<(Call, Op)>)
    ensures Replay(log) == Stopped <==> exists k :: 0 <= k < |log| && log[k].1 == MarkStopped
    ensures Replay(log) == Degraded <==>
              log != [] && log[|log| - 1].1.MarkDegraded? && forall k :: 0 <= k < |log| ==> log[k].1 != MarkStopped
  {
    if log != [] {
      var front, last := log[..|log| - 1], log[|log| - 1];
      LastCallDecides(front);
      assert log == front + [last];
      if last.1 == MarkStopped { assert log[|log| - 1].1 == MarkStopped; }
      if k :| 0 <= k < |front| && front[k].1 == MarkStopped { assert log[k].1 == MarkStopped; }
    }
  }

  /** The tracker is the sequential machine run over the log, and each finished call is in the log
      exactly once, with the operation it was called for. */
  lemma EveryCallTakesEffectOnce(ss: seq<State>, ls: seq<Label>, i: nat, c: Call) returns (k: nat)
    requires IsRun(ss, ls) && i <= |ls| && c in ss[i].threads && ss[i].threads[c].pc == Done
    ensures ss[i].health == Replay(ss[i].log)
    ensures k < |ss[i].log| && ss[i].log[k] == (c, ss[i].threads[c].op)
    ensures forall j :: 0 <= j < |ss[i].log| && j != k ==> ss[i].log[j].0 != c
  {
    InvOnRun(ss, ls, i);
    assert ThreadInv(ss[i], c);
    k := ss[i].threads[c].pos;
    forall j | 0 <= j < |ss[i].log| && j != k ensures ss[i].log[j].0 != c {
      assert EntryInv(ss[i], j);
    }
  }

  /** The log respects real time: a call that ended before another began takes effect before it. */
  lemma LogRespectsRealTime(ss: seq<State>, ls: seq<Label>, i: nat, m: nat, c: Call, d: Call, j: nat, k: nat)
    requires IsRun(ss, ls) && i < m <= |ls|
    requires c in ss[i].threads && ss[i].threads[c].pc == Done && ls[i].Begin? && ls[i].c == d
    requires j < |ss[m].log| && ss[m].log[j].0 == c && k < |ss[m].log| && ss[m].log[k].0 == d
    ensures j < k
  {
    InvOnRun(ss, ls, i);
    InvOnRun(ss, ls, m);
    LogGrows(ss, ls, i, m);
    assert ThreadInv(ss[i], c);
    var p := ss[i].threads[c].pos;
    assert ss[m].log[p] == ss[i].log[p];
    assert EntryInv(ss[m], p) && EntryInv(ss[m], j);
    assert forall e :: 0 <= e < |ss[i].log| ==> ss[m].log[e] == ss[i].log[e] && EntryInv(ss[i], e);
  }

  /** Once stopped, always stopped. */
  lemma {:induction false} StoppedIsForever(ss: seq<State>, ls: seq<Label>, i: nat, j: nat)
    requires IsRun(ss, ls) && i <= j <= |ls| && ss[i].health == Stopped
    ensures ss[j].health == Stopped
  {
    if i < j {
      StoppedIsForever(ss, ls, i, j - 1);
      InvOnRun(ss, ls, j - 1);
      if ls[j - 1].Swap? { assert ThreadInv(ss[j - 1], ls[j - 1].c); }
    }
  }

  // ----- The time of the last panic

  /** A MarkDegraded that was not a no-op and has stored its time. */
  predicate HasStored(s: State, c: Call) {
    c in s.threads && s.threads[c].pc.Done? && s.threads[c].op.MarkDegraded? && Panics(s.log, s.threads[c].pos)
  }

  ghost predicate TimeInv(s: State) {
    if exists c: Call :: HasStored(s, c) then exists c: Call :: HasStored(s, c) && s.threads[c].op.at == s.lastPanicNs
    else s.lastPanicNs == 0
  }

  lemma StoredStep(l: Label, s: State, c: Call)
    requires Enabled(l, s) && c in s.threads && ThreadInv(s, c) && s.health == Replay(s.log)
    ensures HasStored(s, c) ==> HasStored(Apply(l, s), c) && Apply(l, s).threads[c].op == s.threads[c].op
    ensures HasStored(Apply(l, s), c) && !HasStored(s, c) ==> l == StoreTime(c)
  {
    var s', e := Apply(l, s), if l.Begin? then (c, MarkReady) else (l.c, s.threads[l.c].op);
    assert s'.log == s.log || s'.log == s.log + [e];
    if HasEffect(s.threads[c]) {
      PanicsSnoc(s.log, e, s.threads[c].pos);
    } else if l.c == c {
      assert (s.log + [e])[..|s.log|] == s.log;
    }
  }

  lemma TimeStep(l: Label, s: State)
    requires Inv(s) && Enabled(l, s) && TimeInv(s)
    ensures TimeInv(Apply(l, s))
  {
    var s' := Apply(l, s);
    forall c | c in s.threads
      ensures HasStored(s, c) ==> HasStored(s', c) && s'.threads[c].op == s.threads[c].op
      ensures HasStored(s', c) && !HasStored(s, c) ==> l == StoreTime(c)
    {
      assert ThreadInv(s, c);
      StoredStep(l, s, c);
    }
    if l.StoreTime? {
      assert ThreadInv(s, l.c);
      assert HasStored(s', l.c);
    } else if c: Call :| HasStored(s', c) {
      assert HasStored(s, c);
      var d: Call :| HasStored(s, d) && s.threads[d].op.at == s.lastPanicNs;
      assert HasStored(s', d) && s'.threads[d].op.at == s'.lastPanicNs;
    }
  }

  lemma {:induction false} TimeOnRun(ss: seq<State>, ls: seq<Label>, i: nat)
    requires IsRun(ss, ls) && i <= |ls|
    ensures TimeInv(ss[i])
  {
    if i > 0 {
      TimeOnRun(ss, ls, i - 1);
      InvOnRun(ss, ls, i - 1);
      TimeStep(ls[i - 1], ss[i - 1]);
    }
  }

  predicate Quiet(s: State) { forall c :: c in s.threads ==> !s.threads[c].pc.Swapped? }

  /** When no call is between its swap and its store and no clock reads 0, a panic time is recorded
      exactly if the tracker was ever degraded, and it is the time of a call that degraded it. */
  lemma PanicIsRecorded(ss: seq<State>, ls: seq<Label>, i: nat)
    requires IsRun(ss, ls) && i <= |ls| && Quiet(ss[i])
    requires forall c :: c in ss[i].threads && ss[i].threads[c].op.MarkDegraded? ==> ss[i].threads[c].op.at != 0
    ensures ss[i].lastPanicNs != 0 <==> exists k: nat :: Panics(ss[i].log, k)
    ensures ss[i].lastPanicNs != 0 ==> exists k: nat :: Panics(ss[i].log, k) && ss[i].log[k].1.at == ss[i].lastPanicNs
  {
    var s := ss[i];
    InvOnRun(ss, ls, i);
    TimeOnRun(ss, ls, i);
    if k: nat :| Panics(s.log, k) {
      assert EntryInv(s, k);
      assert HasStored(s, s.log[k].0);
    }
    if s.lastPanicNs != 0 {
      var c: Call :| HasStored(s, c) && s.threads[c].op.at == s.lastPanicNs;
      assert ThreadInv(s, c);
    }
  }

  /** The time of the last MarkDegraded that took effect; 0 if there is none. */
  function LastPanicOf(log: seq<(Call, Op)>): int {
    if log == [] then 0
    else if Panics(log, |log| - 1) then log[|log| - 1].1.at
    else LastPanicOf(log[..|log| - 1])
  }

  predicate NoOverlap(s: State) {
    forall c, d :: c in s.threads && d in s.threads && s.threads[c].pc.Swapped? && s.threads[d].pc.Swapped? ==> c == d
  }

  predicate LatestInv(s: State) {
    && (Quiet(s) ==> s.lastPanicNs == LastPanicOf(s.log))
    && (forall c :: c in s.threads && s.threads[c].pc.Swapped? ==>
          s.threads[c].op.MarkDegraded? && s.threads[c].op.at == LastPanicOf(s.log))
  }

  lemma LastPanicSnoc(log: seq<(Call, Op)>, e: (Call, Op))
    ensures LastPanicOf(log + [e]) == if e.1.MarkDegraded? && Replay(log) != Stopped then e.1.at else LastPanicOf(log)
  {
    ReplaySnoc(log, e);
    assert (log + [e])[|log|] == e && (log + [e])[..|log|] == log;
  }

  predicate Degrades(l: Label, s: State)
    requires Enabled(l, s)
  {
    l.Swap? && Apply(l, s).threads[l.c].pc.Swapped?
  }

  lemma LastPanicStep(l: Label, s: State)
    requires s.health == Replay(s.log) && Enabled(l, s) && (l.c in s.threads ==> ThreadInv(s, l.c))
    ensures LastPanicOf(Apply(l, s).log) == if Degrades(l, s) then s.threads[l.c].op.at else LastPanicOf(s.log)
  {
    if Apply(l, s).log != s.log {
      LastPanicSnoc(s.log, (l.c, s.threads[l.c].op));
    }
  }

  lemma LatestStepOfStore(l: Label, s: State)
    requires Enabled(l, s) && l.StoreTime? && LatestInv(s) && NoOverlap(s)
    ensures LatestInv(Apply(l, s))
  {
  }

  lemma LatestStepOfSwap(l: Label, s: State)
    requires Enabled(l, s) && Degrades(l, s) && NoOverlap(Apply(l, s))
    requires LastPanicOf(Apply(l, s).log) == s.threads[l.c].op.at
    ensures LatestInv(Apply(l, s))
  {
    var s' := Apply(l, s);
    assert forall c :: c in s'.threads && s'.threads[c].pc.Swapped? ==> c == l.c;
  }

  lemma LatestStepOfOther(l: Label, s: State)
    requires Enabled(l, s) && !l.StoreTime? && !Degrades(l, s) && LatestInv(s)
    requires LastPanicOf(Apply(l, s).log) == LastPanicOf(s.log)
    ensures LatestInv(Apply(l, s))
  {
    var s' := Apply(l, s);
    assert forall c :: c in s.threads && s.threads[c].pc.Swapped? ==> c in s'.threads && s'.threads[c] == s.threads[c];
    assert Quiet(s') ==> Quiet(s);
  }

  lemma LatestStep(l: Label, s: State)
    requires s.health == Replay(s.log) && Enabled(l, s) && (l.c in s.threads ==> ThreadInv(s, l.c))
    requires LatestInv(s) && NoOverlap(s) && NoOverlap(Apply(l, s))
    ensures LatestInv(Apply(l, s))
  {
    LastPanicStep(l, s);
    if l.StoreTime? {
      LatestStepOfStore(l, s);
    } else if Degrades(l, s) {
      LatestStepOfSwap(l, s);
    } else {
      LatestStepOfOther(l, s);
    }
  }

  // ----- When the recorded time is the latest

  lemma {:induction false} LastPanicOfIs(log: seq<(Call, Op)>, k: nat)
    requires Panics(log, k) && forall m :: k < m < |log| ==> !Panics(log, m)
    ensures LastPanicOf(log) == log[k].1.at
  {
    if k < |log| - 1 {
      var front := log[..|log| - 1];
      forall m | 0 <= m < |front| ensures Panics(front, m) <==> Panics(log, m) {
        assert front[..m] == log[..m];
      }
      LastPanicOfIs(front, k);
    }
  }

  lemma {:induction false} LatestFrom(log: seq<(Call, Op)>, p: nat) returns (k: nat)
    requires Panics(log, p)
    ensures k >= p && Panics(log, k) && forall m :: k < m < |log| ==> !Panics(log, m)
    decreases |log| - p
  {
    if m :| p < m < |log| && Panics(log, m) {
      k := LatestFrom(log, m);
    } else {
      k := p;
    }
  }

  /** The last StoreTime before `i` is number `j`. */
  predicate IsLastStore(ls: seq<Label>, i: nat, j: nat) {
    j < i <= |ls| && ls[j].StoreTime? && forall m :: j < m < i ==> !ls[m].StoreTime?
  }

  lemma {:induction false} LastStoreStays(ss: seq<State>, ls: seq<Label>, i: nat, j: nat)
    requires IsRun(ss, ls) && IsLastStore(ls, i, j)
    ensures HasStored(ss[i], ls[j].c) && ss[i].lastPanicNs == ss[i].threads[ls[j].c].op.at
    decreases i
  {
    var c := ls[j].c;
    assert ss[i] == Apply(ls[i - 1], ss[i - 1]);
    InvOnRun(ss, ls, i - 1);
    if j == i - 1 {
      assert ThreadInv(ss[j], c);
    } else {
      LastStoreStays(ss, ls, i - 1, j);
      assert ThreadInv(ss[i - 1], c);
      StoredStep(ls[i - 1], ss[i - 1], c);
    }
  }

  /** The recorded time is that of the latest degradation if and only if the call that stored its time last
      is also the one that degraded the tracker last: no degradation takes effect after its own. (When the
      clock gives a later degradation the very same reading, the two times cannot be told apart.) */
  lemma LatestPanicIff(ss: seq<State>, ls: seq<Label>, i: nat, j: nat)
    requires IsRun(ss, ls) && IsLastStore(ls, i, j) && ls[j].c in ss[i].threads
    requires var p := ss[i].threads[ls[j].c].pos;
             forall k :: p < k < |ss[i].log| && Panics(ss[i].log, k) ==> ss[i].log[k].1.at != ss[i].lastPanicNs
    ensures ss[i].lastPanicNs == LastPanicOf(ss[i].log)
            <==> forall k :: ss[i].threads[ls[j].c].pos < k < |ss[i].log| ==> !Panics(ss[i].log, k)
  {
    var log, c := ss[i].log, ls[j].c;
    var p := ss[i].threads[c].pos;
    LastStoreStays(ss, ls, i, j);
    InvOnRun(ss, ls, i);
    assert ThreadInv(ss[i], c);
    var k := LatestFrom(log, p);
    LastPanicOfIs(log, k);
  }

  /** Before the first StoreTime no time is recorded. */
  lemma {:induction false} NothingStoredYet(ss: seq<State>, ls: seq<Label>, i: nat)
    requires IsRun(ss, ls) && i <= |ls| && forall m :: 0 <= m < i ==> !ls[m].StoreTime?
    ensures ss[i].lastPanicNs == 0
  {
    if i > 0 {
      NothingStoredYet(ss, ls, i - 1);
      assert ss[i] == Apply(ls[i - 1], ss[i - 1]);
    }
  }

  /** A condition under which this always holds: no two calls are ever between their swap and their store at
      the same moment. */
  lemma {:induction false} LatestPanicWithoutOverlap(ss: seq<State>, ls: seq<Label>, i: nat)
    requires IsRun(ss, ls) && i <= |ls| && forall j :: 0 <= j <= i ==> NoOverlap(ss[j])
    ensures LatestInv(ss[i])
  {
    if i > 0 {
      LatestPanicWithoutOverlap(ss, ls, i - 1);
      InvOnRun(ss, ls, i - 1);
      LatestStep(ls[i - 1], ss[i - 1]);
    }
  }

  lemma Extend(ss: seq<State>, ls: seq<Label>, l: Label) returns (ss': seq<State>, ls': seq<Label>)
    requires IsRun(ss, ls) && Enabled(l, ss[|ls|])
    ensures IsRun(ss', ls') && ls' == ls + [l] && ss'[|ls'|] == Apply(l, ss[|ls|])
  {
    ss', ls' := ss + [Apply(l, ss[|ls|])], ls + [l];
  }

  lemma SecondPanicIsLatest(first: Op, second: Op)
    requires first == MarkDegraded(1) && second == MarkDegraded(2)
    ensures LastPanicOf([(0, first), (1, second)]) == 2
  {
    ReplaySnoc([], (0, first));
    LastPanicSnoc([(0, first)], (1, second));
    assert [] + [(0, first)] == [(0, first)];
    assert [(0, first)] + [(1, second)] == [(0, first), (1, second)];
  }

  lemma BothLoaded(first: Op, second: Op) returns (ss: seq<State>, ls: seq<Label>)
    requires first.MarkDegraded? && second.MarkDegraded?
    ensures IsRun(ss, ls)
    ensures var threads := map[0 := Thread(first, Swapped, 0), 1 := Thread(second, Loaded(Degraded), 0)];
            ss[|ls|] == State(Degraded, 0, threads, [(0, first)])
  {
    ss, ls := Extend([INITIAL], [], Begin(0, first));
    ss, ls := Extend(ss, ls, Begin(1, second));
    ss, ls := Extend(ss, ls, Load(0));
    ss, ls := Extend(ss, ls, Swap(0));
    assert ss[|ls|] == State(Degraded, 0, map[0 := Thread(first, Swapped, 0), 1 := Thread(second, Started, 0)],
                             [(0, first)]);
    ss, ls := Extend(ss, ls, Load(1));
  }

  /** With an overlap the recorded time can be that of an earlier degradation than the latest one,
      although every call has finished. */
  lemma OverlapKeepsAnOlderTime() returns (ss: seq<State>, ls: seq<Label>)
    ensures IsRun(ss, ls) && Quiet(ss[|ls|])
    ensures ss[|ls|].lastPanicNs == 1 && LastPanicOf(ss[|ls|].log) == 2
  {
    var first, second := MarkDegraded(1), MarkDegraded(2);
    ss, ls := BothLoaded(first, second);
    ss, ls := Extend(ss, ls, Swap(1));
    ss, ls := Extend(ss, ls, StoreTime(1));
    ss, ls := Extend(ss, ls, StoreTime(0));
    assert ss[|ls|] == State(Degraded, 1, map[0 := Thread(first, Done, 0), 1 := Thread(second, Done, 1)],
                             [(0, first), (1, second)]);
    SecondPanicIsLatest(first, second);
  }
}
