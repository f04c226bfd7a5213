/** The request/response multiplexer of the Chrome DevTools client (browser/cdp.go), as a labelled
    transition system. Threads are any number of `CallSession` and `Close` invocations and the one
    `readLoop`; a label is one atomic step: a region under `mu`, or one channel operation. */
module CdpClient {
  import opened Text

  /** One `CallSession` invocation. It makes one channel, so it also names that channel. */
  type Call = nat

  datatype Response = Response(id: int, body: nat)

  datatype Result = Reply(resp: Response) | Broken

  /** `Nothing` is what a receive from a closed and drained channel would give. */
  datatype Outcome = Answer(resp: Response) | ConnectionFailed | RefusedClosed | WriteError | Cancelled | Nothing

  /** A channel of capacity one; `sends` counts the sends so far and guides no step. */
  datatype Chan = Chan(buf: seq<Result>, open: bool, sends: nat)

  datatype CallPc = Numbered | Registered | Waiting | Removing(cancelled: bool) | Returned(outcome: Outcome)

  datatype CallState = CallState(id: int, pc: CallPc, ch: Chan)

  datatype ReaderPc =
    | Reading | Sending(resp: Response, call: Call) | ClosingChan(call: Call)
    | ReadFailed | ReaderDraining | ReaderStopped

  datatype CloserPc = Cancelling | CloserDraining | CloserDone

  datatype Agent = Reader | Closer(k: nat)

  /** Where the `failAll` that holds `mu` stands. */
  datatype Drain =
    Idle | Scanning(who: Agent) | DrainSending(who: Agent, call: Call) | DrainClosing(who: Agent, call: Call)

  datatype State = State(
    nextID: int,
    pending: map<int, Call>,
    closed: bool,
    drain: Drain,
    calls: map<Call, CallState>,
    reader: ReaderPc,
    closers: map<nat, CloserPc>)

  datatype Label =
    | Begin(c: Call)              // nextID.Add(1); make(chan, 1)
    | Register(c: Call)           // the locked test of closed and insertion into pending
    | Write(c: Call, ok: bool)    // marshal and conn.Write
    | Receive(c: Call)            // the select takes the channel
    | Cancel(c: Call)             // the select takes ctx.Done
    | Remove(c: Call)             // removePending and return
    | ReadFrame(resp: Response)   // conn.Read succeeds; the locked lookup and delete
    | ReadFails
    | ReplySend
    | ReplyClose
    | BeginClose(k: nat)
    | EnterFail(who: Agent)        // failAll takes mu and tests closed
    | Take(id: int)               // one iteration: delete the entry
    | DrainSend
    | DrainClose
    | Exit                        // the range is exhausted; mu is released

  const INITIAL := State(0, map[], false, Idle, map[], Reading, map[])

  predicate Has(s: State, c: Call, pc: CallPc) { c in s.calls && s.calls[c].pc == pc }

  predicate CanSend(ch: Chan) { ch.open && |ch.buf| < 1 }

  predicate AtFail(s: State, who: Agent) {
    match who
    case Reader => s.reader == ReadFailed
    case Closer(k) => k in s.closers && s.closers[k] == Cancelling
  }

  /** A send on a closed channel or the close of a closed one would panic, a send on a full one
      would block: such steps are not enabled. */
  predicate Enabled(l: Label, s: State) {
    match l
    case Begin(c) => c !in s.calls
    case Register(c) => Has(s, c, Numbered) && s.drain.Idle?
    case Write(c, _) => Has(s, c, Registered)
    case Receive(c) => Has(s, c, Waiting) && (s.calls[c].ch.buf != [] || !s.calls[c].ch.open)
    case Cancel(c) => Has(s, c, Waiting)
    case Remove(c) => c in s.calls && s.calls[c].pc.Removing? && s.drain.Idle?
    case ReadFrame(resp) => s.reader == Reading && (resp.id == 0 || s.drain.Idle?)
    case ReadFails => s.reader == Reading
    case ReplySend => s.reader.Sending? && s.reader.call in s.calls && CanSend(s.calls[s.reader.call].ch)
    case ReplyClose => s.reader.ClosingChan? && s.reader.call in s.calls && s.calls[s.reader.call].ch.open
    case BeginClose(k) => k !in s.closers
    case EnterFail(who) => AtFail(s, who) && s.drain.Idle?
    case Take(id) => s.drain.Scanning? && id in s.pending
    case DrainSend => s.drain.DrainSending? && s.drain.call in s.calls && CanSend(s.calls[s.drain.call].ch)
    case DrainClose => s.drain.DrainClosing? && s.drain.call in s.calls && s.calls[s.drain.call].ch.open
    case Exit => s.drain.Scanning? && s.pending == map[]
  }

  function WithPc(s: State, c: Call, pc: CallPc): State
    requires c in s.calls
  {
    s.(calls := s.calls[c := s.calls[c].(pc := pc)])
  }

  function WithSend(s: State, c: Call, r: Result): State
    requires c in s.calls
  {
    var ch := s.calls[c].ch;
    s.(calls := s.calls[c := s.calls[c].(ch := ch.(buf := ch.buf + [r], sends := ch.sends + 1))])
  }

  function WithClosedChan(s: State, c: Call): State
    requires c in s.calls
  {
    s.(calls := s.calls[c := s.calls[c].(ch := s.calls[c].ch.(open := false))])
  }

  function WithAgent(s: State, who: Agent, draining: bool): State {
    match who
    case Reader => s.(reader := if draining then ReaderDraining else ReaderStopped)
    case Closer(k) => s.(closers := s.closers[k := if draining then CloserDraining else CloserDone])
  }

  function Apply(l: Label, s: State): State
    requires Enabled(l, s)
  {
    match l
    case Begin(c) =>
      s.(nextID := s.nextID + 1, calls := s.calls[c := CallState(s.nextID + 1, Numbered, Chan([], true, 0))])
    case Register(c) =>
      if s.closed then WithPc(s, c, Returned(RefusedClosed))
      else WithPc(s, c, Registered).(pending := s.pending[s.calls[c].id := c])
    case Write(c, ok) => WithPc(s, c, if ok then Waiting else Removing(false))
    case Receive(c) =>
      var k := s.calls[c];
      if k.ch.buf == [] then WithPc(s, c, Returned(Nothing))
      else
        var outcome := match k.ch.buf[0] { case Reply(r) => Answer(r) case Broken => ConnectionFailed };
        s.(calls := s.calls[c := k.(pc := Returned(outcome), ch := k.ch.(buf := k.ch.buf[1..]))])
    case Cancel(c) => WithPc(s, c, Removing(true))
    case Remove(c) =>
      var outcome := if s.calls[c].pc.cancelled then Cancelled else WriteError;
      WithPc(s, c, Returned(outcome)).(pending := s.pending - {s.calls[c].id})
    case ReadFrame(resp) =>
      if resp.id != 0 && resp.id in s.pending
      then s.(reader := Sending(resp, s.pending[resp.id]), pending := s.pending - {resp.id})
      else s
    case ReadFails => s.(reader := ReadFailed)
    case ReplySend => WithSend(s, s.reader.call, Reply(s.reader.resp)).(reader := ClosingChan(s.reader.call))
    case ReplyClose => WithClosedChan(s, s.reader.call).(reader := Reading)
    case BeginClose(k) => s.(closers := s.closers[k := Cancelling])
    case EnterFail(who) =>
      if s.closed then WithAgent(s, who, false)
      else WithAgent(s, who, true).(closed := true, drain := Scanning(who))
    case Take(id) => s.(drain := DrainSending(s.drain.who, s.pending[id]), pending := s.pending - {id})
    case DrainSend => WithSend(s, s.drain.call, Broken).(drain := DrainClosing(s.drain.who, s.drain.call))
    case DrainClose => WithClosedChan(s, s.drain.call).(drain := Scanning(s.drain.who))
    case Exit => WithAgent(s, s.drain.who, false).(drain := Idle)
  }

  /** A finite run: every interleaving of the threads is the label sequence of one. */
  ghost predicate IsRun(ss: seq<State>, ls: seq<Label>) {
    && |ss| == |ls| + 1
    && ss[0] == INITIAL
    && forall i {:trigger ls[i]} :: 0 <= i < |ls| ==> Enabled(ls[i], ss[i]) && ss[i + 1] == Apply(ls[i], ss[i])
  }

  // ----- The inductive invariant: who owns each channel

  predicate InPending(s: State, c: Call) {
    c in s.calls && s.calls[c].id in s.pending && s.pending[s.calls[c].id] == c
  }

  predicate InReadersHand(s: State, c: Call) { s.reader.Sending? && s.reader.call == c }

  predicate InDrainersHand(s: State, c: Call) { s.drain.DrainSending? && s.drain.call == c }

  predicate BeingClosed(s: State, c: Call) {
    || (s.reader.ClosingChan? && s.reader.call == c)
    || (s.drain.DrainClosing? && s.drain.call == c)
  }

  function Owners(s: State, c: Call): nat {
    (if InPending(s, c) then 1 else 0) + (if InReadersHand(s, c) then 1 else 0)
    + (if InDrainersHand(s, c) then 1 else 0)
  }

  predicate IsOwn(id: int, r: Result) { r.Reply? ==> r.resp.id == id }

  predicate CallInv(s: State, c: Call)
    requires c in s.calls
  {
    var k := s.calls[c];
    && 0 < k.id <= s.nextID
    && |k.ch.buf| <= k.ch.sends <= 1
    && (k.ch.buf != [] ==> IsOwn(k.id, k.ch.buf[0]))
    && (k.pc.Returned? ==> !k.pc.outcome.Nothing? && (k.pc.outcome.Answer? ==> k.pc.outcome.resp.id == k.id))
    && Owners(s, c) + k.ch.sends <= 1
    && (k.pc.Returned? ==> !InPending(s, c))
    && (k.pc.Numbered? ==> k.ch.sends == 0 && Owners(s, c) == 0)
    && (k.pc in {Registered, Waiting} ==> Owners(s, c) + |k.ch.buf| == 1)
    && (BeingClosed(s, c) <==> k.ch.open && k.ch.sends == 1)
    && (!k.ch.open ==> k.ch.sends == 1)
  }

  predicate AgentInv(s: State) {
    && (s.drain != Idle ==> s.closed)
    && (s.closed && s.drain == Idle ==> s.pending == map[])
    && (s.reader == ReaderStopped ==> s.closed && s.drain == Idle)
    && (s.drain != Idle ==> match s.drain.who
        case Reader => s.reader == ReaderDraining
        case Closer(k) => k in s.closers && s.closers[k] == CloserDraining)
    && (s.reader == ReaderDraining ==> s.drain != Idle && s.drain.who == Reader)
    && (forall k :: k in s.closers && s.closers[k] == CloserDraining ==> s.drain != Idle && s.drain.who == Closer(k))
    && (forall k :: k in s.closers && s.closers[k] == CloserDone ==> s.closed && s.drain == Idle)
  }

  predicate HandInv(s: State) {
    && (forall id :: id in s.pending ==> s.pending[id] in s.calls && s.calls[s.pending[id]].id == id)
    && (s.reader.Sending? ==> s.reader.call in s.calls && s.reader.resp.id == s.calls[s.reader.call].id)
    && (s.reader.ClosingChan? ==> s.reader.call in s.calls)
    && (s.drain.DrainSending? || s.drain.DrainClosing? ==> s.drain.call in s.calls)
    && !(s.reader.ClosingChan? && s.drain.DrainClosing? && s.reader.call == s.drain.call)
  }

  predicate DistinctIds(s: State) {
    forall c, d :: c in s.calls && d in s.calls && c != d ==> s.calls[c].id != s.calls[d].id
  }

  predicate Inv(s: State) {
    && s.nextID >= 0
    && AgentInv(s)
    && HandInv(s)
    && DistinctIds(s)
    && (forall c :: c in s.calls ==> CallInv(s, c))
  }

  lemma AgentStep(l: Label, s: State)
    requires AgentInv(s) && Enabled(l, s)
    ensures AgentInv(Apply(l, s))
  {
  }

  predicate ByCaller(l: Label) { l.Begin? || l.Register? || l.Write? || l.Receive? || l.Cancel? || l.Remove? }

  predicate ByReader(l: Label) { l.ReadFrame? || l.ReadFails? || l.ReplySend? || l.ReplyClose? }

  predicate InLoop(l: Label) { l.Take? || l.DrainSend? || l.DrainClose? }

  lemma HandStepOfCaller(l: Label, s: State)
    requires Inv(s) && Enabled(l, s) && ByCaller(l)
    ensures HandInv(Apply(l, s))
  {
  }

  lemma HandStep(l: Label, s: State)
    requires Inv(s) && Enabled(l, s)
    ensures HandInv(Apply(l, s))
  {
    if ByCaller(l) { HandStepOfCaller(l, s); }
  }

  lemma CallersOwnStep(l: Label, s: State)
    requires Enabled(l, s) && ByCaller(l)
    requires HandInv(s) && s.nextID >= 0 && (l.c in s.calls ==> CallInv(s, l.c))
    ensures CallInv(Apply(l, s), l.c)
  {
  }

  lemma AnotherIsUntouched(l: Label, s: State, c: Call)
    requires Enabled(l, s) && ByCaller(l) && c in s.calls && c != l.c && HandInv(s) && DistinctIds(s)
    ensures var s' := Apply(l, s);
            && c in s'.calls && s'.calls[c] == s.calls[c] && s'.nextID >= s.nextID
            && s'.reader == s.reader && s'.drain == s.drain && (InPending(s', c) <==> InPending(s, c))
  {
  }

  lemma SameCall(s: State, s': State, c: Call)
    requires c in s.calls && CallInv(s, c) && c in s'.calls && s'.calls[c] == s.calls[c] && s'.nextID >= s.nextID
    requires s'.reader == s.reader && s'.drain == s.drain && (InPending(s', c) <==> InPending(s, c))
    ensures CallInv(s', c)
  {
  }

  lemma AnotherCallersStep(l: Label, s: State, c: Call)
    requires Enabled(l, s) && ByCaller(l) && c in s.calls && c != l.c
    requires HandInv(s) && DistinctIds(s) && CallInv(s, c)
    ensures CallInv(Apply(l, s), c)
  {
    AnotherIsUntouched(l, s, c);
    SameCall(s, Apply(l, s), c);
  }

  lemma ReaderStep(l: Label, s: State, c: Call)
    requires Enabled(l, s) && c in s.calls && ByReader(l)
    requires HandInv(s) && DistinctIds(s) && CallInv(s, c)
    ensures CallInv(Apply(l, s), c)
  {
  }

  lemma LoopStep(l: Label, s: State, c: Call)
    requires Enabled(l, s) && c in s.calls && InLoop(l)
    requires HandInv(s) && DistinctIds(s) && CallInv(s, c)
    ensures CallInv(Apply(l, s), c)
  {
  }

  lemma OtherStep(l: Label, s: State, c: Call)
    requires Enabled(l, s) && c in s.calls && !ByCaller(l) && !ByReader(l) && !InLoop(l)
    requires AgentInv(s) && CallInv(s, c)
    ensures CallInv(Apply(l, s), c)
  {
  }

  lemma CallStep(l: Label, s: State, c: Call)
    requires Enabled(l, s) && c in Apply(l, s).calls
    requires AgentInv(s) && HandInv(s) && DistinctIds(s) && s.nextID >= 0 && (c in s.calls ==> CallInv(s, c))
    ensures CallInv(Apply(l, s), c)
  {
    if ByCaller(l) {
      if c == l.c { CallersOwnStep(l, s); } else { AnotherCallersStep(l, s, c); }
    } else if ByReader(l) {
      ReaderStep(l, s, c);
    } else if InLoop(l) {
      LoopStep(l, s, c);
    } else {
      OtherStep(l, s, c);
    }
  }

  lemma IdsStep(l: Label, s: State)
    requires Enabled(l, s) && DistinctIds(s) && s.nextID >= 0
    requires forall d :: d in s.calls ==> s.calls[d].id <= s.nextID
    ensures DistinctIds(Apply(l, s)) && Apply(l, s).nextID >= 0
  {
    var s' := Apply(l, s);
    forall c, d | c in s'.calls && d in s'.calls && c != d ensures s'.calls[c].id != s'.calls[d].id {
      assert c in s.calls ==> s'.calls[c].id == s.calls[c].id;
      assert d in s.calls ==> s'.calls[d].id == s.calls[d].id;
    }
  }

  lemma InvStep(l: Label, s: State)
    requires Inv(s) && Enabled(l, s)
    ensures Inv(Apply(l, s))
  {
    AgentStep(l, s);
    HandStep(l, s);
    forall d | d in s.calls ensures s.calls[d].id <= s.nextID {
      assert CallInv(s, d);
    }
    IdsStep(l, s);
    forall c | c in Apply(l, s).calls ensures CallInv(Apply(l, s), c) {
      CallStep(l, s, c);
    }
  }

  lemma {:induction false} InvOnRun(ss: seq<State>, ls: seq<Label>, i: nat)
    requires IsRun(ss, ls) && i <= |ls|
    ensures Inv(ss[i])
  {
    if i > 0 {
      InvOnRun(ss, ls, i - 1);
      InvStep(ls[i - 1], ss[i - 1]);
    }
  }

  // ----- What holds in every reachable state

  /** A waiting call's channel is in `pending`, in the reader's hand or in `failAll`'s hand, or it
      already holds a result, and exactly one of these; the result it holds is its own. */
  lemma WaitingCallIsServedOnce(ss: seq<State>, ls: seq<Label>, i: nat, c: Call)
    requires IsRun(ss, ls) && i <= |ls| && Has(ss[i], c, Waiting)
    ensures Owners(ss[i], c) + |ss[i].calls[c].ch.buf| == 1
    ensures ss[i].calls[c].ch.buf != [] ==> IsOwn(ss[i].calls[c].id, ss[i].calls[c].ch.buf[0])
  {
    InvOnRun(ss, ls, i);
    assert CallInv(ss[i], c);
  }

  /** No send or close of a channel ever panics or blocks: whoever is about to do one can. */
  lemma ChannelStepsNeverGetStuck(ss: seq<State>, ls: seq<Label>, i: nat)
    requires IsRun(ss, ls) && i <= |ls|
    ensures ss[i].reader.Sending? ==> Enabled(ReplySend, ss[i])
    ensures ss[i].reader.ClosingChan? ==> Enabled(ReplyClose, ss[i])
    ensures ss[i].drain.DrainSending? ==> Enabled(DrainSend, ss[i])
    ensures ss[i].drain.DrainClosing? ==> Enabled(DrainClose, ss[i])
    ensures forall c :: c in ss[i].calls ==> ss[i].calls[c].ch.sends <= 1
  {
    var s := ss[i];
    InvOnRun(ss, ls, i);
    assert forall c :: c in s.calls ==> CallInv(s, c);
    assert s.reader.Sending? ==> InReadersHand(s, s.reader.call);
    assert s.reader.ClosingChan? ==> BeingClosed(s, s.reader.call);
    assert s.drain.DrainSending? ==> InDrainersHand(s, s.drain.call);
    assert s.drain.DrainClosing? ==> BeingClosed(s, s.drain.call);
  }

  /** `pending` maps ids to the calls that own them, and none of these has returned: nothing leaks. */
  lemma PendingHoldsLiveCalls(ss: seq<State>, ls: seq<Label>, i: nat, id: int)
    requires IsRun(ss, ls) && i <= |ls| && id in ss[i].pending
    ensures var c := ss[i].pending[id];
            c in ss[i].calls && ss[i].calls[c].id == id && !ss[i].calls[c].pc.Returned? && !ss[i].calls[c].pc.Numbered?
  {
    InvOnRun(ss, ls, i);
    assert CallInv(ss[i], ss[i].pending[id]);
  }

  predicate Holds(s: State, resp: Response) {
    || (s.reader.Sending? && s.reader.resp == resp)
    || (exists c :: c in s.calls && Reply(resp) in s.calls[c].ch.buf)
    || (exists c :: c in s.calls && s.calls[c].pc == Returned(Answer(resp)))
  }

  lemma BufferedBefore(l: Label, s: State, resp: Response, c: Call)
    requires Enabled(l, s) && c in Apply(l, s).calls && Reply(resp) in Apply(l, s).calls[c].ch.buf
    ensures (c in s.calls && Reply(resp) in s.calls[c].ch.buf) || (s.reader.Sending? && s.reader.resp == resp)
  {
  }

  lemma ReturnedBefore(l: Label, s: State, resp: Response, c: Call)
    requires Enabled(l, s) && c in Apply(l, s).calls && Apply(l, s).calls[c].pc == Returned(Answer(resp))
    ensures c in s.calls && (s.calls[c].pc == Returned(Answer(resp)) || Reply(resp) in s.calls[c].ch.buf)
  {
    if l == Receive(c) && s.calls[c].ch.buf != [] {
      assert s.calls[c].ch.buf[0] in s.calls[c].ch.buf;
    }
  }

  lemma HeldBefore(l: Label, s: State, resp: Response)
    requires Enabled(l, s) && l != ReadFrame(resp) && Holds(Apply(l, s), resp)
    ensures Holds(s, resp)
  {
    var s' := Apply(l, s);
    if s'.reader.Sending? && s'.reader.resp == resp {
    } else if c :| c in s'.calls && Reply(resp) in s'.calls[c].ch.buf {
      BufferedBefore(l, s, resp, c);
    } else {
      var c :| c in s'.calls && s'.calls[c].pc == Returned(Answer(resp));
      ReturnedBefore(l, s, resp, c);
    }
  }

  /** Whatever response a channel or a call holds is a frame that the reader has read. */
  lemma {:induction false} ResponsesWereRead(ss: seq<State>, ls: seq<Label>, i: nat, resp: Response)
    requires IsRun(ss, ls) && i <= |ls| && Holds(ss[i], resp)
    ensures ReadFrame(resp) in ls[..i]
  {
    if i > 0 {
      var l, s := ls[i - 1], ss[i - 1];
      assert ls[..i] == ls[..i - 1] + [l];
      if l != ReadFrame(resp) {
        HeldBefore(l, s, resp);
        ResponsesWereRead(ss, ls, i - 1, resp);
      }
    }
  }

  /** A call that returns a response returns one that was read and carries its own id, so two calls
      never return the same response; and no call takes a closed, drained channel for an answer. */
  lemma NoCrossDelivery(ss: seq<State>, ls: seq<Label>, i: nat, c: Call)
    requires IsRun(ss, ls) && i <= |ls| && c in ss[i].calls && ss[i].calls[c].pc.Returned?
    ensures ss[i].calls[c].pc.outcome != Nothing
    ensures forall resp :: ss[i].calls[c].pc.outcome == Answer(resp) ==>
              && resp.id == ss[i].calls[c].id
              && ReadFrame(resp) in ls[..i]
              && forall d :: d in ss[i].calls && d != c ==> ss[i].calls[d].pc != Returned(Answer(resp))
  {
    InvOnRun(ss, ls, i);
    assert CallInv(ss[i], c);
    forall resp | ss[i].calls[c].pc.outcome == Answer(resp)
      ensures ReadFrame(resp) in ls[..i]
      ensures forall d :: d in ss[i].calls && d != c ==> ss[i].calls[d].pc != Returned(Answer(resp))
    {
      ResponsesWereRead(ss, ls, i, resp);
      assert forall d :: d in ss[i].calls ==> CallInv(ss[i], d);
    }
  }

  predicate CallIs(s: State, c: Call, pcs: set<CallPc>) { c in s.calls && s.calls[c].pc in pcs }

  predicate HasReceived(s: State, c: Call) {
    && c in s.calls && s.calls[c].pc.Returned?
    && (s.calls[c].pc.outcome.Answer? || s.calls[c].pc.outcome in {ConnectionFailed, Nothing})
  }

  /** What a call returns is decided by its own step: a write error by a failed write, a cancellation by the
      end of its context, and an answer or the connection error by what it received. */
  lemma {:induction false} OutcomesHaveCauses(ss: seq<State>, ls: seq<Label>, i: nat, c: Call)
    requires IsRun(ss, ls) && i <= |ls|
    ensures Write(c, false) in ls[..i] <==> CallIs(ss[i], c, {Removing(false), Returned(WriteError)})
    ensures Cancel(c) in ls[..i] <==> CallIs(ss[i], c, {Removing(true), Returned(Cancelled)})
    ensures Receive(c) in ls[..i] <==> HasReceived(ss[i], c)
  {
    if i > 0 {
      OutcomesHaveCauses(ss, ls, i - 1, c);
      OutcomeStep(ls[i - 1], ss[i - 1], c);
      assert ls[..i] == ls[..i - 1] + [ls[i - 1]] && ss[i] == Apply(ls[i - 1], ss[i - 1]);
    }
  }

  lemma OutcomeStep(l: Label, s: State, c: Call)
    requires Enabled(l, s)
    ensures CallIs(Apply(l, s), c, {Removing(false), Returned(WriteError)}) <==>
              CallIs(s, c, {Removing(false), Returned(WriteError)}) || l == Write(c, false)
    ensures CallIs(Apply(l, s), c, {Removing(true), Returned(Cancelled)}) <==>
              CallIs(s, c, {Removing(true), Returned(Cancelled)}) || l == Cancel(c)
    ensures HasReceived(Apply(l, s), c) <==> HasReceived(s, c) || l == Receive(c)
  {
  }

  /** What a waiting call receives it returns: a response as the answer, and the failure as an error. */
  lemma ReceivedIsReturned(ss: seq<State>, ls: seq<Label>, i: nat)
    requires IsRun(ss, ls) && i < |ls| && ls[i].Receive?
    ensures ss[i].calls[ls[i].c].ch.buf != []
    ensures match ss[i].calls[ls[i].c].ch.buf[0]
            case Reply(resp) => ss[i + 1].calls[ls[i].c].pc == Returned(Answer(resp))
            case Broken => ss[i + 1].calls[ls[i].c].pc == Returned(ConnectionFailed)
  {
    WaitingCallIsServedOnce(ss, ls, i, ls[i].c);
    InvOnRun(ss, ls, i);
    assert CallInv(ss[i], ls[i].c);
    assert ss[i + 1] == Apply(ls[i], ss[i]);
  }

  /** A call is refused exactly if the client was closed when it registered. */
  lemma {:induction false} RefusedIff(ss: seq<State>, ls: seq<Label>, j: nat, i: nat)
    requires IsRun(ss, ls) && j < i <= |ls| && ls[j].Register?
    ensures ls[j].c in ss[i].calls && !ss[i].calls[ls[j].c].pc.Numbered?
    ensures ss[i].calls[ls[j].c].pc == Returned(RefusedClosed) <==> ss[j].closed
  {
    assert ss[i] == Apply(ls[i - 1], ss[i - 1]);
    if j < i - 1 { RefusedIff(ss, ls, j, i - 1); }
  }

  /** `closed` is never reset, and once the closing `failAll` has let go of `mu`, `pending` stays empty. */
  lemma {:induction false} ClosedKeepsPendingEmpty(ss: seq<State>, ls: seq<Label>, i: nat, j: nat)
    requires IsRun(ss, ls) && i <= j <= |ls| && ss[i].closed
    ensures ss[j].closed && (ss[j].drain == Idle ==> ss[j].pending == map[])
  {
    InvOnRun(ss, ls, j);
    if i < j {
      ClosedKeepsPendingEmpty(ss, ls, i, j - 1);
      assert ss[j] == Apply(ls[j - 1], ss[j - 1]);
    }
  }

  /** The reader has stopped, or some `Close` is through with its `failAll`. */
  ghost predicate IsShutDown(s: State) {
    s.reader == ReaderStopped || exists k :: k in s.closers && s.closers[k] == CloserDone
  }

  /** The call can receive, and gets the connection error or its own answer. */
  predicate CanReceive(s: State, c: Call) {
    && Enabled(Receive(c), s)
    && var o := Apply(Receive(c), s).calls[c].pc.outcome;
       o == ConnectionFailed || (o.Answer? && o.resp.id == s.calls[c].id)
  }

  /** No lost wake-up: after the reader has stopped, or after any `Close`, `mu` is free and each call that
      still waits can receive, unless the reader holds the response to that very call; then the reader can
      send it, and the call gets it. */
  lemma ShutdownWakesEveryCall(ss: seq<State>, ls: seq<Label>, i: nat, c: Call)
    requires IsRun(ss, ls) && i <= |ls| && IsShutDown(ss[i]) && Has(ss[i], c, Waiting)
    ensures ss[i].drain == Idle && ss[i].pending == map[]
    ensures CanReceive(ss[i], c) <==> !InReadersHand(ss[i], c)
    ensures InReadersHand(ss[i], c) ==>
              && Enabled(ReplySend, ss[i]) && CanReceive(Apply(ReplySend, ss[i]), c)
              && Apply(Receive(c), Apply(ReplySend, ss[i])).calls[c].pc == Returned(Answer(ss[i].reader.resp))
  {
    InvOnRun(ss, ls, i);
    WaitingCallIsServedOnce(ss, ls, i, c);
    ChannelStepsNeverGetStuck(ss, ls, i);
    assert CallInv(ss[i], c);
  }

  /** The work left to a `failAll` that holds `mu`. */
  function DrainWork(s: State): nat {
    3 * |s.pending|
    + match s.drain { case Idle => 0 case Scanning(_) => 1 case DrainSending(_, _) => 3 case DrainClosing(_, _) => 2 }
  }

  /** While a `failAll` holds `mu`, no other thread touches its work. */
  lemma OthersLeaveTheDrain(l: Label, s: State)
    requires Enabled(l, s) && s.drain != Idle && !InLoop(l) && l != Exit
    ensures Apply(l, s).drain == s.drain && Apply(l, s).pending == s.pending
  {
  }

  lemma LoopShrinks(l: Label, s: State)
    requires Enabled(l, s) && (InLoop(l) || l == Exit)
    ensures DrainWork(Apply(l, s)) < DrainWork(s)
  {
    if l.Take? {
      assert (s.pending - {l.id}).Keys == s.pending.Keys - {l.id};
      assert |s.pending - {l.id}| == |s.pending| - 1;
    }
  }

  lemma DrainWorkShrinks(l: Label, s: State)
    requires Enabled(l, s) && s.drain != Idle
    ensures if InLoop(l) || l == Exit then DrainWork(Apply(l, s)) < DrainWork(s)
            else DrainWork(Apply(l, s)) == DrainWork(s)
  {
    if InLoop(l) || l == Exit {
      LoopShrinks(l, s);
    } else {
      OthersLeaveTheDrain(l, s);
    }
  }

  /** `mu` is given back: while a `failAll` holds it one of its steps is always possible, each of them
      leaves less work, and no step of another thread adds any. */
  lemma DrainTerminates(ss: seq<State>, ls: seq<Label>, i: nat, l: Label)
    requires IsRun(ss, ls) && i <= |ls| && ss[i].drain != Idle
    ensures exists d :: (InLoop(d) || d == Exit) && Enabled(d, ss[i])
    ensures Enabled(l, ss[i]) ==>
              if InLoop(l) || l == Exit then DrainWork(Apply(l, ss[i])) < DrainWork(ss[i])
              else DrainWork(Apply(l, ss[i])) == DrainWork(ss[i])
  {
    var s := ss[i];
    InvOnRun(ss, ls, i);
    ChannelStepsNeverGetStuck(ss, ls, i);
    var next := if s.drain.DrainSending? then DrainSend else if s.drain.DrainClosing? then DrainClose else Exit;
    if s.drain.Scanning? && s.pending.Keys != {} {
      var id := Pick(s.pending.Keys);
      next := Take(id);
    }
    assert Enabled(next, s);
    if Enabled(l, s) { DrainWorkShrinks(l, s); }
  }

  lemma Extend(ss: seq<State>, ls: seq<Label>, l: Label) returns (ss': seq<State>, ls': seq<Label>)
    requires IsRun(ss, ls) && Enabled(l, ss[|ls|])
    ensures IsRun(ss', ls') && ls' == ls + [l] && ss'[|ls'|] == Apply(l, ss[|ls|])
  {
    ss', ls' := ss + [Apply(l, ss[|ls|])], ls + [l];
  }

  /** The model is not empty: some run answers a call. */
  lemma AnswerIsReachable(body: nat) returns (ss: seq<State>, ls: seq<Label>)
    ensures IsRun(ss, ls) && Has(ss[|ls|], 0, Returned(Answer(Response(1, body))))
  {
    var resp := Response(1, body);
    ss, ls := Extend([INITIAL], [], Begin(0));
    ss, ls := Extend(ss, ls, Register(0));
    ss, ls := Extend(ss, ls, Write(0, true));
    assert ss[|ls|] == State(1, map[1 := 0], false, Idle, map[0 := CallState(1, Waiting, Chan([], true, 0))],
                             Reading, map[]);
    ss, ls := Extend(ss, ls, ReadFrame(resp));
    ss, ls := Extend(ss, ls, ReplySend);
    assert ss[|ls|].calls[0] == CallState(1, Waiting, Chan([Reply(resp)], true, 1));
    ss, ls := Extend(ss, ls, Receive(0));
  }
}
