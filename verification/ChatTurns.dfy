/** The turn queue and the input history of the chat TUI (cli/chat_tui.go). A session is the model's
    fields together with what has happened so far; the class below updates the fields the way the
    Bubble Tea model does and is tied to the session functions, about which the FIFO is proved. */
module ChatTurns {
  import opened Text

  datatype Turn = Turn(id: string, text: string)

  datatype Role = You | Paw

  datatype Message = Message(role: Role, text: string, pending: bool, pendingFrame: nat)

  /** chatTurnResultMsg: the error's text, if there is an error. */
  datatype Result = Result(text: string, err: Option<string>)

  datatype Session = Session(
    messages: seq<Message>,
    queue: seq<Turn>,
    inFlight: bool,
    currentPaw: int,
    typingPos: nat,
    // history
    submitted: seq<Turn>,
    sent: seq<Turn>,
    replies: seq<string>)

  const EMPTY_SESSION := Session([], [], false, -1, 0, [], [], [])

  const TYPING_TEXT := "생각중..."

  function TypingFrame(pos: nat): string { TYPING_TEXT }

  function ReplyText(r: Result): string {
    var text := TrimSpace(r.text);
    if r.err.Some? && text == "" then "error: " + r.err.value
    else if text == "" then "(empty response)" else text
  }

  function StartTurn(s: Session, turn: Turn): Session {
    s.(inFlight := true, typingPos := 0, messages := s.messages + [Message(Paw, TypingFrame(0), true, 0)],
       currentPaw := |s.messages|, sent := s.sent + [turn])
  }

  function Submit(s: Session, value: string, id: string): Session {
    var text := TrimSpace(value);
    if text == "" then s
    else
      var turn := Turn(id, text);
      var s' := s.(messages := s.messages + [Message(You, text, false, 0)], submitted := s.submitted + [turn]);
      if s.inFlight then s'.(queue := s.queue + [turn]) else StartTurn(s', turn)
  }

  function Finish(s: Session, r: Result): Session {
    var i := s.currentPaw;
    var s' :=
      if 0 <= i < |s.messages|
      then s.(messages := s.messages[i := s.messages[i].(text := ReplyText(r), pending := false)], inFlight := false,
              currentPaw := -1, replies := s.replies + [ReplyText(r)])
      else s.(inFlight := false, currentPaw := -1);
    if s.queue == [] then s' else StartTurn(s'.(queue := s.queue[1..]), s.queue[0])
  }

  function Tick(s: Session): Session {
    var i, pos := s.currentPaw, s.typingPos + 1;
    if !s.inFlight then s
    else if 0 <= i < |s.messages|
    then
      s.(typingPos := pos,
      messages := s.messages[i := s.messages[i].(text := TypingFrame(pos), pendingFrame := pos)])
    else s.(typingPos := pos)
  }

  // ----- The invariant

  function Paws(messages: seq<Message>): seq<Message> {
    if messages == [] then []
    else
      var last := messages[|messages| - 1];
      Paws(messages[..|messages| - 1]) + if last.role == Paw then [last] else []
  }

  function Yours(messages: seq<Message>): seq<string> {
    if messages == [] then []
    else
      var last := messages[|messages| - 1];
      Yours(messages[..|messages| - 1]) + if last.role == You then [last.text] else []
  }

  function Texts(turns: seq<Turn>): seq<string> {
    seq(|turns|, i requires 0 <= i < |turns| => turns[i].text)
  }

  predicate Inv(s: Session) {
    // the model is a FIFO with one turn in flight
    && s.sent + s.queue == s.submitted
    && (s.queue != [] ==> s.inFlight)
    && |s.sent| == |s.replies| + (if s.inFlight then 1 else 0)
    // the transcript: one slot per sent turn, and finished slots hold their replies
    && Yours(s.messages) == Texts(s.submitted)
    && |Paws(s.messages)| == |s.sent|
    && (forall k :: 0 <= k < |s.replies| ==> Paws(s.messages)[k].text == s.replies[k] && !Paws(s.messages)[k].pending)
    && (forall i :: 0 <= i < |s.messages| && s.messages[i].role == You ==> !s.messages[i].pending)
    // the slot in flight
    && (!s.inFlight ==> s.currentPaw == -1)
    && (s.inFlight ==>
          && 0 <= s.currentPaw < |s.messages| && s.messages[s.currentPaw].role == Paw
          && s.messages[s.currentPaw].pending
          && |Paws(s.messages[..s.currentPaw])| == |s.replies|)
  }

  lemma Snoc(messages: seq<Message>, m: Message)
    ensures Paws(messages + [m]) == Paws(messages) + if m.role == Paw then [m] else []
    ensures Yours(messages + [m]) == Yours(messages) + if m.role == You then [m.text] else []
  {
    assert (messages + [m])[..|messages|] == messages;
  }

  /** Rewriting a slot rewrites exactly its entry among the slots. */
  lemma {:induction false} RewriteSlot(messages: seq<Message>, i: nat, m: Message)
    requires i < |messages| && messages[i].role == Paw && m.role == Paw
    ensures |Paws(messages[..i])| < |Paws(messages)|
    ensures Paws(messages[i := m]) == Paws(messages)[|Paws(messages[..i])| := m]
    ensures Paws(messages)[|Paws(messages[..i])|] == messages[i]
    ensures Yours(messages[i := m]) == Yours(messages)
  {
    var n := |messages| - 1;
    if i < n {
      assert messages[i := m][..n] == messages[..n][i := m] && messages[..n][..i] == messages[..i];
      RewriteSlot(messages[..n], i, m);
    } else {
      assert messages[i := m][..n] == messages[..n];
    }
  }

  lemma StartKeepsInv(s: Session, turn: Turn)
    requires !s.inFlight && s.currentPaw == -1 && |s.sent| == |s.replies| && s.sent + [turn] + s.queue == s.submitted
    requires Yours(s.messages) == Texts(s.submitted) && |Paws(s.messages)| == |s.sent|
    requires forall k :: 0 <= k < |s.replies| ==>
             Paws(s.messages)[k].text == s.replies[k] && !Paws(s.messages)[k].pending
    requires forall i :: 0 <= i < |s.messages| && s.messages[i].role == You ==> !s.messages[i].pending
    ensures Inv(StartTurn(s, turn))
  {
    Snoc(s.messages, Message(Paw, TypingFrame(0), true, 0));
    assert StartTurn(s, turn).messages[..|s.messages|] == s.messages;
  }

  lemma SubmitKeepsInv(s: Session, value: string, id: string)
    requires Inv(s)
    ensures Inv(Submit(s, value, id))
  {
    var text := TrimSpace(value);
    if text != "" {
      var turn := Turn(id, text);
      Snoc(s.messages, Message(You, text, false, 0));
      var s' := s.(messages := s.messages + [Message(You, text, false, 0)], submitted := s.submitted + [turn]);
      assert Texts(s.submitted + [turn]) == Texts(s.submitted) + [text];
      if s.inFlight {
        assert s'.messages[..s.currentPaw] == s.messages[..s.currentPaw];
        assert s.sent + (s.queue + [turn]) == s.sent + s.queue + [turn];
      } else {
        StartKeepsInv(s', turn);
      }
    }
  }

  lemma FinishKeepsInv(s: Session, r: Result)
    requires Inv(s)
    ensures Inv(Finish(s, r))
  {
    if s.inFlight {
      var m := s.messages[s.currentPaw].(text := ReplyText(r), pending := false);
      RewriteSlot(s.messages, s.currentPaw, m);
      if s.queue != [] {
        var s' := s.(messages := s.messages[s.currentPaw := m], inFlight := false, currentPaw := -1,
                     replies := s.replies + [ReplyText(r)], queue := s.queue[1..]);
        assert s.sent + [s.queue[0]] + s.queue[1..] == s.sent + s.queue;
        StartKeepsInv(s', s.queue[0]);
      }
    }
  }

  lemma TickKeepsInv(s: Session)
    requires Inv(s)
    ensures Inv(Tick(s))
  {
    if s.inFlight {
      var i, pos := s.currentPaw, s.typingPos + 1;
      RewriteSlot(s.messages, i, s.messages[i].(text := TypingFrame(pos), pendingFrame := pos));
      assert Tick(s).messages[..i] == s.messages[..i];
    }
  }

  // ----- The FIFO

  datatype Event = SubmitEvent(value: string, id: string) | FinishEvent(result: Result) | TickEvent

  function Step(s: Session, e: Event): Session {
    match e
    case SubmitEvent(value, id) => Submit(s, value, id)
    case FinishEvent(result) => Finish(s, result)
    case TickEvent => Tick(s)
  }

  function Run(events: seq<Event>): Session {
    if events == [] then EMPTY_SESSION else Step(Run(events[..|events| - 1]), events[|events| - 1])
  }

  lemma {:induction false} RunKeepsInv(events: seq<Event>)
    ensures Inv(Run(events))
  {
    if events != [] {
      RunKeepsInv(events[..|events| - 1]);
      var s := Run(events[..|events| - 1]);
      match events[|events| - 1]
      case SubmitEvent(value, id) => SubmitKeepsInv(s, value, id);
      case FinishEvent(result) => FinishKeepsInv(s, result);
      case TickEvent => TickKeepsInv(s);
    } else {
      assert Texts([]) == [];
    }
  }

  /** The turns that wait for a reply, the one in flight first. */
  function Waiting(s: Session): seq<Turn>
    requires |s.replies| <= |s.submitted|
  {
    s.submitted[|s.replies|..]
  }

  /** The model refines a FIFO: a submitted text joins the end of the line, a result answers the turn at
      its head and is ignored when nobody waits, and a tick changes neither line nor replies. */
  lemma StepRefinesFifo(s: Session, e: Event)
    requires Inv(s)
    ensures |Step(s, e).replies| <= |Step(s, e).submitted|
    ensures match e
            case SubmitEvent(value, id) =>
              && Step(s, e).replies == s.replies
              && Waiting(Step(s, e)) == Waiting(s) + if TrimSpace(value) == "" then [] else [Turn(id, TrimSpace(value))]
            case FinishEvent(r) =>
              if Waiting(s) == [] then Step(s, e) == s
              else Waiting(Step(s, e)) == Waiting(s)[1..] && Step(s, e).replies == s.replies + [ReplyText(r)]
            case TickEvent => Waiting(Step(s, e)) == Waiting(s) && Step(s, e).replies == s.replies
  {
    assert |s.submitted| == |s.sent| + |s.queue|;
    match e
    case SubmitEvent(value, id) => StepGrows(s, e);
    case FinishEvent(r) => FinishKeepsInv(s, r);
    case TickEvent =>
  }

  lemma StepGrows(s: Session, e: Event)
    ensures s.replies <= Step(s, e).replies && s.submitted <= Step(s, e).submitted
  {
  }

  lemma {:induction false} RunGrows(events: seq<Event>, n: nat)
    requires n <= |events|
    ensures Run(events[..n]).replies <= Run(events).replies && Run(events[..n]).submitted <= Run(events).submitted
  {
    if n < |events| {
      var last := |events| - 1;
      assert events[..last][..n] == events[..n];
      RunGrows(events[..last], n);
      StepGrows(Run(events[..last]), events[last]);
    } else {
      assert events[..n] == events;
    }
  }

  /** After any events: the k-th reply slot shows the k-th reply, which answers the k-th submitted turn,
      and nothing later, neither a tick nor another turn, changes it. */
  lemma RepliesAreInOrderAndFinal(events: seq<Event>, n: nat, k: nat)
    requires n <= |events| && k < |Run(events[..n]).replies|
    ensures var before, after := Run(events[..n]), Run(events);
            && k < |before.submitted| && k < |after.submitted| && k < |after.sent|
            && after.submitted[k] == before.submitted[k] == after.sent[k]
            && k < |after.replies| && after.replies[k] == before.replies[k]
            && k < |Paws(before.messages)| && Paws(before.messages)[k].text == before.replies[k]
            && k < |Paws(after.messages)| && !Paws(after.messages)[k].pending
            && Paws(after.messages)[k].text == before.replies[k]
  {
    RunKeepsInv(events[..n]);
    RunKeepsInv(events);
    RunGrows(events, n);
  }

  /** What the user reads for a result: the trimmed answer, else the error, else a notice. */
  predicate Shows(text: string, r: Result) {
    && (TrimSpace(r.text) != "" ==> text == TrimSpace(r.text))
    && (TrimSpace(r.text) == "" && r.err.Some? ==> text == "error: " + r.err.value)
    && (TrimSpace(r.text) == "" && r.err.None? ==> text == "(empty response)")
  }

  /** The slot of the turn in flight shows the result, and no other message changes. */
  lemma FinishShows(s: Session, r: Result)
    requires Inv(s) && s.inFlight
    ensures var i, after := s.currentPaw, Finish(s, r).messages;
            && |after| >= |s.messages| && !after[i].pending
            && Shows(after[i].text, r)
            && forall j :: 0 <= j < |s.messages| && j != i ==> after[j] == s.messages[j]
  {
  }

  /** A tick counts on in the slot of the turn in flight and changes nothing else. */
  lemma TickAnimates(s: Session)
    requires Inv(s)
    ensures if !s.inFlight then Tick(s) == s
            else
              && Tick(s).typingPos == s.typingPos + 1
              && |Tick(s).messages| == |s.messages|
              && Tick(s).messages[s.currentPaw] == Message(Paw, "생각중...", true, s.typingPos + 1)
              && forall j :: 0 <= j < |s.messages| && j != s.currentPaw ==> Tick(s).messages[j] == s.messages[j]
  {
  }

  /** The results that found a turn in flight; the others are ignored. */
  function Answers(events: seq<Event>): seq<Result> {
    if events == [] then []
    else
      var front, last := events[..|events| - 1], events[|events| - 1];
      Answers(front) + if last.FinishEvent? && Run(front).inFlight then [last.result] else []
  }

  /** After any events: the k-th reply slot shows the k-th result that found a turn in flight. */
  lemma {:induction false} SlotsShowTheAnswers(events: seq<Event>)
    ensures |Run(events).replies| == |Answers(events)| && |Paws(Run(events).messages)| >= |Answers(events)|
    ensures forall k :: 0 <= k < |Answers(events)| ==> Shows(Paws(Run(events).messages)[k].text, Answers(events)[k])
  {
    RunKeepsInv(events);
    if events != [] {
      var front, last := events[..|events| - 1], events[|events| - 1];
      SlotsShowTheAnswers(front);
      RunKeepsInv(front);
      StepGrows(Run(front), last);
      StepRefinesFifo(Run(front), last);
      forall k | 0 <= k < |Answers(events)|
        ensures Shows(Paws(Run(events).messages)[k].text, Answers(events)[k])
      {
        assert Paws(Run(events).messages)[k].text == Run(events).replies[k];
        if k < |Answers(front)| {
          assert Paws(Run(front).messages)[k].text == Run(front).replies[k];
        }
      }
    }
  }

  /** A message is pending exactly if it is the slot of the turn in flight. */
  lemma OnlyTheCurrentSlotIsPending(s: Session, i: nat)
    requires Inv(s) && i < |s.messages|
    ensures s.messages[i].pending <==> s.inFlight && i == s.currentPaw
  {
    if s.messages[i].pending {
      var slot := |Paws(s.messages[..i])|;
      RewriteSlot(s.messages, i, s.messages[i]);
      if i < s.currentPaw {
        assert s.messages[..s.currentPaw][..i] == s.messages[..i];
        RewriteSlot(s.messages[..s.currentPaw], i, s.messages[i]);
      } else if 0 <= s.currentPaw < i {
        assert s.messages[..i][..s.currentPaw] == s.messages[..s.currentPaw];
        RewriteSlot(s.messages[..i], s.currentPaw, s.messages[s.currentPaw]);
      }
    }
  }

  // ----- The Bubble Tea model

  class ChatTUIModel {
    var messages: seq<Message>
    var queue: seq<Turn>
    var inFlight: bool
    var currentPaw: int
    var typingPos: nat
    ghost var submitted: seq<Turn>
    ghost var sent: seq<Turn>
    ghost var replies: seq<string>

    constructor ()
      ensures View() == EMPTY_SESSION
    {
      messages, queue, inFlight, currentPaw, typingPos := [], [], false, -1, 0;
      submitted, sent, replies := [], [], [];
    }

    ghost function View(): Session
      reads this
    {
      Session(messages, queue, inFlight, currentPaw, typingPos, submitted, sent, replies)
    }

    /** The returned turn is the one handed to the send command. */
    method SubmitInput(value: string, newTurnID: string) returns (send: Option<Turn>)
      modifies this
      ensures View() == Submit(old(View()), value, newTurnID)
      ensures send == if TrimSpace(value) == "" || old(inFlight) then None else Some(Turn(newTurnID, TrimSpace(value)))
    {
      var text := TrimSpace(value);
      if text == "" {
        return None;
      }
      var turn := Turn(newTurnID, text);
      messages := messages + [Message(You, text, false, 0)];
      submitted := submitted + [turn];
      if inFlight {
        queue := queue + [turn];
        return None;
      }
      send := BeginTurn(turn);
    }

    method BeginTurn(turn: Turn) returns (send: Option<Turn>)
      modifies this
      ensures View() == StartTurn(old(View()), turn) && send == Some(turn)
    {
      inFlight := true;
      typingPos := 0;
      messages := messages + [Message(Paw, TypingFrame(typingPos), true, typingPos)];
      currentPaw := |messages| - 1;
      sent := sent + [turn];
      send := Some(turn);
    }

    method FinishTurn(result: Result) returns (send: Option<Turn>)
      modifies this
      ensures View() == Finish(old(View()), result)
      ensures send == if old(queue) == [] then None else Some(old(queue)[0])
      ensures 0 <= old(currentPaw) < |old(messages)| ==>
                var slot := messages[old(currentPaw)];
                !slot.pending && slot.role == old(messages[currentPaw].role) && Shows(slot.text, result)
    {
      var text := TrimSpace(result.text);
      if result.err.Some? && text == "" {
        text := "error: " + result.err.value;
      }
      if text == "" {
        text := "(empty response)";
      }
      if 0 <= currentPaw < |messages| {
        messages := messages[currentPaw := messages[currentPaw].(text := text, pending := false)];
        replies := replies + [text];
      }
      inFlight := false;
      currentPaw := -1;
      if |queue| > 0 {
        var next := queue[0];
        queue := queue[1..];
        send := BeginTurn(next);
      } else {
        send := None;
      }
    }

    /** The tick case of Update; the result is whether another tick is scheduled. */
    method TypingTick() returns (again: bool)
      modifies this
      ensures View() == Tick(old(View())) && again == old(inFlight)
    {
      if !inFlight {
        return false;
      }
      typingPos := typingPos + 1;
      if 0 <= currentPaw < |messages| {
        var frame := messages[currentPaw].(text := TypingFrame(typingPos), pendingFrame := typingPos);
        messages := messages[currentPaw := frame];
      }
      again := true;
    }
  }

  // ----- The input history

  /** Walking up from the end of the history with `draft` in the input, `m` times, then down `n` times. */
  function Shown(entries: seq<string>, draft: string, m: nat, n: nat): string {
    var up := if m < |entries| then m else |entries|;
    if n >= up then draft else entries[|entries| - up + n]
  }

  class ChatInputHistory {
    var entries: seq<string>
    var pos: nat
    var draft: string

    constructor (entries: seq<string>)
      ensures this.entries == entries && pos == |entries| && Valid()
    {
      this.entries, pos, draft := entries, |entries|, "";
    }

    predicate Valid()
      reads this
    {
      pos <= |entries|
    }

    method Add(text: string)
      requires Valid()
      modifies this
      ensures Valid()
      ensures if TrimSpace(text) == "" then entries == old(entries) && pos == old(pos) && draft == old(draft)
              else entries == old(entries) + [TrimSpace(text)] && pos == |entries| && draft == ""
    {
      var trimmed := TrimSpace(text);
      if trimmed == "" {
        return;
      }
      entries := entries + [trimmed];
      pos := |entries|;
      draft := "";
    }

    method Prev(current: string) returns (shown: string)
      requires Valid()
      modifies `pos, `draft
      ensures Valid()
      ensures draft == if entries != [] && old(pos) == |entries| then current else old(draft)
      ensures pos == if entries != [] && old(pos) > 0 then old(pos) - 1 else old(pos)
      ensures shown == if entries == [] then current else entries[pos]
    {
      if |entries| == 0 {
        return current;
      }
      if pos == |entries| {
        draft := current;
      }
      if pos > 0 {
        pos := pos - 1;
      }
      shown := entries[pos];
    }

    method Next() returns (shown: string)
      requires Valid()
      modifies `pos
      ensures Valid()
      ensures pos == if old(pos) < |entries| then old(pos) + 1 else old(pos)
      ensures shown == if entries == [] then "" else if pos == |entries| then draft else entries[pos]
    {
      if |entries| == 0 {
        return "";
      }
      if pos < |entries| {
        pos := pos + 1;
      }
      if pos == |entries| {
        return draft;
      }
      shown := entries[pos];
    }

    /** Pressing Up `m` times and Down `n` times from the end of the history: whatever was in the input
        before comes back after as many steps down as there were entries to walk up. */
    method WalkUpAndDown(current: string, m: nat, n: nat) returns (shown: string)
      requires Valid() && pos == |entries| && entries != [] && m > 0
      modifies `pos, `draft
      ensures shown == Shown(entries, current, m, n)
    {
      shown := Prev(current);
      for i := 1 to m
        invariant Valid() && draft == current && pos == if i < |entries| then |entries| - i else 0
        invariant shown == Shown(entries, current, i, 0)
      {
        shown := Prev(shown);
      }
      ghost var start := pos;
      for i := 0 to n
        invariant Valid() && draft == current && pos == if start + i < |entries| then start + i else |entries|
        invariant shown == Shown(entries, current, m, i)
      {
        shown := Next();
      }
    }
  }
}
