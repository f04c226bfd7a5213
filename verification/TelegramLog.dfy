/** The Bot API queue and the durable event sink of a Telegram channel (channel/telegram.go), and what the
    passes of its poll loop do to them. */
module TelegramLog {
  import opened Text

  datatype Message = Message(chat: int, text: string, caption: string, voice: bool)

  /** `callback` is whether the update carries a callback query. */
  datatype Update = Update(id: int, callback: bool, message: Option<Message>)

  /** What the environment does while an update is handled: how many attachments it hands out, the
      transcript of a voice message, whether the payload encodes, how often publishing fails, and
      whether the context is cancelled before publishing succeeds. */
  datatype Env = Env(attachments: nat, transcript: Option<string>, encodable: bool, failures: nat, cancelled: bool)

  datatype Fate = Published | Interrupted | Skipped(rule: SkipRule)

  datatype SkipRule = CallbackQuery | NoMessage | VoiceFailed | NoContent | Unencodable

  function Content(m: Message): string { if m.text == "" then m.caption else m.text }

  function FateOf(u: Update, env: Env): Fate {
    if u.callback then Skipped(CallbackQuery)
    else if u.message == None then Skipped(NoMessage)
    else
      var m := u.message.value;
      var transcribe := m.voice && Content(m) == "" && env.attachments == 0;
      if transcribe && env.transcript == None then Skipped(VoiceFailed)
      else
        var text := if transcribe then env.transcript.value else Content(m);
        if text == "" && env.attachments == 0 then Skipped(NoContent)
        else if !env.encodable then Skipped(Unencodable)
        else if env.cancelled then Interrupted
        else Published
  }

  /** When a rule discards an update. */
  predicate RuleApplies(rule: SkipRule, u: Update, env: Env) {
    match rule
    case CallbackQuery => u.callback
    case NoMessage => u.message == None
    case VoiceFailed =>
      u.message.Some? && u.message.value.voice && NothingToSend(u.message.value, env) && env.transcript == None
    case NoContent =>
      u.message.Some? && NothingToSend(u.message.value, env)
      && (u.message.value.voice ==> env.transcript == Some(""))
    case Unencodable => !env.encodable
  }

  predicate NothingToSend(m: Message, env: Env) { m.text == "" && m.caption == "" && env.attachments == 0 }

  /** What becomes of an update: it is skipped exactly if some rule applies to it, and then by one that does;
      else it is published, however often that fails, unless the context ends before. */
  lemma FateMeaning(u: Update, env: Env)
    ensures match FateOf(u, env)
            case Skipped(rule) => RuleApplies(rule, u, env)
            case _ => forall rule :: !RuleApplies(rule, u, env)
    ensures FateOf(u, env) == Published <==> !env.cancelled && forall rule :: !RuleApplies(rule, u, env)
    ensures FateOf(u, env) == Interrupted <==> env.cancelled && forall rule :: !RuleApplies(rule, u, env)
  {
    if FateOf(u, env).Skipped? {
      assert RuleApplies(FateOf(u, env).rule, u, env);
    } else {
      forall rule ensures !RuleApplies(rule, u, env) {
        match rule
        case CallbackQuery =>
        case NoMessage =>
        case VoiceFailed =>
        case NoContent =>
        case Unencodable =>
      }
    }
  }

  /** One update the channel is done with, and what the environment did meanwhile. */
  datatype Handling = Handling(id: int, env: Env)

  /** The Bot API's side of one bot: the updates that ever arrived, by id, of which those below
      `confirmed` are forgotten, and a bound for the next id; the ids the sink accepted, in order; and as
      history every update that was published or skipped, each time. */
  datatype Log = Log(arrived: map<int, Update>, next: int, confirmed: int, accepted: seq<int>, history: seq<Handling>)

  const EMPTY_LOG := Log(map[], 1, 0, [], [])

  predicate IsSettledBy(arrived: map<int, Update>, h: Handling) {
    h.id in arrived && FateOf(arrived[h.id], h.env) != Interrupted
  }

  predicate IsPublishedBy(arrived: map<int, Update>, h: Handling) {
    h.id in arrived && FateOf(arrived[h.id], h.env) == Published
  }

  /** The ids a history publishes, in order. */
  function PublishedBy(arrived: map<int, Update>, history: seq<Handling>): seq<int> {
    if history == [] then []
    else
      var last := history[|history| - 1];
      PublishedBy(arrived, history[..|history| - 1]) + if IsPublishedBy(arrived, last) then [last.id] else []
  }

  function Handled(history: seq<Handling>): set<int> {
    set h | h in history :: h.id
  }

  /** The sink holds exactly what the history published, in that order. */
  ghost predicate Valid(log: Log) {
    && (forall id :: id in log.arrived ==> 0 < id < log.next && log.arrived[id].id == id)
    && (forall h :: h in log.history ==> IsSettledBy(log.arrived, h))
    && log.accepted == PublishedBy(log.arrived, log.history)
  }

  /** Every update that the Bot API has forgotten was handled before. */
  ghost predicate NoLoss(log: Log) {
    forall id :: id in log.arrived && id < log.confirmed ==> id in Handled(log.history)
  }

  /** Everything below the channel's offset is handled, and no id to come is below it. */
  ghost predicate CaughtUp(log: Log, offset: int) {
    && offset <= log.next
    && forall id :: id in log.arrived && id < offset ==> id in Handled(log.history)
  }

  ghost predicate Good(log: Log, offset: int) {
    && Valid(log) && NoLoss(log) && CaughtUp(log, offset)
    && log.confirmed <= log.next && log.next > 0
  }

  /** The Bot API numbers the updates upwards. */
  function Arrive(log: Log, u: Update): Log {
    log.(arrived := log.arrived[u.id := u], next := u.id + 1)
  }

  /** A request with an offset confirms everything below it. */
  function Confirm(log: Log, offset: int): Log {
    if offset > log.confirmed then log.(confirmed := offset) else log
  }

  /** The effect of handling an update, unless it is interrupted. */
  function Settle(log: Log, id: int, env: Env): Log
    requires id in log.arrived
  {
    match FateOf(log.arrived[id], env)
    case Published => log.(accepted := log.accepted + [id], history := log.history + [Handling(id, env)])
    case Skipped(_) => log.(history := log.history + [Handling(id, env)])
    case Interrupted => log
  }

  lemma HandledSnoc(history: seq<Handling>, h: Handling)
    ensures Handled(history + [h]) == Handled(history) + {h.id}
  {
    assert forall g :: g in history + [h] <==> g in history || g == h;
    assert h in history + [h];
  }

  lemma PublishedSnoc(arrived: map<int, Update>, history: seq<Handling>, h: Handling)
    ensures PublishedBy(arrived, history + [h])
            == PublishedBy(arrived, history) + if IsPublishedBy(arrived, h) then [h.id] else []
  {
    assert (history + [h])[..|history|] == history;
  }

  /** A new update with a new id does not change what the history published. */
  lemma {:induction false} PublishedStays(arrived: map<int, Update>, u: Update, history: seq<Handling>)
    requires u.id !in arrived && forall h :: h in history ==> h.id in arrived
    ensures PublishedBy(arrived[u.id := u], history) == PublishedBy(arrived, history)
  {
    if history != [] {
      var last := history[|history| - 1];
      assert last in history;
      PublishedStays(arrived, u, history[..|history| - 1]);
    }
  }

  lemma {:induction false} PublishedMeaning(arrived: map<int, Update>, history: seq<Handling>, h: Handling)
    requires h in history && IsPublishedBy(arrived, h)
    ensures h.id in PublishedBy(arrived, history)
  {
    var front, last := history[..|history| - 1], history[|history| - 1];
    assert history == front + [last];
    if h in front { PublishedMeaning(arrived, front, h); }
  }

  /** A new process starts from offset 0. */
  lemma RestartIsGood(log: Log, offset: int)
    requires Good(log, offset)
    ensures Good(log, 0)
  {
  }

  lemma ArriveKeepsGood(log: Log, offset: int, u: Update)
    requires Good(log, offset) && u.id >= log.next && u.id > 0
    ensures Good(Arrive(log, u), offset)
  {
    PublishedStays(log.arrived, u, log.history);
  }

  /** Asking with an offset below which everything is handled confirms only what is handled. */
  lemma ConfirmKeepsGood(log: Log, offset: int)
    requires Good(log, offset)
    ensures Good(Confirm(log, offset), offset)
  {
  }

  /** Settling the oldest update that is not settled allows the offset to move behind it. */
  lemma SettleKeepsGood(log: Log, offset: int, id: int, env: Env)
    requires Good(log, offset) && id in log.arrived && FateOf(log.arrived[id], env) != Interrupted
    requires forall x :: x in log.arrived && x < id ==> x in Handled(log.history)
    ensures Good(Settle(log, id, env), id + 1)
  {
    HandledSnoc(log.history, Handling(id, env));
    PublishedSnoc(log.arrived, log.history, Handling(id, env));
  }

  /** Nothing is lost: whatever the Bot API has forgotten was handled, and under the environment recorded
      then it was either to be published, and the sink has it, or met the condition of a skip rule. */
  lemma NothingIsLost(log: Log, id: int) returns (h: Handling)
    requires Valid(log) && NoLoss(log) && id in log.arrived && id < log.confirmed
    ensures h in log.history && h.id == id
    ensures match FateOf(log.arrived[id], h.env)
            case Published => id in log.accepted
            case Skipped(rule) => RuleApplies(rule, log.arrived[id], h.env)
            case Interrupted => false
    ensures var u := log.arrived[id];
            !u.callback && u.message.Some? && Content(u.message.value) != "" ==> id in log.accepted || !h.env.encodable
  {
    h :| h in log.history && h.id == id;
    assert IsSettledBy(log.arrived, h);
    if IsPublishedBy(log.arrived, h) { PublishedMeaning(log.arrived, log.history, h); }
  }

  // ----- The Bot API's answer

  lemma {:induction false} MinExists(ids: set<int>)
    requires |ids| > 0
    ensures exists x :: x in ids && forall y :: y in ids ==> x <= y
  {
    var x := Pick(ids);
    var rest := ids - {x};
    assert forall y :: y in ids ==> y == x || y in rest;
    if |rest| > 0 {
      MinExists(rest);
      var m :| m in rest && forall y :: y in rest ==> m <= y;
      assert (if x < m then x else m) in ids;
    } else {
      assert rest == {};
    }
  }

  function Min(ids: set<int>): (x: int)
    requires |ids| > 0
    ensures x in ids && forall y :: y in ids ==> x <= y
  {
    MinExists(ids);
    var x :| x in ids && forall y :: y in ids ==> x <= y;
    x
  }

  /** The `n` lowest ids, in order. */
  function Lowest(ids: set<int>, n: nat): (r: seq<int>)
    ensures |r| <= n && forall i :: 0 <= i < |r| ==> r[i] in ids
    ensures forall i, j :: 0 <= i < j < |r| ==> r[i] < r[j]
    ensures forall i, y :: 0 <= i < |r| && y in ids && y !in r ==> r[i] < y
  {
    if n == 0 || |ids| == 0 then []
    else
      var x := Min(ids);
      [x] + Lowest(ids - {x}, n - 1)
  }

  /** The updates that the Bot API still holds. */
  function OpenUpdates(log: Log): set<int> { set id | id in log.arrived && id >= log.confirmed }

  /** getUpdates answers with at most `n` of the oldest updates that are left. */
  function Answer(log: Log, n: nat): (ids: seq<int>)
    ensures |ids| <= n && forall i :: 0 <= i < |ids| ==> ids[i] in log.arrived && log.confirmed <= ids[i]
    ensures forall i, j :: 0 <= i < j < |ids| ==> ids[i] < ids[j]
    ensures forall i, id :: 0 <= i < |ids| && id in log.arrived && log.confirmed <= id < ids[i] ==> id in ids
  {
    Lowest(OpenUpdates(log), n)
  }

  // ----- The loop over a batch

  /** The Bot API and a running channel. */
  datatype Cursor = Cursor(log: Log, offset: int)

  function Advance(offset: int, id: int): int { if id >= offset then id + 1 else offset }

  predicate AreKnown(log: Log, batch: seq<int>) {
    forall i :: 0 <= i < |batch| ==> batch[i] in log.arrived
  }

  /** The updates of a batch in order, up to the first one whose publishing is interrupted; the flag says
      whether there was none. */
  function HandleAll(c: Cursor, batch: seq<int>, envs: seq<Env>): (Cursor, bool)
    requires |batch| <= |envs| && AreKnown(c.log, batch)
    decreases |batch|
  {
    if batch == [] then (c, true)
    else
      var u := c.log.arrived[batch[0]];
      if FateOf(u, envs[0]) == Interrupted then (c, false)
      else HandleAll(Cursor(Settle(c.log, batch[0], envs[0]), Advance(c.offset, batch[0])), batch[1..], envs[1..])
  }

  function Handlings(batch: seq<int>, envs: seq<Env>, m: nat): seq<Handling>
    requires m <= |batch| <= |envs|
  {
    seq(m, k requires 0 <= k < m => Handling(batch[k], envs[k]))
  }

  lemma HandlingsCons(batch: seq<int>, envs: seq<Env>, n: nat)
    requires n < |batch| <= |envs|
    ensures Handlings(batch, envs, n + 1) == [Handling(batch[0], envs[0])] + Handlings(batch[1..], envs[1..], n)
  {
  }

  /** How many updates of a batch are settled: all in front of the first interrupted one. */
  function SettledOf(arrived: map<int, Update>, batch: seq<int>, envs: seq<Env>): (m: nat)
    requires |batch| <= |envs| && forall i :: 0 <= i < |batch| ==> batch[i] in arrived
    ensures m <= |batch| && forall k :: 0 <= k < m ==> FateOf(arrived[batch[k]], envs[k]) != Interrupted
    ensures m < |batch| ==> FateOf(arrived[batch[m]], envs[m]) == Interrupted
    decreases |batch|
  {
    if batch == [] || FateOf(arrived[batch[0]], envs[0]) == Interrupted then 0
    else 1 + SettledOf(arrived, batch[1..], envs[1..])
  }

  lemma Assoc<T>(a: seq<T>, b: seq<T>, c: seq<T>)
    ensures a + b + c == a + (b + c)
  {
  }

  lemma {:induction false} PublishedCons(arrived: map<int, Update>, h: Handling, history: seq<Handling>)
    ensures PublishedBy(arrived, [h] + history) == PublishedBy(arrived, [h]) + PublishedBy(arrived, history)
    ensures PublishedBy(arrived, [h]) == if IsPublishedBy(arrived, h) then [h.id] else []
  {
    assert [h][..0] == [];
    if history == [] {
      assert [h] + history == [h];
    } else {
      var front, last := history[..|history| - 1], history[|history| - 1];
      PublishedCons(arrived, h, front);
      PublishedSnoc(arrived, [h] + front, last);
      PublishedSnoc(arrived, front, last);
      assert history == front + [last];
      Assoc([h], front, [last]);
      Assoc(PublishedBy(arrived, [h]), PublishedBy(arrived, front),
            if IsPublishedBy(arrived, last) then [last.id] else []);
    }
  }

  function Append(log: Log, news: seq<Handling>): Log {
    log.(history := log.history + news, accepted := log.accepted + PublishedBy(log.arrived, news))
  }

  lemma SettleIsAppend(log: Log, id: int, env: Env, news: seq<Handling>)
    requires id in log.arrived && FateOf(log.arrived[id], env) != Interrupted
    ensures Append(Settle(log, id, env), news) == Append(log, [Handling(id, env)] + news)
  {
    var h := Handling(id, env);
    PublishedCons(log.arrived, h, news);
    Assoc(log.history, [h], news);
    Assoc(log.accepted, PublishedBy(log.arrived, [h]), PublishedBy(log.arrived, news));
    assert Settle(log, id, env).accepted == log.accepted + PublishedBy(log.arrived, [h]);
  }

  /** What a batch does: those updates are settled, each under its own environment, and nothing else
      changes; the loop goes on if there was no other. */
  lemma {:induction false} HandleAllMeaning(c: Cursor, batch: seq<int>, envs: seq<Env>)
    requires |batch| <= |envs| && AreKnown(c.log, batch)
    ensures HandleAll(c, batch, envs).0.log ==
            Append(c.log, Handlings(batch, envs, SettledOf(c.log.arrived, batch, envs)))
    ensures HandleAll(c, batch, envs).1 <==> SettledOf(c.log.arrived, batch, envs) == |batch|
    decreases |batch|
  {
    var m := SettledOf(c.log.arrived, batch, envs);
    if m == 0 {
      assert Handlings(batch, envs, 0) == [];
      assert Append(c.log, []) == c.log;
    } else {
      var next := Cursor(Settle(c.log, batch[0], envs[0]), Advance(c.offset, batch[0]));
      HandleAllMeaning(next, batch[1..], envs[1..]);
      HandlingsCons(batch, envs, m - 1);
      SettleIsAppend(c.log, batch[0], envs[0], Handlings(batch[1..], envs[1..], m - 1));
    }
  }

  /** A batch as getUpdates returns it: ascending, from the offset on, and without a gap. */
  ghost predicate IsBatch(c: Cursor, batch: seq<int>) {
    && AreKnown(c.log, batch)
    && (forall i :: 0 <= i < |batch| ==> c.offset <= batch[i])
    && (forall i, j :: 0 <= i < j < |batch| ==> batch[i] < batch[j])
    && (forall i, id :: 0 <= i < |batch| && id in c.log.arrived && id < batch[i] ==>
        id in batch || id in Handled(c.log.history))
  }

  /** What may happen between two states of one run: new updates, requests, and updates from `from` on that
      reach the sink in ascending order. */
  ghost predicate Follows(before: Log, after: Log, from: int, to: int, published: seq<int>) {
    && from <= to
    && (forall id :: id in before.arrived ==> id in after.arrived && after.arrived[id] == before.arrived[id])
    && before.history <= after.history
    && (after.confirmed == before.confirmed || (before.confirmed < after.confirmed <= to))
    && after.accepted == before.accepted + published
    && (forall i, j :: 0 <= i < j < |published| ==> published[i] < published[j])
    && (forall i :: 0 <= i < |published| ==> published[i] in after.arrived && from <= published[i] < to)
  }

  lemma FollowsTransitively(first: Log, log: Log, last: Log, from: int, mid: int, to: int, published: seq<int>,
                            more: seq<int>)
    requires Follows(first, log, from, mid, published) && Follows(log, last, mid, to, more)
    ensures Follows(first, last, from, to, published + more)
  {
    var all := published + more;
    assert first.accepted + published + more == first.accepted + all;
    assert forall i :: 0 <= i < |all| ==> all[i] == if i < |published| then published[i] else more[i - |published|];
  }

  lemma SettleFollows(c: Cursor, id: int, env: Env)
    requires id in c.log.arrived && c.offset <= id && FateOf(c.log.arrived[id], env) != Interrupted
    ensures Follows(c.log, Settle(c.log, id, env), c.offset, id + 1,
                    if FateOf(c.log.arrived[id], env) == Published then [id] else [])
  {
  }

  /** A batch keeps the accounts: the offset is behind everything it settled, and the rest of the batch is
      left to fetch. */
  lemma {:induction false} BatchKeepsGood(c: Cursor, batch: seq<int>, envs: seq<Env>) returns (published: seq<int>)
    requires Good(c.log, c.offset) && IsBatch(c, batch) && |batch| <= |envs|
    ensures var after := HandleAll(c, batch, envs).0;
            && Good(after.log, after.offset)
            && Follows(c.log, after.log, c.offset, after.offset, published)
    decreases |batch|
  {
    published := [];
    if batch != [] {
      var id := batch[0];
      var u := c.log.arrived[id];
      if FateOf(u, envs[0]) != Interrupted {
        var next := Cursor(Settle(c.log, id, envs[0]), id + 1);
        FirstOfBatch(c, batch, envs[0]);
        var more := BatchKeepsGood(next, batch[1..], envs[1..]);
        SettleFollows(c, id, envs[0]);
        var after := HandleAll(next, batch[1..], envs[1..]).0;
        published := if FateOf(u, envs[0]) == Published then [id] else [];
        FollowsTransitively(c.log, next.log, after.log, c.offset, id + 1, after.offset, published, more);
        published := published + more;
      }
    }
  }

  /** After a batch that was not interrupted the offset is behind all of it, and all of it is handled. */
  lemma {:induction false} BatchIsBehind(c: Cursor, batch: seq<int>, envs: seq<Env>, i: nat)
    requires AreKnown(c.log, batch) && i < |batch| <= |envs| && HandleAll(c, batch, envs).1
    ensures batch[i] < HandleAll(c, batch, envs).0.offset
    decreases |batch|
  {
    var next := Cursor(Settle(c.log, batch[0], envs[0]), Advance(c.offset, batch[0]));
    if i > 0 {
      BatchIsBehind(next, batch[1..], envs[1..], i - 1);
    } else {
      OffsetGrows(next, batch[1..], envs[1..]);
    }
  }

  lemma {:induction false} OffsetGrows(c: Cursor, batch: seq<int>, envs: seq<Env>)
    requires AreKnown(c.log, batch) && |batch| <= |envs|
    ensures HandleAll(c, batch, envs).0.offset >= c.offset
    decreases |batch|
  {
    if batch != [] && FateOf(c.log.arrived[batch[0]], envs[0]) != Interrupted {
      OffsetGrows(Cursor(Settle(c.log, batch[0], envs[0]), Advance(c.offset, batch[0])), batch[1..], envs[1..]);
    }
  }

  lemma FirstOfBatch(c: Cursor, batch: seq<int>, env: Env)
    requires Good(c.log, c.offset) && IsBatch(c, batch) && batch != []
             && FateOf(c.log.arrived[batch[0]], env) != Interrupted
    ensures var next := Cursor(Settle(c.log, batch[0], env), batch[0] + 1);
            Good(next.log, next.offset) && IsBatch(next, batch[1..])
  {
    var id := batch[0];
    var next := Cursor(Settle(c.log, id, env), id + 1);
    assert batch == [id] + batch[1..];
    assert forall i :: 0 <= i < |batch| - 1 ==> batch[1..][i] == batch[i + 1];
    assert forall i :: 0 < i < |batch| ==> batch[0] < batch[i];
    assert forall x :: x in c.log.arrived && x < id ==> x in Handled(c.log.history);
    SettleKeepsGood(c.log, c.offset, id, env);
    HandledSnoc(c.log.history, Handling(id, env));
    forall i, x | 0 <= i < |batch| - 1 && x in next.log.arrived && x < batch[1..][i]
      ensures x in batch[1..] || x in Handled(next.log.history)
    {
      assert batch[1..][i] == batch[i + 1];
    }
  }

  // ----- One pass of the outer loop

  /** What happens around the poll loop: an update arrives, or one pass is made. */
  datatype Event =
    | Arrival(u: Update)
    | ContextDone
    // whether the Bot API saw the request, and whether it names a duplicate bot
    | PollFails(reached: bool, duplicate: bool)
    | Poll(n: nat, envs: seq<Env>)               // at most n updates are returned

  datatype Exit = Cancelled | DuplicateBot

  /** Ids go up, and a batch comes with what happens to each update. */
  predicate IsFair(e: Event, log: Log) {
    match e
    case Arrival(u) => u.id >= log.next && u.id > 0
    case Poll(n, envs) => n <= |envs|
    case _ => true
  }

  /** The request of getUpdates as the Bot API sees it. */
  function Request(c: Cursor): Cursor { Cursor(Confirm(c.log, c.offset), c.offset) }

  function Polled(c: Cursor, n: nat, envs: seq<Env>): (Cursor, bool)
    requires n <= |envs|
  {
    HandleAll(Request(c), Answer(Request(c).log, n), envs)
  }

  /** `None` means that the loop goes on. */
  function OnePass(c: Cursor, e: Event): (Cursor, Option<Exit>)
    requires IsFair(e, c.log)
  {
    match e
    case Arrival(u) => (Cursor(Arrive(c.log, u), c.offset), None)
    case ContextDone => (c, Some(Cancelled))
    case PollFails(reached, duplicate) =>
      (if reached then Request(c) else c, if duplicate then Some(DuplicateBot) else None)
    case Poll(n, envs) =>
      var (after, goOn) := Polled(c, n, envs);
      (after, if goOn then None else Some(Cancelled))
  }

  lemma AnswerIsBatch(c: Cursor, n: nat)
    requires Good(c.log, c.offset)
    ensures IsBatch(Request(c), Answer(Request(c).log, n))
  {
    var batch := Answer(Request(c).log, n);
    forall i, id | 0 <= i < |batch| && id in c.log.arrived && id < batch[i]
      ensures id in batch || id in Handled(c.log.history)
    {
    }
  }

  lemma PassKeepsGood(c: Cursor, e: Event) returns (published: seq<int>)
    requires Good(c.log, c.offset) && IsFair(e, c.log)
    ensures Good(OnePass(c, e).0.log, OnePass(c, e).0.offset)
    ensures Follows(c.log, OnePass(c, e).0.log, c.offset, OnePass(c, e).0.offset, published)
  {
    published := [];
    match e
    case Arrival(u) => ArriveKeepsGood(c.log, c.offset, u);
    case ContextDone =>
    case PollFails(reached, _) => ConfirmKeepsGood(c.log, c.offset);
    case Poll(n, envs) =>
      ConfirmKeepsGood(c.log, c.offset);
      AnswerIsBatch(c, n);
      published := BatchKeepsGood(Request(c), Answer(Request(c).log, n), envs);
      FollowsTransitively(c.log, Request(c).log, OnePass(c, e).0.log, c.offset, c.offset, OnePass(c, e).0.offset, [],
                          published);
      assert [] + published == published;
  }
}
