/** The long-poll cursor against the Bot API and the sink as a labelled transition system, over any
    arrivals, poll and publish failures, cancellations, crashes and restarts from offset 0. */
module TelegramRuns {
  import opened Text
  import opened TelegramLog

  // ----- Runs with restarts and crashes

  /** `running` is whether a channel is polling; its offset dies with it. */
  datatype State = State(cursor: Cursor, running: bool)

  datatype Label =
    | Start                                    // a new channel, with offset 0
    | During(e: Event)
    | Crash(n: nat, envs: seq<Env>, k: nat)    // the process dies when `k` updates of a batch are settled

  const INITIAL := State(Cursor(EMPTY_LOG, 0), false)

  predicate Enabled(l: Label, s: State) {
    match l
    case Start => !s.running
    case During(e) => (e.Arrival? || s.running) && IsFair(e, s.cursor.log)
    case Crash(n, envs, k) => s.running && n <= |envs| && k <= |Answer(Request(s.cursor).log, n)|
  }

  function Apply(l: Label, s: State): State
    requires Enabled(l, s)
  {
    match l
    case Start => State(Cursor(s.cursor.log, 0), true)
    case During(e) =>
      var (after, exit) := OnePass(s.cursor, e);
      State(after, s.running && exit == None)
    case Crash(n, envs, k) => State(HandleAll(Request(s.cursor), Answer(Request(s.cursor).log, n)[..k], envs).0, false)
  }

  ghost predicate IsRun(ss: seq<State>, ls: seq<Label>) {
    && |ss| == |ls| + 1 && ss[0] == INITIAL
    && forall i {:trigger ls[i]} :: 0 <= i < |ls| ==> Enabled(ls[i], ss[i]) && ss[i + 1] == Apply(ls[i], ss[i])
  }

  ghost predicate Inv(s: State) { Good(s.cursor.log, s.cursor.offset) }

  lemma PrefixIsBatch(c: Cursor, batch: seq<int>, k: nat)
    requires IsBatch(c, batch) && k <= |batch|
    ensures IsBatch(c, batch[..k])
  {
    var front := batch[..k];
    forall i, id | 0 <= i < k && id in c.log.arrived && id < front[i]
      ensures id in front || id in Handled(c.log.history)
    {
      if id in batch {
        var j :| 0 <= j < |batch| && batch[j] == id;
        assert front[i] == batch[i] && forall m :: i < m < |batch| ==> batch[i] < batch[m];
        assert front[j] == id;
      }
    }
  }

  /** One step keeps the accounts; only a start takes the offset back. */
  lemma InvStep(l: Label, s: State) returns (published: seq<int>)
    requires Inv(s) && Enabled(l, s)
    ensures Inv(Apply(l, s))
    ensures !l.Start? ==>
              Follows(s.cursor.log, Apply(l, s).cursor.log, s.cursor.offset, Apply(l, s).cursor.offset, published)
    ensures l.Start? ==> Apply(l, s).cursor == Cursor(s.cursor.log, 0) && published == []
  {
    match l
    case Start =>
      published := [];
      RestartIsGood(s.cursor.log, s.cursor.offset);
    case During(e) => published := PassKeepsGood(s.cursor, e);
    case Crash(n, envs, k) =>
      var asked := Request(s.cursor);
      ConfirmKeepsGood(s.cursor.log, s.cursor.offset);
      AnswerIsBatch(s.cursor, n);
      PrefixIsBatch(asked, Answer(asked.log, n), k);
      published := BatchKeepsGood(asked, Answer(asked.log, n)[..k], envs);
      FollowsTransitively(s.cursor.log, asked.log, Apply(l, s).cursor.log, asked.offset, asked.offset,
                          Apply(l, s).cursor.offset, [], published);
      assert [] + published == published;
  }

  lemma {:induction false} InvOnRun(ss: seq<State>, ls: seq<Label>, i: nat)
    requires IsRun(ss, ls) && i <= |ls|
    ensures Inv(ss[i])
  {
    if i > 0 {
      InvOnRun(ss, ls, i - 1);
      var _ := InvStep(ls[i - 1], ss[i - 1]);
    }
  }

  /** Between two starts the offset never decreases, requests confirm only below it, and the updates reach
      the sink in order and at most once. */
  lemma {:induction false} OneRunIsInOrder(ss: seq<State>, ls: seq<Label>, i: nat, j: nat) returns (published: seq<int>)
    requires IsRun(ss, ls) && i <= j <= |ls| && forall k :: i <= k < j ==> ls[k] != Start
    ensures Follows(ss[i].cursor.log, ss[j].cursor.log, ss[i].cursor.offset, ss[j].cursor.offset, published)
    decreases j
  {
    published := [];
    InvOnRun(ss, ls, i);
    if i < j {
      published := OneRunIsInOrder(ss, ls, i, j - 1);
      InvOnRun(ss, ls, j - 1);
      assert ls[j - 1] != Start && ss[j] == Apply(ls[j - 1], ss[j - 1]);
      var more := InvStep(ls[j - 1], ss[j - 1]);
      FollowsTransitively(ss[i].cursor.log, ss[j - 1].cursor.log, ss[j].cursor.log, ss[i].cursor.offset,
                          ss[j - 1].cursor.offset, ss[j].cursor.offset, published, more);
      published := published + more;
    }
  }

  /** An update that has arrived is never altered or removed, across restarts too. */
  lemma {:induction false} ArrivalsStay(ss: seq<State>, ls: seq<Label>, i: nat, j: nat)
    requires IsRun(ss, ls) && i <= j <= |ls|
    ensures forall id :: id in ss[i].cursor.log.arrived ==>
              id in ss[j].cursor.log.arrived && ss[j].cursor.log.arrived[id] == ss[i].cursor.log.arrived[id]
    ensures ss[i].cursor.log.history <= ss[j].cursor.log.history
              && ss[i].cursor.log.accepted <= ss[j].cursor.log.accepted
    decreases j
  {
    if i < j {
      ArrivalsStay(ss, ls, i, j - 1);
      InvOnRun(ss, ls, j - 1);
      assert ss[j] == Apply(ls[j - 1], ss[j - 1]);
      var _ := InvStep(ls[j - 1], ss[j - 1]);
    }
  }

  /** The Bot API holds exactly the updates of the Arrival labels. */
  lemma {:induction false} ArrivedExactly(ss: seq<State>, ls: seq<Label>, i: nat, u: Update)
    requires IsRun(ss, ls) && i <= |ls|
    ensures During(Arrival(u)) in ls[..i] <==> u.id in ss[i].cursor.log.arrived && ss[i].cursor.log.arrived[u.id] == u
  {
    if i > 0 {
      ArrivedExactly(ss, ls, i - 1, u);
      InvOnRun(ss, ls, i - 1);
      var l, s := ls[i - 1], ss[i - 1];
      assert ls[..i] == ls[..i - 1] + [l] && ss[i] == Apply(l, s);
      ArrivedStep(l, s);
    }
  }

  lemma ArrivedStep(l: Label, s: State)
    requires Inv(s) && Enabled(l, s)
    ensures Apply(l, s).cursor.log.arrived ==
              if l.During? && l.e.Arrival? then s.cursor.log.arrived[l.e.u.id := l.e.u] else s.cursor.log.arrived
    ensures l.During? && l.e.Arrival? ==> l.e.u.id !in s.cursor.log.arrived
  {
    match l
    case During(Poll(n, envs)) =>
      HandleAllMeaning(Request(s.cursor), Answer(Request(s.cursor).log, n), envs);
    case Crash(n, envs, k) =>
      HandleAllMeaning(Request(s.cursor), Answer(Request(s.cursor).log, n)[..k], envs);
    case _ =>
  }

  // ----- What holds in every reachable state

  /** The batch that a poll hands over, as far as the process lives to handle it, and what happens then to
      each of its updates. */
  function BatchOf(l: Label, s: State): (r: (seq<int>, seq<Env>))
    requires Enabled(l, s)
    ensures |r.0| <= |r.1|
  {
    match l
    case During(Poll(n, envs)) => (Answer(Request(s.cursor).log, n), envs)
    case Crash(n, envs, k) => (Answer(Request(s.cursor).log, n)[..k], envs)
    case _ => ([], [])
  }

  /** The poll hands over the update, and `env` is what happens while this one is handled. */
  predicate OffersTo(l: Label, s: State, id: int, env: Env)
    requires Enabled(l, s)
  {
    var (batch, envs) := BatchOf(l, s);
    exists k :: 0 <= k < |batch| && batch[k] == id && envs[k] == env
  }

  lemma HandlingsAreOffered(batch: seq<int>, envs: seq<Env>, m: nat, h: Handling)
    requires m <= |batch| <= |envs| && h in Handlings(batch, envs, m)
    ensures exists k :: 0 <= k < |batch| && batch[k] == h.id && envs[k] == h.env
  {
    var k :| 0 <= k < m && Handlings(batch, envs, m)[k] == h;
    assert batch[k] == h.id && envs[k] == h.env;
  }

  lemma NewHandlings(l: Label, s: State, h: Handling)
    requires Enabled(l, s) && h in Apply(l, s).cursor.log.history && h !in s.cursor.log.history
    ensures OffersTo(l, s, h.id, h.env)
  {
    if (l.During? && l.e.Poll?) || l.Crash? {
      var (batch, envs) := BatchOf(l, s);
      HandleAllMeaning(Request(s.cursor), batch, envs);
      HandlingsAreOffered(batch, envs, SettledOf(s.cursor.log.arrived, batch, envs), h);
    }
  }

  /** Whatever the history records was handled in a poll of this run that handed over this very update, and
      under what happened to it then. */
  lemma {:induction false} HandlingsCameFromPolls(ss: seq<State>, ls: seq<Label>, i: nat, h: Handling) returns (j: nat)
    requires IsRun(ss, ls) && i <= |ls| && h in ss[i].cursor.log.history
    ensures j < i && Enabled(ls[j], ss[j]) && OffersTo(ls[j], ss[j], h.id, h.env)
    ensures h !in ss[j].cursor.log.history && h in ss[j + 1].cursor.log.history
    decreases i
  {
    assert i > 0;
    assert ss[i] == Apply(ls[i - 1], ss[i - 1]);
    if h in ss[i - 1].cursor.log.history {
      j := HandlingsCameFromPolls(ss, ls, i - 1, h);
    } else {
      NewHandlings(ls[i - 1], ss[i - 1], h);
      j := i - 1;
    }
  }

  /** An update that the Bot API has forgotten was below the offset of an earlier request ... */
  lemma {:induction false} ForgottenWasRequested(ss: seq<State>, ls: seq<Label>, i: nat, id: int) returns (j: nat)
    requires IsRun(ss, ls) && i <= |ls| && 0 < id < ss[i].cursor.log.confirmed
    ensures j < i && id < ss[j].cursor.offset && ss[j].running && MakesRequest(ls[j])
    decreases i
  {
    assert i > 0;
    var l, s := ls[i - 1], ss[i - 1];
    assert ss[i] == Apply(l, s);
    if id < s.cursor.log.confirmed {
      j := ForgottenWasRequested(ss, ls, i - 1, id);
    } else {
      ConfirmedStep(l, s);
      j := i - 1;
    }
  }

  predicate MakesRequest(l: Label) {
    l.Crash? || (l.During? && (l.e.Poll? || (l.e.PollFails? && l.e.reached)))
  }

  lemma ConfirmedStep(l: Label, s: State)
    requires Enabled(l, s)
    ensures Apply(l, s).cursor.log.confirmed ==
              if MakesRequest(l) && s.cursor.offset > s.cursor.log.confirmed then s.cursor.offset
              else s.cursor.log.confirmed
  {
    match l
    case During(Poll(n, envs)) => HandleAllMeaning(Request(s.cursor), Answer(Request(s.cursor).log, n), envs);
    case Crash(n, envs, k) => HandleAllMeaning(Request(s.cursor), Answer(Request(s.cursor).log, n)[..k], envs);
    case _ =>
  }

  /** ... and it was handled in this run: in a poll that handed it over, and under what happened to it there,
      it was to be published, and the sink has accepted it, or it met the condition of a skip rule. */
  lemma ForgottenWasHandled(ss: seq<State>, ls: seq<Label>, i: nat, id: int) returns (j: nat, h: Handling)
    requires IsRun(ss, ls) && i <= |ls| && id in ss[i].cursor.log.arrived && id < ss[i].cursor.log.confirmed
    ensures j < i && Enabled(ls[j], ss[j]) && OffersTo(ls[j], ss[j], id, h.env)
    ensures h in ss[j + 1].cursor.log.history && h.id == id
    ensures match FateOf(ss[i].cursor.log.arrived[id], h.env)
            case Published => id in ss[i].cursor.log.accepted
            case Skipped(rule) => RuleApplies(rule, ss[i].cursor.log.arrived[id], h.env)
            case Interrupted => false
  {
    InvOnRun(ss, ls, i);
    h := NothingIsLost(ss[i].cursor.log, id);
    j := HandlingsCameFromPolls(ss, ls, i, h);
  }

  /** No publishable update is lost: one that no poll of the run has a reason to skip when it is handed over
      is accepted by the sink before the Bot API forgets it, whatever failed, was cancelled, crashed or was
      restarted, and whatever happens to other updates. */
  lemma PublishableIsAccepted(ss: seq<State>, ls: seq<Label>, i: nat, id: int)
    requires IsRun(ss, ls) && i <= |ls| && id in ss[i].cursor.log.arrived && id < ss[i].cursor.log.confirmed
    requires forall j, env :: 0 <= j < i && Enabled(ls[j], ss[j]) && OffersTo(ls[j], ss[j], id, env) ==>
               !FateOf(ss[i].cursor.log.arrived[id], env).Skipped?
    ensures id in ss[i].cursor.log.accepted
  {
    var j, h := ForgottenWasHandled(ss, ls, i, id);
    assert OffersTo(ls[j], ss[j], id, h.env);
  }

  /** The sink holds what the history published and nothing else. */
  lemma AcceptedExactly(ss: seq<State>, ls: seq<Label>, i: nat)
    requires IsRun(ss, ls) && i <= |ls|
    ensures ss[i].cursor.log.accepted == PublishedBy(ss[i].cursor.log.arrived, ss[i].cursor.log.history)
  {
    InvOnRun(ss, ls, i);
  }

  /** A poll that may return all the updates its request leaves open, and is not interrupted, leaves nothing
      behind: every update that has arrived is handled, and the next request confirms all of them. */
  lemma FullPollHandlesAll(ss: seq<State>, ls: seq<Label>, i: nat, id: int)
    requires IsRun(ss, ls) && i < |ls| && ls[i].During? && ls[i].e.Poll?
    requires ls[i].e.n >= |OpenUpdates(Request(ss[i].cursor).log)|
    requires ss[i + 1].running && id in ss[i].cursor.log.arrived
    ensures id in Handled(ss[i + 1].cursor.log.history)
    ensures ss[i].cursor.log.confirmed <= id && ss[i].cursor.offset <= id ==> id < ss[i + 1].cursor.offset
  {
    InvOnRun(ss, ls, i);
    var c, n, envs := ss[i].cursor, ls[i].e.n, ls[i].e.envs;
    var asked := Request(c);
    assert ss[i + 1] == Apply(ls[i], ss[i]);
    ConfirmKeepsGood(c.log, c.offset);
    var batch := Answer(asked.log, n);
    HandleAllMeaning(asked, batch, envs);
    if id >= asked.log.confirmed {
      AnswerIsAll(asked.log, n, id);
      var k :| 0 <= k < |batch| && batch[k] == id;
      BatchIsBehind(asked, batch, envs, k);
      assert Handlings(batch, envs, |batch|)[k] in ss[i + 1].cursor.log.history;
    } else {
      HandledGrows(asked.log.history, ss[i + 1].cursor.log.history);
    }
  }

  lemma HandledGrows(history: seq<Handling>, longer: seq<Handling>)
    requires history <= longer
    ensures Handled(history) <= Handled(longer)
  {
    assert forall h :: h in history ==> h in longer;
  }

  lemma AnswerIsAll(log: Log, n: nat, id: int)
    requires id in OpenUpdates(log) && n >= |OpenUpdates(log)|
    ensures id in Answer(log, n)
  {
    LowestIsAll(OpenUpdates(log), n);
  }

  lemma {:induction false} LowestIsAll(ids: set<int>, n: nat)
    requires n >= |ids|
    ensures forall x :: x in ids ==> x in Lowest(ids, n)
  {
    if |ids| > 0 {
      LowestIsAll(ids - {Min(ids)}, n - 1);
    }
  }

  // ----- When a channel stops

  /** An update in a batch at which the loop gives up: the context ends although nothing keeps the update from
      being published. */
  predicate EndsAt(log: Log, batch: seq<int>, envs: seq<Env>, k: nat)
    requires k < |batch| <= |envs| && AreKnown(log, batch)
  {
    envs[k].cancelled && forall rule :: !RuleApplies(rule, log.arrived[batch[k]], envs[k])
  }

  lemma GoesOn(c: Cursor, batch: seq<int>, envs: seq<Env>)
    requires |batch| <= |envs| && AreKnown(c.log, batch)
    ensures HandleAll(c, batch, envs).1 <==> forall k: nat :: k < |batch| ==> !EndsAt(c.log, batch, envs, k)
  {
    HandleAllMeaning(c, batch, envs);
    var m := SettledOf(c.log.arrived, batch, envs);
    forall k: nat | k < |batch| {
      FateMeaning(c.log.arrived[batch[k]], envs[k]);
    }
    if m < |batch| { assert EndsAt(c.log, batch, envs, m); }
  }

  /** A channel stops when its context is done, when the Bot API names a duplicate, when its process dies, and
      when the context ends while an update is waiting to be published; failed polls and publishes do not
      stop it. */
  lemma ChannelStopsIff(ss: seq<State>, ls: seq<Label>, i: nat)
    requires IsRun(ss, ls) && i < |ls| && ss[i].running
    ensures !ss[i + 1].running <==>
              match ls[i]
              case Crash(_, _, _) => true
              case During(ContextDone) => true
              case During(PollFails(_, duplicate)) => duplicate
              case During(Poll(n, envs)) =>
                var log := Request(ss[i].cursor).log;
                exists k: nat :: k < |Answer(log, n)| && EndsAt(log, Answer(log, n), envs, k)
              case _ => false
  {
    assert ss[i + 1] == Apply(ls[i], ss[i]);
    match ls[i]
    case During(Poll(n, envs)) => GoesOn(Request(ss[i].cursor), Answer(Request(ss[i].cursor).log, n), envs);
    case _ =>
  }

  /** A poll during which the context does not end publishes every update it hands over that no rule skips,
      however often publishing fails, and the channel goes on. */
  lemma UncancelledPollPublishes(ss: seq<State>, ls: seq<Label>, i: nat, k: nat)
    requires IsRun(ss, ls) && i < |ls| && ls[i].During? && ls[i].e.Poll?
    requires k < |BatchOf(ls[i], ss[i]).0| && forall env :: env in ls[i].e.envs ==> !env.cancelled
    ensures ss[i + 1].running
    ensures var id := BatchOf(ls[i], ss[i]).0[k];
            (forall rule :: !RuleApplies(rule, ss[i].cursor.log.arrived[id], ls[i].e.envs[k])) ==>
              id in ss[i + 1].cursor.log.accepted
  {
    var c, n, envs := Request(ss[i].cursor), ls[i].e.n, ls[i].e.envs;
    var batch := Answer(c.log, n);
    assert ss[i + 1] == Apply(ls[i], ss[i]);
    assert forall j: nat :: j < |batch| ==> envs[j] in envs && !EndsAt(c.log, batch, envs, j);
    GoesOn(c, batch, envs);
    HandleAllMeaning(c, batch, envs);
    InvOnRun(ss, ls, i + 1);
    FateMeaning(c.log.arrived[batch[k]], envs[k]);
    var h := Handling(batch[k], envs[k]);
    assert Handlings(batch, envs, |batch|)[k] == h;
    if FateOf(c.log.arrived[batch[k]], envs[k]) == Published {
      var after := ss[i + 1].cursor.log;
      assert h in after.history && IsPublishedBy(after.arrived, h);
      PublishedMeaning(after.arrived, after.history, h);
    }
  }

  lemma Extend(ss: seq<State>, ls: seq<Label>, l: Label) returns (ss': seq<State>, ls': seq<Label>)
    requires IsRun(ss, ls) && Enabled(l, ss[|ls|])
    ensures IsRun(ss', ls') && ls' == ls + [l] && ss'[|ls'|] == Apply(l, ss[|ls|])
  {
    ss', ls' := ss + [Apply(l, ss[|ls|])], ls + [l];
  }

  // ----- Delivery is at least once

  lemma OneAnswer(log: Log, id: int)
    requires log.arrived.Keys == {id} && log.confirmed <= id
    ensures Answer(log, 1) == [id]
  {
    assert OpenUpdates(log) == {id};
    AnswerIsAll(log, 1, id);
  }

  /** One update, published by two processes: the first one stops before it can confirm. */
  lemma RestartPublishesTwice() returns (ss: seq<State>, ls: seq<Label>)
    ensures IsRun(ss, ls) && ss[|ls|].cursor.log.accepted == [1, 1]
  {
    var u := Update(1, false, Some(Message(7, "hi", "", false)));
    var env := Env(0, None, true, 0, false);
    ss, ls := Extend([INITIAL], [], During(Arrival(u)));
    ss, ls := Extend(ss, ls, Start);
    OneAnswer(ss[|ls|].cursor.log, 1);
    ss, ls := Extend(ss, ls, During(Poll(1, [env])));
    assert ss[|ls|] == State(Cursor(Log(map[1 := u], 2, 0, [1], [Handling(1, env)]), 2), true);
    ss, ls := Extend(ss, ls, During(ContextDone));
    ss, ls := Extend(ss, ls, Start);
    OneAnswer(ss[|ls|].cursor.log, 1);
    ss, ls := Extend(ss, ls, During(Poll(1, [env])));
  }
}
