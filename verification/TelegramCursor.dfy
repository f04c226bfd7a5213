/** The poll loop of the Telegram channel (channel/telegram.go): scripts of what happens around it, as part
    of a run, and the channel object that carries them out. */
module TelegramCursor {
  import opened Text
  import opened TelegramLog
  import opened TelegramRuns

  // ----- Scripts: one run of StartWithEventSink, and several with restarts

  /** A run until the loop returns; the end of the script stands for a context that is done. */
  function RunScript(c: Cursor, script: seq<Event>): (Cursor, Exit)
    requires IsFairScript(c, script)
    decreases |script|
  {
    if script == [] then (c, Cancelled)
    else
      var (next, exit) := OnePass(c, script[0]);
      if exit.Some? then (next, exit.value) else RunScript(next, script[1..])
  }

  predicate IsFairScript(c: Cursor, script: seq<Event>)
    decreases |script|
  {
    script == []
    || (IsFair(script[0], c.log)
        && (OnePass(c, script[0]).1 == None ==> IsFairScript(OnePass(c, script[0]).0, script[1..])))
  }

  /** One process after the other, each with a new channel. */
  function RunScripts(log: Log, scripts: seq<seq<Event>>): Log
    requires AreFairScripts(log, scripts)
    decreases |scripts|
  {
    if scripts == [] then log else RunScripts(RunScript(Cursor(log, 0), scripts[0]).0.log, scripts[1..])
  }

  predicate AreFairScripts(log: Log, scripts: seq<seq<Event>>)
    decreases |scripts|
  {
    scripts == []
    || (IsFairScript(Cursor(log, 0), scripts[0])
        && AreFairScripts(RunScript(Cursor(log, 0), scripts[0]).0.log, scripts[1..]))
  }

  lemma {:induction false} ScriptKeepsGood(c: Cursor, script: seq<Event>) returns (published: seq<int>)
    requires Good(c.log, c.offset) && IsFairScript(c, script)
    ensures var after := RunScript(c, script).0;
            Good(after.log, after.offset) && Follows(c.log, after.log, c.offset, after.offset, published)
    decreases |script|
  {
    published := [];
    if script != [] {
      var (next, exit) := OnePass(c, script[0]);
      published := PassKeepsGood(c, script[0]);
      if exit == None {
        var more := ScriptKeepsGood(next, script[1..]);
        var after := RunScript(c, script).0;
        FollowsTransitively(c.log, next.log, after.log, c.offset, next.offset, after.offset, published, more);
        published := published + more;
      }
    }
  }

  /** A script that is run from a reachable state with a running channel is part of a run. */
  lemma {:induction false} ScriptIsPartOfARun(ss: seq<State>, ls: seq<Label>, script: seq<Event>)
    returns (ss': seq<State>, ls': seq<Label>)
    requires IsRun(ss, ls) && ss[|ls|].running && IsFairScript(ss[|ls|].cursor, script)
    ensures IsRun(ss', ls') && ls <= ls'
    ensures ss'[|ls'|] == State(RunScript(ss[|ls|].cursor, script).0, false)
    decreases |script|
  {
    if script == [] {
      ss', ls' := Extend(ss, ls, During(ContextDone));
    } else {
      ss', ls' := Extend(ss, ls, During(script[0]));
      if ss'[|ls'|].running {
        ss', ls' := ScriptIsPartOfARun(ss', ls', script[1..]);
      }
    }
  }

  /** What several processes leave behind is the last state of a run, so that everything above holds of it. */
  lemma {:induction false} ScriptsAreARun(ss: seq<State>, ls: seq<Label>, scripts: seq<seq<Event>>)
    returns (ss': seq<State>, ls': seq<Label>)
    requires IsRun(ss, ls) && !ss[|ls|].running && AreFairScripts(ss[|ls|].cursor.log, scripts)
    ensures IsRun(ss', ls') && ls <= ls'
    ensures !ss'[|ls'|].running && ss'[|ls'|].cursor.log == RunScripts(ss[|ls|].cursor.log, scripts)
    decreases |scripts|
  {
    ss', ls' := ss, ls;
    if scripts != [] {
      ss', ls' := Extend(ss', ls', Start);
      ss', ls' := ScriptIsPartOfARun(ss', ls', scripts[0]);
      ss', ls' := ScriptsAreARun(ss', ls', scripts[1..]);
    }
  }

  // ----- The channel

  class World {
    var log: Log

    constructor ()
      ensures log == EMPTY_LOG
    {
      log := EMPTY_LOG;
    }
  }

  const INITIAL_BACKOFF := 1
  const MAX_BACKOFF := 60

  function NextBackoff(backoff: nat): nat { if backoff * 2 < MAX_BACKOFF then backoff * 2 else MAX_BACKOFF }

  class TelegramChannel {
    var offset: int
    var chatID: int

    constructor ()
      ensures offset == 0 && chatID == 0
    {
      offset, chatID := 0, 0;
    }

    ghost function View(w: World): Cursor
      reads this, w
    {
      Cursor(w.log, offset)
    }

    method AdvanceOffset(updateID: int)
      modifies `offset
      ensures offset == Advance(old(offset), updateID)
    {
      if updateID >= offset {
        offset := updateID + 1;
      }
    }

    /** The body of the loop over a batch: settle the update and move past it, or stop. */
    method Handle(w: World, id: int, env: Env) returns (goOn: bool)
      requires id in w.log.arrived
      modifies this, w
      ensures goOn <==> FateOf(old(w.log.arrived)[id], env) != Interrupted
      ensures w.log == Settle(old(w.log), id, env)
      ensures offset == if goOn then Advance(old(offset), id) else old(offset)
      ensures var u := old(w.log.arrived)[id];
              chatID == if u.callback || u.message == None then old(chatID) else u.message.value.chat
    {
      var u := w.log.arrived[id];
      var handled := w.log.history + [Handling(id, env)];
      if u.callback || u.message == None {
        w.log := w.log.(history := handled);
        AdvanceOffset(id);
        return true;
      }
      var m := u.message.value;
      chatID := m.chat;
      var text := m.text;
      if text == "" {
        text := m.caption;
      }
      if m.voice && text == "" && env.attachments == 0 {
        if env.transcript == None {
          w.log := w.log.(history := handled);
          AdvanceOffset(id);
          return true;
        }
        text := env.transcript.value;
      }
      if (text == "" && env.attachments == 0) || !env.encodable {
        w.log := w.log.(history := handled);
        AdvanceOffset(id);
        return true;
      }
      var failures, backoff := env.failures, INITIAL_BACKOFF;
      while failures > 0
        invariant INITIAL_BACKOFF <= backoff <= MAX_BACKOFF
      {
        backoff := NextBackoff(backoff);
        failures := failures - 1;
      }
      if env.cancelled {
        return false;
      }
      w.log := w.log.(accepted := w.log.accepted + [id], history := handled);
      AdvanceOffset(id);
      return true;
    }

    /** The loop over one batch: the updates in front of the first interrupted one are settled in order,
        each under its own environment, and nothing else happens. */
    method HandleBatch(w: World, batch: seq<int>, envs: seq<Env>) returns (goOn: bool)
      requires AreKnown(w.log, batch) && |batch| <= |envs|
      modifies this, w
      ensures (View(w), goOn) == HandleAll(old(View(w)), batch, envs)
      ensures w.log == Append(old(w.log), Handlings(batch, envs, SettledOf(old(w.log.arrived), batch, envs)))
      ensures goOn <==> SettledOf(old(w.log.arrived), batch, envs) == |batch|
    {
      HandleAllMeaning(View(w), batch, envs);
      for i := 0 to |batch|
        invariant w.log.arrived == old(w.log.arrived)
        invariant HandleAll(View(w), batch[i..], envs[i..]) == HandleAll(old(View(w)), batch, envs)
      {
        assert batch[i..][1..] == batch[i + 1..] && envs[i..][1..] == envs[i + 1..];
        goOn := Handle(w, batch[i], envs[i]);
        if !goOn {
          return;
        }
      }
      goOn := true;
    }

    /** One successful pass: getUpdates and the loop over its answer. */
    method PollOnce(w: World, limit: nat, envs: seq<Env>) returns (goOn: bool)
      requires limit <= |envs|
      modifies this, w
      ensures (View(w), goOn) == Polled(old(View(w)), limit, envs)
    {
      w.log := Confirm(w.log, offset);
      goOn := HandleBatch(w, Answer(w.log, limit), envs);
    }

    /** One pass of the outer loop, or an arrival; `None` means that the loop goes on. */
    method Pass(w: World, e: Event, backoff: nat) returns (exit: Option<Exit>, next: nat)
      requires IsFair(e, w.log) && INITIAL_BACKOFF <= backoff <= MAX_BACKOFF
      modifies this, w
      ensures (View(w), exit) == OnePass(old(View(w)), e)
      ensures INITIAL_BACKOFF <= next <= MAX_BACKOFF
      ensures next == match e
                      case Poll(_, _) => 1
                      case PollFails(_, duplicate) =>
                        if duplicate then backoff else if 2 * backoff <= 60 then 2 * backoff else 60
                      case _ => backoff
    {
      exit, next := None, backoff;
      match e {
        case Arrival(u) =>
          w.log := Arrive(w.log, u);
        case ContextDone =>
          exit := Some(Cancelled);
        case PollFails(reached, duplicate) =>
          if reached {
            w.log := Confirm(w.log, offset);
          }
          if duplicate {
            exit := Some(DuplicateBot);
          } else {
            next := NextBackoff(backoff);
          }
        case Poll(limit, envs) =>
          var goOn := PollOnce(w, limit, envs);
          next := INITIAL_BACKOFF;
          if !goOn {
            exit := Some(Cancelled);
          }
      }
    }

    /** StartWithEventSink does to the Bot API and the sink exactly what the script says. It may be called on
        a new channel, whose offset is 0, or again on one that ran before; the offset never moves back, and
        the updates of one run reach the sink in order and at most once. */
    method StartWithEventSink(w: World, script: seq<Event>) returns (exit: Exit, ghost published: seq<int>)
      requires IsFairScript(View(w), script) && Good(w.log, offset)
      modifies this, w
      ensures (View(w), exit) == RunScript(old(View(w)), script)
      ensures Good(w.log, offset) && Follows(old(w.log), w.log, old(offset), offset, published)
    {
      published := ScriptKeepsGood(View(w), script);
      var backoff := INITIAL_BACKOFF;
      for n := 0 to |script|
        invariant IsFairScript(View(w), script[n..])
        invariant RunScript(View(w), script[n..]) == RunScript(old(View(w)), script)
        invariant INITIAL_BACKOFF <= backoff <= MAX_BACKOFF
      {
        assert script[n..][0] == script[n] && script[n..][1..] == script[n + 1..];
        var left;
        left, backoff := Pass(w, script[n], backoff);
        if left.Some? {
          return left.value, published;
        }
      }
      exit := Cancelled;
    }
  }

  /** The server is started once per script, each time with a new channel, which begins at offset 0 again.
      The outcome is that of the scripts, and no account is lost on the way. */
  method RunWithRestarts(w: World, scripts: seq<seq<Event>>)
    requires AreFairScripts(w.log, scripts) && Good(w.log, 0)
    modifies w
    ensures w.log == RunScripts(old(w.log), scripts)
    ensures Valid(w.log) && NoLoss(w.log)
  {
    for n := 0 to |scripts|
      invariant AreFairScripts(w.log, scripts[n..]) && Good(w.log, 0)
      invariant RunScripts(w.log, scripts[n..]) == RunScripts(old(w.log), scripts)
    {
      assert scripts[n..][0] == scripts[n] && scripts[n..][1..] == scripts[n + 1..];
      var channel := new TelegramChannel();
      var _, _ := channel.StartWithEventSink(w, scripts[n]);
      RestartIsGood(w.log, channel.offset);
    }
  }
}
