/** The lock file of the local auth store (core/local_auth.go): any number of processes run
    `CreateUser`, `DeleteUser` and `SetDisabled` under `withLock`, which creates the file exclusively
    and removes it on return. No process crashes while it holds the lock. */
module LockFile {
  import opened Text

  type Process = nat

  type Account = string

  datatype User = User(hash: string, disabled: bool)

  datatype Operation =
    | Create(account: Account, hash: string) | Delete(account: Account) | SetDisabled(account: Account, disabled: bool)

  datatype Result = Succeeded | UserExists | UserNotFound | TimedOut | SystemError

  /** From `Entered` to `Leaving` the process is in the critical section. */
  datatype Pc = Trying | Entered | Loaded(seen: Option<User>) | Leaving(result: Result) | Returned(result: Result)

  datatype Thread = Thread(op: Operation, pc: Pc)

  /** `users` are the account files; `lock` is the process that created the lock file, if it exists. */
  datatype State = State(lock: Option<Process>, users: map<Account, User>, threads: map<Process, Thread>)

  datatype Label =
    | Begin(p: Process, op: Operation)
    | Open(p: Process)               // O_CREATE|O_EXCL; a failure because the file exists means another try
    | OpenFails(p: Process)          // any other error
    | Timeout(p: Process)            // the deadline has passed when another try has failed
    | Load(p: Process, ok: bool)     // some account file may be unreadable
    | Commit(p: Process, ok: bool)   // the decision, and the write by rename or the removal
    | Unlock(p: Process)             // the deferred os.Remove of the lock path

  predicate At(s: State, p: Process, pc: Pc) { p in s.threads && s.threads[p].pc == pc }

  predicate Enabled(l: Label, s: State) {
    match l
    case Begin(p, _) => p !in s.threads
    case Open(p) => At(s, p, Trying)
    case OpenFails(p) => At(s, p, Trying)
    case Timeout(p) => At(s, p, Trying)
    case Load(p, _) => At(s, p, Entered)
    case Commit(p, _) => p in s.threads && s.threads[p].pc.Loaded?
    case Unlock(p) => p in s.threads && s.threads[p].pc.Leaving?
  }

  function Goto(s: State, p: Process, pc: Pc): State
    requires p in s.threads
  {
    s.(threads := s.threads[p := s.threads[p].(pc := pc)])
  }

  /** What the body under the lock does with the user it has loaded. */
  function CommitOf(s: State, p: Process, ok: bool): State
    requires p in s.threads && s.threads[p].pc.Loaded?
  {
    var op, seen := s.threads[p].op, s.threads[p].pc.seen;
    match op
    case Create(a, hash) =>
      if seen.Some? then Goto(s, p, Leaving(UserExists))
      else if !ok then Goto(s, p, Leaving(SystemError))
      else Goto(s, p, Leaving(Succeeded)).(users := s.users[a := User(hash, false)])
    case Delete(a) =>
      if seen.None? then Goto(s, p, Leaving(Succeeded))
      else if !ok then Goto(s, p, Leaving(SystemError))
      else Goto(s, p, Leaving(Succeeded)).(users := s.users - {a})
    case SetDisabled(a, disabled) =>
      if seen.None? then Goto(s, p, Leaving(UserNotFound))
      else if !ok then Goto(s, p, Leaving(SystemError))
      else Goto(s, p, Leaving(Succeeded)).(users := s.users[a := seen.value.(disabled := disabled)])
  }

  function Lookup(s: State, a: Account): Option<User> { if a in s.users then Some(s.users[a]) else None }

  function Apply(l: Label, s: State): State
    requires Enabled(l, s)
  {
    match l
    case Begin(p, op) => s.(threads := s.threads[p := Thread(op, Trying)])
    case Open(p) => if s.lock == None then Goto(s, p, Entered).(lock := Some(p)) else s
    case OpenFails(p) => Goto(s, p, Returned(SystemError))
    case Timeout(p) => Goto(s, p, Returned(TimedOut))
    case Load(p, ok) =>
      if ok then Goto(s, p, Loaded(Lookup(s, s.threads[p].op.account))) else Goto(s, p, Leaving(SystemError))
    case Commit(p, ok) => CommitOf(s, p, ok)
    case Unlock(p) => Goto(s, p, Returned(s.threads[p].pc.result)).(lock := None)
  }

  /** A run from any user files. If the lock file exists at the start, a crashed process has left it. */
  ghost predicate IsRun(ss: seq<State>, ls: seq<Label>) {
    && |ss| == |ls| + 1 && ss[0].threads == map[]
    && forall i {:trigger ls[i]} :: 0 <= i < |ls| ==> Enabled(ls[i], ss[i]) && ss[i + 1] == Apply(ls[i], ss[i])
  }

  predicate Inside(pc: Pc) { pc.Entered? || pc.Loaded? || pc.Leaving? }

  predicate InSection(s: State, p: Process) { p in s.threads && Inside(s.threads[p].pc) }

  predicate Inv(s: State, stale: bool) {
    && (forall p :: p in s.threads && Inside(s.threads[p].pc) ==> !stale && s.lock == Some(p))
    && (s.lock.Some? ==> stale || InSection(s, s.lock.value))
    && (stale ==> s.lock.Some?)
    && (forall p :: p in s.threads && s.threads[p].pc.Loaded? ==>
        s.threads[p].pc.seen == Lookup(s, s.threads[p].op.account))
    && (stale ==> forall p :: p in s.threads && s.threads[p].pc.Returned? ==>
        s.threads[p].pc.result in {TimedOut, SystemError})
  }

  lemma InvStep(l: Label, s: State, stale: bool)
    requires Inv(s, stale) && Enabled(l, s)
    ensures Inv(Apply(l, s), stale)
  {
  }

  lemma {:induction false} InvOnRun(ss: seq<State>, ls: seq<Label>, i: nat)
    requires IsRun(ss, ls) && i <= |ls|
    ensures Inv(ss[i], ss[0].lock.Some?)
  {
    if i > 0 {
      InvOnRun(ss, ls, i - 1);
      InvStep(ls[i - 1], ss[i - 1], ss[0].lock.Some?);
    }
  }

  /** The lock file exists exactly while some process is in the critical section, and that one is its only occupant. */
  lemma LockFileMeansCriticalSection(ss: seq<State>, ls: seq<Label>, i: nat)
    requires IsRun(ss, ls) && i <= |ls| && ss[0].lock == None
    ensures ss[i].lock.Some? <==> exists p: Process :: InSection(ss[i], p)
    ensures forall p: Process, q: Process :: InSection(ss[i], p) && InSection(ss[i], q) ==> p == q
  {
    InvOnRun(ss, ls, i);
  }

  /** A lock file left behind by a crash is never removed: every later call fails. */
  lemma StaleLockBlocksEveryone(ss: seq<State>, ls: seq<Label>, i: nat, p: Process)
    requires IsRun(ss, ls) && i <= |ls| && ss[0].lock.Some?
    ensures ss[i].lock.Some? && !InSection(ss[i], p)
    ensures p in ss[i].threads && ss[i].threads[p].pc.Returned? ==>
              ss[i].threads[p].pc.result in {TimedOut, SystemError}
  {
    InvOnRun(ss, ls, i);
  }

  /** An attempt to create the lock file lets the process in exactly if there is none, and is repeated else. */
  lemma OpenEntersIff(ss: seq<State>, ls: seq<Label>, i: nat)
    requires IsRun(ss, ls) && i < |ls| && ls[i].Open?
    ensures InSection(ss[i + 1], ls[i].p) <==> ss[i].lock == None
    ensures !InSection(ss[i + 1], ls[i].p) ==> ss[i + 1] == ss[i]
  {
    assert ss[i + 1] == Apply(ls[i], ss[i]);
  }

  predicate Creates(l: Label, s: State, a: Account)
    requires Enabled(l, s)
  {
    && l.Commit? && l.ok && s.threads[l.p].op.Create? && s.threads[l.p].op.account == a
    && Apply(l, s).threads[l.p].pc == Leaving(Succeeded)
  }

  predicate Deletes(l: Label, s: State, a: Account)
    requires Enabled(l, s)
  {
    l.Commit? && l.ok && s.threads[l.p].op == Delete(a) && a in s.users
  }

  /** A user file disappears only by a deletion of that account. */
  lemma {:induction false} OnlyDeletionRemoves(ss: seq<State>, ls: seq<Label>, a: Account, i: nat, j: nat)
    returns (k: nat)
    requires IsRun(ss, ls) && i <= j <= |ls| && a in ss[i].users && a !in ss[j].users
    ensures i <= k < j && Deletes(ls[k], ss[k], a)
  {
    assert i < j;
    assert ss[j] == Apply(ls[j - 1], ss[j - 1]);
    if a in ss[j - 1].users {
      k := j - 1;
    } else {
      k := OnlyDeletionRemoves(ss, ls, a, i, j - 1);
    }
  }

  /** For one account at most one CreateUser succeeds between deletions. */
  lemma OneCreationBetweenDeletions(ss: seq<State>, ls: seq<Label>, a: Account, i: nat, j: nat) returns (k: nat)
    requires IsRun(ss, ls) && i < j < |ls| && Creates(ls[i], ss[i], a) && Creates(ls[j], ss[j], a)
    ensures i < k < j && Deletes(ls[k], ss[k], a)
  {
    InvOnRun(ss, ls, j);
    k := OnlyDeletionRemoves(ss, ls, a, i + 1, j);
  }

  /** A committed operation acts on the user as it is at that moment: CreateUser succeeds exactly where there
      is no user and writing works; it reports ErrLocalUserExists only where there is one, and
      SetDisabled changes nothing but the flag, so no update by another process is lost. */
  lemma CommitsActOnTheCurrentUser(ss: seq<State>, ls: seq<Label>, i: nat)
    requires IsRun(ss, ls) && i < |ls| && ls[i].Commit?
    ensures var s, s', op := ss[i], ss[i + 1], ss[i].threads[ls[i].p].op;
            var result := s'.threads[ls[i].p].pc.result;
            && (forall b :: b != op.account ==> Lookup(s', b) == Lookup(s, b))
            && (result != Succeeded ==> s'.users == s.users)
            && (result == Succeeded <==> match op
                case Create(a, _) => a !in s.users && ls[i].ok
                case Delete(a) => a !in s.users || ls[i].ok
                case SetDisabled(a, _) => a in s.users && ls[i].ok)
            && (result == UserExists <==> op.Create? && op.account in s.users)
            && (result == UserNotFound <==> op.SetDisabled? && op.account !in s.users)
            && (result == Succeeded ==> match op
                case Create(a, hash) => Lookup(s, a) == None && Lookup(s', a) == Some(User(hash, false))
                case Delete(a) => Lookup(s', a) == None
                case SetDisabled(a, disabled) =>
                  a in s.users && Lookup(s', a) == Some(s.users[a].(disabled := disabled)))
  {
    InvOnRun(ss, ls, i);
  }

  /** A call gives up waiting exactly by its own timeout. */
  lemma {:induction false} TimedOutIff(ss: seq<State>, ls: seq<Label>, i: nat, p: Process)
    requires IsRun(ss, ls) && i <= |ls|
    ensures Timeout(p) in ls[..i] <==>
              p in ss[i].threads && ss[i].threads[p].pc in {Leaving(TimedOut), Returned(TimedOut)}
  {
    if i > 0 {
      TimedOutIff(ss, ls, i - 1, p);
      assert ls[..i] == ls[..i - 1] + [ls[i - 1]] && ss[i] == Apply(ls[i - 1], ss[i - 1]);
    }
  }

  /** What a finished call returned is what its commit decided, or an error outside the critical section. */
  lemma {:induction false} ReturnsWereCommitted(ss: seq<State>, ls: seq<Label>, i: nat, p: Process) returns (k: nat)
    requires IsRun(ss, ls) && i <= |ls| && p in ss[i].threads
    requires ss[i].threads[p].pc in {Returned(Succeeded), Returned(UserExists), Leaving(Succeeded), Leaving(UserExists)}
    ensures k < i && ls[k].Commit? && ls[k].p == p && ss[k + 1].threads[p].pc == Leaving(ss[i].threads[p].pc.result)
  {
    assert i > 0;
    var l, s := ls[i - 1], ss[i - 1];
    assert ss[i] == Apply(l, s);
    if l.Commit? && l.p == p {
      k := i - 1;
    } else {
      assert p in s.threads && (s.threads[p].pc.Leaving? || s.threads[p].pc.Returned?);
      assert s.threads[p].pc.result == ss[i].threads[p].pc.result;
      k := ReturnsWereCommitted(ss, ls, i - 1, p);
    }
  }

  function StepsLeft(pc: Pc): nat {
    match pc case Trying => 4 case Entered => 3 case Loaded(_) => 2 case Leaving(_) => 1 case Returned(_) => 0
  }

  /** The lock is given back: its holder can always take its next step, and three steps bring it out. */
  lemma HolderCanFinish(ss: seq<State>, ls: seq<Label>, i: nat, p: Process)
    requires IsRun(ss, ls) && i <= |ls| && InSection(ss[i], p)
    ensures var l := match ss[i].threads[p].pc {
                       case Entered => Load(p, true)
                       case Loaded(_) => Commit(p, true)
                       case _ => Unlock(p)
                     };
            && Enabled(l, ss[i])
            && StepsLeft(Apply(l, ss[i]).threads[p].pc) == StepsLeft(ss[i].threads[p].pc) - 1
            && (l.Unlock? ==> Apply(l, ss[i]).lock == None)
    ensures ss[i].lock == Some(p)
  {
    InvOnRun(ss, ls, i);
  }
}
