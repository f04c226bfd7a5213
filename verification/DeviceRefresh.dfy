/** The rotation of the chat relay device token (core/api_token.go): any number of callers of
    `RefreshChatRelayDeviceToken` share one manager, against a server that accepts each refresh
    token once. The method holds `mu` from loading the stored tokens to saving the rotated ones,
    and writes or clears its three keys one at a time. */
module DeviceRefresh {
  import opened Text

  type Caller = nat

  /** The tokens the server has issued are numbered in order. */
  datatype Keys = Keys(device: Option<string>, access: Option<nat>, refresh: Option<nat>)

  datatype Pc =
    | Waiting                                 // for mu
    | Loading
    | Posting(refresh: nat, device: string)
    | Sent(refresh: nat, device: string)      // the request is under way
    | Rotated(token: nat, device: string)     // the server has answered 200
    | Rejected                                // the server has answered 401
    | Saving(next: nat, token: nat, device: string)
    | Clearing(next: nat)
    | Done

  datatype State = State(mu: Option<Caller>, store: Keys, latest: nat, callers: map<Caller, Pc>)

  datatype Label =
    | Call(c: Caller)
    | Lock(c: Caller)
    | Load(c: Caller)
    | Post(c: Caller)
    | Serve(c: Caller, device: string)        // the server handles the request
    | ServeError(c: Caller)                   // any failure before the server rotates
    | Receive(c: Caller)                      // the answer arrives and decodes
    | Lose(c: Caller)                         // it does not
    | SaveKey(c: Caller, ok: bool)
    | ClearKey(c: Caller, ok: bool)

  predicate Enabled(l: Label, s: State) {
    match l
    case Call(c) => c !in s.callers
    case Lock(c) => c in s.callers && s.callers[c] == Waiting && s.mu == None
    case Load(c) => c in s.callers && s.callers[c] == Loading
    case Post(c) => c in s.callers && s.callers[c].Posting?
    case Serve(c, _) => c in s.callers && s.callers[c].Sent?
    case ServeError(c) => c in s.callers && s.callers[c].Sent?
    case Receive(c) => c in s.callers && (s.callers[c].Rotated? || s.callers[c].Rejected?)
    case Lose(c) => c in s.callers && (s.callers[c].Rotated? || s.callers[c].Rejected?)
    case SaveKey(c, _) => c in s.callers && s.callers[c].Saving?
    case ClearKey(c, _) => c in s.callers && s.callers[c].Clearing?
  }

  function Goto(s: State, c: Caller, pc: Pc): State { s.(callers := s.callers[c := pc]) }

  function Leave(s: State, c: Caller): State { Goto(s, c, Done).(mu := None) }

  /** The keys in the order in which they are written: device id, access token, refresh token. */
  function Write(store: Keys, i: nat, device: Option<string>, token: Option<nat>): Keys {
    if i == 0 then store.(device := device) else if i == 1 then store.(access := token) else store.(refresh := token)
  }

  function Apply(l: Label, s: State): State
    requires Enabled(l, s)
  {
    match l
    case Call(c) => Goto(s, c, Waiting)
    case Lock(c) => Goto(s, c, Loading).(mu := Some(c))
    case Load(c) =>
      if s.store.device.Some? && s.store.access.Some? && s.store.refresh.Some?
      then Goto(s, c, Posting(s.store.refresh.value, s.store.device.value)) else Leave(s, c)
    case Post(c) => Goto(s, c, Sent(s.callers[c].refresh, s.callers[c].device))
    case Serve(c, device) =>
      if s.callers[c].refresh == s.latest
      then
        var kept := if device == "" then s.callers[c].device else device;
        Goto(s, c, Rotated(s.latest + 1, kept)).(latest := s.latest + 1)
      else Goto(s, c, Rejected)
    case ServeError(c) => Leave(s, c)
    case Receive(c) =>
      if s.callers[c].Rejected? then Goto(s, c, Clearing(0))
      else Goto(s, c, Saving(0, s.callers[c].token, s.callers[c].device))
    case Lose(c) => Leave(s, c)
    case SaveKey(c, ok) =>
      var pc := s.callers[c];
      var s' := s.(store := Write(s.store, pc.next, Some(pc.device), Some(pc.token)));
      if ok && pc.next < 2 then Goto(s', c, pc.(next := pc.next + 1)) else Leave(s', c)
    case ClearKey(c, ok) =>
      var pc := s.callers[c];
      var s' := s.(store := Write(s.store, pc.next, None, None));
      if ok && pc.next < 2 then Goto(s', c, pc.(next := pc.next + 1)) else Leave(s', c)
  }

  /** A run that starts with the latest token stored, or with no complete credential. */
  ghost predicate IsRun(ss: seq<State>, ls: seq<Label>) {
    && |ss| == |ls| + 1
    && ss[0].mu == None && ss[0].callers == map[]
    && (ss[0].store.refresh.Some? ==> ss[0].store.refresh.value == ss[0].latest)
    && forall i {:trigger ls[i]} :: 0 <= i < |ls| ==> Enabled(ls[i], ss[i]) && ss[i + 1] == Apply(ls[i], ss[i])
  }

  /** A rotation that the manager will not remember: its answer is lost, or saving it stops before
      the refresh token is written. */
  predicate Forgets(l: Label, s: State)
    requires Enabled(l, s)
  {
    || (l.Lose? && s.callers[l.c].Rotated?)
    || (l.SaveKey? && !l.ok && s.callers[l.c].next < 2)
  }

  ghost predicate Forgot(ss: seq<State>, ls: seq<Label>, i: nat)
    requires IsRun(ss, ls) && i <= |ls|
  {
    exists h :: 0 <= h < i && Forgets(ls[h], ss[h])
  }

  predicate InLock(pc: Pc) { !pc.Waiting? && !pc.Done? }

  /** `forgot` is whether a rotation has been forgotten. */
  predicate Inv(s: State, forgot: bool) {
    && MutexInv(s)
    && (s.mu == None ==> StoreInv(s, forgot))
    && (forall c :: c in s.callers ==> PcInv(s, s.callers[c], forgot))
  }

  predicate MutexInv(s: State) {
    && (forall c :: c in s.callers && InLock(s.callers[c]) ==> s.mu == Some(c))
    && (s.mu.Some? ==> s.mu.value in s.callers && InLock(s.callers[s.mu.value]))
  }

  predicate StoreInv(s: State, forgot: bool) {
    s.store.refresh.Some? ==> if forgot then s.store.refresh.value < s.latest else s.store.refresh.value == s.latest
  }

  predicate PcInv(s: State, pc: Pc, forgot: bool) {
    match pc
    case Loading => StoreInv(s, forgot)
    case Posting(refresh, _) => StoreInv(s, forgot) && s.store.refresh == Some(refresh)
    case Sent(refresh, _) => StoreInv(s, forgot) && s.store.refresh == Some(refresh)
    case Rotated(token, _) => !forgot && token == s.latest && s.store.refresh == Some(token - 1)
    case Rejected => StoreInv(s, forgot)
    case Saving(next, token, _) => !forgot && token == s.latest && next < 3 && s.store.refresh == Some(token - 1)
    case Clearing(next) => StoreInv(s, forgot) && next < 3
    case _ => true
  }

  lemma MutexStep(l: Label, s: State)
    requires MutexInv(s) && Enabled(l, s)
    ensures MutexInv(Apply(l, s))
  {
  }

  /** While another caller holds the lock, a step only starts a call. */
  lemma AnothersStep(l: Label, s: State, c: Caller)
    requires MutexInv(s) && Enabled(l, s) && c in s.callers && InLock(s.callers[c]) && l.c != c
    ensures l.Call? && Apply(l, s).store == s.store && Apply(l, s).latest == s.latest
              && Apply(l, s).callers[c] == s.callers[c]
    ensures !Forgets(l, s)
  {
    assert s.mu == Some(c);
    assert l.c in s.callers ==> !InLock(s.callers[l.c]);
  }

  lemma OwnStep(l: Label, s: State, forgot: bool)
    requires Enabled(l, s) && (s.mu == None ==> StoreInv(s, forgot))
    requires l.c in s.callers ==> PcInv(s, s.callers[l.c], forgot) && (InLock(s.callers[l.c]) ==> s.mu == Some(l.c))
    ensures var s', forgot' := Apply(l, s), forgot || Forgets(l, s);
            l.c in s'.callers && PcInv(s', s'.callers[l.c], forgot') && (s'.mu == None ==> StoreInv(s', forgot'))
  {
  }

  lemma InvStep(l: Label, s: State, forgot: bool)
    requires Inv(s, forgot) && Enabled(l, s)
    ensures Inv(Apply(l, s), forgot || Forgets(l, s))
  {
    var s' := Apply(l, s);
    MutexStep(l, s);
    OwnStep(l, s, forgot);
    forall c | c in s'.callers && c != l.c ensures PcInv(s', s'.callers[c], forgot || Forgets(l, s)) {
      if InLock(s.callers[c]) {
        assert PcInv(s, s.callers[c], forgot);
        AnothersStep(l, s, c);
      }
    }
  }

  lemma {:induction false} InvOnRun(ss: seq<State>, ls: seq<Label>, i: nat)
    requires IsRun(ss, ls) && i <= |ls|
    ensures Inv(ss[i], Forgot(ss, ls, i))
  {
    if i > 0 {
      InvOnRun(ss, ls, i - 1);
      InvStep(ls[i - 1], ss[i - 1], Forgot(ss, ls, i - 1));
      assert Forgot(ss, ls, i) <==> Forgot(ss, ls, i - 1) || Forgets(ls[i - 1], ss[i - 1]);
    }
  }

  /** A request carries the latest token the server has issued exactly when every rotation before it
      was received and saved, whatever the interleaving of the callers. */
  lemma RequestsCarryTheLatestToken(ss: seq<State>, ls: seq<Label>, i: nat)
    requires IsRun(ss, ls) && i < |ls| && ls[i].Post?
    ensures ss[i].callers[ls[i].c].refresh == ss[i].latest <==> !Forgot(ss, ls, i)
  {
    InvOnRun(ss, ls, i);
    assert PcInv(ss[i], ss[i].callers[ls[i].c], Forgot(ss, ls, i));
  }

  /** Until a rotation is forgotten, the server rejects no request and no stored token is cleared. */
  lemma NothingIsRejected(ss: seq<State>, ls: seq<Label>, i: nat)
    requires IsRun(ss, ls) && i < |ls| && !Forgot(ss, ls, i) && ls[i].Serve?
    ensures ss[i + 1].latest == ss[i].latest + 1 && ss[i + 1].callers[ls[i].c].Rotated?
  {
    InvOnRun(ss, ls, i);
    assert PcInv(ss[i], ss[i].callers[ls[i].c], false);
  }

  // ----- What is saved

  /** The keys that a caller has written hold what the server answered. */
  predicate SavedSoFar(s: State, pc: Pc) {
    pc.Saving? ==>
      && pc.next < 3
      && (pc.next >= 1 ==> s.store.device == Some(pc.device))
      && (pc.next >= 2 ==> s.store.access == Some(pc.token))
  }

  lemma {:induction false} SavedOnRun(ss: seq<State>, ls: seq<Label>, i: nat, c: Caller)
    requires IsRun(ss, ls) && i <= |ls| && c in ss[i].callers
    ensures SavedSoFar(ss[i], ss[i].callers[c])
  {
    assert i > 0;
    var l, s := ls[i - 1], ss[i - 1];
    assert ss[i] == Apply(l, s);
    if c in s.callers {
      SavedOnRun(ss, ls, i - 1, c);
      InvOnRun(ss, ls, i - 1);
      if l.c != c && InLock(s.callers[c]) { AnothersStep(l, s, c); }
    }
  }

  /** The answer that a caller has received or is saving: the token of that rotation, and the device id of the
      answer or, if it has none, the one the caller sent. */
  lemma {:induction false} SavingWasServed(ss: seq<State>, ls: seq<Label>, i: nat, c: Caller) returns (h: nat)
    requires IsRun(ss, ls) && i <= |ls| && c in ss[i].callers && (ss[i].callers[c].Rotated? || ss[i].callers[c].Saving?)
    ensures h < i && ls[h].Serve? && ls[h].c == c && c in ss[h].callers && ss[h].callers[c].Sent?
    ensures ss[i].callers[c].token == ss[h].latest + 1
    ensures ss[i].callers[c].device == if ls[h].device != "" then ls[h].device else ss[h].callers[c].device
  {
    assert i > 0;
    var l, s := ls[i - 1], ss[i - 1];
    assert ss[i] == Apply(l, s);
    if c in s.callers && (s.callers[c].Rotated? || s.callers[c].Saving?) {
      h := SavingWasServed(ss, ls, i - 1, c);
    } else {
      h := i - 1;
    }
  }

  /** A caller that has written its last key has stored the whole answer of its rotation. */
  lemma RotationIsStored(ss: seq<State>, ls: seq<Label>, i: nat) returns (h: nat)
    requires IsRun(ss, ls) && i < |ls| && ls[i].SaveKey? && ss[i].callers[ls[i].c].next == 2
    ensures h < i && ls[h].Serve? && ls[h].c == ls[i].c && ls[h].c in ss[h].callers && ss[h].callers[ls[h].c].Sent?
    ensures var device := if ls[h].device != "" then ls[h].device else ss[h].callers[ls[h].c].device;
            ss[i + 1].store == Keys(Some(device), Some(ss[h].latest + 1), Some(ss[h].latest + 1))
    ensures ss[i + 1].callers[ls[i].c] == Done && ss[i + 1].mu == None
  {
    h := SavingWasServed(ss, ls, i, ls[i].c);
    SavedOnRun(ss, ls, i, ls[i].c);
    assert ss[i + 1] == Apply(ls[i], ss[i]);
  }

  /** The keys that a caller has cleared are gone. */
  predicate ClearedSoFar(s: State, pc: Pc) {
    pc.Clearing? ==>
      pc.next < 3 && (pc.next >= 1 ==> s.store.device == None) && (pc.next >= 2 ==> s.store.access == None)
  }

  lemma {:induction false} ClearedOnRun(ss: seq<State>, ls: seq<Label>, i: nat, c: Caller)
    requires IsRun(ss, ls) && i <= |ls| && c in ss[i].callers
    ensures ClearedSoFar(ss[i], ss[i].callers[c])
  {
    assert i > 0;
    var l, s := ls[i - 1], ss[i - 1];
    assert ss[i] == Apply(l, s);
    if c in s.callers {
      ClearedOnRun(ss, ls, i - 1, c);
      InvOnRun(ss, ls, i - 1);
      if l.c != c && InLock(s.callers[c]) { AnothersStep(l, s, c); }
    }
  }

  /** A rejected caller that clears its last key leaves nothing; already the first one leaves no complete
      credential to send. */
  lemma RejectionClears(ss: seq<State>, ls: seq<Label>, i: nat)
    requires IsRun(ss, ls) && i < |ls| && ls[i].ClearKey?
    ensures ss[i + 1].store.device == None
    ensures ss[i].callers[ls[i].c].next == 2 ==> ss[i + 1].store == Keys(None, None, None)
  {
    ClearedOnRun(ss, ls, i, ls[i].c);
    assert ss[i + 1] == Apply(ls[i], ss[i]);
  }

  // ----- Whether an accepted token is used again

  /** `c` has been given token `token`, and has not saved it yet. */
  predicate IsRotating(s: State, c: Caller, token: nat) {
    && c in s.callers && s.latest == token && s.store.refresh == Some(token - 1)
    && match s.callers[c] {
         case Rotated(t, _) => t == token
         case Saving(next, t, _) => t == token && next < 3
         case _ => false
       }
  }

  predicate PcIsNewer(pc: Pc, token: nat) {
    match pc
    case Posting(refresh, _) => refresh >= token
    case Sent(refresh, _) => refresh >= token
    case Rotated(t, _) => t >= token
    case Saving(_, t, _) => t >= token
    case _ => true
  }

  /** Whatever is stored, sent or being saved is at least as new as `token`. */
  predicate IsNewer(s: State, token: nat) {
    && s.latest >= token && (s.store.refresh.Some? ==> s.store.refresh.value >= token)
    && forall c :: c in s.callers ==> PcIsNewer(s.callers[c], token)
  }

  predicate PcIsUsed(pc: Pc, token: nat) {
    match pc
    case Posting(refresh, _) => refresh == token
    case Sent(refresh, _) => refresh == token
    case Rotated(_, _) => false
    case Saving(_, _, _) => false
    case _ => true
  }

  /** All that is stored or sent is `token`, which the server no longer accepts. */
  predicate IsUsed(s: State, token: nat) {
    && s.latest == token + 1 && (s.store.refresh.Some? ==> s.store.refresh.value == token)
    && forall c :: c in s.callers ==> PcIsUsed(s.callers[c], token)
  }

  /** How it stands with `token` after `c` was given it; `forgot` is whether `c` has lost it again. */
  predicate Standing(s: State, c: Caller, token: nat, forgot: bool) {
    || (!forgot && IsRotating(s, c, token))
    || (c in s.callers && s.callers[c].Done? && if forgot then token > 0 && IsUsed(s, token - 1) else IsNewer(s, token))
  }

  lemma NewerStep(l: Label, s: State, token: nat)
    requires IsNewer(s, token) && Enabled(l, s)
    ensures IsNewer(Apply(l, s), token)
  {
  }

  lemma UsedStep(l: Label, s: State, token: nat)
    requires IsUsed(s, token) && Enabled(l, s)
    ensures IsUsed(Apply(l, s), token)
  {
  }

  lemma RotatingStep(l: Label, s: State, c: Caller, token: nat)
    requires MutexInv(s) && IsRotating(s, c, token) && Enabled(l, s) && token > 0
    ensures Standing(Apply(l, s), c, token, l.c == c && Forgets(l, s))
  {
    if l.c != c {
      AnothersStep(l, s, c);
    } else {
      var s' := Apply(l, s);
      assert forall d :: d in s'.callers && d != c ==>
          d in s.callers && !InLock(s.callers[d]) && s'.callers[d] == s.callers[d];
    }
  }

  lemma StandingStep(l: Label, s: State, c: Caller, token: nat, forgot: bool)
    requires MutexInv(s) && Standing(s, c, token, forgot) && Enabled(l, s) && token > 0
    ensures Standing(Apply(l, s), c, token, forgot || (l.c == c && Forgets(l, s)))
  {
    if !forgot && IsRotating(s, c, token) {
      RotatingStep(l, s, c, token);
    } else if forgot {
      UsedStep(l, s, token - 1);
    } else {
      NewerStep(l, s, token);
    }
  }

  /** The rotation that the server performed at step `i` is forgotten before step `j`. */
  ghost predicate IsForgotten(ss: seq<State>, ls: seq<Label>, i: nat, j: nat)
    requires IsRun(ss, ls) && i < j <= |ls|
  {
    exists h :: i < h < j && ls[h].c == ls[i].c && Forgets(ls[h], ss[h])
  }

  lemma ForgottenStep(ss: seq<State>, ls: seq<Label>, i: nat, j: nat)
    requires IsRun(ss, ls) && i < j < |ls|
    ensures IsForgotten(ss, ls, i, j + 1) <==>
              IsForgotten(ss, ls, i, j) || (ls[j].c == ls[i].c && Forgets(ls[j], ss[j]))
  {
  }

  lemma ServeStep(l: Label, s: State, forgot: bool)
    requires Enabled(l, s) && l.Serve? && Inv(s, forgot) && Apply(l, s).callers[l.c].Rotated?
    ensures Apply(l, s).latest > 0 && IsRotating(Apply(l, s), l.c, Apply(l, s).latest)
  {
    assert PcInv(s, s.callers[l.c], forgot);
  }

  lemma StandingAtFirst(ss: seq<State>, ls: seq<Label>, i: nat)
    requires IsRun(ss, ls) && i < |ls| && ls[i].Serve? && ss[i + 1].callers[ls[i].c].Rotated?
    ensures ss[i + 1].latest > 0 && IsRotating(ss[i + 1], ls[i].c, ss[i + 1].latest)
  {
    InvOnRun(ss, ls, i);
    ServeStep(ls[i], ss[i], Forgot(ss, ls, i));
  }

  lemma {:induction false} StandingOnRun(ss: seq<State>, ls: seq<Label>, i: nat, j: nat)
    requires IsRun(ss, ls) && i < j <= |ls| && ls[i].Serve? && ss[i + 1].callers[ls[i].c].Rotated?
    ensures ss[i + 1].latest > 0 && Standing(ss[j], ls[i].c, ss[i + 1].latest, IsForgotten(ss, ls, i, j))
    decreases j
  {
    StandingAtFirst(ss, ls, i);
    if j > i + 1 {
      StandingOnRun(ss, ls, i, j - 1);
      InvOnRun(ss, ls, j - 1);
      StandingStep(ls[j - 1], ss[j - 1], ls[i].c, ss[i + 1].latest, IsForgotten(ss, ls, i, j - 1));
      ForgottenStep(ss, ls, i, j - 1);
      assert ss[j] == Apply(ls[j - 1], ss[j - 1]);
    }
  }

  /** A refresh token that the server has accepted is sent again by a later request if and only if the very
      rotation it was accepted for has been forgotten. */
  lemma AcceptedTokensAreNotReused(ss: seq<State>, ls: seq<Label>, i: nat, j: nat)
    requires IsRun(ss, ls) && i < j < |ls| && ls[i].Serve? && ls[j].Post?
    requires ss[i + 1].callers[ls[i].c].Rotated?
    ensures ss[j].callers[ls[j].c].refresh == ss[i].callers[ls[i].c].refresh <==> IsForgotten(ss, ls, i, j)
  {
    StandingOnRun(ss, ls, i, j);
    InvOnRun(ss, ls, j);
    assert ss[i + 1] == Apply(ls[i], ss[i]);
    assert ls[j].c != ls[i].c ==> !IsRotating(ss[j], ls[i].c, ss[i + 1].latest);
  }

  lemma {:induction false} LatestGrows(ss: seq<State>, ls: seq<Label>, i: nat, j: nat)
    requires IsRun(ss, ls) && i <= j <= |ls|
    ensures ss[i].latest <= ss[j].latest
  {
    if i < j {
      LatestGrows(ss, ls, i, j - 1);
      assert ss[j] == Apply(ls[j - 1], ss[j - 1]);
    }
  }

  // ----- A forgotten rotation

  const STORED := Keys(Some("d"), Some(1), Some(1))

  lemma Extend(ss: seq<State>, ls: seq<Label>, l: Label) returns (ss': seq<State>, ls': seq<Label>)
    requires IsRun(ss, ls) && Enabled(l, ss[|ls|])
    ensures IsRun(ss', ls') && ls' == ls + [l] && ss' == ss + [Apply(l, ss[|ls|])]
  {
    ss', ls' := ss + [Apply(l, ss[|ls|])], ls + [l];
  }

  /** A caller of a manager that holds the first token gets its request under way. */
  lemma CallerPosts(ss: seq<State>, ls: seq<Label>, c: Caller) returns (ss': seq<State>, ls': seq<Label>)
    requires IsRun(ss, ls)
    requires var s := ss[|ls|]; s.mu == None && s.store == STORED && c !in s.callers
    ensures IsRun(ss', ls') && |ls'| == |ls| + 4 && ls'[|ls| + 3] == Post(c)
    ensures ss'[|ls| + 3] == State(Some(c), STORED, ss[|ls|].latest, ss[|ls|].callers[c := Posting(1, "d")])
    ensures ss'[|ls| + 4] == State(Some(c), STORED, ss[|ls|].latest, ss[|ls|].callers[c := Sent(1, "d")])
  {
    var s := ss[|ls|];
    ss', ls' := Extend(ss, ls, Call(c));
    ss', ls' := Extend(ss', ls', Lock(c));
    ss', ls' := Extend(ss', ls', Load(c));
    assert ss'[|ls| + 3] == State(Some(c), STORED, s.latest, s.callers[c := Posting(1, "d")]);
    ss', ls' := Extend(ss', ls', Post(c));
  }

  /** The answer to a rotation is lost, and the next caller sends the token that the server has used up; the
      server rejects it. */
  lemma LostAnswerSendsAUsedToken() returns (ss: seq<State>, ls: seq<Label>)
    ensures IsRun(ss, ls) && |ls| == 11 && ls[9] == Post(1) && ls[10] == Serve(1, "")
    ensures 1 in ss[9].callers && ss[9].callers[1] == Posting(1, "d") && ss[9].latest == 2 && Forgot(ss, ls, 9)
    ensures 1 in ss[11].callers && ss[11].callers[1] == Rejected
  {
    ss, ls := CallerPosts([State(None, STORED, 1, map[])], [], 0);
    ss, ls := Extend(ss, ls, Serve(0, ""));
    ss, ls := Extend(ss, ls, Lose(0));
    assert ss[6] == State(None, STORED, 2, map[0 := Done]);
    ss, ls := CallerPosts(ss, ls, 1);
    ss, ls := Extend(ss, ls, Serve(1, ""));
    RequestsCarryTheLatestToken(ss, ls, 9);
  }
}
