/** The refresh of a service access token (core/oauth_service_token.go), as a labelled transition
    system: any number of callers of `LoadAccessToken` and `Refresh` for one provider share one
    manager. `refresh` runs under `mu`, `LoadAccessToken` first reads without it, and `Save` writes
    its nine keys one at a time, so readers can see any mixture of old and new keys. */
module ServiceTokens {
  import opened Text

  type Caller = nat

  datatype Key = Provider | Access | RefreshToken | TokenType | Scope | Email | Username | BaseURL

  datatype Response = Response(provider: string, access: string, refresh: string, tokenType: string,
                               expiresIn: int, scope: string, email: string, username: string)

  datatype Outcome = NotConnected | Token(value: string) | Failed

  /** The program counter of a caller; the ones from `Locked` to `Saving` are inside `mu`. */
  datatype Pc =
    | Start
    | HasToken(token: string)
    | HasExpiry(token: string, expiry: Option<nat>)
    | WantLock
    | Locked
    | Rechecked(token: string)
    | RecheckedExpiry(token: string, expiry: Option<nat>)
    | Stale
    | HasRefresh(refresh: string)
    | Ready(refresh: string, base: string)
    | Posted(refresh: string, base: string)
    | Saving(next: nat, tokens: map<Key, string>, expiry: Option<nat>)
    | Done(outcome: Outcome)

  /** Times are in nanoseconds. `expires` is the parsed `expires_at` value, if there is one. */
  datatype State = State(
    now: nat,
    mu: Option<Caller>,
    fields: map<Key, string>,
    expires: Option<nat>,
    callers: map<Caller, Pc>)

  datatype Label =
    | Tick(d: nat)
    | Load(c: Caller)              // LoadAccessToken is called
    | Refresh(c: Caller)           // Refresh is called: no unlocked check
    | ReadToken(c: Caller)
    | ReadExpiry(c: Caller)
    | Check(c: Caller)
    | Lock(c: Caller)
    | RecheckToken(c: Caller)
    | RecheckExpiry(c: Caller)
    | Recheck(c: Caller)
    | ReadRefresh(c: Caller)
    | ReadBase(c: Caller)
    | Post(c: Caller)
    | Respond(c: Caller, r: Option<Response>)  // None: transport error, bad status or undecodable body
    | SaveKey(c: Caller, ok: bool)             // the store changes in memory even when persisting fails
    | SaveExpiry(c: Caller, ok: bool)

  const SECOND: nat := 1_000_000_000
  const GRACE: nat := 300 * SECOND

  /** The order in which `Save` writes its text keys; `expires_at` comes last. */
  const SAVE_ORDER: seq<Key> := [Provider, Access, RefreshToken, TokenType, Scope, Email, Username, BaseURL]

  predicate Fresh(now: nat, expiry: nat) { now < expiry - GRACE }

  function Get(s: State, key: Key): string {
    if key in s.fields then s.fields[key] else ""
  }

  /** What `Save` records for `expires_in`: RFC 3339 text drops fractions of a second. */
  function RecordedExpiry(now: nat, expiresIn: int): Option<nat> {
    if expiresIn > 0 then Some((now + expiresIn * SECOND) / SECOND * SECOND) else None
  }

  function OrElse(s: string, other: string): string {
    if s == "" then other else s
  }

  predicate IsSlash(c: char) { c == '/' }

  function TokensToSave(s: State, provider: string, r: Response, refresh: string, base: string): map<Key, string> {
    map[Provider := OrElse(r.provider, provider), Access := r.access, RefreshToken := OrElse(r.refresh, refresh),
        TokenType := r.tokenType, Scope := r.scope, Email := OrElse(r.email, Get(s, Email)),
        Username := OrElse(r.username, Get(s, Username)), BaseURL := TrimRight(base, IsSlash)]
  }

  predicate BadProvider(provider: string) { TrimSpace(provider) == "" || '/' in TrimSpace(provider) }

  predicate Enabled(l: Label, s: State) {
    match l
    case Tick(_) => true
    case Load(c) => c !in s.callers
    case Refresh(c) => c !in s.callers
    case ReadToken(c) => c in s.callers && s.callers[c].Start?
    case ReadExpiry(c) => c in s.callers && s.callers[c].HasToken?
    case Check(c) => c in s.callers && s.callers[c].HasExpiry?
    case Lock(c) => c in s.callers && s.callers[c].WantLock? && s.mu == None
    case RecheckToken(c) => c in s.callers && s.callers[c].Locked?
    case RecheckExpiry(c) => c in s.callers && s.callers[c].Rechecked?
    case Recheck(c) => c in s.callers && s.callers[c].RecheckedExpiry?
    case ReadRefresh(c) => c in s.callers && s.callers[c].Stale?
    case ReadBase(c) => c in s.callers && s.callers[c].HasRefresh?
    case Post(c) => c in s.callers && s.callers[c].Ready?
    case Respond(c, _) => c in s.callers && s.callers[c].Posted?
    case SaveKey(c, _) =>
      && c in s.callers && s.callers[c].Saving? && s.callers[c].next < |SAVE_ORDER|
      && SAVE_ORDER[s.callers[c].next] in s.callers[c].tokens
    case SaveExpiry(c, _) =>
      && c in s.callers && s.callers[c].Saving? && s.callers[c].next == |SAVE_ORDER|
  }

  function Goto(s: State, c: Caller, pc: Pc): State {
    s.(callers := s.callers[c := pc])
  }

  /** Return from `refresh`: the deferred unlock. */
  function Leave(s: State, c: Caller, outcome: Outcome): State {
    Goto(s, c, Done(outcome)).(mu := None)
  }

  function SetOrDelete(fields: map<Key, string>, key: Key, value: string): map<Key, string> {
    if value == "" then fields - {key} else fields[key := value]
  }

  function Apply(l: Label, s: State, provider: string): State
    requires Enabled(l, s)
  {
    match l
    case Tick(d) => s.(now := s.now + d)
    case Load(c) => Goto(s, c, Start)
    case Refresh(c) => Goto(s, c, WantLock)
    case ReadToken(c) =>
      if Get(s, Access) == "" then Goto(s, c, Done(NotConnected)) else Goto(s, c, HasToken(Get(s, Access)))
    case ReadExpiry(c) => Goto(s, c, HasExpiry(s.callers[c].token, s.expires))
    case Check(c) =>
      var pc := s.callers[c];
      if pc.expiry == None || Fresh(s.now, pc.expiry.value) then Goto(s, c, Done(Token(pc.token)))
      else Goto(s, c, WantLock)
    case Lock(c) => Goto(s, c, Locked).(mu := Some(c))
    case RecheckToken(c) => Goto(s, c, Rechecked(Get(s, Access)))
    case RecheckExpiry(c) => Goto(s, c, RecheckedExpiry(s.callers[c].token, s.expires))
    case Recheck(c) =>
      var pc := s.callers[c];
      if pc.expiry.Some? && pc.token != "" && Fresh(s.now, pc.expiry.value) then Leave(s, c, Token(pc.token))
      else Goto(s, c, Stale)
    case ReadRefresh(c) =>
      if Get(s, RefreshToken) == "" then Leave(s, c, Failed) else Goto(s, c, HasRefresh(Get(s, RefreshToken)))
    case ReadBase(c) =>
      if Get(s, BaseURL) == "" || BadProvider(provider) then Leave(s, c, Failed)
      else Goto(s, c, Ready(s.callers[c].refresh, Get(s, BaseURL)))
    case Post(c) => Goto(s, c, Posted(s.callers[c].refresh, s.callers[c].base))
    case Respond(c, r) =>
      if r == None || r.value.access == "" then Leave(s, c, Failed)
      else
        var tokens := TokensToSave(s, provider, r.value, s.callers[c].refresh, s.callers[c].base);
        Goto(s, c, Saving(0, tokens, RecordedExpiry(s.now, r.value.expiresIn)))
    case SaveKey(c, ok) =>
      var pc := s.callers[c];
      var key := SAVE_ORDER[pc.next];
      var s' := s.(fields := SetOrDelete(s.fields, key, pc.tokens[key]));
      if ok then Goto(s', c, pc.(next := pc.next + 1)) else Leave(s', c, Failed)
    case SaveExpiry(c, ok) =>
      var pc := s.callers[c];
      var s' := s.(expires := pc.expiry);
      Leave(s', c, if ok && Access in pc.tokens then Token(pc.tokens[Access]) else Failed)
  }

  /** A run from a store filled by anyone before, with no caller under way. */
  ghost predicate IsRun(ss: seq<State>, ls: seq<Label>, provider: string) {
    && |ss| == |ls| + 1
    && ss[0].mu == None && ss[0].callers == map[]
    && forall i {:trigger ls[i]} :: 0 <= i < |ls| ==>
      Enabled(ls[i], ss[i]) && ss[i + 1] == Apply(ls[i], ss[i], provider)
  }

  // ----- The invariant: one caller inside mu, and what it has saved so far

  predicate InLock(pc: Pc) {
    pc.Locked? || pc.Rechecked? || pc.RecheckedExpiry? || PastRecheck(pc)
  }

  predicate PastRecheck(pc: Pc) {
    pc.Stale? || pc.HasRefresh? || pc.Ready? || pc.Posted? || pc.Saving?
  }

  predicate MutexInv(s: State) {
    forall c :: c in s.callers && InLock(s.callers[c]) ==> s.mu == Some(c)
  }

  predicate Inv(s: State) {
    && MutexInv(s)
    && (forall c :: c in s.callers && s.callers[c].Saving? ==> SavingInv(s, s.callers[c]))
  }

  predicate SavingInv(s: State, pc: Pc)
    requires pc.Saving?
  {
    && pc.next <= |SAVE_ORDER|
    && (forall key :: key in SAVE_ORDER ==> key in pc.tokens)
    && pc.tokens[Access] != ""
    && (pc.next >= 2 ==> Get(s, Access) == pc.tokens[Access])
  }

  lemma MutexStep(l: Label, s: State, provider: string)
    requires MutexInv(s) && Enabled(l, s)
    ensures MutexInv(Apply(l, s, provider))
  {
  }

  lemma SavingStepOfAnother(l: Label, s: State, provider: string, c: Caller)
    requires MutexInv(s) && Enabled(l, s) && c in s.callers && s.callers[c].Saving? && SavingInv(s, s.callers[c])
    requires l.Tick? || l.c != c
    ensures Apply(l, s, provider).callers[c].Saving?
              && SavingInv(Apply(l, s, provider), Apply(l, s, provider).callers[c])
  {
    assert InLock(s.callers[c]);
    assert l.SaveKey? ==> InLock(s.callers[l.c]);
  }

  lemma OwnSavingStep(l: Label, s: State, provider: string)
    requires Enabled(l, s) && !l.Tick? && l.c in s.callers && (s.callers[l.c].Saving? ==> SavingInv(s, s.callers[l.c]))
    ensures Apply(l, s, provider).callers[l.c].Saving? ==>
              SavingInv(Apply(l, s, provider), Apply(l, s, provider).callers[l.c])
  {
    assert SAVE_ORDER[1] == Access;
  }

  lemma SavingStep(l: Label, s: State, provider: string, c: Caller)
    requires MutexInv(s) && Enabled(l, s) && c in s.callers
    requires s.callers[c].Saving? ==> SavingInv(s, s.callers[c])
    ensures Apply(l, s, provider).callers[c].Saving? ==>
              SavingInv(Apply(l, s, provider), Apply(l, s, provider).callers[c])
  {
    if l.Tick? || l.c != c {
      if s.callers[c].Saving? { SavingStepOfAnother(l, s, provider, c); }
    } else {
      OwnSavingStep(l, s, provider);
    }
  }

  lemma InvStep(l: Label, s: State, provider: string)
    requires Inv(s) && Enabled(l, s)
    ensures Inv(Apply(l, s, provider))
  {
    var s' := Apply(l, s, provider);
    MutexStep(l, s, provider);
    forall c | c in s'.callers && s'.callers[c].Saving? ensures SavingInv(s', s'.callers[c]) {
      SavingStep(l, s, provider, c);
    }
  }

  lemma {:induction false} InvOnRun(ss: seq<State>, ls: seq<Label>, provider: string, i: nat)
    requires IsRun(ss, ls, provider) && i <= |ls|
    ensures Inv(ss[i])
  {
    if i > 0 {
      InvOnRun(ss, ls, provider, i - 1);
      InvStep(ls[i - 1], ss[i - 1], provider);
    }
  }

  // ----- Single flight

  /** Nobody is past the locked re-check, and whoever is not in `before` works with `token` and `expiry`. */
  predicate Settled(s: State, token: string, expiry: nat, before: set<Caller>) {
    && s.expires == Some(expiry) && Get(s, Access) == token && token != ""
    && forall c :: c in s.callers ==> SettledPc(s.callers[c], token, expiry, c in before)
  }

  predicate SettledPc(pc: Pc, token: string, expiry: nat, earlier: bool) {
    && !PastRecheck(pc)
    && (pc.Rechecked? ==> pc.token == token)
    && (pc.RecheckedExpiry? ==> pc.token == token && pc.expiry == Some(expiry))
    && (earlier || ((pc.HasToken? ==> pc.token == token)
                && (pc.HasExpiry? ==> pc.token == token && pc.expiry == Some(expiry))
                && (pc.Done? ==> pc.outcome == Token(token))))
  }

  lemma SettledStep(l: Label, s: State, provider: string, token: string, expiry: nat, before: set<Caller>)
    requires Enabled(l, s) && Settled(s, token, expiry, before) && Fresh(s.now, expiry) && before <= s.callers.Keys
    ensures !l.Post? && Settled(Apply(l, s, provider), token, expiry, before)
              && before <= Apply(l, s, provider).callers.Keys
  {
  }

  lemma SettledAtSave(s: State, l: Label, provider: string)
    requires Inv(s) && Enabled(l, s) && l.SaveExpiry? && l.ok && s.callers[l.c].expiry.Some?
    ensures Access in s.callers[l.c].tokens
    ensures var s' := Apply(l, s, provider);
            Settled(s', s.callers[l.c].tokens[Access], s.callers[l.c].expiry.value, s'.callers.Keys)
  {
    assert SavingInv(s, s.callers[l.c]) && Access in SAVE_ORDER;
    assert forall c :: c in s.callers && InLock(s.callers[c]) ==> c == l.c;
  }

  lemma TimeStep(l: Label, s: State, provider: string)
    requires Enabled(l, s)
    ensures s.now <= Apply(l, s, provider).now
  {
  }

  /** Once settled, a run stays settled as long as the window lasts. */
  lemma {:induction false} SettledOnRun(ss: seq<State>, ls: seq<Label>, provider: string, i: nat, j: nat,
                                        token: string, expiry: nat)
    requires IsRun(ss, ls, provider) && i <= j <= |ls|
    requires Settled(ss[i], token, expiry, ss[i].callers.Keys) && Fresh(ss[j].now, expiry)
    ensures Settled(ss[j], token, expiry, ss[i].callers.Keys) && ss[i].callers.Keys <= ss[j].callers.Keys
  {
    if i < j {
      TimeStep(ls[j - 1], ss[j - 1], provider);
      SettledOnRun(ss, ls, provider, i, j - 1, token, expiry);
      SettledStep(ls[j - 1], ss[j - 1], provider, token, expiry, ss[i].callers.Keys);
    }
  }

  /** What a caller is saving comes from its response. */
  lemma {:induction false} SavingWasReceived(ss: seq<State>, ls: seq<Label>, provider: string, i: nat, c: Caller)
    returns (h: nat, r: Response)
    requires IsRun(ss, ls, provider) && i <= |ls| && c in ss[i].callers && ss[i].callers[c].Saving?
    ensures h < i && ls[h] == Respond(c, Some(r)) && r.access != ""
    ensures ss[i].callers[c].expiry == RecordedExpiry(ss[h].now, r.expiresIn)
    ensures Access in ss[i].callers[c].tokens && ss[i].callers[c].tokens[Access] == r.access
  {
    assert i > 0;
    var s, l := ss[i - 1], ls[i - 1];
    if c in s.callers && s.callers[c].Saving? {
      h, r := SavingWasReceived(ss, ls, provider, i - 1, c);
    } else {
      h, r := i - 1, l.r.value;
    }
  }

  /** The recorded expiry opens a window of time without refreshes exactly when `expires_in` exceeds 300. */
  lemma WindowIsOpen(now: nat, expiresIn: int)
    ensures (RecordedExpiry(now, expiresIn).Some? && Fresh(now, RecordedExpiry(now, expiresIn).value)) <==>
            expiresIn > 300
  {
    var whole, rest := now / SECOND, now % SECOND;
    assert now == whole * SECOND + rest;
    if expiresIn > 0 {
      var t := now + expiresIn * SECOND;
      assert t == (whole + expiresIn) * SECOND + rest;
      assert t / SECOND == whole + expiresIn;
    }
  }

  /** Once a refresh has succeeded with `expires_in` above 300, no caller sends another POST until the
      recorded expiry minus five minutes, which lies after the moment of the response. */
  lemma SingleFlight(ss: seq<State>, ls: seq<Label>, provider: string, i: nat, j: nat) returns (h: nat, r: Response)
    requires IsRun(ss, ls, provider) && i < j < |ls| && ls[i].SaveExpiry? && ls[i].ok && ls[j].Post?
    ensures h < i && ls[h] == Respond(ls[i].c, Some(r))
    ensures r.expiresIn > 300 ==>
              RecordedExpiry(ss[h].now, r.expiresIn).Some?
              && ss[j].now >= RecordedExpiry(ss[h].now, r.expiresIn).value - GRACE > ss[h].now
  {
    h, r := SavingWasReceived(ss, ls, provider, i, ls[i].c);
    WindowIsOpen(ss[h].now, r.expiresIn);
    if r.expiresIn > 300 {
      var expiry := RecordedExpiry(ss[h].now, r.expiresIn).value;
      if Fresh(ss[j].now, expiry) {
        InvOnRun(ss, ls, provider, i);
        SettledAtSave(ss[i], ls[i], provider);
        SettledOnRun(ss, ls, provider, i + 1, j, r.access, expiry);
        SettledStep(ls[j], ss[j], provider, r.access, expiry, ss[i + 1].callers.Keys);
      }
    }
  }

  /** A call that begins after a successful refresh and returns inside its window returns the token
      of that refresh, whether it went through `LoadAccessToken` or `Refresh`. */
  lemma LaterCallsGetTheNewToken(ss: seq<State>, ls: seq<Label>, provider: string, i: nat, j: nat, c: Caller)
    returns (h: nat, r: Response)
    requires IsRun(ss, ls, provider) && i < j <= |ls| && ls[i].SaveExpiry? && ls[i].ok
    requires c !in ss[i + 1].callers && c in ss[j].callers && ss[j].callers[c].Done?
    ensures h < i && ls[h] == Respond(ls[i].c, Some(r))
    ensures r.expiresIn > 0 && Fresh(ss[j].now, RecordedExpiry(ss[h].now, r.expiresIn).value) ==>
              ss[j].callers[c] == Done(Token(r.access))
  {
    h, r := SavingWasReceived(ss, ls, provider, i, ls[i].c);
    if r.expiresIn > 0 && Fresh(ss[j].now, RecordedExpiry(ss[h].now, r.expiresIn).value) {
      InvOnRun(ss, ls, provider, i);
      SettledAtSave(ss[i], ls[i], provider);
      SettledOnRun(ss, ls, provider, i + 1, j, r.access, RecordedExpiry(ss[h].now, r.expiresIn).value);
    }
  }

  /** At most one caller is between its locked re-check and the end of `Save`: POSTs never overlap. */
  lemma OneRefreshAtATime(ss: seq<State>, ls: seq<Label>, provider: string, i: nat, c: Caller, d: Caller)
    requires IsRun(ss, ls, provider) && i <= |ls|
    requires c in ss[i].callers && d in ss[i].callers && InLock(ss[i].callers[c]) && InLock(ss[i].callers[d])
    ensures c == d && ss[i].mu == Some(c)
  {
    InvOnRun(ss, ls, provider, i);
  }

  // ----- What a refresh stores

  /** Inside the lock a caller works with the refresh token and the base URL that are stored. */
  predicate WorksWith(s: State, pc: Pc) {
    match pc
    case HasRefresh(refresh) => refresh == Get(s, RefreshToken) != ""
    case Ready(refresh, base) => refresh == Get(s, RefreshToken) != "" && base == Get(s, BaseURL) != ""
    case Posted(refresh, base) => refresh == Get(s, RefreshToken) != "" && base == Get(s, BaseURL) != ""
    case _ => true
  }

  lemma WorksWithStep(l: Label, s: State, provider: string, c: Caller)
    requires MutexInv(s) && Enabled(l, s) && c in Apply(l, s, provider).callers
    requires c in s.callers ==> WorksWith(s, s.callers[c])
    ensures WorksWith(Apply(l, s, provider), Apply(l, s, provider).callers[c])
  {
    if l.SaveKey? && c != l.c {
      assert InLock(s.callers[l.c]) && !InLock(s.callers[c]);
    }
  }

  lemma {:induction false} WorksWithOnRun(ss: seq<State>, ls: seq<Label>, provider: string, i: nat, c: Caller)
    requires IsRun(ss, ls, provider) && i <= |ls| && c in ss[i].callers
    ensures WorksWith(ss[i], ss[i].callers[c])
  {
    if i > 0 {
      InvOnRun(ss, ls, provider, i - 1);
      if c in ss[i - 1].callers { WorksWithOnRun(ss, ls, provider, i - 1, c); }
      WorksWithStep(ls[i - 1], ss[i - 1], provider, c);
    }
  }

  /** A request carries the refresh token that is stored at that moment, to the base URL that is stored. */
  lemma PostsCarryTheStoredToken(ss: seq<State>, ls: seq<Label>, provider: string, i: nat)
    requires IsRun(ss, ls, provider) && i < |ls| && ls[i].Post?
    ensures ss[i].callers[ls[i].c].refresh == Get(ss[i], RefreshToken) != ""
    ensures ss[i].callers[ls[i].c].base == Get(ss[i], BaseURL) != ""
  {
    WorksWithOnRun(ss, ls, provider, i, ls[i].c);
  }

  /** The keys in front of the next one are stored. */
  predicate HasSaved(s: State, tokens: map<Key, string>, next: nat) {
    forall k :: 0 <= k < next && k < |SAVE_ORDER| ==>
      SAVE_ORDER[k] in tokens && Get(s, SAVE_ORDER[k]) == tokens[SAVE_ORDER[k]]
  }

  lemma SaveOrderIsDistinct(k: nat, n: nat)
    requires k < n < |SAVE_ORDER|
    ensures SAVE_ORDER[k] != SAVE_ORDER[n]
  {
    assert SAVE_ORDER[0] == Provider && SAVE_ORDER[1] == Access && SAVE_ORDER[2] == RefreshToken;
    assert SAVE_ORDER[3] == TokenType && SAVE_ORDER[4] == Scope && SAVE_ORDER[5] == Email;
    assert SAVE_ORDER[6] == Username && SAVE_ORDER[7] == BaseURL;
  }

  lemma SaveOneMore(s: State, s': State, tokens: map<Key, string>, next: nat)
    requires next < |SAVE_ORDER| && SAVE_ORDER[next] in tokens && HasSaved(s, tokens, next)
    requires s'.fields == SetOrDelete(s.fields, SAVE_ORDER[next], tokens[SAVE_ORDER[next]])
    ensures HasSaved(s', tokens, next + 1)
  {
    forall k | 0 <= k < next ensures SAVE_ORDER[k] != SAVE_ORDER[next] { SaveOrderIsDistinct(k, next); }
  }

  lemma {:induction false} HasSavedOnRun(ss: seq<State>, ls: seq<Label>, provider: string, i: nat, c: Caller)
    requires IsRun(ss, ls, provider) && i <= |ls| && c in ss[i].callers && ss[i].callers[c].Saving?
    ensures HasSaved(ss[i], ss[i].callers[c].tokens, ss[i].callers[c].next)
  {
    assert i > 0;
    var s, l := ss[i - 1], ls[i - 1];
    assert ss[i] == Apply(l, s, provider);
    InvOnRun(ss, ls, provider, i - 1);
    if c in s.callers && s.callers[c].Saving? {
      HasSavedOnRun(ss, ls, provider, i - 1, c);
      if l.SaveKey? {
        assert InLock(s.callers[l.c]) && InLock(s.callers[c]);
        SaveOneMore(s, ss[i], s.callers[c].tokens, s.callers[c].next);
      } else {
        assert ss[i].fields == s.fields && ss[i].callers[c] == s.callers[c];
      }
    }
  }

  /** The tokens of a response; where it leaves one out, the refresh token, the e-mail address and the user
      name are those stored when it came, and the provider is the caller's. */
  predicate IsAnswer(token: string, key: Key, r: Response, was: State, provider: string) {
    match key
    case Provider => token == if r.provider != "" then r.provider else provider
    case Access => token == r.access
    case RefreshToken => token == if r.refresh != "" then r.refresh else Get(was, RefreshToken)
    case TokenType => token == r.tokenType
    case Scope => token == r.scope
    case Email => token == if r.email != "" then r.email else Get(was, Email)
    case Username => token == if r.username != "" then r.username else Get(was, Username)
    case BaseURL => token == TrimRight(Get(was, BaseURL), IsSlash)
  }

  predicate AreAnswer(tokens: map<Key, string>, r: Response, was: State, provider: string) {
    forall key :: key in tokens ==> IsAnswer(tokens[key], key, r, was, provider)
  }

  predicate HoldsAnswer(s: State, r: Response, was: State, provider: string) {
    forall key {:trigger Get(s, key)} :: IsAnswer(Get(s, key), key, r, was, provider)
  }

  lemma TokensToSaveAreAnswer(s: State, provider: string, r: Response)
    ensures AreAnswer(TokensToSave(s, provider, r, Get(s, RefreshToken), Get(s, BaseURL)), r, s, provider)
  {
  }

  lemma {:induction false} SavingIsTheAnswer(ss: seq<State>, ls: seq<Label>, provider: string, i: nat, c: Caller)
    returns (h: nat, r: Response)
    requires IsRun(ss, ls, provider) && i <= |ls| && c in ss[i].callers && ss[i].callers[c].Saving?
    ensures h < i && ls[h] == Respond(c, Some(r))
    ensures ss[i].callers[c].expiry == RecordedExpiry(ss[h].now, r.expiresIn)
    ensures AreAnswer(ss[i].callers[c].tokens, r, ss[h], provider)
  {
    assert i > 0;
    var s, l := ss[i - 1], ls[i - 1];
    assert ss[i] == Apply(l, s, provider);
    if c in s.callers && s.callers[c].Saving? {
      h, r := SavingIsTheAnswer(ss, ls, provider, i - 1, c);
      assert ss[i].callers[c].tokens == s.callers[c].tokens && ss[i].callers[c].expiry == s.callers[c].expiry;
    } else {
      h, r := i - 1, l.r.value;
      WorksWithOnRun(ss, ls, provider, i - 1, c);
      TokensToSaveAreAnswer(s, provider, r);
    }
  }

  lemma AllSaved(s: State, after: State, tokens: map<Key, string>, key: Key)
    requires HasSaved(s, tokens, |SAVE_ORDER|) && after.fields == s.fields
    ensures key in tokens && Get(after, key) == tokens[key]
  {
    assert SAVE_ORDER[0] == Provider && SAVE_ORDER[1] == Access && SAVE_ORDER[2] == RefreshToken;
    assert SAVE_ORDER[3] == TokenType && SAVE_ORDER[4] == Scope && SAVE_ORDER[5] == Email;
    assert SAVE_ORDER[6] == Username && SAVE_ORDER[7] == BaseURL;
  }

  lemma SavedIsHeld(s: State, after: State, tokens: map<Key, string>, r: Response, was: State, provider: string)
    requires HasSaved(s, tokens, |SAVE_ORDER|) && after.fields == s.fields && AreAnswer(tokens, r, was, provider)
    ensures HoldsAnswer(after, r, was, provider)
  {
    forall key {:trigger Get(after, key)} ensures IsAnswer(Get(after, key), key, r, was, provider) {
      AllSaved(s, after, tokens, key);
      assert IsAnswer(tokens[key], key, r, was, provider);
    }
  }

  /** When a refresh has gone through all keys, each holds its part of the answer, and the expiry is that of
      the answer, up to the fraction of a second that is not recorded. */
  lemma RefreshStoresTheAnswer(ss: seq<State>, ls: seq<Label>, provider: string, i: nat) returns (h: nat, r: Response)
    requires IsRun(ss, ls, provider) && i < |ls| && ls[i].SaveExpiry?
    ensures h < i && ls[h] == Respond(ls[i].c, Some(r))
    ensures HoldsAnswer(ss[i + 1], r, ss[h], provider)
    ensures ss[i + 1].callers[ls[i].c] == Done(if ls[i].ok then Token(r.access) else Failed)
    ensures ss[i + 1].expires.Some? <==> r.expiresIn > 0
    ensures r.expiresIn > 0 ==>
              var end := ss[h].now + r.expiresIn * 1_000_000_000;
              end - 1_000_000_000 < ss[i + 1].expires.value <= end
  {
    var c := ls[i].c;
    h, r := SavingIsTheAnswer(ss, ls, provider, i, c);
    HasSavedOnRun(ss, ls, provider, i, c);
    AllSaved(ss[i], ss[i], ss[i].callers[c].tokens, Access);
    assert ss[i + 1] == Apply(ls[i], ss[i], provider);
    SavedIsHeld(ss[i], ss[i + 1], ss[i].callers[c].tokens, r, ss[h], provider);
  }

  /** A stored token without expiry, or with more than five minutes left, is returned without a refresh, and
      no other is. */
  lemma FreshTokensAreReturned(ss: seq<State>, ls: seq<Label>, provider: string, i: nat)
    requires IsRun(ss, ls, provider) && i < |ls| && ls[i].Check?
    ensures var was, now := ss[i].callers[ls[i].c], ss[i + 1].callers[ls[i].c];
            if was.expiry == None || ss[i].now + 300_000_000_000 < was.expiry.value
            then now == Done(Token(was.token)) else now == WantLock
  {
    assert ss[i + 1] == Apply(ls[i], ss[i], provider);
  }
}
