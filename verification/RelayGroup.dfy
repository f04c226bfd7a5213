/** The chat relay credential of several accounts (core/api_token.go and cli/chat_relay.go): the
    device tokens an APITokenManager keeps in a secrets store, their refresh against the hosted
    relay, and the group of accounts that share one relay connector. Managers of a group may share
    a store, or be the same object. */
module RelayGroup {
  import opened Text
  import opened Secrets

  datatype Tokens = Tokens(device: string, access: string, refresh: string)

  /** The answer to POST /devices/refresh. */
  datatype Reply =
    TransportError | Status(code: int) | Undecodable | Body(device: string, access: string, refresh: string)

  datatype RefreshResult = Refreshed(tokens: Tokens) | NotConfigured | Invalid | Failed

  const DEVICE_KEY := "chat_relay_device_id"
  const ACCESS_KEY := "chat_relay_access_token"
  const REFRESH_KEY := "chat_relay_refresh_token"

  const TOKEN_KEYS := {DEVICE_KEY, ACCESS_KEY, REFRESH_KEY}

  /** `host` is what url.Parse finds, if it can parse the URL. */
  datatype Url = Url(host: Option<string>)

  function NamespaceForURL(url: Url): string {
    match url.host case None => "kittypaw-api/unknown" case Some(host) => "kittypaw-api/" + host
  }

  /** Two accounts share a namespace exactly if their URLs have the same host, where a URL that does not parse
      counts as one with host "unknown". */
  lemma NamespacesAreHosts(a: Url, b: Url)
    ensures NamespaceForURL(a) == NamespaceForURL(b) <==>
              (if a.host.Some? then a.host.value else "unknown") == (if b.host.Some? then b.host.value else "unknown")
  {
    var front := "kittypaw-api/";
    var x, y := if a.host.Some? then a.host.value else "unknown", if b.host.Some? then b.host.value else "unknown";
    assert NamespaceForURL(a) == front + x && NamespaceForURL(b) == front + y;
    assert (front + x)[|front|..] == x && (front + y)[|front|..] == y;
  }

  predicate Complete(tokens: Tokens) {
    tokens.device != "" && tokens.access != "" && tokens.refresh != ""
  }

  /** decodeChatRelayDeviceTokenResponse and the fallback to the current device id. */
  function Rotate(reply: Reply, device: string): Option<Tokens> {
    if reply.Body? && reply.access != "" && reply.refresh != ""
    then Some(Tokens(if reply.device == "" then device else reply.device, reply.access, reply.refresh))
    else None
  }

  /** What is left of the credential `was` after saving `tokens` over it: a key whose write to disk fails has
      changed in memory all the same, and the keys behind it are never reached. */
  function PartlySaved(was: Tokens, tokens: Tokens, good: nat): Tokens {
    Tokens(tokens.device, if good >= 1 then tokens.access else was.access,
           if good >= 2 then tokens.refresh else was.refresh)
  }

  /** What a refresh leaves of the credential `was`. */
  function AfterRefresh(was: Tokens, reply: Reply, good: nat): Option<Tokens> {
    if reply == Status(401) then None
    else
      match Rotate(reply, was.device)
      case None => Some(was)
      case Some(tokens) => Some(PartlySaved(was, tokens, good))
  }

  /** The three keys of a namespace. */
  datatype Slots = Slots(device: Option<string>, access: Option<string>, refresh: Option<string>)

  const NO_SLOTS := Slots(None, None, None)

  function SlotsIn(entries: map<string, string>): Slots {
    Slots(if DEVICE_KEY in entries then Some(entries[DEVICE_KEY]) else None,
          if ACCESS_KEY in entries then Some(entries[ACCESS_KEY]) else None,
          if REFRESH_KEY in entries then Some(entries[REFRESH_KEY]) else None)
  }

  /** The complete credential in the three keys, if there is one. */
  function TokensIn(slots: Slots): (r: Option<Tokens>)
    ensures r.Some? ==> Complete(r.value)
  {
    if slots.device.Some? && slots.access.Some? && slots.refresh.Some?
       && Complete(Tokens(slots.device.value, slots.access.value, slots.refresh.value))
    then Some(Tokens(slots.device.value, slots.access.value, slots.refresh.value)) else None
  }

  /** What the keys are after saving a complete credential over them. */
  function Written(slots: Slots, tokens: Tokens, good: nat): Slots {
    Slots(Some(tokens.device), if good >= 1 then Some(tokens.access) else slots.access,
          if good >= 2 then Some(tokens.refresh) else slots.refresh)
  }

  lemma WrittenTokens(slots: Slots, tokens: Tokens, good: nat)
    requires Complete(tokens)
    ensures good >= 2 ==> TokensIn(Written(slots, tokens, good)) == Some(tokens)
    ensures TokensIn(slots).Some? ==>
              TokensIn(Written(slots, tokens, good)) == Some(PartlySaved(TokensIn(slots).value, tokens, good))
  {
  }

  class APITokenManager {
    const secrets: SecretsStore

    constructor (secrets: SecretsStore)
      ensures this.secrets == secrets
    {
      this.secrets := secrets;
    }

    function Stored(ns: string): Slots
      reads secrets
    {
      SlotsIn(Entries(secrets.data, ns))
    }

    /** The complete credential stored under a namespace, if there is one. */
    function Load(ns: string): (r: Option<Tokens>)
      reads secrets
      ensures r.Some? ==> Complete(r.value)
      ensures r.Some? ==>
                && secrets.Get(ns, DEVICE_KEY) == Some(r.value.device)
                && secrets.Get(ns, ACCESS_KEY) == Some(r.value.access)
                && secrets.Get(ns, REFRESH_KEY) == Some(r.value.refresh)
      ensures r.None? ==>
                || secrets.Get(ns, DEVICE_KEY) in {None, Some("")} || secrets.Get(ns, ACCESS_KEY) in {None, Some("")}
                || secrets.Get(ns, REFRESH_KEY) in {None, Some("")}
    {
      TokensIn(Stored(ns))
    }

    method SaveOrDelete(ns: string, key: string, value: string, diskOk: bool) returns (ok: bool)
      modifies secrets, secrets.file
      ensures diskOk ==> ok
      ensures value == "" ==> secrets.Get(ns, key) == None
      ensures value != "" ==> ok == diskOk && secrets.Get(ns, key) == Some(value)
      ensures forall q :: q != ns ==> Entries(secrets.data, q) == old(Entries(secrets.data, q))
      ensures Entries(secrets.data, ns) ==
              if value == "" then old(Entries(secrets.data, ns)) - {key}
              else old(Entries(secrets.data, ns))[key := value]
    {
      if value == "" {
        ok := secrets.Delete(ns, key, diskOk);
      } else {
        ok := secrets.Set(ns, key, value, diskOk);
      }
    }

    /** Save the three keys one after the other; the first `good` writes to disk succeed. */
    method Save(ns: string, tokens: Tokens, good: nat) returns (ok: bool)
      modifies secrets, secrets.file
      ensures good >= 3 ==> ok
      ensures Complete(tokens) ==> ok == (good >= 3)
      ensures ok && Complete(tokens) ==> Load(ns) == Some(tokens)
      ensures old(Load(ns)).Some? && Complete(tokens) ==>
                Load(ns) == Some(PartlySaved(old(Load(ns)).value, tokens, good))
      ensures old(Load(ns)) == Some(tokens) ==> Load(ns) == Some(tokens)
      ensures Complete(tokens) ==> Stored(ns) == Written(old(Stored(ns)), tokens, good)
      ensures Complete(tokens) ==>
                && secrets.Get(ns, DEVICE_KEY) == Some(tokens.device)
                && secrets.Get(ns, ACCESS_KEY) ==
                   (if good >= 1 then Some(tokens.access) else old(secrets.Get(ns, ACCESS_KEY)))
                && secrets.Get(ns, REFRESH_KEY) ==
                   (if good >= 2 then Some(tokens.refresh) else old(secrets.Get(ns, REFRESH_KEY)))
      ensures Entries(secrets.data, ns) - TOKEN_KEYS == old(Entries(secrets.data, ns)) - TOKEN_KEYS
      ensures forall q :: q != ns ==> Entries(secrets.data, q) == old(Entries(secrets.data, q))
    {
      ok := SaveOrDelete(ns, DEVICE_KEY, tokens.device, good >= 1);
      if !ok { return; }
      ok := SaveOrDelete(ns, ACCESS_KEY, tokens.access, good >= 2);
      if !ok { return; }
      ok := SaveOrDelete(ns, REFRESH_KEY, tokens.refresh, good >= 3);
    }

    method Clear(ns: string, good: nat) returns (ok: bool)
      modifies secrets, secrets.file
      ensures good >= 3 ==> ok
      ensures Load(ns) == None
      ensures Entries(secrets.data, ns) - TOKEN_KEYS == old(Entries(secrets.data, ns)) - TOKEN_KEYS
      ensures forall q :: q != ns ==> Entries(secrets.data, q) == old(Entries(secrets.data, q))
    {
      ok := secrets.Delete(ns, DEVICE_KEY, good >= 1);
      if !ok { return; }
      ok := secrets.Delete(ns, ACCESS_KEY, good >= 2);
      if !ok { return; }
      ok := secrets.Delete(ns, REFRESH_KEY, good >= 3);
    }

    /** RefreshChatRelayDeviceToken: success leaves exactly the rotated credential stored, a 401 leaves none,
        every other failure before saving leaves the old one, and a failure of saving a mixture. */
    method Refresh(ns: string, reply: Reply, good: nat) returns (r: RefreshResult)
      modifies secrets, secrets.file
      ensures r.NotConfigured? <==> old(Load(ns)).None?
      ensures r.Invalid? <==> old(Load(ns)).Some? && reply == Status(401)
      ensures r.Refreshed? <==>
                old(Load(ns)).Some? && reply.Body? && reply.access != "" && reply.refresh != "" && good >= 3
      ensures r.Refreshed? ==>
                && secrets.Get(ns, ACCESS_KEY) == Some(reply.access)
                && secrets.Get(ns, REFRESH_KEY) == Some(reply.refresh)
                && secrets.Get(ns, DEVICE_KEY)
                   == (if reply.device == "" then old(secrets.Get(ns, DEVICE_KEY)) else Some(reply.device))
      ensures old(Load(ns)).Some? ==> Load(ns) == AfterRefresh(old(Load(ns)).value, reply, good)
      ensures r.Refreshed? <==> old(Load(ns)).Some? && Rotate(reply, "").Some? && good >= 3
      ensures r.Refreshed? ==> Rotate(reply, old(Load(ns)).value.device) == Some(r.tokens) && Complete(r.tokens)
      ensures r.Refreshed? ==> Load(ns) == Some(r.tokens)
      ensures r.NotConfigured? || (r.Failed? && Rotate(reply, "").None?) ==> secrets.data == old(secrets.data)
      ensures Entries(secrets.data, ns) - TOKEN_KEYS == old(Entries(secrets.data, ns)) - TOKEN_KEYS
      ensures forall q :: q != ns ==> Entries(secrets.data, q) == old(Entries(secrets.data, q))
    {
      var current := Load(ns);
      if current.None? {
        return NotConfigured;
      }
      match reply
      case TransportError => return Failed;
      case Undecodable => return Failed;
      case Status(code) =>
        if code == 401 {
          var _ := Clear(ns, good);
          return Invalid;
        }
        return Failed;
      case Body(_, _, _) =>
        var rotated := Rotate(reply, current.value.device);
        if rotated.None? {
          return Failed;
        }
        var ok := Save(ns, rotated.value, good);
        return if ok then Refreshed(rotated.value) else Failed;
    }

    /** EnsureChatRelayDeviceAccessToken; `expired` is whether the stored access token is about to expire. */
    method Ensure(ns: string, expired: bool, reply: Reply, good: nat) returns (r: RefreshResult)
      modifies secrets, secrets.file
      ensures r.NotConfigured? <==> old(Load(ns)).None?
      ensures r.Invalid? <==> old(Load(ns)).Some? && expired && reply == Status(401)
      ensures old(Load(ns)).Some? && expired ==> Load(ns) == AfterRefresh(old(Load(ns)).value, reply, good)
      ensures r.Refreshed? <==> old(Load(ns)).Some? && (expired ==> Rotate(reply, "").Some? && good >= 3)
      ensures r.Refreshed? ==> Load(ns) == Some(r.tokens)
      ensures r.Refreshed? && expired ==> Rotate(reply, old(Load(ns)).value.device) == Some(r.tokens)
      ensures r.Refreshed? && expired ==>
                && reply.Body? && r.tokens.access == reply.access && r.tokens.refresh == reply.refresh
                && r.tokens.device == if reply.device == "" then old(Load(ns)).value.device else reply.device
      ensures !expired ==> secrets.data == old(secrets.data)
      ensures r.NotConfigured? || (r.Failed? && Rotate(reply, "").None?) ==> secrets.data == old(secrets.data)
      ensures Entries(secrets.data, ns) - TOKEN_KEYS == old(Entries(secrets.data, ns)) - TOKEN_KEYS
      ensures forall q :: q != ns ==> Entries(secrets.data, q) == old(Entries(secrets.data, q))
    {
      var tokens := Load(ns);
      if tokens.None? {
        return NotConfigured;
      }
      if !expired {
        return Refreshed(tokens.value);
      }
      r := Refresh(ns, reply, good);
    }
  }

  /** A grouped account; `mgr` may be missing. */
  datatype Source = Source(url: Url, mgr: APITokenManager?)

  /** What happens around the refresh of one source: whether the context is done by then, the server's
      answer, and how many key writes succeed when refreshing and when copying to each target. */
  datatype Env = Env(done: bool, expired: bool, reply: Reply, good: nat, copies: seq<nat>)

  datatype Outcome =
    Credential(access: string) | SaveFailed | ContextDone | CredentialInvalid | LastError | NoSource

  ghost function StoreOf(s: Source): set<object> {
    if s.mgr == null then {} else {s.mgr.secrets, s.mgr.secrets.file}
  }

  ghost function Stores(sources: seq<Source>): set<object> {
    if sources == [] then {} else Stores(sources[..|sources| - 1]) + StoreOf(sources[|sources| - 1])
  }

  lemma {:induction false} StoresEach(sources: seq<Source>, i: nat)
    requires i < |sources|
    ensures StoreOf(sources[i]) <= Stores(sources)
  {
    if i < |sources| - 1 { StoresEach(sources[..|sources| - 1], i); }
  }

  function DataOf(s: Source): Store
    reads if s.mgr == null then {} else {s.mgr.secrets}
  {
    if s.mgr == null then map[] else s.mgr.secrets.data
  }

  /** What is in the store of each source. */
  ghost function Datas(sources: seq<Source>): (datas: seq<Store>)
    reads Stores(sources)
    ensures |datas| == |sources|
  {
    if sources == [] then [] else Datas(sources[..|sources| - 1]) + [DataOf(sources[|sources| - 1])]
  }

  lemma {:induction false} DatasEach(sources: seq<Source>)
    ensures forall i :: 0 <= i < |sources| ==> Datas(sources)[i] == DataOf(sources[i])
  {
    if sources != [] {
      DatasEach(sources[..|sources| - 1]);
    }
  }

  /** The token keys of each source. */
  function HeldIn(sources: seq<Source>, datas: seq<Store>): seq<Slots>
    requires |datas| == |sources|
  {
    seq(|sources|, i requires 0 <= i < |sources| =>
      if sources[i].mgr == null then NO_SLOTS else SlotsIn(Entries(datas[i], NamespaceForURL(sources[i].url))))
  }

  ghost function Held(sources: seq<Source>): seq<Slots>
    reads Stores(sources)
  {
    HeldIn(sources, Datas(sources))
  }

  function LoadsIn(held: seq<Slots>): seq<Option<Tokens>> {
    seq(|held|, i requires 0 <= i < |held| => TokensIn(held[i]))
  }

  /** What each source loads. */
  ghost function Loads(sources: seq<Source>): (loads: seq<Option<Tokens>>)
    reads Stores(sources)
    ensures |loads| == |sources|
  {
    LoadsIn(Held(sources))
  }

  /** What a source loads is what its three keys hold. */
  lemma LoadedKeys(sources: seq<Source>, k: nat, tokens: Tokens)
    requires k < |sources| && sources[k].mgr != null
    ensures Loads(sources)[k] == Some(tokens) <==>
              var secrets, ns := sources[k].mgr.secrets, NamespaceForURL(sources[k].url);
              && tokens.device != "" && tokens.access != "" && tokens.refresh != ""
              && secrets.Get(ns, DEVICE_KEY) == Some(tokens.device)
              && secrets.Get(ns, ACCESS_KEY) == Some(tokens.access)
              && secrets.Get(ns, REFRESH_KEY) == Some(tokens.refresh)
  {
    DatasEach(sources);
  }

  lemma WithoutManager(sources: seq<Source>, i: nat)
    requires i < |sources| && sources[i].mgr == null
    ensures Loads(sources)[i] == None
  {
  }

  /** What a package holds beside the device tokens, if it is one of the namespaces. */
  function Remains(data: Store, spaces: set<string>, p: string): map<string, string> {
    if p in spaces then Entries(data, p) - TOKEN_KEYS else Entries(data, p)
  }

  /** Everything in a store except the device tokens of some namespaces. */
  function Rest(data: Store, spaces: set<string>): Store {
    map p | p in data && Remains(data, spaces, p) != map[] :: Remains(data, spaces, p)
  }

  lemma RestKept(was: Store, now: Store, ns: string, spaces: set<string>)
    requires ns in spaces && Entries(now, ns) - TOKEN_KEYS == Entries(was, ns) - TOKEN_KEYS
    requires forall q :: q != ns ==> Entries(now, q) == Entries(was, q)
    ensures Rest(now, spaces) == Rest(was, spaces)
  {
    forall p ensures Remains(now, spaces, p) == Remains(was, spaces, p) {
    }
    forall p | p !in was ensures Remains(was, spaces, p) == map[] {
    }
    forall p | p !in now ensures Remains(now, spaces, p) == map[] {
    }
  }

  /** The namespaces in which sources of the group keep their credentials within one store. */
  ghost function SpacesIn(sources: seq<Source>, secrets: SecretsStore): set<string> {
    set s | s in sources && s.mgr != null && s.mgr.secrets == secrets :: NamespaceForURL(s.url)
  }

  /** All that the stores of the sources hold beside the device tokens of the group: logins, base URLs, and
      the namespaces of others. */
  ghost function RestsIn(sources: seq<Source>, datas: seq<Store>): seq<Store>
    requires |datas| == |sources|
  {
    seq(|sources|, i requires 0 <= i < |sources| =>
      if sources[i].mgr == null then map[] else Rest(datas[i], SpacesIn(sources, sources[i].mgr.secrets)))
  }

  ghost function Rests(sources: seq<Source>): seq<Store>
    reads Stores(sources)
  {
    RestsIn(sources, Datas(sources))
  }

  predicate SameStore(a: Source, b: Source) { a.mgr != null && b.mgr != null && a.mgr.secrets == b.mgr.secrets }

  /** Only the store of source `i` has changed, and there only device-token keys in the source's namespace. */
  ghost predicate OnlyPlaceChanged(sources: seq<Source>, i: nat, was: seq<Store>, now: seq<Store>)
    requires i < |sources| == |was| == |now|
  {
    && (forall k :: 0 <= k < |sources| ==>
          if SameStore(sources[i], sources[k]) then was[k] == was[i] && now[k] == now[i] else now[k] == was[k])
    && var ns := NamespaceForURL(sources[i].url);
       && Entries(now[i], ns) - TOKEN_KEYS == Entries(was[i], ns) - TOKEN_KEYS
       && forall q :: q != ns ==> Entries(now[i], q) == Entries(was[i], q)
  }

  /** An operation of one manager of the group shows exactly at the sources that share its place. */
  lemma PlaceChanged(sources: seq<Source>, i: nat, was: seq<Store>, now: seq<Store>)
    requires i < |sources| == |was| == |now| && sources[i].mgr != null && OnlyPlaceChanged(sources, i, was, now)
    ensures RestsIn(sources, now) == RestsIn(sources, was)
    ensures forall k :: 0 <= k < |sources| ==>
              if SamePlace(sources[i], sources[k])
              then && HeldIn(sources, now)[k] == HeldIn(sources, now)[i]
                   && HeldIn(sources, was)[k] == HeldIn(sources, was)[i]
              else HeldIn(sources, now)[k] == HeldIn(sources, was)[k]
  {
    var ns, secrets := NamespaceForURL(sources[i].url), sources[i].mgr.secrets;
    forall k | 0 <= k < |sources| ensures RestsIn(sources, now)[k] == RestsIn(sources, was)[k] {
      if SameStore(sources[i], sources[k]) {
        RestKept(was[i], now[i], ns, SpacesIn(sources, secrets));
      }
    }
  }

  predicate CanRotate(e: Env) { Rotate(e.reply, "").Some? && e.good >= 3 }

  predicate IsRejected(e: Env) { e.reply == Status(401) }

  /** RefreshCredential always sends a request, EnsureFreshCredential only for an expired token. */
  datatype Why = Rotating | Ensuring

  /** No request is sent for a token that is not about to expire. */
  predicate IsLocal(why: Why, e: Env) { why == Ensuring && !e.expired }

  predicate Could(why: Why, e: Env) { IsLocal(why, e) || CanRotate(e) }

  predicate Rejects(why: Why, e: Env) { !IsLocal(why, e) && IsRejected(e) }

  /** What an attempt leaves of a credential. */
  function Attempt(why: Why, e: Env, was: Option<Tokens>): Option<Tokens> {
    if was.None? || IsLocal(why, e) then was else AfterRefresh(was.value, e.reply, e.good)
  }

  /** What an attempt that succeeds returns. */
  function Supply(why: Why, e: Env, was: Tokens): Option<Tokens> {
    if IsLocal(why, e) then Some(was) else Rotate(e.reply, was.device)
  }

  /** Two sources that keep their credential in the same place. */
  predicate SamePlace(a: Source, b: Source) {
    && a.mgr != null && b.mgr != null && a.mgr.secrets == b.mgr.secrets
    && NamespaceForURL(a.url) == NamespaceForURL(b.url)
  }

  /** What the sources load after the attempt with source `i`. */
  function AfterAttempt(sources: seq<Source>, why: Why, e: Env, i: nat, loads: seq<Option<Tokens>>)
    : seq<Option<Tokens>>
    requires i < |sources| == |loads|
  {
    seq(|loads|, j requires 0 <= j < |loads| =>
      if SamePlace(sources[i], sources[j]) then Attempt(why, e, loads[j]) else loads[j])
  }

  /** What they load after the attempts with the first `n` sources. */
  function Attempted(sources: seq<Source>, envs: seq<Env>, why: Why, start: seq<Option<Tokens>>, n: nat)
    : (loads: seq<Option<Tokens>>)
    requires n <= |sources| == |envs| == |start|
    ensures |loads| == |start|
  {
    if n == 0 then start
    else AfterAttempt(sources, why, envs[n - 1], n - 1, Attempted(sources, envs, why, start, n - 1))
  }

  /** The attempt with source `n` succeeds, given what the attempts before it left. */
  predicate Supplies(sources: seq<Source>, envs: seq<Env>, why: Why, start: seq<Option<Tokens>>, n: nat)
    requires n < |sources| == |envs| == |start|
  {
    Attempted(sources, envs, why, start, n)[n].Some? && Could(why, envs[n])
  }

  predicate NoneSupplies(sources: seq<Source>, envs: seq<Env>, why: Why, start: seq<Option<Tokens>>, n: nat)
    requires n <= |sources| == |envs| == |start|
  {
    n == 0 || (NoneSupplies(sources, envs, why, start, n - 1) && !Supplies(sources, envs, why, start, n - 1))
  }

  /** Source `n` is the first whose attempt succeeds, and `tokens` is what that attempt gives. */
  predicate IsFirstSupply(sources: seq<Source>, envs: seq<Env>, why: Why, start: seq<Option<Tokens>>, n: nat,
                          tokens: Tokens)
    requires |sources| == |envs| == |start|
  {
    && n < |sources| && NoneSupplies(sources, envs, why, start, n) && Supplies(sources, envs, why, start, n)
    && Supply(why, envs[n], Attempted(sources, envs, why, start, n)[n].value) == Some(tokens)
  }

  /** `now` is what the sources hold when the tokens of source `n` were copied to the others among the first
      `m`, starting from `held`, which is what the attempt with source `n` left. */
  predicate IsCopied(sources: seq<Source>, envs: seq<Env>, why: Why, start: seq<Option<Tokens>>, n: nat,
                     tokens: Tokens, m: nat, held: seq<Slots>, now: seq<Slots>)
    requires n < |sources| == |envs| == |start| == |envs[n].copies| && m <= |sources|
  {
    && |held| == |sources| && LoadsIn(held) == Attempted(sources, envs, why, start, n + 1)
    && AreCopies(sources, n, tokens, envs[n].copies, m, held, now)
  }

  /** One of the first `n` attempts had a credential that the server rejected. */
  predicate SomeRejected(sources: seq<Source>, envs: seq<Env>, why: Why, start: seq<Option<Tokens>>, n: nat)
    requires n <= |sources| == |envs| == |start|
  {
    n > 0 && (SomeRejected(sources, envs, why, start, n - 1)
              || (Attempted(sources, envs, why, start, n - 1)[n - 1].Some? && Rejects(why, envs[n - 1])))
  }

  /** None of the attempts with the first `n` sources has succeeded: `now` is what they left, and `invalid` says
      whether the server rejected one of them. */
  predicate InVain(sources: seq<Source>, envs: seq<Env>, why: Why, start: seq<Option<Tokens>>,
                   now: seq<Option<Tokens>>, n: nat, invalid: bool)
    requires n <= |sources| == |envs| == |start|
  {
    && NoneSupplies(sources, envs, why, start, n) && now == Attempted(sources, envs, why, start, n)
    && (invalid <==> SomeRejected(sources, envs, why, start, n))
  }

  lemma InVainStep(sources: seq<Source>, envs: seq<Env>, why: Why, start: seq<Option<Tokens>>,
                   was: seq<Option<Tokens>>, now: seq<Option<Tokens>>, n: nat, invalid: bool, invalid': bool)
    requires n < |sources| == |envs| == |start| == |was| && InVain(sources, envs, why, start, was, n, invalid)
    requires !(was[n].Some? && Could(why, envs[n]))
    requires now == AfterAttempt(sources, why, envs[n], n, was)
    requires invalid' <==> invalid || (was[n].Some? && Rejects(why, envs[n]))
    ensures InVain(sources, envs, why, start, now, n + 1, invalid')
  {
  }

  lemma FirstSupplyFound(sources: seq<Source>, envs: seq<Env>, why: Why, start: seq<Option<Tokens>>,
                         was: seq<Option<Tokens>>, n: nat, invalid: bool, tokens: Tokens)
    requires n < |sources| == |envs| == |start| == |was| && InVain(sources, envs, why, start, was, n, invalid)
    requires was[n].Some? && Could(why, envs[n]) && Supply(why, envs[n], was[n].value) == Some(tokens)
    ensures IsFirstSupply(sources, envs, why, start, n, tokens)
    ensures if IsLocal(why, envs[n]) then Attempted(sources, envs, why, start, n)[n] == Some(tokens)
            else
              var reply := envs[n].reply;
              && reply.Body? && tokens.access == reply.access != "" && tokens.refresh == reply.refresh != ""
              && if reply.device != "" then tokens.device == reply.device
                 else Attempted(sources, envs, why, start, n)[n].value.device == tokens.device
  {
  }

  lemma NoManagerStep(sources: seq<Source>, envs: seq<Env>, why: Why, start: seq<Option<Tokens>>,
                      was: seq<Option<Tokens>>, n: nat, invalid: bool)
    requires n < |sources| == |envs| == |start| == |was| && InVain(sources, envs, why, start, was, n, invalid)
    requires sources[n].mgr == null && was[n] == None
    ensures InVain(sources, envs, why, start, was, n + 1, invalid)
  {
    assert AfterAttempt(sources, why, envs[n], n, was) == was;
    InVainStep(sources, envs, why, start, was, was, n, invalid, invalid);
  }

  /** The attempt with source `k` cannot change what source `i` has stored: it writes nothing, or elsewhere. */
  predicate IsHarmless(sources: seq<Source>, envs: seq<Env>, why: Why, k: nat, i: nat)
    requires k < |sources| == |envs| && i < |sources|
  {
    || IsLocal(why, envs[k]) || (Rotate(envs[k].reply, "").None? && !IsRejected(envs[k]))
    || !SamePlace(sources[k], sources[i])
  }

  /** None of the first `n` attempts can have changed what source `i` has stored. */
  predicate IsUndisturbed(sources: seq<Source>, envs: seq<Env>, why: Why, n: nat, i: nat)
    requires n <= |sources| == |envs| && i < |sources|
  {
    n == 0 || (IsUndisturbed(sources, envs, why, n - 1, i) && IsHarmless(sources, envs, why, n - 1, i))
  }

  lemma {:induction false} UndisturbedKeeps(sources: seq<Source>, envs: seq<Env>, why: Why,
                                            start: seq<Option<Tokens>>, n: nat, i: nat)
    requires n <= |sources| == |envs| == |start| && i < |sources| && IsUndisturbed(sources, envs, why, n, i)
    ensures Attempted(sources, envs, why, start, n)[i] == start[i]
  {
    if n > 0 { UndisturbedKeeps(sources, envs, why, start, n - 1, i); }
  }

  lemma {:induction false} NotAmongTheVain(sources: seq<Source>, envs: seq<Env>, why: Why,
                                           start: seq<Option<Tokens>>, n: nat, j: nat)
    requires j < n <= |sources| == |envs| == |start| && Supplies(sources, envs, why, start, j)
    ensures !NoneSupplies(sources, envs, why, start, n)
  {
    if j < n - 1 { NotAmongTheVain(sources, envs, why, start, n - 1, j); }
  }

  /** A source whose credential no attempt before it could disturb is judged by what it had at the start: if
      it could supply a credential, not all sources are tried in vain. */
  lemma SupplierIsEnough(sources: seq<Source>, envs: seq<Env>, why: Why, start: seq<Option<Tokens>>, j: nat)
    requires j < |sources| == |envs| == |start| && IsUndisturbed(sources, envs, why, j, j)
    ensures Supplies(sources, envs, why, start, j) <==> start[j].Some? && Could(why, envs[j])
    ensures start[j].Some? && Could(why, envs[j]) ==> !NoneSupplies(sources, envs, why, start, |sources|)
  {
    UndisturbedKeeps(sources, envs, why, start, j, j);
    if start[j].Some? && Could(why, envs[j]) { NotAmongTheVain(sources, envs, why, start, |sources|, j); }
  }

  /** Whether copying reaches each of the first `n` sources that have a manager. */
  predicate CanCopy(sources: seq<Source>, i: nat, copies: seq<nat>, n: nat)
    requires n <= |copies| == |sources|
  {
    n == 0 || (CanCopy(sources, i, copies, n - 1) && (n - 1 == i || sources[n - 1].mgr == null || copies[n - 1] >= 3))
  }

  lemma {:induction false} CanCopyFewer(sources: seq<Source>, i: nat, copies: seq<nat>, n: nat, m: nat)
    requires n <= m <= |copies| == |sources| && CanCopy(sources, i, copies, m)
    ensures CanCopy(sources, i, copies, n)
  {
    if n < m { CanCopyFewer(sources, i, copies, n, m - 1); }
  }

  lemma {:induction false} CanCopyMeaning(sources: seq<Source>, i: nat, copies: seq<nat>, n: nat)
    requires n <= |copies| == |sources|
    ensures CanCopy(sources, i, copies, n) <==>
              forall k :: 0 <= k < n && k != i && sources[k].mgr != null ==> copies[k] >= 3
  {
    if n > 0 { CanCopyMeaning(sources, i, copies, n - 1); }
  }

  /** Copying that stops at the first failure goes on to the end, or to the first target it does not reach. */
  predicate EndsAt(sources: seq<Source>, i: nat, copies: seq<nat>, m: nat)
    requires |copies| == |sources|
  {
    && m <= |sources|
    && if CanCopy(sources, i, copies, |sources|) then m == |sources|
       else m > 0 && CanCopy(sources, i, copies, m - 1) && !CanCopy(sources, i, copies, m)
  }

  lemma EndsHere(sources: seq<Source>, i: nat, copies: seq<nat>, j: nat)
    requires j < |copies| == |sources| && CanCopy(sources, i, copies, j)
    requires j != i && sources[j].mgr != null && copies[j] < 3
    ensures EndsAt(sources, i, copies, j + 1) && !CanCopy(sources, i, copies, |sources|)
  {
    if CanCopy(sources, i, copies, |sources|) { CanCopyFewer(sources, i, copies, j + 1, |sources|); }
  }

  /** What source `k` holds, where it held `slots`, after copying the tokens of source `i` to the others among
      the first `n`. */
  function SlotsAfter(sources: seq<Source>, i: nat, tokens: Tokens, copies: seq<nat>, n: nat, k: nat, slots: Slots)
    : Slots
    requires n <= |copies| == |sources| && k < |sources|
  {
    if n == 0 then slots
    else
      var before := SlotsAfter(sources, i, tokens, copies, n - 1, k, slots);
      if n - 1 != i && SamePlace(sources[n - 1], sources[k]) then Written(before, tokens, copies[n - 1]) else before
  }

  /** `now` is what the sources hold after that copying, where they held `held`. */
  predicate AreCopies(sources: seq<Source>, i: nat, tokens: Tokens, copies: seq<nat>, n: nat, held: seq<Slots>,
                      now: seq<Slots>)
    requires n <= |copies| == |sources|
  {
    && |held| == |now| == |sources|
    && forall k: nat :: k < |sources| ==> now[k] == SlotsAfter(sources, i, tokens, copies, n, k, held[k])
  }

  /** `now` is what they hold after saving a complete credential to source `j`. */
  predicate IsSave(sources: seq<Source>, j: nat, tokens: Tokens, good: nat, was: seq<Slots>, now: seq<Slots>)
    requires j < |sources|
  {
    && |was| == |now| == |sources|
    && forall k: nat :: k < |sources| ==>
         now[k] == if SamePlace(sources[j], sources[k]) then Written(was[k], tokens, good) else was[k]
  }

  lemma CopyStep(sources: seq<Source>, i: nat, tokens: Tokens, copies: seq<nat>, j: nat, held: seq<Slots>,
                 was: seq<Slots>, now: seq<Slots>)
    requires j < |copies| == |sources| && AreCopies(sources, i, tokens, copies, j, held, was)
    requires if j == i || sources[j].mgr == null then now == was else IsSave(sources, j, tokens, copies[j], was, now)
    ensures AreCopies(sources, i, tokens, copies, j + 1, held, now)
  {
  }

  /** One of the first `n` targets shares the place of source `k`. */
  predicate IsTarget(sources: seq<Source>, i: nat, n: nat, k: nat)
    requires n <= |sources| && k < |sources|
  {
    exists j: nat :: j < n && j != i && SamePlace(sources[j], sources[k])
  }

  /** Copying changes nothing but the places of its targets ... */
  lemma {:induction false} CopiesLeave(sources: seq<Source>, i: nat, tokens: Tokens, copies: seq<nat>, n: nat, k: nat,
                                       slots: Slots)
    requires n <= |copies| == |sources| && k < |sources| && !IsTarget(sources, i, n, k)
    ensures SlotsAfter(sources, i, tokens, copies, n, k, slots) == slots
  {
    if n > 0 {
      assert n - 1 == i || !SamePlace(sources[n - 1], sources[k]);
      CopiesLeave(sources, i, tokens, copies, n - 1, k, slots);
    }
  }

  /** ... damages no credential that is already the new one ... */
  lemma {:induction false} CopiesKeep(sources: seq<Source>, i: nat, tokens: Tokens, copies: seq<nat>, n: nat, k: nat,
                                      slots: Slots)
    requires n <= |copies| == |sources| && k < |sources| && Complete(tokens) && TokensIn(slots) == Some(tokens)
    ensures TokensIn(SlotsAfter(sources, i, tokens, copies, n, k, slots)) == Some(tokens)
  {
    if n > 0 {
      CopiesKeep(sources, i, tokens, copies, n - 1, k, slots);
      WrittenTokens(SlotsAfter(sources, i, tokens, copies, n - 1, k, slots), tokens, copies[n - 1]);
    }
  }

  /** ... and leaves the new one wherever one of its writes succeeds. */
  lemma {:induction false} CopiesReach(sources: seq<Source>, i: nat, tokens: Tokens, copies: seq<nat>, n: nat, k: nat,
                                       slots: Slots, j: nat)
    requires j < n <= |copies| == |sources| && k < |sources| && Complete(tokens)
    requires j != i && SamePlace(sources[j], sources[k]) && copies[j] >= 3
    ensures TokensIn(SlotsAfter(sources, i, tokens, copies, n, k, slots)) == Some(tokens)
  {
    if j < n - 1 { CopiesReach(sources, i, tokens, copies, n - 1, k, slots, j); }
    WrittenTokens(SlotsAfter(sources, i, tokens, copies, n - 1, k, slots), tokens, copies[n - 1]);
  }

  /** Source `i` and all sources that copying reaches load the tokens. */
  predicate Copied(sources: seq<Source>, i: nat, copies: seq<nat>, now: seq<Slots>, tokens: Tokens)
    requires |copies| == |sources| == |now|
  {
    forall k: nat :: k < |sources| && sources[k].mgr != null && (k == i || copies[k] >= 3) ==>
      TokensIn(now[k]) == Some(tokens)
  }

  /** Every source that has a manager loads the tokens. */
  predicate AllLoad(sources: seq<Source>, now: seq<Slots>, tokens: Tokens)
    requires |now| == |sources|
  {
    forall k: nat :: k < |sources| && sources[k].mgr != null ==> TokensIn(now[k]) == Some(tokens)
  }

  lemma CopiedMeaning(sources: seq<Source>, i: nat, tokens: Tokens, copies: seq<nat>, held: seq<Slots>,
                      now: seq<Slots>)
    requires |copies| == |sources| && AreCopies(sources, i, tokens, copies, |sources|, held, now)
    requires i < |sources| && Complete(tokens) && TokensIn(held[i]) == Some(tokens)
    ensures Copied(sources, i, copies, now, tokens)
    ensures CanCopy(sources, i, copies, |sources|) ==> AllLoad(sources, now, tokens)
  {
    CanCopyMeaning(sources, i, copies, |sources|);
    forall k: nat | k < |sources| && sources[k].mgr != null && (k == i || copies[k] >= 3)
      ensures TokensIn(now[k]) == Some(tokens)
    {
      if k == i {
        CopiesKeep(sources, i, tokens, copies, |sources|, k, held[k]);
      } else {
        CopiesReach(sources, i, tokens, copies, |sources|, k, held[k], k);
      }
    }
  }

  lemma SourceKeeps(sources: seq<Source>, i: nat, tokens: Tokens, copies: seq<nat>, n: nat, held: seq<Slots>,
                    now: seq<Slots>)
    requires n <= |copies| == |sources| && AreCopies(sources, i, tokens, copies, n, held, now)
    requires i < |sources| && Complete(tokens) && TokensIn(held[i]) == Some(tokens)
    ensures TokensIn(now[i]) == Some(tokens)
  {
    CopiesKeep(sources, i, tokens, copies, n, i, held[i]);
  }

  /** Where copying that fails at target `j` stops: the sources before `j` load the tokens, and so does `j` if
      one of the earlier targets shares its place; else its keys are as the failed write has left them, so that
      a credential it had becomes a mixture of that and the tokens. Places that are no target keep theirs. */
  lemma FailedCopyMeaning(sources: seq<Source>, i: nat, tokens: Tokens, copies: seq<nat>, j: nat, held: seq<Slots>,
                          now: seq<Slots>, k: nat)
    requires j < |copies| == |sources| && EndsAt(sources, i, copies, j + 1) && !CanCopy(sources, i, copies, |sources|)
    requires AreCopies(sources, i, tokens, copies, j + 1, held, now) && k < |sources|
    requires i < |sources| && Complete(tokens) && TokensIn(held[i]) == Some(tokens)
    ensures sources[j].mgr != null && j != i && copies[j] < 3
    ensures k < j && sources[k].mgr != null ==> TokensIn(now[k]) == Some(tokens)
    ensures k == j && IsTarget(sources, i, j, k) ==> TokensIn(now[k]) == Some(tokens)
    ensures k == j && !IsTarget(sources, i, j, k) ==> now[k] == Written(held[k], tokens, copies[k])
    ensures k == j && !IsTarget(sources, i, j, k) && TokensIn(held[k]).Some? ==>
              TokensIn(now[k]) == Some(PartlySaved(TokensIn(held[k]).value, tokens, copies[k]))
    ensures !IsTarget(sources, i, j + 1, k) ==> now[k] == held[k]
  {
    if !IsTarget(sources, i, j + 1, k) { CopiesLeave(sources, i, tokens, copies, j + 1, k, held[k]); }
    if k < j && sources[k].mgr != null {
      BeforeTheFailure(sources, i, tokens, copies, j, k, held[k]);
    } else if k == j {
      FailingTarget(sources, i, tokens, copies, j, held[k]);
      WrittenTokens(held[k], tokens, copies[k]);
    }
  }

  lemma BeforeTheFailure(sources: seq<Source>, i: nat, tokens: Tokens, copies: seq<nat>, j: nat, k: nat, slots: Slots)
    requires k < j < |copies| == |sources| && CanCopy(sources, i, copies, j) && sources[k].mgr != null
    requires Complete(tokens) && (k == i ==> TokensIn(slots) == Some(tokens))
    ensures TokensIn(SlotsAfter(sources, i, tokens, copies, j + 1, k, slots)) == Some(tokens)
  {
    if k == i {
      CopiesKeep(sources, i, tokens, copies, j + 1, k, slots);
    } else {
      CanCopyMeaning(sources, i, copies, j);
      CopiesReach(sources, i, tokens, copies, j + 1, k, slots, k);
    }
  }

  lemma FailingTarget(sources: seq<Source>, i: nat, tokens: Tokens, copies: seq<nat>, j: nat, slots: Slots)
    requires j < |copies| == |sources| && CanCopy(sources, i, copies, j) && Complete(tokens)
    requires j != i && sources[j].mgr != null
    ensures var after := SlotsAfter(sources, i, tokens, copies, j + 1, j, slots);
            if IsTarget(sources, i, j, j) then TokensIn(after) == Some(tokens)
            else after == Written(slots, tokens, copies[j])
  {
    if IsTarget(sources, i, j, j) {
      var t: nat :| t < j && t != i && SamePlace(sources[t], sources[j]);
      CanCopyMeaning(sources, i, copies, j);
      CopiesReach(sources, i, tokens, copies, j + 1, j, slots, t);
    } else {
      CopiesLeave(sources, i, tokens, copies, j, j, slots);
    }
  }

  predicate SomeTried(sources: seq<Source>, n: nat)
    requires n <= |sources|
  {
    n > 0 && (SomeTried(sources, n - 1) || sources[n - 1].mgr != null)
  }

  predicate NoneDone(envs: seq<Env>, n: nat)
    requires n <= |envs|
  {
    n == 0 || (NoneDone(envs, n - 1) && !envs[n - 1].done)
  }

  /** One call of RefreshChatRelayDeviceToken: its result, and what every source of the group loads then;
      nothing else in any store changes. */
  method RefreshSource(sources: seq<Source>, envs: seq<Env>, i: nat) returns (r: RefreshResult)
    requires i < |sources| == |envs| && sources[i].mgr != null
    modifies Stores(sources)
    ensures r.Refreshed? <==> old(Loads(sources))[i].Some? && Could(Rotating, envs[i])
    ensures r.Invalid? <==> old(Loads(sources))[i].Some? && Rejects(Rotating, envs[i])
    ensures r.Refreshed? ==> Supply(Rotating, envs[i], old(Loads(sources))[i].value) == Some(r.tokens)
    ensures r.Refreshed? ==> Complete(r.tokens) && Loads(sources)[i] == Some(r.tokens)
    ensures Loads(sources) == AfterAttempt(sources, Rotating, envs[i], i, old(Loads(sources)))
    ensures Rests(sources) == old(Rests(sources))
  {
    StoresEach(sources, i);
    DatasEach(sources);
    ghost var was := Datas(sources);
    r := sources[i].mgr.Refresh(NamespaceForURL(sources[i].url), envs[i].reply, envs[i].good);
    DatasEach(sources);
    PlaceChanged(sources, i, was, Datas(sources));
  }

  /** The same for EnsureChatRelayDeviceAccessToken. */
  method EnsureSource(sources: seq<Source>, envs: seq<Env>, i: nat) returns (r: RefreshResult)
    requires i < |sources| == |envs| && sources[i].mgr != null
    modifies Stores(sources)
    ensures r.Refreshed? <==> old(Loads(sources))[i].Some? && Could(Ensuring, envs[i])
    ensures r.Invalid? <==> old(Loads(sources))[i].Some? && Rejects(Ensuring, envs[i])
    ensures r.Refreshed? ==> Supply(Ensuring, envs[i], old(Loads(sources))[i].value) == Some(r.tokens)
    ensures r.Refreshed? ==> Complete(r.tokens) && Loads(sources)[i] == Some(r.tokens)
    ensures Loads(sources) == AfterAttempt(sources, Ensuring, envs[i], i, old(Loads(sources)))
    ensures Rests(sources) == old(Rests(sources))
  {
    StoresEach(sources, i);
    DatasEach(sources);
    ghost var was := Datas(sources);
    r := sources[i].mgr.Ensure(NamespaceForURL(sources[i].url), envs[i].expired, envs[i].reply, envs[i].good);
    DatasEach(sources);
    PlaceChanged(sources, i, was, Datas(sources));
  }

  /** Saving to one source reaches those that share its place. */
  method SaveTo(sources: seq<Source>, j: nat, tokens: Tokens, good: nat) returns (ok: bool)
    requires j < |sources| && sources[j].mgr != null && Complete(tokens)
    modifies Stores(sources)
    ensures ok == (good >= 3)
    ensures IsSave(sources, j, tokens, good, old(Held(sources)), Held(sources))
    ensures Rests(sources) == old(Rests(sources))
  {
    StoresEach(sources, j);
    DatasEach(sources);
    ghost var was := Datas(sources);
    ok := sources[j].mgr.Save(NamespaceForURL(sources[j].url), tokens, good);
    DatasEach(sources);
    PlaceChanged(sources, j, was, Datas(sources));
  }

  /** Save the tokens of source `i` to every other source, stopping at the first failure; `m` is how far that
      comes. */
  method CopyToOthers(sources: seq<Source>, i: nat, tokens: Tokens, copies: seq<nat>) returns (ok: bool, ghost m: nat)
    requires |copies| == |sources| && Complete(tokens)
    modifies Stores(sources)
    ensures ok <==> CanCopy(sources, i, copies, |sources|)
    ensures EndsAt(sources, i, copies, m)
    ensures AreCopies(sources, i, tokens, copies, m, old(Held(sources)), Held(sources))
    ensures Rests(sources) == old(Rests(sources))
  {
    ghost var held := Held(sources);
    for j := 0 to |sources|
      invariant AreCopies(sources, i, tokens, copies, j, held, Held(sources)) && CanCopy(sources, i, copies, j)
      invariant Rests(sources) == old(Rests(sources))
    {
      ghost var was := Held(sources);
      if i == j || sources[j].mgr == null {
        CopyStep(sources, i, tokens, copies, j, held, was, was);
        continue;
      }
      ok := SaveTo(sources, j, tokens, copies[j]);
      CopyStep(sources, i, tokens, copies, j, held, was, Held(sources));
      if !ok {
        EndsHere(sources, i, copies, j);
        return false, j + 1;
      }
    }
    return true, |sources|;
  }

  /** chatRelayConnectorRuntimeConfig.RefreshCredential: the sources are tried in order, and the first
      rotation is copied to all of them. Success means that every source with a manager loads the same
      credential, the one the first attempt that succeeds was answered with, whatever happened to the sources
      tried before. When a copy fails, `held` is what the sources held before copying, and target `m - 1` is
      the one that failed. Without a rotation it is said which attempts failed and what they
      left. Nothing but the device tokens of the group is ever changed. */
  method RefreshCredential(sources: seq<Source>, envs: seq<Env>)
    returns (r: Outcome, ghost n: nat, ghost tokens: Tokens, ghost held: seq<Slots>, ghost m: nat)
    requires |envs| == |sources| && forall i :: 0 <= i < |envs| ==> |envs[i].copies| == |sources|
    modifies Stores(sources)
    ensures r.Credential? || r.SaveFailed? ==>
              && IsFirstSupply(sources, envs, Rotating, old(Loads(sources)), n, tokens) && sources[n].mgr != null
              && NoneDone(envs, n + 1) && Loads(sources)[n] == Some(tokens)
              && EndsAt(sources, n, envs[n].copies, m)
              && IsCopied(sources, envs, Rotating, old(Loads(sources)), n, tokens, m, held, Held(sources))
              && (r.Credential? <==> CanCopy(sources, n, envs[n].copies, |sources|))
    ensures r.Credential? || r.SaveFailed? ==>
              var reply := envs[n].reply;
              && reply.Body? && tokens.access == reply.access != "" && tokens.refresh == reply.refresh != ""
              && if reply.device != "" then tokens.device == reply.device
                 else Attempted(sources, envs, Rotating, old(Loads(sources)), n)[n].value.device == tokens.device
    ensures r.Credential? ==> r.access == envs[n].reply.access && AllLoad(sources, Held(sources), tokens)
    ensures r.ContextDone? ==>
              && n < |sources| && envs[n].done && NoneDone(envs, n)
              && NoneSupplies(sources, envs, Rotating, old(Loads(sources)), n)
              && Loads(sources) == Attempted(sources, envs, Rotating, old(Loads(sources)), n)
    ensures r.CredentialInvalid? || r.LastError? || r.NoSource? ==>
              && InVain(sources, envs, Rotating, old(Loads(sources)), Loads(sources), |sources|, r.CredentialInvalid?)
              && (r.NoSource? <==> !SomeTried(sources, |sources|)) && NoneDone(envs, |envs|)
    ensures Rests(sources) == old(Rests(sources))
  {
    n, tokens, held, m := 0, Tokens("", "", ""), [], 0;
    var failed, invalid := false, false;
    ghost var start := Loads(sources);
    for i := 0 to |sources|
      invariant InVain(sources, envs, Rotating, start, Loads(sources), i, invalid)
      invariant Rests(sources) == old(Rests(sources))
      invariant (invalid ==> failed) && (failed <==> SomeTried(sources, i)) && NoneDone(envs, i)
    {
      ghost var was := Loads(sources);
      if envs[i].done {
        return ContextDone, i, tokens, held, m;
      }
      if sources[i].mgr == null {
        WithoutManager(sources, i);
        NoManagerStep(sources, envs, Rotating, start, was, i, invalid);
        continue;
      }
      var refreshed := RefreshSource(sources, envs, i);
      if !refreshed.Refreshed? {
        InVainStep(sources, envs, Rotating, start, was, Loads(sources), i, invalid, invalid || refreshed.Invalid?);
        invalid := invalid || refreshed.Invalid?;
        failed := true;
        continue;
      }
      n, tokens, held := i, refreshed.tokens, Held(sources);
      FirstSupplyFound(sources, envs, Rotating, start, was, n, invalid, tokens);
      var ok;
      ok, m := CopyToOthers(sources, i, refreshed.tokens, envs[i].copies);
      SourceKeeps(sources, i, tokens, envs[i].copies, m, held, Held(sources));
      if !ok {
        return SaveFailed, n, tokens, held, m;
      }
      CopiedMeaning(sources, i, tokens, envs[i].copies, held, Held(sources));
      return Credential(refreshed.tokens.access), n, tokens, held, m;
    }
    return if invalid then CredentialInvalid else if failed then LastError else NoSource, n, tokens, held, m;
  }

  datatype Verdict = Fresh(credential: string) | InvalidVerdict | Unchanged

  /** EnsureFreshCredential: like RefreshCredential, but a source whose token is not expired needs no
      request, and failures to copy are ignored. */
  method EnsureFreshCredential(sources: seq<Source>, envs: seq<Env>)
    returns (r: Verdict, ghost i: nat, ghost tokens: Tokens, ghost held: seq<Slots>)
    requires |envs| == |sources| && forall i :: 0 <= i < |envs| ==> |envs[i].copies| == |sources|
    modifies Stores(sources)
    ensures r.Fresh? ==>
              && IsFirstSupply(sources, envs, Ensuring, old(Loads(sources)), i, tokens) && sources[i].mgr != null
              && r.credential == tokens.access && Loads(sources)[i] == Some(tokens)
              && IsCopied(sources, envs, Ensuring, old(Loads(sources)), i, tokens, |sources|, held, Held(sources))
              && Copied(sources, i, envs[i].copies, Held(sources), tokens)
    ensures r.Fresh? && envs[i].expired ==>
              var reply := envs[i].reply;
              && reply.Body? && tokens.access == reply.access != "" && tokens.refresh == reply.refresh != ""
              && if reply.device != "" then tokens.device == reply.device
                 else Attempted(sources, envs, Ensuring, old(Loads(sources)), i)[i].value.device == tokens.device
    ensures r.Fresh? && !envs[i].expired ==>
              Attempted(sources, envs, Ensuring, old(Loads(sources)), i)[i] == Some(tokens)
    ensures Rests(sources) == old(Rests(sources))
    ensures !r.Fresh? ==>
              InVain(sources, envs, Ensuring, old(Loads(sources)), Loads(sources), |sources|, r.InvalidVerdict?)
  {
    i, tokens, held := 0, Tokens("", "", ""), [];
    var invalid := false;
    ghost var start := Loads(sources);
    for n := 0 to |sources|
      invariant InVain(sources, envs, Ensuring, start, Loads(sources), n, invalid)
      invariant Rests(sources) == old(Rests(sources))
    {
      ghost var was := Loads(sources);
      if sources[n].mgr == null {
        WithoutManager(sources, n);
        NoManagerStep(sources, envs, Ensuring, start, was, n, invalid);
        continue;
      }
      var refreshed := EnsureSource(sources, envs, n);
      if !refreshed.Refreshed? {
        InVainStep(sources, envs, Ensuring, start, was, Loads(sources), n, invalid, invalid || refreshed.Invalid?);
        invalid := invalid || refreshed.Invalid?;
        continue;
      }
      i, tokens, held := n, refreshed.tokens, Held(sources);
      FirstSupplyFound(sources, envs, Ensuring, start, was, i, invalid, tokens);
      CopyToOthersIgnoringErrors(sources, n, refreshed.tokens, envs[n].copies);
      SourceKeeps(sources, i, tokens, envs[i].copies, |sources|, held, Held(sources));
      CopiedMeaning(sources, i, tokens, envs[i].copies, held, Held(sources));
      return Fresh(refreshed.tokens.access), i, tokens, held;
    }
    return if invalid then InvalidVerdict else Unchanged, i, tokens, held;
  }

  method CopyToOthersIgnoringErrors(sources: seq<Source>, i: nat, tokens: Tokens, copies: seq<nat>)
    requires |copies| == |sources| && Complete(tokens)
    modifies Stores(sources)
    ensures AreCopies(sources, i, tokens, copies, |sources|, old(Held(sources)), Held(sources))
    ensures Rests(sources) == old(Rests(sources))
  {
    ghost var held := Held(sources);
    for j := 0 to |sources|
      invariant AreCopies(sources, i, tokens, copies, j, held, Held(sources))
      invariant Rests(sources) == old(Rests(sources))
    {
      ghost var was := Held(sources);
      if i == j || sources[j].mgr == null {
        CopyStep(sources, i, tokens, copies, j, held, was, was);
        continue;
      }
      var _ := SaveTo(sources, j, tokens, copies[j]);
      CopyStep(sources, i, tokens, copies, j, held, was, Held(sources));
    }
  }

  // ----- Grouping the accounts into connectors

  datatype Config =
    Config(relayURL: string, credential: string, device: string, accounts: seq<string>, sources: seq<Source>)

  type ConnectorKey = (string, string, string)

  function KeyOf(c: Config): ConnectorKey { (c.relayURL, c.credential, c.device) }

  predicate SameConnector(c: Config, d: Config) {
    c.relayURL == d.relayURL && c.credential == d.credential && c.device == d.device
  }

  /** The keys in the order of their first occurrence. */
  function KeysInOrder(configs: seq<Config>): seq<ConnectorKey> {
    if configs == [] then []
    else
      var rest, key := KeysInOrder(configs[..|configs| - 1]), KeyOf(configs[|configs| - 1]);
      if key in rest then rest else rest + [key]
  }

  function SourcesOf(configs: seq<Config>, key: ConnectorKey): seq<Source> {
    if configs == [] then []
    else
      var rest, last := SourcesOf(configs[..|configs| - 1], key), configs[|configs| - 1];
      if KeyOf(last) == key then rest + last.sources else rest
  }

  /** The sources of a connector are those of the configurations with its key, one after the other. */
  lemma {:induction false} SourcesOfMeaning(configs: seq<Config>, more: seq<Config>, key: ConnectorKey)
    ensures SourcesOf(configs + more, key) == SourcesOf(configs, key) + SourcesOf(more, key)
    ensures |more| == 1 ==>
              SourcesOf(more, key) ==
              if (more[0].relayURL, more[0].credential, more[0].device) == key then more[0].sources else []
  {
    if more == [] {
      assert configs + more == configs;
    } else {
      var front, last := more[..|more| - 1], more[|more| - 1];
      SourcesOfMeaning(configs, front, key);
      assert (configs + more)[..|configs + more| - 1] == configs + front;
      if |more| == 1 { assert front == []; }
    }
  }

  function AddAccounts(accounts: seq<string>, more: seq<string>): seq<string> {
    if more == [] then accounts
    else
      var rest, last := AddAccounts(accounts, more[..|more| - 1]), more[|more| - 1];
      if last in rest then rest else rest + [last]
  }

  predicate Distinct(accounts: seq<string>) {
    forall i, j :: 0 <= i < j < |accounts| ==> accounts[i] != accounts[j]
  }

  /** Account ids are appended: those already there stay in front, the result has exactly the ids of both, and
      none occurs twice that did not before. */
  lemma {:induction false} AddAccountsMeaning(accounts: seq<string>, more: seq<string>)
    ensures accounts <= AddAccounts(accounts, more)
    ensures forall a :: a in AddAccounts(accounts, more) <==> a in accounts || a in more
    ensures Distinct(accounts) <==> Distinct(AddAccounts(accounts, more))
  {
    if more != [] {
      AddAccountsMeaning(accounts, more[..|more| - 1]);
      assert more == more[..|more| - 1] + [more[|more| - 1]];
    }
  }

  function AccountsOf(configs: seq<Config>, key: ConnectorKey): seq<string> {
    if configs == [] then []
    else
      var before, last := configs[..|configs| - 1], configs[|configs| - 1];
      var rest := AccountsOf(before, key);
      if KeyOf(last) != key then rest
      else if key in KeysInOrder(before) then AddAccounts(rest, last.accounts) else last.accounts
  }

  predicate IsGroup(configs: seq<Config>, g: Config) {
    && g.sources == SourcesOf(configs, KeyOf(g))
    && g.accounts == AccountsOf(configs, KeyOf(g))
  }

  function Keys(groups: seq<Config>): seq<ConnectorKey> {
    seq(|groups|, i requires 0 <= i < |groups| => KeyOf(groups[i]))
  }

  lemma {:induction false} KeysAreDistinct(configs: seq<Config>)
    ensures forall i, j :: 0 <= i < j < |KeysInOrder(configs)| ==> KeysInOrder(configs)[i] != KeysInOrder(configs)[j]
    ensures forall c :: c in configs ==> KeyOf(c) in KeysInOrder(configs)
    ensures forall key :: key in KeysInOrder(configs) ==> exists c :: c in configs && KeyOf(c) == key
    ensures forall key :: key !in KeysInOrder(configs) ==> SourcesOf(configs, key) == []
  {
    if configs != [] {
      KeysAreDistinct(configs[..|configs| - 1]);
      assert configs == configs[..|configs| - 1] + [configs[|configs| - 1]];
    }
  }

  /** Some account that has the key has the account id. */
  predicate HasAccount(configs: seq<Config>, key: ConnectorKey, a: string) {
    exists c :: c in configs && KeyOf(c) == key && a in c.accounts
  }

  lemma HasAccountStep(configs: seq<Config>, key: ConnectorKey, a: string)
    requires configs != []
    ensures HasAccount(configs, key, a) <==>
              HasAccount(configs[..|configs| - 1], key, a)
              || (KeyOf(configs[|configs| - 1]) == key && a in configs[|configs| - 1].accounts)
  {
    assert configs == configs[..|configs| - 1] + [configs[|configs| - 1]];
  }

  /** The accounts of a connector are exactly those of the configurations with its key, each once if no
      configuration repeats one; the program gives each configuration a single account. */
  lemma {:induction false} AccountsOfMeaning(configs: seq<Config>, key: ConnectorKey)
    ensures forall a :: a in AccountsOf(configs, key) <==> HasAccount(configs, key, a)
    ensures (forall c :: c in configs ==> Distinct(c.accounts)) ==> Distinct(AccountsOf(configs, key))
  {
    if configs != [] {
      var before, last := configs[..|configs| - 1], configs[|configs| - 1];
      AccountsOfMeaning(before, key);
      AddAccountsMeaning(AccountsOf(before, key), last.accounts);
      KeysAreDistinct(before);
      forall a ensures a in AccountsOf(configs, key) <==> HasAccount(configs, key, a) {
        HasAccountStep(configs, key, a);
      }
    }
  }

  /** They are in the order of their first occurrence: those of a prefix come first. */
  lemma {:induction false} KeysGrow(configs: seq<Config>, n: nat)
    requires n <= |configs|
    ensures KeysInOrder(configs[..n]) <= KeysInOrder(configs)
  {
    if n < |configs| {
      assert configs[..|configs| - 1][..n] == configs[..n];
      KeysGrow(configs[..|configs| - 1], n);
    } else {
      assert configs[..n] == configs;
    }
  }

  lemma GroupStep(configs: seq<Config>, c: Config, g: Config)
    requires KeyOf(g) == KeyOf(c) || IsGroup(configs, g)
    ensures KeyOf(g) != KeyOf(c) ==> IsGroup(configs + [c], g)
    ensures KeyOf(c) !in KeysInOrder(configs) ==> IsGroup(configs + [c], c)
    ensures KeyOf(g) == KeyOf(c) && KeyOf(c) in KeysInOrder(configs) && IsGroup(configs, g) ==>
              IsGroup(configs + [c], Grow(g, c))
  {
    KeysAreDistinct(configs);
    assert (configs + [c])[..|configs|] == configs;
  }

  /** One connector per key, in the order in which the keys first occur, holding the sources and the account
      ids of all configurations with that key. */
  ghost predicate Grouped(configs: seq<Config>, groups: seq<Config>) {
    && Keys(groups) == KeysInOrder(configs)
    && forall i :: 0 <= i < |groups| ==> IsGroup(configs, groups[i])
  }

  function Grow(g: Config, c: Config): Config {
    g.(accounts := AddAccounts(g.accounts, c.accounts), sources := g.sources + c.sources)
  }

  lemma GrowGroup(configs: seq<Config>, groups: seq<Config>, c: Config, idx: nat)
    requires Grouped(configs, groups) && idx < |groups| && KeyOf(groups[idx]) == KeyOf(c)
    ensures Grouped(configs + [c], groups[idx := Grow(groups[idx], c)])
  {
    var groups' := groups[idx := Grow(groups[idx], c)];
    KeysAreDistinct(configs);
    assert Keys(groups)[idx] == KeyOf(c);
    assert (configs + [c])[..|configs|] == configs && Keys(groups') == Keys(groups);
    forall i | 0 <= i < |groups| ensures IsGroup(configs + [c], groups'[i]) {
      assert Keys(groups)[i] == KeyOf(groups[i]) && IsGroup(configs, groups[i]);
      GroupStep(configs, c, groups[i]);
    }
  }

  lemma AppendGroup(configs: seq<Config>, groups: seq<Config>, c: Config)
    requires Grouped(configs, groups) && KeyOf(c) !in Keys(groups)
    ensures Grouped(configs + [c], groups + [c])
  {
    assert (configs + [c])[..|configs|] == configs && Keys(groups + [c]) == Keys(groups) + [KeyOf(c)];
    forall i | 0 <= i < |groups + [c]| ensures IsGroup(configs + [c], (groups + [c])[i]) {
      GroupStep(configs, c, c);
      if i < |groups| {
        assert Keys(groups)[i] == KeyOf(groups[i]) && IsGroup(configs, groups[i]);
        GroupStep(configs, c, groups[i]);
      }
    }
  }

  /** Each connector has exactly the account ids of the configurations with its key, and each once if no
      configuration repeats one. */
  ghost predicate HaveTheirAccounts(configs: seq<Config>, groups: seq<Config>) {
    && (forall i :: 0 <= i < |groups| ==>
          forall a :: a in groups[i].accounts <==> HasAccount(configs, KeyOf(groups[i]), a))
    && ((forall c :: c in configs ==> Distinct(c.accounts)) ==>
          forall i :: 0 <= i < |groups| ==> Distinct(groups[i].accounts))
  }

  lemma GroupedMeaning(configs: seq<Config>, groups: seq<Config>)
    requires Grouped(configs, groups)
    ensures HaveTheirAccounts(configs, groups) && AreConnectors(configs, groups)
  {
    TheirAccounts(configs, groups);
    OneGroupEach(configs, groups);
  }

  lemma TheirAccounts(configs: seq<Config>, groups: seq<Config>)
    requires Grouped(configs, groups)
    ensures HaveTheirAccounts(configs, groups)
  {
    forall i | 0 <= i < |groups|
      ensures forall a :: a in groups[i].accounts <==> HasAccount(configs, KeyOf(groups[i]), a)
      ensures (forall c :: c in configs ==> Distinct(c.accounts)) ==> Distinct(groups[i].accounts)
    {
      assert IsGroup(configs, groups[i]);
      AccountsOfMeaning(configs, KeyOf(groups[i]));
    }
  }

  predicate AreDistinctConnectors(groups: seq<Config>) {
    forall i, j :: 0 <= i < j < |groups| ==> !SameConnector(groups[i], groups[j])
  }

  ghost predicate HasConnector(c: Config, groups: seq<Config>) {
    exists i :: 0 <= i < |groups| && SameConnector(c, groups[i])
  }

  /** No two connectors agree in relay, credential and device, and each configuration agrees in these with one
      connector, and the other way round. */
  ghost predicate AreConnectors(configs: seq<Config>, groups: seq<Config>) {
    && AreDistinctConnectors(groups)
    && (forall i :: 0 <= i < |configs| ==> HasConnector(configs[i], groups))
    && (forall i :: 0 <= i < |groups| ==> HasConnector(groups[i], configs))
  }

  lemma OneGroupEach(configs: seq<Config>, groups: seq<Config>)
    requires Keys(groups) == KeysInOrder(configs)
    ensures AreConnectors(configs, groups)
  {
    GroupsDiffer(configs, groups);
    forall i | 0 <= i < |configs| ensures HasConnector(configs[i], groups) { ConfigHasGroup(configs, groups, i); }
    forall i | 0 <= i < |groups| ensures HasConnector(groups[i], configs) { GroupHasConfig(configs, groups, i); }
  }

  lemma GroupsDiffer(configs: seq<Config>, groups: seq<Config>)
    requires Keys(groups) == KeysInOrder(configs)
    ensures AreDistinctConnectors(groups)
  {
    KeysAreDistinct(configs);
    forall i, j | 0 <= i < j < |groups| ensures !SameConnector(groups[i], groups[j]) {
      assert Keys(groups)[i] == KeyOf(groups[i]) && Keys(groups)[j] == KeyOf(groups[j]);
    }
  }

  lemma ConfigHasGroup(configs: seq<Config>, groups: seq<Config>, i: nat)
    requires Keys(groups) == KeysInOrder(configs) && i < |configs|
    ensures HasConnector(configs[i], groups)
  {
    KeysAreDistinct(configs);
    assert KeyOf(configs[i]) in KeysInOrder(configs);
    var j :| 0 <= j < |Keys(groups)| && Keys(groups)[j] == KeyOf(configs[i]);
    assert SameConnector(configs[i], groups[j]);
  }

  lemma GroupHasConfig(configs: seq<Config>, groups: seq<Config>, i: nat)
    requires Keys(groups) == KeysInOrder(configs) && i < |groups|
    ensures HasConnector(groups[i], configs)
  {
    KeysAreDistinct(configs);
    assert Keys(groups)[i] == KeyOf(groups[i]) && KeyOf(groups[i]) in KeysInOrder(configs);
    var c :| c in configs && KeyOf(c) == KeyOf(groups[i]);
    var j :| 0 <= j < |configs| && configs[j] == c;
    assert SameConnector(groups[i], configs[j]);
  }

  /** The grouping loop of chatRelayConnectorRuntimeConfigs. */
  method GroupConfigs(configs: seq<Config>) returns (groups: seq<Config>)
    ensures Grouped(configs, groups)
    ensures HaveTheirAccounts(configs, groups) && AreConnectors(configs, groups)
  {
    groups := [];
    var groupIndex: map<ConnectorKey, nat> := map[];
    for n := 0 to |configs|
      invariant Grouped(configs[..n], groups)
      invariant forall key :: key in groupIndex ==> groupIndex[key] < |groups| && KeyOf(groups[groupIndex[key]]) == key
      invariant forall i :: 0 <= i < |groups| ==> KeyOf(groups[i]) in groupIndex
    {
      var c, key := configs[n], KeyOf(configs[n]);
      assert configs[..n + 1] == configs[..n] + [c];
      if key in groupIndex {
        var idx := groupIndex[key];
        GrowGroup(configs[..n], groups, c, idx);
        var accounts := MergeAccounts(groups[idx].accounts, c.accounts);
        groups := groups[idx := groups[idx].(accounts := accounts, sources := groups[idx].sources + c.sources)];
      } else {
        AppendGroup(configs[..n], groups, c);
        groupIndex := groupIndex[key := |groups|];
        groups := groups + [c];
      }
    }
    assert configs[..|configs|] == configs;
    GroupedMeaning(configs, groups);
  }

  method MergeAccounts(accounts: seq<string>, more: seq<string>) returns (r: seq<string>)
    ensures r == AddAccounts(accounts, more)
    ensures accounts <= r && forall a :: a in r <==> a in accounts || a in more
    ensures Distinct(accounts) <==> Distinct(r)
  {
    AddAccountsMeaning(accounts, more);
    r := accounts;
    for i := 0 to |more|
      invariant r == AddAccounts(accounts, more[..i])
    {
      assert more[..i + 1][..i] == more[..i];
      if more[i] !in r {
        r := r + [more[i]];
      }
    }
    assert more[..|more|] == more;
  }

  /** What is left of the connectors: the invalid ones dropped, the fresh ones with their new credential. */
  function Kept(configs: seq<Config>, verdicts: seq<Verdict>): seq<Config>
    requires |configs| == |verdicts|
  {
    if configs == [] then []
    else
      var n := |configs| - 1;
      var rest := Kept(configs[..n], verdicts[..n]);
      match verdicts[n]
      case Fresh(credential) => rest + [configs[n].(credential := credential)]
      case InvalidVerdict => rest
      case Unchanged => rest + [configs[n]]
  }

  /** Exactly the connectors whose credential is not invalid are left, in their order, and one with a fresh
      credential has that credential and is otherwise as before. */
  lemma {:induction false} KeptMeaning(configs: seq<Config>, verdicts: seq<Verdict>) returns (at: seq<nat>)
    requires |configs| == |verdicts|
    ensures |at| == |Kept(configs, verdicts)| && forall k :: 0 <= k < |at| ==> at[k] < |configs|
    ensures forall i, j :: 0 <= i < j < |at| ==> at[i] < at[j]
    ensures forall i: nat :: i in at <==> i < |configs| && !verdicts[i].InvalidVerdict?
    ensures forall k :: 0 <= k < |at| ==>
              Kept(configs, verdicts)[k] ==
              if verdicts[at[k]].Fresh? then configs[at[k]].(credential := verdicts[at[k]].credential)
              else configs[at[k]]
  {
    at := [];
    if configs != [] {
      var n := |configs| - 1;
      at := KeptMeaning(configs[..n], verdicts[..n]);
      assert forall k :: 0 <= k < |at| ==> at[k] in at;
      if !verdicts[n].InvalidVerdict? { at := at + [n]; }
    }
  }

  /** The filter at the end of chatRelayConnectorRuntimeConfigs: it compacts the slice in place while
      walking over it, and never reads an element it has already overwritten. */
  method FilterFresh(configs: array<Config>, verdicts: seq<Verdict>) returns (n: nat)
    requires |verdicts| == configs.Length
    modifies configs
    ensures n <= configs.Length && configs[..n] == Kept(old(configs[..]), verdicts)
  {
    n := 0;
    for i := 0 to configs.Length
      invariant n <= i
      invariant forall k :: i <= k < configs.Length ==> configs[k] == old(configs[k])
      invariant configs[..n] == Kept(old(configs[..])[..i], verdicts[..i])
    {
      assert old(configs[..])[..i + 1][..i] == old(configs[..])[..i] && verdicts[..i + 1][..i] == verdicts[..i];
      match verdicts[i] {
        case Fresh(credential) =>
          configs[n] := configs[i].(credential := credential);
          n := n + 1;
        case InvalidVerdict =>
        case Unchanged =>
          configs[n] := configs[i];
          n := n + 1;
      }
    }
    assert old(configs[..])[..configs.Length] == old(configs[..]) && verdicts[..configs.Length] == verdicts;
  }
}
