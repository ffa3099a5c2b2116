/** Refresh tokens: issue, rotation, reuse detection, revocation and pruning as steps
    of a state machine, and what holds in every run (internal/auth/service.go and
    internal/store/devices_tokens.go). */
module Tokens {
  import opened Options

  type User = nat
  type Time = int
  type TokenId = nat

  // Devices are unique per user and client id.
  datatype DeviceId = DeviceId(user: User, client: nat)

  // A token is named by its secret; only its hash is stored, and hashes do not collide.
  datatype Token = Token(user: User, device: DeviceId, expiresAt: Time, revokedAt: Option<Time>, replacedBy: Option<TokenId>)

  // Fresh secrets are numbered in the order they are issued. root is a history: the
  // token whose sign-in started the chain of each token ever issued; nothing reads it.
  datatype State = State(
    tokens: map<TokenId, Token>, devices: map<DeviceId, Option<Time>>, issued: nat, root: map<TokenId, TokenId>)

  const NO_TOKENS := State(map[], map[], 0, map[])

  const WEEK: Time := 604800

  // active: the account may sign in; usable: the account may refresh. Both are read
  // from the user's row.
  datatype Event =
    | SignIn(user: User, client: nat, active: bool, ttl: Time, now: Time)
    | Refresh(token: TokenId, usable: bool, ttl: Time, now: Time)
    | Logout(token: TokenId, revokeDevice: bool, now: Time)
    | LogoutAll(user: User, now: Time)
    | LogoutOthers(user: User, keep: DeviceId, now: Time)
    | RevokeDevice(user: User, device: DeviceId, now: Time)
    | Prune(now: Time)

  datatype Result = Issued(token: TokenId) | Done | Reuse | Refused

  // ----- statements -----

  function Revoke(t: Token, now: Time): Token {
    if t.revokedAt.None? then t.(revokedAt := Some(now)) else t
  }

  function RevokeOn(tokens: map<TokenId, Token>, device: DeviceId, now: Time): map<TokenId, Token> {
    map id | id in tokens :: if tokens[id].device == device then Revoke(tokens[id], now) else tokens[id]
  }

  function RevokeUser(tokens: map<TokenId, Token>, user: User, now: Time): map<TokenId, Token> {
    map id | id in tokens :: if tokens[id].user == user then Revoke(tokens[id], now) else tokens[id]
  }

  function RevokeOthers(tokens: map<TokenId, Token>, user: User, keep: DeviceId, now: Time): map<TokenId, Token> {
    map id | id in tokens ::
      if tokens[id].user == user && tokens[id].device != keep then Revoke(tokens[id], now) else tokens[id]
  }

  predicate Stale(t: Token, now: Time) {
    t.expiresAt < now - WEEK || (t.revokedAt.Some? && t.revokedAt.value < now - WEEK)
  }

  function Pruned(tokens: map<TokenId, Token>, now: Time): map<TokenId, Token> {
    map id | id in tokens && !Stale(tokens[id], now) :: tokens[id]
  }

  // A token neither revoked nor replaced.
  predicate Live(t: Token) {
    t.revokedAt.None? && t.replacedBy.None?
  }

  // ----- steps -----

  function Step(st: State, e: Event): (State, Result) {
    match e
    case SignIn(user, client, active, ttl, now) =>
      if !active then (st, Refused) else SignedIn(st, DeviceId(user, client), now + ttl)
    case Refresh(id, usable, ttl, now) =>
      if id !in st.tokens then (st, Refused)
      else if !Live(st.tokens[id]) then (st.(tokens := RevokeOn(st.tokens, st.tokens[id].device, now)), Reuse)
      else if st.tokens[id].expiresAt < now || !usable then (st, Refused)
      else Rotated(st, id, now + ttl)
    case Logout(id, revokeDevice, now) =>
      if id !in st.tokens || st.tokens[id].revokedAt.Some? then (st, Refused)
      else (LoggedOut(st, id, revokeDevice, now), Done)
    case LogoutAll(user, now) => (st.(tokens := RevokeUser(st.tokens, user, now)), Done)
    case LogoutOthers(user, keep, now) => (st.(tokens := RevokeOthers(st.tokens, user, keep, now)), Done)
    case RevokeDevice(user, device, now) =>
      if device !in st.devices || device.user != user || st.devices[device].Some? then (st, Refused)
      else (st.(tokens := RevokeOn(st.tokens, device, now), devices := st.devices[device := Some(now)]), Done)
    case Prune(now) => (st.(tokens := Pruned(st.tokens, now)), Done)
  }

  // The device is created, or un-revoked in place, and a new chain starts on it.
  function SignedIn(st: State, device: DeviceId, expiresAt: Time): (State, Result) {
    (State(st.tokens[st.issued := Token(device.user, device, expiresAt, None, None)],
           st.devices[device := None], st.issued + 1, st.root[st.issued := st.issued]),
     Issued(st.issued))
  }

  // The successor is stored and the old token points to it.
  function Rotated(st: State, id: TokenId, expiresAt: Time): (State, Result)
    requires id in st.tokens
  {
    var t := st.tokens[id];
    (State(st.tokens[st.issued := Token(t.user, t.device, expiresAt, None, None)][id := t.(replacedBy := Some(st.issued))],
           st.devices, st.issued + 1, st.root[st.issued := if id in st.root then st.root[id] else id]),
     Issued(st.issued))
  }

  function LoggedOut(st: State, id: TokenId, revokeDevice: bool, now: Time): State
    requires id in st.tokens
  {
    var t := st.tokens[id];
    var tokens := st.tokens[id := Revoke(t, now)];
    if revokeDevice
    then st.(tokens := RevokeOn(tokens, t.device, now),
             devices := if t.device in st.devices then st.devices[t.device := Some(now)] else st.devices)
    else st.(tokens := tokens)
  }

  function After(st: State, e: Event): State { Step(st, e).0 }

  function Run(st: State, events: seq<Event>): State
    decreases |events|
  {
    if events == [] then st else Run(After(st, events[0]), events[1..])
  }

  // ----- the invariant -----

  function RootOf(st: State, id: TokenId): TokenId {
    if id in st.root then st.root[id] else id
  }

  predicate DeviceRevoked(st: State, device: DeviceId) {
    device in st.devices && st.devices[device].Some?
  }

  // A link goes to a later token of the same chain, device and user.
  predicate LinkOk(st: State, id: TokenId)
    requires id in st.tokens
  {
    var t := st.tokens[id];
    t.replacedBy.Some? ==>
      var next := t.replacedBy.value;
      && id < next < st.issued && RootOf(st, next) == RootOf(st, id)
      && (next in st.tokens ==> st.tokens[next].device == t.device && st.tokens[next].user == t.user)
  }

  predicate TokenOk(st: State, id: TokenId)
    requires id in st.tokens
  {
    var t := st.tokens[id];
    && id < st.issued && t.user == t.device.user && t.device in st.devices && LinkOk(st, id)
    && (DeviceRevoked(st, t.device) ==> t.revokedAt.Some?)
  }

  // No two tokens were replaced by the same one.
  predicate Disjoint(st: State) {
    forall a, b :: a in st.tokens && b in st.tokens && a != b && st.tokens[a].replacedBy.Some? ==>
      st.tokens[a].replacedBy != st.tokens[b].replacedBy
  }

  predicate LiveAt(st: State, id: TokenId) {
    id in st.tokens && Live(st.tokens[id])
  }

  // At most one live token a chain.
  ghost predicate OneLive(st: State) {
    forall a, b :: LiveAt(st, a) && LiveAt(st, b) && RootOf(st, a) == RootOf(st, b) ==> a == b
  }

  ghost predicate Inv(st: State) {
    && (forall id :: id in st.tokens ==> TokenOk(st, id))
    && (forall id :: id in st.root ==> id < st.issued && st.root[id] <= id)
    && Disjoint(st) && OneLive(st)
  }

  lemma NoTokensInv()
    ensures Inv(NO_TOKENS)
  {
  }

  // Revoking and pruning keep every link and make no token live.
  predicate Kept(t: Token, t': Token) {
    t'.user == t.user && t'.device == t.device && t'.replacedBy == t.replacedBy
    && (t.revokedAt.Some? ==> t'.revokedAt.Some?)
  }

  predicate Fewer(st: State, st': State) {
    && st'.issued == st.issued && st'.root == st.root && st.devices.Keys <= st'.devices.Keys
    && (forall id :: id in st'.tokens ==> id in st.tokens && Kept(st.tokens[id], st'.tokens[id]))
    && (forall id :: id in st'.tokens && DeviceRevoked(st', st'.tokens[id].device) ==> st'.tokens[id].revokedAt.Some?)
  }

  lemma FewerInv(st: State, st': State)
    requires Inv(st) && Fewer(st, st')
    ensures Inv(st')
  {
    forall id | id in st'.tokens
      ensures TokenOk(st', id)
    {
      assert TokenOk(st, id) && Kept(st.tokens[id], st'.tokens[id]);
      if id in st'.tokens && st'.tokens[id].replacedBy.Some? && st'.tokens[id].replacedBy.value in st'.tokens {
        assert Kept(st.tokens[st'.tokens[id].replacedBy.value], st'.tokens[st'.tokens[id].replacedBy.value]);
      }
    }
    forall a | LiveAt(st', a)
      ensures LiveAt(st, a)
    {
      assert Kept(st.tokens[a], st'.tokens[a]);
    }
    forall a, b | a in st'.tokens && b in st'.tokens && a != b && st'.tokens[a].replacedBy.Some?
      ensures st'.tokens[a].replacedBy != st'.tokens[b].replacedBy
    {
      assert Kept(st.tokens[a], st'.tokens[a]) && Kept(st.tokens[b], st'.tokens[b]);
    }
  }

  lemma RevokedOnFewer(st: State, device: DeviceId, now: Time, devices: map<DeviceId, Option<Time>>)
    requires Inv(st) && st.devices.Keys <= devices.Keys
    requires forall d :: d in devices && devices[d].Some? ==> d == device || DeviceRevoked(st, d)
    ensures Fewer(st, st.(tokens := RevokeOn(st.tokens, device, now), devices := devices))
  {
    assert forall id :: id in st.tokens ==> TokenOk(st, id);
  }

  lemma RevokedFewer(st: State, tokens: map<TokenId, Token>)
    requires Inv(st) && forall id :: id in tokens ==> id in st.tokens && Kept(st.tokens[id], tokens[id])
    ensures Fewer(st, st.(tokens := tokens))
  {
    var st' := st.(tokens := tokens);
    forall id | id in st'.tokens && DeviceRevoked(st', st'.tokens[id].device)
      ensures st'.tokens[id].revokedAt.Some?
    {
      assert TokenOk(st, id) && Kept(st.tokens[id], st'.tokens[id]);
    }
  }

  lemma LoggedOutFewer(st: State, id: TokenId, revokeDevice: bool, now: Time)
    requires Inv(st) && id in st.tokens
    ensures Fewer(st, LoggedOut(st, id, revokeDevice, now))
  {
    var device := st.tokens[id].device;
    var one := st.tokens[id := Revoke(st.tokens[id], now)];
    RevokedFewer(st, one);
    assert TokenOk(st, id);
    if revokeDevice {
      var st' := LoggedOut(st, id, revokeDevice, now);
      forall x | x in st'.tokens
        ensures x in st.tokens && Kept(st.tokens[x], st'.tokens[x])
        ensures DeviceRevoked(st', st'.tokens[x].device) ==> st'.tokens[x].revokedAt.Some?
      {
        assert TokenOk(st, x);
      }
    }
  }

  lemma SignedInToken(st: State, st': State, device: DeviceId, expiresAt: Time, id: TokenId)
    requires Inv(st) && st' == SignedIn(st, device, expiresAt).0 && id in st'.tokens
    ensures TokenOk(st', id)
    ensures id != st.issued ==> st'.tokens[id].replacedBy != Some(st.issued) && RootOf(st', id) == RootOf(st, id) < st.issued
  {
    FreshUnused(st);
    assert id != st.issued ==> TokenOk(st, id);
  }

  lemma SignedInInv(st: State, st': State, device: DeviceId, expiresAt: Time)
    requires Inv(st) && st' == SignedIn(st, device, expiresAt).0
    ensures Inv(st')
  {
    forall id | id in st'.tokens
      ensures TokenOk(st', id)
      ensures id != st.issued ==> st'.tokens[id].replacedBy != Some(st.issued) && RootOf(st', id) == RootOf(st, id) < st.issued
    {
      SignedInToken(st, st', device, expiresAt, id);
    }
    forall a, b | LiveAt(st', a) && LiveAt(st', b) && RootOf(st', a) == RootOf(st', b)
      ensures a == b
    {
      assert a != st.issued ==> LiveAt(st, a);
      assert b != st.issued ==> LiveAt(st, b);
    }
  }

  lemma FreshUnused(st: State)
    requires Inv(st)
    ensures st.issued !in st.tokens && st.issued !in st.root
    ensures forall id :: id in st.tokens ==> id < st.issued && st.tokens[id].replacedBy != Some(st.issued)
  {
    assert forall id :: id in st.tokens ==> TokenOk(st, id);
  }

  lemma RotatedTokenOk(st: State, id: TokenId, expiresAt: Time, x: TokenId)
    requires Inv(st) && LiveAt(st, id) && x in Rotated(st, id, expiresAt).0.tokens
    ensures TokenOk(Rotated(st, id, expiresAt).0, x)
    ensures x != st.issued ==> RootOf(Rotated(st, id, expiresAt).0, x) == RootOf(st, x)
  {
    FreshUnused(st);
    assert TokenOk(st, id);
    assert x != st.issued ==> TokenOk(st, x);
  }

  lemma RotatedOneLive(st: State, id: TokenId, expiresAt: Time)
    requires Inv(st) && LiveAt(st, id)
    ensures OneLive(Rotated(st, id, expiresAt).0)
  {
    var st' := Rotated(st, id, expiresAt).0;
    FreshUnused(st);
    forall x | LiveAt(st', x)
      ensures x == st.issued || (LiveAt(st, x) && x != id && RootOf(st', x) == RootOf(st, x))
    {
      if x != st.issued {
        RotatedTokenOk(st, id, expiresAt, x);
      }
    }
    assert RootOf(st', st.issued) == RootOf(st, id);
  }

  lemma RotatedDisjoint(st: State, id: TokenId, expiresAt: Time)
    requires Inv(st) && LiveAt(st, id)
    ensures Disjoint(Rotated(st, id, expiresAt).0)
  {
    var st' := Rotated(st, id, expiresAt).0;
    FreshUnused(st);
    forall x | x in st'.tokens
      ensures x != id ==> st'.tokens[x].replacedBy != Some(st.issued)
      ensures x != id && x != st.issued ==> x in st.tokens && st'.tokens[x] == st.tokens[x]
    {
    }
  }

  lemma RotatedInv(st: State, st': State, id: TokenId, expiresAt: Time)
    requires Inv(st) && LiveAt(st, id) && st' == Rotated(st, id, expiresAt).0
    ensures Inv(st')
  {
    FreshUnused(st);
    RotatedOneLive(st, id, expiresAt);
    RotatedDisjoint(st, id, expiresAt);
    forall x | x in st'.tokens
      ensures TokenOk(st', x)
    {
      RotatedTokenOk(st, id, expiresAt, x);
    }
    assert TokenOk(st, id);
  }

  lemma RevokingInv(st: State, e: Event)
    requires Inv(st) && !e.SignIn? && !(e.Refresh? && LiveAt(st, e.token))
    ensures Inv(After(st, e))
  {
    var st' := After(st, e);
    if e.Logout? && st' != st {
      LoggedOutFewer(st, e.token, e.revokeDevice, e.now);
    } else if e.RevokeDevice? && st' != st {
      RevokedOnFewer(st, e.device, e.now, st'.devices);
    } else {
      RevokedFewer(st, st'.tokens);
    }
    FewerInv(st, st');
  }

  lemma IssuingInv(st: State, e: Event)
    requires Inv(st) && (e.SignIn? || (e.Refresh? && LiveAt(st, e.token)))
    ensures Inv(After(st, e))
  {
    var st' := After(st, e);
    if st' != st {
      if e.SignIn? {
        SignedInInv(st, st', DeviceId(e.user, e.client), e.now + e.ttl);
      } else {
        RotatedInv(st, st', e.token, e.now + e.ttl);
      }
    }
  }

  lemma StepInv(st: State, e: Event)
    requires Inv(st)
    ensures Inv(After(st, e))
  {
    if e.SignIn? || (e.Refresh? && LiveAt(st, e.token)) {
      IssuingInv(st, e);
    } else {
      RevokingInv(st, e);
    }
  }

  // In every run the chains are disjoint and stay on one device of one user, a revoked
  // device holds no unrevoked token, and each chain has at most one live token; a token
  // never changes its chain.
  lemma {:induction false} RunInv(st: State, events: seq<Event>)
    requires Inv(st)
    ensures Inv(Run(st, events)) && st.issued <= Run(st, events).issued
    ensures forall id: TokenId :: id < st.issued ==> RootOf(Run(st, events), id) == RootOf(st, id)
    decreases |events|
  {
    if events != [] {
      StepInv(st, events[0]);
      ChainsFixed(st, events[0]);
      RunInv(After(st, events[0]), events[1..]);
    }
  }

  lemma ChainsFixed(st: State, e: Event)
    ensures st.issued <= After(st, e).issued
    ensures forall id: TokenId :: id < st.issued ==> RootOf(After(st, e), id) == RootOf(st, id)
  {
  }

  // ----- chains -----

  // p follows replacement links from its first token to its last.
  predicate Chain(st: State, p: seq<TokenId>) {
    && |p| >= 1 && (forall i :: 0 <= i < |p| ==> p[i] in st.tokens)
    && forall i :: 0 <= i < |p| - 1 ==> st.tokens[p[i]].replacedBy == Some(p[i + 1])
  }

  lemma ChainFront(st: State, p: seq<TokenId>)
    requires Chain(st, p) && |p| > 1
    ensures Chain(st, p[..|p| - 1])
  {
    var front := p[..|p| - 1];
    forall i | 0 <= i < |front| - 1
      ensures st.tokens[front[i]].replacedBy == Some(front[i + 1])
    {
      assert front[i] == p[i] && front[i + 1] == p[i + 1];
    }
  }

  // Chains never come back to a token, and stay on one device of one user.
  lemma {:induction false} ChainsAcyclic(st: State, p: seq<TokenId>)
    requires Inv(st) && Chain(st, p)
    ensures forall i, j :: 0 <= i < j < |p| ==> p[i] < p[j]
    ensures forall i :: 0 <= i < |p| ==> st.tokens[p[i]].device == st.tokens[p[0]].device
                                         && st.tokens[p[i]].user == st.tokens[p[0]].user && RootOf(st, p[i]) == RootOf(st, p[0])
    decreases |p|
  {
    if |p| > 1 {
      var n := |p| - 1;
      var front := p[..n];
      ChainFront(st, p);
      ChainsAcyclic(st, front);
      assert TokenOk(st, p[n - 1]) && st.tokens[p[n - 1]].replacedBy == Some(p[n]);
      assert p[n - 1] < p[n];
    }
  }

  // Two chains that meet anywhere are one chain from there backwards.
  lemma {:induction false} ChainsDisjoint(st: State, p: seq<TokenId>, q: seq<TokenId>)
    requires Inv(st) && Chain(st, p) && Chain(st, q) && p[|p| - 1] == q[|q| - 1]
    ensures |p| <= |q| ==> p == q[|q| - |p|..]
    decreases |p|
  {
    if 1 < |p| <= |q| {
      var m, n := |p| - 1, |q| - 1;
      assert st.tokens[p[m - 1]].replacedBy == Some(p[m]) && st.tokens[q[n - 1]].replacedBy == Some(q[n]);
      assert p[m - 1] == q[n - 1];
      ChainFront(st, p);
      ChainFront(st, q);
      ChainsDisjoint(st, p[..m], q[..n]);
      assert p == p[..m] + [p[m]];
      assert q[|q| - |p|..] == q[..n][|q| - |p|..] + [q[n]];
    }
  }

  // ----- tokens that never refresh again -----

  // Issued once, and now gone, revoked or replaced.
  predicate Dead(st: State, id: TokenId) {
    id < st.issued && !LiveAt(st, id)
  }

  lemma DeadStays(st: State, e: Event, id: TokenId)
    requires Inv(st) && Dead(st, id)
    ensures Dead(After(st, e), id)
  {
  }

  lemma DeadRefused(st: State, e: Event)
    requires e.Refresh? && Dead(st, e.token)
    ensures !Step(st, e).1.Issued?
  {
  }

  lemma {:induction false} DeadForever(st: State, events: seq<Event>, id: TokenId)
    requires Inv(st) && Dead(st, id)
    ensures Dead(Run(st, events), id)
    decreases |events|
  {
    if events != [] {
      DeadStays(st, events[0], id);
      StepInv(st, events[0]);
      DeadForever(After(st, events[0]), events[1..], id);
    }
  }

  // Each token yields at most one successful refresh: after one, no later
  // presentation of it succeeds, whatever happens in between.
  lemma RefreshedOnce(st: State, first: Event, events: seq<Event>, again: Event)
    requires Inv(st) && first.Refresh? && again.Refresh? && again.token == first.token && Step(st, first).1.Issued?
    ensures !Step(Run(After(st, first), events), again).1.Issued?
  {
    assert TokenOk(st, first.token);
    StepInv(st, first);
    DeadForever(After(st, first), events, first.token);
    DeadRefused(Run(After(st, first), events), again);
  }

  // The tokens a revocation kills.
  predicate Kills(st: State, e: Event, id: TokenId) {
    id in st.tokens &&
    match e
    case LogoutAll(user, _) => st.tokens[id].user == user
    case LogoutOthers(user, keep, _) => st.tokens[id].user == user && st.tokens[id].device != keep
    case RevokeDevice(user, device, _) => st.tokens[id].device == device && device.user == user
    case Logout(presented, revokeDevice, _) =>
      && presented in st.tokens && st.tokens[presented].revokedAt.None?
      && (id == presented || (revokeDevice && st.tokens[id].device == st.tokens[presented].device))
    case Refresh(presented, _, _, _) =>
      presented in st.tokens && !Live(st.tokens[presented]) && st.tokens[id].device == st.tokens[presented].device
    case _ => false
  }

  // Tokens killed by a bulk revocation, a device revocation, a logout or a detected
  // reuse never refresh again in any continuation, prunings included.
  lemma KilledNeverRefresh(st: State, e: Event, id: TokenId, events: seq<Event>, later: Event)
    requires Inv(st) && Kills(st, e, id) && later.Refresh? && later.token == id
    ensures !Step(Run(After(st, e), events), later).1.Issued?
  {
    assert TokenOk(st, id);
    StepInv(st, e);
    assert Dead(After(st, e), id);
    DeadForever(After(st, e), events, id);
    DeadRefused(Run(After(st, e), events), later);
  }

  // A revocation kills nothing else: every other live token stays as it was.
  lemma OthersSurvive(st: State, e: Event, id: TokenId)
    requires id in st.tokens && !Kills(st, e, id) && !e.Prune? && !(e.Refresh? && e.token == id) && Live(st.tokens[id])
    requires Inv(st)
    ensures id in After(st, e).tokens && After(st, e).tokens[id] == st.tokens[id]
  {
    assert TokenOk(st, id);
  }

  // ----- what each step answers and writes -----

  // A presented token refreshes exactly when it is stored, neither revoked nor replaced,
  // not expired, and its account may refresh.
  predicate Refreshes(st: State, e: Event) {
    && e.Refresh? && e.token in st.tokens && e.usable && e.now <= st.tokens[e.token].expiresAt
    && st.tokens[e.token].revokedAt.None? && st.tokens[e.token].replacedBy.None?
  }

  // Which steps succeed, and how a refused refresh is answered.
  lemma StepAnswers(st: State, e: Event)
    ensures var r := Step(st, e).1;
      && (r.Issued? <==> (e.SignIn? && e.active) || Refreshes(st, e))
      && (r == Reuse <==> e.Refresh? && e.token in st.tokens
                          && (st.tokens[e.token].revokedAt.Some? || st.tokens[e.token].replacedBy.Some?))
      && (e.Logout? ==> (r == Done <==> e.token in st.tokens && st.tokens[e.token].revokedAt.None?))
      && (e.RevokeDevice? ==> (r == Done <==> e.device.user == e.user && e.device in st.devices && st.devices[e.device].None?))
      && (r == Refused ==> After(st, e) == st)
  {
  }

  // What a step leaves of each stored token, prunings apart: killed at the step's time,
  // linked to its successor, or as it was.
  lemma TokenAfter(st: State, e: Event, id: TokenId)
    requires Inv(st) && id in st.tokens && !e.Prune?
    ensures id in After(st, e).tokens
    ensures var t, t' := st.tokens[id], After(st, e).tokens[id];
      if Kills(st, e, id) && t.revokedAt.None? then t' == t.(revokedAt := Some(e.now))
      else if Refreshes(st, e) && e.token == id then t' == t.(replacedBy := Some(st.issued))
      else t' == t
  {
    assert TokenOk(st, id);
  }

  // A pruning removes exactly the tokens expired or revoked for more than 604800 seconds.
  lemma PruneIff(st: State, now: Time, id: TokenId)
    ensures id in After(st, Prune(now)).tokens <==>
              && id in st.tokens && st.tokens[id].expiresAt >= now - 604_800
              && (st.tokens[id].revokedAt.Some? ==> st.tokens[id].revokedAt.value >= now - 604_800)
    ensures id in After(st, Prune(now)).tokens ==> After(st, Prune(now)).tokens[id] == st.tokens[id]
  {
  }

  // A new token lives for its ttl on the device that signed in or presented the old one.
  lemma IssuedToken(st: State, e: Event)
    requires Inv(st) && Step(st, e).1.Issued?
    ensures var st' := After(st, e);
      && Step(st, e).1.token == st.issued && st.issued !in st.tokens && st'.issued == st.issued + 1 && st.issued in st'.tokens
      && var t := st'.tokens[st.issued];
         && t.expiresAt == e.now + e.ttl && t.revokedAt.None? && t.replacedBy.None?
         && t.user == t.device.user
         && t.device == if e.SignIn? then DeviceId(e.user, e.client) else st.tokens[e.token].device
  {
    FreshUnused(st);
    assert e.Refresh? ==> TokenOk(st, e.token);
  }

  // A device is revoked by its user or a logout, and un-revoked by a sign-in only.
  lemma DeviceAfter(st: State, e: Event, device: DeviceId)
    requires Inv(st)
    ensures DeviceRevoked(After(st, e), device) <==>
              || (DeviceRevoked(st, device) && !(e.SignIn? && e.active && device == DeviceId(e.user, e.client)))
              || (e.RevokeDevice? && e.device == device && device.user == e.user && device in st.devices)
              || (e.Logout? && e.revokeDevice && e.token in st.tokens && st.tokens[e.token].revokedAt.None?
                  && st.tokens[e.token].device == device)
  {
    assert e.Logout? && e.token in st.tokens ==> TokenOk(st, e.token);
  }

  // ----- exactly when an issued token refreshes -----

  // The step ends the token's use: it is killed, or exchanged for its successor.
  predicate Ends(st: State, e: Event, id: TokenId) {
    Kills(st, e, id) || (Refreshes(st, e) && e.token == id)
  }

  predicate NeverEnds(st: State, events: seq<Event>, id: TokenId)
    decreases |events|
  {
    events == [] || (!Ends(st, events[0], id) && NeverEnds(After(st, events[0]), events[1..], id))
  }

  predicate NoLater(events: seq<Event>, now: Time) {
    forall i :: 0 <= i < |events| ==> events[i].now <= now
  }

  // The token is as it was issued, or a pruning took it more than a week after it expired.
  predicate AsIssued(st: State, id: TokenId, t: Token, now: Time) {
    id < st.issued && if id in st.tokens then st.tokens[id] == t else t.expiresAt < now
  }

  lemma AsIssuedStep(st: State, e: Event, id: TokenId, t: Token, now: Time)
    requires Inv(st) && AsIssued(st, id, t, now) && Live(t) && e.now <= now && !Ends(st, e, id)
    ensures AsIssued(After(st, e), id, t, now)
  {
    FreshUnused(st);
    if e.Prune? {
      PruneIff(st, e.now, id);
    } else if id in st.tokens {
      TokenAfter(st, e, id);
    }
  }

  lemma {:induction false} AsIssuedRun(st: State, events: seq<Event>, id: TokenId, t: Token, now: Time)
    requires Inv(st) && AsIssued(st, id, t, now) && Live(t) && NoLater(events, now) && NeverEnds(st, events, id)
    ensures AsIssued(Run(st, events), id, t, now)
    decreases |events|
  {
    if events != [] {
      AsIssuedStep(st, events[0], id, t, now);
      StepInv(st, events[0]);
      AsIssuedRun(After(st, events[0]), events[1..], id, t, now);
    }
  }

  lemma EndedIsDead(st: State, e: Event, id: TokenId)
    requires Inv(st) && Ends(st, e, id)
    ensures Dead(After(st, e), id)
  {
    assert TokenOk(st, id);
    TokenAfter(st, e, id);
  }

  lemma {:induction false} EndsForever(st: State, events: seq<Event>, id: TokenId)
    requires Inv(st) && !NeverEnds(st, events, id)
    ensures Dead(Run(st, events), id)
    decreases |events|
  {
    StepInv(st, events[0]);
    if Ends(st, events[0], id) {
      EndedIsDead(st, events[0], id);
      DeadForever(After(st, events[0]), events[1..], id);
    } else {
      EndsForever(After(st, events[0]), events[1..], id);
    }
  }

  // Exactly when a token issued by a sign-in or a rotation refreshes at a later time:
  // when nothing in between killed or exchanged it, prunings included, its account may
  // refresh, and its ttl has not run out.
  lemma RefreshIff(st: State, issue: Event, events: seq<Event>, later: Event)
    requires Inv(st) && Step(st, issue).1.Issued? && NoLater(events, later.now)
    requires later.Refresh? && later.token == Step(st, issue).1.token
    ensures Step(Run(After(st, issue), events), later).1.Issued? <==>
              NeverEnds(After(st, issue), events, later.token) && later.usable && later.now <= issue.now + issue.ttl
  {
    var st1, id := After(st, issue), later.token;
    IssuedToken(st, issue);
    StepInv(st, issue);
    StepAnswers(Run(st1, events), later);
    if NeverEnds(st1, events, id) {
      AsIssuedRun(st1, events, id, st1.tokens[id], later.now);
    } else {
      EndsForever(st1, events, id);
    }
  }

  // ----- reuse locks the device -----

  ghost predicate NoneLive(st: State, device: DeviceId) {
    forall id :: LiveAt(st, id) ==> st.tokens[id].device != device
  }

  predicate SignsIn(e: Event, device: DeviceId) {
    e.SignIn? && DeviceId(e.user, e.client) == device
  }

  lemma NoneLiveStays(st: State, e: Event, device: DeviceId)
    requires Inv(st) && NoneLive(st, device) && !SignsIn(e, device)
    ensures NoneLive(After(st, e), device)
  {
    var st' := After(st, e);
    forall id | LiveAt(st', id)
      ensures st'.tokens[id].device != device
    {
      if id in st.tokens {
        assert LiveAt(st, id);
      } else {
        assert id == st.issued;
      }
    }
  }

  lemma {:induction false} NoneLiveRun(st: State, events: seq<Event>, device: DeviceId)
    requires Inv(st) && NoneLive(st, device) && forall i :: 0 <= i < |events| ==> !SignsIn(events[i], device)
    ensures NoneLive(Run(st, events), device)
    decreases |events|
  {
    if events != [] {
      NoneLiveStays(st, events[0], device);
      StepInv(st, events[0]);
      NoneLiveRun(After(st, events[0]), events[1..], device);
    }
  }

  // Presenting a stored token that was replaced or revoked leaves no live token on
  // its device until someone signs in there again; the answer says reuse.
  lemma ReuseLocksDevice(st: State, e: Event, events: seq<Event>)
    requires Inv(st) && e.Refresh? && e.token in st.tokens && !Live(st.tokens[e.token])
    requires forall i :: 0 <= i < |events| ==> !SignsIn(events[i], st.tokens[e.token].device)
    ensures Step(st, e).1 == Reuse
    ensures NoneLive(Run(After(st, e), events), st.tokens[e.token].device)
  {
    StepInv(st, e);
    NoneLiveRun(After(st, e), events, st.tokens[e.token].device);
  }

  // So is a revoked device: nothing on it refreshes before the next sign-in.
  lemma RevokedDeviceLocked(st: State, device: DeviceId, events: seq<Event>)
    requires Inv(st) && DeviceRevoked(st, device)
    requires forall i :: 0 <= i < |events| ==> !SignsIn(events[i], device)
    ensures NoneLive(Run(st, events), device)
  {
    forall id | LiveAt(st, id)
      ensures st.tokens[id].device != device
    {
      assert TokenOk(st, id);
    }
    NoneLiveRun(st, events, device);
  }
}
