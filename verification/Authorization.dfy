/**
 The native authorization flow: starts, loopback callbacks, expiry and the token
 exchange of many authorizations, interleaved at their suspension points.
 */
module Authorization {
  import opened Common
  import Base64Url

  datatype Status = Pending | Expired | Denied | Failed | Succeeded

  datatype Authorization = Authorization(
    principal: string, state: string, verifier: string, status: Status, error: string, connection: Option<string>,
    claimed: bool)

  /** An authorization whose server is being opened under its principal's lock. */
  datatype Draft = Draft(id: string, state: string, verifier: string)

  /** Where an exchange task is suspended: before its request, in it, or connecting the service. */
  datatype Phase = Created(code: string) | Posting(code: string) | Connecting(token: string)

  /** Histories: an exchange that was started, by a callback that presented a state, and a request that was sent. */
  datatype Exchange = Exchange(id: string, code: string, presented: string)
  datatype Post = Post(id: string, code: string, verifier: string)

  datatype Manager = Manager(
    authorizations: map<string, Authorization>,
    byPrincipal: map<string, string>,
    starting: map<string, Draft>,
    expiries: set<string>,
    exchanges: map<string, Phase>,
    issued: map<string, Draft>,
    starts: seq<Exchange>,
    posts: seq<Post>)

  const EMPTY := Manager(map[], map[], map[], {}, map[], map[], [], [])

  type Pairs = seq<(string, string)>

  /** The stretches between suspension points; a callback carries its parsed query, or None if it had none. */
  datatype Event =
    | BeginStart(principal: string, id: string, stateBytes: seq<Base64Url.Byte>, verifierBytes: seq<Base64Url.Byte>)
    | FinishStart(principal: string, listening: bool)
    | Expire(id: string)
    | Callback(id: string, query: Option<Pairs>)
    | SendRequest(id: string)
    | ExchangeFailed(id: string)
    | TokenReceived(id: string, token: string)
    | Connected(id: string, connection: Option<string>)
    | CancelExpiry(id: string)
    | CancelExchange(id: string)

  // ----- the steps -----

  function Fail(a: Authorization, code: string): Authorization {
    a.(status := Failed, error := code, state := "", verifier := "")
  }

  function Put(m: Manager, id: string, a: Authorization): Manager {
    m.(authorizations := m.authorizations[id := a])
  }

  /** The id of the principal's pending authorization, if it has one. */
  predicate HasPending(m: Manager, principal: string) {
    principal in m.byPrincipal && m.byPrincipal[principal] in m.authorizations
    && m.authorizations[m.byPrincipal[principal]].status == Pending
  }

  /** Under the principal's free lock: a pending authorization is returned, otherwise a new one is drafted. */
  function OnBeginStart(
    m: Manager, principal: string, id: string, stateBytes: seq<Base64Url.Byte>, verifierBytes: seq<Base64Url.Byte>)
    : Manager
  {
    if principal in m.starting || HasPending(m, principal) || |stateBytes| != 32 || |verifierBytes| != 32 then m
    else
      m.(starting := m.starting[
        principal := Draft(id, Base64Url.Encode(stateBytes), Base64Url.Encode(verifierBytes))])
  }

  /** The server is open, or failed to open; either way the lock is released. Ids are never reused. */
  function OnFinishStart(m: Manager, principal: string, listening: bool): Manager {
    if principal !in m.starting then m
    else
      var draft, released := m.starting[principal], m.(starting := m.starting - {principal});
      if !listening || draft.id in m.authorizations then released
      else
        released.(
          authorizations := m.authorizations[draft.id :=
            Authorization(principal, draft.state, draft.verifier, Pending, "", None, false)],
          byPrincipal := m.byPrincipal[principal := draft.id],
          expiries := m.expiries + {draft.id},
          issued := m.issued[draft.id := draft])
  }

  function OnExpire(m: Manager, id: string): Manager {
    if id !in m.expiries then m
    else
      var woken := m.(expiries := m.expiries - {id});
      if id in m.authorizations && m.authorizations[id].status == Pending then
        Put(woken, id, m.authorizations[id].(
          status := Expired, error := "authorization_expired", state := "", verifier := ""))
      else woken
  }

  predicate IsTwoKeys(pairs: Pairs) {
    |pairs| == 2 && pairs[0].0 != pairs[1].0
  }

  function Values(pairs: Pairs): map<string, string>
    requires IsTwoKeys(pairs)
  {
    map[pairs[0].0 := pairs[0].1, pairs[1].0 := pairs[1].1]
  }

  /** What the second check of a callback makes of an active authorization. */
  datatype Decision = Grant(code: string, presented: string) | Refuse(ended: Authorization, matched: bool)

  /**
   A query of exactly two keys claims the authorization; a matching state is then spent. Of two keys one is
   `state`, so they are exactly `error` and `state` when `error` is one of them.
   */
  function Decide(a: Authorization, query: Option<Pairs>): Decision {
    if query.None? || !IsTwoKeys(query.value) then Refuse(Fail(a, "invalid_callback"), false)
    else
      var values, claimed := Values(query.value), a.(claimed := true);
      if "state" !in values || values["state"] != a.state then Refuse(Fail(claimed, "state_mismatch"), false)
      else if "error" in values then
        if values["error"] == "access_denied" then
          Refuse(claimed.(state := "", status := Denied, error := "access_denied", verifier := ""), true)
        else Refuse(Fail(claimed, "authorization_failed"), true)
      else if "code" !in values || values["code"] == "" then Refuse(Fail(claimed, "invalid_callback"), true)
      else Grant(values["code"], values["state"])
  }

  predicate Active(m: Manager, id: string) {
    id in m.authorizations && m.authorizations[id].status == Pending && !m.authorizations[id].claimed
  }

  /** The authorization is claimed, its state spent, its expiry canceled, and an exchange created. */
  function Claimed(m: Manager, id: string, code: string, presented: string): Manager
    requires id in m.authorizations
  {
    m.(authorizations := m.authorizations[id := m.authorizations[id].(claimed := true, state := "")],
       expiries := m.expiries - {id},
       exchanges := m.exchanges[id := Created(code)],
       starts := m.starts + [Exchange(id, code, presented)])
  }

  function Ended(m: Manager, id: string, ended: Authorization, matched: bool): Manager {
    m.(authorizations := m.authorizations[id := ended], expiries := m.expiries - if matched then {id} else {})
  }

  function OnCallback(m: Manager, id: string, query: Option<Pairs>): Manager {
    if !Active(m, id) then m
    else
      match Decide(m.authorizations[id], query)
      case Grant(code, presented) => Claimed(m, id, code, presented)
      case Refuse(ended, matched) => Ended(m, id, ended, matched)
  }

  function OnSendRequest(m: Manager, id: string): Manager {
    if id in m.exchanges && m.exchanges[id].Created? && id in m.authorizations then
      m.(exchanges := m.exchanges[id := Posting(m.exchanges[id].code)],
         posts := m.posts + [Post(id, m.exchanges[id].code, m.authorizations[id].verifier)])
    else m
  }

  function OnExchangeFailed(m: Manager, id: string): Manager {
    if id in m.exchanges && !m.exchanges[id].Connecting? && id in m.authorizations then
      Put(m, id, m.authorizations[id].(status := Failed, error := "token_exchange_failed", verifier := ""))
        .(exchanges := m.exchanges - {id})
    else m
  }

  function OnTokenReceived(m: Manager, id: string, token: string): Manager {
    if id in m.exchanges && m.exchanges[id].Posting? && token != "" then
      m.(exchanges := m.exchanges[id := Connecting(token)])
    else m
  }

  function OnConnected(m: Manager, id: string, connection: Option<string>): Manager {
    if id in m.exchanges && m.exchanges[id].Connecting? && id in m.authorizations then
      var a := m.authorizations[id].(verifier := "");
      Put(m, id,
        if connection.None? then a.(status := Failed, error := "service_connection_failed")
        else a.(status := Succeeded, connection := connection))
        .(exchanges := m.exchanges - {id})
    else m
  }

  /** Shutdown: a canceled connection step still clears the verifier. */
  function OnCancelExchange(m: Manager, id: string): Manager {
    if id in m.exchanges && id in m.authorizations then
      var ended := m.(exchanges := m.exchanges - {id});
      if m.exchanges[id].Connecting? then Put(ended, id, m.authorizations[id].(verifier := "")) else ended
    else m
  }

  function Next(m: Manager, event: Event): Manager {
    match event
    case BeginStart(principal, id, stateBytes, verifierBytes) => OnBeginStart(m, principal, id, stateBytes, verifierBytes)
    case FinishStart(principal, listening) => OnFinishStart(m, principal, listening)
    case Expire(id) => OnExpire(m, id)
    case Callback(id, query) => OnCallback(m, id, query)
    case SendRequest(id) => OnSendRequest(m, id)
    case ExchangeFailed(id) => OnExchangeFailed(m, id)
    case TokenReceived(id, token) => OnTokenReceived(m, id, token)
    case Connected(id, connection) => OnConnected(m, id, connection)
    case CancelExpiry(id) => m.(expiries := m.expiries - {id})
    case CancelExchange(id) => OnCancelExchange(m, id)
  }

  /** A run: any sequence of events, enabled or not. */
  function Run(m: Manager, events: seq<Event>): Manager {
    if events == [] then m
    else
      var n := |events| - 1;
      Next(Run(m, events[..n]), events[n])
  }

  // ----- the invariant -----

  /** Its secrets exist only while they can still be used, and only as issued. */
  ghost predicate SecretsKept(m: Manager, id: string)
    requires id in m.authorizations
  {
    var a := m.authorizations[id];
    && id in m.issued && m.issued[id].state != ""
    && (a.status != Pending ==> a.state == "" && a.verifier == "")
    && (a.status == Pending && !a.claimed ==> a.state == m.issued[id].state && a.verifier == m.issued[id].verifier)
    && (a.status == Pending && a.claimed ==> a.state == "" && id !in m.expiries)
  }

  /** The principal index leads to it while it is pending, and its principal is not starting another. */
  ghost predicate PendingKept(m: Manager, id: string)
    requires id in m.authorizations
  {
    var p := m.authorizations[id].principal;
    m.authorizations[id].status == Pending ==> p in m.byPrincipal && m.byPrincipal[p] == id && p !in m.starting
  }

  ghost predicate AuthorizationKept(m: Manager, id: string) {
    id in m.authorizations ==>
      && SecretsKept(m, id) && PendingKept(m, id)
      && (m.authorizations[id].status == Succeeded ==> Exchanged(m, id))
  }

  /** A running exchange belongs to a claimed, still pending authorization with its verifier untouched. */
  ghost predicate ExchangeKept(m: Manager, id: string) {
    id in m.exchanges ==>
      && id in m.authorizations && id in m.issued
      && m.authorizations[id].status == Pending && m.authorizations[id].claimed
      && m.authorizations[id].verifier == m.issued[id].verifier
      && (m.exchanges[id].Connecting? || StartedWith(m, id, m.exchanges[id].code))
      && (m.exchanges[id].Created? || Exchanged(m, id))
  }

  ghost predicate StartedWith(m: Manager, id: string, code: string) {
    exists k :: 0 <= k < |m.starts| && m.starts[k].id == id && m.starts[k].code == code
  }

  ghost predicate StartsKept(m: Manager) {
    && (forall k :: 0 <= k < |m.starts| ==> StartKept(m, m.starts[k]))
    && (forall j, k :: 0 <= j < k < |m.starts| ==> m.starts[j].id != m.starts[k].id)
  }

  /** An exchange was started for the issued state, with a code, by the callback that claimed it. */
  ghost predicate StartKept(m: Manager, s: Exchange) {
    && s.id in m.authorizations && m.authorizations[s.id].claimed && s.id in m.issued
    && s.presented == m.issued[s.id].state && s.code != ""
  }

  ghost predicate PostsKept(m: Manager) {
    forall k :: 0 <= k < |m.posts| ==> PostKept(m, m.posts[k])
  }

  /** A request carries the code of a started exchange and the verifier issued with its state. */
  ghost predicate PostKept(m: Manager, p: Post) {
    p.id in m.issued && p.verifier == m.issued[p.id].verifier && StartedWith(m, p.id, p.code)
  }

  ghost predicate Inv(m: Manager) {
    && (forall id {:trigger AuthorizationKept(m, id)} :: AuthorizationKept(m, id))
    && (forall id {:trigger ExchangeKept(m, id)} :: ExchangeKept(m, id))
    && (forall p :: p in m.starting ==> m.starting[p].state != "")
    && StartsKept(m) && PostsKept(m)
  }

  ghost predicate Exchanged(m: Manager, id: string) {
    exists k :: 0 <= k < |m.posts| && m.posts[k].id == id
  }

  // ----- every step keeps it -----

  /** Steps that only extend the histories' context keep the facts about them. */
  lemma SameHistories(m: Manager, n: Manager)
    requires Inv(m) && n.starts == m.starts && n.posts == m.posts
    requires forall id :: id in m.authorizations ==>
      id in n.authorizations && (m.authorizations[id].claimed ==> n.authorizations[id].claimed)
    requires forall id :: id in m.issued ==> id in n.issued && n.issued[id] == m.issued[id]
    ensures StartsKept(n) && PostsKept(n)
    ensures forall id, code :: StartedWith(m, id, code) ==> StartedWith(n, id, code)
    ensures forall id :: Exchanged(m, id) ==> Exchanged(n, id)
  {
    forall k | 0 <= k < |n.starts| ensures StartKept(n, n.starts[k]) {
      assert StartKept(m, m.starts[k]);
    }
    forall k | 0 <= k < |n.posts| ensures PostKept(n, n.posts[k]) {
      assert PostKept(m, m.posts[k]);
    }
  }

  /** A change of at most one authorization and its tasks that adds nothing to the histories. */
  lemma OneChangeKeeps(m: Manager, n: Manager, id: string)
    requires Inv(m) && id in m.authorizations && id in n.authorizations
    requires n.authorizations == m.authorizations[id := n.authorizations[id]]
    requires n.byPrincipal == m.byPrincipal && n.starting == m.starting && n.issued == m.issued
    requires n.starts == m.starts && n.posts == m.posts && n.expiries <= m.expiries
    requires n.authorizations[id].principal == m.authorizations[id].principal
    requires m.authorizations[id].claimed ==> n.authorizations[id].claimed
    requires n.authorizations[id].status == Pending ==> m.authorizations[id].status == Pending
    requires n.authorizations[id].status == Succeeded ==> Exchanged(m, id)
    requires SecretsKept(n, id)
    requires n.exchanges - {id} == m.exchanges - {id}
    requires ExchangeKept(n, id)
    ensures Inv(n)
  {
    SameHistories(m, n);
    forall other ensures AuthorizationKept(n, other) {
      assert AuthorizationKept(m, other);
    }
    forall other ensures ExchangeKept(n, other) {
      assert ExchangeKept(m, other);
      assert other != id ==> (other in n.exchanges <==> other in n.exchanges - {id});
      assert other != id ==> (other in m.exchanges <==> other in m.exchanges - {id});
      assert other != id && other in n.exchanges ==> (n.exchanges - {id})[other] == (m.exchanges - {id})[other];
    }
  }

  /** Steps that leave authorizations, exchanges and histories alone. */
  lemma NoChangeKeeps(m: Manager, n: Manager)
    requires Inv(m) && n == m.(starting := n.starting, expiries := n.expiries)
    requires n.expiries <= m.expiries
    requires forall p :: p in n.starting ==> n.starting[p].state != ""
    requires forall p :: p in n.starting && p !in m.starting ==> !HasPending(m, p)
    ensures Inv(n)
  {
    SameHistories(m, n);
    forall other ensures AuthorizationKept(n, other) {
      assert AuthorizationKept(m, other);
    }
    forall other ensures ExchangeKept(n, other) {
      assert ExchangeKept(m, other);
    }
  }

  lemma BeginStartKeeps(
    m: Manager, principal: string, id: string, stateBytes: seq<Base64Url.Byte>, verifierBytes: seq<Base64Url.Byte>)
    requires Inv(m)
    ensures Inv(OnBeginStart(m, principal, id, stateBytes, verifierBytes))
  {
    var n := OnBeginStart(m, principal, id, stateBytes, verifierBytes);
    if n != m {
      Base64Url.VerifierShape(stateBytes);
      NoChangeKeeps(m, n);
    }
  }

  lemma FinishStartKeeps(m: Manager, principal: string, listening: bool)
    requires Inv(m)
    ensures Inv(OnFinishStart(m, principal, listening))
  {
    var n := OnFinishStart(m, principal, listening);
    if principal !in m.starting {
    } else if !listening || m.starting[principal].id in m.authorizations {
      NoChangeKeeps(m, n);
    } else {
      RegisterKeeps(m, n, principal);
    }
  }

  /** Registration adds a fresh pending authorization while its principal has no other. */
  lemma RegisterKeeps(m: Manager, n: Manager, principal: string)
    requires Inv(m) && principal in m.starting && m.starting[principal].id !in m.authorizations
    requires n == OnFinishStart(m, principal, true)
    ensures Inv(n)
  {
    var draft := m.starting[principal];
    forall k | 0 <= k < |n.starts| ensures StartKept(n, n.starts[k]) {
      assert StartKept(m, m.starts[k]);
    }
    forall k | 0 <= k < |n.posts| ensures PostKept(n, n.posts[k]) {
      PostedWasStarted(m, k);
    }
    forall other ensures AuthorizationKept(n, other) {
      assert AuthorizationKept(m, other);
      assert Exchanged(m, other) ==> Exchanged(n, other);
    }
    forall other ensures ExchangeKept(n, other) {
      assert ExchangeKept(m, other);
      assert Exchanged(m, other) ==> Exchanged(n, other);
      assert forall code :: StartedWith(m, other, code) ==> StartedWith(n, other, code);
    }
  }

  lemma PostedWasStarted(m: Manager, k: nat)
    requires Inv(m) && k < |m.posts|
    ensures PostKept(m, m.posts[k]) && m.posts[k].id in m.authorizations
  {
    var p := m.posts[k];
    assert PostKept(m, p);
    var j :| 0 <= j < |m.starts| && m.starts[j].id == p.id && m.starts[j].code == p.code;
    assert StartKept(m, m.starts[j]);
  }

  lemma ExpireKeeps(m: Manager, id: string)
    requires Inv(m)
    ensures Inv(OnExpire(m, id))
  {
    if id in m.expiries {
      if id in m.authorizations && m.authorizations[id].status == Pending {
        assert AuthorizationKept(m, id) && ExchangeKept(m, id);
        OneChangeKeeps(m, OnExpire(m, id), id);
      } else {
        NoChangeKeeps(m, OnExpire(m, id));
      }
    }
  }

  /** A refusal ends the authorization with its secrets erased. */
  lemma RefusalEnds(a: Authorization, query: Option<Pairs>)
    requires Decide(a, query).Refuse?
    ensures var b := Decide(a, query).ended;
      b.status in {Failed, Denied} && b.principal == a.principal && b.state == "" && b.verifier == ""
      && (a.claimed ==> b.claimed)
  {
  }

  /** The query is this state and this code, in either order, and nothing else. */
  predicate IsGood(query: Pairs, state: string, code: string) {
    code != "" && (query == [("state", state), ("code", code)] || query == [("code", code), ("state", state)])
  }

  /** The exchange starts exactly for a query of two keys: the current state and a code that is not empty. */
  lemma GrantIff(a: Authorization, query: Option<Pairs>, code: string)
    ensures Decide(a, query).Grant? && Decide(a, query).code == code <==> query.Some? && IsGood(query.value, a.state, code)
    ensures Decide(a, query).Grant? ==> Decide(a, query).presented == a.state
  {
    assert "code" != "state" && "error" != "code" && "error" != "state";
  }

  lemma CallbackKeeps(m: Manager, id: string, query: Option<Pairs>)
    requires Inv(m)
    ensures Inv(OnCallback(m, id, query))
  {
    if Active(m, id) {
      var decision := Decide(m.authorizations[id], query);
      if decision.Grant? {
        GrantIff(m.authorizations[id], query, decision.code);
        ClaimedKeeps(m, id, decision.code, decision.presented);
      } else {
        RefusalEnds(m.authorizations[id], query);
        EndedKeeps(m, id, decision.ended, decision.matched);
      }
    }
  }

  lemma EndedKeeps(m: Manager, id: string, ended: Authorization, matched: bool)
    requires Inv(m) && Active(m, id)
    requires ended.status in {Failed, Denied} && ended.principal == m.authorizations[id].principal
    requires ended.state == "" && ended.verifier == ""
    ensures Inv(Ended(m, id, ended, matched))
  {
    assert AuthorizationKept(m, id) && ExchangeKept(m, id);
    OneChangeKeeps(m, Ended(m, id, ended, matched), id);
  }

  lemma ClaimedHistories(m: Manager, id: string, code: string, presented: string)
    requires Inv(m) && Active(m, id) && code != "" && presented == m.authorizations[id].state
    ensures StartsKept(Claimed(m, id, code, presented)) && PostsKept(Claimed(m, id, code, presented))
    ensures forall other, c :: StartedWith(m, other, c) ==> StartedWith(Claimed(m, id, code, presented), other, c)
    ensures StartedWith(Claimed(m, id, code, presented), id, code)
  {
    var n := Claimed(m, id, code, presented);
    assert AuthorizationKept(m, id);
    var last := n.starts[|m.starts|];
    assert StartKept(n, last);
    forall k | 0 <= k < |m.starts| ensures StartKept(n, n.starts[k]) && n.starts[k].id != id {
      assert n.starts[k] == m.starts[k] && StartKept(m, m.starts[k]);
    }
    forall other, c | StartedWith(m, other, c) ensures StartedWith(n, other, c) {
      var k :| 0 <= k < |m.starts| && m.starts[k].id == other && m.starts[k].code == c;
      assert n.starts[k] == m.starts[k];
    }
    forall k | 0 <= k < |n.posts| ensures PostKept(n, n.posts[k]) {
      assert PostKept(m, m.posts[k]);
    }
  }

  /** The one callback that starts an exchange: no other was started for this authorization. */
  lemma ClaimedKeeps(m: Manager, id: string, code: string, presented: string)
    requires Inv(m) && Active(m, id) && code != "" && presented == m.authorizations[id].state
    ensures Inv(Claimed(m, id, code, presented))
  {
    var n := Claimed(m, id, code, presented);
    ClaimedHistories(m, id, code, presented);
    forall other ensures AuthorizationKept(n, other) {
      assert AuthorizationKept(m, other);
      assert Exchanged(m, other) ==> Exchanged(n, other);
    }
    forall other ensures ExchangeKept(n, other) {
      assert AuthorizationKept(m, id) && ExchangeKept(m, other);
      assert Exchanged(m, other) ==> Exchanged(n, other);
    }
  }

  lemma SendRequestKeeps(m: Manager, id: string)
    requires Inv(m)
    ensures Inv(OnSendRequest(m, id))
  {
    var n := OnSendRequest(m, id);
    if n != m {
      assert ExchangeKept(m, id);
      var last := n.posts[|m.posts|];
      forall other, c | StartedWith(m, other, c) ensures StartedWith(n, other, c) {
        var k :| 0 <= k < |m.starts| && m.starts[k].id == other && m.starts[k].code == c;
        assert n.starts[k] == m.starts[k];
      }
      forall other | Exchanged(m, other) ensures Exchanged(n, other) {
        var k :| 0 <= k < |m.posts| && m.posts[k].id == other;
        assert n.posts[k] == m.posts[k];
      }
      assert PostKept(n, last) && Exchanged(n, id);
      forall k | 0 <= k < |m.posts| ensures PostKept(n, n.posts[k]) {
        assert n.posts[k] == m.posts[k] && PostKept(m, m.posts[k]);
      }
      forall k | 0 <= k < |n.starts| ensures StartKept(n, n.starts[k]) {
        assert StartKept(m, m.starts[k]);
      }
      forall other ensures AuthorizationKept(n, other) {
        assert AuthorizationKept(m, other);
      }
      forall other ensures ExchangeKept(n, other) {
        assert ExchangeKept(m, other);
      }
    }
  }

  lemma TokenReceivedKeeps(m: Manager, id: string, token: string)
    requires Inv(m)
    ensures Inv(OnTokenReceived(m, id, token))
  {
    var n := OnTokenReceived(m, id, token);
    if n != m {
      assert ExchangeKept(m, id) && AuthorizationKept(m, id);
      assert Exchanged(n, id) by {
        var k :| 0 <= k < |m.posts| && m.posts[k].id == id;
        assert n.posts[k].id == id;
      }
      OneChangeKeeps(m, n, id);
    }
  }

  lemma ExchangeEndKeeps(m: Manager, id: string, connection: Option<string>)
    requires Inv(m)
    ensures Inv(OnExchangeFailed(m, id))
    ensures Inv(OnConnected(m, id, connection))
    ensures Inv(OnCancelExchange(m, id))
  {
    if id in m.exchanges {
      assert ExchangeKept(m, id) && AuthorizationKept(m, id);
      if m.exchanges[id].Connecting? {
        OneChangeKeeps(m, OnConnected(m, id, connection), id);
      } else {
        OneChangeKeeps(m, OnExchangeFailed(m, id), id);
      }
      OneChangeKeeps(m, OnCancelExchange(m, id), id);
    }
  }

  lemma NextKeeps(m: Manager, event: Event)
    requires Inv(m)
    ensures Inv(Next(m, event))
  {
    match event
    case BeginStart(principal, id, stateBytes, verifierBytes) =>
      BeginStartKeeps(m, principal, id, stateBytes, verifierBytes);
    case FinishStart(principal, listening) => FinishStartKeeps(m, principal, listening);
    case Expire(id) => ExpireKeeps(m, id);
    case Callback(id, query) => CallbackKeeps(m, id, query);
    case SendRequest(id) => SendRequestKeeps(m, id);
    case ExchangeFailed(id) => ExchangeEndKeeps(m, id, None);
    case TokenReceived(id, token) => TokenReceivedKeeps(m, id, token);
    case Connected(id, connection) => ExchangeEndKeeps(m, id, connection);
    case CancelExpiry(id) => NoChangeKeeps(m, m.(expiries := m.expiries - {id}));
    case CancelExchange(id) => ExchangeEndKeeps(m, id, None);
  }

  lemma {:induction false} RunKeeps(events: seq<Event>)
    ensures Inv(Run(EMPTY, events))
  {
    if events != [] {
      var n := |events| - 1;
      RunKeeps(events[..n]);
      NextKeeps(Run(EMPTY, events[..n]), events[n]);
    }
  }

  // ----- what holds of every run -----

  /** The authorization an event is about. */
  function Subject(event: Event): Option<string> {
    match event
    case BeginStart(_, _, _, _) => None
    case FinishStart(_, _) => None
    case Expire(id) => Some(id)
    case Callback(id, _) => Some(id)
    case SendRequest(id) => Some(id)
    case ExchangeFailed(id) => Some(id)
    case TokenReceived(id, _) => Some(id)
    case Connected(id, _) => Some(id)
    case CancelExpiry(id) => Some(id)
    case CancelExchange(id) => Some(id)
  }

  predicate Unchanged(m: Manager, n: Manager, id: string) {
    id in m.authorizations && id in n.authorizations && n.authorizations[id] == m.authorizations[id]
  }

  lemma StartsChangeNothing(m: Manager, event: Event, id: string)
    requires id in m.authorizations && Subject(event).None?
    ensures Unchanged(m, Next(m, event), id)
  {
  }

  lemma OthersUnchanged(m: Manager, event: Event, id: string)
    requires id in m.authorizations && Subject(event).Some? && Subject(event).value != id
    ensures Unchanged(m, Next(m, event), id)
  {
    match event
    case Expire(_) =>
    case Callback(_, _) =>
    case SendRequest(_) =>
    case ExchangeFailed(_) =>
    case TokenReceived(_, _) =>
    case Connected(_, _) =>
    case CancelExpiry(_) =>
    case CancelExchange(_) =>
  }

  /** An expired timer or a callback changes only an active authorization. */
  lemma OnlyActiveChanges(m: Manager, id: string, query: Option<Pairs>)
    requires Inv(m) && id in m.authorizations && !Active(m, id)
    ensures Unchanged(m, OnExpire(m, id), id) && Unchanged(m, OnCallback(m, id, query), id)
  {
    assert AuthorizationKept(m, id);
  }

  /** The exchange's steps change nothing when there is no exchange. */
  lemma NoExchangeNoChange(m: Manager, id: string, connection: Option<string>)
    requires id in m.authorizations && id !in m.exchanges
    ensures Unchanged(m, OnExchangeFailed(m, id), id) && Unchanged(m, OnConnected(m, id, connection), id)
    ensures Unchanged(m, OnCancelExchange(m, id), id)
  {
  }

  lemma TerminalStays(m: Manager, event: Event, id: string)
    requires Inv(m) && id in m.authorizations && m.authorizations[id].status != Pending
    ensures Unchanged(m, Next(m, event), id)
  {
    assert ExchangeKept(m, id);
    if Subject(event).None? {
      StartsChangeNothing(m, event, id);
    } else if Subject(event).value != id {
      OthersUnchanged(m, event, id);
    } else {
      match event
      case Expire(_) => OnlyActiveChanges(m, id, None);
      case Callback(_, query) => OnlyActiveChanges(m, id, query);
      case SendRequest(_) =>
      case ExchangeFailed(_) => NoExchangeNoChange(m, id, None);
      case TokenReceived(_, _) =>
      case Connected(_, connection) => NoExchangeNoChange(m, id, connection);
      case CancelExpiry(_) =>
      case CancelExchange(_) => NoExchangeNoChange(m, id, None);
    }
  }

  lemma {:induction false} TerminalStaysThrough(m: Manager, events: seq<Event>, id: string)
    requires Inv(m) && id in m.authorizations && m.authorizations[id].status != Pending
    ensures Inv(Run(m, events))
    ensures id in Run(m, events).authorizations && Run(m, events).authorizations[id] == m.authorizations[id]
  {
    if events != [] {
      var n := |events| - 1;
      TerminalStaysThrough(m, events[..n], id);
      NextKeeps(Run(m, events[..n]), events[n]);
      TerminalStays(Run(m, events[..n]), events[n], id);
    }
  }

  lemma {:induction false} RunConcat(m: Manager, a: seq<Event>, b: seq<Event>)
    ensures Run(m, a + b) == Run(Run(m, a), b)
  {
    if b == [] {
      assert a + b == a;
    } else {
      var n := |b| - 1;
      RunConcat(m, a, b[..n]);
      assert a + b == a + b[..n] + [b[n]];
      RunSnoc(m, a + b[..n], b[n]);
    }
  }

  lemma RunSnoc(m: Manager, events: seq<Event>, event: Event)
    ensures Run(m, events + [event]) == Next(Run(m, events), event)
  {
    assert (events + [event])[..|events|] == events;
  }

  /** An authorization leaves `pending` at most once: after that nothing of it ever changes. */
  lemma LeavesPendingOnce(before: seq<Event>, after: seq<Event>, id: string)
    requires id in Run(EMPTY, before).authorizations && Run(EMPTY, before).authorizations[id].status != Pending
    ensures id in Run(EMPTY, before + after).authorizations
    ensures Run(EMPTY, before + after).authorizations[id] == Run(EMPTY, before).authorizations[id]
  {
    RunKeeps(before);
    RunConcat(EMPTY, before, after);
    TerminalStaysThrough(Run(EMPTY, before), after, id);
  }

  /** The events of the exchange that a claim hands the authorization to. */
  predicate OfExchange(event: Event, id: string) {
    match event
    case ExchangeFailed(other) => other == id
    case Connected(other, _) => other == id
    case CancelExchange(other) => other == id
    case _ => false
  }

  lemma ClaimStays(m: Manager, event: Event, id: string)
    requires Inv(m) && id in m.authorizations && m.authorizations[id].claimed && !OfExchange(event, id)
    ensures Unchanged(m, Next(m, event), id)
  {
    if Subject(event).None? {
      StartsChangeNothing(m, event, id);
    } else if Subject(event).value != id {
      OthersUnchanged(m, event, id);
    } else if event.Expire? {
      OnlyActiveChanges(m, id, None);
    } else if event.Callback? {
      OnlyActiveChanges(m, id, event.query);
    }
  }

  /** Once claimed, no callback, late or malformed, no expiry and no start changes it: only its exchange does. */
  lemma ClaimIsExclusive(events: seq<Event>, event: Event, id: string)
    requires id in Run(EMPTY, events).authorizations && Run(EMPTY, events).authorizations[id].claimed
    requires !OfExchange(event, id)
    ensures Unchanged(Run(EMPTY, events), Next(Run(EMPTY, events), event), id)
  {
    RunKeeps(events);
    ClaimStays(Run(EMPTY, events), event, id);
  }

  /** Its exchange has ended or was canceled. */
  predicate Over(m: Manager, id: string) {
    id in m.authorizations && m.authorizations[id].claimed && id !in m.exchanges
  }

  lemma OverStays(m: Manager, event: Event, id: string)
    requires Inv(m) && Over(m, id)
    ensures Unchanged(m, Next(m, event), id) && Over(Next(m, event), id)
  {
    if OfExchange(event, id) {
      match event
      case ExchangeFailed(_) => NoExchangeNoChange(m, id, None);
      case Connected(_, connection) => NoExchangeNoChange(m, id, connection);
      case CancelExchange(_) => NoExchangeNoChange(m, id, None);
    } else {
      ClaimStays(m, event, id);
    }
    NoNewExchange(m, event, id);
  }

  lemma NoNewExchange(m: Manager, event: Event, id: string)
    requires Over(m, id)
    ensures id !in Next(m, event).exchanges
  {
    if event.Callback? {
      ClaimsOnlyActive(m, event.id, event.query, id);
    }
  }

  lemma ClaimsOnlyActive(m: Manager, other: string, query: Option<Pairs>, id: string)
    requires id !in m.exchanges && (other == id ==> !Active(m, id))
    ensures id !in OnCallback(m, other, query).exchanges
  {
  }

  lemma {:induction false} OverThrough(m: Manager, events: seq<Event>, id: string)
    requires Inv(m) && Over(m, id)
    ensures Inv(Run(m, events)) && Over(Run(m, events), id) && Unchanged(m, Run(m, events), id)
  {
    if events != [] {
      var n := |events| - 1;
      OverThrough(m, events[..n], id);
      NextKeeps(Run(m, events[..n]), events[n]);
      OverStays(Run(m, events[..n]), events[n], id);
    }
  }

  /** Once the exchange of a claimed authorization is canceled, nothing of the authorization ever changes. */
  lemma CanceledIsOver(before: seq<Event>, after: seq<Event>, id: string)
    requires id in Run(EMPTY, before).authorizations && Run(EMPTY, before).authorizations[id].claimed
    ensures var m := Run(EMPTY, before + [CancelExchange(id)]);
      Over(m, id) && Unchanged(m, Run(EMPTY, before + [CancelExchange(id)] + after), id)
  {
    var canceled := before + [CancelExchange(id)];
    RunSnoc(EMPTY, before, CancelExchange(id));
    CancelEnds(Run(EMPTY, before), id);
    RunKeeps(canceled);
    RunConcat(EMPTY, canceled, after);
    OverThrough(Run(EMPTY, canceled), after, id);
  }

  lemma CancelEnds(m: Manager, id: string)
    requires id in m.authorizations && m.authorizations[id].claimed
    ensures Over(Next(m, CancelExchange(id)), id)
  {
  }

  lemma TimerStep(m: Manager, event: Event, id: string)
    requires event != CancelExpiry(id) && (Active(m, id) ==> id in m.expiries)
    ensures Active(Next(m, event), id) ==> id in Next(m, event).expiries
  {
    if event.Callback? && Active(m, event.id) && Decide(m.authorizations[event.id], event.query).Refuse? {
      RefusalEnds(m.authorizations[event.id], event.query);
    }
  }

  /** In every run, the timer of an authorization that waits for its callback runs, unless it was canceled at shutdown. */
  lemma {:induction false} TimerRuns(events: seq<Event>, id: string)
    requires CancelExpiry(id) !in events
    ensures Active(Run(EMPTY, events), id) ==> id in Run(EMPTY, events).expiries
  {
    if events != [] {
      var n := |events| - 1;
      assert events[n] in events;
      TimerRuns(events[..n], id);
      TimerStep(Run(EMPTY, events[..n]), events[n], id);
    }
  }

  /**
   At most one exchange is started per authorization, only for the state it was issued with and a code;
   its request carries the verifier issued with that state; and only an authorization whose request was sent succeeds.
   */
  lemma ExchangeOnce(events: seq<Event>)
    ensures var m := Run(EMPTY, events);
      && (forall j, k :: 0 <= j < k < |m.starts| ==> m.starts[j].id != m.starts[k].id)
      && (forall k :: 0 <= k < |m.starts| ==>
            && m.starts[k].id in m.issued && m.starts[k].code != ""
            && m.starts[k].presented == m.issued[m.starts[k].id].state != "")
      && (forall k :: 0 <= k < |m.posts| ==>
            && m.posts[k].id in m.issued && m.posts[k].verifier == m.issued[m.posts[k].id].verifier
            && StartedWith(m, m.posts[k].id, m.posts[k].code))
      && (forall id :: id in m.authorizations && m.authorizations[id].status == Succeeded ==> Exchanged(m, id))
  {
    var m := Run(EMPTY, events);
    RunKeeps(events);
    forall k | 0 <= k < |m.starts|
      ensures m.starts[k].id in m.issued && m.starts[k].code != ""
      ensures m.starts[k].presented == m.issued[m.starts[k].id].state != ""
    {
      assert StartKept(m, m.starts[k]) && AuthorizationKept(m, m.starts[k].id);
    }
    forall k | 0 <= k < |m.posts|
      ensures m.posts[k].id in m.issued && m.posts[k].verifier == m.issued[m.posts[k].id].verifier
      ensures StartedWith(m, m.posts[k].id, m.posts[k].code)
    {
      assert PostKept(m, m.posts[k]);
    }
    forall id | id in m.authorizations && m.authorizations[id].status == Succeeded ensures Exchanged(m, id) {
      assert AuthorizationKept(m, id);
    }
  }

  /** At every suspension point: no secrets outlive `pending`, and a principal has one pending authorization at most. */
  lemma SecretsAndPrincipals(events: seq<Event>, a: string, b: string)
    requires a in Run(EMPTY, events).authorizations && b in Run(EMPTY, events).authorizations
    ensures var x := Run(EMPTY, events).authorizations[a];
      x.status != Pending ==> x.state == "" && x.verifier == ""
    ensures var x, y := Run(EMPTY, events).authorizations[a], Run(EMPTY, events).authorizations[b];
      x.status == Pending && y.status == Pending && x.principal == y.principal ==> a == b
  {
    RunKeeps(events);
    assert AuthorizationKept(Run(EMPTY, events), a) && AuthorizationKept(Run(EMPTY, events), b);
  }

  // ----- how authorizations end -----

  /** What an authorization that has ended shows. */
  datatype Ending = Ending(status: Status, error: string, connection: Option<string>)

  /** What the query of a callback does to an authorization that waits for `state`; None when it starts the exchange. */
  function CallbackEnds(query: Option<Pairs>, state: string): Option<Ending> {
    if query.None? || |query.value| != 2 || query.value[0].0 == query.value[1].0
    then Some(Ending(Failed, "invalid_callback", None))
    else if ("state", state) !in query.value then Some(Ending(Failed, "state_mismatch", None))
    else
      var (key, value) := if query.value[0].0 == "state" then query.value[1] else query.value[0];
      if key == "error" && value == "access_denied" then Some(Ending(Denied, "access_denied", None))
      else if key == "error" then Some(Ending(Failed, "authorization_failed", None))
      else if key == "code" && value != "" then None
      else Some(Ending(Failed, "invalid_callback", None))
  }

  /** How an event ends an authorization, if it does: by its timer, its callback, its request or its connection. */
  function EndsWith(m: Manager, event: Event, id: string): Option<Ending> {
    if id !in m.authorizations then None
    else
      match event
      case Expire(other) =>
        if other == id && id in m.expiries && m.authorizations[id].status == Pending
        then Some(Ending(Expired, "authorization_expired", None)) else None
      case Callback(other, query) =>
        if other == id && Active(m, id) then CallbackEnds(query, m.authorizations[id].state) else None
      case ExchangeFailed(other) =>
        if other == id && id in m.exchanges && !m.exchanges[id].Connecting?
        then Some(Ending(Failed, "token_exchange_failed", None)) else None
      case Connected(other, connection) =>
        if other == id && id in m.exchanges && m.exchanges[id].Connecting? then
          match connection
          case Some(c) => Some(Ending(Succeeded, "", Some(c)))
          case None => Some(Ending(Failed, "service_connection_failed", None))
        else None
      case _ => None
  }

  predicate Shows(a: Authorization, ending: Ending) {
    a.status == ending.status && a.error == ending.error && a.connection == ending.connection
  }

  predicate SameOutcome(a: Authorization, b: Authorization) {
    a.status == b.status && a.error == b.error && a.connection == b.connection
  }

  /** An authorization that has not ended shows no error and no connection. */
  ghost predicate PendingIsBlank(m: Manager) {
    forall id :: id in m.authorizations && m.authorizations[id].status == Pending ==>
      Shows(m.authorizations[id], Ending(Pending, "", None))
  }

  lemma DecideEnds(a: Authorization, query: Option<Pairs>)
    requires a.status == Pending && a.error == "" && a.connection == None
    ensures var decision, ends := Decide(a, query), CallbackEnds(query, a.state);
      (decision.Grant? <==> ends.None?) && (decision.Refuse? ==> Shows(decision.ended, ends.value))
  {
  }

  lemma CallbackStep(m: Manager, id: string, query: Option<Pairs>)
    requires Inv(m) && PendingIsBlank(m) && id in m.authorizations
    ensures var n, ends := OnCallback(m, id, query), EndsWith(m, Callback(id, query), id);
      id in n.authorizations
      && if ends.Some? then m.authorizations[id].status == Pending && Shows(n.authorizations[id], ends.value)
         else SameOutcome(m.authorizations[id], n.authorizations[id])
  {
    if Active(m, id) {
      DecideEnds(m.authorizations[id], query);
    }
  }

  /** A step ends an authorization as its event says, or leaves status, error and connection alone. */
  lemma StepEnds(m: Manager, event: Event, id: string)
    requires Inv(m) && PendingIsBlank(m) && id in m.authorizations
    ensures var n, ends := Next(m, event), EndsWith(m, event, id);
      id in n.authorizations
      && if ends.Some? then m.authorizations[id].status == Pending && Shows(n.authorizations[id], ends.value)
         else SameOutcome(m.authorizations[id], n.authorizations[id])
  {
    assert AuthorizationKept(m, id) && ExchangeKept(m, id);
    if Subject(event).None? {
      StartsChangeNothing(m, event, id);
    } else if Subject(event).value != id {
      OthersUnchanged(m, event, id);
    } else if event.Callback? {
      CallbackStep(m, id, event.query);
    }
  }

  /** What is registered by a step is pending and blank. */
  lemma StepRegisters(m: Manager, event: Event, id: string)
    requires id !in m.authorizations && id in Next(m, event).authorizations
    ensures Shows(Next(m, event).authorizations[id], Ending(Pending, "", None))
  {
    if !event.FinishStart? {
      OnlyFinishRegisters(m, event);
    }
  }

  lemma BlankKept(m: Manager, event: Event)
    requires Inv(m) && PendingIsBlank(m)
    ensures PendingIsBlank(Next(m, event))
  {
    forall id | id in Next(m, event).authorizations && Next(m, event).authorizations[id].status == Pending
      ensures Shows(Next(m, event).authorizations[id], Ending(Pending, "", None))
    {
      if id in m.authorizations {
        StepEnds(m, event, id);
        EndingIsNotPending(m, event, id);
      } else {
        StepRegisters(m, event, id);
      }
    }
  }

  lemma EndingIsNotPending(m: Manager, event: Event, id: string)
    ensures EndsWith(m, event, id).Some? ==> EndsWith(m, event, id).value.status != Pending
  {
  }

  lemma {:induction false} RunIsBlank(events: seq<Event>)
    ensures PendingIsBlank(Run(EMPTY, events))
  {
    if events != [] {
      var n := |events| - 1;
      RunIsBlank(events[..n]);
      RunKeeps(events[..n]);
      BlankKept(Run(EMPTY, events[..n]), events[n]);
    }
  }

  /** Event i of the run ends the authorization in this way. */
  ghost predicate EndedBy(events: seq<Event>, i: nat, id: string, ending: Ending) {
    i < |events| && EndsWith(Run(EMPTY, events[..i]), events[i], id) == Some(ending)
  }

  lemma EndedByPrefix(events: seq<Event>, n: nat, i: nat, id: string, ending: Ending)
    requires i < n <= |events|
    ensures EndedBy(events[..n], i, id, ending) <==> EndedBy(events, i, id, ending)
  {
    assert events[..n][..i] == events[..i];
  }

  /**
   In every run, an authorization is pending, with no error and no connection, until an event ends it; from then on it
   shows what that event says: the timer, the query of the callback, the failed request, or how connecting went.
   */
  lemma {:induction false} EndsAsTold(events: seq<Event>, id: string) returns (i: nat, ending: Ending)
    requires id in Run(EMPTY, events).authorizations
    ensures var a := Run(EMPTY, events).authorizations[id];
      if a.status == Pending then ending == Ending(Pending, "", None) && Shows(a, ending)
      else EndedBy(events, i, id, ending) && Shows(a, ending)
  {
    i, ending := 0, Ending(Pending, "", None);
    RunIsBlank(events);
    if Run(EMPTY, events).authorizations[id].status != Pending {
      var n := |events| - 1;
      var m := Run(EMPTY, events[..n]);
      RunIsBlank(events[..n]);
      RunKeeps(events[..n]);
      if id !in m.authorizations {
        StepRegisters(m, events[n], id);
      } else {
        StepEnds(m, events[n], id);
        if EndsWith(m, events[n], id).Some? {
          i, ending := n, EndsWith(m, events[n], id).value;
        } else {
          i, ending := EndsAsTold(events[..n], id);
          EndedByPrefix(events, n, i, id, ending);
        }
      }
    }
  }

  /** An event that ends an authorization has the last word on it. */
  lemma EndingStays(events: seq<Event>, i: nat, id: string, ending: Ending)
    requires EndedBy(events, i, id, ending)
    ensures id in Run(EMPTY, events).authorizations && Shows(Run(EMPTY, events).authorizations[id], ending)
  {
    var m := Run(EMPTY, events[..i]);
    RunIsBlank(events[..i]);
    RunKeeps(events[..i]);
    StepEnds(m, events[i], id);
    EndingIsNotPending(m, events[i], id);
    assert events[..i + 1][..i] == events[..i];
    assert events == events[..i + 1] + events[i + 1..];
    LeavesPendingOnce(events[..i + 1], events[i + 1..], id);
  }

  /** The run connects the service for the authorization: its exchange had a token and was given a connection. */
  ghost predicate ConnectedAt(events: seq<Event>, i: nat, id: string, connection: string) {
    && i < |events| && events[i] == Connected(id, Some(connection))
    && id in Run(EMPTY, events[..i]).authorizations && id in Run(EMPTY, events[..i]).exchanges
    && Run(EMPTY, events[..i]).exchanges[id].Connecting?
  }

  lemma EndingConnects(m: Manager, event: Event, id: string, ending: Ending)
    requires EndsWith(m, event, id) == Some(ending)
    ensures ending.status == Succeeded <==> ending.connection.Some?
    ensures ending.connection.Some? ==>
      event == Connected(id, ending.connection)
      && id in m.authorizations && id in m.exchanges && m.exchanges[id].Connecting?
  {
  }

  lemma OutcomeConnects(events: seq<Event>, id: string) returns (i: nat)
    requires id in Run(EMPTY, events).authorizations
    ensures var a := Run(EMPTY, events).authorizations[id];
      && (a.status == Succeeded <==> a.connection.Some?)
      && (a.connection.Some? ==> ConnectedAt(events, i, id, a.connection.value))
  {
    var ending;
    i, ending := EndsAsTold(events, id);
    if ending.status != Pending {
      EndingConnects(Run(EMPTY, events[..i]), events[i], id, ending);
    }
  }

  /** In every run an authorization has succeeded exactly when it has a connection, the one its exchange was given. */
  lemma SucceedsIffConnected(events: seq<Event>, id: string, connection: string)
    requires id in Run(EMPTY, events).authorizations
    ensures var a := Run(EMPTY, events).authorizations[id];
      && (a.status == Succeeded <==> a.connection.Some?)
      && (a.connection == Some(connection) <==> exists i :: ConnectedAt(events, i, id, connection))
  {
    var i := OutcomeConnects(events, id);
    if j :| ConnectedAt(events, j, id, connection) {
      assert EndedBy(events, j, id, Ending(Succeeded, "", Some(connection)));
      EndingStays(events, j, id, Ending(Succeeded, "", Some(connection)));
    }
  }

  // ----- what is issued, and how a flow goes through -----

  /** The draft's secrets are the encodings of the bytes drawn for it by a start of its principal. */
  ghost predicate DrawnFor(events: seq<Event>, principal: string, draft: Draft) {
    exists i, stateBytes, verifierBytes :: DrawnAt(events, i, principal, draft, stateBytes, verifierBytes)
  }

  ghost predicate DrawnAt(
    events: seq<Event>, i: nat, principal: string, draft: Draft, stateBytes: seq<Base64Url.Byte>,
    verifierBytes: seq<Base64Url.Byte>)
  {
    && i < |events| && events[i] == BeginStart(principal, draft.id, stateBytes, verifierBytes)
    && |stateBytes| == 32 && |verifierBytes| == 32
    && draft.state == Base64Url.Encode(stateBytes) && draft.verifier == Base64Url.Encode(verifierBytes)
  }

  ghost predicate DrawsKept(events: seq<Event>, m: Manager) {
    && (forall p :: p in m.starting ==> DrawnFor(events, p, m.starting[p]))
    && (forall id :: id in m.authorizations ==>
          id in m.issued && m.issued[id].id == id && DrawnFor(events, m.authorizations[id].principal, m.issued[id]))
  }

  lemma DrawnLater(events: seq<Event>, event: Event, principal: string, draft: Draft)
    requires DrawnFor(events, principal, draft)
    ensures DrawnFor(events + [event], principal, draft)
  {
    var i, s, v :| DrawnAt(events, i, principal, draft, s, v);
    assert DrawnAt(events + [event], i, principal, draft, s, v);
  }

  /** A step drafts only what its own bytes say. */
  lemma StepDrafts(m: Manager, event: Event, p: string)
    requires p in Next(m, event).starting && !(p in m.starting && Next(m, event).starting[p] == m.starting[p])
    ensures event.BeginStart? && event.principal == p && |event.stateBytes| == 32 && |event.verifierBytes| == 32
    ensures Next(m, event).starting[p]
         == Draft(event.id, Base64Url.Encode(event.stateBytes), Base64Url.Encode(event.verifierBytes))
  {
  }

  predicate PrincipalKept(m: Manager, n: Manager, id: string) {
    && id in m.authorizations && id in n.authorizations
    && n.authorizations[id].principal == m.authorizations[id].principal
  }

  lemma StepKeepsPrincipal(m: Manager, event: Event, id: string)
    requires id in m.authorizations
    ensures PrincipalKept(m, Next(m, event), id)
  {
    if Subject(event).None? {
      StartsChangeNothing(m, event, id);
    } else if Subject(event).value != id {
      OthersUnchanged(m, event, id);
    } else if event.Callback? {
      assert PrincipalKept(m, OnCallback(m, id, event.query), id);
    }
  }

  /** Only a finished start registers, and only what was drafted for its principal; issued secrets are kept. */
  lemma StepIssues(m: Manager, event: Event, id: string)
    requires id in Next(m, event).authorizations
    ensures var n := Next(m, event);
      if id in m.authorizations then id in m.issued ==> id in n.issued && n.issued[id] == m.issued[id]
      else
        var p := n.authorizations[id].principal;
        p in m.starting && m.starting[p].id == id && id in n.issued && n.issued[id] == m.starting[p]
  {
    if event.FinishStart? {
      assert Next(m, event) == OnFinishStart(m, event.principal, event.listening);
    } else {
      OnlyFinishRegisters(m, event);
    }
  }

  predicate NoneRegistered(m: Manager, n: Manager) {
    n.authorizations.Keys == m.authorizations.Keys && n.issued == m.issued
  }

  lemma CallbackRegistersNone(m: Manager, id: string, query: Option<Pairs>)
    ensures NoneRegistered(m, OnCallback(m, id, query))
  {
  }

  lemma ExchangeRegistersNone(m: Manager, id: string, token: string, connection: Option<string>)
    ensures NoneRegistered(m, OnSendRequest(m, id)) && NoneRegistered(m, OnExchangeFailed(m, id))
    ensures NoneRegistered(m, OnTokenReceived(m, id, token)) && NoneRegistered(m, OnConnected(m, id, connection))
    ensures NoneRegistered(m, OnCancelExchange(m, id))
  {
  }

  lemma OnlyFinishRegisters(m: Manager, event: Event)
    requires !event.FinishStart?
    ensures NoneRegistered(m, Next(m, event))
  {
    match event
    case BeginStart(_, _, _, _) =>
    case Expire(_) =>
    case Callback(id, query) => CallbackRegistersNone(m, id, query);
    case SendRequest(id) => ExchangeRegistersNone(m, id, "", None);
    case ExchangeFailed(id) => ExchangeRegistersNone(m, id, "", None);
    case TokenReceived(id, token) => ExchangeRegistersNone(m, id, token, None);
    case Connected(id, connection) => ExchangeRegistersNone(m, id, "", connection);
    case CancelExpiry(_) =>
    case CancelExchange(id) => ExchangeRegistersNone(m, id, "", None);
  }

  lemma StepKeepsDraws(events: seq<Event>, m: Manager, event: Event)
    requires DrawsKept(events, m)
    ensures DrawsKept(events + [event], Next(m, event))
  {
    var n, longer := Next(m, event), events + [event];
    forall p | p in n.starting ensures DrawnFor(longer, p, n.starting[p]) {
      if p in m.starting && n.starting[p] == m.starting[p] {
        DrawnLater(events, event, p, n.starting[p]);
      } else {
        StepDrafts(m, event, p);
        assert DrawnAt(longer, |events|, p, n.starting[p], event.stateBytes, event.verifierBytes);
      }
    }
    forall id | id in n.authorizations
      ensures id in n.issued && n.issued[id].id == id
      ensures DrawnFor(longer, n.authorizations[id].principal, n.issued[id])
    {
      StepIssues(m, event, id);
      if id in m.authorizations {
        StepKeepsPrincipal(m, event, id);
      }
      DrawnLater(events, event, n.authorizations[id].principal, n.issued[id]);
    }
  }

  lemma {:induction false} RunDraws(events: seq<Event>)
    ensures DrawsKept(events, Run(EMPTY, events))
  {
    if events != [] {
      var n := |events| - 1;
      RunDraws(events[..n]);
      StepKeepsDraws(events[..n], Run(EMPTY, events[..n]), events[n]);
      assert events == events[..n] + [events[n]];
    }
  }

  /**
   In every run, an authorization was issued the encodings of the 32 state bytes and the 32 verifier bytes that a start
   of its principal drew under its id, and while it waits for its callback it holds just these.
   */
  lemma IssuedAsDrawn(events: seq<Event>, id: string)
    requires id in Run(EMPTY, events).authorizations
    ensures var m := Run(EMPTY, events);
      && id in m.issued && m.issued[id].id == id && DrawnFor(events, m.authorizations[id].principal, m.issued[id])
      && (Active(m, id) ==>
            m.authorizations[id].state == m.issued[id].state && m.authorizations[id].verifier == m.issued[id].verifier)
  {
    RunDraws(events);
    RunKeeps(events);
    assert AuthorizationKept(Run(EMPTY, events), id);
  }

  /** A start that is not disturbed registers a pending authorization of its principal, with its timer running. */
  lemma StartGoesThrough(
    m: Manager, principal: string, id: string, stateBytes: seq<Base64Url.Byte>, verifierBytes: seq<Base64Url.Byte>)
    requires principal !in m.starting && !HasPending(m, principal) && id !in m.authorizations
    requires |stateBytes| == 32 && |verifierBytes| == 32
    ensures var n := Next(Next(m, BeginStart(principal, id, stateBytes, verifierBytes)), FinishStart(principal, true));
      && id in n.authorizations
      && n.authorizations[id] == Authorization(
           principal, Base64Url.Encode(stateBytes), Base64Url.Encode(verifierBytes), Pending, "", None, false)
      && HasPending(n, principal) && n.byPrincipal[principal] == id && id in n.expiries && principal !in n.starting
  {
  }

  /** While a principal has a pending authorization, or is starting one, another start changes nothing. */
  lemma StartIsOne(
    m: Manager, principal: string, id: string, stateBytes: seq<Base64Url.Byte>, verifierBytes: seq<Base64Url.Byte>)
    requires HasPending(m, principal) || principal in m.starting
    ensures Next(m, BeginStart(principal, id, stateBytes, verifierBytes)) == m
  {
  }

  /** A good callback claims the authorization, cancels its timer and hands its code and verifier to one exchange. */
  lemma CallbackGoesThrough(m: Manager, id: string, query: Pairs, code: string)
    requires Active(m, id) && IsGood(query, m.authorizations[id].state, code)
    ensures var n := Next(Next(m, Callback(id, Some(query))), SendRequest(id));
      && id in n.authorizations && n.authorizations[id] == m.authorizations[id].(claimed := true, state := "")
      && id !in n.expiries && id in n.exchanges && n.exchanges[id] == Posting(code)
      && n.posts == m.posts + [Post(id, code, m.authorizations[id].verifier)]
  {
    GrantIff(m.authorizations[id], Some(query), code);
  }

  /** A posted exchange that is given a token and a connection succeeds with that connection. */
  lemma ExchangeGoesThrough(m: Manager, id: string, token: string, connection: string)
    requires id in m.authorizations && id in m.exchanges && m.exchanges[id].Posting? && token != ""
    ensures var n := Next(Next(m, TokenReceived(id, token)), Connected(id, Some(connection)));
      && id in n.authorizations && id !in n.exchanges
      && n.authorizations[id]
         == m.authorizations[id].(status := Succeeded, connection := Some(connection), verifier := "")
  {
  }

  lemma ConnectingStep(m: Manager, event: Event, id: string)
    requires id in Next(m, event).exchanges && Next(m, event).exchanges[id].Connecting?
    ensures var token := Next(m, event).exchanges[id].token;
      (id in m.exchanges && m.exchanges[id] == Connecting(token)) || (token != "" && event == TokenReceived(id, token))
  {
  }

  /** In every run, the service is connected with a token that the exchange was given, which is not empty. */
  lemma {:induction false} ConnectsWithToken(events: seq<Event>, id: string)
    requires id in Run(EMPTY, events).exchanges && Run(EMPTY, events).exchanges[id].Connecting?
    ensures var token := Run(EMPTY, events).exchanges[id].token; token != "" && TokenReceived(id, token) in events
  {
    if events != [] {
      var n := |events| - 1;
      var m := Run(EMPTY, events[..n]);
      ConnectingStep(m, events[n], id);
      if id in m.exchanges && m.exchanges[id] == Run(EMPTY, events).exchanges[id] {
        ConnectsWithToken(events[..n], id);
      }
    }
  }

  // ----- the manager object -----

  class AuthorizationManager {
    var authorizations: map<string, Authorization>
    var byPrincipal: map<string, string>
    var starting: map<string, Draft>
    var expiries: set<string>
    var exchanges: map<string, Phase>
    ghost var issued: map<string, Draft>
    ghost var starts: seq<Exchange>
    ghost var posts: seq<Post>

    ghost function Value(): Manager
      reads this
    {
      Manager(authorizations, byPrincipal, starting, expiries, exchanges, issued, starts, posts)
    }

    constructor ()
      ensures Value() == EMPTY
    {
      authorizations, byPrincipal, starting, expiries, exchanges := map[], map[], map[], {}, map[];
      issued, starts, posts := map[], [], [];
    }

    method Start(principal: string, id: string, stateBytes: seq<Base64Url.Byte>, verifierBytes: seq<Base64Url.Byte>)
      returns (existing: Option<string>)
      requires |stateBytes| == 32 && |verifierBytes| == 32
      modifies this
      ensures Value() == Next(old(Value()), BeginStart(principal, id, stateBytes, verifierBytes))
      ensures existing.Some? ==> HasPending(old(Value()), principal) && existing.value == old(byPrincipal)[principal]
    {
      existing := None;
      if principal in starting {
        return;
      }
      if principal in byPrincipal {
        var current := byPrincipal[principal];
        if current in authorizations && authorizations[current].status == Pending {
          return Some(current);
        }
      }
      var state := Base64Url.Encode(stateBytes);
      var verifier := Base64Url.Encode(verifierBytes);
      starting := starting[principal := Draft(id, state, verifier)];
    }

    method StartNew(principal: string, listening: bool)
      modifies this
      ensures Value() == Next(old(Value()), FinishStart(principal, listening))
    {
      if principal !in starting {
        return;
      }
      var draft := starting[principal];
      starting := starting - {principal};
      if !listening || draft.id in authorizations {
        return;
      }
      var authorization := Authorization(principal, draft.state, draft.verifier, Pending, "", None, false);
      authorizations := authorizations[draft.id := authorization];
      byPrincipal := byPrincipal[principal := draft.id];
      expiries := expiries + {draft.id};
      issued := issued[draft.id := draft];
    }

    method Expire(id: string)
      modifies this
      ensures Value() == Next(old(Value()), Event.Expire(id))
    {
      if id !in expiries {
        return;
      }
      expiries := expiries - {id};
      if id in authorizations && authorizations[id].status == Pending {
        var a := authorizations[id];
        authorizations := authorizations[id :=
          a.(status := Expired, error := "authorization_expired", state := "", verifier := "")];
      }
    }

    method ReceiveCallback(id: string, query: Option<Pairs>)
      modifies this
      ensures Value() == Next(old(Value()), Callback(id, query))
    {
      if id !in authorizations || authorizations[id].status != Pending || authorizations[id].claimed {
        return;
      }
      var a := authorizations[id];
      match Decide(a, query)
      case Grant(code, presented) =>
        starts := starts + [Exchange(id, code, presented)];
        authorizations := authorizations[id := a.(claimed := true, state := "")];
        expiries := expiries - {id};
        exchanges := exchanges[id := Created(code)];
      case Refuse(ended, matched) =>
        authorizations := authorizations[id := ended];
        if matched {
          expiries := expiries - {id};
        }
    }

    /** The exchange runs up to the point where its request is sent. */
    method SendRequest(id: string)
      modifies this
      ensures Value() == Next(old(Value()), Event.SendRequest(id))
    {
      if id in exchanges && exchanges[id].Created? && id in authorizations {
        var code := exchanges[id].code;
        posts := posts + [Post(id, code, authorizations[id].verifier)];
        exchanges := exchanges[id := Posting(code)];
      }
    }

    /** The exchange resumes with a token and goes on to connect the service. */
    method ReceiveToken(id: string, token: string)
      modifies this
      ensures Value() == Next(old(Value()), TokenReceived(id, token))
    {
      if id in exchanges && exchanges[id].Posting? && token != "" {
        exchanges := exchanges[id := Connecting(token)];
      }
    }

    /** Shutdown cancels a sleeping expiry. */
    method StopExpiry(id: string)
      modifies this
      ensures Value() == Next(old(Value()), CancelExpiry(id))
    {
      expiries := expiries - {id};
    }

    /** Shutdown cancels a running exchange; one that is connecting still clears the verifier. */
    method StopExchange(id: string)
      modifies this
      ensures Value() == Next(old(Value()), CancelExchange(id))
    {
      if id in exchanges && id in authorizations {
        if exchanges[id].Connecting? {
          authorizations := authorizations[id := authorizations[id].(verifier := "")];
        }
        exchanges := exchanges - {id};
      }
    }

    /** The exchange resumes after its request failed, or never got to send it. */
    method FailExchange(id: string)
      modifies this
      ensures Value() == Next(old(Value()), ExchangeFailed(id))
    {
      if id in exchanges && !exchanges[id].Connecting? && id in authorizations {
        var a := authorizations[id];
        authorizations := authorizations[id := a.(status := Failed, error := "token_exchange_failed", verifier := "")];
        exchanges := exchanges - {id};
      }
    }

    /** The exchange resumes after connecting the service; its verifier is erased in every case. */
    method Complete(id: string, connection: Option<string>)
      modifies this
      ensures Value() == Next(old(Value()), Connected(id, connection))
    {
      if id in exchanges && exchanges[id].Connecting? && id in authorizations {
        var a := authorizations[id];
        if connection.None? {
          a := a.(status := Failed, error := "service_connection_failed");
        } else {
          a := a.(status := Succeeded, connection := connection);
        }
        authorizations := authorizations[id := a.(verifier := "")];
        exchanges := exchanges - {id};
      }
    }
  }
}
