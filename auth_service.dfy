/**
 * The Cline account authentication service (src/services/auth/AuthService.ts):
 * an authenticated flag and a cached account record, a set of subscribed
 * streaming handlers with a handler-to-controller map beside it, and the
 * broadcast that pushes one snapshot of the authentication state to every
 * handler and then asks each distinct controller once to post its state to
 * its webview.
 */
module ClineAuth {
  import opened AuthCommon
  import opened OrderedSets

  datatype ClineAccountOrganization = ClineAccountOrganization(
    active: bool, memberId: string, name: string, organizationId: string, roles: seq<string>)

  datatype ClineAccountUserInfo = ClineAccountUserInfo(
    createdAt: string, displayName: string, email: string, id: string,
    organizations: seq<ClineAccountOrganization>,
    appBaseUrl: Option<string>,  // the app base URL the webview uses
    subject: Option<string>)     // the identity-provider id of an SSO login

  /** The cached account record: access token, optional refresh token and expiry, user. */
  datatype ClineAuthInfo = ClineAuthInfo(
    idToken: string, refreshToken: Option<string>, expiresAt: Option<int>,
    userInfo: ClineAccountUserInfo)

  /** The user part of the snapshot pushed to the webview (`photoUrl` is always unset). */
  datatype UserInfo = UserInfo(uid: string, displayName: string, email: string, appBaseUrl: Option<string>)

  /** The snapshot: the webview treats "a user is present" as "signed in". */
  datatype AuthState = AuthState(user: Option<UserInfo>)

  /** The part of the environment configuration the service reads. */
  datatype EnvConfig = EnvConfig(appBaseUrl: Option<string>)

  datatype ProviderKind = ClineProvider | FirebaseProvider

  /** `_setProvider`: "cline" selects the Cline provider, every other name the Firebase one. */
  function ProviderFor(name: string): (p: ProviderKind)
    ensures p == ClineProvider <==> name == "cline"
    ensures p == FirebaseProvider <==> name != "cline"
  {
    if name == "cline" then ClineProvider else FirebaseProvider
  }

  /** The cached record after `getInfo` has written the configured app base URL into it. */
  function AfterGetInfo(authenticated: bool, cached: Option<ClineAuthInfo>, env: EnvConfig): (r: Option<ClineAuthInfo>)
    ensures r.Some? <==> cached.Some?
    ensures !authenticated ==> r == cached
    ensures authenticated && cached.Some? ==>
      && r.value.userInfo.appBaseUrl == env.appBaseUrl
      && r.value.userInfo.(appBaseUrl := cached.value.userInfo.appBaseUrl) == cached.value.userInfo
      && r.value.(userInfo := cached.value.userInfo) == cached.value
  {
    if authenticated && cached.Some? then
      var info := cached.value;
      Some(info.(userInfo := info.userInfo.(appBaseUrl := env.appBaseUrl)))
    else cached
  }

  /**
   * The snapshot `getInfo` computes: a user exactly when the flag is set and a
   * record is cached; its uid, name and e-mail come from the record and its app
   * base URL from the configuration.
   */
  function InfoOf(authenticated: bool, cached: Option<ClineAuthInfo>, env: EnvConfig): (s: AuthState)
    ensures s.user.Some? <==> authenticated && cached.Some?
    ensures s.user.Some? ==>
      var u := cached.value.userInfo;
      s.user.value == UserInfo(u.id, u.displayName, u.email, env.appBaseUrl)
  {
    if authenticated && cached.Some? then
      var u := AfterGetInfo(authenticated, cached, env).value.userInfo;
      AuthState(Some(UserInfo(u.id, u.displayName, u.email, u.appBaseUrl)))
    else AuthState(None)
  }

  /** The account telemetry identifies after a broadcast: a cached record with a non-empty id. */
  function IdentifyTarget(cached: Option<ClineAuthInfo>): (u: Option<ClineAccountUserInfo>)
    ensures u.Some? <==> cached.Some? && cached.value.userInfo.id != ""
    ensures u.Some? ==> u.value == cached.value.userInfo
  {
    if cached.Some? && cached.value.userInfo.id != "" then Some(cached.value.userInfo) else None
  }

  /** The subscriber set (in insertion order) and the handler-to-controller map. */
  datatype Registry = Registry(handlers: seq<Handler>, owners: map<Handler, Controller>)

  /** The set holds each handler once and has exactly the keys of the map. */
  predicate Synced(r: Registry) {
    NoDup(r.handlers) && Elements(r.handlers) == r.owners.Keys
  }

  /** Subscribe's additions: the handler joins the set and is mapped to its controller. */
  function Register(r: Registry, h: Handler, c: Controller): (r': Registry)
    ensures h in r'.handlers && h in r'.owners && r'.owners[h] == c
    ensures forall g :: g in r.handlers ==> g in r'.handlers
    ensures forall g :: g in r'.handlers ==> g in r.handlers || g == h
    ensures forall g :: g in r.owners && g != h ==> g in r'.owners && r'.owners[g] == r.owners[g]
    ensures r'.owners.Keys == r.owners.Keys + {h}
    ensures Synced(r) ==> Synced(r')
  {
    Registry(Add(r.handlers, h), r.owners[h := c])
  }

  /** The cleanup closure: the handler leaves both the set and the map. */
  function Unregister(r: Registry, h: Handler): (r': Registry)
    ensures h !in r'.owners
    ensures Synced(r) ==> Synced(r') && h !in r'.handlers
    ensures Elements(r'.handlers) <= Elements(r.handlers)
    ensures Synced(r) ==> Elements(r'.handlers) == Elements(r.handlers) - {h}
    ensures forall g :: g != h ==> (g in r'.owners <==> g in r.owners)
    ensures forall g :: g in r'.owners ==> r'.owners[g] == r.owners[g]
  {
    DeleteSpec(r.handlers, h);
    Registry(Delete(r.handlers, h), r.owners - {h})
  }

  /** Cleaning up a handler that was new undoes its subscription exactly, order included. */
  lemma UnregisterUndoesRegister(r: Registry, h: Handler, c: Controller)
    requires Synced(r) && h !in r.owners
    ensures Unregister(Register(r, h, c), h) == r
  {
    assert h !in r.handlers;
    DeleteAfter(r.handlers, [h], h);
    assert r.handlers + [] == r.handlers;
    assert r.owners[h := c] - {h} == r.owners;
  }

  /** Cleanup may run twice (from the request registry and after a failed send): the second run is a no-op. */
  lemma UnregisterIdempotent(r: Registry, h: Handler)
    requires Synced(r)
    ensures Unregister(Unregister(r, h), h) == Unregister(r, h)
  {
    var once := Unregister(r, h);
    assert once.owners - {h} == once.owners;
  }

  /**
   * The registry after a delivery round over the snapshot `r.handlers`:
   * the handlers whose push threw are gone from the set, and from the map
   * (a map key outside the set is never visited, so it stays).
   */
  function DropFailed(r: Registry, fails: set<Handler>): (r': Registry)
    ensures Elements(r'.handlers) == Elements(r.handlers) - fails
    ensures r'.owners.Keys == r.owners.Keys - (fails * Elements(r.handlers))
    ensures Synced(r) ==> r'.owners.Keys == r.owners.Keys - fails
    ensures forall h :: h in r'.owners ==> r'.owners[h] == r.owners[h]
    ensures Synced(r) ==> Synced(r')
  {
    WithoutSpec(r.handlers, fails);
    Registry(Without(r.handlers, fails), r.owners - (fails * Elements(r.handlers)))
  }

  /**
   * The controllers of `hs` under `owners`, in the order the broadcast first
   * meets them: the `uniqueControllers` set.
   */
  function DistinctOwners(hs: seq<Handler>, owners: map<Handler, Controller>): (r: seq<Controller>)
    ensures |r| <= |hs|
  {
    if hs == [] then []
    else
      var n := |hs| - 1;
      var prev := DistinctOwners(hs[..n], owners);
      if hs[n] in owners then Add(prev, owners[hs[n]]) else prev
  }

  /**
   * The collected controllers hold each controller once, and exactly the
   * controllers that `owners` gives to some handler of `hs`.
   */
  lemma {:induction false} DistinctOwnersSpec(hs: seq<Handler>, owners: map<Handler, Controller>)
    ensures NoDup(DistinctOwners(hs, owners))
    ensures forall c :: c in DistinctOwners(hs, owners) ==>
      exists k :: 0 <= k < |hs| && hs[k] in owners && owners[hs[k]] == c
    ensures forall k :: 0 <= k < |hs| && hs[k] in owners ==> owners[hs[k]] in DistinctOwners(hs, owners)
  {
    if hs != [] {
      var n := |hs| - 1;
      DistinctOwnersSpec(hs[..n], owners);
      assert forall k :: 0 <= k < n ==> hs[..n][k] == hs[k];
    }
  }

  /**
   * The controllers posted are those of the handlers present at the start of
   * the broadcast, including handlers whose own push then threw; no other
   * controller is posted.
   */
  lemma PostedControllersOfSnapshot(r: Registry, c: Controller)
    requires Synced(r)
    ensures c in DistinctOwners(r.handlers, r.owners) <==> exists h :: h in r.handlers && r.owners[h] == c
  {
    DistinctOwnersSpec(r.handlers, r.owners);
    if exists h :: h in r.handlers && r.owners[h] == c {
      var h :| h in r.handlers && r.owners[h] == c;
      var k :| 0 <= k < |r.handlers| && r.handlers[k] == h;
    }
  }

  /**
   * A subscribe whose initial broadcast threw leaves its handler in neither
   * the set nor the map, and every other handler as the broadcast left it.
   */
  lemma FailedSubscribeRemovesHandler(r: Registry, h: Handler, c: Controller, fails: set<Handler>)
    requires Synced(r)
    ensures var after := Unregister(DropFailed(Register(r, h, c), fails), h);
      && Synced(after) && h !in after.owners
      && Elements(after.handlers) == Elements(r.handlers) - fails - {h}
      && (forall g :: g in after.owners ==> g in r.owners && after.owners[g] == r.owners[g])
  {
    var joined := Register(r, h, c);
    AddSpec(r.handlers, h);
    var dropped := DropFailed(joined, fails);
    assert Elements(dropped.handlers) == Elements(r.handlers) + {h} - fails;
  }

  /**
   * The handler set once the pushes to `rest` are done, starting from `hs`:
   * each handler of `rest` whose push throws is deleted in turn.
   */
  function RestOfRound(hs: seq<Handler>, rest: seq<Handler>, fails: set<Handler>): seq<Handler>
    decreases |rest|
  {
    if rest == [] then hs
    else RestOfRound(if rest[0] in fails then Delete(hs, rest[0]) else hs, rest[1..], fails)
  }

  /**
   * A whole delivery round, deleting one failed handler at a time, leaves
   * exactly the handlers whose push went through, in their order.
   */
  lemma {:induction false} RestOfRoundDropsFailed(hs: seq<Handler>, fails: set<Handler>, i: nat)
    requires NoDup(hs) && i <= |hs|
    ensures RestOfRound(Without(hs[..i], fails) + hs[i..], hs[i..], fails) == Without(hs, fails)
    decreases |hs| - i
  {
    if i == |hs| {
      assert hs[..i] == hs && hs[i..] == [];
    } else {
      var h := hs[i];
      assert hs[i..][0] == h && hs[i..][1..] == hs[i + 1..];
      RoundHandlersStep(hs, fails, i);
      RestOfRoundDropsFailed(hs, fails, i + 1);
    }
  }

  /** Deleting the failed handlers one at a time, as the round does, is `DropFailed`. */
  lemma RoundIsDropFailed(r: Registry, fails: set<Handler>)
    requires NoDup(r.handlers)
    ensures Registry(RestOfRound(r.handlers, r.handlers, fails), r.owners - (fails * Elements(r.handlers)))
         == DropFailed(r, fails)
  {
    assert Without(r.handlers[..0], fails) + r.handlers[0..] == r.handlers;
    RestOfRoundDropsFailed(r.handlers, fails, 0);
  }

  /** The next handler's turn deletes it from the map exactly when its push failed. */
  lemma RoundOwnersStep(hs: seq<Handler>, owners: map<Handler, Controller>, fails: set<Handler>, i: nat)
    requires NoDup(hs) && i < |hs|
    ensures var p, h := owners - (fails * Elements(hs[..i])), hs[i];
      && (h in p <==> h in owners) && (h in p ==> p[h] == owners[h])
      && owners - (fails * Elements(hs[..i + 1])) == if h in fails then p - {h} else p
  {
    ElementsSnoc(hs, i);
    NotBefore(hs, i);
  }

  /** The next handler's turn deletes it from the live set exactly when its push failed. */
  lemma RoundHandlersStep(hs: seq<Handler>, fails: set<Handler>, i: nat)
    requires NoDup(hs) && i < |hs|
    ensures Without(hs[..i + 1], fails) + hs[i + 1..]
         == if hs[i] in fails then Delete(Without(hs[..i], fails) + hs[i..], hs[i])
            else Without(hs[..i], fails) + hs[i..]
  {
    var h, w := hs[i], Without(hs[..i], fails);
    WithoutSnoc(hs, fails, i);
    assert hs[i..] == [h] + hs[i + 1..];
    if h in fails {
      NotBefore(hs, i);
      WithoutSpec(hs[..i], fails);
      assert h !in Elements(w);
      DeleteAfter(w, hs[i..], h);
      assert Delete(hs[i..], h) == hs[i + 1..];
      assert w + [] == w;
    } else {
      assert (w + [h]) + hs[i + 1..] == w + hs[i..];
    }
  }

  /** The controllers collected grow by the next handler's controller. */
  lemma DistinctOwnersStep(hs: seq<Handler>, owners: map<Handler, Controller>, i: nat)
    requires i < |hs|
    ensures DistinctOwners(hs[..i + 1], owners)
         == (if hs[i] in owners then Add(DistinctOwners(hs[..i], owners), owners[hs[i]])
             else DistinctOwners(hs[..i], owners))
  {
    assert hs[..i + 1][..i] == hs[..i];
  }

  /**
   * The final `Promise.all` of `sendAuthStatusUpdate`: calls
   * `postStateToWebview` on every collected controller, and rejects when any
   * of those calls rejects.
   */
  method PostToWebviews(controllers: seq<Controller>, postFails: set<Controller>)
    returns (posted: seq<Controller>, ok: bool)
    ensures posted == controllers
    ensures ok <==> forall c :: c in controllers ==> c !in postFails
  {
    posted, ok := [], true;
    var j := 0;
    while j < |controllers|
      invariant 0 <= j <= |controllers|
      invariant posted == controllers[..j]
      invariant ok <==> forall c :: c in posted ==> c !in postFails
    {
      var c := controllers[j];
      assert controllers[..j + 1] == posted + [c];
      if c in postFails {
        ok := false;
      }
      posted := posted + [c];
      j := j + 1;
    }
    assert controllers[..j] == controllers;
  }

  class AuthService {
    var authenticated: bool
    var clineAuthInfo: Option<ClineAuthInfo>
    var provider: ProviderKind
    var handlers: seq<Handler>                         // _activeAuthStatusUpdateHandlers
    var handlerToController: map<Handler, Controller>  // _handlerToController
    var controller: Controller
    /** `clineEnvConfig`, fixed for the life of the process. */
    const env: EnvConfig

    function Subscribers(): Registry
      reads this
    {
      Registry(handlers, handlerToController)
    }

    predicate Valid()
      reads this
    {
      Synced(Subscribers())
    }

    /** No operation of the service ever sets the flag or caches a record. */
    predicate SignedOut()
      reads this
    {
      !authenticated && clineAuthInfo.None?
    }

    /** The protected constructor: picks the provider from the WorkOS feature flag. */
    constructor (controller: Controller, workOsAuthEnabled: bool, env: EnvConfig)
      ensures Valid() && SignedOut()
      ensures provider == (if workOsAuthEnabled then ClineProvider else FirebaseProvider)
      ensures handlers == [] && handlerToController == map[]
      ensures this.controller == controller && this.env == env
    {
      authenticated := false;
      clineAuthInfo := None;
      provider := ProviderFor(if workOsAuthEnabled then "cline" else "firebase");
      handlers := [];
      handlerToController := map[];
      this.controller := controller;
      this.env := env;
    }

    /** `_setProvider` (also the `authProvider` setter). */
    method SetProvider(name: string)
      modifies this
      ensures provider == ProviderFor(name)
      ensures (authenticated, clineAuthInfo, handlers, handlerToController, controller)
           == old((authenticated, clineAuthInfo, handlers, handlerToController, controller))
    {
      provider := ProviderFor(name);
    }

    /** The `controller` setter. */
    method SetController(c: Controller)
      modifies this
      ensures controller == c
      ensures (authenticated, clineAuthInfo, provider, handlers, handlerToController)
           == old((authenticated, clineAuthInfo, provider, handlers, handlerToController))
    {
      controller := c;
    }

    /** `getInfo`: computes the snapshot, stamping the configured app base URL into the record. */
    method GetInfo() returns (s: AuthState)
      modifies this`clineAuthInfo
      ensures s == InfoOf(authenticated, old(clineAuthInfo), env)
      ensures clineAuthInfo == AfterGetInfo(authenticated, old(clineAuthInfo), env)
      ensures old(SignedOut()) ==> SignedOut() && s.user.None?
    {
      var user: Option<UserInfo> := None;
      if clineAuthInfo.Some? && authenticated {
        var info := clineAuthInfo.value;
        clineAuthInfo := Some(info.(userInfo := info.userInfo.(appBaseUrl := env.appBaseUrl)));
        // `getInfo`'s local `userInfo` aliases the record just written
        var userInfo := clineAuthInfo.value.userInfo;
        user := Some(UserInfo(userInfo.id, userInfo.displayName, userInfo.email, userInfo.appBaseUrl));
      }
      s := AuthState(user);
    }

    /** `handleDeauth`: forgets the record and clears the flag. */
    method HandleDeauth()
      modifies this
      ensures SignedOut() && InfoOf(authenticated, clineAuthInfo, env).user.None?
      ensures (provider, handlers, handlerToController, controller)
           == old((provider, handlers, handlerToController, controller))
    {
      clineAuthInfo := None;
      authenticated := false;
    }

    /** `handleAuthCallback`: authentication is disabled, so the callback changes nothing. */
    method HandleAuthCallback(authorizationCode: string, providerName: string)
      ensures unchanged(this)
    {
    }

    /** `restoreRefreshTokenAndRetrieveAuthInfo`: clears the flag and forgets the record. */
    method RestoreRefreshTokenAndRetrieveAuthInfo()
      modifies this
      ensures SignedOut() && InfoOf(authenticated, clineAuthInfo, env).user.None?
      ensures (provider, handlers, handlerToController, controller)
           == old((provider, handlers, handlerToController, controller))
    {
      authenticated := false;
      clineAuthInfo := None;
    }

    /** The cleanup closure registered by a subscription. */
    method Cleanup(stream: Handler)
      requires Valid()
      modifies this`handlers, this`handlerToController
      ensures Valid()
      ensures Subscribers() == Unregister(old(Subscribers()), stream)
    {
      DeleteSpec(handlers, stream);
      handlers := Delete(handlers, stream);
      handlerToController := handlerToController - {stream};
    }

    /** The `catch` of `subscribeToAuthStatusUpdate`: runs the cleanup only when the broadcast threw. */
    method CleanupUnless(ok: bool, stream: Handler)
      requires Valid()
      modifies this`handlers, this`handlerToController
      ensures Valid()
      ensures Subscribers() == if ok then old(Subscribers()) else Unregister(old(Subscribers()), stream)
    {
      if !ok {
        Cleanup(stream);
      }
    }

    /**
     * The delivery round of `sendAuthStatusUpdate`: for each handler of the
     * snapshot, records its controller, pushes `authInfo`, and on a throw
     * deletes the handler from the set and the map.
     */
    method DeliverToAll(authInfo: AuthState, deliveryFails: set<Handler>)
      returns (delivered: seq<Delivery<AuthState>>, uniqueControllers: seq<Controller>)
      requires NoDup(handlers)
      modifies this`handlers, this`handlerToController
      ensures delivered == DeliveriesOf(old(handlers), authInfo)
      ensures Subscribers() == DropFailed(old(Subscribers()), deliveryFails)
      ensures uniqueControllers == DistinctOwners(old(handlers), old(handlerToController))
    {
      var snapshot := handlers;
      ghost var owners := handlerToController;
      uniqueControllers := [];
      delivered := [];
      assert snapshot[0..] == snapshot;
      var i := 0;
      while i < |snapshot|
        invariant 0 <= i <= |snapshot|
        invariant RestOfRound(handlers, snapshot[i..], deliveryFails) == RestOfRound(snapshot, snapshot, deliveryFails)
        invariant handlerToController == owners - (deliveryFails * Elements(snapshot[..i]))
        invariant uniqueControllers == DistinctOwners(snapshot[..i], owners)
        invariant delivered == DeliveriesOf(snapshot[..i], authInfo)
      {
        var h := snapshot[i];
        RoundOwnersStep(snapshot, owners, deliveryFails, i);
        DistinctOwnersStep(snapshot, owners, i);
        assert snapshot[i..][0] == h && snapshot[i..][1..] == snapshot[i + 1..];
        if h in handlerToController {
          uniqueControllers := Add(uniqueControllers, handlerToController[h]);
        }
        assert snapshot[..i + 1][..i] == snapshot[..i];
        delivered := delivered + [Delivery(h, authInfo)];
        if h in deliveryFails {
          handlers := Delete(handlers, h);
          handlerToController := handlerToController - {h};
        }
        i := i + 1;
      }
      assert snapshot[..i] == snapshot && snapshot[i..] == [];
      assert Elements(snapshot[..i]) == Elements(snapshot);
      RoundIsDropFailed(Registry(snapshot, owners), deliveryFails);
    }

    /** The additions at the start of `subscribeToAuthStatusUpdate`. */
    method Join(owner: Controller, stream: Handler)
      requires Valid()
      modifies this`handlers, this`handlerToController
      ensures Valid()
      ensures Subscribers() == Register(old(Subscribers()), stream, owner)
    {
      handlers := Add(handlers, stream);
      handlerToController := handlerToController[stream := owner];
    }

    /**
     * `sendAuthStatusUpdate`, with the outcomes of the calls it makes as
     * inputs: the handlers whose push throws, whether the feature-flag poll
     * rejects, and the controllers whose `postStateToWebview` rejects. Returns
     * the pushes made, the account given to telemetry (feature flags are reset
     * exactly when one is), the controllers posted, and whether it returned
     * normally (`ok`) rather than throwing.
     */
    method SendAuthStatusUpdate(deliveryFails: set<Handler>, pollFails: bool, postFails: set<Controller>)
      returns (delivered: seq<Delivery<AuthState>>, identified: Option<ClineAccountUserInfo>,
               posted: seq<Controller>, ok: bool)
      requires Valid()
      modifies this`handlers, this`handlerToController, this`clineAuthInfo
      ensures Valid()
      ensures delivered == DeliveriesOf(old(handlers), InfoOf(authenticated, old(clineAuthInfo), env))
      ensures Subscribers() == DropFailed(old(Subscribers()), deliveryFails)
      ensures clineAuthInfo == AfterGetInfo(authenticated, old(clineAuthInfo), env)
      ensures identified == IdentifyTarget(clineAuthInfo)
      ensures posted == if pollFails then [] else DistinctOwners(old(handlers), old(handlerToController))
      ensures ok <==> !pollFails && forall c :: c in posted ==> c !in postFails
      ensures old(SignedOut()) ==> SignedOut() && identified.None?
    {
      var authInfo := GetInfo();
      var uniqueControllers;
      delivered, uniqueControllers := DeliverToAll(authInfo, deliveryFails);
      identified := IdentifyTarget(clineAuthInfo);
      if pollFails {
        posted, ok := [], false;
      } else {
        posted, ok := PostToWebviews(uniqueControllers, postFails);
      }
    }

    /**
     * `subscribeToAuthStatusUpdate`: adds the handler, registers the cleanup
     * when a non-empty request id is given, runs a full broadcast, and takes
     * the handler out again if that broadcast threw.
     */
    method SubscribeToAuthStatusUpdate(owner: Controller, stream: Handler, requestId: Option<string>,
                                       deliveryFails: set<Handler>, pollFails: bool, postFails: set<Controller>)
      returns (cleanupRegistered: bool, delivered: seq<Delivery<AuthState>>,
               identified: Option<ClineAccountUserInfo>, posted: seq<Controller>, ok: bool)
      requires Valid()
      modifies this`handlers, this`handlerToController, this`clineAuthInfo
      ensures Valid()
      ensures cleanupRegistered <==> requestId.Some? && requestId.value != ""
      ensures var joined := Register(old(Subscribers()), stream, owner);
        && delivered == DeliveriesOf(joined.handlers, InfoOf(authenticated, old(clineAuthInfo), env))
        && posted == (if pollFails then [] else DistinctOwners(joined.handlers, joined.owners))
        && (ok <==> !pollFails && forall c :: c in posted ==> c !in postFails)
        && Subscribers() == if ok then DropFailed(joined, deliveryFails)
                            else Unregister(DropFailed(joined, deliveryFails), stream)
      ensures clineAuthInfo == AfterGetInfo(authenticated, old(clineAuthInfo), env)
      ensures identified == IdentifyTarget(clineAuthInfo)
      ensures old(SignedOut()) ==> SignedOut()
    {
      Join(owner, stream);
      cleanupRegistered := requestId.Some? && requestId.value != "";
      delivered, identified, posted, ok := SendAuthStatusUpdate(deliveryFails, pollFails, postFails);
      CleanupUnless(ok, stream);
    }
  }

  /** The process-wide `AuthService.instance` slot. */
  class AuthServiceHost {
    var instance: AuthService?

    constructor ()
      ensures instance == null
    {
      instance := null;
    }

    /**
     * `getInstance`: constructs the service only when there is none (with
     * the `{}` stand-in if no controller is given); every call given a
     * controller rebinds it on the instance and changes nothing else.
     */
    method GetInstance(controller: Option<Controller>, workOsAuthEnabled: bool, env: EnvConfig)
      returns (s: AuthService)
      requires instance != null ==> instance.Valid()
      modifies this, instance
      ensures instance == s && s.Valid()
      ensures old(instance) == null ==>
        && fresh(s) && s.SignedOut() && s.handlers == [] && s.handlerToController == map[]
        && s.provider == (if workOsAuthEnabled then ClineProvider else FirebaseProvider) && s.env == env
      ensures old(instance) != null ==>
        && s == old(instance)
        && (s.authenticated, s.clineAuthInfo, s.provider, s.handlers, s.handlerToController)
           == old((s.authenticated, s.clineAuthInfo, s.provider, s.handlers, s.handlerToController))
      ensures s.controller == if controller.Some? then controller.value
                              else if old(instance) == null then EmptyContext
                              else old(instance.controller)
    {
      var c := controller;
      if instance == null {
        if c.None? {
          c := Some(EmptyContext);
        }
        instance := new AuthService(c.value, workOsAuthEnabled, env);
      }
      if c.Some? {
        instance.SetController(c.value);
      }
      s := instance;
    }
  }
}
