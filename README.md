# Authentication-status registry and broadcast, in Dafny

This project models the two authentication services of the extension host:

- `AuthService` (src/services/auth/AuthService.ts), the Cline account service;
- `OcaAuthService` (src/services/auth/oca/OcaAuthService.ts), the OCA service.

Each service has:

- an authenticated flag and a cached record;
- a process-wide singleton slot;
- a registry of long-lived subscribers (streaming response handlers, each owned by a controller);
- a broadcast that pushes the current authentication state to every subscriber, drops the subscribers whose push throws, and asks each controller to post its state to its webview.

Login is disabled in this fork. The callbacks do nothing, and deauth and restore only clear the state.

Modules:

- `OrderedSets`: a JavaScript `Set` as an insertion-ordered sequence without duplicates, with `Set.add`, `Set.delete` and filtering.
- `AuthCommon`:
  - the controller and handler identities;
  - the errors the services throw;
  - `Option` and `Result`;
  - the record of one push (`Delivery`), and the pushes of a broadcast round (`DeliveriesOf`).
- `ClineAuth`:
  - `AuthService` as a class whose fields the methods update in place;
  - the `getInstance` slot as the class `AuthServiceHost`;
  - specification functions on a `Registry` value: the handler set and the handler-to-controller map.
- `OcaAuth`:
  - `OcaAuthService` as a class;
  - subscription entries as objects (`Subscription`), which gives them identity as in the source;
  - the `initialize`/`getInstance` slot as `OcaAuthServiceHost`;
  - the broadcast specified by the function `Cycle` over the snapshot of entries.

How the model represents the source:

- Each broadcast is a sequential loop over the snapshot that `Array.from` takes. The `Promise.all` callbacks are taken one after another, in snapshot order.
- The outcomes of calls into code outside the model are inputs of the operation:
  - `deliveryFails`: the handlers (Cline) or the subscription entries (OCA) whose push throws. Each OCA entry's push is a call of its own, so two entries of one handler can fare differently;
  - `newFails`: whether the push to the entry that an OCA subscribe creates throws;
  - `postFails`: the controllers whose `postStateToWebview` rejects;
  - `pollFails`: whether the feature-flag poll rejects;
  - `existing`: what the OCA provider's `getExistingAuthState` returns.
- Each operation returns what it did:
  - the pushes it made (`delivered`);
  - the controllers it posted (`posted`);
  - the account telemetry identifies (`identified`);
  - whether subscribe registered its cleanup with the request registry (`cleanupRegistered`);
  - whether it returned normally or threw (`ok`, `Result`).

## Behaviour of the code worth knowing

- The first send in both `subscribeToAuthStatusUpdate`s is a full broadcast to every subscriber, the new one included.
- Switching the Cline provider (`_setProvider`) only replaces the provider. The session is kept and nothing is broadcast.
- `handleAuthCallback` (login completion) does nothing in either service.
- `handleDeauth` clears the state without broadcasting.
- The Cline broadcast identifies the account in telemetry on every broadcast in which the cached record has a non-empty id.
- The OCA broadcast drops an entry when its push throws. When a post to a controller throws, it also drops the one entry whose successful push triggered that post; the controller's other entries stay.
- The OCA broadcast posts a controller only after a successful push to one of that controller's entries. The Cline broadcast collects the controllers before any push.
- `getInfo` sets only the `user` field of the state it returns. A present user means signed in.

## Model

| member | source | states |
|---|---|---|
| AuthCommon.DeliveriesOfSpec | src/services/auth/AuthService.ts:249-258 | a broadcast round pushes to each handler of the snapshot exactly once, at its own position, and every push carries the same state |
| OrderedSets.AddSpec | src/services/auth/AuthService.ts:217 | `Set.add` adds exactly the new value and keeps the values distinct |
| OrderedSets.DeleteSpec | src/services/auth/AuthService.ts:221 | `Set.delete` never adds a value; on a set it removes exactly the given value and keeps the rest distinct |
| ClineAuth.ProviderFor | src/services/auth/AuthService.ts:129-141 | the name "cline" selects the Cline provider, and every other name, "firebase" and the default included, selects the Firebase one |
| ClineAuth.InfoOf | src/services/auth/AuthService.ts:143-163 | the snapshot has a user if and only if the flag is set and a record is cached; the user's uid, name and e-mail come from the record and its app base URL from the configuration |
| ClineAuth.AfterGetInfo | src/services/auth/AuthService.ts:146-148 | `getInfo` writes the configured app base URL into the user of the cached record only when signed in with a record cached, and changes no other field of the record |
| ClineAuth.IdentifyTarget | src/services/auth/AuthService.ts:270-274 | telemetry identifies an account exactly when the cached record has a non-empty id, and it identifies that record's user |
| ClineAuth.Register | src/services/auth/AuthService.ts:216-218 | subscribe's additions: the handler joins the set and maps to its controller; other handlers and their controllers are kept; the set and the map stay in sync |
| ClineAuth.Unregister | src/services/auth/AuthService.ts:220-223 | the cleanup removes its handler from both the set and the map, keeps every other handler with its controller, and keeps the set and the map in sync |
| ClineAuth.UnregisterUndoesRegister | src/services/auth/AuthService.ts:216-223 | cleaning up a newly subscribed handler restores the registry exactly, insertion order included |
| ClineAuth.UnregisterIdempotent | src/services/auth/AuthService.ts:220-236 | the cleanup can run twice (once from the request registry, once from the catch) and the second run changes nothing |
| ClineAuth.DropFailed | src/services/auth/AuthService.ts:249-265 | after a round, the handlers left are exactly those of the snapshot whose push went through; the map loses exactly the failed handlers, and the set and the map stay in sync |
| ClineAuth.DistinctOwners | src/services/auth/AuthService.ts:246-252 | the `uniqueControllers` collection of a broadcast has at most one controller per handler of the snapshot |
| ClineAuth.DistinctOwnersSpec | src/services/auth/AuthService.ts:246-253 | the collected controllers are distinct, and they are exactly the controllers the map gives to some handler of the snapshot |
| ClineAuth.PostedControllersOfSnapshot | src/services/auth/AuthService.ts:246-279 | a controller is posted if and only if it owns a handler present at the start of the broadcast, including a handler whose own push then threw |
| ClineAuth.FailedSubscribeRemovesHandler | src/services/auth/AuthService.ts:216-237 | after a subscribe whose broadcast threw, the new handler is in neither the set nor the map, the other handlers are those whose push succeeded, and the set and the map stay in sync |
| ClineAuth.RestOfRoundDropsFailed | src/services/auth/AuthService.ts:249-265 | deleting the failed handlers one at a time from the live set, as each push completes, leaves the handlers whose push succeeded, in their order |
| ClineAuth.RoundIsDropFailed | src/services/auth/AuthService.ts:249-265 | the in-place deletions of one round give exactly `DropFailed` of the snapshot |
| ClineAuth.PostToWebviews | src/services/auth/AuthService.ts:279 | every collected controller is posted once, in order, and the broadcast rejects exactly when one of those posts rejects |
| ClineAuth.AuthService.constructor | src/services/auth/AuthService.ts:73-78 | the WorkOS feature flag selects the provider; the service starts signed out with no subscribers and the given controller |
| ClineAuth.AuthService.SetProvider | src/services/auth/AuthService.ts:129-141 | the provider becomes `ProviderFor(name)` and nothing else changes |
| ClineAuth.AuthService.SetController | src/services/auth/AuthService.ts:106-108 | the controller is replaced and nothing else changes |
| ClineAuth.AuthService.GetInfo | src/services/auth/AuthService.ts:143-163 | returns `InfoOf` of the state and writes the configured app base URL into the cached record; a signed-out service stays signed out and has no user |
| ClineAuth.AuthService.HandleDeauth | src/services/auth/AuthService.ts:170-174 | the flag is cleared and the record forgotten, so the snapshot has no user; the registry is untouched |
| ClineAuth.AuthService.HandleAuthCallback | src/services/auth/AuthService.ts:176-179 | the login callback changes nothing |
| ClineAuth.AuthService.RestoreRefreshTokenAndRetrieveAuthInfo | src/services/auth/AuthService.ts:195-199 | the flag is cleared and the record forgotten, so the snapshot has no user; the registry is untouched |
| ClineAuth.AuthService.Cleanup | src/services/auth/AuthService.ts:220-223 | the registry becomes `Unregister` of the old one, and the set and the map stay in sync |
| ClineAuth.AuthService.CleanupUnless | src/services/auth/AuthService.ts:230-237 | the subscription is removed exactly when the initial broadcast threw |
| ClineAuth.AuthService.DeliverToAll | src/services/auth/AuthService.ts:245-267 | pushes the one snapshot to every handler present at the start, in order; the new registry is `DropFailed` of the old one; the collected controllers are `DistinctOwners` of the snapshot |
| ClineAuth.AuthService.Join | src/services/auth/AuthService.ts:216-218 | the registry becomes `Register` of the old one, and the set and the map stay in sync |
| ClineAuth.AuthService.SendAuthStatusUpdate | src/services/auth/AuthService.ts:243-280 | one snapshot to every handler present at the start; failed handlers dropped and the rest kept; telemetry target from the record; when the poll succeeds, the distinct controllers of the start posted; throws exactly when the poll or a post rejects; set and map stay in sync |
| ClineAuth.AuthService.SubscribeToAuthStatusUpdate | src/services/auth/AuthService.ts:208-238 | adds the handler; registers the cleanup exactly for a non-empty request id; runs a full broadcast over the registry with the new handler; removes the new handler from the set and the map exactly when that broadcast threw |
| ClineAuth.AuthServiceHost.GetInstance | src/services/auth/AuthService.ts:85-104 | constructs the service only when there is none (with the empty stand-in controller when none is given); later calls rebind the given controller and keep the state and the registry |
| OcaAuth.Subscription.constructor | src/services/auth/oca/OcaAuthService.ts:152 | an entry holds the controller and the handler it was made from; each entry is a new object, so two entries with the same pair are still distinct |
| OcaAuth.Outcomes | src/services/auth/oca/OcaAuthService.ts:160-161 | the push outcomes of a subscribe's broadcast: the new entry fails exactly when `newFails` says so, and every other entry fares as `deliveryFails` says |
| OcaAuth.Cycle | src/services/auth/oca/OcaAuthService.ts:172-187 | the reference definition of one broadcast over a snapshot: it posts at most one controller per entry and keeps at most the entries of the snapshot |
| OcaAuth.InfoOf | src/services/auth/oca/OcaAuthService.ts:71-82 | the snapshot has a user if and only if the flag is set and a state is cached; the user's uid, name and e-mail are copied from the cached user |
| OcaAuth.CyclePosted | src/services/auth/oca/OcaAuthService.ts:172-187 | each controller is posted at most once per broadcast, and a controller is posted if and only if the push to one of its entries succeeded |
| OcaAuth.CycleKeptFromSnapshot | src/services/auth/oca/OcaAuthService.ts:172-187 | the entries left are entries of the snapshot, each held once |
| OcaAuth.CycleKeeps | src/services/auth/oca/OcaAuthService.ts:172-187 | an entry stays if and only if its push succeeded and it is not the entry whose success triggered a post that threw |
| OcaAuth.PostedAreOwnersOfSuccessfulPushes | src/services/auth/oca/OcaAuthService.ts:172-187 | a controller whose post succeeds is posted if and only if one of its entries remains |
| OcaAuth.KeptWitness | src/services/auth/oca/OcaAuthService.ts:176-180 | a posted controller whose post succeeded keeps at least one of its entries |
| OcaAuth.KeptPushed | src/services/auth/oca/OcaAuthService.ts:176-184 | an entry left after a broadcast had a successful push, and its controller was posted |
| OcaAuth.RestOfCycleIsCycle | src/services/auth/oca/OcaAuthService.ts:172-187 | taking the turns on the live set, deleting entries as they fail, ends where `Cycle` of the snapshot says, at every intermediate point |
| OcaAuth.CycleOfSnapshot | src/services/auth/oca/OcaAuthService.ts:172-187 | a whole broadcast over the live set is `Cycle` of its snapshot |
| OcaAuth.OcaAuthService.constructor | src/services/auth/oca/OcaAuthService.ts:26-29 | the provider is created; nothing is cached, no controller is bound, no refresh is in flight and there are no entries |
| OcaAuth.OcaAuthService.RequireController | src/services/auth/oca/OcaAuthService.ts:31-36 | returns the controller unchanged when one is bound, and otherwise the "controller not initialized" error |
| OcaAuth.OcaAuthService.RequireProvider | src/services/auth/oca/OcaAuthService.ts:38-43 | returns the provider when one is set, and otherwise the "provider not set" error |
| OcaAuth.OcaAuthService.Info | src/services/auth/oca/OcaAuthService.ts:71-82 | the snapshot shows a user exactly when the flag is set and a state is cached, and under the service invariant exactly when the flag is set; a cached user is copied into it |
| OcaAuth.OcaAuthService.IsAuthenticated | src/services/auth/oca/OcaAuthService.ts:84-86 | under the service invariant, the flag holds exactly when the snapshot shows a user |
| OcaAuth.OcaAuthService.HandleDeauth | src/services/auth/oca/OcaAuthService.ts:114-118 | the cached state is forgotten and the flag cleared, so the snapshot has no user; nothing else changes |
| OcaAuth.OcaAuthService.RestoreRefreshTokenAndRetrieveAuthInfo | src/services/auth/oca/OcaAuthService.ts:130-134 | the flag is cleared and the cached state forgotten; nothing else changes |
| OcaAuth.OcaAuthService.RefreshAuthState | src/services/auth/oca/OcaAuthService.ts:88-102 | a call made while a refresh is in flight only joins it and changes nothing; otherwise the restore runs, leaving the service unauthenticated, and the in-flight slot is cleared again |
| OcaAuth.OcaAuthService.HandleAuthCallback | src/services/auth/oca/OcaAuthService.ts:125-128 | the login callback changes nothing |
| OcaAuth.OcaAuthService.ClearAuth | src/services/auth/oca/OcaAuthService.ts:120-123 | fails with the controller error when no controller is bound, and otherwise with the provider error when no provider is set; else it hands the bound controller to the provider |
| OcaAuth.OcaAuthService.Cleanup | src/services/auth/oca/OcaAuthService.ts:154-156 | the cleanup removes exactly its own entry and keeps every other entry |
| OcaAuth.OcaAuthService.Turn | src/services/auth/oca/OcaAuthService.ts:173-184 | one entry's callback: pushes the current state to the entry's handler and takes that entry's step of the broadcast on the live set |
| OcaAuth.OcaAuthService.SendAuthStatusUpdate | src/services/auth/oca/OcaAuthService.ts:168-188 | with no entries, returns without pushing or posting; otherwise pushes the current state to every entry present at the start, in order; the controllers posted and the entries left are those `Cycle` gives for the snapshot; it never throws |
| OcaAuth.OcaAuthService.SubscribeToAuthStatusUpdate | src/services/auth/oca/OcaAuthService.ts:141-166 | fails with no change when no controller is bound, or when nothing is cached and no provider is set; loads the provider's state only when none is cached and then sets the flag exactly when there is one; adds one fresh entry; registers the cleanup exactly for a non-empty request id; runs a full broadcast over all entries, in which the new entry's push throws exactly when `newFails` says so and every other entry fares as `deliveryFails` says |
| OcaAuth.OcaAuthService.Join | src/services/auth/oca/OcaAuthService.ts:152-161 | a fresh entry for the controller and handler joins the set and a full broadcast runs over the set with it |
| OcaAuth.OcaAuthServiceHost.Initialize | src/services/auth/oca/OcaAuthService.ts:49-55 | constructs the service only when there is none, signed out with no cached state, no entries, the OCA provider and no refresh in flight; binds the controller on every call without touching the rest of the state |
| OcaAuth.OcaAuthServiceHost.GetInstance | src/services/auth/oca/OcaAuthService.ts:61-66 | returns the instance exactly when one exists with a bound controller, and otherwise the "not initialized" error |

## Left out

- `getAuthToken` returns the constant null in both services (AuthService.ts:124-127, OcaAuthService.ts:104-107). `createAuthRequest` and `kickstartInteractiveLoginAsFallback` return constants or only log. None of them is modelled.
- `clearAuthToken` (AuthService.ts:185-187) writes a secret through the state manager, which is not part of this model.
- Logging, `openExternal` and the E2E mock switch in `getInstance` (AuthService.ts:91-95) are not modelled.
- Telemetry and feature flags are foreign singletons:
  - `identifyAccount` is kept only as the account it would receive (`identified`);
  - `reset` always goes with `identifyAccount`, so it has no separate output;
  - `poll` is kept only as its failure input (`pollFails`).
- Request registry: `registerRequest` is represented only by whether the cleanup is registered (`cleanupRegistered`). Its later call of the cleanup corresponds to calling `Cleanup` directly.
- The provider classes (`ClineAuthProvider`, `FirebaseAuthProvider`, `OcaAuthProvider`) are not part of this model:
  - a provider is a tag;
  - `getExistingAuthState` is an input and its rejection is not modelled;
  - the work `OcaAuthProvider.clearAuth` does is not modelled.
- Interleaving: the `Promise.all` callbacks are modelled as running one after another, in snapshot order.
  - In the Cline broadcast every deletion touches only its own handler, so the resulting registry does not depend on that order.
  - In the OCA broadcast, which entry of a controller is the first to post does depend on the order in which the pushes settle.
- OcaAuth.OcaAuthService.RefreshAuthState: the single-flight slot is a boolean marker, so only a call made while the marker is set joins the refresh. Concurrent awaiting is not modelled, and a sequential model never observes the marker set.
- `refreshAuthState` has no caller in OcaAuthService.ts. It is modelled only as the method itself.
- OcaAuth.InfoOf: when the cached state has no user, the snapshot's user takes the message defaults (empty uid, name and e-mail). This is an assumption about the generated `OcaUserInfo.create`, which is not part of this model.
- `photoUrl` (always unset), `_config`, `_interactiveLoginPending` and any field of the cached OCA state other than its user's uid, display name and e-mail are not modelled.
- The `ctrl &&` and `if (controller)` truthiness checks are not modelled as such. A bound OCA controller is an object, so `ctrl &&` always holds. For Cline, the check is modelled as "the handler has an entry in the map".
- OcaAuth.OcaAuthService.SubscribeToAuthStatusUpdate: the catch that would delete the new entry after a failed initial broadcast is never taken, because `sendAuthStatusUpdate` catches every error per entry, so it is not modelled.
