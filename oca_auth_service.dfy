/**
 * The OCA authentication service (src/services/auth/oca/OcaAuthService.ts):
 * an authenticated flag and a cached OCA state, the controller the service
 * was initialised with, and a set of subscription entries, each pairing a
 * controller with a streaming handler. Its broadcast pushes the state to each
 * entry and, after the first successful push for a controller, asks that
 * controller once to post its state to its webview; an entry whose push or
 * whose post throws is dropped.
 */
module OcaAuth {
  import opened AuthCommon
  import opened OrderedSets

  /** The user part of an OCA state. */
  datatype OcaUserInfo = OcaUserInfo(uid: string, displayName: string, email: string)

  /** An OCA state; its user may be absent. */
  datatype OcaAuthState = OcaAuthState(user: Option<OcaUserInfo>)

  /** The OCA provider the constructor creates (its configuration is not modelled). */
  datatype OcaAuthProvider = OcaAuthProvider

  /**
   * The snapshot `getInfo` computes: a user exactly when the flag is set and a
   * state is cached. Its fields are copied from the cached user; when that
   * user is absent, the fields take the message's defaults (empty strings).
   */
  function InfoOf(authenticated: bool, cached: Option<OcaAuthState>): (s: OcaAuthState)
    ensures s.user.Some? <==> authenticated && cached.Some?
    ensures s.user.Some? && cached.value.user.Some? ==> s.user.value == cached.value.user.value
    ensures s.user.Some? && cached.value.user.None? ==> s.user.value == OcaUserInfo("", "", "")
  {
    if cached.Some? && authenticated then
      var u := cached.value.user;
      OcaAuthState(Some(
        if u.Some? then OcaUserInfo(u.value.uid, u.value.displayName, u.value.email)
        else OcaUserInfo("", "", "")))
    else OcaAuthState(None)
  }

  /**
   * One subscription entry `{ controller, responseStream }`. Each subscribe
   * creates a new entry object, and the set compares entries by identity, so
   * subscribing the same handler twice yields two entries.
   */
  class Subscription {
    const controller: Controller
    const responseStream: Handler

    constructor (controller: Controller, responseStream: Handler)
      ensures this.controller == controller && this.responseStream == responseStream
    {
      this.controller := controller;
      this.responseStream := responseStream;
    }
  }

  /**
   * The entries whose push throws in a subscribe's broadcast: those of
   * `deliveryFails` among the entries already there, and the new entry
   * exactly when `newFails` says its push throws.
   */
  function Outcomes(deliveryFails: set<Subscription>, entry: Subscription, newFails: bool): (fails: set<Subscription>)
    ensures entry in fails <==> newFails
    ensures fails - {entry} == deliveryFails - {entry}
  {
    if newFails then deliveryFails + {entry} else deliveryFails - {entry}
  }

  /** The handlers of `es`, in order. */
  function StreamsOf(es: seq<Subscription>): seq<Handler> {
    if es == [] then [] else StreamsOf(es[..|es| - 1]) + [es[|es| - 1].responseStream]
  }

  /** What one broadcast over a snapshot does: the controllers posted, and the entries left. */
  datatype OcaCycle = OcaCycle(posted: seq<Controller>, kept: seq<Subscription>)

  /**
   * One broadcast over the snapshot `es`, entry by entry: an entry whose push
   * throws is dropped; otherwise, if its controller has been posted already,
   * the entry stays; otherwise the controller is posted, and the entry is
   * dropped exactly when that post throws.
   */
  function Cycle(es: seq<Subscription>, deliveryFails: set<Subscription>, postFails: set<Controller>): (r: OcaCycle)
    ensures |r.posted| <= |es| && |r.kept| <= |es|
  {
    if es == [] then OcaCycle([], [])
    else
      var n := |es| - 1;
      var prev := Cycle(es[..n], deliveryFails, postFails);
      var e := es[n];
      if e in deliveryFails then prev
      else if e.controller in prev.posted then OcaCycle(prev.posted, prev.kept + [e])
      else if e.controller in postFails then OcaCycle(prev.posted + [e.controller], prev.kept)
      else OcaCycle(prev.posted + [e.controller], prev.kept + [e])
  }

  /**
   * Entry `k` is the first entry of `es` whose push succeeds among those with
   * its controller: the one whose success triggers that controller's post.
   */
  predicate FirstToPost(es: seq<Subscription>, deliveryFails: set<Subscription>, k: nat)
    requires k < |es|
  {
    && es[k] !in deliveryFails
    && forall j :: 0 <= j < k ==> es[j] in deliveryFails || es[j].controller != es[k].controller
  }

  /**
   * Each controller is posted at most once, and a controller is posted
   * exactly when the push to one of its entries succeeds.
   */
  lemma {:induction false} CyclePosted(es: seq<Subscription>, deliveryFails: set<Subscription>, postFails: set<Controller>)
    ensures NoDup(Cycle(es, deliveryFails, postFails).posted)
    ensures forall c :: c in Cycle(es, deliveryFails, postFails).posted <==>
      exists k :: 0 <= k < |es| && es[k] !in deliveryFails && es[k].controller == c
  {
    if es != [] {
      var n := |es| - 1;
      CyclePosted(es[..n], deliveryFails, postFails);
      assert forall k :: 0 <= k < n ==> es[..n][k] == es[k];
      var prev := Cycle(es[..n], deliveryFails, postFails);
      var now := Cycle(es, deliveryFails, postFails);
      forall c ensures c in now.posted <==>
        exists k :: 0 <= k < |es| && es[k] !in deliveryFails && es[k].controller == c
      {
        if exists k :: 0 <= k < |es| && es[k] !in deliveryFails && es[k].controller == c {
          var k :| 0 <= k < |es| && es[k] !in deliveryFails && es[k].controller == c;
          if k < n {
            assert es[..n][k] == es[k];
          }
        }
      }
    }
  }

  /** The entries left are entries of the snapshot, and hold each entry once when the snapshot does. */
  lemma {:induction false} CycleKeptFromSnapshot(es: seq<Subscription>, deliveryFails: set<Subscription>, postFails: set<Controller>)
    ensures forall e :: e in Cycle(es, deliveryFails, postFails).kept ==> e in es
    ensures NoDup(es) ==> NoDup(Cycle(es, deliveryFails, postFails).kept)
  {
    if es != [] {
      var n := |es| - 1;
      CycleKeptFromSnapshot(es[..n], deliveryFails, postFails);
      var prev := Cycle(es[..n], deliveryFails, postFails);
      assert forall e :: e in es[..n] ==> e in es;
      if NoDup(es) {
        assert NoDup(es[..n]) by {
          forall i, j | 0 <= i < j < n ensures es[..n][i] != es[..n][j] {
            assert es[..n][i] == es[i] && es[..n][j] == es[j];
          }
        }
        assert es[n] !in prev.kept by {
          NotBefore(es, n);
        }
        assert NoDup(prev.kept + [es[n]]) by {
          var t := prev.kept + [es[n]];
          forall i, j | 0 <= i < j < |t| ensures t[i] != t[j] {
            if j == |t| - 1 {
              assert t[i] in prev.kept;
            } else {
              assert t[i] == prev.kept[i] && t[j] == prev.kept[j];
            }
          }
        }
      }
    }
  }

  /**
   * Which entries survive a broadcast: exactly those whose push succeeds and
   * that are not the entry whose success triggered a post that threw. So a
   * failed post drops only the first successful entry of that controller;
   * the controller's later entries stay.
   */
  lemma {:induction false} CycleKeeps(es: seq<Subscription>, deliveryFails: set<Subscription>, postFails: set<Controller>, k: nat)
    requires NoDup(es) && k < |es|
    ensures es[k] in Cycle(es, deliveryFails, postFails).kept <==>
      && es[k] !in deliveryFails
      && !(FirstToPost(es, deliveryFails, k) && es[k].controller in postFails)
  {
    var n := |es| - 1;
    var prev := Cycle(es[..n], deliveryFails, postFails);
    CycleKeptFromSnapshot(es[..n], deliveryFails, postFails);
    NotBefore(es, n);
    assert NoDup(es[..n]) by {
      forall i, j | 0 <= i < j < n ensures es[..n][i] != es[..n][j] {
        assert es[..n][i] == es[i] && es[..n][j] == es[j];
      }
    }
    if k < n {
      assert es[..n][k] == es[k];
      CycleKeeps(es[..n], deliveryFails, postFails, k);
      assert es[k] != es[n];
      assert FirstToPost(es, deliveryFails, k) == FirstToPost(es[..n], deliveryFails, k) by {
        assert forall j :: 0 <= j < k ==> es[..n][j] == es[j];
      }
    } else {
      assert es[n] !in prev.kept;
      CyclePosted(es[..n], deliveryFails, postFails);
      var c := es[n].controller;
      if es[n] !in deliveryFails {
        if c in prev.posted {
          var j :| 0 <= j < n && es[..n][j] !in deliveryFails && es[..n][j].controller == c;
          assert es[..n][j] == es[j];
          assert !FirstToPost(es, deliveryFails, n);
        } else {
          forall j | 0 <= j < n ensures es[j] in deliveryFails || es[j].controller != c {
            assert es[..n][j] == es[j];
          }
          assert FirstToPost(es, deliveryFails, n);
        }
      }
    }
  }

  /**
   * The two halves of a broadcast fit together: the controllers posted are
   * those of entries left, or of an entry left out only because its post threw.
   */
  lemma PostedAreOwnersOfSuccessfulPushes(es: seq<Subscription>, deliveryFails: set<Subscription>, postFails: set<Controller>, c: Controller)
    requires c !in postFails
    ensures c in Cycle(es, deliveryFails, postFails).posted <==>
      exists e :: e in Cycle(es, deliveryFails, postFails).kept && e.controller == c
  {
    CyclePosted(es, deliveryFails, postFails);
    CycleKeptFromSnapshot(es, deliveryFails, postFails);
    if c in Cycle(es, deliveryFails, postFails).posted {
      KeptWitness(es, deliveryFails, postFails, c);
    } else {
      forall e | e in Cycle(es, deliveryFails, postFails).kept ensures e.controller != c {
        var k :| 0 <= k < |es| && es[k] == e;
        KeptPushed(es, deliveryFails, postFails, e);
      }
    }
  }

  /** A posted controller whose post succeeded keeps at least one of its entries. */
  lemma {:induction false} KeptWitness(es: seq<Subscription>, deliveryFails: set<Subscription>, postFails: set<Controller>, c: Controller)
    requires c !in postFails && c in Cycle(es, deliveryFails, postFails).posted
    ensures exists e :: e in Cycle(es, deliveryFails, postFails).kept && e.controller == c
  {
    var n := |es| - 1;
    var prev := Cycle(es[..n], deliveryFails, postFails);
    var e := es[n];
    if e in deliveryFails || e.controller != c {
      if c in prev.posted {
        KeptWitness(es[..n], deliveryFails, postFails, c);
        var w :| w in prev.kept && w.controller == c;
        assert w in Cycle(es, deliveryFails, postFails).kept;
      }
    } else {
      assert e in Cycle(es, deliveryFails, postFails).kept;
    }
  }

  /** An entry left after a broadcast had its push succeed, so its controller is posted. */
  lemma {:induction false} KeptPushed(es: seq<Subscription>, deliveryFails: set<Subscription>, postFails: set<Controller>, e: Subscription)
    requires e in Cycle(es, deliveryFails, postFails).kept
    ensures e !in deliveryFails && e.controller in Cycle(es, deliveryFails, postFails).posted
  {
    var n := |es| - 1;
    var prev := Cycle(es[..n], deliveryFails, postFails);
    if e in prev.kept {
      KeptPushed(es[..n], deliveryFails, postFails, e);
    }
  }

  /** One more entry of the snapshot: how the broadcast proceeds, and that the entry is new to it. */
  lemma CycleStep(es: seq<Subscription>, deliveryFails: set<Subscription>, postFails: set<Controller>, i: nat)
    requires NoDup(es) && i < |es|
    ensures es[i] !in Cycle(es[..i], deliveryFails, postFails).kept
    ensures var prev, e := Cycle(es[..i], deliveryFails, postFails), es[i];
      Cycle(es[..i + 1], deliveryFails, postFails)
      == if e in deliveryFails then prev
         else if e.controller in prev.posted then OcaCycle(prev.posted, prev.kept + [e])
         else if e.controller in postFails then OcaCycle(prev.posted + [e.controller], prev.kept)
         else OcaCycle(prev.posted + [e.controller], prev.kept + [e])
  {
    assert es[..i + 1][..i] == es[..i];
    CycleKeptFromSnapshot(es[..i], deliveryFails, postFails);
    NotBefore(es, i);
  }

  /** Dropping the entry at the front of the unvisited part leaves the rest in place. */
  lemma DropCurrent(kept: seq<Subscription>, rest: seq<Subscription>, e: Subscription)
    requires e !in kept && rest != [] && rest[0] == e
    ensures Delete(kept + rest, e) == kept + rest[1..]
  {
    DeleteAfter(kept, rest, e);
  }

  /**
   * One entry's turn in `sendAuthStatusUpdate`, on the controllers posted so
   * far and the live entry set: the same decisions as `Cycle`, with the entry
   * deleted from the live set where `Cycle` leaves it out.
   */
  function Visit(c: OcaCycle, e: Subscription, deliveryFails: set<Subscription>, postFails: set<Controller>): OcaCycle {
    if e in deliveryFails then OcaCycle(c.posted, Delete(c.kept, e))
    else if e.controller in c.posted then c
    else if e.controller in postFails then OcaCycle(c.posted + [e.controller], Delete(c.kept, e))
    else OcaCycle(c.posted + [e.controller], c.kept)
  }

  /** The turns of the entries of `rest`, one after the other. */
  function RestOfCycle(c: OcaCycle, rest: seq<Subscription>, deliveryFails: set<Subscription>, postFails: set<Controller>): OcaCycle
    decreases |rest|
  {
    if rest == [] then c
    else RestOfCycle(Visit(c, rest[0], deliveryFails, postFails), rest[1..], deliveryFails, postFails)
  }

  /**
   * Taking the turns on the live set, deleting entries as they fail, ends
   * where `Cycle` says: once the first `i` turns are done, the live set is
   * what `Cycle` keeps of them followed by the entries still to come.
   */
  lemma {:induction false} RestOfCycleIsCycle(es: seq<Subscription>, deliveryFails: set<Subscription>, postFails: set<Controller>, i: nat)
    requires NoDup(es) && i <= |es|
    ensures var done := Cycle(es[..i], deliveryFails, postFails);
      RestOfCycle(OcaCycle(done.posted, done.kept + es[i..]), es[i..], deliveryFails, postFails)
      == Cycle(es, deliveryFails, postFails)
    decreases |es| - i
  {
    if i == |es| {
      assert es[..i] == es && es[i..] == [];
      assert Cycle(es, deliveryFails, postFails).kept + [] == Cycle(es, deliveryFails, postFails).kept;
    } else {
      assert es[i..][0] == es[i] && es[i..][1..] == es[i + 1..];
      VisitIsCycleStep(es, deliveryFails, postFails, i);
      RestOfCycleIsCycle(es, deliveryFails, postFails, i + 1);
    }
  }

  /** One turn on the live set advances `Cycle` by one entry. */
  lemma VisitIsCycleStep(es: seq<Subscription>, deliveryFails: set<Subscription>, postFails: set<Controller>, i: nat)
    requires NoDup(es) && i < |es|
    ensures var done, next := Cycle(es[..i], deliveryFails, postFails), Cycle(es[..i + 1], deliveryFails, postFails);
      Visit(OcaCycle(done.posted, done.kept + es[i..]), es[i], deliveryFails, postFails)
      == OcaCycle(next.posted, next.kept + es[i + 1..])
  {
    var done := Cycle(es[..i], deliveryFails, postFails);
    var e := es[i];
    CycleStep(es, deliveryFails, postFails, i);
    assert es[i..][0] == e && es[i..][1..] == es[i + 1..];
    DropCurrent(done.kept, es[i..], e);
    assert done.kept + es[i..] == (done.kept + [e]) + es[i + 1..];
  }

  /** A whole broadcast over the live set is `Cycle` of its snapshot. */
  lemma CycleOfSnapshot(es: seq<Subscription>, deliveryFails: set<Subscription>, postFails: set<Controller>)
    requires NoDup(es)
    ensures RestOfCycle(OcaCycle([], es), es, deliveryFails, postFails) == Cycle(es, deliveryFails, postFails)
  {
    assert es[..0] == [] && es[0..] == es;
    assert [] + es == es;
    RestOfCycleIsCycle(es, deliveryFails, postFails, 0);
  }

  /** The turns from position `i` on begin with the turn of entry `i`. */
  lemma TurnStep(c: OcaCycle, es: seq<Subscription>, i: nat, deliveryFails: set<Subscription>, postFails: set<Controller>)
    requires i < |es|
    ensures RestOfCycle(c, es[i..], deliveryFails, postFails)
         == RestOfCycle(Visit(c, es[i], deliveryFails, postFails), es[i + 1..], deliveryFails, postFails)
  {
    assert es[i..][0] == es[i] && es[i..][1..] == es[i + 1..];
  }

  /** The pushes to the first `i + 1` entries extend those to the first `i` by one. */
  lemma PushStep(es: seq<Subscription>, i: nat)
    requires i < |es|
    ensures StreamsOf(es[..i + 1]) == StreamsOf(es[..i]) + [es[i].responseStream]
  {
    assert es[..i + 1][..i] == es[..i];
  }

  /** The process-wide OCA authentication service. */
  class OcaAuthService {
    var authenticated: bool
    var ocaAuthState: Option<OcaAuthState>
    var provider: Option<OcaAuthProvider>
    var controller: Option<Controller>
    var refreshInFlight: bool
    var subscriptions: seq<Subscription>   // _activeAuthStatusUpdateSubscriptions

    /** Entries are held once each, and the flag is set exactly when a state is cached. */
    predicate Valid()
      reads this
    {
      NoDup(subscriptions) && (authenticated <==> ocaAuthState.Some?)
    }

    /** The protected constructor: creates the provider; nothing is cached or subscribed. */
    constructor ()
      ensures Valid()
      ensures !authenticated && ocaAuthState.None? && provider == Some(OcaAuthProvider)
      ensures controller.None? && !refreshInFlight && subscriptions == []
    {
      authenticated := false;
      ocaAuthState := None;
      provider := Some(OcaAuthProvider);
      controller := None;
      refreshInFlight := false;
      subscriptions := [];
    }

    /** `requireController`: the controller, or the error when none was set. */
    function RequireController(): (r: Result<Controller>)
      reads this
      ensures r.Ok? <==> controller.Some?
      ensures r.Ok? ==> r.value == controller.value
      ensures r.Err? ==> r.error == ControllerNotInitialized
    {
      if controller.Some? then Ok(controller.value) else Err(ControllerNotInitialized)
    }

    /** `requireProvider`: the provider, or the error when none is set. */
    function RequireProvider(): (r: Result<OcaAuthProvider>)
      reads this
      ensures r.Ok? <==> provider.Some?
      ensures r.Err? ==> r.error == ProviderNotSet
    {
      if provider.None? then Err(ProviderNotSet) else Ok(provider.value)
    }

    /** `getInfo`: under the invariant, the snapshot shows a user exactly when the flag is set. */
    function Info(): (s: OcaAuthState)
      reads this
      ensures s.user.Some? <==> authenticated && ocaAuthState.Some?
      ensures Valid() ==> (s.user.Some? <==> authenticated)
      ensures s.user.Some? && ocaAuthState.value.user.Some? ==> s.user.value == ocaAuthState.value.user.value
    {
      InfoOf(authenticated, ocaAuthState)
    }

    /** `isAuthenticated`: the flag, which under the invariant agrees with what the webview is shown. */
    function IsAuthenticated(): (b: bool)
      reads this
      ensures Valid() ==> (b <==> Info().user.Some?)
    {
      authenticated
    }

    /** `handleDeauth`: forgets the cached state and clears the flag. */
    method HandleDeauth()
      requires Valid()
      modifies this
      ensures Valid() && !authenticated && ocaAuthState.None? && Info().user.None?
      ensures (provider, controller, refreshInFlight, subscriptions)
           == old((provider, controller, refreshInFlight, subscriptions))
    {
      ocaAuthState := None;
      authenticated := false;
    }

    /** `restoreRefreshTokenAndRetrieveAuthInfo`: clears the flag and forgets the cached state. */
    method RestoreRefreshTokenAndRetrieveAuthInfo()
      requires Valid()
      modifies this
      ensures Valid() && !authenticated && ocaAuthState.None? && Info().user.None?
      ensures (provider, controller, refreshInFlight, subscriptions)
           == old((provider, controller, refreshInFlight, subscriptions))
    {
      authenticated := false;
      ocaAuthState := None;
    }

    /**
     * `refreshAuthState`: when a refresh is already in flight, only waits for
     * it (`joined`); otherwise runs the restore as the single refresh and
     * clears the in-flight marker afterwards.
     */
    method RefreshAuthState() returns (joined: bool)
      requires Valid()
      modifies this
      ensures Valid()
      ensures joined <==> old(refreshInFlight)
      ensures joined ==> (authenticated, ocaAuthState, refreshInFlight) == old((authenticated, ocaAuthState, refreshInFlight))
      ensures !joined ==> !authenticated && ocaAuthState.None? && !refreshInFlight
      ensures (provider, controller, subscriptions) == old((provider, controller, subscriptions))
    {
      if refreshInFlight {
        return true;
      }
      refreshInFlight := true;
      RestoreRefreshTokenAndRetrieveAuthInfo();
      refreshInFlight := false;
      joined := false;
    }

    /** `handleAuthCallback`: authentication is disabled, so the callback changes nothing. */
    method HandleAuthCallback(code: string, state: string)
      ensures unchanged(this)
    {
    }

    /**
     * `clearAuth`: checks the controller, then the provider, and asks the
     * provider to clear the stored credentials of that controller (the
     * provider's own work is not modelled); returns the controller passed on.
     */
    method ClearAuth() returns (r: Result<Controller>)
      ensures r.Err? <==> controller.None? || provider.None?
      ensures controller.None? ==> r == Err(ControllerNotInitialized)
      ensures controller.Some? && provider.None? ==> r == Err(ProviderNotSet)
      ensures r.Ok? ==> r.value == controller.value
    {
      var ctrl := RequireController();
      if ctrl.Err? {
        return Err(ctrl.error);
      }
      var p := RequireProvider();
      if p.Err? {
        return Err(p.error);
      }
      r := ctrl;
    }

    /** The cleanup closure of a subscription: removes that one entry. */
    method Cleanup(entry: Subscription)
      requires Valid()
      modifies this`subscriptions
      ensures Valid()
      ensures subscriptions == Delete(old(subscriptions), entry)
      ensures Elements(subscriptions) == Elements(old(subscriptions)) - {entry}
    {
      DeleteSpec(subscriptions, entry);
      subscriptions := Delete(subscriptions, entry);
    }

    /**
     * The callback `sendAuthStatusUpdate` runs for one entry: pushes the
     * current state, posts the entry's controller if no entry has posted it
     * yet, and deletes the entry when the push or the post throws.
     */
    method Turn(entry: Subscription, posted: seq<Controller>, deliveryFails: set<Subscription>, postFails: set<Controller>)
      returns (push: Delivery<OcaAuthState>, posted': seq<Controller>)
      modifies this`subscriptions
      ensures push == Delivery(entry.responseStream, InfoOf(authenticated, ocaAuthState))
      ensures OcaCycle(posted', subscriptions)
           == Visit(OcaCycle(posted, old(subscriptions)), entry, deliveryFails, postFails)
    {
      var authInfo := InfoOf(authenticated, ocaAuthState);
      push := Delivery(entry.responseStream, authInfo);
      posted' := posted;
      if entry in deliveryFails {
        subscriptions := Delete(subscriptions, entry);
      } else if entry.controller !in posted {
        posted' := posted + [entry.controller];
        if entry.controller in postFails {
          subscriptions := Delete(subscriptions, entry);
        }
      }
    }

    /**
     * `sendAuthStatusUpdate`, with the outcomes of the calls it makes as
     * inputs: the entries whose push throws (each entry's push is a call of
     * its own, so two entries of one handler can fare differently) and the
     * controllers whose `postStateToWebview` throws. Returns the pushes made and the
     * controllers posted; every error is caught per entry, so it never throws.
     */
    method SendAuthStatusUpdate(deliveryFails: set<Subscription>, postFails: set<Controller>)
      returns (delivered: seq<Delivery<OcaAuthState>>, posted: seq<Controller>)
      requires Valid()
      modifies this`subscriptions
      ensures Valid()
      ensures old(subscriptions) == [] ==> delivered == [] && posted == [] && subscriptions == []
      ensures delivered == DeliveriesOf(StreamsOf(old(subscriptions)), InfoOf(authenticated, ocaAuthState))
      ensures posted == Cycle(old(subscriptions), deliveryFails, postFails).posted
      ensures subscriptions == Cycle(old(subscriptions), deliveryFails, postFails).kept
    {
      if |subscriptions| == 0 {
        return [], [];
      }
      var snapshot := subscriptions;
      ghost var info := InfoOf(authenticated, ocaAuthState);
      delivered, posted := [], [];
      ghost var target := Cycle(snapshot, deliveryFails, postFails);
      CycleOfSnapshot(snapshot, deliveryFails, postFails);
      assert snapshot[..0] == [] && snapshot[0..] == snapshot;
      ghost var pushed: seq<Handler> := [];
      var i := 0;
      while i < |snapshot|
        invariant 0 <= i <= |snapshot|
        invariant RestOfCycle(OcaCycle(posted, subscriptions), snapshot[i..], deliveryFails, postFails) == target
        invariant pushed == StreamsOf(snapshot[..i])
        invariant delivered == DeliveriesOf(pushed, info)
      {
        var entry := snapshot[i];
        ghost var before := OcaCycle(posted, subscriptions);
        TurnStep(before, snapshot, i, deliveryFails, postFails);
        PushStep(snapshot, i);
        DeliveriesOfSnoc(pushed, entry.responseStream, info);
        pushed := pushed + [entry.responseStream];
        var push;
        push, posted := Turn(entry, posted, deliveryFails, postFails);
        delivered := delivered + [push];
        i := i + 1;
      }
      assert snapshot[..i] == snapshot && snapshot[i..] == [];
      CycleKeptFromSnapshot(snapshot, deliveryFails, postFails);
    }

    /**
     * `subscribeToAuthStatusUpdate`, with `existing` standing for what the
     * provider's `getExistingAuthState` returns, and `deliveryFails` and
     * `newFails` for the push outcomes of the entries already there and of
     * the new one. Requires the controller;
     * when no state is cached, requires the provider and caches the state it
     * returns, setting the flag exactly when there is one (the only way the
     * flag is ever set). Then adds a new entry, registers the cleanup when a
     * non-empty request id is given, and runs a full broadcast, which never
     * throws, so the error path that would remove the entry is never taken.
     */
    method SubscribeToAuthStatusUpdate(stream: Handler, requestId: Option<string>, existing: Option<OcaAuthState>,
                                       deliveryFails: set<Subscription>, newFails: bool, postFails: set<Controller>)
      returns (r: Result<Subscription>, cleanupRegistered: bool,
               delivered: seq<Delivery<OcaAuthState>>, posted: seq<Controller>)
      requires Valid()
      modifies this
      ensures Valid()
      ensures (provider, controller, refreshInFlight) == old((provider, controller, refreshInFlight))
      ensures old(controller).None? ==> r == Err(ControllerNotInitialized)
      ensures old(controller).Some? && old(ocaAuthState).None? && old(provider).None? ==> r == Err(ProviderNotSet)
      ensures r.Err? ==>
        && (authenticated, ocaAuthState, subscriptions) == old((authenticated, ocaAuthState, subscriptions))
        && !cleanupRegistered && delivered == [] && posted == []
      ensures r.Ok? <==> old(controller).Some? && (old(ocaAuthState).Some? || old(provider).Some?)
      ensures r.Ok? ==>
        && fresh(r.value) && r.value.controller == old(controller).value && r.value.responseStream == stream
        && ocaAuthState == (if old(ocaAuthState).Some? then old(ocaAuthState) else existing)
        && (cleanupRegistered <==> requestId.Some? && requestId.value != "")
        && var joined := old(subscriptions) + [r.value];
           var fails := Outcomes(deliveryFails, r.value, newFails);
           && delivered == DeliveriesOf(StreamsOf(joined), Info())
           && posted == Cycle(joined, fails, postFails).posted
           && subscriptions == Cycle(joined, fails, postFails).kept
      ensures authenticated ==> old(authenticated) || (old(ocaAuthState).None? && existing.Some?)
    {
      cleanupRegistered, delivered, posted := false, [], [];
      var ctrl := RequireController();
      if ctrl.Err? {
        return Err(ctrl.error), cleanupRegistered, delivered, posted;
      }
      if ocaAuthState.None? {
        var p := RequireProvider();
        if p.Err? {
          return Err(p.error), cleanupRegistered, delivered, posted;
        }
        ocaAuthState := existing;
        authenticated := ocaAuthState.Some?;
      }
      var entry;
      entry, cleanupRegistered, delivered, posted := Join(ctrl.value, stream, requestId, deliveryFails, newFails, postFails);
      r := Ok(entry);
    }

    /**
     * The part of `subscribeToAuthStatusUpdate` after the checks: a new entry
     * joins the set, the cleanup is registered when a non-empty request id is
     * given, and the initial broadcast goes to every entry, not only the new one.
     */
    method Join(ctrl: Controller, stream: Handler, requestId: Option<string>,
                deliveryFails: set<Subscription>, newFails: bool, postFails: set<Controller>)
      returns (entry: Subscription, cleanupRegistered: bool,
               delivered: seq<Delivery<OcaAuthState>>, posted: seq<Controller>)
      requires Valid()
      modifies this`subscriptions
      ensures Valid()
      ensures fresh(entry) && entry.controller == ctrl && entry.responseStream == stream
      ensures cleanupRegistered <==> requestId.Some? && requestId.value != ""
      ensures var joined, fails := old(subscriptions) + [entry], Outcomes(deliveryFails, entry, newFails);
        && delivered == DeliveriesOf(StreamsOf(joined), Info())
        && posted == Cycle(joined, fails, postFails).posted
        && subscriptions == Cycle(joined, fails, postFails).kept
    {
      entry := new Subscription(ctrl, stream);
      subscriptions := Add(subscriptions, entry);
      cleanupRegistered := requestId.Some? && requestId.value != "";
      delivered, posted := SendAuthStatusUpdate(Outcomes(deliveryFails, entry, newFails), postFails);
    }
  }

  /** The process-wide `OcaAuthService.instance` slot. */
  class OcaAuthServiceHost {
    var instance: OcaAuthService?

    constructor ()
      ensures instance == null
    {
      instance := null;
    }

    /**
     * `initialize`: constructs the service when there is none, and sets the
     * controller on the instance on every call.
     */
    method Initialize(controller: Controller) returns (s: OcaAuthService)
      requires instance != null ==> instance.Valid()
      modifies this, instance
      ensures instance == s && s.Valid() && s.controller == Some(controller)
      ensures old(instance) == null ==>
        && fresh(s) && s.subscriptions == [] && !s.authenticated && s.ocaAuthState.None?
        && s.provider == Some(OcaAuthProvider) && !s.refreshInFlight
      ensures old(instance) != null ==>
        && s == old(instance)
        && (s.authenticated, s.ocaAuthState, s.provider, s.refreshInFlight, s.subscriptions)
           == old((s.authenticated, s.ocaAuthState, s.provider, s.refreshInFlight, s.subscriptions))
    {
      if instance == null {
        instance := new OcaAuthService();
      }
      instance.controller := Some(controller);
      s := instance;
    }

    /** `getInstance`: the instance, or the error when it is missing or has no controller yet. */
    method GetInstance() returns (r: Result<OcaAuthService>)
      ensures r.Ok? <==> instance != null && instance.controller.Some?
      ensures r.Ok? ==> r.value == instance
      ensures r.Err? ==> r.error == ServiceNotInitialized
    {
      if instance == null || instance.controller.None? {
        return Err(ServiceNotInitialized);
      }
      r := Ok(instance);
    }
  }
}
