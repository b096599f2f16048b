/** The driver as the source writes it: objects whose methods update their fields. Every method
    is proved to do to `View()` and to the lease exactly what `RefreshSpec` says. `refresh()` is
    split at its awaits: `Refresh` runs up to the POST, and one method resumes after each await. */
module RefreshDriver {
  import opened Common
  import opened RefreshTypes
  import Spec = RefreshSpec

  /** The page's event loop and its one-way door to the login screen. */
  class Page {
    var timeouts: map<nat, real>
    var nextId: nat
    var nextBeat: real
    var redirecting: bool
    var navigations: nat

    constructor ()
      ensures timeouts == map[] && nextId == 0 && !redirecting && navigations == 0
    {
      timeouts, nextId, redirecting, navigations := map[], 0, false, 0;
    }

    method SetTimeout(due: real) returns (id: nat)
      modifies this`timeouts, this`nextId
      ensures id == old(nextId) && nextId == id + 1
      ensures timeouts == old(timeouts)[id := due]
    {
      id := nextId;
      timeouts := timeouts[id := due];
      nextId := nextId + 1;
    }

    method ClearTimeout(id: nat)
      modifies this`timeouts
      ensures timeouts == old(timeouts) - {id}
    {
      timeouts := timeouts - {id};
    }

    /** auth/use-auth.ts: the guard lets one navigation through per page life. */
    method SignIn()
      modifies this`redirecting, this`navigations
      ensures redirecting
      ensures navigations == if old(redirecting) then old(navigations) else old(navigations) + 1
    {
      if redirecting { return; }
      redirecting := true;
      navigations := navigations + 1;
    }
  }

  /** The lease key of localStorage, which every tab of the origin shares. */
  class LeaseStorage {
    var lease: Option<Lease>

    constructor ()
      ensures lease == None
    {
      lease := None;
    }
  }

  /** auth/auth-store.ts, with the driver as its one subscriber that acts. */
  class AuthStore {
    var snapshot: Snapshot
    var listener: Driver?

    constructor ()
      ensures snapshot == Loading && listener == null
    {
      snapshot, listener := Loading, null;
    }

    /** A driver listens only for `Unauthenticated`, so this write disturbs nobody. */
    method SetAuthenticated(session: Session)
      modifies this`snapshot
      ensures snapshot == Authenticated(session)
    {
      snapshot := Authenticated(session);
    }

    method SetUnauthenticated(env: Env)
      requires listener != null ==> listener.store == this && listener.Valid()
      modifies this, if listener == null then {} else {listener, listener.page, listener.storage}
      ensures snapshot == Unauthenticated
      ensures old(listener) == null ==> listener == null
      ensures old(listener) != null ==>
                var d := old(listener);
                var after := Spec.SetAuth(d.tabId, old(listener.View()), Unauthenticated,
                    old(listener.storage.lease), env);
                d.Valid() && d.View() == after.tab && d.storage.lease == after.lease
    {
      if snapshot == Unauthenticated { return; }
      snapshot := Unauthenticated;
      if listener != null { listener.OnStoreChange(env); }
    }
  }

  class Driver {
    const tabId: TabId
    const page: Page
    const store: AuthStore
    const storage: LeaseStorage

    var channelOpen: bool
    var heartbeat: bool
    var timer: Option<nat>
    var refreshing: bool
    var stopped: bool
    var phase: Phase

    /** A running driver is subscribed to its store and a stopped one is not. */
    ghost predicate Valid()
      reads this, store
    {
      && store.listener == (if stopped then null else this)
      && (stopped ==> !channelOpen && !heartbeat)
    }

    function View(): Tab
      reads this, page, store
    {
      Tab(store.snapshot, channelOpen, heartbeat, page.nextBeat, timer, page.timeouts, page.nextId,
          refreshing, phase, stopped, page.redirecting, page.navigations)
    }

    /** Builds the driver of a page and starts it: subscribe, set the heartbeat, tick once. */
    constructor Start(tabId: TabId, page: Page, store: AuthStore, storage: LeaseStorage, wired: bool, env: Env)
      requires store.listener == null && store.snapshot.Authenticated?
      requires page.timeouts == map[] && page.nextId == 0 && !page.redirecting && page.navigations == 0
      modifies page, store, storage
      ensures Valid() && this.tabId == tabId && this.page == page && this.store == store && this.storage == storage
      ensures var after := Spec.Tick(tabId, Spec.Booted(old(store.snapshot).session, wired, env.now),
              old(storage.lease), env);
              View() == after.tab && storage.lease == after.lease
    {
      this.tabId, this.page, this.store, this.storage := tabId, page, store, storage;
      channelOpen, heartbeat := wired, true;
      timer, refreshing, stopped, phase := None, false, false, Idle;
      new;
      store.listener := this;
      page.nextBeat := env.now + HEARTBEAT_MS;
      Tick(env);
    }

    method TryLead(env: Env) returns (led: bool)
      modifies storage
      ensures led == Spec.MayLead(tabId, old(storage.lease), env)
      ensures storage.lease == Spec.LeaseAfterLead(tabId, old(storage.lease), env)
    {
      var lease := if env.canRead then storage.lease else None;
      if lease.Some? && lease.value.id != tabId && env.now - lease.value.ts <= LEASE_TTL_MS { return false; }
      if env.canWrite { storage.lease := Some(Lease(tabId, env.now)); }
      return true;
    }

    method ReleaseLease(env: Env)
      modifies storage
      ensures storage.lease == Spec.LeaseAfterRelease(tabId, old(storage.lease), env)
    {
      var lease := if env.canRead then storage.lease else None;
      if lease.Some? && lease.value.id == tabId && env.canWrite { storage.lease := None; }
    }

    method ClearTimer()
      modifies this`timer, page`timeouts
      ensures View() == Spec.ClearTimer(old(View()))
    {
      if timer.Some? {
        page.ClearTimeout(timer.value);
        timer := None;
      }
    }

    method Tick(env: Env)
      requires Valid()
      modifies this`timer, page`timeouts, page`nextId, storage
      ensures Valid()
      ensures var after := Spec.Tick(tabId, old(View()), old(storage.lease), env);
              View() == after.tab && storage.lease == after.lease
    {
      if stopped || refreshing { return; }
      var led := TryLead(env);
      if !led {
        ClearTimer();
        return;
      }
      if !store.snapshot.Authenticated? || store.snapshot.session.refreshAt <= 0.0 { return; }
      if timer != None { return; }
      var untilDue := store.snapshot.session.refreshAt * 1000.0 - env.now;
      var delay := if untilDue < 0.0 then 0.0 else untilDue;
      var id := page.SetTimeout(env.now + delay);
      timer := Some(id);
    }

    method Heartbeat(env: Env)
      requires Valid()
      modifies this`timer, page`timeouts, page`nextId, page`nextBeat, storage
      ensures Valid()
      ensures var after := Spec.Tick(tabId, old(View()).(nextBeat := env.now + HEARTBEAT_MS), old(storage.lease), env);
              View() == after.tab && storage.lease == after.lease
    {
      page.nextBeat := env.now + HEARTBEAT_MS;
      Tick(env);
    }

    method Stop(env: Env)
      requires Valid()
      modifies this, page`timeouts, store`listener, storage
      ensures Valid()
      ensures var after := Spec.Stop(tabId, old(View()), old(storage.lease), env);
              View() == after.tab && storage.lease == after.lease
    {
      if stopped { return; }
      stopped := true;
      heartbeat := false;
      ClearTimer();
      ReleaseLease(env);
      channelOpen := false;
      store.listener := null;
    }

    /** The store subscription. */
    method OnStoreChange(env: Env)
      requires Valid()
      modifies this, page`timeouts, store`listener, storage
      ensures Valid()
      ensures var halted := Spec.Stop(tabId, old(View()), old(storage.lease), env);
              if old(store.snapshot).Unauthenticated?
              then View() == halted.tab && storage.lease == halted.lease
              else View() == old(View()) && storage.lease == old(storage.lease)
    {
      if store.snapshot.Unauthenticated? { Stop(env); }
    }

    method RetryIn(delay: real, env: Env)
      requires Valid()
      modifies this`timer, this`refreshing, page`timeouts, page`nextId
      ensures Valid() && View() == Spec.RetryIn(old(View()), env.now, delay)
    {
      refreshing := false;
      if stopped { return; }
      ClearTimer();
      var id := page.SetTimeout(env.now + delay);
      timer := Some(id);
    }

    method Apply(expiresAt: real, refreshAt: real)
      modifies store`snapshot
      ensures View() == Spec.Apply(old(View()), expiresAt, refreshAt)
    {
      if store.snapshot.Authenticated? {
        store.SetAuthenticated(store.snapshot.session.(expiresAt := expiresAt, refreshAt := refreshAt));
      }
    }

    method Expire(env: Env)
      requires Valid()
      modifies this, page, store, storage
      ensures Valid()
      ensures var after := Spec.Expire(tabId, old(View()), old(storage.lease), env);
              View() == after.tab && storage.lease == after.lease
    {
      Stop(env);
      store.SetUnauthenticated(env);
      page.SignIn();
    }

    method Broadcast(message: Message, env: Env) returns (post: Option<Post>)
      ensures post == Spec.Broadcast(View(), message, env)
    {
      if channelOpen { return Some(Post(message, true)); }
      if env.canWrite { return Some(Post(message, false)); }
      return None;
    }

    /** A timeout of this page goes off. */
    method TimeoutFires(id: nat, env: Env)
      requires Valid()
      modifies this`timer, this`refreshing, this`phase, page`timeouts
      ensures Valid() && View() == Spec.Fire(old(View()), id, env.now)
    {
      page.ClearTimeout(id);
      timer := None;
      Refresh(env);
    }

    /** `refresh()` up to its first await. */
    method Refresh(env: Env)
      requires Valid()
      modifies this`refreshing, this`phase
      ensures Valid() && View() == Spec.BeginRefresh(old(View()), env.now)
    {
      if stopped || refreshing { return; }
      refreshing := true;
      phase := Posting(env.now);
    }

    /** `refresh()` resumed after the POST. */
    method PostSettles(reply: PostReply, env: Env) returns (post: Option<Post>)
      requires Valid() && phase.Posting?
      modifies this, page, store, storage
      ensures Valid()
      ensures var after := Spec.PostSettles(tabId, old(View()), reply, old(storage.lease), env);
              View() == after.tab && storage.lease == after.lease && post == after.post
    {
      hide Spec.RetryIn, Spec.Expire, Spec.Broadcast;
      post := None;
      var since := phase.since;
      phase := Idle;
      if reply.NetworkError? {
        RetryIn(RETRY_MS, env);
        return;
      }
      if stopped { return; }
      if reply.code == 401 {
        post := Broadcast(Expired, env);
        Expire(env);
        return;
      }
      if reply.code == 429 {
        var delay := if reply.retryAfter.Seconds? && reply.retryAfter.s > 0.0
                     then reply.retryAfter.s * 1000.0 else RATE_LIMIT_RETRY_MS;
        RetryIn(delay, env);
        return;
      }
      if reply.code == 403 {
        phase := Probing(since);
        return;
      }
      if reply.code < 200 || 300 <= reply.code {
        RetryIn(RETRY_MS, env);
        return;
      }
      phase := Reading(since);
    }

    /** `refresh()` resumed after the 403 re-probe: `loadSession` writes the store, then the
        driver looks at its verdict. */
    method ProbeSettles(reply: MeReply, env: Env) returns (post: Option<Post>)
      requires Valid() && phase.Probing?
      modifies this, page, store, storage
      ensures Valid()
      ensures var after := Spec.ProbeSettles(tabId, old(View()), reply, old(storage.lease), env);
              View() == after.tab && storage.lease == after.lease && post == after.post
    {
      hide Spec.RetryIn, Spec.Expire, Spec.Broadcast, Spec.SetAuth;
      phase := Idle;
      post := None;
      var authenticated := LoadSession(reply, env);
      if !authenticated {
        post := Broadcast(Expired, env);
        Expire(env);
        return;
      }
      var refreshAt := store.snapshot.session.refreshAt;
      if refreshAt <= 0.0 {
        refreshing := false;
        return;
      }
      var untilDue := refreshAt * 1000.0 - env.now;
      RetryIn(if RETRY_MS < untilDue then untilDue else RETRY_MS, env);
    }

    /** auth/session.ts, from its reply on: any answer short of a session with a token fails closed. */
    method LoadSession(reply: MeReply, env: Env) returns (authenticated: bool)
      requires Valid()
      modifies this, page, store, storage
      ensures Valid()
      ensures authenticated <==> reply.MeBody? && reply.csrfToken != ""
      ensures store.snapshot == Spec.Loaded(reply)
      ensures if authenticated then store.snapshot.Authenticated? && store.snapshot.session.refreshAt >= 0.0
              else store.snapshot.Unauthenticated?
      ensures var after := Spec.SetAuth(tabId, old(View()), Spec.Loaded(reply), old(storage.lease), env);
              View() == after.tab && storage.lease == after.lease
    {
      if !reply.MeBody? || reply.csrfToken == "" {
        store.SetUnauthenticated(env);
        return false;
      }
      var expiresAt := if reply.expiresAt.Number? && reply.expiresAt.n > 0.0 then reply.expiresAt.n else 0.0;
      var refreshAt := if reply.refreshAt.Number? && reply.refreshAt.n > 0.0 then reply.refreshAt.n else 0.0;
      store.SetAuthenticated(Session(reply.identity, reply.csrfToken, expiresAt, refreshAt));
      return true;
    }

    /** `refresh()` resumed after `res.json()`. */
    method BodySettles(reply: BodyReply, env: Env) returns (post: Option<Post>)
      requires Valid() && phase.Reading?
      modifies this, page, store, storage
      ensures Valid()
      ensures var after := Spec.BodySettles(tabId, old(View()), reply, old(storage.lease), env);
              View() == after.tab && storage.lease == after.lease && post == after.post
    {
      hide Spec.RetryIn, Spec.Tick, Spec.Broadcast;
      phase := Idle;
      post := None;
      if reply.BodyError? || reply.expiresAt.NotNumber? || reply.refreshAt.NotNumber? {
        RetryIn(RETRY_MS, env);
        return;
      }
      Apply(reply.expiresAt.n, reply.refreshAt.n);
      post := Broadcast(Refreshed(reply.expiresAt.n, reply.refreshAt.n), env);
      refreshing := false;
      Tick(env);
    }

    method OnMessage(raw: Raw, env: Env)
      requires Valid()
      modifies this, page, store, storage
      ensures Valid()
      ensures var after := Spec.OnMessage(tabId, old(View()), raw, old(storage.lease), env);
              View() == after.tab && storage.lease == after.lease
    {
      if stopped || raw.NotObject? { return; }
      if raw.kind == "refreshed" && raw.expiresAt.Number? && raw.refreshAt.Number? {
        Apply(raw.expiresAt.n, raw.refreshAt.n);
        ClearTimer();
        Tick(env);
        return;
      }
      if raw.kind == "expired" { Expire(env); }
    }
  }
}
