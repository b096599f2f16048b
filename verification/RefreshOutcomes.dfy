/** What each outcome of a request, and each beat and message, leaves behind, with the source's own
    numbers: the timeouts, the store, the lease and what the other tabs are told. */
module RefreshOutcomes {
  import opened Common
  import opened RefreshTypes
  import opened RefreshSpec
  import opened RefreshRuns
  import opened RefreshSafety

  /** The driver waits: no refresh under way, and one timeout, due at `due`. */
  predicate Waits(tab: Tab, due: real) {
    && tab.phase.Idle? && !tab.refreshing && !tab.stopped
    && tab.timer.Some? && tab.timeouts == map[tab.timer.value := due]
  }

  /** The step changes nothing outside its tab. */
  predicate OnlyTab(w: World, a: Action)
    requires Enabled(w, a.event) && !a.event.Advance? && !a.event.Open?
  {
    var next := Next(w, a);
    && next.lease == w.lease && next.inbox == w.inbox && next.now == w.now
    && a.event.t in next.tabs && next.tabs == w.tabs[a.event.t := next.tabs[a.event.t]]
  }

  lemma QuietStep(w: World, a: Action)
    requires Enabled(w, a.event) && !a.event.Advance? && !a.event.Open? && !a.event.Deliver?
    requires LocalStep(w, a).post == None && LocalStep(w, a).lease == w.lease
    ensures OnlyTab(w, a) && Next(w, a).tabs[a.event.t] == LocalStep(w, a).tab
  {
  }

  lemma BusyHoldsNothing(w: World, t: TabId)
    requires Inv(w) && t in w.tabs && !w.tabs[t].phase.Idle?
    ensures w.tabs[t].timer == None && w.tabs[t].timeouts == map[] && w.tabs[t].refreshing
  {
    assert TabOk(w.tabs[t]);
  }

  // ---- the POST ----

  /** Nothing came back, or a status that says nothing about the session. */
  predicate Failed(post: PostReply) {
    post.NetworkError? || (!(200 <= post.code < 300) && post.code !in {401, 403, 429})
  }

  lemma BooksHold(w: World, u: TabId)
    requires Inv(w) && u in w.tabs
    ensures u in w.inbox
  {
  }

  lemma WaitsWaits(tab: Tab)
    ensures forall due :: Waits(tab, due) ==> tab.phase.Idle? && !tab.refreshing && !tab.stopped
  {
  }

  lemma ArmsAlone(tab: Tab, now: real, delay: real)
    requires tab.timer == None && tab.timeouts == map[] && !tab.stopped && tab.phase.Idle?
    ensures Waits(RetryIn(tab, now, delay), now + delay)
    ensures RetryIn(tab, now, delay).auth == tab.auth
  {
  }

  /** A failed POST is tried again fifteen seconds later, and nobody hears of it. */
  lemma FailedPostRetries(w: World, a: Action)
    requires Inv(w) && Enabled(w, a.event) && a.event.PostSettled? && !w.tabs[a.event.t].stopped
    requires Failed(a.event.post)
    ensures var before, after := w.tabs[a.event.t], Next(w, a).tabs[a.event.t];
            OnlyTab(w, a) && Waits(after, w.now + 15000.0) && after.auth == before.auth
  {
    hide Next, Inv, OnlyTab, RetryIn, Expire, RetryAfterMs, Waits;
    BusyHoldsNothing(w, a.event.t);
    ArmsAlone(w.tabs[a.event.t].(phase := Idle), w.now, 15000.0);
    PostIsQuiet(w, a);
  }

  lemma PostIsQuiet(w: World, a: Action)
    requires Enabled(w, a.event) && a.event.PostSettled?
    requires a.event.post.Status? ==> a.event.post.code != 401
    ensures OnlyTab(w, a) && Next(w, a).tabs[a.event.t] == LocalStep(w, a).tab
  {
    hide Next, OnlyTab, RetryIn, Expire, RetryAfterMs;
    QuietStep(w, a);
  }

  /** A rate-limited one after as many seconds as the server asks for, or after ten. */
  lemma RateLimitedPostRetries(w: World, a: Action)
    requires Inv(w) && Enabled(w, a.event) && a.event.PostSettled? && !w.tabs[a.event.t].stopped
    requires a.event.post.Status? && a.event.post.code == 429
    ensures var before, after := w.tabs[a.event.t], Next(w, a).tabs[a.event.t];
            var header := a.event.post.retryAfter;
            && OnlyTab(w, a) && after.auth == before.auth
            && Waits(after, if header.Seconds? && header.s > 0.0 then w.now + header.s * 1000.0 else w.now + 10000.0)
  {
    hide Next, Inv, OnlyTab, RetryIn, Expire, Waits;
    BusyHoldsNothing(w, a.event.t);
    var header := a.event.post.retryAfter;
    var delay := if header.Seconds? && header.s > 0.0 then header.s * 1000.0 else 10000.0;
    ArmsAlone(w.tabs[a.event.t].(phase := Idle), w.now, delay);
    PostIsQuiet(w, a);
  }

  /** A 403 is probed and a success is read: the refresh goes on as it began. */
  lemma AnsweredPostGoesOn(w: World, a: Action)
    requires Inv(w) && Enabled(w, a.event) && a.event.PostSettled? && !w.tabs[a.event.t].stopped
    requires a.event.post.Status? && (a.event.post.code == 403 || 200 <= a.event.post.code < 300)
    ensures var before := w.tabs[a.event.t];
            var phase := if a.event.post.code == 403 then Probing(before.phase.since) else Reading(before.phase.since);
            OnlyTab(w, a) && Next(w, a).tabs[a.event.t] == before.(phase := phase)
  {
    hide Next, Inv, OnlyTab, RetryIn, Expire, RetryAfterMs;
    PostIsQuiet(w, a);
  }

  // ---- the session probe ----

  /** A body with a token is a session with the server's two timestamps, or 0 for what is no positive
      number; everything else is no session. */
  lemma LoadedMeans(reply: MeReply)
    ensures Loaded(reply).Authenticated? <==> reply.MeBody? && reply.csrfToken != ""
    ensures !Loaded(reply).Authenticated? ==> Loaded(reply) == Unauthenticated
    ensures reply.MeBody? && reply.csrfToken != "" ==>
              var session := Loaded(reply).session;
              && session.identity == reply.identity && session.csrfToken == reply.csrfToken
              && (forall n :: n > 0.0 ==> (reply.expiresAt == Number(n) <==> session.expiresAt == n))
              && (forall n :: n > 0.0 ==> (reply.refreshAt == Number(n) <==> session.refreshAt == n))
              && session.expiresAt >= 0.0 && session.refreshAt >= 0.0
  {
  }

  /** A 403 whose re-probe finds a session leaves that session in the store and tries again at its
      refresh time, but not within fifteen seconds; without a refresh time it waits for a beat. */
  lemma LiveProbeRetries(w: World, a: Action, refreshAt: real)
    requires Inv(w) && Enabled(w, a.event) && a.event.ProbeSettled? && !w.tabs[a.event.t].stopped
    requires a.event.me.MeBody? && a.event.me.csrfToken != "" && a.event.me.refreshAt == Number(refreshAt)
    ensures OnlyTab(w, a)
    ensures var after, due := Next(w, a).tabs[a.event.t], refreshAt * 1000.0;
            && after.auth.Authenticated? && after.auth.session.csrfToken == a.event.me.csrfToken
            && if refreshAt > 0.0
               then Waits(after, if due > w.now + 15000.0 then due else w.now + 15000.0)
                    && after.auth.session.refreshAt == refreshAt
               else after.phase.Idle? && !after.refreshing && !after.stopped && after.timeouts == map[]
  {
    hide Next, Inv, OnlyTab, RetryIn, Waits, Stop;
    BusyHoldsNothing(w, a.event.t);
    var tab := w.tabs[a.event.t].(phase := Idle, auth := Loaded(a.event.me));
    ArmsAlone(tab, w.now, MaxReal(15000.0, refreshAt * 1000.0 - w.now));
    WaitsWaits(RetryIn(tab, w.now, MaxReal(15000.0, refreshAt * 1000.0 - w.now)));
    QuietStep(w, a);
  }

  /** One whose re-probe finds none leaves: the driver stops, the store is cleared, the page goes to the
      login, and every running tab is told through localStorage if that can be written. */
  lemma DeadProbeLeaves(w: World, a: Action, u: TabId)
    requires Inv(w) && Enabled(w, a.event) && a.event.ProbeSettled? && !w.tabs[a.event.t].stopped
    requires !(a.event.me.MeBody? && a.event.me.csrfToken != "")
    ensures var before, after := w.tabs[a.event.t], Next(w, a).tabs[a.event.t];
            && after.stopped && after.phase.Idle? && after.auth == Unauthenticated && after.redirecting
            && after.navigations == before.navigations + if before.redirecting then 0 else 1
    ensures u in w.tabs && u != a.event.t && !w.tabs[u].stopped && a.canWrite ==>
              Encoded(Expired) in Next(w, a).inbox[u]
  {
    hide Next, Inv, ProbeSettles, Encoded, Spread, TabOk;
    var t, env := a.event.t, Env(w.now, a.canRead, a.canWrite);
    InvTab(w, t);
    DeadProbe(t, w.tabs[t], a.event.me, w.lease, env);
    LocalNext(w, a);
    if u in w.tabs && u != t && !w.tabs[u].stopped && a.canWrite {
      BooksHold(w, u);
      SpreadArrives(w, a, u);
    }
  }

  lemma DeadProbe(id: TabId, tab: Tab, reply: MeReply, lease: Option<Lease>, env: Env)
    requires TabOk(tab) && !tab.stopped && tab.phase.Probing? && !(reply.MeBody? && reply.csrfToken != "")
    ensures var l := ProbeSettles(id, tab, reply, lease, env);
            && l.tab.stopped && l.tab.phase.Idle? && l.tab.auth == Unauthenticated && l.tab.redirecting
            && l.tab.navigations == tab.navigations + (if tab.redirecting then 0 else 1)
            && l.post == if env.canWrite then Some(Post(Expired, false)) else None
  {
  }

  // ---- the body ----

  /** A body that cannot be used is a failed refresh. */
  lemma BadBodyRetries(w: World, a: Action)
    requires Inv(w) && Enabled(w, a.event) && a.event.BodySettled? && !w.tabs[a.event.t].stopped
    requires !(a.event.body.Body? && a.event.body.expiresAt.Number? && a.event.body.refreshAt.Number?)
    ensures var before, after := w.tabs[a.event.t], Next(w, a).tabs[a.event.t];
            OnlyTab(w, a) && Waits(after, w.now + 15000.0) && after.auth == before.auth
  {
    hide Next, Inv, OnlyTab, RetryIn, Waits;
    BusyHoldsNothing(w, a.event.t);
    ArmsAlone(w.tabs[a.event.t].(phase := Idle), w.now, 15000.0);
    QuietStep(w, a);
  }

  // ---- timeouts and beats ----

  /** The timeout of a running tab starts the refresh. */
  lemma TimeoutRefreshes(w: World, a: Action)
    requires Inv(w) && Enabled(w, a.event) && a.event.TimeoutFires?
    ensures var before, after := w.tabs[a.event.t], Next(w, a).tabs[a.event.t];
            && OnlyTab(w, a) && !before.stopped && before.phase.Idle?
            && after == before.(timer := None, timeouts := map[], refreshing := true, phase := Posting(w.now))
  {
    var tab := w.tabs[a.event.t];
    assert TabOk(tab) && TimersOk(tab);
    assert tab.timeouts - {a.event.k} == map[];
    QuietStep(w, a);
  }

  /** Nobody else's name is on a lease of the last fifteen seconds, as far as `t` can see. */
  predicate Free(w: World, t: TabId, canRead: bool) {
    !canRead || w.lease.None? || w.lease.value.id == t || w.now > w.lease.value.ts + 15000.0
  }

  /** A beat of a tab that runs and is not refreshing. On a free lease it takes or renews it and keeps
      its timeout, or sets one for the refresh time it knows, at once if that has passed; else it
      drops its timeout and leaves the lease. */
  lemma BeatDoes(w: World, a: Action)
    requires Inv(w) && Enabled(w, a.event) && (a.event.Heartbeat? || a.event.BecomesVisible?)
    requires !w.tabs[a.event.t].stopped && !w.tabs[a.event.t].refreshing
    ensures var t, next := a.event.t, Next(w, a);
            var before, after := w.tabs[t], next.tabs[t];
            && next.inbox == w.inbox && after.auth == before.auth && after.phase.Idle? && !after.refreshing
            && after.nextBeat == (if a.event.Heartbeat? then w.now + 5000.0 else before.nextBeat)
            && if Free(w, t, a.canRead)
               then
                 && next.lease == (if a.canWrite then Some(Lease(t, w.now)) else w.lease)
                 && if before.timeouts != map[] then after.timeouts == before.timeouts
                    else if before.auth.Authenticated? && before.auth.session.refreshAt > 0.0
                    then Waits(after, MaxReal(w.now, before.auth.session.refreshAt * 1000.0))
                    else after.timeouts == map[]
               else next.lease == w.lease && after.timeouts == map[]
  {
    hide Tick, Next, Inv, TabOk, Free, MayLead, Waits;
    var t, env := a.event.t, Env(w.now, a.canRead, a.canWrite);
    InvTab(w, t);
    TickDoes(t, w.tabs[t], w.lease, env);
    LaterBeatOk(w.tabs[t], w.now + 5000.0);
    TickDoes(t, w.tabs[t].(nextBeat := w.now + 5000.0), w.lease, env);
    LocalNext(w, a);
    FreeIsMayLead(w, t, env);
  }

  lemma LaterBeatOk(tab: Tab, beat: real)
    requires TabOk(tab)
    ensures TabOk(tab.(nextBeat := beat))
  {
  }

  lemma FreeIsMayLead(w: World, t: TabId, env: Env)
    requires env.now == w.now
    ensures Free(w, t, env.canRead) <==> MayLead(t, w.lease, env)
  {
  }

  lemma TickDoes(id: TabId, tab: Tab, lease: Option<Lease>, env: Env)
    requires TabOk(tab) && !tab.stopped && !tab.refreshing
    ensures var l := Tick(id, tab, lease, env);
            && l.post == None && l.tab.auth == tab.auth && l.tab.nextBeat == tab.nextBeat
            && l.tab.phase.Idle? && !l.tab.refreshing
            && if MayLead(id, lease, env)
               then
                 && l.lease == (if env.canWrite then Some(Lease(id, env.now)) else lease)
                 && if tab.timeouts != map[] then l.tab.timeouts == tab.timeouts
                    else if tab.auth.Authenticated? && tab.auth.session.refreshAt > 0.0
                    then Waits(l.tab, MaxReal(env.now, tab.auth.session.refreshAt * 1000.0))
                    else l.tab.timeouts == map[]
               else l.lease == lease && l.tab.timeouts == map[]
  {
    assert TimersOk(tab);
    hide MayLead;
    if tab.timer.Some? { assert tab.timer.value in tab.timeouts; }
  }

  /** A page that loads with a session has started its driver when it is done: it beats five seconds later,
      and if the lease is free it leads and has set its timeout. */
  lemma OpeningBeats(w: World, a: Action)
    requires Inv(w) && Enabled(w, a.event) && a.event.Open?
    ensures var t, next, me := a.event.t, Next(w, a), a.event.me;
            && me.MeBody? && me.csrfToken != "" && t in next.tabs
            && (forall u :: u in w.tabs ==> u in next.tabs && next.tabs[u] == w.tabs[u])
            && var tab := next.tabs[t];
            && !tab.stopped && tab.beating && tab.phase.Idle? && tab.nextBeat == w.now + 5000.0
            && tab.auth == Loaded(me) && tab.wired == a.event.wired
            && if Free(w, t, a.canRead)
               then
                 && next.lease == (if a.canWrite then Some(Lease(t, w.now)) else w.lease)
                 && if me.refreshAt.Number? && me.refreshAt.n > 0.0
                    then Waits(tab, MaxReal(w.now, me.refreshAt.n * 1000.0)) else tab.timeouts == map[]
               else next.lease == w.lease && tab.timeouts == map[]
  {
    hide Tick, Inv, Free, MayLead, Waits;
    var t, env := a.event.t, Env(w.now, a.canRead, a.canWrite);
    var booted := Booted(Loaded(a.event.me).session, a.event.wired, w.now);
    TickDoes(t, booted, w.lease, env);
    TickRuns(t, booted, w.lease, env);
    FreeIsMayLead(w, t, env);
  }

  lemma TickRuns(id: TabId, tab: Tab, lease: Option<Lease>, env: Env)
    ensures var l := Tick(id, tab, lease, env);
            && l.tab.stopped == tab.stopped && l.tab.beating == tab.beating && l.tab.wired == tab.wired
            && l.tab.nextBeat == tab.nextBeat
  {
  }

  // ---- stopping ----

  /** If the step stopped the driver, it gave the lease up. */
  predicate Releases(id: TabId, lease: Option<Lease>, env: Env, l: Local) {
    l.tab.stopped ==> l.lease == LeaseAfterRelease(id, lease, env)
  }

  lemma TickReleases(id: TabId, tab: Tab, lease: Option<Lease>, env: Env)
    requires !tab.stopped
    ensures !Tick(id, tab, lease, env).tab.stopped
    ensures Releases(id, lease, env, Tick(id, tab, lease, env))
  {
  }

  lemma StopReleases(id: TabId, tab: Tab, snapshot: Snapshot, lease: Option<Lease>, env: Env)
    requires !tab.stopped
    ensures Releases(id, lease, env, Stop(id, tab, lease, env))
    ensures Releases(id, lease, env, SetAuth(id, tab, snapshot, lease, env))
    ensures Releases(id, lease, env, Expire(id, tab, lease, env)) && Expire(id, tab, lease, env).tab.stopped
  {
  }

  lemma PostReleases(id: TabId, tab: Tab, reply: PostReply, lease: Option<Lease>, env: Env)
    requires !tab.stopped && tab.phase.Posting?
    ensures Releases(id, lease, env, PostSettles(id, tab, reply, lease, env))
  {
    hide Expire, RetryAfterMs;
    StopReleases(id, tab.(phase := Idle), Loading, lease, env);
  }

  lemma ProbeReleases(id: TabId, tab: Tab, reply: MeReply, lease: Option<Lease>, env: Env)
    requires TabOk(tab) && !tab.stopped && tab.phase.Probing?
    ensures Releases(id, lease, env, ProbeSettles(id, tab, reply, lease, env))
  {
  }

  lemma BodyReleases(id: TabId, tab: Tab, reply: BodyReply, lease: Option<Lease>, env: Env)
    requires !tab.stopped && tab.phase.Reading?
    ensures Releases(id, lease, env, BodySettles(id, tab, reply, lease, env))
  {
    hide Tick;
    if reply.Body? && reply.expiresAt.Number? && reply.refreshAt.Number? {
      var folded := Apply(tab.(phase := Idle), reply.expiresAt.n, reply.refreshAt.n);
      TickReleases(id, folded.(refreshing := false), lease, env);
    }
  }

  lemma MessageReleases(id: TabId, tab: Tab, raw: Raw, lease: Option<Lease>, env: Env)
    requires !tab.stopped
    ensures Releases(id, lease, env, OnMessage(id, tab, raw, lease, env))
  {
    hide Expire, Tick;
    StopReleases(id, tab, Loading, lease, env);
    if Understood(raw).Some? && Understood(raw).value.Refreshed? {
      var m := Understood(raw).value;
      TickReleases(id, ClearTimer(Apply(tab, m.expiresAt, m.refreshAt)), lease, env);
    }
  }

  lemma OuterProbeReleases(id: TabId, tab: Tab, reply: MeReply, lease: Option<Lease>, env: Env)
    requires !tab.stopped
    ensures var probed := SetAuth(id, tab, Loaded(reply), lease, env);
            Releases(id, lease, env, probed) && Releases(id, lease, env, probed.(tab := SignIn(probed.tab)))
  {
    hide SetAuth, Loaded;
    StopReleases(id, tab, Loaded(reply), lease, env);
  }

  /** Whatever stops a running driver, it takes its own lease with it if storage works, and never
      another's. */
  lemma StopGivesLeaseUp(w: World, a: Action)
    requires Inv(w) && Enabled(w, a.event) && !a.event.Advance? && !a.event.Open?
    requires !w.tabs[a.event.t].stopped && Next(w, a).tabs[a.event.t].stopped
    ensures var mine := w.lease.Some? && w.lease.value.id == a.event.t;
            Next(w, a).lease == if mine && a.canRead && a.canWrite then None else w.lease
  {
    hide Next, Tick, PostSettles, ProbeSettles, BodySettles, OnMessage, SetAuth, Stop, SignIn, Loaded, TabOk, Expire;
    var t, env := a.event.t, Env(w.now, a.canRead, a.canWrite);
    var tab := w.tabs[t];
    LocalNext(w, a);
    assert TabOk(tab);
    match a.event
    case Heartbeat(_) => TickReleases(t, tab.(nextBeat := w.now + HEARTBEAT_MS), w.lease, env);
    case BecomesVisible(_) => TickReleases(t, tab, w.lease, env);
    case PostSettled(_, reply) => PostReleases(t, tab, reply, w.lease, env);
    case ProbeSettled(_, reply) => ProbeReleases(t, tab, reply, w.lease, env);
    case BodySettled(_, reply) => BodyReleases(t, tab, reply, w.lease, env);
    case Deliver(_, i) => MessageReleases(t, tab, w.inbox[t][i], w.lease, env);
    case Stray(_, raw) => MessageReleases(t, tab, raw, w.lease, env);
    case SignsOut(_) => StopReleases(t, tab, Unauthenticated, w.lease, env);
    case OuterProbe(_, reply) => OuterProbeReleases(t, tab, reply, w.lease, env);
    case StopCalled(_) => StopReleases(t, tab, Loading, w.lease, env);
    case _ =>
  }

  /** So when the lease's holder has stopped with working storage, the next beat of another tab that can
      write takes the lease at once. */
  lemma NextBeatLeads(w: World, a: Action, b: Action)
    requires Inv(w) && Enabled(w, a.event) && !a.event.Advance? && !a.event.Open? && a.canRead && a.canWrite
    requires !w.tabs[a.event.t].stopped && Next(w, a).tabs[a.event.t].stopped
    requires w.lease.Some? && w.lease.value.id == a.event.t
    requires Enabled(Next(w, a), b.event) && (b.event.Heartbeat? || b.event.BecomesVisible?) && b.canWrite
    requires var tab := Next(w, a).tabs[b.event.t]; !tab.stopped && !tab.refreshing
    ensures Next(Next(w, a), b).lease == Some(Lease(b.event.t, w.now))
  {
    hide Next, Inv, Enabled;
    StopGivesLeaseUp(w, a);
    NextKeepsInv(w, a);
    LocalNext(w, a);
    BeatDoes(Next(w, a), b);
  }

  /** Clearing the store stops the driver, by whatever hand; and a probe that finds no session goes to the
      login as well. */
  lemma SigningOutStops(w: World, a: Action)
    requires Inv(w) && Enabled(w, a.event)
    requires a.event.SignsOut? || a.event.StopCalled?
             || (a.event.OuterProbe? && !(a.event.me.MeBody? && a.event.me.csrfToken != ""))
    ensures var after := Next(w, a).tabs[a.event.t];
            && after.stopped && (!a.event.StopCalled? ==> after.auth == Unauthenticated)
            && (a.event.OuterProbe? ==>
                  && after.redirecting
                  && after.navigations
                     == w.tabs[a.event.t].navigations + if w.tabs[a.event.t].redirecting then 0 else 1)
  {
    hide Next, Inv, Stop, SetAuth, SignIn;
    var t := a.event.t;
    LocalNext(w, a);
    InvTab(w, t);
    ClearingStops(t, w.tabs[t], w.lease, Env(w.now, a.canRead, a.canWrite));
  }

  lemma InvTab(w: World, t: TabId)
    requires Inv(w) && t in w.tabs
    ensures TabOk(w.tabs[t])
  {
  }

  lemma ClearingStops(id: TabId, tab: Tab, lease: Option<Lease>, env: Env)
    requires TabOk(tab)
    ensures Stop(id, tab, lease, env).tab.stopped
    ensures var cleared := SetAuth(id, tab, Unauthenticated, lease, env).tab;
            && cleared.stopped && cleared.auth == Unauthenticated
            && SignIn(cleared).stopped && SignIn(cleared).auth == Unauthenticated && SignIn(cleared).redirecting
            && SignIn(cleared).navigations == tab.navigations + if tab.redirecting then 0 else 1
  {
  }

  /** A page that is hidden gives up its own lease, if storage works, and changes nothing else. */
  lemma HidingGivesLeaseUp(w: World, a: Action)
    requires Enabled(w, a.event) && a.event.PageHide?
    ensures var mine := w.lease.Some? && w.lease.value.id == a.event.t;
            var next := Next(w, a);
            && next.lease == (if mine && a.canRead && a.canWrite then None else w.lease)
            && next.tabs == w.tabs && next.inbox == w.inbox
  {
    assert w.tabs[a.event.t := w.tabs[a.event.t]] == w.tabs;
  }

  /** Another caller's probe that finds a session puts it into the store and moves nothing else. */
  lemma OuterProbeLoads(w: World, a: Action)
    requires Inv(w) && Enabled(w, a.event) && a.event.OuterProbe? && a.event.me.MeBody? && a.event.me.csrfToken != ""
    ensures OnlyTab(w, a)
    ensures Next(w, a).tabs[a.event.t] == w.tabs[a.event.t].(auth := Loaded(a.event.me))
  {
    hide Inv, OnlyTab;
    QuietStep(w, a);
  }

  // ---- messages ----

  /** Two shapes are understood and no other: "refreshed" with two numbers, and "expired". */
  lemma UnderstoodMeans(raw: Raw, e: real, r: real)
    ensures Understood(raw) == Some(Refreshed(e, r)) <==> raw == Object("refreshed", Number(e), Number(r))
    ensures Understood(raw) == Some(Expired) <==> raw.Object? && raw.kind == "expired"
  {
  }

  /** A running tab that is refreshing takes a pair it hears into its store, and nothing else. */
  lemma RefresherAdopts(id: TabId, tab: Tab, e: real, r: real, lease: Option<Lease>, env: Env)
    requires TabOk(tab) && !tab.stopped && tab.refreshing && tab.auth.Authenticated?
    ensures OnMessage(id, tab, Object("refreshed", Number(e), Number(r)), lease, env)
            == Local(tab.(auth := Authenticated(tab.auth.session.(expiresAt := e, refreshAt := r))),
                     lease, None, NoBeat)
  {
    assert TimersOk(tab);
  }

  /** A message is delivered once: that one is gone, and the others wait in their order. */
  lemma DeliveredOnce(w: World, a: Action, u: TabId)
    requires Inv(w) && Enabled(w, a.event) && a.event.Deliver? && u in w.tabs
    ensures u in w.inbox && u in Next(w, a).inbox
    ensures Next(w, a).inbox[u]
            == if u == a.event.t then w.inbox[u][..a.event.i] + w.inbox[u][a.event.i + 1..] else w.inbox[u]
  {
    hide Tick, Expire, TabsOk, Window, Next;
    LocalNext(w, a);
    OnMessageFrom(a.event.t, w.tabs[a.event.t], w.inbox[a.event.t][a.event.i], w.lease,
                  Env(w.now, a.canRead, a.canWrite));
  }

  /** What a step sends goes to the running tabs that listen, once each, and to nobody else. */
  lemma SpreadExactly(w: World, a: Action, u: TabId)
    requires Inv(w) && Enabled(w, a.event) && !a.event.Advance? && !a.event.Open? && !a.event.Deliver?
    requires LocalStep(w, a).post.Some? && u in w.tabs
    ensures var post := LocalStep(w, a).post.value;
            var hears := u != a.event.t && !w.tabs[u].stopped && (post.viaChannel ==> w.tabs[u].wired);
            && u in w.inbox && u in Next(w, a).inbox
            && Next(w, a).inbox[u] == w.inbox[u] + if hears then [Encoded(post.message)] else []
  {
    hide LocalStep, Next, Inv, Encoded;
    LocalNext(w, a);
    BooksHold(w, u);
  }
}
