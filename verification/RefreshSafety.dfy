/** What holds over whole runs of the origin: who may refresh, what a logout needs, where every
    timestamp comes from, and that a stopped driver stays stopped. */
module RefreshSafety {
  import opened Common
  import opened RefreshTypes
  import opened RefreshSpec
  import opened RefreshRuns

  // ---- timers and the two-refresher window ----

  /** In every reachable state a tab holds at most one live timeout, and none while its refresh
      is in flight or once its driver has stopped. */
  lemma OneTimeoutPerTab(ws: seq<World>, acts: seq<Action>, i: nat, t: TabId)
    requires IsRunFromStart(ws, acts) && i < |ws| && t in ws[i].tabs
    ensures var tab := ws[i].tabs[t];
            && |tab.timeouts| <= 1
            && (!tab.phase.Idle? || tab.stopped ==> tab.timeouts == map[])
  {
    RunKeepsInv(ws, acts, i);
    var tab := ws[i].tabs[t];
    assert TabOk(tab);
    assert |tab.timeouts| == |tab.timeouts.Keys|;
  }

  /** In every reachable state, a tab other than the last taker of the lease has a refresh
      scheduled or in flight only if it has had no effective beat since that take, or if its own
      lease writes are failing. */
  lemma TwoRefresherWindow(ws: seq<World>, acts: seq<Action>, i: nat, t: TabId)
    requires IsRunFromStart(ws, acts) && i < |ws| && t in ws[i].tabs
    requires Pending(ws[i].tabs[t])
    ensures t in ws[i].marks
    ensures ws[i].taker == Some(t) || ws[i].marks[t].at < ws[i].takenAt || ws[i].marks[t].unwritten
  {
    RunKeepsInv(ws, acts, i);
  }

  /** The lease, while there is one, names the last taker. */
  lemma LeaseNamesTaker(ws: seq<World>, acts: seq<Action>, i: nat)
    requires IsRunFromStart(ws, acts) && i < |ws| && ws[i].lease.Some?
    ensures ws[i].taker == Some(ws[i].lease.value.id)
  {
    RunKeepsInv(ws, acts, i);
  }

  predicate IsBeatOf(e: Event, t: TabId) {
    (e.Heartbeat? || e.BecomesVisible?) && e.t == t
  }

  /** A step of `t` could write the lease; what others could do is no matter. */
  predicate Writable(a: Action, t: TabId) {
    a.event.Advance? || a.event.t != t || a.canWrite
  }

  ghost predicate Marked(w: World, next: World, t: TabId, canWrite: bool) {
    && t in next.tabs && t in next.marks
    && ((t in w.marks && next.marks[t] == w.marks[t])
        || (next.marks[t].at == w.steps + 1 && (next.marks[t].unwritten ==> !canWrite)))
    && (next.taker == w.taker ==> next.takenAt == w.takenAt)
  }

  lemma CommitMarks(w: World, e: Event, u: TabId, env: Env, l: Local, t: TabId)
    requires t in w.tabs && t in w.marks && (u in w.tabs ==> Sound(u, w.tabs[u], w.lease, env, l))
    requires u !in w.tabs ==> u != t
    ensures Marked(w, Commit(w, e, u, l), t, u != t || env.canWrite)
    ensures u == t && !l.beat.NoBeat? ==> Commit(w, e, u, l).marks[t].at == w.steps + 1
  {
  }

  lemma NextMarks(w: World, a: Action, t: TabId)
    requires Inv(w) && Enabled(w, a.event) && t in w.tabs
    ensures Marked(w, Next(w, a), t, Writable(a, t))
  {
    var env := Env(w.now, a.canRead, a.canWrite);
    match a.event
    case Advance(_) =>
    case Open(u, me, wired) =>
      CommitMarks(w.(inbox := w.inbox[u := []]), a.event, u, env,
                  Tick(u, Booted(Loaded(me).session, wired, w.now), w.lease, env), t);
    case _ =>
      LocalStepSound(w, a);
      CommitMarks(w, a.event, a.event.t, env, LocalStep(w, a), t);
  }

  lemma BeatMarks(w: World, a: Action, t: TabId)
    requires Inv(w) && Enabled(w, a.event) && t in w.tabs
    requires IsBeatOf(a.event, t) && !w.tabs[t].stopped && !w.tabs[t].refreshing
    ensures t in Next(w, a).marks && Next(w, a).marks[t].at == w.steps + 1
  {
    LocalStepSound(w, a);
    assert !LocalStep(w, a).beat.NoBeat?;
    CommitMarks(w, a.event, t, Env(w.now, a.canRead, a.canWrite), LocalStep(w, a), t);
  }

  /** `t` has beaten since `leader` took the lease, and could have written it. */
  ghost predicate Yielded(w: World, t: TabId, leader: TabId) {
    && t in w.tabs && t in w.marks && w.taker == Some(leader)
    && w.marks[t].at > w.takenAt && !w.marks[t].unwritten
  }

  lemma YieldedIsThere(w: World, t: TabId, leader: TabId)
    requires Yielded(w, t, leader)
    ensures t in w.tabs
  {
  }

  lemma YieldedStays(w: World, a: Action, t: TabId, leader: TabId)
    requires Inv(w) && Enabled(w, a.event) && Writable(a, t) && t in w.tabs
    requires w.taker == Some(leader) && Next(w, a).taker == Some(leader)
    requires Yielded(w, t, leader)
             || (IsBeatOf(a.event, t) && !w.tabs[t].stopped && !w.tabs[t].refreshing)
    ensures Yielded(Next(w, a), t, leader)
  {
    NextMarks(w, a, t);
    if !Yielded(w, t, leader) { BeatMarks(w, a, t); }
  }

  lemma YieldedIsQuiet(w: World, t: TabId, leader: TabId)
    requires Inv(w) && Yielded(w, t, leader) && t != leader
    ensures !Pending(w.tabs[t])
  {
  }

  /** The window closes: once another tab `t` beats idle after `leader` has taken the lease, `t` has
      nothing scheduled or in flight for as long as `leader` stays the last taker and `t` itself can
      write the lease whenever it acts. */
  lemma {:induction false} WindowCloses(ws: seq<World>, acts: seq<Action>, i: nat, j: nat, t: TabId, leader: TabId)
    requires IsRunFromStart(ws, acts) && i < j < |ws|
    requires t in ws[i].tabs && t != leader
    requires IsBeatOf(acts[i].event, t) && !ws[i].tabs[t].stopped && !ws[i].tabs[t].refreshing
    requires forall k :: i <= k <= j ==> ws[k].taker == Some(leader)
    requires forall k {:trigger acts[k]} :: i <= k < j ==> Writable(acts[k], t)
    ensures Yielded(ws[j], t, leader) && !Pending(ws[j].tabs[t])
  {
    hide Inv, Next, Enabled, Pending, Yielded, IsBeatOf, Writable;
    if i < j - 1 {
      WindowCloses(ws, acts, i, j - 1, t, leader);
    }
    RunKeepsInv(ws, acts, j - 1);
    assert Enabled(ws[j - 1], acts[j - 1].event) && ws[j] == Next(ws[j - 1], acts[j - 1]);
    if i < j - 1 { YieldedIsThere(ws[j - 1], t, leader); }
    YieldedStays(ws[j - 1], acts[j - 1], t, leader);
    RunKeepsInv(ws, acts, j);
    YieldedIsQuiet(ws[j], t, leader);
  }

  // ---- `stopped` is absorbing ----

  /** A stopped driver, and no lease of its own except one it held when it stopped. */
  ghost predicate Halted(w: World, t: TabId, held: Option<Lease>) {
    && t in w.tabs && w.tabs[t].stopped
    && (w.lease.Some? && w.lease.value.id == t ==> w.lease == held)
  }

  lemma CommitHalted(w: World, e: Event, u: TabId, env: Env, l: Local, t: TabId, held: Option<Lease>)
    requires u in w.tabs && Sound(u, w.tabs[u], w.lease, env, l) && Halted(w, t, held)
    ensures Halted(Commit(w, e, u, l), t, held)
    ensures Pending(Commit(w, e, u, l).tabs[t]) ==> Pending(w.tabs[t])
    ensures Commit(w, e, u, l).tabs[t].phase == w.tabs[t].phase || Commit(w, e, u, l).tabs[t].phase.Idle?
  {
  }

  lemma HaltedStays(w: World, a: Action, t: TabId, held: Option<Lease>)
    requires Inv(w) && Enabled(w, a.event) && Halted(w, t, held)
    ensures Halted(Next(w, a), t, held)
    ensures Pending(Next(w, a).tabs[t]) ==> Pending(w.tabs[t])
    ensures Next(w, a).tabs[t].phase == w.tabs[t].phase || Next(w, a).tabs[t].phase.Idle?
  {
    match a.event
    case Advance(_) =>
    case Open(u, me, wired) =>
    case _ =>
      LocalStepSound(w, a);
      CommitHalted(w, a.event, a.event.t, Env(w.now, a.canRead, a.canWrite), LocalStep(w, a), t, held);
  }

  lemma HaltsHere(w: World, t: TabId)
    requires t in w.tabs && w.tabs[t].stopped
    ensures Halted(w, t, w.lease)
  {
  }

  lemma HaltedHoldsNothing(w: World, t: TabId, held: Option<Lease>)
    requires Inv(w) && Halted(w, t, held)
    ensures t in w.tabs
    ensures var tab := w.tabs[t];
            tab.stopped && tab.timeouts == map[] && !tab.beating && !tab.wired
  {
    assert TabOk(w.tabs[t]);
  }

  /** Once stopped, a driver stays stopped in every later state: no timeout, no heartbeat, no
      channel, and the lease is never taken back. The request it had in flight, if any, may end,
      and none is begun after it: from any state to any later one the phase stays or is idle. */
  lemma {:induction false} StoppedIsAbsorbing(ws: seq<World>, acts: seq<Action>, i: nat, j: nat, t: TabId)
    requires IsRunFromStart(ws, acts) && i <= j < |ws|
    requires t in ws[i].tabs && ws[i].tabs[t].stopped
    ensures t in ws[j].tabs
    ensures var tab := ws[j].tabs[t];
            tab.stopped && tab.timeouts == map[] && !tab.beating && !tab.wired
    ensures ws[j].tabs[t].phase == ws[i].tabs[t].phase || ws[j].tabs[t].phase.Idle?
    ensures Pending(ws[j].tabs[t]) ==> Pending(ws[i].tabs[t])
    ensures Halted(ws[j], t, ws[i].lease)
  {
    hide Inv, Next, Enabled, Pending, Halted;
    if i == j {
      HaltsHere(ws[i], t);
    } else {
      StoppedIsAbsorbing(ws, acts, i, j - 1, t);
      RunKeepsInv(ws, acts, j - 1);
      assert Enabled(ws[j - 1], acts[j - 1].event) && ws[j] == Next(ws[j - 1], acts[j - 1]);
      HaltedStays(ws[j - 1], acts[j - 1], t, ws[i].lease);
    }
    RunKeepsInv(ws, acts, j);
    HaltedHoldsNothing(ws[j], t, ws[i].lease);
  }

  // ---- where timestamps come from ----

  predicate PairFrom(auth: Snapshot, issued: set<(real, real)>) {
    auth.Authenticated? ==> (auth.session.expiresAt, auth.session.refreshAt) in issued
  }

  predicate RawFrom(raw: Raw, issued: set<(real, real)>) {
    var m := Understood(raw);
    m.Some? && m.value.Refreshed? ==> (m.value.expiresAt, m.value.refreshAt) in issued
  }

  predicate PostFrom(post: Option<Post>, issued: set<(real, real)>) {
    post.Some? ==> RawFrom(Encoded(post.value.message), issued)
  }

  ghost predicate FromServer(w: World) {
    && (forall t :: t in w.tabs ==> PairFrom(w.tabs[t].auth, w.issued))
    && (forall t, i :: t in w.inbox && 0 <= i < |w.inbox[t]| ==> RawFrom(w.inbox[t][i], w.issued))
  }

  lemma TickKeepsStore(id: TabId, tab: Tab, lease: Option<Lease>, env: Env)
    ensures var l := Tick(id, tab, lease, env);
            l.tab.auth == tab.auth && l.tab.navigations == tab.navigations && l.post == None
  {
  }

  lemma RetryKeepsStore(tab: Tab, now: real, delay: real)
    ensures var next := RetryIn(tab, now, delay);
            next.auth == tab.auth && next.navigations == tab.navigations
  {
  }

  lemma ExpireClears(id: TabId, tab: Tab, lease: Option<Lease>, env: Env)
    ensures var l := Expire(id, tab, lease, env);
            l.tab.auth == Unauthenticated && l.tab.stopped && l.tab.redirecting && l.post == None
  {
  }

  lemma PostSettlesFrom(id: TabId, tab: Tab, reply: PostReply, lease: Option<Lease>, env: Env)
    requires tab.phase.Posting?
    ensures var l := PostSettles(id, tab, reply, lease, env);
            if reply.Status? && reply.code == 401 && !tab.stopped
            then l.tab.auth.Unauthenticated? && l.post == Broadcast(tab, Expired, env)
            else l.tab.auth == tab.auth && l.tab.navigations == tab.navigations && l.post == None
  {
    var done := tab.(phase := Idle);
    ExpireClears(id, done, lease, env);
    hide Expire, RetryIn, RetryAfterMs;
    RetryKeepsStore(done, env.now, RETRY_MS);
    if reply.Status? {
      var hint := RetryAfterMs(reply.retryAfter);
      RetryKeepsStore(done, env.now, if hint.Some? then hint.value else RATE_LIMIT_RETRY_MS);
    }
  }

  lemma ProbeSettlesFrom(id: TabId, tab: Tab, reply: MeReply, lease: Option<Lease>, env: Env)
    requires tab.phase.Probing?
    ensures var l := ProbeSettles(id, tab, reply, lease, env);
            l.tab.auth == Loaded(reply) &&
            if Loaded(reply).Authenticated? then l.tab.navigations == tab.navigations && l.post == None
            else l.post.Some? ==> l.post.value.message == Expired
  {
    var probed := SetAuth(id, tab.(phase := Idle), Loaded(reply), lease, env);
    ExpireClears(id, probed.tab, probed.lease, env);
  }

  lemma BodySettlesFrom(id: TabId, tab: Tab, reply: BodyReply, lease: Option<Lease>, env: Env)
    requires tab.phase.Reading?
    ensures var l := BodySettles(id, tab, reply, lease, env);
            l.tab.navigations == tab.navigations &&
            if reply.Body? && reply.expiresAt.Number? && reply.refreshAt.Number?
            then l.tab.auth == Apply(tab, reply.expiresAt.n, reply.refreshAt.n).auth
                 && (l.post.Some? ==> l.post.value.message == Refreshed(reply.expiresAt.n, reply.refreshAt.n))
            else l.tab.auth == tab.auth && l.post == None
  {
    if reply.Body? && reply.expiresAt.Number? && reply.refreshAt.Number? {
      var folded := Apply(tab.(phase := Idle), reply.expiresAt.n, reply.refreshAt.n);
      TickKeepsStore(id, folded.(refreshing := false), lease, env);
    }
  }

  lemma OnMessageFrom(id: TabId, tab: Tab, raw: Raw, lease: Option<Lease>, env: Env)
    ensures var l := OnMessage(id, tab, raw, lease, env);
            l.post == None &&
            if tab.stopped || Understood(raw).None? then l.tab == tab
            else if Understood(raw).value.Expired? then l.tab.auth.Unauthenticated?
            else l.tab.auth == Apply(tab, Understood(raw).value.expiresAt, Understood(raw).value.refreshAt).auth
                 && l.tab.navigations == tab.navigations
  {
    ExpireClears(id, tab, lease, env);
    if Understood(raw).Some? && Understood(raw).value.Refreshed? {
      var m := Understood(raw).value;
      TickKeepsStore(id, ClearTimer(Apply(tab, m.expiresAt, m.refreshAt)), lease, env);
    }
  }

  /** The snapshot a step leaves: cleared, the old one, `/auth/me`'s, or the old session with the
      timestamps of the body or of the message. */
  predicate StoreFrom(w: World, e: Event, before: Snapshot, after: Snapshot)
    requires Enabled(w, e)
  {
    || after.Unauthenticated?
    || after == before
    || (e.ProbeSettled? && after == Loaded(e.me))
    || (e.OuterProbe? && after == Loaded(e.me))
    || (before.Authenticated? && after.Authenticated? &&
        var pair := (after.session.expiresAt, after.session.refreshAt);
        || (e.BodySettled? && e.body.Body? && e.body.expiresAt.Number? && e.body.refreshAt.Number?
            && pair == (e.body.expiresAt.n, e.body.refreshAt.n))
        || (e.Deliver? && var m := Understood(w.inbox[e.t][e.i]);
            m.Some? && m.value.Refreshed? && pair == (m.value.expiresAt, m.value.refreshAt)))
  }

  lemma OthersKeepStore(id: TabId, tab: Tab, k: nat, lease: Option<Lease>, env: Env)
    ensures Fire(tab, k, env.now).auth == tab.auth && Stop(id, tab, lease, env).tab.auth == tab.auth
  {
  }

  lemma WritesStore(id: TabId, tab: Tab, snapshot: Snapshot, lease: Option<Lease>, env: Env)
    ensures SetAuth(id, tab, snapshot, lease, env).tab.auth == snapshot
    ensures SignIn(SetAuth(id, tab, snapshot, lease, env).tab).auth == snapshot
  {
  }

  lemma LocalStepStore(w: World, a: Action)
    requires Enabled(w, a.event) && !a.event.Advance? && !a.event.Open?
    ensures StoreFrom(w, a.event, w.tabs[a.event.t].auth, LocalStep(w, a).tab.auth)
  {
    var t := a.event.t;
    var tab := w.tabs[t];
    var env := Env(w.now, a.canRead, a.canWrite);
    hide Tick, PostSettles, ProbeSettles, BodySettles, OnMessage, SetAuth, Stop, SignIn, Fire, Understood, Loaded;
    match a.event
    case Heartbeat(_) => TickKeepsStore(t, tab.(nextBeat := w.now + HEARTBEAT_MS), w.lease, env);
    case BecomesVisible(_) => TickKeepsStore(t, tab, w.lease, env);
    case PostSettled(_, reply) => PostSettlesFrom(t, tab, reply, w.lease, env);
    case ProbeSettled(_, reply) => ProbeSettlesFrom(t, tab, reply, w.lease, env);
    case BodySettled(_, reply) => BodySettlesFrom(t, tab, reply, w.lease, env);
    case Deliver(_, i) => OnMessageFrom(t, tab, w.inbox[t][i], w.lease, env);
    case Stray(_, raw) => OnMessageFrom(t, tab, raw, w.lease, env);
    case TimeoutFires(_, k) => OthersKeepStore(t, tab, k, w.lease, env);
    case SignsOut(_) => WritesStore(t, tab, Unauthenticated, w.lease, env);
    case OuterProbe(_, reply) => WritesStore(t, tab, Loaded(reply), w.lease, env);
    case StopCalled(_) => OthersKeepStore(t, tab, 0, w.lease, env);
    case _ =>
  }

  lemma LocalStepPost(w: World, a: Action)
    requires Enabled(w, a.event) && !a.event.Advance? && !a.event.Open?
    ensures PostFrom(LocalStep(w, a).post, Issued(a.event))
  {
    var t := a.event.t;
    var tab := w.tabs[t];
    var env := Env(w.now, a.canRead, a.canWrite);
    match a.event
    case Heartbeat(_) => TickKeepsStore(t, tab.(nextBeat := w.now + HEARTBEAT_MS), w.lease, env);
    case BecomesVisible(_) => TickKeepsStore(t, tab, w.lease, env);
    case PostSettled(_, reply) => PostSettlesFrom(t, tab, reply, w.lease, env);
    case ProbeSettled(_, reply) => ProbeSettlesFrom(t, tab, reply, w.lease, env);
    case BodySettled(_, reply) => BodySettlesFrom(t, tab, reply, w.lease, env);
    case Deliver(_, i) => OnMessageFrom(t, tab, w.inbox[t][i], w.lease, env);
    case Stray(_, raw) => OnMessageFrom(t, tab, raw, w.lease, env);
    case _ =>
  }

  lemma CommitFrom(w: World, e: Event, t: TabId, l: Local)
    requires FromServer(w)
    requires PairFrom(l.tab.auth, w.issued + Issued(e)) && PostFrom(l.post, Issued(e))
    ensures FromServer(Commit(w, e, t, l))
  {
    var next := Commit(w, e, t, l);
    forall u | u in next.tabs ensures PairFrom(next.tabs[u].auth, next.issued) {
      assert next.tabs[u] == if u == t then l.tab else w.tabs[u];
    }
    var taken := Taken(e, w.inbox);
    forall u, i | u in next.inbox && 0 <= i < |next.inbox[u]| ensures RawFrom(next.inbox[u][i], next.issued) {
      assert forall k :: 0 <= k < |taken[u]| ==> RawFrom(taken[u][k], w.issued);
      if i < |taken[u]| {
        assert next.inbox[u][i] == taken[u][i];
      } else {
        assert next.inbox[u][i] == Encoded(l.post.value.message);
      }
    }
  }

  lemma NextFrom(w: World, a: Action)
    requires FromServer(w) && Enabled(w, a.event)
    ensures FromServer(Next(w, a))
  {
    match a.event
    case Advance(_) =>
    case Open(t, me, wired) =>
      var env := Env(w.now, a.canRead, a.canWrite);
      var l := Tick(t, Booted(Loaded(me).session, wired, w.now), w.lease, env);
      CommitFrom(w.(inbox := w.inbox[t := []]), a.event, t, l);
    case _ =>
      LocalStepStore(w, a);
      LocalStepPost(w, a);
      CommitFrom(w, a.event, a.event.t, LocalStep(w, a));
  }

  lemma {:induction false} IssuedByAnEvent(ws: seq<World>, acts: seq<Action>, i: nat, pair: (real, real))
    requires IsRunFromStart(ws, acts) && i < |ws| && pair in ws[i].issued
    ensures exists j :: 0 <= j < i && pair in Issued(acts[j].event)
  {
    if i > 0 {
      assert Enabled(ws[i - 1], acts[i - 1].event) && ws[i] == Next(ws[i - 1], acts[i - 1]);
      if pair !in Issued(acts[i - 1].event) {
        IssuedByAnEvent(ws, acts, i - 1, pair);
      }
    }
  }

  lemma {:induction false} RunFrom(ws: seq<World>, acts: seq<Action>, i: nat)
    requires IsRunFromStart(ws, acts) && i < |ws|
    ensures FromServer(ws[i])
  {
    if i > 0 {
      RunFrom(ws, acts, i - 1);
      assert Enabled(ws[i - 1], acts[i - 1].event);
      NextFrom(ws[i - 1], acts[i - 1]);
    }
  }

  /** Every schedule is the server's: the timestamps in a tab's store are a pair some earlier
      answer carried, or the zeros `unixSeconds` puts for what the answer did not carry. */
  lemma StoredPairIsIssued(ws: seq<World>, acts: seq<Action>, i: nat, t: TabId)
    requires IsRunFromStart(ws, acts) && i < |ws|
    requires t in ws[i].tabs && ws[i].tabs[t].auth.Authenticated?
    ensures var session := ws[i].tabs[t].auth.session;
            exists j :: 0 <= j < i && (session.expiresAt, session.refreshAt) in Issued(acts[j].event)
  {
    RunFrom(ws, acts, i);
    var session := ws[i].tabs[t].auth.session;
    IssuedByAnEvent(ws, acts, i, (session.expiresAt, session.refreshAt));
  }

  /** And so is every schedule still travelling between tabs. */
  lemma TravellingPairIsIssued(ws: seq<World>, acts: seq<Action>, i: nat, t: TabId, k: nat)
    requires IsRunFromStart(ws, acts) && i < |ws|
    requires t in ws[i].inbox && k < |ws[i].inbox[t]|
    requires Understood(ws[i].inbox[t][k]).Some? && Understood(ws[i].inbox[t][k]).value.Refreshed?
    ensures var m := Understood(ws[i].inbox[t][k]).value;
            exists j :: 0 <= j < i && (m.expiresAt, m.refreshAt) in Issued(acts[j].event)
  {
    RunFrom(ws, acts, i);
    var m := Understood(ws[i].inbox[t][k]).value;
    IssuedByAnEvent(ws, acts, i, (m.expiresAt, m.refreshAt));
  }

  // ---- schedules ----

  /** A refresh that succeeds in a tab that may lead puts the server's pair in the store, arms the
      one timeout for exactly the server's `refresh_at`, or at once if that has passed, and sends
      the pair to every running tab that listens. */
  lemma RefreshReschedules(w: World, a: Action, u: TabId)
    requires Inv(w) && Enabled(w, a.event) && a.event.BodySettled?
    requires a.event.body.Body? && a.event.body.expiresAt.Number? && a.event.body.refreshAt.Number?
    requires var tab := w.tabs[a.event.t]; !tab.stopped && tab.auth.Authenticated?
    ensures var t, e, r := a.event.t, a.event.body.expiresAt.n, a.event.body.refreshAt.n;
            var before, after := w.tabs[t], Next(w, a).tabs[t];
            && after.auth == Authenticated(before.auth.session.(expiresAt := e, refreshAt := r))
            && after.phase.Idle? && !after.refreshing && !after.stopped
            && (if MayLead(t, w.lease, Env(w.now, a.canRead, a.canWrite)) && r > 0.0
                then after.timer.Some? && after.timeouts == map[after.timer.value := MaxReal(w.now, r * 1000.0)]
                else after.timeouts == map[])
    ensures u in w.tabs && u != a.event.t && !w.tabs[u].stopped
              && (if w.tabs[a.event.t].wired then w.tabs[u].wired else a.canWrite)
            ==> Encoded(Refreshed(a.event.body.expiresAt.n, a.event.body.refreshAt.n)) in Next(w, a).inbox[u]
  {
    var t, env := a.event.t, Env(w.now, a.canRead, a.canWrite);
    var tab := w.tabs[t];
    assert TabOk(tab) && TimersOk(tab);
    assert tab.timer.None? && tab.timeouts == map[];
    BodyReschedules(t, tab, a.event.body, w.lease, env);
    LocalNext(w, a);
    if u in w.tabs && u != t && !w.tabs[u].stopped && (if tab.wired then w.tabs[u].wired else a.canWrite) {
      SpreadArrives(w, a, u);
    }
    hide BodySettles, Inv, MayLead, Next, Spread, TabOk, Encoded;
  }

  lemma BodyReschedules(id: TabId, tab: Tab, reply: BodyReply, lease: Option<Lease>, env: Env)
    requires tab.phase.Reading? && !tab.stopped && tab.auth.Authenticated? && tab.timer.None? && tab.timeouts == map[]
    requires reply.Body? && reply.expiresAt.Number? && reply.refreshAt.Number?
    ensures var l := BodySettles(id, tab, reply, lease, env);
            && l.tab.auth == Authenticated(tab.auth.session.(expiresAt := reply.expiresAt.n,
               refreshAt := reply.refreshAt.n))
            && l.tab.phase.Idle? && !l.tab.refreshing && !l.tab.stopped
            && (if MayLead(id, lease, env) && reply.refreshAt.n > 0.0
                then l.tab.timer.Some?
                    && l.tab.timeouts == map[l.tab.timer.value := MaxReal(env.now, reply.refreshAt.n * 1000.0)]
                else l.tab.timeouts == map[])
            && l.post == Broadcast(tab, Refreshed(reply.expiresAt.n, reply.refreshAt.n), env)
  {
    hide MayLead;
  }

  /** A running tab that hears the pair adopts it, and reschedules exactly if it may lead. */
  lemma FollowerAdopts(id: TabId, tab: Tab, e: real, r: real, lease: Option<Lease>, env: Env)
    requires TabOk(tab) && !tab.stopped && !tab.refreshing && tab.auth.Authenticated?
    ensures var l := OnMessage(id, tab, Encoded(Refreshed(e, r)), lease, env);
            && l.tab.auth == Authenticated(tab.auth.session.(expiresAt := e, refreshAt := r)) && l.post == None
            && (if MayLead(id, lease, env) && r > 0.0
                then l.tab.timer.Some? && l.tab.timeouts == map[l.tab.timer.value := MaxReal(env.now, r * 1000.0)]
                else l.tab.timeouts == map[])
  {
    hide MayLead;
    assert TimersOk(tab);
    assert ClearTimer(tab).timeouts == map[];
  }

  /** After an effective beat a tab with a schedule has a refresh pending exactly if it may lead: no
      leader forgets to schedule and no follower keeps a timer. */
  lemma BeatSchedules(w: World, a: Action)
    requires Inv(w) && Enabled(w, a.event) && (a.event.Heartbeat? || a.event.BecomesVisible?)
    requires var tab := w.tabs[a.event.t];
             !tab.stopped && !tab.refreshing && tab.auth.Authenticated? && tab.auth.session.refreshAt > 0.0
    ensures Pending(Next(w, a).tabs[a.event.t]) <==> MayLead(a.event.t, w.lease, Env(w.now, a.canRead, a.canWrite))
    ensures MayLead(a.event.t, w.lease, Env(w.now, a.canRead, a.canWrite)) && a.canWrite ==>
              Next(w, a).lease == Some(Lease(a.event.t, w.now))
  {
    var t, env := a.event.t, Env(w.now, a.canRead, a.canWrite);
    var tab := w.tabs[t];
    assert TabOk(tab) && TimersOk(tab);
    var l := LocalStep(w, a);
    LocalStepSound(w, a);
    assert TimersOk(l.tab);
    hide Inv, TabOk, MayLead;
    if l.tab.timer.Some? { assert l.tab.timer.value in l.tab.timeouts; }
  }

  // ---- what a logout needs ----

  /** An explicit answer that the session is gone, in any tab: a 401, or a 403 whose re-probe fails. */
  predicate SessionRefused(e: Event) {
    (e.PostSettled? && e.post.Status? && e.post.code == 401) || (e.ProbeSettled? && !Loaded(e.me).Authenticated?)
  }

  /** Tab `t` itself signing out, or failing a probe of its own outside the driver. */
  predicate LeavesByItself(e: Event, t: TabId) {
    (e.SignsOut? && e.t == t) || (e.OuterProbe? && e.t == t && !Loaded(e.me).Authenticated?)
  }

  ghost predicate NoExpiryTravels(w: World) {
    forall t, i :: t in w.inbox && 0 <= i < |w.inbox[t]| ==> Understood(w.inbox[t][i]) != Some(Expired)
  }

  predicate SignedIn(tab: Tab) {
    tab.auth.Authenticated? && tab.navigations == 0
  }

  lemma LocalStepQuiet(w: World, a: Action)
    requires Enabled(w, a.event) && !a.event.Advance? && !a.event.Open? && !SessionRefused(a.event)
    requires a.event.Deliver? ==> Understood(w.inbox[a.event.t][a.event.i]) != Some(Expired)
    ensures LocalStep(w, a).post.Some? ==> LocalStep(w, a).post.value.message != Expired
    ensures SignedIn(w.tabs[a.event.t]) && !LeavesByItself(a.event, a.event.t) ==> SignedIn(LocalStep(w, a).tab)
  {
    var t := a.event.t;
    var tab := w.tabs[t];
    var env := Env(w.now, a.canRead, a.canWrite);
    match a.event
    case Heartbeat(_) => TickKeepsStore(t, tab.(nextBeat := w.now + HEARTBEAT_MS), w.lease, env);
    case BecomesVisible(_) => TickKeepsStore(t, tab, w.lease, env);
    case PostSettled(_, reply) => PostSettlesFrom(t, tab, reply, w.lease, env);
    case ProbeSettled(_, reply) => ProbeSettlesFrom(t, tab, reply, w.lease, env);
    case BodySettled(_, reply) => BodySettlesFrom(t, tab, reply, w.lease, env);
    case Deliver(_, i) => OnMessageFrom(t, tab, w.inbox[t][i], w.lease, env);
    case Stray(_, raw) => OnMessageFrom(t, tab, raw, w.lease, env);
    case _ =>
  }

  lemma CommitQuiet(w: World, e: Event, t: TabId, l: Local)
    requires NoExpiryTravels(w) && (l.post.Some? ==> l.post.value.message != Expired)
    ensures NoExpiryTravels(Commit(w, e, t, l))
  {
    var next, taken := Commit(w, e, t, l), Taken(e, w.inbox);
    forall u, i | u in next.inbox && 0 <= i < |next.inbox[u]| ensures Understood(next.inbox[u][i]) != Some(Expired) {
      assert forall k :: 0 <= k < |taken[u]| ==> Understood(taken[u][k]) != Some(Expired);
      if i < |taken[u]| {
        assert next.inbox[u][i] == taken[u][i];
      } else {
        assert next.inbox[u][i] == Encoded(l.post.value.message);
      }
    }
  }

  lemma NextQuiet(w: World, a: Action, t: TabId)
    requires NoExpiryTravels(w) && (t in w.tabs ==> SignedIn(w.tabs[t])) && Enabled(w, a.event)
    requires !SessionRefused(a.event) && !LeavesByItself(a.event, t)
    ensures NoExpiryTravels(Next(w, a)) && (t in Next(w, a).tabs ==> SignedIn(Next(w, a).tabs[t]))
  {
    match a.event
    case Advance(_) =>
    case Open(u, me, wired) =>
      var env := Env(w.now, a.canRead, a.canWrite);
      var l := Tick(u, Booted(Loaded(me).session, wired, w.now), w.lease, env);
      CommitQuiet(w.(inbox := w.inbox[u := []]), a.event, u, l);
    case _ =>
      LocalStepQuiet(w, a);
      CommitQuiet(w, a.event, a.event.t, LocalStep(w, a));
  }

  /** Nothing short of an explicit answer logs a tab out. In every run in which no tab's refresh
      is answered 401 or re-probed in vain, a tab that neither signs out nor fails a probe of its
      own stays authenticated and is never redirected, whatever errors, odd statuses, broken
      bodies and messages any tab sees. */
  lemma {:induction false} LogoutNeedsEvidence(ws: seq<World>, acts: seq<Action>, i: nat, t: TabId)
    requires IsRunFromStart(ws, acts) && i < |ws|
    requires forall j {:trigger acts[j]} :: 0 <= j < i ==>
            !SessionRefused(acts[j].event) && !LeavesByItself(acts[j].event, t)
    ensures NoExpiryTravels(ws[i])
    ensures t in ws[i].tabs ==> SignedIn(ws[i].tabs[t])
  {
    if i > 0 {
      LogoutNeedsEvidence(ws, acts, i - 1, t);
      assert Enabled(ws[i - 1], acts[i - 1].event);
      NextQuiet(ws[i - 1], acts[i - 1], t);
    }
  }

  /** And the answer is enough: a running driver that hears 401 leaves at once, and tells every
      running tab that listens on its transport. */
  lemma RefusalSpreads(w: World, a: Action, u: TabId)
    requires Inv(w) && Enabled(w, a.event) && a.event.PostSettled? && SessionRefused(a.event)
    requires !w.tabs[a.event.t].stopped
    ensures var left := Next(w, a).tabs[a.event.t];
            left.auth.Unauthenticated? && left.stopped && left.redirecting
    ensures u in w.tabs && u != a.event.t && !w.tabs[u].stopped
              && (if w.tabs[a.event.t].wired then w.tabs[u].wired else a.canWrite)
            ==> Encoded(Expired) in Next(w, a).inbox[u]
  {
    var t, env := a.event.t, Env(w.now, a.canRead, a.canWrite);
    PostSettlesFrom(t, w.tabs[t], a.event.post, w.lease, env);
    ExpireClears(t, w.tabs[t].(phase := Idle), w.lease, env);
    LocalNext(w, a);
    if u in w.tabs && u != t && !w.tabs[u].stopped && (if w.tabs[t].wired then w.tabs[u].wired else a.canWrite) {
      SpreadArrives(w, a, u);
    }
    hide Expire, Inv, Next, Spread, Encoded;
  }

  /** Whoever receives that message while running leaves as well. */
  lemma ExpiryIsObeyed(w: World, a: Action)
    requires Inv(w) && Enabled(w, a.event) && a.event.Deliver?
    requires Understood(w.inbox[a.event.t][a.event.i]) == Some(Expired) && !w.tabs[a.event.t].stopped
    ensures var left := Next(w, a).tabs[a.event.t];
            left.auth.Unauthenticated? && left.stopped && left.redirecting
  {
    var t := a.event.t;
    ExpireClears(t, w.tabs[t], w.lease, Env(w.now, a.canRead, a.canWrite));
    LocalNext(w, a);
    hide Expire, Inv, Next, Spread;
  }
}
