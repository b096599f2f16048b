/** Any number of tabs over one lease: the step system and what holds in every run of it. */
module RefreshRuns {
  import opened Common
  import opened RefreshTypes
  import opened RefreshSpec

  /** When a tab last beat while running and idle, and whether it then led without being able
      to write the lease. */
  datatype Mark = Mark(at: nat, unwritten: bool)

  /** The origin. `issued` is every timestamp pair the server has handed out; `steps`, `taker`,
      `takenAt` and `marks` only record history: whose write last changed the lease's owner,
      when, and each tab's last effective beat. */
  datatype World = World(
    now: real,
    tabs: map<TabId, Tab>,
    lease: Option<Lease>,
    inbox: map<TabId, seq<Raw>>,
    issued: set<(real, real)>,
    steps: nat,
    taker: Option<TabId>,
    takenAt: nat,
    marks: map<TabId, Mark>)

  datatype Event =
    | Advance(d: real)
    | Open(t: TabId, me: MeReply, wired: bool)
    | Heartbeat(t: TabId)
    | BecomesVisible(t: TabId)
    | PageHide(t: TabId)
    | TimeoutFires(t: TabId, k: nat)
    | PostSettled(t: TabId, post: PostReply)
    | ProbeSettled(t: TabId, me: MeReply)
    | BodySettled(t: TabId, body: BodyReply)
    | Deliver(t: TabId, i: nat)
    | Stray(t: TabId, raw: Raw)
    | SignsOut(t: TabId)
    | OuterProbe(t: TabId, me: MeReply)
    | StopCalled(t: TabId)

  /** An event and the mood of localStorage while it runs. */
  datatype Action = Action(event: Event, canRead: bool, canWrite: bool)

  function Init(now: real): World {
    World(now, map[], None, map[], {}, 0, None, 0, map[])
  }

  predicate Enabled(w: World, e: Event) {
    match e
    case Advance(d) => d > 0.0
    case Open(t, me, _) => t !in w.tabs && Loaded(me).Authenticated?
    case Heartbeat(t) => t in w.tabs && w.tabs[t].beating && w.now >= w.tabs[t].nextBeat
    case BecomesVisible(t) => t in w.tabs && !w.tabs[t].stopped
    case PageHide(t) => t in w.tabs && !w.tabs[t].stopped
    case TimeoutFires(t, k) => t in w.tabs && k in w.tabs[t].timeouts && w.now >= w.tabs[t].timeouts[k]
    case PostSettled(t, _) => t in w.tabs && w.tabs[t].phase.Posting?
    case ProbeSettled(t, _) => t in w.tabs && w.tabs[t].phase.Probing?
    case BodySettled(t, _) => t in w.tabs && w.tabs[t].phase.Reading?
    case Deliver(t, i) => t in w.tabs && t in w.inbox && i < |w.inbox[t]|
    case Stray(t, raw) => t in w.tabs && Understood(raw).None?
    case SignsOut(t) => t in w.tabs
    case OuterProbe(t, _) => t in w.tabs
    case StopCalled(t) => t in w.tabs
  }

  /** What the event does in its own tab. */
  function LocalStep(w: World, a: Action): Local
    requires Enabled(w, a.event) && !a.event.Advance? && !a.event.Open?
  {
    var t := a.event.t;
    var tab := w.tabs[t];
    var env := Env(w.now, a.canRead, a.canWrite);
    match a.event
    case Heartbeat(_) => Tick(t, tab.(nextBeat := w.now + HEARTBEAT_MS), w.lease, env)
    case BecomesVisible(_) => Tick(t, tab, w.lease, env)
    case PageHide(_) => Local(tab, LeaseAfterRelease(t, w.lease, env), None, NoBeat)
    case TimeoutFires(_, k) => Local(Fire(tab, k, w.now), w.lease, None, NoBeat)
    case PostSettled(_, reply) => PostSettles(t, tab, reply, w.lease, env)
    case ProbeSettled(_, reply) => ProbeSettles(t, tab, reply, w.lease, env)
    case BodySettled(_, reply) => BodySettles(t, tab, reply, w.lease, env)
    case Deliver(_, i) => OnMessage(t, tab, w.inbox[t][i], w.lease, env)
    case Stray(_, raw) => OnMessage(t, tab, raw, w.lease, env)
    case SignsOut(_) => SetAuth(t, tab, Unauthenticated, w.lease, env)
    case OuterProbe(_, reply) =>
      var probed := SetAuth(t, tab, Loaded(reply), w.lease, env);
      if Loaded(reply).Authenticated? then probed else probed.(tab := SignIn(probed.tab))
    case StopCalled(_) => Stop(t, tab, w.lease, env)
  }

  /** The timestamp pair the server hands out in this event. */
  function Issued(e: Event): set<(real, real)> {
    match e
    case Open(_, me, _) => IssuedByMe(me)
    case ProbeSettled(_, me) => IssuedByMe(me)
    case OuterProbe(_, me) => IssuedByMe(me)
    case BodySettled(_, body) =>
      if body.Body? && body.expiresAt.Number? && body.refreshAt.Number?
          then {(body.expiresAt.n, body.refreshAt.n)} else {}
    case _ => {}
  }

  function IssuedByMe(me: MeReply): set<(real, real)> {
    if me.MeBody? then {(UnixSeconds(me.expiresAt), UnixSeconds(me.refreshAt))} else {}
  }

  predicate Hears(u: TabId, tab: Tab, from: TabId, post: Post) {
    u != from && !tab.stopped && (post.viaChannel ==> tab.wired)
  }

  /** A fan-out reaches every other running tab that listens on its transport. */
  function Spread(w: World, inbox: map<TabId, seq<Raw>>, from: TabId, post: Option<Post>): map<TabId, seq<Raw>> {
    if post.None? then inbox
    else
      map u | u in inbox ::
        if u in w.tabs && Hears(u, w.tabs[u], from, post.value)
        then inbox[u] + [Encoded(post.value.message)] else inbox[u]
  }

  function Taken(e: Event, inbox: map<TabId, seq<Raw>>): map<TabId, seq<Raw>> {
    if e.Deliver? && e.t in inbox && e.i < |inbox[e.t]|
    then inbox[e.t := inbox[e.t][..e.i] + inbox[e.t][e.i + 1..]] else inbox
  }

  /** Puts the outcome of a step of tab `t` into the world and writes the history down. */
  function Commit(w: World, e: Event, t: TabId, l: Local): World {
    var changes := l.beat == Led(true) && w.taker != Some(t);
    w.(tabs := w.tabs[t := l.tab],
       lease := l.lease,
       inbox := Spread(w, Taken(e, w.inbox), t, l.post),
       issued := w.issued + Issued(e),
       steps := w.steps + 1,
       taker := if changes then Some(t) else w.taker,
       takenAt := if changes then w.steps + 1 else w.takenAt,
       marks := if l.beat.NoBeat? then w.marks else w.marks[t := Mark(w.steps + 1, l.beat == Led(false))])
  }

  function Next(w: World, a: Action): World
    requires Enabled(w, a.event)
  {
    match a.event
    case Advance(d) => w.(now := w.now + d, steps := w.steps + 1)
    case Open(t, me, wired) =>
      var env := Env(w.now, a.canRead, a.canWrite);
      Commit(w.(inbox := w.inbox[t := []]), a.event, t,
             Tick(t, Booted(Loaded(me).session, wired, w.now), w.lease, env))
    case _ => Commit(w, a.event, a.event.t, LocalStep(w, a))
  }

  lemma LocalNext(w: World, a: Action)
    requires Enabled(w, a.event) && !a.event.Advance? && !a.event.Open?
    ensures var next, l := Next(w, a), LocalStep(w, a);
            && next.lease == l.lease && next.tabs == w.tabs[a.event.t := l.tab] && next.now == w.now
            && next.inbox == Spread(w, Taken(a.event, w.inbox), a.event.t, l.post)
  {
  }

  /** What a step sends arrives in the inbox of every tab that hears it. */
  lemma SpreadArrives(w: World, a: Action, u: TabId)
    requires Enabled(w, a.event) && !a.event.Advance? && !a.event.Open?
    requires LocalStep(w, a).post.Some? && u in w.tabs && u in w.inbox
    requires Hears(u, w.tabs[u], a.event.t, LocalStep(w, a).post.value)
    ensures u in Next(w, a).inbox && Encoded(LocalStep(w, a).post.value.message) in Next(w, a).inbox[u]
  {
    LocalNext(w, a);
    hide LocalStep, Next;
    var sent := [Encoded(LocalStep(w, a).post.value.message)];
    assert Next(w, a).inbox[u] == Taken(a.event, w.inbox)[u] + sent;
  }

  // ---- runs ----

  /** `ws` is a run taking `acts` in turn. */
  ghost predicate IsRun(ws: seq<World>, acts: seq<Action>) {
    && |ws| == |acts| + 1
    && forall i {:trigger acts[i]} :: 0 <= i < |acts| ==>
       Enabled(ws[i], acts[i].event) && ws[i + 1] == Next(ws[i], acts[i])
  }

  ghost predicate IsRunFromStart(ws: seq<World>, acts: seq<Action>) {
    IsRun(ws, acts) && exists now :: ws[0] == Init(now)
  }

  // ---- one tab: the timer, the POST and `stopped` ----

  /** The page holds the driver's timeout and no other; a refresh in flight holds none; a
      stopped driver holds nothing. */
  predicate TabOk(tab: Tab) {
    && TimersOk(tab)
    && (!tab.phase.Idle? ==> tab.refreshing)
    && (tab.refreshing && !tab.stopped ==> !tab.phase.Idle?)
    && (!tab.stopped ==> tab.beating && !tab.auth.Unauthenticated?)
  }

  predicate TimersOk(tab: Tab) {
    && tab.timeouts.Keys == (if tab.timer.Some? then {tab.timer.value} else {})
    && (tab.timer.Some? ==> tab.timer.value < tab.nextId)
    && (tab.refreshing ==> tab.timer.None?)
    && (tab.stopped ==> tab.timer.None? && !tab.beating && !tab.wired)
  }

  /** A refresh is scheduled or under way. */
  predicate Pending(tab: Tab) {
    tab.timeouts != map[] || !tab.phase.Idle?
  }

  /** What every step of one tab respects: the tab stays in order, a stopped driver stays
      stopped and begins no request, only a beat that may lead writes the lease and it writes its
      own name and the time, and only such a beat makes a refresh pending that was not. */
  predicate Sound(id: TabId, tab: Tab, lease: Option<Lease>, env: Env, l: Local) {
    && TabOk(l.tab)
    && (tab.stopped ==> l.tab.stopped && l.beat.NoBeat? && (l.tab.phase == tab.phase || l.tab.phase.Idle?))
    && match l.beat
       case NoBeat =>
         && (l.lease == lease || (l.lease == None && lease.Some? && lease.value.id == id))
         && (Pending(l.tab) ==> Pending(tab))
       case Followed => l.lease == lease && !Pending(l.tab) && !MayLead(id, lease, env)
       case Led(wrote) =>
         && MayLead(id, lease, env) && wrote == env.canWrite
         && l.lease == if wrote then Some(Lease(id, env.now)) else lease
  }

  lemma TickSound(id: TabId, tab: Tab, lease: Option<Lease>, env: Env)
    requires TabOk(tab)
    ensures Sound(id, tab, lease, env, Tick(id, tab, lease, env))
  {
  }

  lemma StopSound(id: TabId, tab: Tab, lease: Option<Lease>, env: Env)
    requires TimersOk(tab) && (!tab.phase.Idle? ==> tab.refreshing)
    ensures Sound(id, tab, lease, env, Stop(id, tab, lease, env))
    ensures Stop(id, tab, lease, env).tab.stopped
  {
  }

  lemma StopOkSound(id: TabId, tab: Tab, lease: Option<Lease>, env: Env)
    requires TabOk(tab)
    ensures Sound(id, tab, lease, env, Stop(id, tab, lease, env))
  {
    StopSound(id, tab, lease, env);
  }

  lemma SetAuthSound(id: TabId, tab: Tab, snapshot: Snapshot, lease: Option<Lease>, env: Env)
    requires TabOk(tab)
    ensures Sound(id, tab, lease, env, SetAuth(id, tab, snapshot, lease, env))
  {
    StopSound(id, tab.(auth := snapshot), lease, env);
  }

  lemma ExpireSound(id: TabId, tab: Tab, lease: Option<Lease>, env: Env)
    requires TimersOk(tab) && (!tab.phase.Idle? ==> tab.refreshing)
    ensures Sound(id, tab, lease, env, Expire(id, tab, lease, env))
    ensures Expire(id, tab, lease, env).tab.stopped
  {
    StopSound(id, tab, lease, env);
  }

  lemma RetrySound(id: TabId, tab: Tab, lease: Option<Lease>, env: Env, delay: real)
    requires TabOk(tab) && !tab.phase.Idle?
    ensures Sound(id, tab, lease, env, Local(RetryIn(tab.(phase := Idle), env.now, delay), lease, None, NoBeat))
  {
  }

  lemma FireSound(id: TabId, tab: Tab, k: nat, lease: Option<Lease>, env: Env)
    requires TabOk(tab) && k in tab.timeouts
    ensures Sound(id, tab, lease, env, Local(Fire(tab, k, env.now), lease, None, NoBeat))
  {
  }

  lemma PostSettlesSound(id: TabId, tab: Tab, reply: PostReply, lease: Option<Lease>, env: Env)
    requires TabOk(tab) && tab.phase.Posting?
    ensures Sound(id, tab, lease, env, PostSettles(id, tab, reply, lease, env))
  {
    ExpireSound(id, tab.(phase := Idle), lease, env);
    RetrySound(id, tab, lease, env, RETRY_MS);
    RetrySound(id, tab, lease, env, RATE_LIMIT_RETRY_MS);
    if reply.Status? && RetryAfterMs(reply.retryAfter).Some? {
      RetrySound(id, tab, lease, env, RetryAfterMs(reply.retryAfter).value);
    }
  }

  lemma ProbeSettlesSound(id: TabId, tab: Tab, reply: MeReply, lease: Option<Lease>, env: Env)
    requires TabOk(tab) && tab.phase.Probing?
    ensures Sound(id, tab, lease, env, ProbeSettles(id, tab, reply, lease, env))
  {
    var loaded := Loaded(reply);
    if loaded.Authenticated? {
      var due := loaded.session.refreshAt * 1000.0 - env.now;
      RetrySound(id, tab.(auth := loaded), lease, env, MaxReal(RETRY_MS, due));
    } else {
      var probed := SetAuth(id, tab.(phase := Idle), loaded, lease, env);
      StopSound(id, tab.(phase := Idle, auth := loaded), lease, env);
      ExpireSound(id, probed.tab, probed.lease, env);
    }
  }

  lemma BodySettlesSound(id: TabId, tab: Tab, reply: BodyReply, lease: Option<Lease>, env: Env)
    requires TabOk(tab) && tab.phase.Reading?
    ensures Sound(id, tab, lease, env, BodySettles(id, tab, reply, lease, env))
  {
    if reply.BodyError? || reply.expiresAt.NotNumber? || reply.refreshAt.NotNumber? {
      RetrySound(id, tab, lease, env, RETRY_MS);
    } else {
      var folded := Apply(tab.(phase := Idle), reply.expiresAt.n, reply.refreshAt.n).(refreshing := false);
      TickSound(id, folded, lease, env);
    }
  }

  lemma OnMessageSound(id: TabId, tab: Tab, raw: Raw, lease: Option<Lease>, env: Env)
    requires TabOk(tab)
    ensures Sound(id, tab, lease, env, OnMessage(id, tab, raw, lease, env))
  {
    hide Understood;
    if tab.stopped || Understood(raw).None? {
      NothingSound(id, tab, lease, env);
    } else if Understood(raw).value.Refreshed? {
      var m := Understood(raw).value;
      AdoptionSound(id, tab, m.expiresAt, m.refreshAt, lease, env);
    } else {
      ExpireSound(id, tab, lease, env);
    }
    hide Sound, Tick, Expire, ClearTimer, Apply;
  }

  lemma NothingSound(id: TabId, tab: Tab, lease: Option<Lease>, env: Env)
    requires TabOk(tab)
    ensures Sound(id, tab, lease, env, Local(tab, lease, None, NoBeat))
  {
  }

  lemma AdoptionSound(id: TabId, tab: Tab, e: real, r: real, lease: Option<Lease>, env: Env)
    requires TabOk(tab) && !tab.stopped
    ensures Sound(id, tab, lease, env, Tick(id, ClearTimer(Apply(tab, e, r)), lease, env))
  {
    TickSound(id, ClearTimer(Apply(tab, e, r)), lease, env);
    hide Tick;
  }

  lemma HeartbeatSound(id: TabId, tab: Tab, lease: Option<Lease>, env: Env)
    requires TabOk(tab)
    ensures Sound(id, tab, lease, env, Tick(id, tab.(nextBeat := env.now + HEARTBEAT_MS), lease, env))
  {
    TickSound(id, tab.(nextBeat := env.now + HEARTBEAT_MS), lease, env);
    hide Tick;
  }

  lemma PageHideSound(id: TabId, tab: Tab, lease: Option<Lease>, env: Env)
    requires TabOk(tab)
    ensures Sound(id, tab, lease, env, Local(tab, LeaseAfterRelease(id, lease, env), None, NoBeat))
  {
  }

  lemma OuterProbeSound(id: TabId, tab: Tab, reply: MeReply, lease: Option<Lease>, env: Env)
    requires TabOk(tab)
    ensures var probed := SetAuth(id, tab, Loaded(reply), lease, env);
            Sound(id, tab, lease, env, probed) && Sound(id, tab, lease, env, probed.(tab := SignIn(probed.tab)))
  {
    SetAuthSound(id, tab, Loaded(reply), lease, env);
    hide SetAuth;
  }

  lemma LocalStepSound(w: World, a: Action)
    requires Enabled(w, a.event) && !a.event.Advance? && !a.event.Open?
    requires TabOk(w.tabs[a.event.t])
    ensures Sound(a.event.t, w.tabs[a.event.t], w.lease, Env(w.now, a.canRead, a.canWrite), LocalStep(w, a))
  {
    var t := a.event.t;
    var tab := w.tabs[t];
    var env := Env(w.now, a.canRead, a.canWrite);
    hide Sound, TabOk, Tick, Fire, PostSettles, ProbeSettles, BodySettles, OnMessage, SetAuth, Stop, SignIn, Loaded;
    match a.event
    case Heartbeat(_) => HeartbeatSound(t, tab, w.lease, env);
    case BecomesVisible(_) => TickSound(t, tab, w.lease, env);
    case PageHide(_) => PageHideSound(t, tab, w.lease, env);
    case TimeoutFires(_, k) => FireSound(t, tab, k, w.lease, env);
    case PostSettled(_, reply) => PostSettlesSound(t, tab, reply, w.lease, env);
    case ProbeSettled(_, reply) => ProbeSettlesSound(t, tab, reply, w.lease, env);
    case BodySettled(_, reply) => BodySettlesSound(t, tab, reply, w.lease, env);
    case Deliver(_, i) => OnMessageSound(t, tab, w.inbox[t][i], w.lease, env);
    case Stray(_, raw) => OnMessageSound(t, tab, raw, w.lease, env);
    case SignsOut(_) => SetAuthSound(t, tab, Unauthenticated, w.lease, env);
    case OuterProbe(_, reply) => OuterProbeSound(t, tab, reply, w.lease, env);
    case StopCalled(_) => StopOkSound(t, tab, w.lease, env);
  }

  // ---- the whole origin ----

  ghost predicate TabsOk(w: World) {
    forall t :: t in w.tabs ==> TabOk(w.tabs[t])
  }

  /** One inbox and one mark a tab, a history that is not ahead of the clock, and a lease that
      names whoever took it last. */
  ghost predicate BooksOk(w: World) {
    && w.inbox.Keys == w.tabs.Keys == w.marks.Keys
    && (forall t :: t in w.marks ==> w.marks[t].at <= w.steps)
    && w.takenAt <= w.steps
    && (w.lease.Some? ==> w.taker == Some(w.lease.value.id))
    && (w.taker.Some? ==> w.taker.value in w.tabs)
  }

  /** A tab other than the last taker has a refresh pending only if its last effective beat came
      before that taker took the lease, or led without being able to say so. */
  ghost predicate Window(w: World) {
    forall t :: t in w.tabs && t in w.marks && w.taker != Some(t) && Pending(w.tabs[t]) ==>
      w.marks[t].at < w.takenAt || w.marks[t].unwritten
  }

  lemma CommitTabs(w: World, e: Event, t: TabId, l: Local)
    requires TabsOk(w) && TabOk(l.tab)
    ensures TabsOk(Commit(w, e, t, l))
  {
    var next := Commit(w, e, t, l);
    forall u | u in next.tabs ensures TabOk(next.tabs[u]) {
      assert next.tabs[u] == if u == t then l.tab else w.tabs[u];
    }
  }

  lemma CommitBooks(w: World, e: Event, t: TabId, env: Env, l: Local)
    requires BooksOk(w) && t in w.tabs
    requires Sound(t, w.tabs[t], w.lease, env, l)
    ensures BooksOk(Commit(w, e, t, l))
  {
    var next := Commit(w, e, t, l);
    assert Taken(e, w.inbox).Keys == w.inbox.Keys;
    assert next.inbox.Keys == w.inbox.Keys;
    assert next.tabs.Keys == w.tabs.Keys;
    assert next.marks.Keys == w.marks.Keys;
  }

  lemma CommitWindow(w: World, e: Event, t: TabId, env: Env, l: Local)
    requires TabsOk(w) && BooksOk(w) && Window(w) && t in w.tabs
    requires Sound(t, w.tabs[t], w.lease, env, l)
    ensures Window(Commit(w, e, t, l))
  {
    var next := Commit(w, e, t, l);
    forall u | u in next.tabs && u in next.marks && next.taker != Some(u) && Pending(next.tabs[u])
      ensures next.marks[u].at < next.takenAt || next.marks[u].unwritten
    {
      if u == t {
        assert next.tabs[u] == l.tab;
      } else {
        assert next.tabs[u] == w.tabs[u] && next.marks[u] == w.marks[u];
      }
    }
  }

  ghost predicate Inv(w: World) {
    TabsOk(w) && BooksOk(w) && Window(w)
  }

  /** Opening a tab is a first beat of a tab that was already there, booted and quiet. */
  function WithBooted(w: World, t: TabId, session: Session, wired: bool): World {
    w.(tabs := w.tabs[t := Booted(session, wired, w.now)],
       inbox := w.inbox[t := []],
       marks := w.marks[t := Mark(0, true)])
  }

  lemma BootedTabs(w: World, t: TabId, session: Session, wired: bool)
    requires TabsOk(w)
    ensures TabsOk(WithBooted(w, t, session, wired))
  {
    var booted := WithBooted(w, t, session, wired);
    forall u | u in booted.tabs ensures TabOk(booted.tabs[u]) {
      if u != t { assert booted.tabs[u] == w.tabs[u]; }
    }
  }

  lemma BootedWindow(w: World, t: TabId, session: Session, wired: bool)
    requires Window(w) && t !in w.tabs
    ensures Window(WithBooted(w, t, session, wired))
  {
    var booted := WithBooted(w, t, session, wired);
    BootedIsQuiet(session, wired, w.now);
    hide Pending, Booted;
    forall u | u in booted.tabs && u in booted.marks && booted.taker != Some(u) && Pending(booted.tabs[u])
      ensures booted.marks[u].at < booted.takenAt || booted.marks[u].unwritten
    {
      if u != t { assert booted.tabs[u] == w.tabs[u] && booted.marks[u] == w.marks[u]; }
    }
  }

  lemma BootedIsQuiet(session: Session, wired: bool, now: real)
    ensures !Pending(Booted(session, wired, now))
  {
  }

  lemma BootedBooks(w: World, t: TabId, session: Session, wired: bool)
    requires BooksOk(w) && t !in w.tabs
    ensures BooksOk(WithBooted(w, t, session, wired))
  {
    var booted := WithBooted(w, t, session, wired);
    assert booted.inbox.Keys == w.inbox.Keys + {t};
    assert booted.tabs.Keys == w.tabs.Keys + {t};
    assert booted.marks.Keys == w.marks.Keys + {t};
  }

  lemma BootedBeats(id: TabId, session: Session, wired: bool, now: real, lease: Option<Lease>, env: Env)
    ensures !Tick(id, Booted(session, wired, now), lease, env).beat.NoBeat?
  {
  }

  lemma OpenIsABeat(w: World, a: Action)
    requires a.event.Open? && Enabled(w, a.event)
    ensures var booted := WithBooted(w, a.event.t, Loaded(a.event.me).session, a.event.wired);
            Next(w, a) == Commit(booted, a.event, a.event.t,
              Tick(a.event.t, booted.tabs[a.event.t], w.lease, Env(w.now, a.canRead, a.canWrite)))
  {
    var t := a.event.t;
    var booted := WithBooted(w, t, Loaded(a.event.me).session, a.event.wired);
    var l := Tick(t, booted.tabs[t], w.lease, Env(w.now, a.canRead, a.canWrite));
    BootedBeats(t, Loaded(a.event.me).session, a.event.wired, w.now, w.lease, Env(w.now, a.canRead, a.canWrite));
    hide Tick, Booted, Loaded, Spread, Taken;
    var left, right := Next(w, a), Commit(booted, a.event, t, l);
    assert left.tabs == right.tabs;
    assert left.marks == right.marks;
  }

  lemma NextKeepsInv(w: World, a: Action)
    requires Inv(w) && Enabled(w, a.event)
    ensures Inv(Next(w, a))
  {
    var env := Env(w.now, a.canRead, a.canWrite);
    match a.event
    case Advance(_) =>
    case Open(t, me, wired) =>
      OpenIsABeat(w, a);
      BootedTabs(w, t, Loaded(me).session, wired);
      BootedWindow(w, t, Loaded(me).session, wired);
      BootedBooks(w, t, Loaded(me).session, wired);
      var booted := WithBooted(w, t, Loaded(me).session, wired);
      var l := Tick(t, booted.tabs[t], w.lease, env);
      TickSound(t, booted.tabs[t], w.lease, env);
      CommitTabs(booted, a.event, t, l);
      CommitBooks(booted, a.event, t, env, l);
      CommitWindow(booted, a.event, t, env, l);
    case _ =>
      var l := LocalStep(w, a);
      LocalStepSound(w, a);
      CommitTabs(w, a.event, a.event.t, l);
      CommitBooks(w, a.event, a.event.t, env, l);
      CommitWindow(w, a.event, a.event.t, env, l);
  }

  lemma {:induction false} RunKeepsInv(ws: seq<World>, acts: seq<Action>, i: nat)
    requires IsRunFromStart(ws, acts) && i < |ws|
    ensures Inv(ws[i])
  {
    if i > 0 {
      RunKeepsInv(ws, acts, i - 1);
      assert Enabled(ws[i - 1], acts[i - 1].event);
      NextKeepsInv(ws[i - 1], acts[i - 1]);
    }
  }
}
