/** How long a live leader can go without renewing its lease, with the source's constants: the
    exact conditions under which it keeps the lease, and how soon a dead one is replaced. */
module RefreshTiming {
  import opened Common
  import opened RefreshTypes
  import opened RefreshSpec
  import opened RefreshRuns

  /** What is asked of leader `t` and of the others. A refresh takes less than `limit`, from the
      POST to the last await; a Retry-After is longer than `gap`; a heartbeat of `t` is at most
      `late` overdue; and, where asked, `t` can write the lease, nobody writes it blindly, and
      `t`'s page gets no pagehide. */
  datatype Policy =
    Policy(limit: real, gap: real, late: real, writes: bool, othersRead: bool, stays: bool)

  /** One moment of `t`: its driver runs, its heartbeat is not too late, its refresh not too long. */
  predicate Punctual(w: World, t: TabId, p: Policy) {
    && t in w.tabs && !w.tabs[t].stopped
    && w.now <= w.tabs[t].nextBeat + p.late
    && (!w.tabs[t].phase.Idle? ==> w.now < w.tabs[t].phase.since + p.limit)
  }

  predicate Calm(a: Action, t: TabId, p: Policy) {
    var e := a.event;
    && (p.stays ==> e != PageHide(t))
    && (p.writes && !e.Advance? && e.t == t ==> a.canWrite)
    && (p.othersRead && !e.Advance? && e.t != t ==> a.canRead || !a.canWrite)
    && (e.PostSettled? && e.t == t && e.post.Status? && e.post.code == 429 ==>
          var hint := RetryAfterMs(e.post.retryAfter);
          hint.Some? ==> hint.value > p.gap)
  }

  /** Beats come soon enough and refreshes leave enough of them to renew in: without refreshes a
      beat may come ten seconds late, with refreshes that span one beat 2.5 seconds, and with
      refreshes that span two not at all. */
  predicate Bounded(p: Policy) {
    && p.late >= 0.0
    && (|| (p.limit <= 0.0 && p.late <= LEASE_TTL_MS - HEARTBEAT_MS)
        || (0.0 < p.limit <= HEARTBEAT_MS && 2.0 * p.late <= HEARTBEAT_MS && p.gap >= HEARTBEAT_MS + p.late)
        || (HEARTBEAT_MS < p.limit <= REQUEST_TIMEOUT_MS && p.late == 0.0 && p.gap >= HEARTBEAT_MS))
  }

  predicate Enough(p: Policy) {
    Bounded(p) && p.writes && p.othersRead && p.stays
  }

  // ---- beats that count are never far apart ----

  /** A refresh started at `s` has let pass the heartbeats due since, of which the next is `nb`. */
  predicate Skipping(s: real, ts: real, nb: real, p: Policy) {
    || nb <= ts + HEARTBEAT_MS
    || (s + HEARTBEAT_MS <= nb <= ts + 2.0 * HEARTBEAT_MS + p.late)
    || (s + 2.0 * HEARTBEAT_MS <= nb <= ts + 3.0 * HEARTBEAT_MS + 2.0 * p.late && p.limit > HEARTBEAT_MS)
  }

  /** How long after an effective beat the next one may be due. */
  function Reach(p: Policy): real {
    if p.limit <= 0.0 then HEARTBEAT_MS
    else if p.limit <= HEARTBEAT_MS then 2.0 * HEARTBEAT_MS + p.late
    else 3.0 * HEARTBEAT_MS + 2.0 * p.late
  }

  /** The tab's last effective beat was at `ts`; its next one comes within LEASE_TTL_MS of it. */
  predicate OnTime(tab: Tab, ts: real, now: real, p: Policy) {
    && ts <= now && tab.nextBeat <= now + HEARTBEAT_MS
    && if tab.phase.Idle? then
         || tab.nextBeat <= ts + HEARTBEAT_MS
         || (tab.nextBeat <= ts + Reach(p)
             && forall k :: k in tab.timeouts ==> tab.nextBeat + p.late < tab.timeouts[k])
       else tab.phase.since <= now && Skipping(tab.phase.since, ts, tab.nextBeat, p)
  }

  /** When the tab last beat, after a step at `now`. */
  function BeatAt(l: Local, ts: real, now: real): real {
    if l.beat.NoBeat? then ts else now
  }

  predicate StillOnTime(l: Local, ts: real, now: real, p: Policy) {
    OnTime(l.tab, BeatAt(l, ts, now), now, p)
  }

  lemma TickOnTime(id: TabId, tab: Tab, ts: real, lease: Option<Lease>, env: Env, p: Policy)
    requires TabOk(tab) && !tab.stopped && tab.phase.Idle? && tab.nextBeat <= env.now + HEARTBEAT_MS
    ensures var l := Tick(id, tab, lease, env);
            !l.beat.NoBeat? && l.tab.phase.Idle? && StillOnTime(l, ts, env.now, p)
  {
  }

  /** The policy lets refreshes happen, and a retry comes after the beat that is due. */
  predicate Renewable(p: Policy) {
    p.limit > 0.0 && 0.0 <= 2.0 * p.late <= HEARTBEAT_MS
  }

  lemma RetryOnTime(tab: Tab, ts: real, now: real, delay: real, p: Policy)
    requires TabOk(tab) && !tab.stopped && !tab.phase.Idle? && OnTime(tab, ts, now, p) && p.limit > 0.0
    requires delay > HEARTBEAT_MS + p.late && p.late >= 0.0
    ensures OnTime(RetryIn(tab.(phase := Idle), now, delay), ts, now, p)
  {
  }

  lemma PostOnTime(id: TabId, tab: Tab, reply: PostReply, ts: real, lease: Option<Lease>, env: Env, p: Policy)
    requires TabOk(tab) && !tab.stopped && tab.phase.Posting? && OnTime(tab, ts, env.now, p) && Renewable(p)
    requires reply.Status? && reply.code == 429 && RetryAfterMs(reply.retryAfter).Some? ==>
               RetryAfterMs(reply.retryAfter).value > HEARTBEAT_MS + p.late
    ensures var l := PostSettles(id, tab, reply, lease, env);
            !l.tab.stopped ==> l.lease == lease && StillOnTime(l, ts, env.now, p)
  {
    RetryOnTime(tab, ts, env.now, RETRY_MS, p);
    RetryOnTime(tab, ts, env.now, RATE_LIMIT_RETRY_MS, p);
    if reply.Status? && reply.code == 429 && RetryAfterMs(reply.retryAfter).Some? {
      RetryOnTime(tab, ts, env.now, RetryAfterMs(reply.retryAfter).value, p);
    }
    ExpireStops(id, tab.(phase := Idle), lease, env);
    hide RetryIn, Expire, RetryAfterMs;
  }

  lemma ExpireStops(id: TabId, tab: Tab, lease: Option<Lease>, env: Env)
    ensures Expire(id, tab, lease, env).tab.stopped
  {
  }

  lemma ProbeOnTime(id: TabId, tab: Tab, reply: MeReply, ts: real, lease: Option<Lease>, env: Env, p: Policy)
    requires TabOk(tab) && !tab.stopped && tab.phase.Probing? && OnTime(tab, ts, env.now, p) && Renewable(p)
    ensures var l := ProbeSettles(id, tab, reply, lease, env);
            !l.tab.stopped ==> l.lease == lease && StillOnTime(l, ts, env.now, p)
  {
    if Loaded(reply).Authenticated? {
      var due := Loaded(reply).session.refreshAt * 1000.0 - env.now;
      RetryOnTime(tab.(auth := Loaded(reply)), ts, env.now, MaxReal(RETRY_MS, due), p);
    } else {
      var probed := SetAuth(id, tab.(phase := Idle), Loaded(reply), lease, env);
      ExpireStops(id, probed.tab, probed.lease, env);
    }
  }

  lemma BodyOnTime(id: TabId, tab: Tab, reply: BodyReply, ts: real, lease: Option<Lease>, env: Env, p: Policy)
    requires TabOk(tab) && !tab.stopped && tab.phase.Reading? && OnTime(tab, ts, env.now, p) && Renewable(p)
    ensures var l := BodySettles(id, tab, reply, lease, env);
            StillOnTime(l, ts, env.now, p) && (l.beat.NoBeat? ==> l.lease == lease)
  {
    if reply.BodyError? || reply.expiresAt.NotNumber? || reply.refreshAt.NotNumber? {
      RetryOnTime(tab, ts, env.now, RETRY_MS, p);
    } else {
      var folded := Apply(tab.(phase := Idle), reply.expiresAt.n, reply.refreshAt.n).(refreshing := false);
      TickOnTime(id, folded, ts, lease, env, p);
    }
  }

  lemma BeatOnTime(id: TabId, tab: Tab, ts: real, lease: Option<Lease>, env: Env, p: Policy)
    requires TabOk(tab) && !tab.stopped && OnTime(tab, ts, env.now, p)
    requires tab.nextBeat <= env.now <= tab.nextBeat + p.late
    requires !tab.phase.Idle? ==> env.now < tab.phase.since + p.limit <= tab.phase.since + REQUEST_TIMEOUT_MS
    ensures var l := Tick(id, tab.(nextBeat := env.now + HEARTBEAT_MS), lease, env);
            StillOnTime(l, ts, env.now, p) && (l.beat.NoBeat? ==> l.lease == lease)
  {
    if tab.phase.Idle? { TickOnTime(id, tab.(nextBeat := env.now + HEARTBEAT_MS), ts, lease, env, p); }
  }

  lemma ShownOnTime(id: TabId, tab: Tab, ts: real, lease: Option<Lease>, env: Env, p: Policy)
    requires TabOk(tab) && !tab.stopped && OnTime(tab, ts, env.now, p)
    ensures var l := Tick(id, tab, lease, env);
            StillOnTime(l, ts, env.now, p) && (l.beat.NoBeat? ==> l.lease == lease)
  {
    if tab.phase.Idle? { TickOnTime(id, tab, ts, lease, env, p); }
  }

  lemma FireOnTime(tab: Tab, k: nat, ts: real, now: real, p: Policy)
    requires TabOk(tab) && !tab.stopped && OnTime(tab, ts, now, p) && now <= tab.nextBeat + p.late
    requires k in tab.timeouts && now >= tab.timeouts[k]
    ensures OnTime(Fire(tab, k, now), ts, now, p)
  {
  }

  lemma WriteOnTime(id: TabId, tab: Tab, snapshot: Snapshot, ts: real, lease: Option<Lease>, env: Env, p: Policy)
    requires TabOk(tab) && !tab.stopped && OnTime(tab, ts, env.now, p)
    ensures var l := SetAuth(id, tab, snapshot, lease, env);
            if snapshot.Unauthenticated? then l.tab.stopped
            else !l.tab.stopped && l.lease == lease && StillOnTime(l, ts, env.now, p)
  {
  }

  lemma MessageOnTime(id: TabId, tab: Tab, raw: Raw, ts: real, lease: Option<Lease>, env: Env, p: Policy)
    requires TabOk(tab) && !tab.stopped && OnTime(tab, ts, env.now, p)
    ensures var l := OnMessage(id, tab, raw, lease, env);
            !l.tab.stopped ==> StillOnTime(l, ts, env.now, p) && (l.beat.NoBeat? ==> l.lease == lease)
  {
    ExpireStops(id, tab, lease, env);
    if Understood(raw).Some? && Understood(raw).value.Refreshed? {
      var m := Understood(raw).value;
      var adopted := ClearTimer(Apply(tab, m.expiresAt, m.refreshAt));
      if tab.phase.Idle? { TickOnTime(id, adopted, ts, lease, env, p); }
    }
    hide Expire, Understood;
  }

  lemma StopStops(id: TabId, tab: Tab, lease: Option<Lease>, env: Env)
    ensures Stop(id, tab, lease, env).tab.stopped
  {
  }

  /** A request in flight is younger than the policy's limit, so there is none if that is nothing. */
  lemma BusyIsBounded(w: World, t: TabId, ts: real, p: Policy)
    requires t in w.tabs && OnTime(w.tabs[t], ts, w.now, p) && Punctual(w, t, p) && Bounded(p) && !w.tabs[t].phase.Idle?
    ensures Renewable(p) && p.gap >= HEARTBEAT_MS + p.late
    ensures w.now < w.tabs[t].phase.since + p.limit <= w.tabs[t].phase.since + REQUEST_TIMEOUT_MS
  {
  }

  /** Every step of a punctual tab that does not stop it leaves it on time, and moves the lease only
      by a beat or by hiding the page. */
  lemma StepOnTime(w: World, a: Action, t: TabId, ts: real, p: Policy)
    requires TabsOk(w) && t in w.tabs && OnTime(w.tabs[t], ts, w.now, p) && Punctual(w, t, p) && Bounded(p)
    requires Calm(a, t, p) && Enabled(w, a.event) && !a.event.Advance? && !a.event.Open? && a.event.t == t
    requires !LocalStep(w, a).tab.stopped
    ensures StillOnTime(LocalStep(w, a), ts, w.now, p)
    ensures LocalStep(w, a).beat.NoBeat? && !a.event.PageHide? ==> LocalStep(w, a).lease == w.lease
  {
    hide TabOk, Tick, Fire, PostSettles, ProbeSettles, BodySettles, OnMessage, SetAuth, Stop, RetryAfterMs, OnTime,
      Bounded, Renewable, Loaded, Understood, SignIn;
    var tab := w.tabs[t];
    var env := Env(w.now, a.canRead, a.canWrite);
    assert TabOk(tab);
    if !tab.phase.Idle? { BusyIsBounded(w, t, ts, p); }
    StopStops(t, tab, w.lease, env);
    match a.event
    case Heartbeat(_) => BeatOnTime(t, tab, ts, w.lease, env, p);
    case BecomesVisible(_) => ShownOnTime(t, tab, ts, w.lease, env, p);
    case TimeoutFires(_, k) => FireOnTime(tab, k, ts, w.now, p);
    case PostSettled(_, reply) => PostOnTime(t, tab, reply, ts, w.lease, env, p);
    case ProbeSettled(_, reply) => ProbeOnTime(t, tab, reply, ts, w.lease, env, p);
    case BodySettled(_, reply) => BodyOnTime(t, tab, reply, ts, w.lease, env, p);
    case Deliver(_, i) => MessageOnTime(t, tab, w.inbox[t][i], ts, w.lease, env, p);
    case Stray(_, raw) => MessageOnTime(t, tab, raw, ts, w.lease, env, p);
    case OuterProbe(_, reply) => OuterProbeOnTime(t, tab, reply, ts, w.lease, env, p);
    case SignsOut(_) => WriteOnTime(t, tab, Unauthenticated, ts, w.lease, env, p);
    case _ =>
  }

  lemma OuterProbeOnTime(id: TabId, tab: Tab, reply: MeReply, ts: real, lease: Option<Lease>, env: Env, p: Policy)
    requires TabOk(tab) && !tab.stopped && OnTime(tab, ts, env.now, p)
    ensures var l := SetAuth(id, tab, Loaded(reply), lease, env);
            if Loaded(reply).Authenticated? then !l.tab.stopped && l.lease == lease && StillOnTime(l, ts, env.now, p)
            else l.tab.stopped && SignIn(l.tab).stopped
  {
    WriteOnTime(id, tab, Loaded(reply), ts, lease, env, p);
    hide SetAuth;
  }

  /** When `t` last beat, after a step of anybody. */
  function NextBeatAt(w: World, a: Action, t: TabId, ts: real): real
    requires Enabled(w, a.event)
  {
    if a.event.Advance? || a.event.Open? || a.event.t != t then ts else BeatAt(LocalStep(w, a), ts, w.now)
  }

  lemma NextOnTime(w: World, a: Action, t: TabId, ts: real, p: Policy)
    requires TabsOk(w) && t in w.tabs && OnTime(w.tabs[t], ts, w.now, p) && Punctual(w, t, p) && Bounded(p)
    requires Calm(a, t, p) && Enabled(w, a.event)
    requires t in Next(w, a).tabs && !Next(w, a).tabs[t].stopped
    ensures OnTime(Next(w, a).tabs[t], NextBeatAt(w, a, t, ts), Next(w, a).now, p)
  {
    if !a.event.Advance? && !a.event.Open? {
      LocalNext(w, a);
      if a.event.t == t { StepOnTime(w, a, t, ts, p); }
      hide LocalStep, Next, TabsOk, Calm, Bounded;
    }
  }

  lemma OnTimeIsRecent(w: World, t: TabId, ts: real, p: Policy)
    requires TabsOk(w) && t in w.tabs && OnTime(w.tabs[t], ts, w.now, p) && Punctual(w, t, p) && Bounded(p)
    ensures w.now - ts <= LEASE_TTL_MS
  {
    assert TabOk(w.tabs[t]);
  }

  // ---- the leader keeps its lease ----

  predicate Leads(w: World, t: TabId, p: Policy) {
    && t in w.tabs && w.lease.Some? && w.lease.value.id == t
    && OnTime(w.tabs[t], w.lease.value.ts, w.now, p)
  }

  /** No step of another tab moves a fresh lease of `t`, unless it writes without reading. */
  lemma OthersKeepLease(w: World, a: Action, t: TabId)
    requires TabsOk(w) && w.lease.Some? && w.lease.value.id == t && w.now - w.lease.value.ts <= LEASE_TTL_MS
    requires Enabled(w, a.event) && !a.event.Advance? && a.event.t != t && (a.canRead || !a.canWrite)
    ensures Next(w, a).lease == w.lease
  {
    if a.event.Open? {
      OpenIsABeat(w, a);
      hide Next;
    } else {
      LocalStepSound(w, a);
      LocalNext(w, a);
      hide LocalStep, Next;
    }
  }

  /** A step of the leader renews the lease or leaves it. */
  lemma LeaderKeepsOrRenews(w: World, a: Action, t: TabId, p: Policy)
    requires TabsOk(w) && Leads(w, t, p) && Punctual(w, t, p) && Enough(p) && Calm(a, t, p)
    requires Enabled(w, a.event) && !a.event.Advance? && !a.event.Open? && a.event.t == t
    requires !LocalStep(w, a).tab.stopped
    ensures LocalStep(w, a).lease == Some(Lease(t, BeatAt(LocalStep(w, a), w.lease.value.ts, w.now)))
  {
    LocalStepSound(w, a);
    StepOnTime(w, a, t, w.lease.value.ts, p);
    hide LocalStep, TabsOk, OnTime;
  }

  lemma NextLeads(w: World, a: Action, t: TabId, p: Policy)
    requires Inv(w) && Leads(w, t, p) && Punctual(w, t, p) && Enough(p) && Calm(a, t, p) && Enabled(w, a.event)
    requires t in Next(w, a).tabs && !Next(w, a).tabs[t].stopped
    ensures Leads(Next(w, a), t, p)
  {
    var ts := w.lease.value.ts;
    OnTimeIsRecent(w, t, ts, p);
    NextOnTime(w, a, t, ts, p);
    hide OnTime;
    if a.event.Advance? {
    } else if a.event.t != t {
      OthersKeepLease(w, a, t);
      hide Next;
    } else {
      assert !a.event.Open?;
      LocalNext(w, a);
      LeaderKeepsOrRenews(w, a, t, p);
      hide LocalStep, Next;
    }
  }

  /** `t` renewed the lease at this very moment and is not refreshing. */
  predicate JustRenewed(w: World, t: TabId) {
    && t in w.tabs && w.tabs[t].phase.Idle? && w.lease == Some(Lease(t, w.now))
    && w.tabs[t].nextBeat <= w.now + HEARTBEAT_MS
  }

  ghost predicate PunctualRun(ws: seq<World>, acts: seq<Action>, i: nat, j: nat, t: TabId, p: Policy)
    requires |ws| == |acts| + 1 && i <= j < |ws|
  {
    && (forall k :: i <= k <= j ==> Punctual(ws[k], t, p))
    && (forall k {:trigger acts[k]} :: i <= k < j ==> Calm(acts[k], t, p))
  }

  lemma PunctualRuns(w: World, t: TabId, p: Policy)
    requires Punctual(w, t, p)
    ensures t in w.tabs && !w.tabs[t].stopped
  {
  }

  lemma RenewedLeads(w: World, t: TabId, p: Policy)
    requires JustRenewed(w, t)
    ensures Leads(w, t, p)
  {
  }

  lemma {:induction false} RunLeads(ws: seq<World>, acts: seq<Action>, i: nat, j: nat, t: TabId, p: Policy)
    requires IsRunFromStart(ws, acts) && i <= j < |ws| && Enough(p)
    requires JustRenewed(ws[i], t) && PunctualRun(ws, acts, i, j, t, p)
    ensures Leads(ws[j], t, p)
  {
    hide Leads, JustRenewed, Punctual, Calm, Next, Enabled, Inv, Enough;
    if i == j {
      RenewedLeads(ws[i], t, p);
    } else {
      RunLeads(ws, acts, i, j - 1, t, p);
      RunKeepsInv(ws, acts, j - 1);
      assert Enabled(ws[j - 1], acts[j - 1].event) && ws[j] == Next(ws[j - 1], acts[j - 1]);
      assert Punctual(ws[j - 1], t, p) && Calm(acts[j - 1], t, p) && Punctual(ws[j], t, p);
      PunctualRuns(ws[j], t, p);
      NextLeads(ws[j - 1], acts[j - 1], t, p);
    }
  }

  /** The lease is `t`'s and not stale. */
  predicate Holds(w: World, t: TabId) {
    w.lease.Some? && w.lease.value.id == t && w.now - w.lease.value.ts <= LEASE_TTL_MS
  }

  /** A live, punctual leader keeps the lease. From any reachable moment at which `t` has just
      renewed it, in every run that follows the policy, and whatever the other tabs do, the lease
      stays `t`'s and fresh, so no other tab that can read it may lead. */
  lemma LeaderKeepsLease(ws: seq<World>, acts: seq<Action>, i: nat, j: nat, t: TabId, p: Policy, other: TabId,
                         canWrite: bool)
    requires IsRunFromStart(ws, acts) && i <= j < |ws| && Enough(p)
    requires JustRenewed(ws[i], t) && PunctualRun(ws, acts, i, j, t, p)
    ensures Holds(ws[j], t)
    ensures other != t ==> !MayLead(other, ws[j].lease, Env(ws[j].now, true, canWrite))
  {
    RunLeads(ws, acts, i, j, t, p);
    RunKeepsInv(ws, acts, j);
    assert Punctual(ws[j], t, p);
    OnTimeIsRecent(ws[j], t, ws[j].lease.value.ts, p);
  }

  // ---- a dead leader is replaced ----

  /** Somebody leads: there is a lease and it is not stale. */
  predicate HasLeader(w: World) {
    w.lease.Some? && w.now - w.lease.value.ts <= LEASE_TTL_MS
  }

  /** `t` has just beaten, leading or following. */
  predicate JustBeat(w: World, t: TabId) {
    && t in w.tabs && w.tabs[t].phase.Idle? && w.tabs[t].nextBeat <= w.now + HEARTBEAT_MS && HasLeader(w)
  }

  /** An effective beat of a tab that can write finds a fresh lease or makes one. */
  lemma BeatFindsLeader(w: World, a: Action)
    requires TabsOk(w) && Enabled(w, a.event) && !a.event.Advance? && !a.event.Open? && a.canWrite
    requires !LocalStep(w, a).beat.NoBeat?
    ensures HasLeader(Next(w, a))
  {
    LocalStepSound(w, a);
    LocalNext(w, a);
    hide LocalStep, Next;
  }

  /** No stretch of LEASE_TTL_MS is without a leader as long as one tab runs punctually and can
      write, whoever crashes, closes or lets its lease go stale meanwhile, and whatever the others'
      storage does: at some moment of it there is a fresh lease. */
  lemma {:induction false} DeadLeaderIsReplaced(ws: seq<World>, acts: seq<Action>, i: nat, j: nat, t: TabId, p: Policy)
    returns (k: nat)
    requires IsRunFromStart(ws, acts) && i <= j < |ws| && Bounded(p) && p.writes
    requires JustBeat(ws[i], t) && PunctualRun(ws, acts, i, j, t, p)
    ensures i <= k <= j && HasLeader(ws[k]) && ws[j].now - ws[k].now <= LEASE_TTL_MS
    ensures t in ws[j].tabs && OnTime(ws[j].tabs[t], ws[k].now, ws[j].now, p)
  {
    hide Next, Enabled, Calm, OnTime, Inv, HasLeader, JustBeat, Bounded, Punctual;
    if i == j {
      JustBeatIsOnTime(ws[i], t, p);
      return i;
    }
    var before := DeadLeaderIsReplaced(ws, acts, i, j - 1, t, p);
    RunKeepsInv(ws, acts, j - 1);
    RunKeepsInv(ws, acts, j);
    var w, a := ws[j - 1], acts[j - 1];
    assert Enabled(w, a.event) && ws[j] == Next(w, a);
    assert Punctual(w, t, p) && Calm(a, t, p) && Punctual(ws[j], t, p);
    var beats := BeatsOrStays(w, a, t, ws[before].now, p);
    k := if beats then j else before;
  }

  lemma JustBeatIsOnTime(w: World, t: TabId, p: Policy)
    requires JustBeat(w, t)
    ensures HasLeader(w) && t in w.tabs && OnTime(w.tabs[t], w.now, w.now, p)
  {
  }

  /** After one step of anybody `t` is on time, counting from now if the step was its beat. */
  lemma BeatsOrStays(w: World, a: Action, t: TabId, ts: real, p: Policy) returns (beats: bool)
    requires Inv(w) && Enabled(w, a.event) && Inv(Next(w, a)) && Bounded(p) && p.writes
    requires t in w.tabs && OnTime(w.tabs[t], ts, w.now, p)
    requires Punctual(w, t, p) && Calm(a, t, p) && Punctual(Next(w, a), t, p)
    ensures t in Next(w, a).tabs && (beats ==> HasLeader(Next(w, a)))
    ensures var next := Next(w, a);
            var last := if beats then next.now else ts;
            OnTime(next.tabs[t], last, next.now, p) && next.now - last <= LEASE_TTL_MS
  {
    hide Next, Enabled, Calm, OnTime, Inv, LocalStep, HasLeader, Bounded, Punctual;
    PunctualRuns(Next(w, a), t, p);
    InvTabs(w);
    InvTabs(Next(w, a));
    NextOnTime(w, a, t, ts, p);
    var k := BeatOrBefore(w, a, t, p, 0, 1);
    beats := k == 1;
    OnTimeIsRecent(Next(w, a), t, if beats then Next(w, a).now else ts, p);
  }

  lemma InvTabs(w: World)
    requires Inv(w)
    ensures TabsOk(w)
  {
  }

  /** Where to count from after a step: from it, if `t` beat in it. */
  lemma BeatOrBefore(w: World, a: Action, t: TabId, p: Policy, before: nat, after: nat) returns (k: nat)
    requires TabsOk(w) && Enabled(w, a.event) && Calm(a, t, p) && p.writes && before < after
    ensures k == after || k == before
    ensures k == after ==> HasLeader(Next(w, a)) && forall ts :: NextBeatAt(w, a, t, ts) == w.now == Next(w, a).now
    ensures k == before ==> forall ts :: NextBeatAt(w, a, t, ts) == ts
  {
    if a.event.Advance? || a.event.Open? || a.event.t != t || LocalStep(w, a).beat.NoBeat? { return before; }
    BeatFindsLeader(w, a);
    LocalNext(w, a);
    return after;
  }
}
