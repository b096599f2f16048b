/** Runs in which a running leader loses its lease, and with them the exact conditions under which
    every run leaves it the lease. */
module LeaseLoss {
  import opened Common
  import opened RefreshTypes
  import opened RefreshSpec
  import opened RefreshRuns
  import opened RefreshTiming

  // ---- a run, written down as it goes ----

  datatype Take = Take(ws: seq<World>, acts: seq<Action>)

  /** A run from the start that has followed the policy since `t` renewed the lease in its first step. */
  ghost predicate Played(k: Take, t: TabId, p: Policy) {
    && IsRunFromStart(k.ws, k.acts) && k.acts != []
    && JustRenewed(k.ws[1], t) && PunctualRun(k.ws, k.acts, 1, |k.acts|, t, p)
  }

  function Last(k: Take): World
    requires k.ws != []
  {
    k.ws[|k.ws| - 1]
  }

  lemma Extend(k: Take, a: Action, t: TabId, p: Policy) returns (next: Take)
    requires Played(k, t, p) && Enabled(Last(k), a.event)
    requires Calm(a, t, p) && Punctual(Next(Last(k), a), t, p)
    ensures Played(next, t, p) && Last(next) == Next(Last(k), a)
    ensures next.acts == k.acts + [a]
  {
    hide Next, Enabled, Calm, Punctual, JustRenewed;
    next := Take(k.ws + [Next(Last(k), a)], k.acts + [a]);
    forall i {:trigger next.acts[i]} | 0 <= i < |next.acts|
      ensures Enabled(next.ws[i], next.acts[i].event) && next.ws[i + 1] == Next(next.ws[i], next.acts[i])
    {
      if i < |k.acts| {
        assert next.acts[i] == k.acts[i] && next.ws[i] == k.ws[i] && next.ws[i + 1] == k.ws[i + 1];
      }
    }
    assert next.ws[0] == k.ws[0] && next.ws[1] == k.ws[1];
    forall i | 1 <= i <= |next.acts| ensures Punctual(next.ws[i], t, p) {
      if i <= |k.acts| { assert next.ws[i] == k.ws[i]; }
    }
    forall i {:trigger next.acts[i]} | 1 <= i < |next.acts| ensures Calm(next.acts[i], t, p) {
      if i < |k.acts| { assert next.acts[i] == k.acts[i]; }
    }
  }

  // ---- scenes of a run with one tab ----

  const SIGNED_IN := Session("person", "csrf", 1000.0, 5.0)

  /** The tab between refreshes, with its next one due at `due`. */
  function Armed(nextBeat: real, id: nat, due: real): Tab {
    Tab(Authenticated(SIGNED_IN), true, true, nextBeat, Some(id), map[id := due], id + 1, false, Idle, false, false, 0)
  }

  /** The tab with its POST in flight. */
  function Busy(nextBeat: real, nextId: nat, since: real): Tab {
    Tab(Authenticated(SIGNED_IN), true, true, nextBeat, None, map[], nextId, true, Posting(since), false, false, 0)
  }

  ghost predicate Scene(k: Take, t: TabId, p: Policy, now: real, tab: Tab, lease: Option<Lease>) {
    && Played(k, t, p)
    && var w := Last(k); w.now == now && w.tabs == map[t := tab] && w.lease == lease
  }

  /** The lease `t` renewed at time 0. */
  function First(t: TabId): Option<Lease> { Some(Lease(t, 0.0)) }

  lemma Opens(t: TabId, p: Policy) returns (k: Take)
    requires p.late >= 0.0
    ensures Scene(k, t, p, 0.0, Armed(5000.0, 0, 5000.0), First(t))
  {
    var me := MeBody("person", "csrf", Number(1000.0), Number(5.0));
    var a := Action(Open(t, me, true), true, true);
    var start := Init(0.0);
    assert Loaded(me) == Authenticated(SIGNED_IN);
    var booted := Booted(SIGNED_IN, true, 0.0);
    var l := Tick(t, booted, None, Env(0.0, true, true));
    assert l == Local(Armed(5000.0, 0, 5000.0), First(t), None, Led(true));
    k := Take([start, Next(start, a)], [a]);
    OpenNext(start, a);
  }

  lemma OpenNext(w: World, a: Action)
    requires a.event.Open? && Enabled(w, a.event)
    ensures var l := Tick(a.event.t, Booted(Loaded(a.event.me).session, a.event.wired, w.now), w.lease,
                          Env(w.now, a.canRead, a.canWrite));
            && Next(w, a).lease == l.lease && Next(w, a).tabs == w.tabs[a.event.t := l.tab] && Next(w, a).now == w.now
  {
  }

  /** One step of the tab, by what it does on values. */
  lemma Plays(k: Take, t: TabId, p: Policy, now: real, tab: Tab, lease: Option<Lease>, a: Action) returns (next: Take)
    requires Scene(k, t, p, now, tab, lease) && !a.event.Advance? && !a.event.Open? && a.event.t == t
    requires Enabled(Last(k), a.event) && Calm(a, t, p)
    requires var after := LocalStep(Last(k), a).tab;
             && !after.stopped && now <= after.nextBeat + p.late
             && (!after.phase.Idle? ==> now < after.phase.since + p.limit)
    ensures var l := LocalStep(Last(k), a);
            Scene(next, t, p, now, l.tab, l.lease)
    ensures next.acts == k.acts + [a]
  {
    LocalNext(Last(k), a);
    hide LocalStep, Calm, Enabled, Played, Next;
    next := Extend(k, a, t, p);
  }

  lemma Waits(k: Take, t: TabId, p: Policy, now: real, tab: Tab, lease: Option<Lease>, d: real) returns (next: Take)
    requires Scene(k, t, p, now, tab, lease) && d > 0.0
    requires !tab.stopped && now + d <= tab.nextBeat + p.late
    requires !tab.phase.Idle? ==> now + d < tab.phase.since + p.limit
    ensures Scene(next, t, p, now + d, tab, lease)
  {
    hide Played;
    next := Extend(k, Action(Advance(d), true, true), t, p);
  }

  lemma Fires(k: Take, t: TabId, p: Policy, now: real, nextBeat: real, id: nat, due: real, lease: Option<Lease>)
    returns (next: Take)
    requires Scene(k, t, p, now, Armed(nextBeat, id, due), lease) && due <= now <= nextBeat + p.late && p.limit > 0.0
    ensures Scene(next, t, p, now, Busy(nextBeat, id + 1, now), lease)
  {
    var tab := Armed(nextBeat, id, due);
    assert tab.timeouts - {id} == map[];
    assert Fire(tab, id, now) == Busy(nextBeat, id + 1, now);
    next := Plays(k, t, p, now, tab, lease, Action(TimeoutFires(t, id), true, true));
  }

  /** A heartbeat while the POST is in flight: the lease is not renewed. */
  lemma Skips(k: Take, t: TabId, p: Policy, now: real, nextBeat: real, nextId: nat, since: real, lease: Option<Lease>)
    returns (next: Take)
    requires Scene(k, t, p, now, Busy(nextBeat, nextId, since), lease) && now < since + p.limit
    requires nextBeat <= now && p.late >= 0.0
    ensures Scene(next, t, p, now, Busy(now + 5000.0, nextId, since), lease)
  {
    next := Plays(k, t, p, now, Busy(nextBeat, nextId, since), lease, Action(Heartbeat(t), true, true));
  }

  /** The POST fails, or is answered 429. */
  lemma Settles(k: Take, t: TabId, p: Policy, now: real, nextBeat: real, nextId: nat, since: real,
                lease: Option<Lease>, reply: PostReply, delay: real) returns (next: Take)
    requires Scene(k, t, p, now, Busy(nextBeat, nextId, since), lease) && now <= nextBeat + p.late
    requires || (reply == NetworkError && delay == RETRY_MS)
             || (exists s: real :: s > 0.0 && reply == Status(429, Seconds(s)) && delay == s * 1000.0 && delay > p.gap)
    ensures Scene(next, t, p, now, Armed(nextBeat, nextId, now + delay), lease)
  {
    var tab := Busy(nextBeat, nextId, since);
    var env := Env(now, true, true);
    assert map[][nextId := now + delay] == map[nextId := now + delay];
    assert PostSettles(t, tab, reply, lease, env) == Local(Armed(nextBeat, nextId, now + delay), lease, None, NoBeat);
    next := Plays(k, t, p, now, tab, lease, Action(PostSettled(t, reply), true, true));
  }

  /** A tab whose session has no schedule: it beats and never refreshes. */
  function Quiet(nextBeat: real): Tab {
    Tab(Authenticated(Session("person", "csrf", 1000.0, 0.0)), true, true, nextBeat, None, map[], 0, false,
        Idle, false, false, 0)
  }

  lemma OpensQuiet(t: TabId, p: Policy) returns (k: Take)
    requires p.late >= 0.0
    ensures Scene(k, t, p, 0.0, Quiet(5000.0), First(t))
  {
    var me := MeBody("person", "csrf", Number(1000.0), NotNumber);
    var a := Action(Open(t, me, true), true, true);
    var start := Init(0.0);
    assert Loaded(me) == Authenticated(Session("person", "csrf", 1000.0, 0.0));
    assert Tick(t, Quiet(5000.0), None, Env(0.0, true, true)) == Local(Quiet(5000.0), First(t), None, Led(true));
    k := Take([start, Next(start, a)], [a]);
    OpenNext(start, a);
  }

  /** A heartbeat whose write fails: `t` leads on, and its lease stays as old as it was. */
  lemma BeatsUnwritten(k: Take, t: TabId, p: Policy, now: real) returns (next: Take)
    requires Scene(k, t, p, now, Quiet(now), First(t)) && !p.writes && p.late >= 0.0
    ensures Scene(next, t, p, now, Quiet(now + 5000.0), First(t))
  {
    assert Tick(t, Quiet(now + 5000.0), First(t), Env(now, true, false))
           == Local(Quiet(now + 5000.0), First(t), None, Led(false));
    next := Plays(k, t, p, now, Quiet(now), First(t), Action(Heartbeat(t), true, false));
  }

  /** The run ends with the lease in the hands of a tab that has just opened, while `t` runs. */
  ghost predicate Stolen(k: Take, t: TabId, thief: TabId, p: Policy) {
    && Played(k, t, p) && t != thief
    && var w := Last(k);
       && w.lease == Some(Lease(thief, w.now)) && t in w.tabs && !w.tabs[t].stopped
  }

  lemma Steals(k: Take, t: TabId, thief: TabId, p: Policy, now: real, tab: Tab, lease: Option<Lease>, canRead: bool)
    returns (next: Take)
    requires Scene(k, t, p, now, tab, lease) && t != thief && (canRead || !p.othersRead)
    requires MayLead(thief, lease, Env(now, canRead, true))
    requires !tab.stopped && now <= tab.nextBeat + p.late && (!tab.phase.Idle? ==> now < tab.phase.since + p.limit)
    ensures Stolen(next, t, thief, p) && next.acts[..|next.acts| - 1] == k.acts
  {
    var me := MeBody("person", "csrf", Number(1000.0), Number(5.0));
    var a := Action(Open(thief, me, true), canRead, true);
    OpenNext(Last(k), a);
    hide Played, MayLead;
    assert Next(Last(k), a).tabs[t] == tab;
    next := Extend(k, a, t, p);
  }

  // ---- the ways to lose the lease ----

  /** A POST that is still in flight at the third heartbeat after it began lets the lease go stale.
      Any limit beyond REQUEST_TIMEOUT_MS admits one, as one that runs until its abort is. */
  lemma HungPostLosesLease(t: TabId, thief: TabId, p: Policy) returns (k: Take)
    requires t != thief && p.limit > REQUEST_TIMEOUT_MS && p.late >= 0.0
    ensures Stolen(k, t, thief, p)
  {
    hide Scene, Stolen;
    k := Opens(t, p);
    k := Waits(k, t, p, 0.0, Armed(5000.0, 0, 5000.0), First(t), 5000.0);
    k := Fires(k, t, p, 5000.0, 5000.0, 0, 5000.0, First(t));
    k := Skips(k, t, p, 5000.0, 5000.0, 1, 5000.0, First(t));
    k := Waits(k, t, p, 5000.0, Busy(10000.0, 1, 5000.0), First(t), 5000.0);
    k := Skips(k, t, p, 10000.0, 10000.0, 1, 5000.0, First(t));
    k := Waits(k, t, p, 10000.0, Busy(15000.0, 1, 5000.0), First(t), 5000.0);
    k := Skips(k, t, p, 15000.0, 15000.0, 1, 5000.0, First(t));
    k := Settles(k, t, p, 15000.0, 20000.0, 1, 5000.0, First(t), NetworkError, RETRY_MS);
    k := Waits(k, t, p, 15000.0, Armed(20000.0, 1, 30000.0), First(t), 1.0);
    k := Steals(k, t, thief, p, 15001.0, Armed(20000.0, 1, 30000.0), First(t), true);
  }

  /** The first half of the next run: a POST over two heartbeats, and a retry that begins on time. */
  lemma RetriesBetweenBeats(t: TabId, p: Policy, s: real) returns (k: Take)
    requires 0.0 < s <= 5.0 && p.gap < s * 1000.0 && p.limit > HEARTBEAT_MS
    requires p.late >= 0.0
    ensures var again := 10000.0 + s * 1000.0;
            Scene(k, t, p, again, Busy(15000.0, 2, again), First(t))
  {
    hide Scene;
    k := Opens(t, p);
    k := Waits(k, t, p, 0.0, Armed(5000.0, 0, 5000.0), First(t), 5000.0);
    k := Fires(k, t, p, 5000.0, 5000.0, 0, 5000.0, First(t));
    k := Skips(k, t, p, 5000.0, 5000.0, 1, 5000.0, First(t));
    k := Waits(k, t, p, 5000.0, Busy(10000.0, 1, 5000.0), First(t), 5000.0);
    k := Skips(k, t, p, 10000.0, 10000.0, 1, 5000.0, First(t));
    k := Settles(k, t, p, 10000.0, 15000.0, 1, 5000.0, First(t), Status(429, Seconds(s)), s * 1000.0);
    k := Waits(k, t, p, 10000.0, Armed(15000.0, 1, 10000.0 + s * 1000.0), First(t), s * 1000.0);
    k := Fires(k, t, p, 10000.0 + s * 1000.0, 15000.0, 1, 10000.0 + s * 1000.0, First(t));
  }

  /** So does a 429 with any Retry-After of up to five seconds, on a POST of five seconds: the retry
      begins before the heartbeat that would have renewed the lease. */
  lemma ShortRetryAfterLosesLease(t: TabId, thief: TabId, p: Policy, s: real) returns (k: Take)
    requires t != thief && 0.0 < s <= 5.0 && p.gap < s * 1000.0 && p.limit > HEARTBEAT_MS
    requires p.late >= 0.0
    ensures Stolen(k, t, thief, p)
  {
    var again, wait := 10000.0 + s * 1000.0, s * 1000.0;
    k := RetriesBetweenBeats(t, p, s);
    hide Scene, Stolen;
    if s < 5.0 { k := Waits(k, t, p, again, Busy(15000.0, 2, again), First(t), 15000.0 - again); }
    k := Skips(k, t, p, 15000.0, 15000.0, 2, again, First(t));
    k := Settles(k, t, p, 15000.0, 20000.0, 2, again, First(t), Status(429, Seconds(s)), wait);
    k := WaitsOne(k, t, p, Armed(20000.0, 2, 15000.0 + wait), First(t));
    k := Steals(k, t, thief, p, 15001.0, Armed(20000.0, 2, 15000.0 + wait), First(t), true);
  }

  lemma WaitsOne(k: Take, t: TabId, p: Policy, tab: Tab, lease: Option<Lease>) returns (next: Take)
    requires Scene(k, t, p, 15000.0, tab, lease) && !tab.stopped && tab.phase.Idle?
    requires tab.nextBeat >= 15001.0 && p.late >= 0.0
    ensures Scene(next, t, p, 15001.0, tab, lease)
  {
    next := Waits(k, t, p, 15000.0, tab, lease, 1.0);
  }

  /** One round of the next run: a POST that begins just before a heartbeat and is answered just
      after it, with a Retry-After that leads up to the next heartbeat. */
  lemma RoundSkipsBeat(k: Take, t: TabId, p: Policy, due: real, id: nat, timer: real) returns (next: Take)
    requires Scene(k, t, p, due + p.late, Armed(due, id, timer), First(t)) && p.late >= 0.0 && timer <= due + p.late
    requires p.gap < HEARTBEAT_MS + p.late && p.limit > 0.0
    ensures var beat := due + p.late + 5000.0;
            Scene(next, t, p, beat + p.late, Armed(beat, id + 1, beat + p.late), First(t))
  {
    hide Scene;
    var now, wait := due + p.late, 5000.0 + p.late;
    next := Fires(k, t, p, now, due, id, timer, First(t));
    next := Skips(next, t, p, now, due, id + 1, now, First(t));
    assert wait == wait / 1000.0 * 1000.0;
    next := Settles(next, t, p, now, now + 5000.0, id + 1, now, First(t), Status(429, Seconds(wait / 1000.0)), wait);
    next := Waits(next, t, p, now, Armed(now + 5000.0, id + 1, now + wait), First(t), wait);
  }

  /** So does a Retry-After no longer than the time to the next heartbeat, however short the POSTs
      are: each begins just before a heartbeat. Without lateness that is one of up to five seconds. */
  lemma BeatLongRetryAfterLosesLease(t: TabId, thief: TabId, p: Policy) returns (k: Take)
    requires t != thief && p.gap < HEARTBEAT_MS + p.late && p.limit > 0.0 && p.late >= 0.0
    ensures Stolen(k, t, thief, p)
  {
    hide Scene, Stolen;
    var late := p.late;
    k := Opens(t, p);
    k := Waits(k, t, p, 0.0, Armed(5000.0, 0, 5000.0), First(t), 5000.0 + late);
    k := RoundSkipsBeat(k, t, p, 5000.0, 0, 5000.0);
    k := RoundSkipsBeat(k, t, p, 10000.0 + late, 1, 10000.0 + 2.0 * late);
    k := RoundSkipsBeat(k, t, p, 15000.0 + 2.0 * late, 2, 15000.0 + 3.0 * late);
    var beat := 20000.0 + 3.0 * late;
    k := Steals(k, t, thief, p, beat + late, Armed(beat, 3, beat + late), First(t), true);
  }

  /** A heartbeat more than ten seconds late lets the lease go stale, refreshes or none. */
  lemma LateBeatLosesLease(t: TabId, thief: TabId, p: Policy) returns (k: Take)
    requires t != thief && p.late > LEASE_TTL_MS - HEARTBEAT_MS
    ensures Stolen(k, t, thief, p)
  {
    hide Scene, Stolen;
    k := OpensQuiet(t, p);
    k := Waits(k, t, p, 0.0, Quiet(5000.0), First(t), 5000.0 + p.late);
    k := Steals(k, t, thief, p, 5000.0 + p.late, Quiet(5000.0), First(t), true);
  }

  /** A late heartbeat that finds a POST of any length in flight, and a next one as late: together
      they are too late from two and a half seconds on. */
  lemma TwoLateBeatsLoseLease(t: TabId, thief: TabId, p: Policy) returns (k: Take)
    requires t != thief && 2.0 * p.late > HEARTBEAT_MS && p.limit > 0.0
    ensures Stolen(k, t, thief, p)
  {
    hide Scene, Stolen;
    var beat := 5000.0 + p.late;
    k := Opens(t, p);
    k := Waits(k, t, p, 0.0, Armed(5000.0, 0, 5000.0), First(t), beat);
    k := Fires(k, t, p, beat, 5000.0, 0, 5000.0, First(t));
    k := Skips(k, t, p, beat, 5000.0, 1, beat, First(t));
    var armed := Armed(beat + 5000.0, 1, beat + RETRY_MS);
    k := Settles(k, t, p, beat, beat + 5000.0, 1, beat, First(t), NetworkError, RETRY_MS);
    k := Waits(k, t, p, beat, armed, First(t), 5000.0 + p.late);
    k := Steals(k, t, thief, p, beat + 5000.0 + p.late, armed, First(t), true);
  }

  /** A POST that outlasts two heartbeats leaves no slack at all: if the first of them is late by
      however little, the third comes when the lease is stale. */
  lemma LateBeatInLongPostLosesLease(t: TabId, thief: TabId, p: Policy) returns (k: Take)
    requires t != thief && p.late > 0.0 && p.limit > HEARTBEAT_MS
    ensures Stolen(k, t, thief, p)
  {
    hide Scene, Stolen;
    var beat := 5000.0 + p.late;
    k := Opens(t, p);
    k := Waits(k, t, p, 0.0, Armed(5000.0, 0, 5000.0), First(t), beat);
    k := Fires(k, t, p, beat, 5000.0, 0, 5000.0, First(t));
    k := Skips(k, t, p, beat, 5000.0, 1, beat, First(t));
    k := Waits(k, t, p, beat, Busy(beat + 5000.0, 1, beat), First(t), 5000.0);
    k := Skips(k, t, p, beat + 5000.0, beat + 5000.0, 1, beat, First(t));
    var armed := Armed(beat + 10000.0, 1, beat + 5000.0 + RETRY_MS);
    k := Settles(k, t, p, beat + 5000.0, beat + 10000.0, 1, beat, First(t), NetworkError, RETRY_MS);
    k := Waits(k, t, p, beat + 5000.0, armed, First(t), 5000.0);
    k := Steals(k, t, thief, p, beat + 10000.0, armed, First(t), true);
  }

  /** A leader that cannot write its lease lets it go stale by beating. */
  lemma UnwrittenBeatsLoseLease(t: TabId, thief: TabId, p: Policy) returns (k: Take)
    requires t != thief && !p.writes && p.late >= 0.0
    ensures Stolen(k, t, thief, p)
  {
    hide Scene, Stolen;
    k := OpensQuiet(t, p);
    k := Waits(k, t, p, 0.0, Quiet(5000.0), First(t), 5000.0);
    k := BeatsUnwritten(k, t, p, 5000.0);
    k := Waits(k, t, p, 5000.0, Quiet(10000.0), First(t), 5000.0);
    k := BeatsUnwritten(k, t, p, 10000.0);
    k := Waits(k, t, p, 10000.0, Quiet(15000.0), First(t), 5000.0);
    k := BeatsUnwritten(k, t, p, 15000.0);
    k := WaitsOne(k, t, p, Quiet(20000.0), First(t));
    k := Steals(k, t, thief, p, 15001.0, Quiet(20000.0), First(t), true);
  }

  /** A tab that writes without being able to read takes any lease at once. */
  lemma BlindTabTakesLease(t: TabId, thief: TabId, p: Policy) returns (k: Take)
    requires t != thief && !p.othersRead && p.late >= 0.0
    ensures Stolen(k, t, thief, p)
  {
    k := OpensQuiet(t, p);
    k := Steals(k, t, thief, p, 0.0, Quiet(5000.0), First(t), false);
  }

  /** A page that is hidden gives its lease away although its driver runs on. */
  lemma HiddenPageLosesLease(t: TabId, thief: TabId, p: Policy) returns (k: Take)
    requires t != thief && !p.stays && p.late >= 0.0
    ensures Stolen(k, t, thief, p)
  {
    k := OpensQuiet(t, p);
    k := Plays(k, t, p, 0.0, Quiet(5000.0), First(t), Action(PageHide(t), true, true));
    k := Steals(k, t, thief, p, 0.0, Quiet(5000.0), None, true);
  }

  // ---- the exact conditions ----

  /** In every run that follows the policy from a renewal on, the lease stays the leader's and fresh. */
  ghost predicate KeepsLease(p: Policy) {
    forall ws, acts, i, j, t ::
      IsRunFromStart(ws, acts) && 0 <= i <= j < |ws| && JustRenewed(ws[i], t) && PunctualRun(ws, acts, i, j, t, p) ==>
        Holds(ws[j], t)
  }

  lemma StolenIsNotKept(k: Take, t: TabId, thief: TabId, p: Policy)
    requires Stolen(k, t, thief, p)
    ensures !KeepsLease(p)
  {
    assert !Holds(Last(k), t);
  }

  /** A run that loses the lease under any policy that does not ask for enough. */
  lemma SomeRunLosesLease(t: TabId, thief: TabId, p: Policy) returns (k: Take)
    requires t != thief && p.late >= 0.0 && !Enough(p)
    ensures Stolen(k, t, thief, p)
  {
    if !p.writes { k := UnwrittenBeatsLoseLease(t, thief, p); }
    else if !p.othersRead { k := BlindTabTakesLease(t, thief, p); }
    else if !p.stays { k := HiddenPageLosesLease(t, thief, p); }
    else if p.limit > REQUEST_TIMEOUT_MS { k := HungPostLosesLease(t, thief, p); }
    else if p.limit <= 0.0 { k := LateBeatLosesLease(t, thief, p); }
    else if 2.0 * p.late > HEARTBEAT_MS { k := TwoLateBeatsLoseLease(t, thief, p); }
    else if p.late > 0.0 && p.limit > HEARTBEAT_MS { k := LateBeatInLongPostLosesLease(t, thief, p); }
    else { k := BeatLongRetryAfterLosesLease(t, thief, p); }
  }

  /** A policy keeps the lease with the leader in every run exactly if it asks for all of this: the
      leader can write, nobody writes blindly, the leader gets no pagehide, and one of three: there
      are no refreshes and beats are at most ten seconds late; refreshes take at most HEARTBEAT_MS,
      beats are at most 2.5 seconds late and every Retry-After outlasts the next beat; or refreshes
      take at most REQUEST_TIMEOUT_MS, beats are not late at all and again. */
  lemma KeepsLeaseExactly(p: Policy)
    requires p.late >= 0.0
    ensures KeepsLease(p) <==>
              && p.writes && p.othersRead && p.stays
              && (|| (p.limit <= 0.0 && p.late <= 10000.0)
                  || (0.0 < p.limit <= 5000.0 && p.late <= 2500.0 && p.gap >= 5000.0 + p.late)
                  || (5000.0 < p.limit <= 10000.0 && p.late == 0.0 && p.gap >= 5000.0))
  {
    if Enough(p) {
      forall ws, acts, i, j, t
        | IsRunFromStart(ws, acts) && 0 <= i <= j < |ws| && JustRenewed(ws[i], t) && PunctualRun(ws, acts, i, j, t, p)
        ensures Holds(ws[j], t)
      {
        LeaderKeepsLease(ws, acts, i, j, t, p, t, true);
      }
    } else {
      var k := SomeRunLosesLease("a", "b", p);
      StolenIsNotKept(k, "a", "b", p);
    }
  }

  /** The bound on the lease's age is met: in a run that follows the source's own limits the lease
      is LEASE_TTL_MS old, to the millisecond, and still the leader's. */
  lemma BoundIsTight(t: TabId) returns (k: Take)
    ensures var p := Policy(REQUEST_TIMEOUT_MS, HEARTBEAT_MS, 0.0, true, true, true);
            Enough(p) && Played(k, t, p) && Holds(Last(k), t) && Last(k).now - Last(k).lease.value.ts == LEASE_TTL_MS
  {
    var p := Policy(REQUEST_TIMEOUT_MS, HEARTBEAT_MS, 0.0, true, true, true);
    k := Opens(t, p);
    k := Waits(k, t, p, 0.0, Armed(5000.0, 0, 5000.0), First(t), 5000.0);
    k := Fires(k, t, p, 5000.0, 5000.0, 0, 5000.0, First(t));
    k := Skips(k, t, p, 5000.0, 5000.0, 1, 5000.0, First(t));
    k := Waits(k, t, p, 5000.0, Busy(10000.0, 1, 5000.0), First(t), 5000.0);
    k := Skips(k, t, p, 10000.0, 10000.0, 1, 5000.0, First(t));
    k := Waits(k, t, p, 10000.0, Busy(15000.0, 1, 5000.0), First(t), 4999.0);
    k := Settles(k, t, p, 14999.0, 15000.0, 1, 5000.0, First(t), NetworkError, RETRY_MS);
    k := Waits(k, t, p, 14999.0, Armed(15000.0, 1, 29999.0), First(t), 1.0);
  }
}
