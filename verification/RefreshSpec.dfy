/** What each entry point of the driver does to its tab and to the shared lease, as functions
    on values. `RefreshDriver` is proved against them and `RefreshRuns` reasons about them. */
module RefreshSpec {
  import opened Common
  import opened RefreshTypes

  function MaxReal(a: real, b: real): real { if a < b then b else a }

  // ---- auth/session.ts ----

  function UnixSeconds(value: Wire): real {
    if value.Number? && value.n > 0.0 then value.n else 0.0
  }

  /** The snapshot `loadSession` leaves in the store. */
  function Loaded(reply: MeReply): Snapshot {
    match reply
    case MeError => Unauthenticated
    case MeRefused => Unauthenticated
    case MeBody(identity, csrfToken, expiresAt, refreshAt) =>
      if csrfToken == "" then Unauthenticated
      else Authenticated(Session(identity, csrfToken, UnixSeconds(expiresAt), UnixSeconds(refreshAt)))
  }

  // ---- the lease ----

  function ReadLease(lease: Option<Lease>, env: Env): Option<Lease> {
    if env.canRead then lease else None
  }

  predicate MayLead(id: TabId, lease: Option<Lease>, env: Env) {
    var seen := ReadLease(lease, env);
    !(seen.Some? && seen.value.id != id && env.now - seen.value.ts <= LEASE_TTL_MS)
  }

  function LeaseAfterLead(id: TabId, lease: Option<Lease>, env: Env): Option<Lease> {
    if MayLead(id, lease, env) && env.canWrite then Some(Lease(id, env.now)) else lease
  }

  function LeaseAfterRelease(id: TabId, lease: Option<Lease>, env: Env): Option<Lease> {
    var seen := ReadLease(lease, env);
    if seen.Some? && seen.value.id == id && env.canWrite then None else lease
  }

  // ---- timers ----

  function ClearTimer(tab: Tab): Tab {
    if tab.timer.Some? then tab.(timer := None, timeouts := tab.timeouts - {tab.timer.value}) else tab
  }

  function Arm(tab: Tab, due: real): Tab {
    tab.(timer := Some(tab.nextId), timeouts := tab.timeouts[tab.nextId := due], nextId := tab.nextId + 1)
  }

  function RetryIn(tab: Tab, now: real, delay: real): Tab {
    var quiet := tab.(refreshing := false);
    if tab.stopped then quiet else Arm(ClearTimer(quiet), now + delay)
  }

  function RetryAfterMs(header: RetryAfter): Option<real> {
    if header.Seconds? && header.s > 0.0 then Some(header.s * 1000.0) else None
  }

  // ---- the driver's entry points ----

  function Tick(id: TabId, tab: Tab, lease: Option<Lease>, env: Env): Local {
    if tab.stopped || tab.refreshing then Local(tab, lease, None, NoBeat)
    else if !MayLead(id, lease, env) then Local(ClearTimer(tab), lease, None, Followed)
    else
      var led := LeaseAfterLead(id, lease, env);
      var armed :=
        if !tab.auth.Authenticated? || tab.auth.session.refreshAt <= 0.0 || tab.timer.Some? then tab
        else Arm(tab, env.now + MaxReal(0.0, tab.auth.session.refreshAt * 1000.0 - env.now));
      Local(armed, led, None, Led(env.canWrite))
  }

  function Stop(id: TabId, tab: Tab, lease: Option<Lease>, env: Env): Local {
    if tab.stopped then Local(tab, lease, None, NoBeat)
    else
      Local(ClearTimer(tab).(stopped := true, beating := false, wired := false),
            LeaseAfterRelease(id, lease, env), None, NoBeat)
  }

  /** Writes the store; a running driver listens for `Unauthenticated` and stops itself. */
  function SetAuth(id: TabId, tab: Tab, snapshot: Snapshot, lease: Option<Lease>, env: Env): (l: Local)
    ensures l.tab.auth == snapshot && l.post == None && l.beat == NoBeat
  {
    if snapshot.Unauthenticated? && !tab.auth.Unauthenticated?
    then Stop(id, tab.(auth := snapshot), lease, env)
    else Local(tab.(auth := snapshot), lease, None, NoBeat)
  }

  function SignIn(tab: Tab): Tab {
    if tab.redirecting then tab else tab.(redirecting := true, navigations := tab.navigations + 1)
  }

  function Expire(id: TabId, tab: Tab, lease: Option<Lease>, env: Env): Local {
    var halted := Stop(id, tab, lease, env);
    var cleared := SetAuth(id, halted.tab, Unauthenticated, halted.lease, env);
    Local(SignIn(cleared.tab), cleared.lease, None, NoBeat)
  }

  function Broadcast(tab: Tab, message: Message, env: Env): Option<Post> {
    if tab.wired || env.canWrite then Some(Post(message, tab.wired)) else None
  }

  function Apply(tab: Tab, expiresAt: real, refreshAt: real): Tab {
    if tab.auth.Authenticated?
    then tab.(auth := Authenticated(tab.auth.session.(expiresAt := expiresAt, refreshAt := refreshAt)))
    else tab
  }

  function BeginRefresh(tab: Tab, now: real): Tab {
    if tab.stopped || tab.refreshing then tab else tab.(refreshing := true, phase := Posting(now))
  }

  /** Timeout `k` goes off: its callback forgets the timer field and starts a refresh. */
  function Fire(tab: Tab, k: nat, now: real): Tab {
    BeginRefresh(tab.(timeouts := tab.timeouts - {k}, timer := None), now)
  }

  function PostSettles(id: TabId, tab: Tab, reply: PostReply, lease: Option<Lease>, env: Env): Local
    requires tab.phase.Posting?
  {
    var done := tab.(phase := Idle);
    if reply.NetworkError? then Local(RetryIn(done, env.now, RETRY_MS), lease, None, NoBeat)
    else if tab.stopped then Local(done, lease, None, NoBeat)
    else if reply.code == 401 then
      Expire(id, done, lease, env).(post := Broadcast(done, Expired, env))
    else if reply.code == 429 then
      var hint := RetryAfterMs(reply.retryAfter);
      Local(RetryIn(done, env.now, if hint.Some? then hint.value else RATE_LIMIT_RETRY_MS), lease, None, NoBeat)
    else if reply.code == 403 then
      Local(tab.(phase := Probing(tab.phase.since)), lease, None, NoBeat)
    else if !(200 <= reply.code < 300) then
      Local(RetryIn(done, env.now, RETRY_MS), lease, None, NoBeat)
    else
      Local(tab.(phase := Reading(tab.phase.since)), lease, None, NoBeat)
  }

  function ProbeSettles(id: TabId, tab: Tab, reply: MeReply, lease: Option<Lease>, env: Env): Local
    requires tab.phase.Probing?
  {
    var probed := SetAuth(id, tab.(phase := Idle), Loaded(reply), lease, env);
    if !Loaded(reply).Authenticated? then
      Expire(id, probed.tab, probed.lease, env).(post := Broadcast(probed.tab, Expired, env))
    else
      var refreshAt := Loaded(reply).session.refreshAt;
      if refreshAt <= 0.0 then probed.(tab := probed.tab.(refreshing := false))
      else probed.(tab := RetryIn(probed.tab, env.now, MaxReal(RETRY_MS, refreshAt * 1000.0 - env.now)))
  }

  function BodySettles(id: TabId, tab: Tab, reply: BodyReply, lease: Option<Lease>, env: Env): Local
    requires tab.phase.Reading?
  {
    var done := tab.(phase := Idle);
    if reply.BodyError? || reply.expiresAt.NotNumber? || reply.refreshAt.NotNumber? then
      Local(RetryIn(done, env.now, RETRY_MS), lease, None, NoBeat)
    else
      var folded := Apply(done, reply.expiresAt.n, reply.refreshAt.n);
      Tick(id, folded.(refreshing := false), lease, env)
        .(post := Broadcast(folded, Refreshed(reply.expiresAt.n, reply.refreshAt.n), env))
  }

  /** The explicit, well-formed message in `raw`, if there is one. */
  function Understood(raw: Raw): Option<Message> {
    if raw.NotObject? then None
    else if raw.kind == "refreshed" && raw.expiresAt.Number? && raw.refreshAt.Number?
    then Some(Refreshed(raw.expiresAt.n, raw.refreshAt.n))
    else if raw.kind == "expired" then Some(Expired)
    else None
  }

  function Encoded(message: Message): Raw {
    match message
    case Refreshed(e, r) => Object("refreshed", Number(e), Number(r))
    case Expired => Object("expired", NotNumber, NotNumber)
  }

  function OnMessage(id: TabId, tab: Tab, raw: Raw, lease: Option<Lease>, env: Env): Local {
    if tab.stopped || Understood(raw).None? then Local(tab, lease, None, NoBeat)
    else
      match Understood(raw).value
      case Refreshed(e, r) => Tick(id, ClearTimer(Apply(tab, e, r)), lease, env)
      case Expired => Expire(id, tab, lease, env)
  }

  /** A page that loaded an authenticated session, with a driver built and not yet started. */
  function Booted(session: Session, wired: bool, now: real): Tab {
    Tab(Authenticated(session), wired, true, now + HEARTBEAT_MS, None, map[], 0, false, Idle, false, false, 0)
  }
}
