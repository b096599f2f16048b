/** The data the session-refresh driver works on: src/frontend/src/auth. Times are
    milliseconds and server timestamps unix seconds, both as `real`. */
module RefreshTypes {
  import opened Common

  const LEASE_TTL_MS: real := 15000.0
  const HEARTBEAT_MS: real := 5000.0
  const RETRY_MS: real := 15000.0
  const RATE_LIMIT_RETRY_MS: real := 10000.0
  const REQUEST_TIMEOUT_MS: real := 10000.0

  type TabId = string

  /** The fields of a session the driver reads or must keep; `identity` stands for the rest. */
  datatype Session = Session(identity: string, csrfToken: string, expiresAt: real, refreshAt: real)

  datatype Snapshot = Loading | Authenticated(session: Session) | Unauthenticated

  /** A value off the wire, as far as `typeof value === "number"` looks into it. */
  datatype Wire = Number(n: real) | NotNumber

  /** What another tab may put on the channel: anything at all. */
  datatype Raw = NotObject | Object(kind: string, expiresAt: Wire, refreshAt: Wire)

  datatype Message = Refreshed(expiresAt: real, refreshAt: real) | Expired

  /** One fan-out, over BroadcastChannel or through a localStorage write. */
  datatype Post = Post(message: Message, viaChannel: bool)

  datatype Lease = Lease(id: TabId, ts: real)

  /** How `POST /auth/refresh` settled, up to its headers. */
  datatype PostReply = NetworkError | Status(code: nat, retryAfter: RetryAfter)

  /** `Number(raw)` of the header: absent or empty, not finite, or seconds. */
  datatype RetryAfter = NoHeader | NotFinite | Seconds(s: real)

  /** How reading the body settled; a `null` body throws like a broken one. */
  datatype BodyReply = BodyError | Body(expiresAt: Wire, refreshAt: Wire)

  /** How `GET /auth/me` settled: unreachable or unreadable, refused, or answered. */
  datatype MeReply = MeError | MeRefused | MeBody(identity: string, csrfToken: string, expiresAt: Wire, refreshAt: Wire)

  /** Where the suspended `refresh()` call is, and since when its request has been running. */
  datatype Phase = Idle | Posting(since: real) | Probing(since: real) | Reading(since: real)

  /** The moment and the mood of localStorage while one step runs. */
  datatype Env = Env(now: real, canRead: bool, canWrite: bool)

  /** One browser tab: its auth store, its driver and the timeouts its page really holds. */
  datatype Tab = Tab(
    auth: Snapshot,
    wired: bool,
    beating: bool,
    nextBeat: real,
    timer: Option<nat>,
    timeouts: map<nat, real>,
    nextId: nat,
    refreshing: bool,
    phase: Phase,
    stopped: bool,
    redirecting: bool,
    navigations: nat)

  /** What one beat did about the lease. */
  datatype Beat = NoBeat | Followed | Led(wrote: bool)

  /** The outcome of one step of one tab. */
  datatype Local = Local(tab: Tab, lease: Option<Lease>, post: Option<Post>, beat: Beat)
}
