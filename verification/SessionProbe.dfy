/** src/frontend/src/api/fetch-with-auth.ts and auth/use-auth.ts: one probe answers every 401 in
    flight. A probe runs in the steps its promise chain has: `loadSession` writes the store, then
    `then` judges, then `finally` clears the way and releases whoever waits. */
module SessionProbe {
  import opened Common
  import opened RefreshTypes
  import Session = RefreshSpec

  const CONFIRMED_FOR_MS: real := 5000.0

  datatype Phase = Asking | Answered(live: bool) | Judged

  datatype Status = Unknown | SignedIn | SignedOut

  /** One page. `pending` holds every probe that has not run to its end, whatever `sessionProbe`
      says; `navigations` and `restores` count what happened. */
  datatype State = State(
    now: real,
    status: Status,
    sessionProbe: Option<nat>,
    pending: map<nat, Phase>,
    nextProbe: nat,
    confirmedAt: real,
    waiting: map<nat, nat>,
    returned: set<nat>,
    redirecting: bool,
    navigations: nat,
    restores: nat)

  datatype Event =
    | Advance(d: real)
    | Got401(caller: nat)
    | MeAnswers(probe: nat, reply: MeReply)
    | ThenRuns(probe: nat)
    | FinallyRuns(probe: nat)
    | StoreWritten(status: Status)
    | SignInCalled
    | Restored

  function Init(now: real): State {
    State(now, SignedIn, None, map[], 0, 0.0, map[], {}, false, 0, 0)
  }

  predicate Enabled(s: State, e: Event) {
    match e
    case Advance(d) => d > 0.0
    case Got401(caller) => caller !in s.waiting && caller !in s.returned
    case MeAnswers(p, _) => p in s.pending && s.pending[p].Asking?
    case ThenRuns(p) => p in s.pending && s.pending[p].Answered?
    case FinallyRuns(p) => p in s.pending && s.pending[p].Judged?
    case StoreWritten(_) => true
    case SignInCalled => true
    case Restored => true
  }

  function SignIn(s: State): State {
    if s.redirecting then s else s.(redirecting := true, navigations := s.navigations + 1)
  }

  predicate Confirmed(s: State) {
    s.now - s.confirmedAt < CONFIRMED_FOR_MS
  }

  function Bounce(s: State, caller: nat): State {
    if s.status.SignedOut? then SignIn(s).(returned := s.returned + {caller})
    else if Confirmed(s) then s.(returned := s.returned + {caller})
    else if s.sessionProbe.Some? then s.(waiting := s.waiting[caller := s.sessionProbe.value])
    else
      s.(sessionProbe := Some(s.nextProbe), pending := s.pending[s.nextProbe := Asking],
         nextProbe := s.nextProbe + 1, waiting := s.waiting[caller := s.nextProbe])
  }

  function WaitersOf(s: State, p: nat): set<nat> {
    set c | c in s.waiting && s.waiting[c] == p
  }

  function Next(s: State, e: Event): State
    requires Enabled(s, e)
  {
    match e
    case Advance(d) => s.(now := s.now + d)
    case Got401(caller) => Bounce(s, caller)
    case MeAnswers(p, reply) =>
      var live := Session.Loaded(reply).Authenticated?;
      s.(status := if live then SignedIn else SignedOut, pending := s.pending[p := Answered(live)])
    case ThenRuns(p) =>
      var judged := s.(pending := s.pending[p := Judged]);
      if s.pending[p].live then judged.(confirmedAt := s.now) else SignIn(judged)
    case FinallyRuns(p) =>
      s.(pending := s.pending - {p}, sessionProbe := if s.sessionProbe == Some(p) then None else s.sessionProbe,
         waiting := s.waiting - WaitersOf(s, p), returned := s.returned + WaitersOf(s, p))
    case StoreWritten(status) => s.(status := status)
    case SignInCalled => SignIn(s)
    case Restored => s.(redirecting := false, restores := s.restores + 1)
  }

  /** `safeReturnTo`: always a path of this site, never `/auth` itself nor one below `/auth/`, and
      otherwise the one asked for, `/auth?x` included. */
  function SafeReturnTo(path: string): (r: string)
    ensures r != "" && r[0] == '/' && !("//" <= r) && !("/auth/" <= r) && r != "/auth"
    ensures path != "" && path[0] == '/' && !("//" <= path) && !("/auth/" <= path) && path != "/auth" ==> r == path
    ensures r == path || r == "/"
  {
    if !("/" <= path) || "//" <= path then "/"
    else if "/auth/" <= path || path == "/auth" then "/" else path
  }

  /** The page's module variables and the steps that update them. */
  class Page {
    var now: real
    var status: Status
    var sessionProbe: Option<nat>
    var pending: map<nat, Phase>
    var nextProbe: nat
    var confirmedAt: real
    var waiting: map<nat, nat>
    var returned: set<nat>
    var redirecting: bool
    var navigations: nat
    var restores: nat

    constructor (now: real)
      ensures View() == Init(now)
    {
      this.now, status, sessionProbe, pending, nextProbe := now, SignedIn, None, map[], 0;
      confirmedAt, waiting, returned := 0.0, map[], {};
      redirecting, navigations, restores := false, 0, 0;
    }

    function View(): State
      reads this
    {
      State(now, status, sessionProbe, pending, nextProbe, confirmedAt, waiting, returned, redirecting,
          navigations, restores)
    }

    method SignInNow()
      modifies this`redirecting, this`navigations
      ensures View() == SignIn(old(View()))
    {
      if redirecting { return; }
      redirecting := true;
      navigations := navigations + 1;
    }

    /** `bounceIfSessionEnded` up to its await. */
    method BounceIfSessionEnded(caller: nat)
      modifies this
      ensures View() == Bounce(old(View()), caller)
    {
      if status.SignedOut? {
        SignInNow();
        returned := returned + {caller};
        return;
      }
      if now - confirmedAt < CONFIRMED_FOR_MS {
        returned := returned + {caller};
        return;
      }
      if sessionProbe.None? {
        sessionProbe := Some(nextProbe);
        pending := pending[nextProbe := Asking];
        nextProbe := nextProbe + 1;
      }
      var mine := sessionProbe.value;
      waiting := waiting[caller := mine];
    }

    /** The `then` of the chain: `loadSession` has written the store by now. */
    method Judge(mine: nat)
      requires Enabled(View(), ThenRuns(mine))
      modifies this
      ensures View() == Next(old(View()), ThenRuns(mine))
    {
      var live := pending[mine].live;
      pending := pending[mine := Judged];
      if !live { SignInNow(); } else { confirmedAt := now; }
    }

    /** The `finally` of the chain, and the callers that awaited it. */
    method Settle(mine: nat)
      requires Enabled(View(), FinallyRuns(mine))
      modifies this
      ensures View() == Next(old(View()), FinallyRuns(mine))
    {
      pending := pending - {mine};
      if sessionProbe == Some(mine) { sessionProbe := None; }
      var freed := set c | c in waiting && waiting[c] == mine;
      waiting := waiting - freed;
      returned := returned + freed;
    }
  }
}
