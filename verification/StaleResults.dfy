/** A refresh that is in flight when its driver stops: what its result still does. */
module StaleResults {
  import opened Common
  import opened RefreshTypes
  import opened RefreshSpec
  import opened RefreshRuns
  import opened RefreshSafety
  import opened RefreshTiming
  import opened LeaseLoss

  /** An await of `t`'s refresh settles. */
  predicate Settles(e: Event, t: TabId) {
    (e.PostSettled? || e.ProbeSettled? || e.BodySettled?) && e.t == t
  }

  /** The step tells nobody anything and leaves its tab's store alone. */
  predicate Silent(w: World, a: Action)
    requires Enabled(w, a.event) && !a.event.Advance? && !a.event.Open?
  {
    LocalStep(w, a).post == None && LocalStep(w, a).tab.auth == w.tabs[a.event.t].auth
  }

  /** In every run from here, whatever comes back to `t`'s refresh is neither applied nor fanned out. */
  ghost predicate StaysSilent(w: World, t: TabId) {
    forall ws, acts: seq<Action>, i :: IsRun(ws, acts) && ws[0] == w && 0 <= i < |acts| && Settles(acts[i].event, t) ==>
                            Enabled(ws[i], acts[i].event) && Silent(ws[i], acts[i])
  }

  predicate StoppedInPost(w: World, t: TabId) {
    t in w.tabs && w.tabs[t].stopped && (w.tabs[t].phase.Idle? || w.tabs[t].phase.Posting?)
  }

  lemma NextStoppedInPost(w: World, a: Action, t: TabId)
    requires Inv(w) && Enabled(w, a.event) && StoppedInPost(w, t)
    ensures StoppedInPost(Next(w, a), t)
  {
    hide Next, Inv, Enabled;
    HaltsHere(w, t);
    HaltedStays(w, a, t, w.lease);
  }

  lemma {:induction false} RunStoppedInPost(ws: seq<World>, acts: seq<Action>, i: nat, t: TabId)
    requires IsRun(ws, acts) && i < |ws| && Inv(ws[0]) && StoppedInPost(ws[0], t)
    ensures Inv(ws[i]) && StoppedInPost(ws[i], t)
  {
    hide Inv, Next, Enabled, StoppedInPost;
    if i > 0 {
      RunStoppedInPost(ws, acts, i - 1, t);
      assert Enabled(ws[i - 1], acts[i - 1].event) && ws[i] == Next(ws[i - 1], acts[i - 1]);
      NextKeepsInv(ws[i - 1], acts[i - 1]);
      NextStoppedInPost(ws[i - 1], acts[i - 1], t);
    }
  }

  lemma PostIsSilent(w: World, a: Action, t: TabId)
    requires StoppedInPost(w, t) && Enabled(w, a.event) && Settles(a.event, t)
    ensures Silent(w, a)
  {
    PostSettlesFrom(t, w.tabs[t], a.event.post, w.lease, Env(w.now, a.canRead, a.canWrite));
    hide PostSettles;
  }

  /** A stopped driver's refresh is without consequence, in every run from any reachable state,
      exactly if its POST is still unanswered: `stopped` is looked at after the first await and
      after neither of the others. */
  lemma StaleResultIsDroppedExactly(w: World, t: TabId)
    requires Inv(w) && t in w.tabs && w.tabs[t].stopped
    ensures StaysSilent(w, t) <==> w.tabs[t].phase.Idle? || w.tabs[t].phase.Posting?
  {
    hide Inv, Silent, Next, Enabled;
    if StoppedInPost(w, t) {
      forall ws, acts: seq<Action>, i | IsRun(ws, acts) && ws[0] == w && 0 <= i < |acts| && Settles(acts[i].event, t)
        ensures Enabled(ws[i], acts[i].event) && Silent(ws[i], acts[i])
      {
        RunStoppedInPost(ws, acts, i, t);
        PostIsSilent(ws[i], acts[i], t);
      }
    } else {
      var a := LoudAction(w, t);
      var ws, acts := [w, Next(w, a)], [a];
      assert IsRun(ws, acts) && !Silent(ws[0], acts[0]);
    }
  }

  /** A late body, or a late failed probe, that is told to the other tabs. */
  lemma LoudAction(w: World, t: TabId) returns (a: Action)
    requires Inv(w) && t in w.tabs && w.tabs[t].stopped && !StoppedInPost(w, t)
    ensures Settles(a.event, t) && Enabled(w, a.event) && !Silent(w, a)
  {
    assert TabOk(w.tabs[t]);
    a := Action(if w.tabs[t].phase.Reading? then BodySettled(t, Body(Number(1.0), Number(1.0)))
                else ProbeSettled(t, MeError), true, true);
  }

  /** A stopped tab that reads the body tells every running tab, through localStorage. */
  lemma StaleBodyIsFannedOut(w: World, a: Action, u: TabId)
    requires Inv(w) && Enabled(w, a.event) && a.event.BodySettled? && a.canWrite
    requires a.event.body.Body? && a.event.body.expiresAt.Number? && a.event.body.refreshAt.Number?
    requires w.tabs[a.event.t].stopped && u in w.tabs && u != a.event.t && !w.tabs[u].stopped
    ensures Encoded(Refreshed(a.event.body.expiresAt.n, a.event.body.refreshAt.n)) in Next(w, a).inbox[u]
  {
    assert TabOk(w.tabs[a.event.t]);
    SpreadArrives(w, a, u);
    hide Next, Spread, Encoded;
  }

  /** A stopped tab whose probe is answered with a session is authenticated again, signed out or not. */
  lemma StaleProbeSignsIn(w: World, a: Action)
    requires Enabled(w, a.event) && a.event.ProbeSettled? && Loaded(a.event.me).Authenticated?
    requires w.tabs[a.event.t].stopped
    ensures var after := Next(w, a).tabs[a.event.t];
            after.stopped && after.auth == Loaded(a.event.me)
  {
    LocalNext(w, a);
  }

  lemma AndThen(ws: seq<World>, acts: seq<Action>, a: Action) returns (next: Take)
    requires IsRunFromStart(ws, acts) && Enabled(ws[|acts|], a.event)
    ensures IsRunFromStart(next.ws, next.acts) && |next.acts| == |acts| + 1
    ensures next.ws[|next.acts|] == Next(ws[|acts|], a)
  {
    hide Next, Enabled;
    next := Take(ws + [Next(ws[|acts|], a)], acts + [a]);
    forall i {:trigger next.acts[i]} | 0 <= i < |next.acts|
      ensures Enabled(next.ws[i], next.acts[i].event) && next.ws[i + 1] == Next(next.ws[i], next.acts[i])
    {
      if i < |acts| { assert next.acts[i] == acts[i] && next.ws[i] == ws[i] && next.ws[i + 1] == ws[i + 1]; }
    }
    assert next.ws[0] == ws[0];
  }

  lemma PostInFlight(t: TabId) returns (k: Take)
    ensures IsRunFromStart(k.ws, k.acts)
    ensures var w := k.ws[|k.acts|];
            t in w.tabs && w.tabs[t] == Busy(5000.0, 1, 5000.0)
  {
    var p := Policy(1.0, 0.0, 0.0, false, false, false);
    k := Opens(t, p);
    k := Waits(k, t, p, 0.0, Armed(5000.0, 0, 5000.0), First(t), 5000.0);
    k := Fires(k, t, p, 5000.0, 5000.0, 0, 5000.0, First(t));
    hide Busy;
  }

  /** The answer's headers arrive. */
  lemma HeadersArrive(w: World, t: TabId, code: nat) returns (a: Action)
    requires t in w.tabs && w.tabs[t].phase.Posting? && !w.tabs[t].stopped && (code == 403 || 200 <= code < 300)
    ensures Enabled(w, a.event) && t in Next(w, a).tabs
    ensures var tab := Next(w, a).tabs[t];
            !tab.stopped && if code == 403 then tab.phase.Probing? else tab.phase.Reading?
  {
    a := Action(PostSettled(t, Status(code, NoHeader)), true, true);
    LocalNext(w, a);
  }

  lemma LeavesNow(w: World, t: TabId) returns (a: Action)
    requires Inv(w) && t in w.tabs && !w.tabs[t].stopped
    ensures Enabled(w, a.event) && t in Next(w, a).tabs
    ensures var tab := Next(w, a).tabs[t];
            tab.stopped && tab.auth.Unauthenticated? && tab.phase == w.tabs[t].phase
  {
    assert TabOk(w.tabs[t]);
    a := Action(SignsOut(t), true, true);
    LocalNext(w, a);
  }

  /** Both are reached by signing out at the wrong moment: while the answer to a 403 is probed, or
      while the body of a success is read. */
  lemma SigningOutMidway(t: TabId, code: nat) returns (k: Take)
    requires code == 403 || 200 <= code < 300
    ensures IsRunFromStart(k.ws, k.acts)
    ensures var w := k.ws[|k.acts|];
            && Inv(w) && t in w.tabs && w.tabs[t].stopped && w.tabs[t].auth.Unauthenticated?
            && !StaysSilent(w, t) && if code == 403 then w.tabs[t].phase.Probing? else w.tabs[t].phase.Reading?
  {
    hide Next, Enabled, Inv, StaysSilent;
    k := PostInFlight(t);
    var a := HeadersArrive(k.ws[|k.acts|], t, code);
    k := AndThen(k.ws, k.acts, a);
    RunKeepsInv(k.ws, k.acts, |k.acts|);
    a := LeavesNow(k.ws[|k.acts|], t);
    k := AndThen(k.ws, k.acts, a);
    RunKeepsInv(k.ws, k.acts, |k.acts|);
    StaleResultIsDroppedExactly(k.ws[|k.acts|], t);
  }
}
