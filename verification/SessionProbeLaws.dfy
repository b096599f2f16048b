/** What every interleaving of 401s, probes and the rest of the page keeps. */
module SessionProbeLaws {
  import opened Common
  import opened RefreshTypes
  import Session = RefreshSpec
  import opened SessionProbe

  ghost predicate IsRun(ss: seq<State>, es: seq<Event>) {
    && |ss| == |es| + 1 && (exists now :: ss[0] == Init(now))
    && forall i {:trigger es[i]} :: 0 <= i < |es| ==> Enabled(ss[i], es[i]) && ss[i + 1] == Next(ss[i], es[i])
  }

  /** The only unfinished probe is the one later 401s join, everyone who waits waits for it, and
      each restore allows one more navigation. */
  ghost predicate Inv(s: State) {
    && s.pending.Keys == (if s.sessionProbe.Some? then {s.sessionProbe.value} else {})
    && (s.sessionProbe.Some? ==> s.sessionProbe.value < s.nextProbe)
    && (forall c :: c in s.waiting ==> s.sessionProbe == Some(s.waiting[c]))
    && s.waiting.Keys !! s.returned
    && s.navigations <= s.restores + (if s.redirecting then 1 else 0)
  }

  lemma NextKeepsInv(s: State, e: Event)
    requires Inv(s) && Enabled(s, e)
    ensures Inv(Next(s, e))
  {
  }

  lemma {:induction false} RunKeepsInv(ss: seq<State>, es: seq<Event>, i: nat)
    requires IsRun(ss, es) && i < |ss|
    ensures Inv(ss[i])
  {
    if i > 0 {
      RunKeepsInv(ss, es, i - 1);
      assert Enabled(ss[i - 1], es[i - 1]) && ss[i] == Next(ss[i - 1], es[i - 1]);
      hide Next, Inv;
      NextKeepsInv(ss[i - 1], es[i - 1]);
    }
  }

  /** At most one probe is in flight, in every interleaving. */
  lemma OneProbeInFlight(ss: seq<State>, es: seq<Event>, i: nat)
    requires IsRun(ss, es) && i < |ss|
    ensures |ss[i].pending| <= 1
    ensures forall c :: c in ss[i].waiting ==> ss[i].waiting[c] in ss[i].pending
  {
    RunKeepsInv(ss, es, i);
    assert |ss[i].pending| == |ss[i].pending.Keys|;
  }

  /** When a probe settles, whoever waited is released, all at once, and the way is clear for the
      next: the probe is always the current one. */
  lemma SettlingReleasesEveryone(ss: seq<State>, es: seq<Event>, i: nat)
    requires IsRun(ss, es) && i < |es| && es[i].FinallyRuns?
    ensures ss[i].sessionProbe == Some(es[i].probe)
    ensures ss[i + 1].waiting == map[] && ss[i + 1].pending == map[] && ss[i + 1].sessionProbe == None
    ensures ss[i].waiting.Keys <= ss[i + 1].returned
  {
    RunKeepsInv(ss, es, i);
    assert Enabled(ss[i], es[i]) && ss[i + 1] == Next(ss[i], es[i]);
    assert ss[i].waiting.Keys == WaitersOf(ss[i], es[i].probe);
  }

  predicate Confirms(s: State, e: Event) {
    e.ThenRuns? && Enabled(s, e) && s.pending[e.probe].live
  }

  lemma {:induction false} ClockRuns(ss: seq<State>, es: seq<Event>, i: nat, j: nat)
    requires IsRun(ss, es) && i <= j < |ss|
    ensures ss[i].now <= ss[j].now
  {
    if i < j {
      ClockRuns(ss, es, i, j - 1);
      assert Enabled(ss[j - 1], es[j - 1]);
    }
  }

  lemma {:induction false} ConfirmationStands(ss: seq<State>, es: seq<Event>, i: nat, j: nat)
    requires IsRun(ss, es) && i < j < |ss| && Confirms(ss[i], es[i])
    ensures ss[j].confirmedAt >= ss[i].now
  {
    assert Enabled(ss[j - 1], es[j - 1]) && ss[j] == Next(ss[j - 1], es[j - 1]);
    if i < j - 1 {
      ConfirmationStands(ss, es, i, j - 1);
      ClockRuns(ss, es, i, j - 1);
    }
  }

  /** No probe starts within CONFIRMED_FOR_MS of any confirmation before it. */
  lemma NoProbeSoonAfterConfirmation(ss: seq<State>, es: seq<Event>, i: nat, j: nat)
    requires IsRun(ss, es) && i < j < |es| && Confirms(ss[i], es[i])
    requires ss[j + 1].nextProbe != ss[j].nextProbe
    ensures ss[j].now - ss[i].now >= CONFIRMED_FOR_MS
  {
    assert Enabled(ss[j], es[j]) && ss[j + 1] == Next(ss[j], es[j]);
    ConfirmationStands(ss, es, i, j);
  }

  lemma {:induction false} VerdictWasAnswered(ss: seq<State>, es: seq<Event>, i: nat, p: nat)
    requires IsRun(ss, es) && i < |ss| && p in ss[i].pending && ss[i].pending[p].Answered?
    ensures exists j :: 0 <= j < i && es[j].MeAnswers? && es[j].probe == p
              && Session.Loaded(es[j].reply).Authenticated? == ss[i].pending[p].live
  {
    if i > 0 {
      assert Enabled(ss[i - 1], es[i - 1]) && ss[i] == Next(ss[i - 1], es[i - 1]);
      if !(es[i - 1].MeAnswers? && es[i - 1].probe == p) {
        VerdictWasAnswered(ss, es, i - 1, p);
      }
    }
  }

  /** A 401 sends the page to the login only if the store had failed closed already, or the probe
      was answered so. */
  lemma SignInNeedsEvidence(ss: seq<State>, es: seq<Event>, i: nat)
    requires IsRun(ss, es) && i < |es| && (es[i].Got401? || es[i].ThenRuns?)
    requires ss[i + 1].redirecting && !ss[i].redirecting
    ensures es[i].Got401? ==> ss[i].status.SignedOut?
    ensures es[i].ThenRuns? ==>
              exists j :: 0 <= j < i && es[j].MeAnswers? && es[j].probe == es[i].probe
                  && !Session.Loaded(es[j].reply).Authenticated?
  {
    assert Enabled(ss[i], es[i]) && ss[i + 1] == Next(ss[i], es[i]);
    if es[i].ThenRuns? { VerdictWasAnswered(ss, es, i, es[i].probe); }
  }

  /** Somebody says the session is over: a probe, another writer of the store, a sign-in. */
  predicate EndsSession(e: Event) {
    || (e.MeAnswers? && !Session.Loaded(e.reply).Authenticated?)
    || e == StoreWritten(SignedOut) || e.SignInCalled?
  }

  ghost predicate Undisturbed(s: State) {
    && !s.status.SignedOut? && !s.redirecting && s.navigations == 0
    && forall p :: p in s.pending ==> s.pending[p] != Answered(false)
  }

  /** A 401 is not proof that the session ended: however many arrive, and however they interleave
      with probes, the page stays signed in and where it is until somebody says the session is over. */
  lemma {:induction false} RefusalsAreNotALogout(ss: seq<State>, es: seq<Event>, i: nat)
    requires IsRun(ss, es) && i < |ss|
    requires forall j :: 0 <= j < i ==> !EndsSession(es[j])
    ensures Undisturbed(ss[i])
  {
    if i > 0 {
      RefusalsAreNotALogout(ss, es, i - 1);
      assert Enabled(ss[i - 1], es[i - 1]) && ss[i] == Next(ss[i - 1], es[i - 1]);
    }
  }

  function RestoresIn(es: seq<Event>): nat {
    if es == [] then 0 else RestoresIn(es[..|es| - 1]) + if es[|es| - 1].Restored? then 1 else 0
  }

  lemma {:induction false} RestoresCounted(ss: seq<State>, es: seq<Event>, i: nat)
    requires IsRun(ss, es) && i < |ss|
    ensures ss[i].restores == RestoresIn(es[..i])
  {
    if i > 0 {
      RestoresCounted(ss, es, i - 1);
      assert Enabled(ss[i - 1], es[i - 1]) && ss[i] == Next(ss[i - 1], es[i - 1]);
      assert es[..i][..i - 1] == es[..i - 1];
    }
  }

  /** The page navigates at most once more than it is restored from the bfcache: whoever calls
      `signIn`, and however often, once per page life. */
  lemma OneNavigationPerPageLife(ss: seq<State>, es: seq<Event>, i: nat)
    requires IsRun(ss, es) && i < |ss|
    ensures ss[i].navigations <= RestoresIn(es[..i]) + 1
  {
    RunKeepsInv(ss, es, i);
    RestoresCounted(ss, es, i);
  }

  // ---- and that a session that did end is acted on ----

  /** The page is on its way to the login, which takes one navigation unless it was already. */
  predicate GoesToLogin(before: State, after: State) {
    after.redirecting && after.navigations == before.navigations + if before.redirecting then 0 else 1
  }

  /** A 401 that finds the store signed out goes to the login at once and asks nobody. */
  lemma ClosedStoreSignsIn(ss: seq<State>, es: seq<Event>, i: nat)
    requires IsRun(ss, es) && i < |es| && es[i].Got401? && ss[i].status.SignedOut?
    ensures GoesToLogin(ss[i], ss[i + 1]) && es[i].caller in ss[i + 1].returned
    ensures ss[i + 1].pending == ss[i].pending && ss[i + 1].waiting == ss[i].waiting
  {
    assert Enabled(ss[i], es[i]) && ss[i + 1] == Next(ss[i], es[i]);
  }

  /** So does whoever asks for it; a page brought back may go again; and what is written to the store is what
      the next 401 finds there. */
  lemma OtherHands(ss: seq<State>, es: seq<Event>, i: nat)
    requires IsRun(ss, es) && i < |es|
    ensures es[i].SignInCalled? ==> GoesToLogin(ss[i], ss[i + 1])
    ensures es[i].Restored? ==> !ss[i + 1].redirecting && ss[i + 1].navigations == ss[i].navigations
    ensures es[i].StoreWritten? ==> ss[i + 1].status == es[i].status
  {
    assert Enabled(ss[i], es[i]) && ss[i + 1] == Next(ss[i], es[i]);
  }

  lemma {:induction false} VerdictIs(ss: seq<State>, es: seq<Event>, i: nat, p: nat) returns (j: nat)
    requires IsRun(ss, es) && i < |ss| && p in ss[i].pending && ss[i].pending[p].Answered?
    ensures j < i && es[j].MeAnswers? && es[j].probe == p
    ensures ss[i].pending[p].live <==> es[j].reply.MeBody? && es[j].reply.csrfToken != ""
  {
    assert Enabled(ss[i - 1], es[i - 1]) && ss[i] == Next(ss[i - 1], es[i - 1]);
    if es[i - 1].MeAnswers? && es[i - 1].probe == p {
      j := i - 1;
    } else {
      j := VerdictIs(ss, es, i - 1, p);
    }
  }

  /** The answer writes the store, and when the probe has judged it, in every run: an answer with no session
      goes to the login, and one with a session confirms it and moves nothing. */
  lemma VerdictIsObeyed(ss: seq<State>, es: seq<Event>, i: nat) returns (j: nat)
    requires IsRun(ss, es) && i < |es| && es[i].ThenRuns?
    ensures j < i && es[j].MeAnswers? && es[j].probe == es[i].probe
    ensures if es[j].reply.MeBody? && es[j].reply.csrfToken != ""
            then && ss[j + 1].status.SignedIn? && ss[i + 1].confirmedAt == ss[i].now
                 && ss[i + 1].redirecting == ss[i].redirecting && ss[i + 1].navigations == ss[i].navigations
            else ss[j + 1].status.SignedOut? && GoesToLogin(ss[i], ss[i + 1])
  {
    assert Enabled(ss[i], es[i]) && ss[i + 1] == Next(ss[i], es[i]);
    j := VerdictIs(ss, es, i, es[i].probe);
    assert Enabled(ss[j], es[j]) && ss[j + 1] == Next(ss[j], es[j]);
  }

  /** What the window is counted from: nothing, or some confirmation. */
  lemma {:induction false} ConfirmedAtIs(ss: seq<State>, es: seq<Event>, i: nat) returns (j: int)
    requires IsRun(ss, es) && i < |ss|
    ensures j == -1 ==> ss[i].confirmedAt == 0.0
    ensures j != -1 ==> 0 <= j < i && Confirms(ss[j], es[j]) && ss[i].confirmedAt == ss[j].now
  {
    if i == 0 { return -1; }
    assert Enabled(ss[i - 1], es[i - 1]) && ss[i] == Next(ss[i - 1], es[i - 1]);
    if Confirms(ss[i - 1], es[i - 1]) {
      j := i - 1;
    } else {
      j := ConfirmedAtIs(ss, es, i - 1);
    }
  }

  /** A 401 on a page that is not signed out, five seconds and more after the last confirmation, waits for the
      probe in flight, or for a new one if there is none; and the page stays where it is. */
  lemma LateRefusalIsProbed(ss: seq<State>, es: seq<Event>, i: nat)
    requires IsRun(ss, es) && i < |es| && es[i].Got401? && !ss[i].status.SignedOut? && ss[i].now >= 5000.0
    requires forall j :: 0 <= j < i && Confirms(ss[j], es[j]) ==> ss[i].now - ss[j].now >= 5000.0
    ensures var before, after, caller := ss[i], ss[i + 1], es[i].caller;
            && caller in after.waiting && after.waiting[caller] in after.pending && caller !in after.returned
            && after.redirecting == before.redirecting && after.navigations == before.navigations
            && if before.pending != map[] then after.pending == before.pending
               else after.pending == map[after.waiting[caller] := Asking]
  {
    assert Enabled(ss[i], es[i]) && ss[i + 1] == Next(ss[i], es[i]);
    RunKeepsInv(ss, es, i);
    var j := ConfirmedAtIs(ss, es, i);
    if ss[i].sessionProbe.Some? { assert ss[i].sessionProbe.value in ss[i].pending; }
  }

  /** One that comes sooner is taken at its word: nobody is asked and nothing moves. */
  lemma EarlyRefusalIsNot(ss: seq<State>, es: seq<Event>, i: nat, j: nat)
    requires IsRun(ss, es) && j < i < |es| && es[i].Got401? && !ss[i].status.SignedOut?
    requires Confirms(ss[j], es[j]) && ss[i].now - ss[j].now < 5000.0
    ensures ss[i + 1] == ss[i].(returned := ss[i].returned + {es[i].caller})
  {
    assert Enabled(ss[i], es[i]) && ss[i + 1] == Next(ss[i], es[i]);
    ConfirmationStands(ss, es, j, i);
  }
}
