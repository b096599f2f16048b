/** What every run of the sharing handlers keeps, and what no run can do. */
module SharingLaws {
  import opened Common
  import opened Sharing

  // ---- the strongest level ----

  lemma {:induction false} StrongestIsGreatest(levels: seq<Option<Access>>)
    ensures forall i :: 0 <= i < |levels| ==> Rank(levels[i]) <= Rank(Strongest(levels))
    ensures Strongest(levels).None? || Strongest(levels) in levels
  {
    if levels != [] {
      StrongestIsGreatest(levels[..|levels| - 1]);
      assert levels == levels[..|levels| - 1] + [levels[|levels| - 1]];
    }
  }

  predicate GrantsOk(grants: seq<Grant>) {
    && (forall i :: 0 <= i < |grants| ==> grants[i].level == Viewer || grants[i].level == Editor)
    && (forall i, j :: 0 <= i < j < |grants| ==> grants[i].grantee != grants[j].grantee)
  }

  lemma {:induction false} LevelsAreGrants(w: World, grants: seq<Grant>)
    requires forall i :: 0 <= i < |grants| ==> grants[i].level == Viewer || grants[i].level == Editor
    ensures forall l :: l in LevelsFor(w, grants) ==> l == Some(Viewer) || l == Some(Editor)
    ensures forall l :: l in LevelsFor(w, grants) <==> exists g :: g in grants && Concerns(w, g) && l == Some(g.level)
  {
    if grants != [] {
      LevelsAreGrants(w, grants[1..]);
      assert grants == [grants[0]] + grants[1..];
    }
  }

  /** The level granted is Editor if some grant to the caller or to everyone says so, else Viewer if
      there is any such grant. */
  lemma GrantedLevelMeans(w: World, grants: seq<Grant>)
    requires GrantsOk(grants)
    ensures GrantedLevel(w, grants) == Some(Editor) <==> exists g :: g in grants && Concerns(w, g) && g.level == Editor
    ensures GrantedLevel(w, grants) == None <==> forall g :: g in grants ==> !Concerns(w, g)
    ensures GrantedLevel(w, grants) in {None, Some(Viewer), Some(Editor)}
  {
    LevelsAreGrants(w, grants);
    StrongestIsGreatest(LevelsFor(w, grants));
    var levels := LevelsFor(w, grants);
    if g :| g in grants && Concerns(w, g) {
      assert Some(g.level) in levels;
    }
    forall g | g in grants && Concerns(w, g) ensures Rank(Some(g.level)) <= Rank(GrantedLevel(w, grants)) {
      assert Some(g.level) in levels;
    }
  }

  // ---- what every step keeps ----

  /** Ownerless folders hold ownerless dashboards and owned folders owned ones, each dashboard once. */
  ghost predicate FolderOk(dashboards: map<Id, Dashboard>, f: Folder) {
    && GrantsOk(f.grants)
    && (forall i :: 0 <= i < |f.entries| ==>
          f.entries[i].dashboard in dashboards
          && (dashboards[f.entries[i].dashboard].owner.None? <==> f.owner.None?))
    && FiledOnce(f.entries)
  }

  ghost predicate PinsOk(pins: seq<Id>) {
    |pins| <= MAX_PINS && forall i, j :: 0 <= i < j < |pins| ==> pins[i] != pins[j]
  }

  ghost predicate Inv(s: State) {
    && (forall d :: d in s.dashboards ==> GrantsOk(s.dashboards[d].grants))
    && (forall f :: f in s.folders ==> FolderOk(s.dashboards, s.folders[f]))
    && PinsOk(s.pins)
  }

  lemma InvGrants(s: State, id: Id)
    requires Inv(s) && id in s.dashboards
    ensures GrantsOk(s.dashboards[id].grants)
  {
  }

  lemma {:induction false} GrantsWithoutOk(grants: seq<Grant>, grantee: Person)
    requires GrantsOk(grants)
    ensures GrantsOk(GrantsWithout(grants, grantee))
    ensures forall g :: g in GrantsWithout(grants, grantee) <==> g in grants && g.grantee != grantee
  {
    if grants != [] {
      assert GrantsOk(grants[1..]);
      GrantsWithoutOk(grants[1..], grantee);
      var rest := GrantsWithout(grants[1..], grantee);
      assert grants == [grants[0]] + grants[1..];
      forall j | 0 <= j < |rest| ensures rest[j].grantee != grants[0].grantee {
        assert rest[j] in rest;
      }
    }
  }

  lemma {:induction false} EntriesWithoutOk(entries: seq<Entry>, dashboard: Id)
    ensures forall e :: e in EntriesWithout(entries, dashboard) <==> e in entries && e.dashboard != dashboard
  {
    if entries != [] {
      EntriesWithoutOk(entries[1..], dashboard);
      assert entries == [entries[0]] + entries[1..];
    }
  }

  ghost predicate FiledOnce(entries: seq<Entry>) {
    forall i, j :: 0 <= i < j < |entries| ==> entries[i].dashboard != entries[j].dashboard
  }

  lemma {:induction false} EntriesWithoutFiledOnce(entries: seq<Entry>, dashboard: Id)
    requires FiledOnce(entries)
    ensures FiledOnce(EntriesWithout(entries, dashboard))
  {
    if entries != [] {
      EntriesWithoutOk(entries[1..], dashboard);
      EntriesWithoutFiledOnce(entries[1..], dashboard);
      var rest := EntriesWithout(entries[1..], dashboard);
      forall j | 0 <= j < |rest| ensures rest[j].dashboard != entries[0].dashboard {
        assert rest[j] in rest;
        var k :| 0 <= k < |entries[1..]| && entries[1..][k] == rest[j];
        assert entries[k + 1] == rest[j];
      }
    }
  }

  lemma {:induction false} PinsWithoutOk(pins: seq<Id>, id: Id)
    requires forall i, j :: 0 <= i < j < |pins| ==> pins[i] != pins[j]
    ensures |PinsWithout(pins, id)| <= |pins|
    ensures forall p :: p in PinsWithout(pins, id) <==> p in pins && p != id
    ensures forall i, j :: 0 <= i < j < |PinsWithout(pins, id)| ==> PinsWithout(pins, id)[i] != PinsWithout(pins, id)[j]
  {
    if pins != [] {
      PinsWithoutOk(pins[1..], id);
      assert pins == [pins[0]] + pins[1..];
      if pins[0] != id {
        var rest := PinsWithout(pins[1..], id);
        forall j | 0 <= j < |rest| ensures rest[j] != pins[0] { assert rest[j] in rest; }
      }
    }
  }

  lemma PutGrantKeeps(grants: seq<Grant>, grantee: Person, level: Access)
    requires GrantsOk(grants) && (level == Viewer || level == Editor)
    ensures GrantsOk(GrantsWithout(grants, grantee) + [Grant(grantee, level)])
  {
    GrantsWithoutOk(grants, grantee);
    var kept := GrantsWithout(grants, grantee);
    forall i | 0 <= i < |kept| ensures kept[i].grantee != grantee { assert kept[i] in kept; }
  }

  lemma WithGrantsKeeps(s: State, kind: Kind, id: Id, grants: seq<Grant>)
    requires Inv(s) && Grants(s, kind, id).Some? && GrantsOk(grants)
    ensures Inv(WithGrants(s, kind, id, grants))
  {
    var next := WithGrants(s, kind, id, grants);
    forall f | f in next.folders ensures FolderOk(next.dashboards, next.folders[f]) {
      assert FolderOk(s.dashboards, s.folders[f]);
    }
  }

  lemma WithEntriesKeeps(s: State, id: Id, entries: seq<Entry>)
    requires Inv(s) && id in s.folders && FolderOk(s.dashboards, s.folders[id].(entries := entries))
    ensures Inv(s.(folders := s.folders[id := s.folders[id].(entries := entries)]))
  {
    var next := s.(folders := s.folders[id := s.folders[id].(entries := entries)]);
    forall f | f in next.folders ensures FolderOk(next.dashboards, next.folders[f]) {
      if f != id { assert FolderOk(s.dashboards, s.folders[f]); }
    }
  }

  /** What the access of a filing caller says about the owners on both sides. */
  lemma AccessTellsOwner(w: World, s: State, folder: Id, dashboard: Id)
    requires Inv(s)
    ensures FolderAccessOf(w, s, folder).Some? ==>
              && folder in s.folders
              && (FolderAccessOf(w, s, folder) == Some(Ownerless) <==> s.folders[folder].owner.None?)
    ensures AccessOf(w, s, dashboard).Some? ==>
              && dashboard in s.dashboards
              && (AccessOf(w, s, dashboard) == Some(Ownerless) <==> s.dashboards[dashboard].owner.None?)
  {
    hide GrantedLevel, Reaches, GrantsOk;
    if folder in s.folders {
      assert FolderOk(s.dashboards, s.folders[folder]);
      GrantedLevelMeans(w, s.folders[folder].grants);
    }
  }

  lemma FilingKeeps(w: World, s: State, id: Id, dashboard: Id, carries: bool)
    requires Inv(s) && id in s.folders && dashboard in s.dashboards
    requires s.folders[id].owner.None? <==> s.dashboards[dashboard].owner.None?
    ensures var kept := EntriesWithout(s.folders[id].entries, dashboard);
            && FolderOk(s.dashboards, s.folders[id].(entries := kept + [Entry(dashboard, carries)]))
            && FolderOk(s.dashboards, s.folders[id].(entries := kept))
  {
    var f := s.folders[id];
    assert FolderOk(s.dashboards, f);
    EntriesWithoutOk(f.entries, dashboard);
    EntriesWithoutFiledOnce(f.entries, dashboard);
    var kept := EntriesWithout(f.entries, dashboard);
    forall i | 0 <= i < |kept| ensures kept[i] in f.entries && kept[i].dashboard != dashboard {
      assert kept[i] in kept;
    }
  }

  lemma UnfilingKeeps(s: State, id: Id, dashboard: Id)
    requires Inv(s) && id in s.folders
    ensures FolderOk(s.dashboards, s.folders[id].(entries := EntriesWithout(s.folders[id].entries, dashboard)))
  {
    var f := s.folders[id];
    assert FolderOk(s.dashboards, f);
    EntriesWithoutOk(f.entries, dashboard);
    EntriesWithoutFiledOnce(f.entries, dashboard);
    var kept := EntriesWithout(f.entries, dashboard);
    forall i | 0 <= i < |kept| ensures kept[i] in f.entries { assert kept[i] in kept; }
  }

  lemma TransferKeeps(s: State, kind: Kind, id: Id, to: Person)
    requires Inv(s) && Grants(s, kind, id).Some? && OwnerOf(s, kind, id).Some?
    ensures Inv(if kind.Dashboards? then s.(dashboards := s.dashboards[id := s.dashboards[id].(owner := Some(to))])
                else s.(folders := s.folders[id := s.folders[id].(owner := Some(to))]))
  {
    var next := if kind.Dashboards? then s.(dashboards := s.dashboards[id := s.dashboards[id].(owner := Some(to))])
                else s.(folders := s.folders[id := s.folders[id].(owner := Some(to))]);
    forall f | f in next.folders ensures FolderOk(next.dashboards, next.folders[f]) {
      assert FolderOk(s.dashboards, s.folders[f]);
    }
  }

  lemma StepKeepsInv(w: World, s: State, a: Action)
    requires Inv(s) && WellFormed(s, a)
    ensures Inv(Step(w, s, a).0)
  {
    hide FolderOk, AccessOf, FolderAccessOf, SharedThing, GrantsOk, CarriesFor;
    match a
    case PutGrant(kind, id, grantee, level) =>
      if SharedThing(w, s, kind, id).None? {
        ShareableExists(w, s, kind, id);
        PutGrantKeeps(Grants(s, kind, id).value, grantee, level);
        WithGrantsKeeps(s, kind, id, GrantsWithout(Grants(s, kind, id).value, grantee) + [Grant(grantee, level)]);
      }
    case DeleteGrant(kind, id, grantee) =>
      if SharedThing(w, s, kind, id).None? {
        ShareableExists(w, s, kind, id);
        GrantsWithoutOk(Grants(s, kind, id).value, grantee);
        WithGrantsKeeps(s, kind, id, GrantsWithout(Grants(s, kind, id).value, grantee));
      }
    case Transfer(kind, id, to) =>
      if Grants(s, kind, id).Some? && OwnerOf(s, kind, id).Some? { TransferKeeps(s, kind, id, to); }
    case Pin(id) =>
    case Unpin(id) => PinsWithoutOk(s.pins, id);
    case FileUnder(id, dashboard) =>
      AccessTellsOwner(w, s, id, dashboard);
      if FolderAccessOf(w, s, id).Some? && AccessOf(w, s, dashboard).Some?
         && (s.folders[id].owner.None? <==> s.dashboards[dashboard].owner.None?) {
        FilingKeeps(w, s, id, dashboard, CarriesFor(w, s, dashboard));
        var kept := EntriesWithout(s.folders[id].entries, dashboard);
        WithEntriesKeeps(s, id, kept + [Entry(dashboard, CarriesFor(w, s, dashboard))]);
      }
    case Unfile(id, dashboard) =>
      AccessTellsOwner(w, s, id, dashboard);
      if FolderAccessOf(w, s, id).Some? {
        UnfilingKeeps(s, id, dashboard);
        WithEntriesKeeps(s, id, EntriesWithout(s.folders[id].entries, dashboard));
      }
    case _ => FolderStepKeepsInv(w, s, a);
  }

  lemma ShareableExists(w: World, s: State, kind: Kind, id: Id)
    requires Inv(s) && SharedThing(w, s, kind, id).None?
    ensures Grants(s, kind, id).Some? && GrantsOk(Grants(s, kind, id).value)
  {
    if kind.Folders? { assert FolderOk(s.dashboards, s.folders[id]); }
  }

  lemma FolderStepKeepsInv(w: World, s: State, a: Action)
    requires Inv(s) && WellFormed(s, a)
    requires a.CreateFolder? || a.RenameFolder? || a.DeleteFolder?
    ensures Inv(Step(w, s, a).0)
  {
    var next := Step(w, s, a).0;
    AccessTellsOwner(w, s, a.id, "");
    hide AccessOf, FolderAccessOf;
    forall f | f in next.folders ensures FolderOk(next.dashboards, next.folders[f]) {
      if f in s.folders { assert FolderOk(s.dashboards, s.folders[f]); }
    }
  }

  /** One action of the caller, and who is an administrator by then: roles come and go in between. */
  datatype Turn = Turn(admins: set<Person>, action: Action)

  /** The state after a run of actions by one caller. */
  function Run(caller: Person, s: State, turns: seq<Turn>): State {
    if turns == [] then s
    else
      var last := turns[|turns| - 1];
      Step(World(caller, last.admins), Run(caller, s, turns[..|turns| - 1]), last.action).0
  }

  ghost predicate WellFormedRun(caller: Person, s: State, turns: seq<Turn>) {
    forall i {:trigger turns[i]} :: 0 <= i < |turns| ==> WellFormed(Run(caller, s, turns[..i]), turns[i].action)
  }

  lemma RunPrefix(caller: Person, s: State, turns: seq<Turn>)
    requires WellFormedRun(caller, s, turns) && turns != []
    ensures var init := turns[..|turns| - 1];
            WellFormedRun(caller, s, init) && WellFormed(Run(caller, s, init), turns[|turns| - 1].action)
  {
    var init := turns[..|turns| - 1];
    forall i {:trigger init[i]} | 0 <= i < |init| ensures WellFormed(Run(caller, s, init[..i]), init[i].action) {
      assert init[..i] == turns[..i] && init[i] == turns[i];
    }
    assert turns[|turns| - 1] == turns[|turns| - 1];
  }

  /** Every run keeps the shelves apart, one entry per dashboard in a folder, one grant per grantee,
      and distinct pins up to the limit. */
  lemma {:induction false} RunKeepsInv(caller: Person, s: State, turns: seq<Turn>)
    requires Inv(s) && WellFormedRun(caller, s, turns)
    ensures Inv(Run(caller, s, turns))
  {
    if turns != [] {
      var last := turns[|turns| - 1];
      RunPrefix(caller, s, turns);
      RunKeepsInv(caller, s, turns[..|turns| - 1]);
      StepKeepsInv(World(caller, last.admins), Run(caller, s, turns[..|turns| - 1]), last.action);
    }
  }

  // ---- what an answer means ----

  /** Whatever is not done leaves everything as it was. */
  lemma RefusedChangesNothing(w: World, s: State, a: Action)
    ensures !Step(w, s, a).1.Done? ==> Step(w, s, a).0 == s
  {
    hide AccessOf, FolderAccessOf, SharedThing;
  }

  /** A grant that was put is the only one of its grantee, has the level asked for, and every other
      grant of the thing is as it was; a grant that was deleted is gone, and the others stay. */
  lemma GrantsAfter(w: World, s: State, a: Action, g: Grant)
    requires Inv(s) && WellFormed(s, a) && (a.PutGrant? || a.DeleteGrant?) && Step(w, s, a).1.Done?
    ensures var before, after := Grants(s, a.kind, a.id), Grants(Step(w, s, a).0, a.kind, a.id);
            && before.Some? && after.Some?
            && (g in after.value <==> (g in before.value && g.grantee != a.grantee)
                                      || (a.PutGrant? && g == Grant(a.grantee, a.level)))
  {
    hide AccessOf, GrantsOk, Inv;
    ShareableExists(w, s, a.kind, a.id);
    hide SharedThing;
    GrantsWithoutOk(Grants(s, a.kind, a.id).value, a.grantee);
  }

  lemma CarriesMeans(w: World, s: State, id: Id)
    requires id in s.dashboards && GrantsOk(s.dashboards[id].grants)
    ensures var d := s.dashboards[id];
            CarriesFor(w, s, id) <==>
              || d.owner.None? || d.owner.value == w.caller
              || exists g :: g in d.grants && (g.grantee == w.caller || g.grantee == EVERYONE) && g.level == Editor
  {
    hide GrantedLevel;
    GrantedLevelMeans(w, s.dashboards[id].grants);
  }

  /** A filed dashboard has one entry, which carries it exactly if it has no owner, or the caller owns it or
      was granted to edit it; an unfiled one has none; every other entry stays. */
  lemma EntriesAfter(w: World, s: State, a: Action, e: Entry)
    requires Inv(s) && (a.FileUnder? || a.Unfile?) && Step(w, s, a).1.Done?
    ensures a.id in s.folders && a.id in Step(w, s, a).0.folders
    ensures a.FileUnder? ==> a.dashboard in s.dashboards
    ensures e in Step(w, s, a).0.folders[a.id].entries <==>
              || (e in s.folders[a.id].entries && e.dashboard != a.dashboard)
              || (a.FileUnder? && e.dashboard == a.dashboard
                  && var d := s.dashboards[a.dashboard];
                     e.carries <==>
                       || d.owner.None? || d.owner.value == w.caller
                       || exists g :: g in d.grants && (g.grantee == w.caller || g.grantee == EVERYONE)
                                      && g.level == Editor)
  {
    hide AccessOf, FolderAccessOf, CarriesFor, Inv, EntriesWithout;
    if a.dashboard in s.dashboards {
      InvGrants(s, a.dashboard);
      CarriesMeans(w, s, a.dashboard);
    }
    AccessTellsOwner(w, s, a.id, a.dashboard);
    EntriesWithoutOk(s.folders[a.id].entries, a.dashboard);
  }

  /** A pinned dashboard is among the pins, the last of them if it is new; an unpinned one is not; and no other
      pin moves in or out. */
  lemma PinsAfter(w: World, s: State, a: Action, id: Id)
    requires Inv(s) && (a.Pin? || a.Unpin?) && Step(w, s, a).1.Done?
    ensures id in Step(w, s, a).0.pins <==> if id == a.id then a.Pin? else id in s.pins
    ensures a.Pin? ==> Step(w, s, a).0.pins == if a.id in s.pins then s.pins else s.pins + [a.id]
  {
    PinsWithoutOk(s.pins, a.id);
    hide AccessOf, PinsWithout;
  }

  lemma {:induction false} GrantsWithoutAppended(grants: seq<Grant>, g: Grant)
    requires forall x :: x in grants ==> x.grantee != g.grantee
    ensures GrantsWithout(grants, g.grantee) == grants && GrantsWithout(grants + [g], g.grantee) == grants
  {
    if grants == [] {
      assert [] + [g] == [g];
    } else {
      GrantsWithoutAppended(grants[1..], g);
      assert (grants + [g])[1..] == grants[1..] + [g];
      assert grants == [grants[0]] + grants[1..];
    }
  }

  lemma {:induction false} EntriesWithoutAppended(entries: seq<Entry>, e: Entry)
    requires forall x :: x in entries ==> x.dashboard != e.dashboard
    ensures EntriesWithout(entries, e.dashboard) == entries && EntriesWithout(entries + [e], e.dashboard) == entries
  {
    if entries == [] {
      assert [] + [e] == [e];
    } else {
      EntriesWithoutAppended(entries[1..], e);
      assert (entries + [e])[1..] == entries[1..] + [e];
      assert entries == [entries[0]] + entries[1..];
    }
  }

  lemma {:induction false} PinsWithoutAppended(pins: seq<Id>, id: Id)
    requires id !in pins
    ensures PinsWithout(pins + [id], id) == pins
  {
    if pins == [] {
      assert [] + [id] == [id];
    } else {
      PinsWithoutAppended(pins[1..], id);
      assert (pins + [id])[1..] == pins[1..] + [id];
      assert pins == [pins[0]] + pins[1..];
    }
  }

  /** Pinning something new and unpinning it restores the state, pin order included. */
  lemma UnpinUndoesPin(w: World, s: State, id: Id)
    requires Step(w, s, Pin(id)).1.Done? && id !in s.pins
    ensures Step(w, Step(w, s, Pin(id)).0, Unpin(id)) == (s, Done)
  {
    PinsWithoutAppended(s.pins, id);
    hide AccessOf;
  }

  /** So does filing something new and unfiling it: whoever may file may take out again. */
  lemma UnfileUndoesFile(w: World, s: State, id: Id, dashboard: Id)
    requires Inv(s) && Step(w, s, FileUnder(id, dashboard)).1.Done?
    requires id in s.folders && forall e :: e in s.folders[id].entries ==> e.dashboard != dashboard
    ensures Step(w, Step(w, s, FileUnder(id, dashboard)).0, Unfile(id, dashboard)) == (s, Done)
  {
    var e := Entry(dashboard, CarriesFor(w, s, dashboard));
    hide AccessOf, CarriesFor, EntriesWithout, Inv;
    EntriesWithoutAppended(s.folders[id].entries, e);
    var filed := WithEntries(s, id, s.folders[id].entries + [e]);
    SameFolderAccess(w, s, id, s.folders[id].entries + [e]);
    hide FolderAccessOf;
    assert Step(w, s, FileUnder(id, dashboard)).0 == filed;
    assert WithEntries(filed, id, s.folders[id].entries).folders == s.folders;
  }

  function WithEntries(s: State, id: Id, entries: seq<Entry>): State
    requires id in s.folders
  {
    s.(folders := s.folders[id := s.folders[id].(entries := entries)])
  }

  lemma SameFolderAccess(w: World, s: State, id: Id, entries: seq<Entry>)
    requires id in s.folders
    ensures FolderAccessOf(w, WithEntries(s, id, entries), id) == FolderAccessOf(w, s, id)
  {
    hide GrantedLevel;
  }

  // ---- who may share ----

  /** Holding a thing in one's own right: owning it, or an editor grant on it. */
  predicate Holds(w: World, owner: Option<Person>, grants: seq<Grant>) {
    owner.Some? && (owner.value == w.caller || GrantedLevel(w, grants) == Some(Editor))
  }

  /** A dashboard's grants are open exactly to an administrator who owns it or was granted editing
      directly or through everyone; editing through a folder is not enough. */
  lemma WhoMayShareDashboards(w: World, s: State, id: Id)
    requires Inv(s)
    ensures SharedThing(w, s, Dashboards, id).None? <==>
              w.caller in w.admins && id in s.dashboards && Holds(w, s.dashboards[id].owner, s.dashboards[id].grants)
  {
    if id in s.dashboards { GrantedLevelMeans(w, s.dashboards[id].grants); }
  }

  /** A folder's grants are open exactly to an administrator who owns it or holds an editor grant on
      it, unless a dashboard has the folder's id: then that dashboard's grants must say editor too. */
  lemma WhoMayShareFolders(w: World, s: State, id: Id)
    requires Inv(s)
    ensures SharedThing(w, s, Folders, id).None? <==>
              && w.caller in w.admins && id in s.folders && Holds(w, s.folders[id].owner, s.folders[id].grants)
              && (s.folders[id].owner == Some(w.caller) || id !in s.dashboards
                  || GrantedLevel(w, s.dashboards[id].grants) == Some(Editor))
  {
    if id in s.folders {
      assert FolderOk(s.dashboards, s.folders[id]);
      GrantedLevelMeans(w, s.folders[id].grants);
    }
  }

  /** That clause at work: an administrator who may edit a folder is refused its grants because a
      dashboard of somebody else's has the folder's id, and would be let in if none had. */
  lemma SameIdRefusesEditor()
    ensures var w := World("me", {"me"});
            var folder := Folder("Plans", Some("other"), [Grant("me", Editor)], []);
            var s := State(map["x" := Dashboard(Some("other"), [])], map["x" := folder], []);
            && Inv(s) && Holds(w, folder.owner, folder.grants)
            && SharedThing(w, s, Folders, "x") == Some(Denied)
            && SharedThing(w, s.(dashboards := map[]), Folders, "x") == None
  {
    var w, grants := World("me", {"me"}), [Grant("me", Editor)];
    GrantedLevelMeans(w, grants);
    GrantedLevelMeans(w, []);
    assert grants[0] in grants;
    hide GrantedLevel;
  }

  ghost predicate IdsApart(s: State) {
    forall id :: id in s.folders ==> id !in s.dashboards
  }

  /** It takes a seed that gives both one id: no handler makes a dashboard, so ids that start apart
      stay apart as long as no folder is given a dashboard's. */
  lemma IdsStayApart(w: World, s: State, a: Action)
    requires IdsApart(s) && (a.CreateFolder? ==> a.id !in s.dashboards)
    ensures IdsApart(Step(w, s, a).0) && Step(w, s, a).0.dashboards.Keys == s.dashboards.Keys
  {
    hide AccessOf, ShareRefusal, CarriesFor, GrantedLevel;
  }

  /** And then a folder's grants are open exactly to an administrator who holds it. */
  lemma WhoMayShareFoldersApart(w: World, s: State, id: Id)
    requires Inv(s) && IdsApart(s)
    ensures SharedThing(w, s, Folders, id).None? <==>
              w.caller in w.admins && id in s.folders && Holds(w, s.folders[id].owner, s.folders[id].grants)
  {
    WhoMayShareFolders(w, s, id);
    hide SharedThing, Holds, Inv;
  }

  /** One more grant takes sharing from nobody. */
  lemma HoldsStays(w: World, owner: Option<Person>, grants: seq<Grant>, g: Grant)
    requires Holds(w, owner, grants) && GrantsOk(grants) && GrantsOk(grants + [g])
    ensures Holds(w, owner, grants + [g])
  {
    GrantedLevelMeans(w, grants);
    GrantedLevelMeans(w, grants + [g]);
    hide GrantedLevel, GrantsOk;
    forall x | x in grants ensures x in grants + [g] {}
  }

  lemma SharingStays(w: World, s: State, kind: Kind, id: Id, g: Grant)
    requires Inv(s) && SharedThing(w, s, kind, id).None? && Grants(s, kind, id).Some?
    requires Inv(WithGrants(s, kind, id, Grants(s, kind, id).value + [g]))
    ensures SharedThing(w, WithGrants(s, kind, id, Grants(s, kind, id).value + [g]), kind, id).None?
  {
    var grants := Grants(s, kind, id).value;
    var next := WithGrants(s, kind, id, grants + [g]);
    ShareableExists(w, s, kind, id);
    if kind.Dashboards? {
      assert GrantsOk(next.dashboards[id].grants);
      WhoMayShareDashboards(w, s, id);
      WhoMayShareDashboards(w, next, id);
      HoldsStays(w, s.dashboards[id].owner, grants, g);
    } else {
      assert FolderOk(next.dashboards, next.folders[id]);
      WhoMayShareFolders(w, s, id);
      WhoMayShareFolders(w, next, id);
      HoldsStays(w, s.folders[id].owner, grants, g);
    }
    hide SharedThing, Holds, Inv;
  }

  /** Granting to somebody new and taking it back restores the state: whoever may share still may. */
  lemma DeleteUndoesPut(w: World, s: State, kind: Kind, id: Id, grantee: Person, level: Access)
    requires Inv(s) && WellFormed(s, PutGrant(kind, id, grantee, level))
    requires Step(w, s, PutGrant(kind, id, grantee, level)).1.Done?
    requires Grants(s, kind, id).Some? && forall g :: g in Grants(s, kind, id).value ==> g.grantee != grantee
    ensures Step(w, Step(w, s, PutGrant(kind, id, grantee, level)).0, DeleteGrant(kind, id, grantee)) == (s, Done)
  {
    var g, grants := Grant(grantee, level), Grants(s, kind, id).value;
    StepKeepsInv(w, s, PutGrant(kind, id, grantee, level));
    GrantsWithoutAppended(grants, g);
    assert SharedThing(w, s, kind, id).None? by {
      hide AccessOf, FolderAccessOf, SharedThing;
      NotDoneWhenRefused(w, s, kind, id);
    }
    hide SharedThing, GrantsWithout, Inv;
    var put := WithGrants(s, kind, id, grants + [g]);
    assert Step(w, s, PutGrant(kind, id, grantee, level)).0 == put;
    SharingStays(w, s, kind, id, g);
    assert Grants(put, kind, id) == Some(grants + [g]);
    var back := WithGrants(put, kind, id, grants);
    if kind.Dashboards? { assert back.dashboards == s.dashboards; } else { assert back.folders == s.folders; }
  }

  lemma NotDoneWhenRefused(w: World, s: State, kind: Kind, id: Id)
    ensures SharedThing(w, s, kind, id).Some? ==> !SharedThing(w, s, kind, id).value.Done?
  {
    hide AccessOf, FolderAccessOf;
  }

  // ---- nobody lifts himself up ----

  predicate OwnOrDirect(w: World, s: State, id: Id) {
    id in s.dashboards && Holds(w, s.dashboards[id].owner, s.dashboards[id].grants)
  }

  /** A folder gives the caller nothing after a step that it did not give before. */
  predicate NoGain(w: World, s: State, next: State, f: Id, id: Id) {
    Rank(Through(w, next, f, id)) <= Rank(Through(w, s, f, id))
  }

  lemma AccessRank(w: World, s: State, id: Id)
    requires Inv(s) && id in s.dashboards && s.dashboards[id].owner.Some? && s.dashboards[id].owner.value != w.caller
    ensures Rank(AccessOf(w, s, id)) >= Rank(GrantedLevel(w, s.dashboards[id].grants))
    ensures forall f :: f in s.folders ==> Rank(AccessOf(w, s, id)) >= Rank(Through(w, s, f, id))
    ensures AccessOf(w, s, id).Some? ==>
              AccessOf(w, s, id) == GrantedLevel(w, s.dashboards[id].grants)
              || exists f :: f in s.folders && Through(w, s, f, id) == AccessOf(w, s, id)
  {
    GrantedLevelMeans(w, s.dashboards[id].grants);
    forall f | f in s.folders ensures Rank(AccessOf(w, s, id)) >= Rank(Through(w, s, f, id)) {
      assert Through(w, s, f, id) in {None, Some(Viewer), Some(Editor)};
    }
  }

  /** If no source of access is stronger after a step, access is not; and next to ownership, nothing
      is stronger than editing. */
  lemma AccessFollowsSources(w: World, s: State, next: State, id: Id)
    requires Inv(s) && Inv(next) && id in s.dashboards && id in next.dashboards
    requires next.dashboards[id].owner == s.dashboards[id].owner
    requires Rank(AccessOf(w, s, id)) >= 2
             || (Rank(GrantedLevel(w, next.dashboards[id].grants)) <= Rank(GrantedLevel(w, s.dashboards[id].grants))
                 && forall f :: f in next.folders ==> NoGain(w, s, next, f, id))
    ensures Rank(AccessOf(w, next, id)) <= Rank(AccessOf(w, s, id))
  {
    var owner := s.dashboards[id].owner;
    if owner.Some? && owner.value != w.caller {
      AccessRank(w, s, id);
      AccessRank(w, next, id);
      assert Rank(AccessOf(w, next, id)) <= 2;
      assert forall f :: f !in s.folders ==> Through(w, s, f, id) == None;
      hide AccessOf, Through, GrantedLevel, Inv;
      var after := AccessOf(w, next, id);
      if after.Some? && after != GrantedLevel(w, next.dashboards[id].grants) && Rank(AccessOf(w, s, id)) < 2 {
        var f :| f in next.folders && Through(w, next, f, id) == after;
        assert NoGain(w, s, next, f, id);
        if f in s.folders { assert Rank(Through(w, s, f, id)) <= Rank(AccessOf(w, s, id)); }
      }
    }
  }

  /** Changing the grants of a folder the caller may share gives the caller nothing through it. */
  lemma FolderGrantsNoGain(w: World, s: State, f0: Id, grants: seq<Grant>, f: Id, id: Id)
    requires Inv(s) && SharedThing(w, s, Folders, f0).None? && GrantsOk(grants)
    ensures NoGain(w, s, WithGrants(s, Folders, f0, grants), f, id)
  {
    WhoMayShareFolders(w, s, f0);
    GrantedLevelMeans(w, grants);
    GrantedLevelMeans(w, s.folders[f0].grants) by { assert FolderOk(s.dashboards, s.folders[f0]); }
    hide GrantedLevel, Inv, GrantsOk;
    var next := WithGrants(s, Folders, f0, grants);
    if f != f0 { assert f in next.folders ==> next.folders[f] == s.folders[f]; }
  }

  /** Filing a dashboard carries it only if the caller could edit it anyway, and touches no other. */
  lemma FilingNoGain(w: World, s: State, f0: Id, d0: Id, carries: bool, f: Id, id: Id)
    requires f0 in s.folders && (carries ==> id != d0)
    ensures var folder, entries := s.folders[f0], EntriesWithout(s.folders[f0].entries, d0);
            var filed := entries + [Entry(d0, carries)];
            && NoGain(w, s, s.(folders := s.folders[f0 := folder.(entries := entries)]), f, id)
            && NoGain(w, s, s.(folders := s.folders[f0 := folder.(entries := filed)]), f, id)
  {
    hide GrantedLevel;
    var entries := EntriesWithout(s.folders[f0].entries, d0);
    EntriesWithoutOk(s.folders[f0].entries, d0);
    EntriesNoGain(w, s, f0, entries, f, id);
    EntriesNoGain(w, s, f0, entries + [Entry(d0, carries)], f, id);
  }

  lemma EntriesNoGain(w: World, s: State, f0: Id, entries: seq<Entry>, f: Id, id: Id)
    requires f0 in s.folders
    requires Carries(s.folders[f0].(entries := entries), id) ==> Carries(s.folders[f0], id)
    ensures NoGain(w, s, s.(folders := s.folders[f0 := s.folders[f0].(entries := entries)]), f, id)
  {
    hide GrantedLevel, Carries;
  }

  lemma GrantStepLiftsNobody(w: World, s: State, kind: Kind, id0: Id, grants: seq<Grant>, id: Id)
    requires Inv(s) && SharedThing(w, s, kind, id0).None? && Grants(s, kind, id0).Some?
    requires Inv(WithGrants(s, kind, id0, grants)) && GrantsOk(grants) && id in s.dashboards
    ensures Rank(AccessOf(w, WithGrants(s, kind, id0, grants), id)) <= Rank(AccessOf(w, s, id))
  {
    var next := WithGrants(s, kind, id0, grants);
    if kind.Dashboards? {
      WhoMayShareDashboards(w, s, id0);
      if id == id0 && s.dashboards[id].owner.Some? && s.dashboards[id].owner.value != w.caller { AccessRank(w, s, id); }
      hide GrantedLevel, Inv, GrantsOk;
      assert forall f :: f in next.folders ==> NoGain(w, s, next, f, id);
    } else {
      forall f | f in next.folders ensures NoGain(w, s, next, f, id) { FolderGrantsNoGain(w, s, id0, grants, f, id); }
      hide GrantedLevel, Inv, GrantsOk, Through;
    }
    hide AccessOf;
    AccessFollowsSources(w, s, next, id);
  }

  lemma FileStepLiftsNobody(w: World, s: State, a: Action, id: Id)
    requires Inv(s) && (a.FileUnder? || a.Unfile?) && id in s.dashboards
    ensures Rank(AccessOf(w, Step(w, s, a).0, id)) <= Rank(AccessOf(w, s, id))
  {
    StepKeepsInv(w, s, a);
    AccessTellsOwner(w, s, a.id, a.dashboard);
    var next := Step(w, s, a).0;
    var owner := s.dashboards[id].owner;
    if next != s && owner.Some? && owner.value != w.caller {
      var carries := a.FileUnder? && CarriesFor(w, s, a.dashboard);
      AccessRank(w, s, id);
      hide AccessOf, GrantedLevel, Inv, FolderAccessOf;
      if !(carries && id == a.dashboard) {
        forall f | f in next.folders ensures NoGain(w, s, next, f, id) {
          FilingNoGain(w, s, a.id, a.dashboard, carries, f, id);
        }
      }
      AccessFollowsSources(w, s, next, id);
    }
  }

  lemma SameFolderNoGain(w: World, s: State, next: State, f: Id, id: Id)
    requires f in s.folders && f in next.folders
    requires next.folders[f] == s.folders[f].(name := next.folders[f].name)
    ensures NoGain(w, s, next, f, id)
  {
    hide GrantedLevel;
  }

  lemma EmptyFolderNoGain(w: World, s: State, next: State, f: Id, id: Id)
    requires f in next.folders && next.folders[f].entries == []
    ensures NoGain(w, s, next, f, id)
  {
  }

  lemma FolderStepLiftsNobody(w: World, s: State, a: Action, id: Id)
    requires Inv(s) && WellFormed(s, a) && (a.CreateFolder? || a.RenameFolder? || a.DeleteFolder?) && id in s.dashboards
    ensures Rank(AccessOf(w, Step(w, s, a).0, id)) <= Rank(AccessOf(w, s, id))
  {
    StepKeepsInv(w, s, a);
    AccessTellsOwner(w, s, a.id, id);
    hide GrantedLevel, Inv, AccessOf;
    var next := Step(w, s, a).0;
    forall f | f in next.folders ensures NoGain(w, s, next, f, id) {
      if f in s.folders { SameFolderNoGain(w, s, next, f, id); } else { EmptyFolderNoGain(w, s, next, f, id); }
    }
    hide Step, NoGain;
    AccessFollowsSources(w, s, next, id);
  }

  /** No step but a transfer gives the caller more access to any dashboard than before. */
  lemma StepLiftsNobody(w: World, s: State, a: Action, id: Id)
    requires Inv(s) && WellFormed(s, a) && !a.Transfer?
    ensures Rank(AccessOf(w, Step(w, s, a).0, id)) <= Rank(AccessOf(w, s, id))
    ensures (id in Step(w, s, a).0.dashboards <==> id in s.dashboards)
    ensures OwnOrDirect(w, Step(w, s, a).0, id) ==> OwnOrDirect(w, s, id)
  {
    if id in s.dashboards {
      match a
      case PutGrant(kind, id0, grantee, level) => GrantLiftsNobody(w, s, a, id);
      case DeleteGrant(kind, id0, grantee) => GrantLiftsNobody(w, s, a, id);
      case FileUnder(f, d) => FileStepLiftsNobody(w, s, a, id);
      case Unfile(f, d) => FileStepLiftsNobody(w, s, a, id);
      case Pin(_) => PinLiftsNobody(w, s, a, id);
      case Unpin(_) => PinLiftsNobody(w, s, a, id);
      case _ => FolderStepLiftsNobody(w, s, a, id);
    }
  }

  lemma PinLiftsNobody(w: World, s: State, a: Action, id: Id)
    requires Inv(s) && (a.Pin? || a.Unpin?) && id in s.dashboards
    ensures Rank(AccessOf(w, Step(w, s, a).0, id)) <= Rank(AccessOf(w, s, id))
  {
    StepKeepsInv(w, s, a);
    var next := Step(w, s, a).0;
    hide AccessOf, Inv, GrantedLevel;
    forall f | f in next.folders ensures NoGain(w, s, next, f, id) {
      SameFolderNoGain(w, s, next, f, id);
    }
    hide Step, NoGain;
    AccessFollowsSources(w, s, next, id);
  }

  lemma GrantLiftsNobody(w: World, s: State, a: Action, id: Id)
    requires Inv(s) && WellFormed(s, a) && (a.PutGrant? || a.DeleteGrant?) && id in s.dashboards
    ensures Rank(AccessOf(w, Step(w, s, a).0, id)) <= Rank(AccessOf(w, s, id))
    ensures OwnOrDirect(w, Step(w, s, a).0, id) ==> OwnOrDirect(w, s, id)
  {
    hide AccessOf, GrantsOk, Inv;
    if SharedThing(w, s, a.kind, a.id).None? {
      ShareableExists(w, s, a.kind, a.id);
      if a.kind.Dashboards? { WhoMayShareDashboards(w, s, a.id); }
      hide SharedThing;
      StepKeepsInv(w, s, a);
      var grants := Grants(s, a.kind, a.id).value;
      GrantsWithoutOk(grants, a.grantee);
      if a.PutGrant? {
        PutGrantKeeps(grants, a.grantee, a.level);
        GrantStepLiftsNobody(w, s, a.kind, a.id, GrantsWithout(grants, a.grantee) + [Grant(a.grantee, a.level)], id);
      } else {
        GrantStepLiftsNobody(w, s, a.kind, a.id, GrantsWithout(grants, a.grantee), id);
      }
    }
  }

  lemma {:induction false} SameLevels(w: World, v: World, grants: seq<Grant>)
    requires w.caller == v.caller
    ensures LevelsFor(w, grants) == LevelsFor(v, grants)
  {
    if grants != [] { SameLevels(w, v, grants[1..]); }
  }

  /** Being an administrator gives no access to an owned dashboard: what administrators alone reach
      are folders without an owner, and these hold only dashboards without one. */
  lemma AccessIgnoresRoles(w: World, v: World, s: State, id: Id)
    requires Inv(s) && w.caller == v.caller
    ensures AccessOf(w, s, id) == AccessOf(v, s, id)
    ensures OwnOrDirect(w, s, id) <==> OwnOrDirect(v, s, id)
  {
    if id in s.dashboards && s.dashboards[id].owner.Some? {
      SameLevels(w, v, s.dashboards[id].grants);
      forall f | f in s.folders ensures Through(w, s, f, id) == Through(v, s, f, id) {
        assert FolderOk(s.dashboards, s.folders[f]);
        SameLevels(w, v, s.folders[f].grants);
      }
      hide Through, Inv, LevelsFor;
    }
  }

  /** No escalation. Over every run without a transfer the caller's access to a dashboard never rises,
      and a caller who neither owns it nor holds an editor grant on it never comes to, whatever is
      filed, shared, pinned or renamed and whoever is made an administrator on the way. */
  lemma {:induction false} NoEscalation(w: World, s: State, turns: seq<Turn>, admins: set<Person>, id: Id)
    requires Inv(s) && WellFormedRun(w.caller, s, turns)
    requires forall i :: 0 <= i < |turns| ==> !turns[i].action.Transfer?
    ensures var later, after := World(w.caller, admins), Run(w.caller, s, turns);
            && Rank(AccessOf(later, after, id)) <= Rank(AccessOf(w, s, id))
            && (OwnOrDirect(later, after, id) ==> OwnOrDirect(w, s, id))
  {
    hide AccessOf, OwnOrDirect, Step, Inv, WellFormed;
    RunKeepsInv(w.caller, s, turns);
    if turns == [] {
      AccessIgnoresRoles(w, World(w.caller, admins), s, id);
    } else {
      var init, last := turns[..|turns| - 1], turns[|turns| - 1];
      RunPrefix(w.caller, s, turns);
      NoEscalation(w, s, init, last.admins, id);
      RunKeepsInv(w.caller, s, init);
      StepLiftsNobody(World(w.caller, last.admins), Run(w.caller, s, init), last.action, id);
      AccessIgnoresRoles(World(w.caller, last.admins), World(w.caller, admins), Run(w.caller, s, turns), id);
    }
  }

  // ---- how things come to be held ----

  predicate HoldsThing(w: World, s: State, kind: Kind, id: Id) {
    Grants(s, kind, id).Some? && Holds(w, OwnerOf(s, kind, id), Grants(s, kind, id).value)
  }

  /** The caller is handed the thing while its owner is no administrator, or makes the folder. */
  predicate ComesBy(w: World, s: State, a: Action, kind: Kind, id: Id) {
    || (a == Transfer(kind, id, w.caller) && Grants(s, kind, id).Some? && IsOrphaned(w, OwnerOf(s, kind, id))
        && w.caller in w.admins)
    || (kind.Folders? && a.CreateFolder? && a.id == id)
  }

  lemma StepGains(w: World, s: State, a: Action, kind: Kind, id: Id)
    requires Inv(s) && WellFormed(s, a)
    requires HoldsThing(w, Step(w, s, a).0, kind, id) && !HoldsThing(w, s, kind, id)
    ensures ComesBy(w, s, a, kind, id)
  {
    hide AccessOf, CarriesFor, GrantsWithout, GrantedLevel, Inv;
    if a.PutGrant? || a.DeleteGrant? {
      if SharedThing(w, s, a.kind, a.id).None? {
        SharersHold(w, s, a.kind, a.id);
        hide SharedThing, Holds;
      }
    } else {
      hide SharedThing;
    }
  }

  lemma SharersHold(w: World, s: State, kind: Kind, id: Id)
    requires Inv(s) && SharedThing(w, s, kind, id).None?
    ensures HoldsThing(w, s, kind, id)
  {
    if kind.Dashboards? { WhoMayShareDashboards(w, s, id); } else { WhoMayShareFolders(w, s, id); }
    hide SharedThing, Inv;
  }

  lemma HoldingIgnoresRoles(w: World, v: World, s: State, kind: Kind, id: Id)
    requires w.caller == v.caller
    ensures HoldsThing(w, s, kind, id) <==> HoldsThing(v, s, kind, id)
  {
    if Grants(s, kind, id).Some? { SameLevels(w, v, Grants(s, kind, id).value); }
    hide LevelsFor;
  }

  /** Over every run, transfers, changes of roles and all, the caller comes to own a thing or to hold an
      editor grant on it only by a transfer of that thing to himself while he is an administrator and
      its owner is none, or, if it is a folder, by making it. */
  lemma {:induction false} HeldByTransferOnly(w: World, s: State, turns: seq<Turn>, kind: Kind, id: Id)
    returns (i: nat)
    requires Inv(s) && WellFormedRun(w.caller, s, turns)
    requires HoldsThing(w, Run(w.caller, s, turns), kind, id) && !HoldsThing(w, s, kind, id)
    ensures i < |turns|
    ensures ComesBy(World(w.caller, turns[i].admins), Run(w.caller, s, turns[..i]), turns[i].action, kind, id)
  {
    var init, last := turns[..|turns| - 1], turns[|turns| - 1];
    var turn := World(w.caller, last.admins);
    RunPrefix(w.caller, s, turns);
    hide Step, HoldsThing, ComesBy, Inv, WellFormed;
    if HoldsThing(w, Run(w.caller, s, init), kind, id) {
      i := HeldByTransferOnly(w, s, init, kind, id);
      assert init[..i] == turns[..i];
    } else {
      RunKeepsInv(w.caller, s, init);
      HoldingIgnoresRoles(w, turn, Run(w.caller, s, init), kind, id);
      HoldingIgnoresRoles(w, turn, Run(w.caller, s, turns), kind, id);
      StepGains(turn, Run(w.caller, s, init), last.action, kind, id);
      i := |turns| - 1;
    }
  }

  // ---- the carries bit is frozen ----

  /** Only filing or unfiling a dashboard in a folder, or deleting the folder, changes what the folder
      carries of it: revoking the grant it was filed on does not. */
  lemma CarriesIsFrozen(w: World, s: State, a: Action, f: Id, id: Id)
    requires Inv(s) && WellFormed(s, a) && f in s.folders
    requires a != DeleteFolder(f) && a != FileUnder(f, id) && a != Unfile(f, id)
    ensures f in Step(w, s, a).0.folders && (Carries(Step(w, s, a).0.folders[f], id) <==> Carries(s.folders[f], id))
  {
    hide AccessOf, FolderAccessOf, SharedThing, CarriesFor, Inv;
    if a.FileUnder? || a.Unfile? {
      AccessTellsOwner(w, s, a.id, a.dashboard);
      EntriesWithoutOk(s.folders[f].entries, a.dashboard);
    }
    if a.PutGrant? || a.DeleteGrant? {
      if SharedThing(w, s, a.kind, a.id).None? { ShareableExists(w, s, a.kind, a.id); }
    }
  }
}
