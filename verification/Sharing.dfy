/** src/frontend/src/mocks/dashboard-handlers.ts: who reaches which dashboard and what each handler
    does. The mock stands in for the service's sharing and filing rules. */
module Sharing {
  import opened Common

  type Person = string
  type Id = string

  const EVERYONE: Person := "everyone"
  const MAX_FOLDERS := 200
  const MAX_PINS := 20

  datatype Access = Viewer | Editor | Owner | Ownerless

  /** `level` is Viewer or Editor. */
  datatype Grant = Grant(grantee: Person, level: Access)

  datatype Dashboard = Dashboard(owner: Option<Person>, grants: seq<Grant>)

  /** Whether the entry lets the folder's readers reach the dashboard was settled when it was filed. */
  datatype Entry = Entry(dashboard: Id, carries: bool)

  datatype Folder = Folder(name: string, owner: Option<Person>, grants: seq<Grant>, entries: seq<Entry>)

  datatype State = State(dashboards: map<Id, Dashboard>, folders: map<Id, Folder>, pins: seq<Id>)

  /** Who is asking, and who is an administrator. */
  datatype World = World(caller: Person, admins: set<Person>)

  datatype Kind = Dashboards | Folders

  datatype Action =
    | PutGrant(kind: Kind, id: Id, grantee: Person, level: Access)
    | DeleteGrant(kind: Kind, id: Id, grantee: Person)
    | Transfer(kind: Kind, id: Id, to: Person)
    | Pin(id: Id)
    | Unpin(id: Id)
    | CreateFolder(id: Id, name: string)
    | RenameFolder(id: Id, name: string)
    | DeleteFolder(id: Id)
    | FileUnder(id: Id, dashboard: Id)
    | Unfile(id: Id, dashboard: Id)

  datatype Refusal = NoOwner | OwnerIsAdministrator | TooMany | WrongShelf

  datatype Response = Done | NotFound | Denied | Conflict(why: Refusal) | NotAdministrator

  // ---- access ----

  function Rank(a: Option<Access>): nat {
    match a
    case None => 0
    case Some(Viewer) => 1
    case Some(Editor) => 2
    case Some(Owner) => 3
    case Some(Ownerless) => 3
  }

  /** The first of the highest levels, as the source folds them. */
  function Strongest(levels: seq<Option<Access>>): Option<Access> {
    if levels == [] then None
    else
      var best := Strongest(levels[..|levels| - 1]);
      var level := levels[|levels| - 1];
      if Rank(level) > Rank(best) then level else best
  }

  predicate Concerns(w: World, g: Grant) { g.grantee == w.caller || g.grantee == EVERYONE }

  function LevelsFor(w: World, grants: seq<Grant>): seq<Option<Access>> {
    if grants == [] then []
    else (if Concerns(w, grants[0]) then [Some(grants[0].level)] else []) + LevelsFor(w, grants[1..])
  }

  function GrantedLevel(w: World, grants: seq<Grant>): Option<Access> {
    Strongest(LevelsFor(w, grants))
  }

  function FolderAccessOf(w: World, s: State, id: Id): Option<Access> {
    if id !in s.folders then None
    else if s.folders[id].owner.None? then (if w.caller in w.admins then Some(Ownerless) else None)
    else if s.folders[id].owner.value == w.caller then Some(Owner)
    else GrantedLevel(w, s.folders[id].grants)
  }

  predicate Carries(f: Folder, id: Id) {
    exists e :: e in f.entries && e.dashboard == id && e.carries
  }

  /** What folder `f` lets the caller do with dashboard `id`. */
  function Through(w: World, s: State, f: Id, id: Id): Option<Access> {
    if f !in s.folders || !Carries(s.folders[f], id) then None
    else
      match FolderAccessOf(w, s, f)
      case None => None
      case Some(Viewer) => Some(Viewer)
      case Some(_) => Some(Editor)
  }

  predicate Reaches(w: World, s: State, id: Id, level: Access)
    requires id in s.dashboards
  {
    || GrantedLevel(w, s.dashboards[id].grants) == Some(level)
    || exists f :: f in s.folders && Through(w, s, f, id) == Some(level)
  }

  /** The caller's access to a dashboard: the strongest of ownership, grants and carrying folders. */
  function AccessOf(w: World, s: State, id: Id): Option<Access> {
    if id !in s.dashboards then None
    else if s.dashboards[id].owner.None? then Some(Ownerless)
    else if s.dashboards[id].owner.value == w.caller then Some(Owner)
    else if Reaches(w, s, id, Editor) then Some(Editor)
    else if Reaches(w, s, id, Viewer) then Some(Viewer)
    else None
  }

  /** Whether filing the dashboard lets the folder carry it. */
  predicate CarriesFor(w: World, s: State, id: Id) {
    id in s.dashboards &&
    (s.dashboards[id].owner.None? || s.dashboards[id].owner.value == w.caller
     || GrantedLevel(w, s.dashboards[id].grants) == Some(Editor))
  }

  predicate IsOrphaned(w: World, owner: Option<Person>) { owner.Some? && owner.value !in w.admins }

  // ---- sharing ----

  function Grants(s: State, kind: Kind, id: Id): Option<seq<Grant>> {
    if kind.Dashboards? then (if id in s.dashboards then Some(s.dashboards[id].grants) else None)
    else (if id in s.folders then Some(s.folders[id].grants) else None)
  }

  function OwnerOf(s: State, kind: Kind, id: Id): Option<Person>
    requires Grants(s, kind, id).Some?
  {
    if kind.Dashboards? then s.dashboards[id].owner else s.folders[id].owner
  }

  /** `shareRefusal`. The grants it looks at last are a dashboard's whenever one has that id, whatever
      the kind. */
  function ShareRefusal(w: World, s: State, kind: Kind, id: Id): Option<Response> {
    var access := if kind.Dashboards? then AccessOf(w, s, id) else FolderAccessOf(w, s, id);
    match access
    case None => Some(NotFound)
    case Some(Ownerless) => Some(Conflict(NoOwner))
    case Some(Viewer) => Some(Denied)
    case Some(Owner) => None
    case Some(Editor) =>
      var grants := if id in s.dashboards then s.dashboards[id].grants
                    else if id in s.folders then s.folders[id].grants else [];
      if GrantedLevel(w, grants) == Some(Editor) then None else Some(Denied)
  }

  /** Why the grants of a thing may not be read or changed, if they may not. */
  function SharedThing(w: World, s: State, kind: Kind, id: Id): Option<Response> {
    if w.caller !in w.admins then Some(Denied)
    else
      var refused := ShareRefusal(w, s, kind, id);
      if refused.Some? then refused else if Grants(s, kind, id).None? then Some(NotFound) else None
  }

  function WithGrants(s: State, kind: Kind, id: Id, grants: seq<Grant>): State
    requires Grants(s, kind, id).Some?
  {
    if kind.Dashboards? then s.(dashboards := s.dashboards[id := s.dashboards[id].(grants := grants)])
    else s.(folders := s.folders[id := s.folders[id].(grants := grants)])
  }

  function GrantsWithout(grants: seq<Grant>, grantee: Person): seq<Grant> {
    if grants == [] then []
    else (if grants[0].grantee == grantee then [] else [grants[0]]) + GrantsWithout(grants[1..], grantee)
  }

  function EntriesWithout(entries: seq<Entry>, dashboard: Id): seq<Entry> {
    if entries == [] then []
    else (if entries[0].dashboard == dashboard then [] else [entries[0]]) + EntriesWithout(entries[1..], dashboard)
  }

  function PinsWithout(pins: seq<Id>, id: Id): seq<Id> {
    if pins == [] then [] else if pins[0] == id then pins[1..] else [pins[0]] + PinsWithout(pins[1..], id)
  }

  function OwnedBy(s: State, p: Person): set<Id> {
    set f | f in s.folders && s.folders[f].owner == Some(p)
  }

  // ---- the handlers, as steps ----

  /** A level on the wire is Viewer or Editor, and a new folder's id is a new one. */
  predicate WellFormed(s: State, a: Action) {
    && (a.PutGrant? ==> a.level == Viewer || a.level == Editor)
    && (a.CreateFolder? ==> a.id !in s.folders)
  }

  function Step(w: World, s: State, a: Action): (State, Response) {
    match a
    case PutGrant(kind, id, grantee, level) =>
      var refused := SharedThing(w, s, kind, id);
      if refused.Some? then (s, refused.value)
      else
        var kept := GrantsWithout(Grants(s, kind, id).value, grantee);
        (WithGrants(s, kind, id, kept + [Grant(grantee, level)]), Done)
    case DeleteGrant(kind, id, grantee) =>
      var refused := SharedThing(w, s, kind, id);
      if refused.Some? then (s, refused.value)
      else (WithGrants(s, kind, id, GrantsWithout(Grants(s, kind, id).value, grantee)), Done)
    case Transfer(kind, id, to) =>
      if Grants(s, kind, id).None? then (s, NotFound)
      else if OwnerOf(s, kind, id).None? then (s, Conflict(NoOwner))
      else if !IsOrphaned(w, OwnerOf(s, kind, id)) then (s, Conflict(OwnerIsAdministrator))
      else if to !in w.admins then (s, NotAdministrator)
      else if kind.Dashboards? then
        (s.(dashboards := s.dashboards[id := s.dashboards[id].(owner := Some(to))]), Done)
      else (s.(folders := s.folders[id := s.folders[id].(owner := Some(to))]), Done)
    case Pin(id) =>
      if AccessOf(w, s, id).None? then (s, NotFound)
      else if id in s.pins then (s, Done)
      else if |s.pins| >= MAX_PINS then (s, Conflict(TooMany))
      else (s.(pins := s.pins + [id]), Done)
    case Unpin(id) =>
      if id !in s.pins then (s, if AccessOf(w, s, id).Some? then Done else NotFound)
      else (s.(pins := PinsWithout(s.pins, id)), Done)
    case CreateFolder(id, name) =>
      if |OwnedBy(s, w.caller)| >= MAX_FOLDERS then (s, Conflict(TooMany))
      else (s.(folders := s.folders[id := Folder(name, Some(w.caller), [], [])]), Done)
    case RenameFolder(id, name) =>
      var access := FolderAccessOf(w, s, id);
      if access.None? then (s, NotFound)
      else if access == Some(Viewer) then (s, Denied)
      else (s.(folders := s.folders[id := s.folders[id].(name := name)]), Done)
    case DeleteFolder(id) =>
      var access := FolderAccessOf(w, s, id);
      if access.None? then (s, NotFound)
      else if access != Some(Owner) && access != Some(Ownerless) then (s, Denied)
      else (s.(folders := s.folders - {id}), Done)
    case FileUnder(id, dashboard) =>
      var access := FolderAccessOf(w, s, id);
      if access.None? then (s, NotFound)
      else if access == Some(Viewer) then (s, Denied)
      else
        var seen := AccessOf(w, s, dashboard);
        if seen.None? then (s, NotFound)
        else if (seen == Some(Ownerless)) != (access == Some(Ownerless)) then (s, Conflict(WrongShelf))
        else
          var entries := EntriesWithout(s.folders[id].entries, dashboard)
              + [Entry(dashboard, CarriesFor(w, s, dashboard))];
          (s.(folders := s.folders[id := s.folders[id].(entries := entries)]), Done)
    case Unfile(id, dashboard) =>
      var access := FolderAccessOf(w, s, id);
      if access.None? then (s, NotFound)
      else if access == Some(Viewer) then (s, Denied)
      else
        var entries := EntriesWithout(s.folders[id].entries, dashboard);
        (s.(folders := s.folders[id := s.folders[id].(entries := entries)]), Done)
  }
}
