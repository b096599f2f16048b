/** The handlers in the source's form: methods that read and reassign the mock's three collections.
    Each is proved to answer and to change the state as `Sharing.Step` says. */
module SharingMock {
  import opened Common
  import opened Sharing
  import Laws = SharingLaws

  class Mock {
    const world: World
    var dashboards: map<Id, Dashboard>
    var folders: map<Id, Folder>
    var pins: seq<Id>

    constructor (world: World, seed: State)
      ensures this.world == world && Now() == seed
    {
      this.world := world;
      dashboards, folders, pins := seed.dashboards, seed.folders, seed.pins;
    }

    function Now(): State
      reads this
    {
      State(dashboards, folders, pins)
    }

    /** `accessOf`: ownership, the dashboard's own grants and every folder, and the strongest of
        them all. */
    method Access(id: Id) returns (access: Option<Access>)
      requires Laws.Inv(Now())
      ensures access == AccessOf(world, Now(), id)
    {
      if id !in dashboards { return None; }
      var dashboard := dashboards[id];
      if dashboard.owner.None? { return Some(Ownerless); }
      var owned: Option<Access> := if dashboard.owner.value == world.caller then Some(Owner) else None;
      var levels := [owned, GrantedLevel(world, dashboard.grants)];
      var unread := folders.Keys;
      while unread != {}
        invariant unread <= folders.Keys
        invariant |levels| >= 2 && levels[0] == owned && levels[1] == GrantedLevel(world, dashboard.grants)
        invariant forall f :: f in folders.Keys - unread ==> Through(world, Now(), f, id) in levels
        invariant forall i :: 2 <= i < |levels| ==>
                    levels[i] == None || exists f :: f in folders && Through(world, Now(), f, id) == levels[i]
      {
        hide GrantedLevel, Through;
        var f :| f in unread;
        unread := unread - {f};
        levels := levels + [Through(world, Now(), f, id)];
      }
      StrongestOfSources(world, Now(), id, levels);
      return Strongest(levels);
    }

    method PutGrant(kind: Kind, id: Id, grantee: Person, level: Sharing.Access) returns (r: Response)
      modifies this
      ensures (Now(), r) == Step(world, old(Now()), Sharing.PutGrant(kind, id, grantee, level))
    {
      var refused := SharedThing(world, Now(), kind, id);
      if refused.Some? { return refused.value; }
      if kind.Dashboards? {
        var thing := dashboards[id];
        dashboards := dashboards[id := thing.(grants := GrantsWithout(thing.grants, grantee)
            + [Grant(grantee, level)])];
      } else {
        var thing := folders[id];
        folders := folders[id := thing.(grants := GrantsWithout(thing.grants, grantee) + [Grant(grantee, level)])];
      }
      return Done;
    }

    method DeleteGrant(kind: Kind, id: Id, grantee: Person) returns (r: Response)
      modifies this
      ensures (Now(), r) == Step(world, old(Now()), Sharing.DeleteGrant(kind, id, grantee))
    {
      var refused := SharedThing(world, Now(), kind, id);
      if refused.Some? { return refused.value; }
      if kind.Dashboards? {
        dashboards := dashboards[id := dashboards[id].(grants := GrantsWithout(dashboards[id].grants, grantee))];
      } else {
        folders := folders[id := folders[id].(grants := GrantsWithout(folders[id].grants, grantee))];
      }
      return Done;
    }

    method Transfer(kind: Kind, id: Id, to: Person) returns (r: Response)
      modifies this
      ensures (Now(), r) == Step(world, old(Now()), Sharing.Transfer(kind, id, to))
    {
      if kind.Dashboards? && id !in dashboards { return NotFound; }
      if kind.Folders? && id !in folders { return NotFound; }
      var owner := if kind.Dashboards? then dashboards[id].owner else folders[id].owner;
      if owner.None? { return Conflict(NoOwner); }
      if owner.value in world.admins { return Conflict(OwnerIsAdministrator); }
      if to !in world.admins { return NotAdministrator; }
      if kind.Dashboards? {
        dashboards := dashboards[id := dashboards[id].(owner := Some(to))];
      } else {
        folders := folders[id := folders[id].(owner := Some(to))];
      }
      return Done;
    }

    method Pin(id: Id) returns (r: Response)
      requires Laws.Inv(Now())
      modifies this
      ensures (Now(), r) == Step(world, old(Now()), Sharing.Pin(id))
    {
      var access := Access(id);
      if access.None? { return NotFound; }
      if id in pins { return Done; }
      if |pins| >= MAX_PINS { return Conflict(TooMany); }
      pins := pins + [id];
      return Done;
    }

    method Unpin(id: Id) returns (r: Response)
      requires Laws.Inv(Now())
      modifies this
      ensures (Now(), r) == Step(world, old(Now()), Sharing.Unpin(id))
    {
      var at := IndexOf(id);
      if at == -1 {
        var access := Access(id);
        return if access.Some? then Done else NotFound;
      }
      WithoutFirst(pins, id, at);
      pins := pins[..at] + pins[at + 1..];
      return Done;
    }

    method IndexOf(id: Id) returns (at: int)
      ensures at == -1 ==> id !in pins
      ensures at != -1 ==> 0 <= at < |pins| && pins[at] == id && id !in pins[..at]
    {
      at := 0;
      while at < |pins|
        invariant 0 <= at <= |pins| && id !in pins[..at]
      {
        if pins[at] == id { return; }
        at := at + 1;
      }
      return -1;
    }

    method CreateFolder(id: Id, name: string) returns (r: Response)
      requires id !in folders
      modifies this
      ensures (Now(), r) == Step(world, old(Now()), Sharing.CreateFolder(id, name))
    {
      var owned := set f | f in folders && folders[f].owner == Some(world.caller);
      assert owned == OwnedBy(Now(), world.caller);
      if |owned| >= MAX_FOLDERS { return Conflict(TooMany); }
      folders := folders[id := Folder(name, Some(world.caller), [], [])];
      return Done;
    }

    method RenameFolder(id: Id, name: string) returns (r: Response)
      modifies this
      ensures (Now(), r) == Step(world, old(Now()), Sharing.RenameFolder(id, name))
    {
      var access := FolderAccessOf(world, Now(), id);
      if access.None? { return NotFound; }
      if access == Some(Viewer) { return Denied; }
      folders := folders[id := folders[id].(name := name)];
      return Done;
    }

    method DeleteFolder(id: Id) returns (r: Response)
      modifies this
      ensures (Now(), r) == Step(world, old(Now()), Sharing.DeleteFolder(id))
    {
      var access := FolderAccessOf(world, Now(), id);
      if access.None? { return NotFound; }
      if access != Some(Owner) && access != Some(Ownerless) { return Denied; }
      folders := folders - {id};
      return Done;
    }

    method FileUnder(id: Id, dashboard: Id) returns (r: Response)
      requires Laws.Inv(Now())
      modifies this
      ensures (Now(), r) == Step(world, old(Now()), Sharing.FileUnder(id, dashboard))
    {
      var access := FolderAccessOf(world, Now(), id);
      if access.None? { return NotFound; }
      if access == Some(Viewer) { return Denied; }
      var seen := Access(dashboard);
      if seen.None? { return NotFound; }
      if (seen == Some(Ownerless)) != (access == Some(Ownerless)) { return Conflict(WrongShelf); }
      var carries := CarriesFor(world, Now(), dashboard);
      var kept := EntriesWithout(folders[id].entries, dashboard);
      folders := folders[id := folders[id].(entries := kept + [Entry(dashboard, carries)])];
      return Done;
    }

    method Unfile(id: Id, dashboard: Id) returns (r: Response)
      modifies this
      ensures (Now(), r) == Step(world, old(Now()), Sharing.Unfile(id, dashboard))
    {
      var access := FolderAccessOf(world, Now(), id);
      if access.None? { return NotFound; }
      if access == Some(Viewer) { return Denied; }
      folders := folders[id := folders[id].(entries := EntriesWithout(folders[id].entries, dashboard))];
      return Done;
    }
  }

  lemma {:induction false} WithoutFirst(pins: seq<Id>, id: Id, at: nat)
    requires at < |pins| && pins[at] == id && id !in pins[..at]
    ensures PinsWithout(pins, id) == pins[..at] + pins[at + 1..]
  {
    if at > 0 {
      assert pins[0] in pins[..at];
      assert pins[1..][..at - 1] == pins[..at][1..];
      WithoutFirst(pins[1..], id, at - 1);
      assert pins == [pins[0]] + pins[1..];
    }
  }

  /** The levels folded are exactly the levels that some source of access gives. */
  ghost predicate Sources(w: World, s: State, id: Id, levels: seq<Option<Access>>)
    requires id in s.dashboards
  {
    && (forall level: Access :: Some(level) in levels && level != Owner ==> Reaches(w, s, id, level))
    && (forall level: Access :: Reaches(w, s, id, level) ==> Some(level) in levels)
    && (forall level :: level in levels ==> level in {None, Some(Viewer), Some(Editor), Some(Owner)})
  }

  lemma StrongestSource(w: World, s: State, id: Id, levels: seq<Option<Access>>)
    requires id in s.dashboards && s.dashboards[id].owner.Some? && Sources(w, s, id, levels)
    requires Some(Owner) in levels <==> s.dashboards[id].owner.value == w.caller
    ensures Strongest(levels) == AccessOf(w, s, id)
  {
    Laws.StrongestIsGreatest(levels);
    hide Strongest, Reaches;
    var best := Strongest(levels);
    forall level: Access | Some(level) in levels ensures Rank(Some(level)) <= Rank(best) {
      var i :| 0 <= i < |levels| && levels[i] == Some(level);
    }
  }

  /** Folding every source of access finds what `AccessOf` defines. */
  lemma StrongestOfSources(w: World, s: State, id: Id, levels: seq<Option<Access>>)
    requires Laws.Inv(s) && id in s.dashboards && s.dashboards[id].owner.Some?
    requires |levels| >= 2
    requires levels[0] == if s.dashboards[id].owner.value == w.caller then Some(Owner) else None
    requires levels[1] == GrantedLevel(w, s.dashboards[id].grants)
    requires forall f :: f in s.folders ==> Through(w, s, f, id) in levels
    requires forall i :: 2 <= i < |levels| ==>
               levels[i] == None || exists f :: f in s.folders && Through(w, s, f, id) == levels[i]
    ensures Strongest(levels) == AccessOf(w, s, id)
  {
    hide GrantedLevel, Through, Laws.Inv, Sources, AccessOf;
    SourcesMeet(w, s, id, levels);
    OwnerComesFirst(w, s, id, levels);
    StrongestSource(w, s, id, levels);
  }

  /** Neither a grant nor a folder makes an owner. */
  lemma OwnerComesFirst(w: World, s: State, id: Id, levels: seq<Option<Access>>)
    requires Laws.Inv(s) && id in s.dashboards && |levels| >= 2
    requires levels[1] == GrantedLevel(w, s.dashboards[id].grants)
    requires forall i :: 2 <= i < |levels| ==>
               levels[i] == None || exists f :: f in s.folders && Through(w, s, f, id) == levels[i]
    ensures Some(Owner) in levels <==> levels[0] == Some(Owner)
  {
    Laws.GrantedLevelMeans(w, s.dashboards[id].grants) by { Laws.InvGrants(s, id); }
    ThroughLevels(w, s, id);
    hide GrantedLevel, Through, Laws.Inv;
    forall i | 1 <= i < |levels| ensures levels[i] != Some(Owner) {
      if i >= 2 && levels[i].Some? { var f :| f in s.folders && Through(w, s, f, id) == levels[i]; }
    }
  }

  lemma ThroughLevels(w: World, s: State, id: Id)
    ensures forall f :: Through(w, s, f, id) in {None, Some(Viewer), Some(Editor)}
  {
  }

  lemma SourcesMeet(w: World, s: State, id: Id, levels: seq<Option<Access>>)
    requires Laws.Inv(s) && id in s.dashboards && |levels| >= 2
    requires levels[0] in {None, Some(Owner)} && levels[1] == GrantedLevel(w, s.dashboards[id].grants)
    requires forall f :: f in s.folders ==> Through(w, s, f, id) in levels
    requires forall i :: 2 <= i < |levels| ==>
               levels[i] == None || exists f :: f in s.folders && Through(w, s, f, id) == levels[i]
    ensures Sources(w, s, id, levels)
  {
    Laws.GrantedLevelMeans(w, s.dashboards[id].grants) by { Laws.InvGrants(s, id); }
    ThroughLevels(w, s, id);
    hide GrantedLevel, Through, Laws.Inv;
    forall level: Access | Some(level) in levels && level != Owner ensures Reaches(w, s, id, level) {
      var i :| 0 <= i < |levels| && levels[i] == Some(level);
    }
    forall level: Access | Reaches(w, s, id, level) ensures Some(level) in levels {
      if GrantedLevel(w, s.dashboards[id].grants) != Some(level) {
        var f :| f in s.folders && Through(w, s, f, id) == Some(level);
      } else {
        assert levels[1] in levels;
      }
    }
    forall level | level in levels ensures level in {None, Some(Viewer), Some(Editor), Some(Owner)} {
      var i :| 0 <= i < |levels| && levels[i] == level;
    }
  }
}
