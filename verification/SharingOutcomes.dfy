/** Who reaches what, said of the stored owners, grants and entries alone, and with it when each handler
    does what it is asked and what it then changes for whom. */
module SharingOutcomes {
  import opened Common
  import opened Sharing
  import opened SharingLaws

  /** A grant of this level to the person, or to everyone. */
  predicate Given(grants: seq<Grant>, p: Person, level: Access) {
    exists g :: g in grants && (g.grantee == p || g.grantee == "everyone") && g.level == level
  }

  /** The folder is the caller's to run: he owns it, or administers it where it has no owner. */
  predicate Keeps(w: World, f: Folder) {
    f.owner == Some(w.caller) || (f.owner.None? && w.caller in w.admins)
  }

  predicate Edits(w: World, f: Folder) {
    Keeps(w, f) || (f.owner.Some? && Given(f.grants, w.caller, Editor))
  }

  predicate Sees(w: World, f: Folder) {
    Edits(w, f) || (f.owner.Some? && Given(f.grants, w.caller, Viewer))
  }

  predicate Lends(f: Folder, d: Id) {
    exists e :: e in f.entries && e.dashboard == d && e.carries
  }

  /** Owning a dashboard, which everybody does one without an owner, or a grant to edit it. */
  predicate EditsItself(w: World, d: Dashboard) {
    d.owner.None? || d.owner.value == w.caller || Given(d.grants, w.caller, Editor)
  }

  predicate MoreThanViewer(access: Option<Access>) {
    access.Some? && !access.value.Viewer?
  }

  // ---- who reaches what ----

  lemma GivenLevel(w: World, grants: seq<Grant>)
    requires GrantsOk(grants)
    ensures GrantedLevel(w, grants) == Some(Editor) <==> Given(grants, w.caller, Editor)
    ensures GrantedLevel(w, grants) != None <==> Given(grants, w.caller, Editor) || Given(grants, w.caller, Viewer)
    ensures GrantedLevel(w, grants) in {None, Some(Viewer), Some(Editor)}
  {
    hide GrantedLevel;
    GrantedLevelMeans(w, grants);
    forall g | g in grants ensures g.level == Viewer || g.level == Editor {
      var i :| 0 <= i < |grants| && grants[i] == g;
    }
  }

  lemma FolderAccessMeans(w: World, s: State, f: Id)
    requires Inv(s)
    ensures FolderAccessOf(w, s, f).Some? <==> f in s.folders && Sees(w, s.folders[f])
    ensures MoreThanViewer(FolderAccessOf(w, s, f)) <==>
              f in s.folders && Edits(w, s.folders[f])
    ensures FolderAccessOf(w, s, f) == Some(Owner) || FolderAccessOf(w, s, f) == Some(Ownerless) <==>
              f in s.folders && Keeps(w, s.folders[f])
    ensures FolderAccessOf(w, s, f) == Some(Ownerless) <==>
              f in s.folders && s.folders[f].owner.None? && w.caller in w.admins
  {
    hide GrantedLevel, Given;
    if f in s.folders {
      assert FolderOk(s.dashboards, s.folders[f]);
      GivenLevel(w, s.folders[f].grants);
    }
  }

  /** A dashboard without an owner is everybody's. An owned one is its owner's; it is edited by whoever
      was granted that or edits a folder that lends it, and seen by whoever was granted anything or sees
      such a folder; and by nobody else. */
  lemma AccessMeans(w: World, s: State, d: Id)
    requires Inv(s)
    ensures AccessOf(w, s, d) == Some(Ownerless) <==> d in s.dashboards && s.dashboards[d].owner.None?
    ensures AccessOf(w, s, d) == Some(Owner) <==> d in s.dashboards && s.dashboards[d].owner == Some(w.caller)
    ensures MoreThanViewer(AccessOf(w, s, d)) <==>
              && d in s.dashboards
              && (EditsItself(w, s.dashboards[d])
                  || exists f :: f in s.folders && Lends(s.folders[f], d) && Edits(w, s.folders[f]))
    ensures AccessOf(w, s, d).Some? <==>
              && d in s.dashboards
              && (EditsItself(w, s.dashboards[d]) || Given(s.dashboards[d].grants, w.caller, Viewer)
                  || exists f :: f in s.folders && Lends(s.folders[f], d) && Sees(w, s.folders[f]))
  {
    hide GrantedLevel, Given, FolderAccessOf, Edits, Sees, Lends;
    if d in s.dashboards {
      GivenLevel(w, s.dashboards[d].grants);
      forall f | f in s.folders
        ensures Through(w, s, f, d) in {None, Some(Viewer), Some(Editor)}
        ensures Through(w, s, f, d) == Some(Editor) <==> Lends(s.folders[f], d) && Edits(w, s.folders[f])
        ensures Through(w, s, f, d) == Some(Viewer) <==>
                  Lends(s.folders[f], d) && Sees(w, s.folders[f]) && !Edits(w, s.folders[f])
        ensures Edits(w, s.folders[f]) ==> Sees(w, s.folders[f])
      {
        ThroughMeans(w, s, f, d);
      }
      hide Through, Inv;
      if f :| f in s.folders && Lends(s.folders[f], d) && Edits(w, s.folders[f]) {
        assert Through(w, s, f, d) == Some(Editor);
      }
      if f :| f in s.folders && Lends(s.folders[f], d) && Sees(w, s.folders[f]) {
        assert Through(w, s, f, d) == Some(if Edits(w, s.folders[f]) then Editor else Viewer);
      }
    }
  }

  lemma ThroughMeans(w: World, s: State, f: Id, d: Id)
    requires Inv(s) && f in s.folders
    ensures Through(w, s, f, d) in {None, Some(Viewer), Some(Editor)}
    ensures Through(w, s, f, d) == Some(Editor) <==> Lends(s.folders[f], d) && Edits(w, s.folders[f])
    ensures Through(w, s, f, d) == Some(Viewer) <==>
              Lends(s.folders[f], d) && Sees(w, s.folders[f]) && !Edits(w, s.folders[f])
    ensures Edits(w, s.folders[f]) ==> Sees(w, s.folders[f])
  {
    hide GrantedLevel, Given, FolderAccessOf, Inv, Keeps;
    FolderAccessMeans(w, s, f);
  }

  // ---- what filing gives to others ----

  /** Filing a dashboard one owns or may edit in one's own right gives it to everybody who has the
      folder: to see, and to edit if he edits the folder. Filing one that one has through another folder
      gives nobody anything. No other dashboard is given or taken. */
  lemma FilingLends(w: World, s: State, f: Id, d: Id, v: World, other: Id)
    requires Inv(s) && Step(w, s, FileUnder(f, d)).1.Done?
    ensures f in s.folders && d in s.dashboards
    ensures var next := Step(w, s, FileUnder(f, d)).0;
            && (EditsItself(w, s.dashboards[d]) ==>
                  && (Sees(v, s.folders[f]) ==> AccessOf(v, next, d).Some?)
                  && (Edits(v, s.folders[f]) ==> MoreThanViewer(AccessOf(v, next, d))))
            && (!EditsItself(w, s.dashboards[d]) ==>
                  && (AccessOf(v, next, d).Some? ==> AccessOf(v, s, d).Some?)
                  && (MoreThanViewer(AccessOf(v, next, d)) ==> MoreThanViewer(AccessOf(v, s, d))))
            && (other != d ==> AccessOf(v, next, other) == AccessOf(v, s, other))
  {
    hide AccessOf, FolderAccessOf, Inv, Given, Lends, Step, Keeps, Edits, Sees;
    StepKeepsInv(w, s, FileUnder(f, d));
    FilingChanges(w, s, f, d);
    var next := Step(w, s, FileUnder(f, d)).0;
    AccessMeans(v, next, d);
    AccessMeans(v, s, d);
    FilingMovesOneEntry(s, next, f, d, other, EditsItself(w, s.dashboards[d]));
    SameRoles(v, s, next, f);
    if other != d { SameAccess(v, s, next, other); }
  }

  lemma SameAccess(v: World, s: State, next: State, d: Id)
    requires Inv(s) && Inv(next) && next.dashboards == s.dashboards && next.folders.Keys == s.folders.Keys
    requires forall g :: g in s.folders ==>
                           && (Lends(next.folders[g], d) <==> Lends(s.folders[g], d))
                           && (Edits(v, next.folders[g]) <==> Edits(v, s.folders[g]))
                           && (Sees(v, next.folders[g]) <==> Sees(v, s.folders[g]))
    ensures AccessOf(v, next, d) == AccessOf(v, s, d)
  {
    hide AccessOf, Inv, Given, Lends, Edits, Sees, EditsItself;
    AccessMeans(v, next, d);
    AccessMeans(v, s, d);
    if f :| f in s.folders && Lends(s.folders[f], d) && Edits(v, s.folders[f]) { assert f in next.folders; }
    if f :| f in s.folders && Lends(s.folders[f], d) && Sees(v, s.folders[f]) { assert f in next.folders; }
    if f :| f in next.folders && Lends(next.folders[f], d) && Edits(v, next.folders[f]) { assert f in s.folders; }
    if f :| f in next.folders && Lends(next.folders[f], d) && Sees(v, next.folders[f]) { assert f in s.folders; }
  }

  /** The folder with its entries changed gives the same people the same rights on it. */
  lemma SameRoles(v: World, s: State, next: State, f: Id)
    requires f in s.folders && next.folders.Keys == s.folders.Keys
    requires forall g :: g in s.folders ==> next.folders[g].owner == s.folders[g].owner
                                            && next.folders[g].grants == s.folders[g].grants
    ensures forall g :: g in s.folders ==>
              && (Edits(v, next.folders[g]) <==> Edits(v, s.folders[g]))
              && (Sees(v, next.folders[g]) <==> Sees(v, s.folders[g]))
  {
    hide Given;
  }

  lemma FilingMovesOneEntry(s: State, next: State, f: Id, d: Id, other: Id, carries: bool)
    requires f in s.folders && next.folders.Keys == s.folders.Keys
    requires forall g :: g in s.folders && g != f ==> next.folders[g] == s.folders[g]
    requires forall e :: e in next.folders[f].entries <==>
                           (e in s.folders[f].entries && e.dashboard != d) || e == Entry(d, carries)
    ensures Lends(next.folders[f], d) <==> carries
    ensures other != d ==>
              forall g :: g in s.folders ==> (Lends(next.folders[g], other) <==> Lends(s.folders[g], other))
    ensures forall g :: g in s.folders && g != f ==> (Lends(next.folders[g], d) <==> Lends(s.folders[g], d))
  {
    if carries { assert Entry(d, carries) in next.folders[f].entries; }
    if other != d {
      if e :| e in s.folders[f].entries && e.dashboard == other && e.carries { assert e in next.folders[f].entries; }
      if e :| e in next.folders[f].entries && e.dashboard == other && e.carries { assert e in s.folders[f].entries; }
    }
  }

  lemma FilingChanges(w: World, s: State, f: Id, d: Id)
    requires Inv(s) && Step(w, s, FileUnder(f, d)).1.Done?
    ensures f in s.folders && d in s.dashboards
    ensures var next := Step(w, s, FileUnder(f, d)).0;
            && next.dashboards == s.dashboards && next.folders.Keys == s.folders.Keys
            && (forall g :: g in s.folders && g != f ==> next.folders[g] == s.folders[g])
            && (forall g :: g in s.folders ==> next.folders[g].owner == s.folders[g].owner
                                               && next.folders[g].grants == s.folders[g].grants)
            && (forall e :: e in next.folders[f].entries <==>
                  (e in s.folders[f].entries && e.dashboard != d) || e == Entry(d, EditsItself(w, s.dashboards[d])))
  {
    hide AccessOf, FolderAccessOf, Inv, GrantedLevel, Given, EntriesWithout;
    AccessTellsOwner(w, s, f, d);
    InvGrants(s, d);
    GivenLevel(w, s.dashboards[d].grants);
    EntriesWithoutOk(s.folders[f].entries, d);
  }

  // ---- who may do what ----

  /** Folders are renamed and emptied by whoever edits them and deleted by whoever keeps them; and one is
      made by whoever has fewer than 200. */
  lemma WhoMayChangeFolders(w: World, s: State, id: Id, name: string, d: Id)
    requires Inv(s)
    ensures var there := id in s.folders;
            var renamed, deleted := Step(w, s, RenameFolder(id, name)).1, Step(w, s, DeleteFolder(id)).1;
            && renamed == (if !(there && Sees(w, s.folders[id])) then NotFound
                           else if Edits(w, s.folders[id]) then Done else Denied)
            && deleted == (if !(there && Sees(w, s.folders[id])) then NotFound
                           else if Keeps(w, s.folders[id]) then Done else Denied)
            && Step(w, s, Unfile(id, d)).1 == renamed
    ensures Step(w, s, CreateFolder(id, name)).1
            == if |set f | f in s.folders && s.folders[f].owner == Some(w.caller)| < 200 then Done
               else Conflict(TooMany)
  {
    hide AccessOf, FolderAccessOf, Inv, Given, EntriesWithout;
    FolderAccessMeans(w, s, id);
    assert OwnedBy(s, w.caller) == set f | f in s.folders && s.folders[f].owner == Some(w.caller);
  }

  /** A dashboard one has is filed where one edits, if both have an owner or neither has. */
  lemma WhoMayFile(w: World, s: State, id: Id, d: Id)
    requires Inv(s)
    ensures Step(w, s, FileUnder(id, d)).1
            == if !(id in s.folders && Sees(w, s.folders[id])) then NotFound
               else if !Edits(w, s.folders[id]) then Denied
               else if AccessOf(w, s, d).None? then NotFound
               else if d in s.dashboards && (s.dashboards[d].owner.None? <==> s.folders[id].owner.None?) then Done
               else Conflict(WrongShelf)
  {
    hide AccessOf, FolderAccessOf, Inv, Given, EntriesWithout, CarriesFor;
    FolderAccessMeans(w, s, id);
    AccessTellsOwner(w, s, id, d);
  }

  /** And nothing else changes: a renamed folder keeps everything but its name, a deleted one is gone, a
      new one is the caller's, empty and shared with nobody. */
  lemma FoldersAfter(w: World, s: State, a: Action)
    requires Inv(s) && (a.RenameFolder? || a.DeleteFolder? || a.CreateFolder?) && Step(w, s, a).1.Done?
    ensures var next := Step(w, s, a).0;
            && next.dashboards == s.dashboards && next.pins == s.pins
            && next.folders.Keys == (if a.DeleteFolder? then s.folders.Keys - {a.id} else s.folders.Keys + {a.id})
            && (forall g :: g in s.folders && g != a.id ==> next.folders[g] == s.folders[g])
            && (a.RenameFolder? ==> a.id in s.folders && next.folders[a.id] == s.folders[a.id].(name := a.name))
            && (a.CreateFolder? ==>
                  next.folders[a.id].owner == Some(w.caller) && next.folders[a.id].name == a.name
                  && next.folders[a.id].grants == [] && next.folders[a.id].entries == [])
  {
    hide AccessOf, FolderAccessOf;
    AccessTellsOwner(w, s, a.id, "");
  }

  /** A thing changes hands exactly from an owner who is no administrator to an administrator. */
  lemma WhoMayTransfer(w: World, s: State, kind: Kind, id: Id, to: Person)
    ensures var there := Grants(s, kind, id).Some?;
            var answer := Step(w, s, Transfer(kind, id, to)).1;
            && (there <==> if kind.Dashboards? then id in s.dashboards else id in s.folders)
            && answer == if !there then NotFound
                         else if OwnerOf(s, kind, id).None? then Conflict(NoOwner)
                         else if OwnerOf(s, kind, id).value in w.admins then Conflict(OwnerIsAdministrator)
                         else if to !in w.admins then NotAdministrator else Done
  {
  }

  /** It then has that owner and is otherwise as it was, grants and entries too, as is all the rest. */
  lemma TransferAfter(w: World, s: State, kind: Kind, id: Id, to: Person)
    requires Step(w, s, Transfer(kind, id, to)).1.Done?
    ensures var next := Step(w, s, Transfer(kind, id, to)).0;
            && next.pins == s.pins
            && next.dashboards.Keys == s.dashboards.Keys && next.folders.Keys == s.folders.Keys
            && (forall d :: d in s.dashboards ==>
                  next.dashboards[d] == if kind.Dashboards? && d == id then Dashboard(Some(to), s.dashboards[d].grants)
                                        else s.dashboards[d])
            && (forall f :: f in s.folders ==>
                  next.folders[f] == if kind.Folders? && f == id
                                     then Folder(s.folders[f].name, Some(to), s.folders[f].grants, s.folders[f].entries)
                                     else s.folders[f])
  {
  }

  /** A dashboard is pinned by whoever reaches it, up to twenty; and a pin is taken off at any time. */
  lemma WhoMayPin(w: World, s: State, id: Id)
    ensures Step(w, s, Pin(id)).1
            == if AccessOf(w, s, id).None? then NotFound
               else if id in s.pins || |s.pins| < 20 then Done else Conflict(TooMany)
    ensures Step(w, s, Unpin(id)).1 == if id in s.pins || AccessOf(w, s, id).Some? then Done else NotFound
  {
    hide AccessOf;
  }

  /** Every answer to a share. A dashboard is shared by an administrator who owns it or was granted editing; a
      folder too, unless a dashboard has its id: then he needs that dashboard's editor grant, or to own the
      folder. */
  lemma WhoMayGrant(w: World, s: State, kind: Kind, id: Id, grantee: Person, level: Access)
    requires Inv(s)
    ensures var put := Step(w, s, PutGrant(kind, id, grantee, level)).1;
            && Step(w, s, DeleteGrant(kind, id, grantee)).1 == put
            && put == if w.caller !in w.admins then Denied
                      else if kind.Dashboards? then
                        if AccessOf(w, s, id).None? then NotFound
                        else if s.dashboards[id].owner.None? then Conflict(NoOwner)
                        else if s.dashboards[id].owner.value == w.caller
                                || Given(s.dashboards[id].grants, w.caller, Editor)
                        then Done else Denied
                      else
                        if !(id in s.folders && Sees(w, s.folders[id])) then NotFound
                        else if s.folders[id].owner.None? then Conflict(NoOwner)
                        else if s.folders[id].owner.value == w.caller
                                || (Given(s.folders[id].grants, w.caller, Editor)
                                    && (id !in s.dashboards || Given(s.dashboards[id].grants, w.caller, Editor)))
                        then Done else Denied
  {
    hide AccessOf, FolderAccessOf, GrantedLevel, Given, GrantsWithout;
    if id in s.dashboards {
      InvGrants(s, id);
      GivenLevel(w, s.dashboards[id].grants);
    }
    if id in s.folders {
      assert FolderOk(s.dashboards, s.folders[id]);
      GivenLevel(w, s.folders[id].grants);
    }
    FolderAccessMeans(w, s, id);
    AccessMeans(w, s, id);
  }
}
