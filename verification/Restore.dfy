/** Restoring a stored tree to a directory (src/restore.rs). */
module Restores {
  import opened Base
  import opened Apaths
  import opened Entries
  import opened Sorting
  import opened Storage
  import opened Index
  import opened Stitch
  import opened EntryIter
  import opened BlockDirs
  import opened Content
  import LiveTree

  /** Where something is: the names on the way from the destination down. */
  type Location = seq<string>

  datatype Attrs = Attrs(time: int, mode: nat, user: string, group: string)

  datatype Thing =
    | Folder(attrs: Attrs)
    | Regular(bytes: Bytes, attrs: Attrs)
    | Link(target: string, attrs: Attrs)

  type Things = map<Location, Thing>

  // ----- what there is where

  datatype Shape = FolderShape | FileShape | LinkShape

  type Shapes = map<Location, Shape>

  function ShapeOf(t: Thing): Shape {
    match t
    case Folder(_) => FolderShape
    case Regular(_, _) => FileShape
    case Link(_, _) => LinkShape
  }

  function ShapesOf(things: Things): Shapes {
    map p | p in things :: ShapeOf(things[p])
  }

  const EMPTY: Shapes := map[[] := FolderShape]

  /** The first `k` locations on the way to `p`. */
  function Upto(p: Location, k: nat): set<Location>
    requires k <= |p| + 1
  {
    set i | 0 <= i < k :: p[..i]
  }

  /** A location and everything above it. */
  function Above(p: Location): set<Location> {
    Upto(p, |p| + 1)
  }

  lemma AboveMeans(p: Location, q: Location)
    ensures q in Above(p) <==> q <= p
  {
    if q <= p {
      assert p[..|q|] == q;
    }
  }

  predicate HasFolder(m: Shapes, p: Location) {
    p != [] && p[..|p| - 1] in m && m[p[..|p| - 1]].FolderShape?
  }

  predicate NothingInTheWay(m: Shapes, p: Location) {
    forall q :: q in Above(p) && q in m ==> m[q].FolderShape?
  }

  function WithFolders(m: Shapes, ps: set<Location>): Shapes {
    m + map p | p in ps :: FolderShape
  }

  // ----- restoring as far as it concerns what there is where

  /** Whether an entry can be put in its place: a directory is made with everything above it, anything else only into a
      directory that is there. */
  predicate Fits(m: Shapes, e: IndexEntry)
    requires IsValid(e.apath)
  {
    var p := Names(e.apath);
    match e.kind
    case Dir => NothingInTheWay(m, p)
    case File => HasFolder(m, p) && (p in m ==> m[p].FileShape?)
    case Symlink => HasFolder(m, p) && p !in m && e.target.Some?
    case Unknown => false
  }

  function Put(m: Shapes, e: IndexEntry): Shapes
    requires IsValid(e.apath)
  {
    var p := Names(e.apath);
    if !Fits(m, e) then m
    else if e.kind.Dir? then WithFolders(m, Above(p))
    else m[p := if e.kind.File? then FileShape else LinkShape]
  }

  ghost predicate ValidPaths(es: seq<IndexEntry>) {
    forall e :: e in es ==> IsValid(e.apath)
  }

  /** What there is after some entries were restored to an empty directory. */
  ghost function Laid(es: seq<IndexEntry>): Shapes
    requires ValidPaths(es)
  {
    if es == [] then EMPTY else Put(Laid(es[..|es| - 1]), es[|es| - 1])
  }

  predicate Readable(blocks: Blocks, e: IndexEntry) {
    e.kind.File? ==> ReadAll(blocks, e.addrs).Ok?
  }

  ghost predicate Succeeds(es: seq<IndexEntry>, i: nat, blocks: Blocks)
    requires ValidPaths(es) && i < |es|
  {
    Fits(Laid(es[..i]), es[i]) && Readable(blocks, es[i])
  }

  // ----- the directory restored to

  /** Everything but `p` is as before, except that the attributes of directories may differ. */
  ghost predicate Undisturbed(before: Things, after: Things, p: Location) {
    forall q :: q in before && q != p ==>
      q in after && ShapeOf(after[q]) == ShapeOf(before[q]) && (!before[q].Folder? ==> after[q] == before[q])
  }

  /** Only what is at `p` differs, and is of the same kind. */
  ghost predicate OnlyAt(before: Things, after: Things, p: Location) {
    p in before && p in after && after == before[p := after[p]] && ShapeOf(after[p]) == ShapeOf(before[p])
  }

  /** Two things differ in their attributes at most. */
  predicate SameContent(t: Thing, u: Thing) {
    t.(attrs := u.attrs) == u
  }

  /** Only directories on the way to `p` have been added. */
  ghost predicate FoldersAdded(before: Things, after: Things, p: Location) {
    Undisturbed(before, after, p) && (p in before && before[p].Folder? ==> p in after && after[p].Folder?) &&
    after.Keys <= before.Keys + Above(p) &&
    forall q :: q in after && !after[q].Folder? ==> q in before && after[q] == before[q]
  }

  lemma NoneAdded(things: Things, p: Location)
    ensures FoldersAdded(things, things, p) && WithFolders(ShapesOf(things), Upto(p, 0)) == ShapesOf(things)
  {
  }

  lemma FolderAdded(before: Things, now: Things, next: Things, p: Location, q: Location)
    requires FoldersAdded(before, now, p) && q in Above(p) && q !in now
    requires Undisturbed(now, next, q) && q in next && next[q].Folder? && next.Keys == now.Keys + {q}
    ensures FoldersAdded(before, next, p)
  {
    hide Above;
  }

  /** Something put into a directory, which changes the time of that. */
  function Added(things: Things, p: Location, t: Thing, now: int): Things {
    if HasFolder(ShapesOf(things), p)
    then
      var d := things[p[..|p| - 1]];
      things[p[..|p| - 1] := d.(attrs := d.attrs.(time := now))][p := t]
    else things[p := t]
  }

  lemma AddedShapes(things: Things, p: Location, t: Thing, now: int)
    ensures ShapesOf(Added(things, p, t, now)) == ShapesOf(things)[p := ShapeOf(t)]
    ensures Undisturbed(things, Added(things, p, t, now), p)
    ensures p in Added(things, p, t, now) && Added(things, p, t, now)[p] == t
    ensures Added(things, p, t, now).Keys == things.Keys + {p}
  {
  }

  /** The file system at the destination.  Operations may fail at some locations; some users and groups are known; and
      owners may or may not be changed. */
  class Disk {
    const bad: Location -> bool
    const known: string -> bool
    const mayChown: bool
    var things: Things

    constructor (bad: Location -> bool, known: string -> bool, mayChown: bool, attrs: Attrs)
      ensures this.bad == bad && this.known == known && this.mayChown == mayChown && things == map[[] := Folder(attrs)]
    {
      this.bad, this.known, this.mayChown := bad, known, mayChown;
      things := map[[] := Folder(attrs)];
    }

    predicate SuitsMode(a: Attrs, mode: Option<nat>) {
      mode.Some? ==> a.mode == mode.value
    }

    /** The owner is set as far as it is known here, if it may be. */
    predicate SuitsOwner(a: Attrs, owner: Owner) {
      mayChown ==>
        (owner.user.Some? && known(owner.user.value) ==> a.user == owner.user.value) &&
        (owner.group.Some? && known(owner.group.value) ==> a.group == owner.group.value)
    }

    /** The attributes are those of the entry; a link has no mode of its own. */
    predicate Suits(a: Attrs, e: IndexEntry) {
      a.time == e.Time() && SuitsOwner(a, e.owner) && (e.kind.Symlink? || SuitsMode(a, e.unixMode))
    }

    /** Create something where nothing is yet; fails if there is no directory to put it into. */
    method Create(p: Location, t: Thing) returns (ok: bool)
      requires p !in things || (t.Regular? && things[p].Regular?)
      modifies this`things
      ensures ok ==> HasFolder(old(ShapesOf(things)), p) && ShapesOf(things) == old(ShapesOf(things))[p := ShapeOf(t)]
      ensures ok ==> p in things && things[p] == t && things.Keys == old(things.Keys) + {p}
      ensures !ok ==> things == old(things) && (bad(p) || !HasFolder(old(ShapesOf(things)), p))
      ensures Undisturbed(old(things), things, p)
    {
      var fails: bool, now: int := *, *;
      if (fails && bad(p)) || !HasFolder(ShapesOf(things), p) { return false; }
      AddedShapes(things, p, t, now);
      things := Added(things, p, t, now);
      return true;
    }

    /** Make a directory, and those above it that are missing. */
    method CreateFolder(p: Location) returns (ok: bool)
      requires [] in things
      modifies this`things
      ensures ok ==> NothingInTheWay(old(ShapesOf(things)), p)
      ensures ok ==> ShapesOf(things) == WithFolders(old(ShapesOf(things)), Above(p))
      ensures !ok ==> !NothingInTheWay(old(ShapesOf(things)), p) || exists q :: q in Above(p) && bad(q)
      ensures !NothingInTheWay(old(ShapesOf(things)), p) ==> things == old(things)
      ensures FoldersAdded(old(things), things, p)
    {
      hide FoldersAdded, Undisturbed, WithFolders, HasFolder;
      NoneAdded(things, p);
      if !NothingInTheWay(ShapesOf(things), p) { return false; }
      ghost var before := ShapesOf(things);
      for k := 0 to |p| + 1
        invariant FoldersAdded(old(things), things, p)
        invariant ShapesOf(things) == WithFolders(before, Upto(p, k))
      {
        FolderStep(before, p, k);
        if p[..k] !in things {
          ghost var was := things;
          var a: Attrs := *;
          var made := Create(p[..k], Folder(a));
          if !made { return false; }
          FolderAdded(old(things), was, things, p, p[..k]);
        }
      }
      return true;
    }

    method Fill(p: Location, bytes: Bytes)
      requires p in things && things[p].Regular?
      modifies this`things
      ensures OnlyAt(old(things), things, p) && things[p].bytes == bytes
    {
      var now: int := *;
      things := things[p := Regular(bytes, things[p].attrs.(time := now))];
    }

    method SetTime(p: Location, time: int) returns (ok: bool)
      requires p in things
      modifies this`things
      ensures OnlyAt(old(things), things, p) && SameContent(old(things)[p], things[p]) && (!ok ==> bad(p))
      ensures things[p].attrs == if ok then old(things)[p].attrs.(time := time) else old(things)[p].attrs
    {
      var fails: bool := *;
      if fails && bad(p) { return false; }
      things := things[p := things[p].(attrs := things[p].attrs.(time := time))];
      return true;
    }

    method SetMode(p: Location, mode: Option<nat>) returns (ok: bool)
      requires p in things
      modifies this`things
      ensures OnlyAt(old(things), things, p) && SameContent(old(things)[p], things[p])
      ensures if ok then SuitsMode(things[p].attrs, mode) else bad(p)
      ensures things[p].attrs == old(things)[p].attrs.(mode := things[p].attrs.mode)
    {
      var fails: bool := *;
      if mode.None? { return true; }
      if fails && bad(p) { return false; }
      things := things[p := things[p].(attrs := things[p].attrs.(mode := mode.value))];
      return true;
    }

    /** Set what is known of an owner.  That it is not permitted is no error. */
    method SetOwner(p: Location, owner: Owner) returns (ok: bool)
      requires p in things
      modifies this`things
      ensures OnlyAt(old(things), things, p) && SameContent(old(things)[p], things[p])
      ensures if ok then SuitsOwner(things[p].attrs, owner) else bad(p)
      ensures things[p].attrs == old(things)[p].attrs.(user := things[p].attrs.user, group := things[p].attrs.group)
    {
      var fails: bool := *;
      if !mayChown { return true; }
      if fails && bad(p) { return false; }
      var a := things[p].attrs;
      if owner.user.Some? && known(owner.user.value) {
        a := a.(user := owner.user.value);
      }
      if owner.group.Some? && known(owner.group.value) {
        a := a.(group := owner.group.value);
      }
      things := things[p := things[p].(attrs := a)];
      return true;
    }
  }

  lemma UptoStep(p: Location, k: nat)
    requires k <= |p|
    ensures Upto(p, k + 1) == Upto(p, k) + {p[..k]} && p[..k] in Above(p)
  {
  }

  lemma FoldersStep(m: Shapes, ps: set<Location>, q: Location)
    ensures WithFolders(m, ps + {q}) == WithFolders(m, ps)[q := FolderShape]
  {
  }

  lemma FolderStep(m: Shapes, p: Location, k: nat)
    requires [] in m && NothingInTheWay(m, p) && k <= |p|
    ensures p[..k] in Above(p)
    ensures
      var done, next := WithFolders(m, Upto(p, k)), WithFolders(m, Upto(p, k + 1));
      next == done[p[..k] := FolderShape] && (p[..k] in done ==> next == done) &&
      (p[..k] !in done ==> HasFolder(done, p[..k]))
  {
    var done := WithFolders(m, Upto(p, k));
    UptoStep(p, k);
    FoldersStep(m, Upto(p, k), p[..k]);
    if p[..k] in done {
      assert done[p[..k]].FolderShape?;
      assert done[p[..k] := FolderShape] == done;
    } else {
      InFolder(m, p, k);
    }
  }

  lemma InFolder(m: Shapes, p: Location, k: nat)
    requires [] in m && k <= |p| && p[..k] !in WithFolders(m, Upto(p, k))
    ensures HasFolder(WithFolders(m, Upto(p, k)), p[..k])
  {
    assert k > 0 && p[..k][..k - 1] == p[..k - 1];
    assert p[..k - 1] in Upto(p, k);
  }

  // ----- one entry

  /** Nothing fails that does not have to. */
  ghost predicate Faultless(disk: Disk, archive: Archive) {
    (forall p :: !disk.bad(p)) && forall h :: !archive.faults.block(h)
  }

  /** What an entry says is what is there. */
  predicate IsWhat(t: Thing, blocks: Blocks, e: IndexEntry) {
    match e.kind
    case Dir => t.Folder?
    case File => t.Regular? && ReadAll(blocks, e.addrs) == Ok(t.bytes)
    case Symlink => t.Link? && e.target == Some(t.target)
    case Unknown => false
  }

  predicate Restored(disk: Disk, things: Things, blocks: Blocks, e: IndexEntry)
    requires IsValid(e.apath)
  {
    var p := Names(e.apath);
    p in things && IsWhat(things[p], blocks, e) && disk.Suits(things[p].attrs, e)
  }

  predicate KindMatches(t: Thing, e: IndexEntry) {
    (t.Regular? && e.kind.File?) || (t.Link? && e.kind.Symlink?)
  }

  /** Restoring an entry changes nothing but what is at its own place, and adds only directories above that. */
  ghost predicate OnlyThere(before: Things, after: Things, e: IndexEntry)
    requires IsValid(e.apath)
  {
    var p := Names(e.apath);
    Undisturbed(before, after, p) && (p in before && before[p].Folder? ==> p in after && after[p].Folder?) &&
    after.Keys <= before.Keys + Above(p) &&
    forall q :: q in after ==>
      after[q].Folder? || (q in before && ShapeOf(before[q]) == ShapeOf(after[q])) ||
      (q == p && KindMatches(after[q], e))
  }

  /** The way to an entry's place leads through no link, and there is no link there either. */
  ghost predicate Direct(things: Things, e: IndexEntry)
    requires IsValid(e.apath)
  {
    forall q :: q in things && q <= Names(e.apath) ==> !things[q].Link?
  }

  /** Something is created, and then only that is changed. */
  lemma CreatedThere(before: Things, made: Things, after: Things, e: IndexEntry)
    requires IsValid(e.apath) && (Names(e.apath) in before ==> before[Names(e.apath)].Regular?)
    requires
      var p := Names(e.apath);
      Undisturbed(before, made, p) && p in made && made.Keys == before.Keys + {p} && KindMatches(made[p], e) &&
      OnlyAt(made, after, p)
    ensures OnlyThere(before, after, e) && ShapesOf(after) == ShapesOf(made)
  {
    hide Names, IsValid;
    var p := Names(e.apath);
    AboveMeans(p, p);
    forall q | q in after
      ensures after[q].Folder? || (q in before && ShapeOf(before[q]) == ShapeOf(after[q])) ||
        (q == p && KindMatches(after[q], e))
    {
      assert q == p || (q in before && q in made && made[q] == after[q]);
    }
    assert forall q :: q in before && q != p ==> made[q] == after[q];
  }

  lemma NothingThere(things: Things, e: IndexEntry)
    requires IsValid(e.apath)
    ensures OnlyThere(things, things, e)
  {
  }

  /** Time, mode and owner of a file; a time that cannot be set ends it. */
  method SetFileAttrs(disk: Disk, p: Location, e: IndexEntry) returns (errors: nat)
    requires p in disk.things && !e.kind.Symlink?
    modifies disk`things
    ensures OnlyAt(old(disk.things), disk.things, p) && SameContent(old(disk.things)[p], disk.things[p])
    ensures if errors == 0 then disk.Suits(disk.things[p].attrs, e) else disk.bad(p)
  {
    var timed := disk.SetTime(p, e.Time());
    if !timed { return 1; }
    var moded := disk.SetMode(p, e.unixMode);
    var owned := disk.SetOwner(p, e.owner);
    return (if moded then 0 else 1) + (if owned then 0 else 1);
  }

  method PutFile(disk: Disk, blockDir: BlockDir, e: IndexEntry) returns (errors: nat)
    requires blockDir.Honest() && IsValid(e.apath) && e.kind.File? && Direct(disk.things, e)
    modifies blockDir, disk`things
    ensures blockDir.Honest() && OnlyThere(old(disk.things), disk.things, e)
    ensures errors == 0 ==> Restored(disk, disk.things, blockDir.archive.blocks, e)
    ensures Faultless(disk, blockDir.archive) ==>
      errors == (if Fits(old(ShapesOf(disk.things)), e) && Readable(blockDir.archive.blocks, e) then 0 else 1) &&
      ShapesOf(disk.things) == Put(old(ShapesOf(disk.things)), e)
  {
    hide Names, IsValid, OnlyThere, Undisturbed, ReadAll, Above;
    var p := Names(e.apath);
    NothingThere(disk.things, e);
    if p in disk.things && !disk.things[p].Regular? { return 1; }
    var a: Attrs := *;
    var created := disk.Create(p, Regular([], a));
    if !created { return 1; }
    ghost var made := disk.things;
    var r, written := RestoreFile(e.addrs, blockDir, disk.bad(p));
    disk.Fill(p, written);
    CreatedThere(old(disk.things), made, disk.things, e);
    if r.Err? { return 1; }
    errors := SetFileAttrs(disk, p, e);
    CreatedThere(old(disk.things), made, disk.things, e);
  }

  method PutLink(disk: Disk, e: IndexEntry) returns (errors: nat)
    requires IsValid(e.apath) && e.kind.Symlink? && Direct(disk.things, e)
    modifies disk`things
    ensures OnlyThere(old(disk.things), disk.things, e)
    ensures errors == 0 ==> forall blocks :: Restored(disk, disk.things, blocks, e)
    ensures (forall p :: !disk.bad(p)) ==>
      errors == (if Fits(old(ShapesOf(disk.things)), e) then 0 else 1) &&
      ShapesOf(disk.things) == Put(old(ShapesOf(disk.things)), e)
  {
    hide Names, IsValid, OnlyThere, Undisturbed, ReadAll, Above;
    var p := Names(e.apath);
    NothingThere(disk.things, e);
    if e.target.None? || p in disk.things { return 1; }
    var a: Attrs := *;
    var created := disk.Create(p, Link(e.target.value, a));
    if !created { return 1; }
    ghost var made := disk.things;
    var owned := disk.SetOwner(p, e.owner);
    CreatedThere(old(disk.things), made, disk.things, e);
    if !owned { return 1; }
    var timed := disk.SetTime(p, e.Time());
    CreatedThere(old(disk.things), made, disk.things, e);
    return if timed then 0 else 1;
  }

  /** The attributes of a directory are left for later. */
  method PutFolder(disk: Disk, e: IndexEntry) returns (errors: nat)
    requires IsValid(e.apath) && e.kind.Dir? && Direct(disk.things, e) && [] in disk.things && disk.things[[]].Folder?
    requires Names(e.apath) in disk.things ==> disk.things[Names(e.apath)].Folder?
    modifies disk`things
    ensures OnlyThere(old(disk.things), disk.things, e)
    ensures errors == 0 ==> Names(e.apath) in disk.things && disk.things[Names(e.apath)].Folder?
    ensures (forall p :: !disk.bad(p)) ==>
      errors == (if Fits(old(ShapesOf(disk.things)), e) then 0 else 1) &&
      ShapesOf(disk.things) == Put(old(ShapesOf(disk.things)), e)
  {
    if e.apath == Root {
      RootFits(ShapesOf(disk.things), e);
      NothingThere(disk.things, e);
      return 0;
    }
    hide Names, IsValid;
    var p := Names(e.apath);
    var made := disk.CreateFolder(p);
    if made {
      AboveMeans(p, p);
      assert p in ShapesOf(disk.things) && ShapesOf(disk.things)[p] == FolderShape;
    }
    return if made then 0 else 1;
  }

  lemma RootFits(m: Shapes, e: IndexEntry)
    requires IsValid(e.apath) && e.apath == Root && e.kind.Dir? && [] in m && m[[]].FolderShape?
    ensures Fits(m, e) && Put(m, e) == m && Names(e.apath) == []
  {
    forall q ensures q in Above([]) <==> q == [] {
      AboveMeans([], q);
    }
    assert Above([]) == {[]};
    assert WithFolders(m, {[]}) == m;
  }

  /** An entry of any kind; for a directory, all but its attributes. */
  predicate Placed(disk: Disk, things: Things, blocks: Blocks, e: IndexEntry)
    requires IsValid(e.apath)
  {
    if e.kind.Dir? then Names(e.apath) in things && things[Names(e.apath)].Folder?
    else Restored(disk, things, blocks, e)
  }

  method PutEntry(disk: Disk, blockDir: BlockDir, e: IndexEntry) returns (errors: nat)
    requires blockDir.Honest() && IsValid(e.apath) && Direct(disk.things, e) && [] in disk.things
    requires disk.things[[]].Folder? && (Names(e.apath) in disk.things ==> disk.things[Names(e.apath)].Folder?)
    modifies blockDir, disk`things
    ensures blockDir.Honest() && OnlyThere(old(disk.things), disk.things, e)
    ensures errors == 0 ==> Placed(disk, disk.things, blockDir.archive.blocks, e)
    ensures Faultless(disk, blockDir.archive) ==>
      errors == (if Fits(old(ShapesOf(disk.things)), e) && Readable(blockDir.archive.blocks, e) then 0 else 1) &&
      ShapesOf(disk.things) == Put(old(ShapesOf(disk.things)), e)
  {
    hide OnlyThere, Names, IsValid, Restored;
    match e.kind
    case Dir => errors := PutFolder(disk, e);
    case File => errors := PutFile(disk, blockDir, e);
    case Symlink => errors := PutLink(disk, e);
    case Unknown =>
      NothingThere(disk.things, e);
      errors := 1;
  }

  // ----- a whole tree

  /** Nothing in the tree is below one of its links. */
  ghost predicate NothingBelowLinks(es: seq<IndexEntry>)
    requires ValidPaths(es)
  {
    forall d, e :: d in es && e in es && d.kind.Symlink? ==> !(Names(d.apath) < Names(e.apath))
  }

  /** Anything but a directory comes from one of these entries. */
  ghost predicate FromEntries(things: Things, es: seq<IndexEntry>)
    requires ValidPaths(es)
  {
    forall q :: q in things && !things[q].Folder? ==>
      exists e :: e in es && Names(e.apath) == q && KindMatches(things[q], e)
  }

  lemma FromOneMore(before: Things, after: Things, es: seq<IndexEntry>, e: IndexEntry)
    requires ValidPaths(es) && IsValid(e.apath) && FromEntries(before, es) && OnlyThere(before, after, e)
    ensures ValidPaths(es + [e]) && FromEntries(after, es + [e])
  {
    hide Names, IsValid, Undisturbed;
    forall q | q in after && !after[q].Folder?
      ensures exists d :: d in es + [e] && Names(d.apath) == q && KindMatches(after[q], d)
    {
      if q in before && ShapeOf(before[q]) == ShapeOf(after[q]) {
        var d :| d in es && Names(d.apath) == q && KindMatches(before[q], d);
        assert d in es + [e];
      } else {
        assert e in es + [e];
      }
    }
  }

  /** So nothing is in the way of the next entry but what is above it, and that is no link. */
  lemma WayIsDirect(things: Things, es: seq<IndexEntry>, i: nat)
    requires ValidPaths(es) && InOrder(es) && NothingBelowLinks(es) && i < |es| && FromEntries(things, es[..i])
    ensures Direct(things, es[i]) && (Names(es[i].apath) in things ==> things[Names(es[i].apath)].Folder?)
  {
    hide Names, IsValid;
    forall q | q in things && !things[q].Folder? && q <= Names(es[i].apath)
      ensures !things[q].Link? && q != Names(es[i].apath)
    {
      var e :| e in es[..i] && Names(e.apath) == q && KindMatches(things[q], e);
      var j :| 0 <= j < i && es[j] == e;
      assert Before(EntryKey(es[j]), EntryKey(es[i]));
      if q == Names(es[i].apath) {
        NamesInjective(e.apath, es[i].apath);
        Total(e.apath, e.apath);
      }
      assert e in es && es[i] in es;
    }
  }

  /** Everything but the attributes of directories is as before. */
  ghost predicate SameButFolders(before: Things, after: Things) {
    before.Keys == after.Keys && forall q :: q in before ==>
      ShapeOf(after[q]) == ShapeOf(before[q]) && (!before[q].Folder? ==> after[q] == before[q])
  }

  method SetFolderAttrs(disk: Disk, p: Location, e: IndexEntry) returns (errors: nat)
    requires p in disk.things && !e.kind.Symlink?
    modifies disk`things
    ensures OnlyAt(old(disk.things), disk.things, p)
    ensures if errors == 0 then disk.Suits(disk.things[p].attrs, e) else disk.bad(p)
  {
    var owned := disk.SetOwner(p, e.owner);
    var moded := disk.SetMode(p, e.unixMode);
    var timed := disk.SetTime(p, e.Time());
    return (if owned then 0 else 1) + (if moded then 0 else 1) + (if timed then 0 else 1);
  }

  /** Those of these directories that did not fail have their attributes. */
  ghost predicate Applied(disk: Disk, things: Things, es: seq<IndexEntry>, failed: set<IndexEntry>)
    requires ValidPaths(es)
  {
    (forall e :: e in failed ==> e in es && disk.bad(Names(e.apath))) &&
    forall e :: e in es && e !in failed ==>
      Names(e.apath) in things && disk.Suits(things[Names(e.apath)].attrs, e)
  }

  lemma AppliedNext(disk: Disk, was: Things, now: Things, es: seq<IndexEntry>, i: nat, failed: set<IndexEntry>,
                    ok: bool)
    requires ValidPaths(es) && InOrder(es) && i < |es| && Applied(disk, was, es[..i], failed)
    requires OnlyAt(was, now, Names(es[i].apath)) && was[Names(es[i].apath)].Folder?
    requires if ok then disk.Suits(now[Names(es[i].apath)].attrs, es[i]) else disk.bad(Names(es[i].apath))
    ensures Applied(disk, now, es[..i + 1], if ok then failed else failed + {es[i]}) && SameButFolders(was, now)
  {
    hide Names, IsValid, Disk.Suits;
    OthersApart(es, i);
    assert es[..i + 1] == es[..i] + [es[i]];
  }

  /** Set the attributes of the directories, once everything in them is there. */
  method ApplyDeferrals(disk: Disk, later: seq<IndexEntry>) returns (errors: nat, failed: set<IndexEntry>)
    requires ValidPaths(later) && InOrder(later)
    requires forall e :: e in later ==>
      e.kind.Dir? && Names(e.apath) in disk.things && disk.things[Names(e.apath)].Folder?
    modifies disk`things
    ensures SameButFolders(old(disk.things), disk.things) && Applied(disk, disk.things, later, failed)
    ensures |failed| <= errors && (errors == 0 <==> failed == {})
  {
    hide Names, IsValid, Applied, OnlyAt, Disk.Suits;
    errors, failed := 0, {};
    NoneApplied(disk, disk.things);
    for i := 0 to |later|
      invariant SameButFolders(old(disk.things), disk.things) && Applied(disk, disk.things, later[..i], failed)
      invariant |failed| <= errors && (errors == 0 <==> failed == {})
    {
      ghost var was := disk.things;
      var more := SetFolderAttrs(disk, Names(later[i].apath), later[i]);
      AppliedNext(disk, was, disk.things, later, i, failed, more == 0);
      errors := errors + more;
      if more > 0 {
        failed := failed + {later[i]};
      }
    }
    assert later[..|later|] == later;
  }

  lemma NoneApplied(disk: Disk, things: Things)
    ensures Applied(disk, things, [], {})
  {
  }

  lemma OthersApart(es: seq<IndexEntry>, i: nat)
    requires ValidPaths(es) && InOrder(es) && i < |es|
    ensures forall e :: e in es[..i] ==> Names(e.apath) != Names(es[i].apath) && e != es[i]
  {
    hide Names, IsValid;
    forall e | e in es[..i] ensures Names(e.apath) != Names(es[i].apath) && e != es[i] {
      var j :| 0 <= j < i && es[j] == e;
      assert Before(EntryKey(es[j]), EntryKey(es[i]));
      Total(e.apath, e.apath);
      if Names(e.apath) == Names(es[i].apath) {
        NamesInjective(e.apath, es[i].apath);
      }
    }
  }

  /** How far restoring has come: of the entries so far, those that did not fail are there, directories but for their
      attributes, which are still to be set. */
  ghost predicate Going(disk: Disk, things: Things, blocks: Blocks, es: seq<IndexEntry>, failed: set<IndexEntry>,
                        later: seq<IndexEntry>)
    requires ValidPaths(es)
  {
    [] in things && things[[]].Folder? && FromEntries(things, es) && (forall e :: e in failed ==> e in es) &&
    (forall e :: e in es && e !in failed ==> Placed(disk, things, blocks, e)) &&
    forall e :: e in later <==> e in es && e.kind.Dir? && e !in failed
  }

  /** Every location belongs to the way to some entry. */
  ghost predicate OnTheWay(things: Things, es: seq<IndexEntry>)
    requires ValidPaths(es)
  {
    forall q :: q in things && q != [] ==> exists e :: e in es && q <= Names(e.apath)
  }

  lemma StillPlaced(disk: Disk, before: Things, after: Things, blocks: Blocks, d: IndexEntry, e: IndexEntry)
    requires IsValid(d.apath) && IsValid(e.apath) && Names(d.apath) != Names(e.apath)
    requires OnlyThere(before, after, e) && Placed(disk, before, blocks, d)
    ensures Placed(disk, after, blocks, d)
  {
    hide Names, IsValid, Disk.Suits, ReadAll;
  }

  lemma WayGrows(before: Things, after: Things, es: seq<IndexEntry>, e: IndexEntry)
    requires ValidPaths(es) && IsValid(e.apath) && OnTheWay(before, es) && OnlyThere(before, after, e)
    ensures ValidPaths(es + [e]) && OnTheWay(after, es + [e])
  {
    hide Names, IsValid, Undisturbed;
    forall q | q in after && q != [] ensures exists d :: d in es + [e] && q <= Names(d.apath) {
      if q in before {
        var d :| d in es && q <= Names(d.apath);
        assert d in es + [e];
      } else {
        AboveMeans(Names(e.apath), q);
        assert e in es + [e];
      }
    }
  }

  lemma GoingOn(disk: Disk, before: Things, after: Things, blocks: Blocks, es: seq<IndexEntry>, i: nat,
                failed: set<IndexEntry>, later: seq<IndexEntry>, ok: bool)
    requires ValidPaths(es) && InOrder(es) && i < |es| && Going(disk, before, blocks, es[..i], failed, later)
    requires OnlyThere(before, after, es[i]) && (ok ==> Placed(disk, after, blocks, es[i]))
    ensures Going(disk, after, blocks, es[..i + 1], if ok then failed else failed + {es[i]},
                  if ok && es[i].kind.Dir? then later + [es[i]] else later)
  {
    hide Names, IsValid, Placed, OnlyThere, Undisturbed;
    assert es[..i + 1] == es[..i] + [es[i]];
    FromOneMore(before, after, es[..i], es[i]);
    OthersApart(es, i);
    forall e | e in es[..i] && e !in failed ensures Placed(disk, after, blocks, e) {
      StillPlaced(disk, before, after, blocks, e, es[i]);
    }
    TopStays(before, after, es[i]);
  }

  lemma TopStays(before: Things, after: Things, e: IndexEntry)
    requires IsValid(e.apath) && OnlyThere(before, after, e) && [] in before && before[[]].Folder?
    ensures [] in after && after[[]].Folder?
  {
    hide Names, IsValid;
  }

  /** The result of restoring some entries. */
  ghost predicate Restoration(disk: Disk, things: Things, blocks: Blocks, es: seq<IndexEntry>, failed: set<IndexEntry>)
    requires ValidPaths(es)
  {
    OnTheWay(things, es) && (forall e :: e in failed ==> e in es) &&
    forall e :: e in es && e !in failed ==> Restored(disk, things, blocks, e)
  }

  /** Where nothing is at fault, exactly what has to fail fails, and the rest is where it belongs. */
  ghost predicate ExactRestoration(things: Things, blocks: Blocks, es: seq<IndexEntry>, failed: set<IndexEntry>)
    requires ValidPaths(es)
  {
    ShapesOf(things) == Laid(es) && forall i :: 0 <= i < |es| ==> (es[i] in failed <==> !Succeeds(es, i, blocks))
  }

  lemma ExactlyNext(before: Things, after: Things, blocks: Blocks, es: seq<IndexEntry>, i: nat,
                    failed: set<IndexEntry>, ok: bool)
    requires ValidPaths(es) && InOrder(es) && i < |es| && ExactRestoration(before, blocks, es[..i], failed)
    requires ShapesOf(after) == Put(ShapesOf(before), es[i]) && (forall e :: e in failed ==> e in es[..i])
    requires ok <==> Fits(ShapesOf(before), es[i]) && Readable(blocks, es[i])
    ensures ExactRestoration(after, blocks, es[..i + 1], if ok then failed else failed + {es[i]}) && es[i] !in failed
  {
    hide Names, IsValid, Fits, Put, Readable, ShapesOf, InOrder, Succeeds;
    var more := es[..i + 1];
    assert more[..i] == es[..i] && more[i] == es[i];
    OthersApart(es, i);
    forall j | 0 <= j < i ensures more[j] in failed <==> !Succeeds(more, j, blocks) {
      SucceedsAlike(es[..i], more, j, blocks);
      assert es[..i][j] == more[j];
    }
    forall j | 0 <= j < i ensures more[j] != es[i] {
      assert more[j] in es[..i];
    }
    LastSucceeds(more, blocks);
  }

  lemma SucceedsAlike(es: seq<IndexEntry>, more: seq<IndexEntry>, j: nat, blocks: Blocks)
    requires ValidPaths(es) && ValidPaths(more) && es <= more && j < |es|
    ensures Succeeds(es, j, blocks) <==> Succeeds(more, j, blocks)
  {
    assert es[..j] == more[..j];
  }

  lemma LastSucceeds(es: seq<IndexEntry>, blocks: Blocks)
    requires es != [] && ValidPaths(es)
    ensures
      var front, e := es[..|es| - 1], es[|es| - 1];
      (Succeeds(es, |es| - 1, blocks) <==> Fits(Laid(front), e) && Readable(blocks, e)) &&
      Laid(es) == Put(Laid(front), e)
  {
  }

  lemma AllRestored(disk: Disk, before: Things, after: Things, blocks: Blocks, es: seq<IndexEntry>,
                    failed: set<IndexEntry>, later: seq<IndexEntry>, unset: set<IndexEntry>)
    requires ValidPaths(es) && ValidPaths(later)
    requires Going(disk, before, blocks, es, failed, later) && OnTheWay(before, es)
    requires SameButFolders(before, after) && Applied(disk, after, later, unset)
    ensures Restoration(disk, after, blocks, es, failed + unset) && ShapesOf(after) == ShapesOf(before)
  {
    hide Names, IsValid, Disk.Suits, ReadAll, FromEntries;
    forall e | e in es && e !in failed + unset ensures Restored(disk, after, blocks, e) {
      assert Placed(disk, before, blocks, e);
      assert e.kind.Dir? ==> e in later;
    }
  }

  /** Everything that holds between two entries. */
  ghost predicate Midway(disk: Disk, things: Things, archive: Archive, blocks: Blocks, es: seq<IndexEntry>, i: nat,
                         errors: nat, failed: set<IndexEntry>, later: seq<IndexEntry>)
    requires i <= |es| && ValidPaths(es)
  {
    Going(disk, things, blocks, es[..i], failed, later) && OnTheWay(things, es[..i]) && InOrder(later) &&
    (errors == 0 <==> failed == {}) &&
    (Faultless(disk, archive) ==> errors == |failed| && ExactRestoration(things, blocks, es[..i], failed))
  }

  lemma MidwayStart(disk: Disk, things: Things, archive: Archive, blocks: Blocks, es: seq<IndexEntry>)
    requires ValidPaths(es) && things.Keys == {[]} && things[[]].Folder?
    ensures Midway(disk, things, archive, blocks, es, 0, 0, {}, [])
  {
    assert es[..0] == [];
    assert ShapesOf(things) == EMPTY;
  }

  lemma LaterInOrder(es: seq<IndexEntry>, i: nat, later: seq<IndexEntry>)
    requires InOrder(es) && i < |es| && InOrder(later) && forall e :: e in later ==> e in es[..i]
    ensures InOrder(later + [es[i]])
  {
    forall k | 0 <= k < |later| ensures Before(EntryKey(later[k]), EntryKey(es[i])) {
      assert later[k] in later;
      var j :| 0 <= j < i && es[j] == later[k];
    }
  }

  lemma AllEarlier(disk: Disk, things: Things, blocks: Blocks, es: seq<IndexEntry>, failed: set<IndexEntry>,
                   later: seq<IndexEntry>)
    requires ValidPaths(es) && Going(disk, things, blocks, es, failed, later)
    ensures (forall e :: e in failed ==> e in es) && forall e :: e in later ==> e in es
  {
  }

  lemma MidwayNext(disk: Disk, was: Things, now: Things, archive: Archive, blocks: Blocks, es: seq<IndexEntry>, i: nat,
                   errors: nat, failed: set<IndexEntry>, later: seq<IndexEntry>, more: nat)
    requires ValidPaths(es) && InOrder(es) && i < |es| && IsValid(es[i].apath)
    requires Midway(disk, was, archive, blocks, es, i, errors, failed, later)
    requires OnlyThere(was, now, es[i]) && (more == 0 ==> Placed(disk, now, blocks, es[i]))
    requires Faultless(disk, archive) ==>
      more == (if Fits(ShapesOf(was), es[i]) && Readable(blocks, es[i]) then 0 else 1) &&
      ShapesOf(now) == Put(ShapesOf(was), es[i])
    ensures Midway(disk, now, archive, blocks, es, i + 1, errors + more,
                   if more == 0 then failed else failed + {es[i]},
                   if more == 0 && es[i].kind.Dir? then later + [es[i]] else later)
  {
    hide OnlyThere, Placed, Fits, Readable, ShapesOf, Put, OnTheWay, ExactRestoration, IsValid, Names, Going, Faultless,
      InOrder;
    AllEarlier(disk, was, blocks, es[..i], failed, later);
    GoingOn(disk, was, now, blocks, es, i, failed, later, more == 0);
    assert es[..i + 1] == es[..i] + [es[i]];
    WayGrows(was, now, es[..i], es[i]);
    LaterInOrder(es, i, later);
    if Faultless(disk, archive) {
      ExactlyNext(was, now, blocks, es, i, failed, more == 0);
    }
  }

  lemma MidwayEnd(disk: Disk, things: Things, archive: Archive, blocks: Blocks, es: seq<IndexEntry>, errors: nat,
                  failed: set<IndexEntry>, later: seq<IndexEntry>)
    requires ValidPaths(es) && Midway(disk, things, archive, blocks, es, |es|, errors, failed, later)
    ensures Going(disk, things, blocks, es, failed, later) && OnTheWay(things, es)
    ensures ValidPaths(later) && InOrder(later)
    ensures errors == 0 <==> failed == {}
    ensures Faultless(disk, archive) ==> errors == |failed| && ExactRestoration(things, blocks, es, failed)
    ensures forall e :: e in later ==> e.kind.Dir? && Names(e.apath) in things && things[Names(e.apath)].Folder?
  {
    hide OnTheWay, ExactRestoration, Names, FromEntries, Restored, Faultless;
    assert es[..|es|] == es;
    forall e | e in later ensures e.kind.Dir? && Names(e.apath) in things && things[Names(e.apath)].Folder? {
      assert Placed(disk, things, blocks, e);
    }
  }

  /** Restore entries one after another, and then the attributes of the directories. */
  method RestoreEntries(disk: Disk, blockDir: BlockDir, es: seq<IndexEntry>)
    returns (errors: nat, failed: set<IndexEntry>)
    requires blockDir.Honest() && ValidPaths(es) && InOrder(es) && NothingBelowLinks(es)
    requires disk.things.Keys == {[]} && disk.things[[]].Folder?
    modifies blockDir, disk`things
    ensures blockDir.Honest() && Restoration(disk, disk.things, blockDir.archive.blocks, es, failed)
    ensures errors == 0 <==> failed == {}
    ensures Faultless(disk, blockDir.archive) ==>
      errors == |failed| && ExactRestoration(disk.things, blockDir.archive.blocks, es, failed)
  {
    hide *;
    errors, failed := 0, {};
    var later: seq<IndexEntry> := [];
    ghost var blocks := blockDir.archive.blocks;
    MidwayStart(disk, disk.things, blockDir.archive, blocks, es);
    for i := 0 to |es|
      invariant blockDir.Honest() && blockDir.archive.blocks == blocks
      invariant Midway(disk, disk.things, blockDir.archive, blocks, es, i, errors, failed, later)
    {
      ghost var was := disk.things;
      ReadyFor(disk, was, blockDir.archive, blocks, es, i, errors, failed, later);
      var more := PutEntry(disk, blockDir, es[i]);
      MidwayNext(disk, was, disk.things, blockDir.archive, blocks, es, i, errors, failed, later, more);
      errors := errors + more;
      if more > 0 {
        failed := failed + {es[i]};
      } else if es[i].kind.Dir? {
        later := later + [es[i]];
      }
    }
    ghost var placed := disk.things;
    MidwayEnd(disk, placed, blockDir.archive, blocks, es, errors, failed, later);
    var unset, these := ApplyDeferrals(disk, later);
    AllRestored(disk, placed, disk.things, blocks, es, failed, later, these);
    SetExactly(disk, placed, disk.things, blockDir.archive, blocks, es, failed, later, these);
    errors, failed := errors + unset, failed + these;
  }

  lemma ReadyFor(disk: Disk, things: Things, archive: Archive, blocks: Blocks, es: seq<IndexEntry>, i: nat, errors: nat,
                 failed: set<IndexEntry>, later: seq<IndexEntry>)
    requires ValidPaths(es) && InOrder(es) && NothingBelowLinks(es) && i < |es|
    requires Midway(disk, things, archive, blocks, es, i, errors, failed, later)
    ensures IsValid(es[i].apath) && Direct(things, es[i]) && [] in things && things[[]].Folder?
    ensures Names(es[i].apath) in things ==> things[Names(es[i].apath)].Folder?
  {
    hide OnTheWay, ExactRestoration, Names, IsValid, Placed, FromEntries, Faultless;
    WayIsDirect(things, es, i);
  }

  /** Where nothing is at fault, all attributes are set. */
  lemma SetExactly(disk: Disk, placed: Things, after: Things, archive: Archive, blocks: Blocks, es: seq<IndexEntry>,
                   failed: set<IndexEntry>, later: seq<IndexEntry>, unset: set<IndexEntry>)
    requires ValidPaths(es) && ValidPaths(later)
    requires Applied(disk, after, later, unset) && ShapesOf(after) == ShapesOf(placed)
    requires Faultless(disk, archive) ==> ExactRestoration(placed, blocks, es, failed)
    ensures Faultless(disk, archive) ==> unset == {} && ExactRestoration(after, blocks, es, failed + unset)
  {
    hide Names, IsValid, Succeeds, Laid, ShapesOf, Disk.Suits;
    if Faultless(disk, archive) {
      assert unset == {};
      assert failed + unset == failed;
    }
  }

  datatype RestoreError = DestinationNotEmpty

  /** Restore what is selected of a stored tree.  A directory that is not empty is refused unless it may be overwritten,
      which is modelled only where there is nothing to overwrite. */
  method RestoreTree(disk: Disk, blockDir: BlockDir, b: nat, subtree: Apath, exclude: Apath -> bool, overwrite: bool)
    returns (r: Result<nat, RestoreError>, failed: set<IndexEntry>)
    requires blockDir.Honest() && WellFormedBands(blockDir.archive.bands)
    requires [] in disk.things && disk.things[[]].Folder?
    requires overwrite ==> disk.things.Keys == {[]}
    requires
      var es := Selected(subtree, exclude, Stitched(blockDir.archive.bands, b, None));
      ValidPaths(es) && NothingBelowLinks(es)
    modifies blockDir, disk`things
    ensures blockDir.Honest()
    ensures r.Err? <==> old(disk.things.Keys) != {[]}
    ensures r.Err? ==> disk.things == old(disk.things)
    ensures r.Ok? ==>
      var es := Selected(subtree, exclude, Stitched(blockDir.archive.bands, b, None));
      Restoration(disk, disk.things, blockDir.archive.blocks, es, failed) && (r.value == 0 <==> failed == {}) &&
      (Faultless(disk, blockDir.archive) ==>
        r.value == |failed| && ExactRestoration(disk.things, blockDir.archive.blocks, es, failed))
  {
    hide *;
    if !overwrite && disk.things.Keys != {[]} { return Err(DestinationNotEmpty), {}; }
    var es := ReadTree(blockDir.archive, b, subtree, exclude);
    var errors, these := RestoreEntries(disk, blockDir, es);
    return Ok(errors), these;
  }

  // ----- which entries can be restored

  /** Nothing in the tree is below a file or a link. */
  ghost predicate Treelike(es: seq<IndexEntry>)
    requires ValidPaths(es)
  {
    forall d, e :: d in es && e in es && Names(d.apath) < Names(e.apath) ==> d.kind.Dir?
  }

  /** Some directory among these is at a location or below it. */
  ghost predicate FolderMade(es: seq<IndexEntry>, q: Location)
    requires ValidPaths(es)
  {
    q == [] || exists d :: d in es && d.kind.Dir? && q <= Names(d.apath)
  }

  lemma TreelikeFront(es: seq<IndexEntry>)
    requires es != [] && ValidPaths(es) && Treelike(es) && InOrder(es)
    ensures ValidPaths(es[..|es| - 1]) && Treelike(es[..|es| - 1]) && InOrder(es[..|es| - 1])
  {
    hide Names, IsValid, Before;
    var n := |es| - 1;
    assert forall e :: e in es[..n] ==> e in es;
    forall i, j | 0 <= i < j < n ensures Before(EntryKey(es[..n][i]), EntryKey(es[..n][j])) {
      assert Before(EntryKey(es[i]), EntryKey(es[j]));
    }
  }

  /** The directories are those on the way to directories of the tree, and anything else is an entry. */
  ghost predicate LaidRight(m: Shapes, es: seq<IndexEntry>, q: Location)
    requires ValidPaths(es)
  {
    (q in m && m[q].FolderShape? <==> FolderMade(es, q)) &&
    (q in m && !m[q].FolderShape? ==> exists e :: e in es && !e.kind.Dir? && Names(e.apath) == q)
  }

  lemma FolderMadeNext(es: seq<IndexEntry>, e: IndexEntry, q: Location)
    requires ValidPaths(es) && IsValid(e.apath)
    ensures ValidPaths(es + [e])
    ensures FolderMade(es + [e], q) <==> FolderMade(es, q) || (e.kind.Dir? && q <= Names(e.apath))
  {
    hide Names, IsValid;
    assert forall d :: d in es + [e] <==> d in es || d == e;
  }

  /** Nothing is in the way of the next entry, and its own place is free unless it is a directory. */
  lemma PlaceIsFree(es: seq<IndexEntry>, i: nat, m: Shapes)
    requires ValidPaths(es) && Treelike(es) && InOrder(es) && i < |es| && forall q :: LaidRight(m, es[..i], q)
    ensures NothingInTheWay(m, Names(es[i].apath))
    ensures !es[i].kind.Dir? && Names(es[i].apath) != [] ==> Names(es[i].apath) !in m
  {
    hide Names, IsValid, InOrder;
    var p := Names(es[i].apath);
    OthersApart(es, i);
    assert es[i] in es && forall d :: d in es[..i] ==> d in es;
    forall q | q in Above(p) && q in m ensures m[q].FolderShape? {
      AboveMeans(p, q);
      assert LaidRight(m, es[..i], q);
    }
    assert LaidRight(m, es[..i], p);
  }

  lemma PutRight(m: Shapes, es: seq<IndexEntry>, e: IndexEntry, q: Location)
    requires ValidPaths(es) && IsValid(e.apath) && NothingInTheWay(m, Names(e.apath)) && LaidRight(m, es, q)
    requires !e.kind.Dir? && Names(e.apath) != [] ==> Names(e.apath) !in m
    ensures ValidPaths(es + [e]) && LaidRight(Put(m, e), es + [e], q)
  {
    hide Names, IsValid, FolderMade;
    var p := Names(e.apath);
    FolderMadeNext(es, e, q);
    AboveMeans(p, q);
    assert e in es + [e] && forall d :: d in es ==> d in es + [e];
  }

  /** What there is after restoring a tree to an empty directory. */
  lemma {:induction false} LaidMeans(es: seq<IndexEntry>)
    requires ValidPaths(es) && Treelike(es) && InOrder(es)
    ensures forall q :: LaidRight(Laid(es), es, q)
    decreases |es|
  {
    hide Names, IsValid, Treelike, InOrder, Put, NothingInTheWay;
    if es == [] {
      assert forall q :: LaidRight(EMPTY, [], q);
    } else {
      TreelikeFront(es);
      var front, e := es[..|es| - 1], es[|es| - 1];
      assert es == front + [e];
      LaidMeans(front);
      PlaceIsFree(es, |es| - 1, Laid(front));
      forall q ensures LaidRight(Laid(es), es, q) {
        PutRight(Laid(front), front, e, q);
      }
    }
  }

  lemma {:induction false} FrontTreelike(es: seq<IndexEntry>, i: nat)
    requires ValidPaths(es) && Treelike(es) && InOrder(es) && i <= |es|
    ensures ValidPaths(es[..i]) && Treelike(es[..i]) && InOrder(es[..i])
    decreases |es| - i
  {
    hide Names, IsValid, Treelike, InOrder;
    if i == |es| {
      assert es[..i] == es;
    } else {
      FrontTreelike(es, i + 1);
      assert es[..i + 1][..i] == es[..i];
      TreelikeFront(es[..i + 1]);
    }
  }

  /** Of a tree in which nothing is below a file or link, a directory can always be restored; a file or link can if and
      only if it is directly in the destination, or some directory before it is the one it is in or is below that; and
      its content can be read, or its target is there. */
  lemma SucceedsExactly(es: seq<IndexEntry>, i: nat, blocks: Blocks)
    requires ValidPaths(es) && Treelike(es) && InOrder(es) && i < |es|
    ensures
      var e, p := es[i], Names(es[i].apath);
      Succeeds(es, i, blocks) <==>
        match e.kind
        case Dir => true
        case File => p != [] && FolderMade(es[..i], p[..|p| - 1]) && ReadAll(blocks, e.addrs).Ok?
        case Symlink => p != [] && FolderMade(es[..i], p[..|p| - 1]) && e.target.Some?
        case Unknown => false
  {
    hide Names, IsValid, Treelike, InOrder, FolderMade, ReadAll, Laid;
    var p := Names(es[i].apath);
    FrontTreelike(es, i);
    LaidMeans(es[..i]);
    PlaceIsFree(es, i, Laid(es[..i]));
    if p != [] {
      assert LaidRight(Laid(es[..i]), es[..i], p[..|p| - 1]);
    }
  }

  // ----- trees that can be restored whole

  ghost predicate HasDirectory(es: seq<IndexEntry>, q: Location)
    requires ValidPaths(es)
  {
    exists d :: d in es && d.kind.Dir? && Names(d.apath) == q
  }

  /** Every directory on the way to an entry is an entry. */
  ghost predicate Closed(es: seq<IndexEntry>)
    requires ValidPaths(es)
  {
    forall e, k :: e in es && 0 <= k < |Names(e.apath)| ==> HasDirectory(es, Names(e.apath)[..k])
  }

  /** Everything can be restored, and nothing else is made. */
  lemma ClosedRestores(es: seq<IndexEntry>, i: nat, blocks: Blocks)
    requires ValidPaths(es) && Treelike(es) && InOrder(es) && Closed(es) && i < |es|
    requires es[i].kind.Dir? || Names(es[i].apath) != []
    requires match es[i].kind
             case Dir => true
             case File => ReadAll(blocks, es[i].addrs).Ok?
             case Symlink => es[i].target.Some?
             case Unknown => false
    ensures Succeeds(es, i, blocks)
  {
    hide Names, IsValid, Treelike, InOrder, Succeeds, ReadAll;
    var p := Names(es[i].apath);
    SucceedsExactly(es, i, blocks);
    if p != [] {
      assert es[i] in es && HasDirectory(es, p[..|p| - 1]);
      var d :| d in es && d.kind.Dir? && Names(d.apath) == p[..|p| - 1];
      EarlierIfAbove(es, d, i);
    }
  }

  lemma EarlierIfAbove(es: seq<IndexEntry>, d: IndexEntry, i: nat)
    requires ValidPaths(es) && InOrder(es) && i < |es| && d in es && Names(d.apath) < Names(es[i].apath)
    ensures d in es[..i]
  {
    hide Names, IsValid, Before;
    var j :| 0 <= j < |es| && es[j] == d;
    assert es[i] in es;
    LiveTree.BelowIsAfter(d.apath, es[i].apath);
    if j >= i {
      assert j > i ==> Before(EntryKey(es[i]), EntryKey(es[j]));
      Total(d.apath, es[i].apath);
      assert false;
    }
  }

  lemma ClosedLaid(es: seq<IndexEntry>, q: Location)
    requires ValidPaths(es) && Treelike(es) && InOrder(es) && Closed(es)
    ensures q in Laid(es) ==> q == [] || exists e :: e in es && Names(e.apath) == q
  {
    hide Names, IsValid, Treelike, InOrder, Laid;
    LaidMeans(es);
    assert LaidRight(Laid(es), es, q);
    if q in Laid(es) && q != [] && FolderMade(es, q) {
      var d :| d in es && d.kind.Dir? && q <= Names(d.apath);
      if q != Names(d.apath) {
        assert q == Names(d.apath)[..|q|] && HasDirectory(es, Names(d.apath)[..|q|]);
      }
    }
  }

  /** A file that is not at the top cannot be restored by itself: the directory it belongs in is not made. */
  lemma FileAloneFails(es: seq<IndexEntry>, f: IndexEntry, blocks: Blocks)
    requires ValidPaths(es) && Treelike(es) && InOrder(es) && f in es && !f.kind.Dir?
    requires |Names(f.apath)| > 1 && SingleByte(f.apath)
    ensures Selected(f.apath, ExcludeNothing, es) == [f] && !Succeeds([f], 0, blocks)
  {
    hide Names, IsValid, Selected, SingleByte, IsPrefixOf, FolderMade, ReadAll;
    var r := Selected(f.apath, ExcludeNothing, es);
    forall e ensures e in r <==> e == f {
      SelectedMeans(f.apath, ExcludeNothing, es, e);
      if e in r && e != f {
        if Names(e.apath) == Names(f.apath) {
          NamesInjective(e.apath, f.apath);
          OnlyOneAt(es, e, f);
        }
      }
    }
    SelectedInOrder(f.apath, ExcludeNothing, es);
    OnlyOne(r, f);
    SucceedsExactly([f], 0, blocks);
    NoFolderMade(Names(f.apath)[..|Names(f.apath)| - 1]);
  }

  lemma NoFolderMade(q: Location)
    requires q != []
    ensures !FolderMade([], q)
  {
  }

  lemma OnlyOneAt(es: seq<IndexEntry>, e: IndexEntry, f: IndexEntry)
    requires InOrder(es) && e in es && f in es && e.apath == f.apath
    ensures e == f
  {
    hide Before;
    var i :| 0 <= i < |es| && es[i] == e;
    var j :| 0 <= j < |es| && es[j] == f;
    assert i < j ==> Before(EntryKey(es[i]), EntryKey(es[j]));
    assert j < i ==> Before(EntryKey(es[j]), EntryKey(es[i]));
    Total(e.apath, e.apath);
  }

  lemma OnlyOne(es: seq<IndexEntry>, f: IndexEntry)
    requires InOrder(es) && forall e :: e in es <==> e == f
    ensures es == [f]
  {
    hide Before;
    assert f in es;
    if |es| > 1 {
      assert es[0] in es && es[1] in es;
      assert Before(EntryKey(es[0]), EntryKey(es[1]));
      Total(f.apath, f.apath);
      assert false;
    }
  }
}
