/** Walking a source tree in apath order with two deques (src/live_tree.rs). */
module LiveTree {
  import opened Base
  import opened Apaths
  import opened Entries
  import opened Sorting

  datatype Attrs = Attrs(kindMeta: KindMeta, mtime: int, unixMode: Option<nat>, owner: Owner)

  /** One object of a finite source tree.  `Special` stands for everything the walk skips: pipes and
      sockets, and objects whose name, type, metadata or link target cannot be read. */
  datatype Node =
    | Leaf(attrs: Attrs)
    | Special
    | Directory(attrs: Attrs, readable: bool, cacheTagged: bool, children: seq<Child>)

  /** One item of a directory listing, in whatever order the listing comes. */
  datatype Child = Child(name: string, node: Node)

  predicate WellFormed(node: Node) {
    (node.Leaf? ==> node.attrs.kindMeta != DirMeta) &&
    (node.Directory? ==>
      node.attrs.kindMeta == DirMeta &&
      (forall i, j :: 0 <= i < j < |node.children| ==> node.children[i].name != node.children[j].name) &&
      (forall c :: c in node.children ==> ValidName(c.name) && '/' !in c.name && WellFormed(c.node)))
  }

  predicate GoodName(c: Child) {
    ValidName(c.name) && '/' !in c.name
  }

  function NameKey(c: Child): Apath {
    c.name
  }

  function PathKey(p: Apath): Apath {
    p
  }

  function EntryOf(path: Apath, node: Node): EntryValue
    requires !node.Special?
  {
    EntryValue(path, node.attrs.kindMeta, node.attrs.mtime, node.attrs.unixMode, node.attrs.owner)
  }

  predicate Keep(exclude: Apath -> bool, path: Apath, c: Child) {
    !exclude(Append(path, c.name)) && !c.node.Special? && !(c.node.Directory? && c.node.cacheTagged)
  }

  function Kept(exclude: Apath -> bool, path: Apath, kids: seq<Child>): (r: seq<Child>)
    ensures forall c :: c in r <==> c in kids && Keep(exclude, path, c)
  {
    if kids == [] then []
    else if Keep(exclude, path, kids[0]) then [kids[0]] + Kept(exclude, path, kids[1..])
    else Kept(exclude, path, kids[1..])
  }

  function EntriesFor(path: Apath, kids: seq<Child>): (r: seq<EntryValue>)
    requires forall c :: c in kids ==> !c.node.Special?
    ensures |r| == |kids| && forall i :: 0 <= i < |r| ==> r[i] == EntryOf(Append(path, kids[i].name), kids[i].node)
  {
    if kids == [] then [] else [EntryOf(Append(path, kids[0].name), kids[0].node)] + EntriesFor(path, kids[1..])
  }

  function SubdirPath(path: Apath, c: Child): seq<Apath> {
    if c.node.Directory? then [Append(path, c.name)] else []
  }

  function SubdirPaths(path: Apath, kids: seq<Child>): seq<Apath> {
    if kids == [] then [] else SubdirPath(path, kids[0]) + SubdirPaths(path, kids[1..])
  }

  function SortedKids(exclude: Apath -> bool, path: Apath, node: Node): (kids: seq<Child>)
    requires node.Directory?
    ensures forall c :: c in kids <==> c in node.children && Keep(exclude, path, c)
    ensures |kids| <= |node.children|
  {
    var kept := Kept(exclude, path, node.children);
    SortPermutes(NameKey, kept);
    var kids := Sort(NameKey, kept);
    assert forall c :: c in kids <==> c in multiset(kids);
    assert forall c :: c in kept <==> c in multiset(kept);
    KeptLength(exclude, path, node.children);
    kids
  }

  lemma KeptLength(exclude: Apath -> bool, path: Apath, kids: seq<Child>)
    ensures |Kept(exclude, path, kids)| <= |kids|
  {
  }

  /** What a directory contributes: its kept children in name order, then each subdirectory's
      contribution in the same order. */
  function Contents(exclude: Apath -> bool, path: Apath, node: Node): seq<EntryValue>
    decreases node, if node.Directory? then |node.children| + 1 else 0
  {
    if !node.Directory? || !node.readable then []
    else
      var kids := SortedKids(exclude, path, node);
      EntriesFor(path, kids) + DeepContents(exclude, path, node, kids)
  }

  function DeepContents(exclude: Apath -> bool, path: Apath, parent: Node, kids: seq<Child>): seq<EntryValue>
    requires parent.Directory? && forall c :: c in kids ==> c in parent.children
    decreases parent, |kids|
  {
    if kids == [] then []
    else
      assert kids[0] in parent.children;
      Contents(exclude, Append(path, kids[0].name), kids[0].node) + DeepContents(exclude, path, parent, kids[1..])
  }

  // ----- the order of the contents

  lemma SiblingOrder(path: Apath, n: string, m: string)
    requires IsValid(path) && ValidName(n) && '/' !in n && ValidName(m) && '/' !in m
    ensures Before(Append(path, n), Append(path, m)) <==> Before(n, m)
  {
    AppendNames(path, n);
    AppendNames(path, m);
    ValidSplit(Append(path, n));
    ValidSplit(Append(path, m));
    SplitName(n);
    SplitName(m);
    var dir := [""] + Names(path);
    assert Split(Append(path, n)) == dir + [n] && Split(Append(path, m)) == dir + [m];
    ComparePartsCancel(dir, [n], [m]);
  }

  lemma BelowChildParts(path: Apath, n: string, a: Apath) returns (rest: seq<string>)
    requires IsValid(path) && ValidName(n) && '/' !in n
    requires IsValid(Append(path, n)) && IsValid(a) && StrictlyBelow(Append(path, n), a)
    ensures |rest| >= 1 && Split(a) == DirParts(path) + ([n] + rest)
  {
    hide IsValid, ValidName, StrictlyBelow, Split, Append;
    AppendNames(path, n);
    rest := BelowParts(Append(path, n), a);
    assert DirParts(Append(path, n)) + rest == DirParts(path) + ([n] + rest);
  }

  lemma SubtreesOrdered(path: Apath, n: string, m: string, a: Apath, b: Apath)
    requires IsValid(path) && ValidName(n) && '/' !in n && ValidName(m) && '/' !in m && Before(n, m)
    requires IsValid(Append(path, n)) && IsValid(Append(path, m)) && IsValid(a) && IsValid(b)
    requires StrictlyBelow(Append(path, n), a) && StrictlyBelow(Append(path, m), b)
    ensures Before(a, b)
  {
    SplitName(n);
    SplitName(m);
    var ra := BelowChildParts(path, n, a);
    var rb := BelowChildParts(path, m, b);
    ComparePartsCancel(DirParts(path), [n] + ra, [m] + rb);
  }

  ghost predicate AllBelow(path: Apath, es: seq<EntryValue>)
    requires IsValid(path)
  {
    forall e :: e in es ==> IsValid(e.apath) && StrictlyBelow(path, e.apath)
  }

  lemma KeptDistinct(exclude: Apath -> bool, path: Apath, kids: seq<Child>)
    requires DistinctKeys(NameKey, kids)
    ensures DistinctKeys(NameKey, Kept(exclude, path, kids))
  {
    if kids != [] {
      KeptDistinct(exclude, path, kids[1..]);
      forall c | c in kids[1..] ensures c.name != kids[0].name {
        var i :| 0 <= i < |kids[1..]| && kids[1..][i] == c;
        assert NameKey(kids[0]) != NameKey(kids[i + 1]);
      }
    }
  }

  lemma SortedKidsIncreasing(exclude: Apath -> bool, path: Apath, node: Node)
    requires node.Directory? && WellFormed(node)
    ensures Increasing(NameKey, SortedKids(exclude, path, node))
  {
    KeptDistinct(exclude, path, node.children);
    SortIncreasing(NameKey, Kept(exclude, path, node.children));
  }

  lemma {:induction false} ContentsOrdered(exclude: Apath -> bool, path: Apath, node: Node)
    requires IsValid(path) && WellFormed(node)
    ensures Increasing(SourceKey, Contents(exclude, path, node)) && AllBelow(path, Contents(exclude, path, node))
    decreases node, if node.Directory? then |node.children| + 1 else 0
  {
    if node.Directory? && node.readable {
      var kids := SortedKids(exclude, path, node);
      SortedKidsIncreasing(exclude, path, node);
      DeepContentsOrdered(exclude, path, node, kids);
      var direct, deep := EntriesFor(path, kids), DeepContents(exclude, path, node, kids);
      forall i | 0 <= i < |direct|
        ensures IsValid(direct[i].apath) && StrictlyBelow(path, direct[i].apath)
        ensures |Names(direct[i].apath)| == |Names(path)| + 1
      {
        assert kids[i] in node.children;
        AppendNames(path, kids[i].name);
      }
      forall e | e in deep ensures IsValid(e.apath) && StrictlyBelow(path, e.apath) {
        BelowSomeIsDeep(path, kids, e);
      }
      forall i, j | 0 <= i < j < |direct| ensures Before(direct[i].apath, direct[j].apath) {
        assert kids[i] in node.children && kids[j] in node.children;
        SiblingOrder(path, kids[i].name, kids[j].name);
      }
      forall i, j | 0 <= i < |direct| && 0 <= j < |deep| ensures Before(direct[i].apath, deep[j].apath) {
        assert deep[j] in deep;
        BelowSomeIsDeep(path, kids, deep[j]);
        ChildrenFirst(path, direct[i].apath, deep[j].apath);
      }
    }
  }

  ghost predicate BelowSome(path: Apath, kids: seq<Child>, e: EntryValue)
    requires IsValid(path)
  {
    IsValid(e.apath) &&
    exists k :: 0 <= k < |kids| && IsValid(Append(path, kids[k].name)) &&
      StrictlyBelow(Append(path, kids[k].name), e.apath)
  }

  lemma BelowLater(path: Apath, kids: seq<Child>, e: EntryValue, f: EntryValue)
    requires IsValid(path) && kids != [] && Increasing(NameKey, kids) && forall c :: c in kids ==> GoodName(c)
    requires IsValid(Append(path, kids[0].name)) && IsValid(f.apath) &&
      StrictlyBelow(Append(path, kids[0].name), f.apath)
    requires BelowSome(path, kids[1..], e)
    ensures BelowSome(path, kids, e) && Before(f.apath, e.apath)
  {
    var i :| 0 <= i < |kids[1..]| && IsValid(Append(path, kids[1..][i].name)) &&
             StrictlyBelow(Append(path, kids[1..][i].name), e.apath);
    assert kids[i + 1] == kids[1..][i] && kids[i + 1] in kids && kids[0] in kids;
    assert Before(NameKey(kids[0]), NameKey(kids[i + 1]));
    SubtreesOrdered(path, kids[0].name, kids[i + 1].name, f.apath, e.apath);
  }

  lemma BelowMore(path: Apath, kids: seq<Child>, e: EntryValue)
    requires IsValid(path) && kids != [] && BelowSome(path, kids[1..], e)
    ensures BelowSome(path, kids, e)
  {
    var i :| 0 <= i < |kids[1..]| && IsValid(Append(path, kids[1..][i].name)) &&
             StrictlyBelow(Append(path, kids[1..][i].name), e.apath);
    assert kids[i + 1] == kids[1..][i];
  }

  lemma BelowSomeIsDeep(path: Apath, kids: seq<Child>, e: EntryValue)
    requires IsValid(path) && BelowSome(path, kids, e) && forall c :: c in kids ==> GoodName(c)
    ensures StrictlyBelow(path, e.apath) && |Names(e.apath)| > |Names(path)| + 1
  {
    var k :| 0 <= k < |kids| && IsValid(Append(path, kids[k].name)) &&
      StrictlyBelow(Append(path, kids[k].name), e.apath);
    assert kids[k] in kids;
    AppendNames(path, kids[k].name);
  }

  lemma {:induction false} DeepContentsOrdered(exclude: Apath -> bool, path: Apath, parent: Node, kids: seq<Child>)
    requires IsValid(path) && WellFormed(parent) && parent.Directory?
    requires (forall c :: c in kids ==> c in parent.children) && Increasing(NameKey, kids)
    ensures Increasing(SourceKey, DeepContents(exclude, path, parent, kids))
    ensures forall e :: e in DeepContents(exclude, path, parent, kids) ==> BelowSome(path, kids, e)
    decreases parent, |kids|
  {
    if kids != [] {
      var k := kids[0];
      assert k in parent.children;
      AppendNames(path, k.name);
      ContentsOrdered(exclude, Append(path, k.name), k.node);
      DeepContentsOrdered(exclude, path, parent, kids[1..]);
      var first := Contents(exclude, Append(path, k.name), k.node);
      var rest := DeepContents(exclude, path, parent, kids[1..]);
      forall e | e in rest ensures BelowSome(path, kids, e) {
        BelowMore(path, kids, e);
      }
      forall i, j | 0 <= i < |first| && 0 <= j < |rest| ensures Before(first[i].apath, rest[j].apath) {
        assert first[i] in first && rest[j] in rest;
        BelowLater(path, kids, rest[j], first[i]);
      }
    }
  }

  // ----- which entries are found

  /** `e` is the entry reached from `node` at `path` by following `names`, when no step on the way is
      excluded, skipped or unreadable. */
  ghost predicate Reaches(exclude: Apath -> bool, path: Apath, node: Node, names: seq<string>, e: EntryValue)
    decreases node
  {
    |names| >= 1 && node.Directory? && node.readable &&
    exists c :: c in node.children && c.name == names[0] && Keep(exclude, path, c) &&
      if |names| == 1 then e == EntryOf(Append(path, c.name), c.node)
      else Reaches(exclude, Append(path, c.name), c.node, names[1..], e)
  }

  ghost predicate Found(exclude: Apath -> bool, path: Apath, node: Node, e: EntryValue) {
    exists names :: Reaches(exclude, path, node, names, e)
  }

  lemma FoundDirect(exclude: Apath -> bool, path: Apath, node: Node, c: Child)
    requires node.Directory? && node.readable && c in node.children && Keep(exclude, path, c)
    ensures Found(exclude, path, node, EntryOf(Append(path, c.name), c.node))
  {
    assert Reaches(exclude, path, node, [c.name], EntryOf(Append(path, c.name), c.node));
  }

  lemma FoundDeep(exclude: Apath -> bool, path: Apath, node: Node, c: Child, e: EntryValue)
    requires node.Directory? && node.readable && c in node.children && Keep(exclude, path, c)
    requires Found(exclude, Append(path, c.name), c.node, e)
    ensures Found(exclude, path, node, e)
  {
    var names :| Reaches(exclude, Append(path, c.name), c.node, names, e);
    assert ([c.name] + names)[1..] == names;
    assert Reaches(exclude, path, node, [c.name] + names, e);
  }

  lemma FoundCases(exclude: Apath -> bool, path: Apath, node: Node, e: EntryValue) returns (c: Child)
    requires Found(exclude, path, node, e)
    ensures node.Directory? && node.readable && c in node.children && Keep(exclude, path, c)
    ensures e == EntryOf(Append(path, c.name), c.node) || Found(exclude, Append(path, c.name), c.node, e)
  {
    var names :| Reaches(exclude, path, node, names, e);
    c :| c in node.children && c.name == names[0] && Keep(exclude, path, c) &&
      if |names| == 1 then e == EntryOf(Append(path, c.name), c.node)
      else Reaches(exclude, Append(path, c.name), c.node, names[1..], e);
  }

  lemma EntriesForHas(path: Apath, kids: seq<Child>, e: EntryValue)
    requires forall c :: c in kids ==> !c.node.Special?
    ensures e in EntriesFor(path, kids) <==> exists c :: c in kids && e == EntryOf(Append(path, c.name), c.node)
  {
    if c :| c in kids && e == EntryOf(Append(path, c.name), c.node) {
      var i :| 0 <= i < |kids| && kids[i] == c;
      assert EntriesFor(path, kids)[i] == e;
    }
  }

  lemma {:induction false} ContentsComplete(exclude: Apath -> bool, path: Apath, node: Node, e: EntryValue)
    ensures e in Contents(exclude, path, node) <==> Found(exclude, path, node, e)
    decreases node, if node.Directory? then |node.children| + 1 else 0
  {
    if node.Directory? && node.readable {
      var kids := SortedKids(exclude, path, node);
      DeepContentsComplete(exclude, path, node, kids, e);
      EntriesForHas(path, kids, e);
      if c :| c in kids && e == EntryOf(Append(path, c.name), c.node) {
        FoundDirect(exclude, path, node, c);
      }
      if c :| c in kids && Found(exclude, Append(path, c.name), c.node, e) {
        FoundDeep(exclude, path, node, c, e);
      }
      if Found(exclude, path, node, e) {
        var c := FoundCases(exclude, path, node, e);
        assert c in kids;
      }
    }
  }

  lemma {:induction false} DeepContentsComplete(exclude: Apath -> bool, path: Apath, parent: Node,
                                                kids: seq<Child>, e: EntryValue)
    requires parent.Directory? && forall c :: c in kids ==> c in parent.children
    ensures e in DeepContents(exclude, path, parent, kids) <==>
      exists c :: c in kids && Found(exclude, Append(path, c.name), c.node, e)
    decreases parent, |kids|
  {
    if kids != [] {
      assert kids[0] in parent.children;
      ContentsComplete(exclude, Append(path, kids[0].name), kids[0].node, e);
      DeepContentsComplete(exclude, path, parent, kids[1..], e);
      assert forall c :: c in kids <==> c == kids[0] || c in kids[1..];
    }
  }

  // ----- the walk

  function FindChild(kids: seq<Child>, name: string): Option<Node> {
    if kids == [] then None else if kids[0].name == name then Some(kids[0].node) else FindChild(kids[1..], name)
  }

  /** The object at a path below `node`: what the file system finds there. */
  function Resolve(node: Node, names: seq<string>): Option<Node>
    decreases names
  {
    if names == [] then Some(node)
    else if !node.Directory? then None
    else
      var c := FindChild(node.children, names[0]);
      if c.None? then None else Resolve(c.value, names[1..])
  }

  lemma FindChildFinds(kids: seq<Child>, c: Child)
    requires c in kids && DistinctKeys(NameKey, kids)
    ensures FindChild(kids, c.name) == Some(c.node)
  {
    if kids[0] != c {
      var i :| 0 <= i < |kids| && kids[i] == c;
      assert NameKey(kids[0]) != NameKey(kids[i]);
      FindChildFinds(kids[1..], c);
    }
  }

  lemma {:induction false} ResolveStep(node: Node, names: seq<string>, name: string)
    ensures Resolve(node, names + [name]) ==
      match Resolve(node, names)
      case None => None
      case Some(d) => if d.Directory? then FindChild(d.children, name) else None
    decreases names
  {
    if names == [] {
      assert names + [name] == [name];
    } else if node.Directory? {
      var c := FindChild(node.children, names[0]);
      assert (names + [name])[1..] == names[1..] + [name];
      if c.Some? {
        ResolveStep(c.value, names[1..], name);
      }
    }
  }

  lemma FindChildWellFormed(kids: seq<Child>, name: string)
    requires (forall c :: c in kids ==> WellFormed(c.node)) && FindChild(kids, name).Some?
    ensures WellFormed(FindChild(kids, name).value)
  {
  }

  lemma {:induction false} ResolveWellFormed(node: Node, names: seq<string>)
    requires WellFormed(node) && Resolve(node, names).Some?
    ensures WellFormed(Resolve(node, names).value)
    decreases names
  {
    if names != [] {
      FindChildWellFormed(node.children, names[0]);
      ResolveWellFormed(FindChild(node.children, names[0]).value, names[1..]);
    }
  }

  function NodeAt(root: Node, p: Apath): Option<Node>
    requires IsValid(p)
  {
    Resolve(root, Names(p))
  }

  lemma NodeAtChild(root: Node, p: Apath, c: Child)
    requires IsValid(p) && WellFormed(root) && NodeAt(root, p).Some?
    requires NodeAt(root, p).value.Directory? && c in NodeAt(root, p).value.children
    ensures IsValid(Append(p, c.name)) && NodeAt(root, Append(p, c.name)) == Some(c.node)
  {
    ResolveWellFormed(root, Names(p));
    AppendNames(p, c.name);
    ResolveStep(root, Names(p), c.name);
    FindChildFinds(NodeAt(root, p).value.children, c);
  }

  ghost predicate Present(root: Node, dirs: seq<Apath>) {
    forall d :: d in dirs ==> IsValid(d) && NodeAt(root, d).Some?
  }

  /** What the pending directories still have to contribute. */
  ghost function Pending(exclude: Apath -> bool, root: Node, dirs: seq<Apath>): seq<EntryValue>
    requires Present(root, dirs)
  {
    if dirs == [] then []
    else Contents(exclude, dirs[0], NodeAt(root, dirs[0]).value) + Pending(exclude, root, dirs[1..])
  }

  lemma {:induction false} PendingAppend(exclude: Apath -> bool, root: Node, dirs: seq<Apath>, more: seq<Apath>)
    requires Present(root, dirs) && Present(root, more)
    ensures Present(root, dirs + more)
    ensures Pending(exclude, root, dirs + more) == Pending(exclude, root, dirs) + Pending(exclude, root, more)
  {
    hide Contents, NodeAt, IsValid;
    if dirs == [] {
      assert dirs + more == more;
    } else {
      assert (dirs + more)[1..] == dirs[1..] + more;
      PendingAppend(exclude, root, dirs[1..], more);
    }
  }

  lemma PendingOne(exclude: Apath -> bool, root: Node, path: Apath, c: Child)
    requires IsValid(Append(path, c.name)) && NodeAt(root, Append(path, c.name)) == Some(c.node)
    ensures Present(root, SubdirPath(path, c))
    ensures Pending(exclude, root, SubdirPath(path, c)) == Contents(exclude, Append(path, c.name), c.node)
  {
    var p := Append(path, c.name);
    if c.node.Directory? {
      assert [p][1..] == [];
      assert Pending(exclude, root, []) == [];
    }
  }

  /** Pushing a directory's subdirectories, in order, leaves their contributions to be made. */
  lemma {:induction false} PendingSubdirs(exclude: Apath -> bool, root: Node, path: Apath, parent: Node,
                                          kids: seq<Child>)
    requires IsValid(path) && WellFormed(root) && NodeAt(root, path) == Some(parent)
    requires parent.Directory? && forall c :: c in kids ==> c in parent.children
    ensures Present(root, SubdirPaths(path, kids))
    ensures Pending(exclude, root, SubdirPaths(path, kids)) == DeepContents(exclude, path, parent, kids)
  {
    if kids != [] {
      NodeAtChild(root, path, kids[0]);
      PendingSubdirs(exclude, root, path, parent, kids[1..]);
      PendingOne(exclude, root, path, kids[0]);
      PendingAppend(exclude, root, SubdirPath(path, kids[0]), SubdirPaths(path, kids[1..]));
    }
  }

  lemma {:induction false} SubdirPathsFrom(path: Apath, x: Child, kids: seq<Child>)
    requires IsValid(path) && GoodName(x)
    requires forall c :: c in kids ==> GoodName(c) && Before(x.name, c.name)
    ensures forall p :: p in SubdirPaths(path, kids) ==> Before(Append(path, x.name), p)
  {
    if kids != [] {
      SiblingOrder(path, x.name, kids[0].name);
      SubdirPathsFrom(path, x, kids[1..]);
    }
  }

  lemma HeadIsLeast(x: Child, kids: seq<Child>)
    requires Increasing(NameKey, kids) && kids != [] && !Before(kids[0].name, x.name)
    requires forall c :: c in kids ==> c.name != x.name
    ensures forall c :: c in kids ==> Before(x.name, c.name)
  {
    Total(x.name, kids[0].name);
    forall c | c in kids ensures Before(x.name, c.name) {
      var i :| 0 <= i < |kids| && kids[i] == c;
      if i > 0 {
        assert Before(NameKey(kids[0]), NameKey(kids[i]));
        Transitive(x.name, kids[0].name, c.name);
      }
    }
  }

  function InsertSubdir(path: Apath, x: Child, ps: seq<Apath>): seq<Apath> {
    if x.node.Directory? then Insert(PathKey, Append(path, x.name), ps) else ps
  }

  lemma InsertSubdirFront(path: Apath, x: Child, ps: seq<Apath>)
    requires forall p :: p in ps ==> Before(Append(path, x.name), p)
    ensures InsertSubdir(path, x, ps) == SubdirPath(path, x) + ps
  {
    if ps != [] {
      Total(ps[0], Append(path, x.name));
    }
  }

  lemma InsertSubdirBehind(path: Apath, k: Child, x: Child, ps: seq<Apath>)
    requires Before(Append(path, k.name), Append(path, x.name))
    ensures InsertSubdir(path, x, SubdirPath(path, k) + ps) == SubdirPath(path, k) + InsertSubdir(path, x, ps)
  {
    if k.node.Directory? {
      assert (SubdirPath(path, k) + ps)[1..] == ps;
    } else {
      assert SubdirPath(path, k) + ps == ps;
    }
  }

  lemma {:induction false} SubdirPathsInsert(path: Apath, x: Child, kids: seq<Child>)
    requires IsValid(path) && GoodName(x) && Increasing(NameKey, kids)
    requires forall c :: c in kids ==> GoodName(c) && c.name != x.name
    ensures SubdirPaths(path, Insert(NameKey, x, kids)) == InsertSubdir(path, x, SubdirPaths(path, kids))
  {
    if kids == [] {
      assert ([x] + kids)[1..] == [];
      InsertSubdirFront(path, x, []);
    } else if !Before(kids[0].name, x.name) {
      HeadIsLeast(x, kids);
      SubdirPathsFrom(path, x, kids);
      InsertSubdirFront(path, x, SubdirPaths(path, kids));
      assert ([x] + kids)[1..] == kids;
    } else {
      SiblingOrder(path, kids[0].name, x.name);
      SubdirPathsInsert(path, x, kids[1..]);
      InsertSubdirBehind(path, kids[0], x, SubdirPaths(path, kids[1..]));
      var r := Insert(NameKey, x, kids[1..]);
      assert ([kids[0]] + r)[1..] == r;
    }
  }

  lemma SortRest(kids: seq<Child>)
    requires DistinctKeys(NameKey, kids) && kids != []
    ensures Increasing(NameKey, Sort(NameKey, kids[1..]))
    ensures forall c :: c in Sort(NameKey, kids[1..]) ==> c in kids && c.name != kids[0].name
  {
    var rest := Sort(NameKey, kids[1..]);
    SortPermutes(NameKey, kids[1..]);
    SortIncreasing(NameKey, kids[1..]);
    forall c | c in rest ensures c in kids && c.name != kids[0].name {
      assert c in multiset(rest);
      var i :| 0 <= i < |kids[1..]| && kids[1..][i] == c;
      assert NameKey(kids[0]) != NameKey(kids[i + 1]);
    }
  }

  /** Sorting the subdirectory paths is sorting the children and then taking the paths. */
  lemma {:induction false} SubdirPathsSort(path: Apath, kids: seq<Child>)
    requires IsValid(path) && DistinctKeys(NameKey, kids) && forall c :: c in kids ==> GoodName(c)
    ensures Sort(PathKey, SubdirPaths(path, kids)) == SubdirPaths(path, Sort(NameKey, kids))
  {
    if kids != [] {
      SubdirPathsSort(path, kids[1..]);
      SortRest(kids);
      SubdirPathsInsert(path, kids[0], Sort(NameKey, kids[1..]));
      if kids[0].node.Directory? {
        assert SubdirPaths(path, kids)[1..] == SubdirPaths(path, kids[1..]);
      } else {
        assert SubdirPaths(path, kids) == SubdirPaths(path, kids[1..]);
      }
    }
  }

  /** The whole walk from a start path: the start entry, then everything found below it. */
  ghost function Walk(exclude: Apath -> bool, root: Node, start: Apath): seq<EntryValue>
    requires IsValid(start) && NodeAt(root, start).Some? && !NodeAt(root, start).value.Special?
  {
    [EntryOf(start, NodeAt(root, start).value)] + Contents(exclude, start, NodeAt(root, start).value)
  }

  lemma BelowIsAfter(d: Apath, p: Apath)
    requires IsValid(d) && IsValid(p) && StrictlyBelow(d, p)
    ensures Before(d, p)
  {
    hide IsValid, Split, CompareParts;
    if d == Root {
      assert p != Root;
      RootFirst(p);
    } else {
      BelowAnyOther(d, p);
    }
  }

  lemma BelowAnyOther(d: Apath, p: Apath)
    requires IsValid(d) && d != Root && IsValid(p) && StrictlyBelow(d, p)
    ensures Before(d, p)
  {
    hide IsValid, StrictlyBelow, Split, CompareParts;
    ValidSplit(d);
    var rest := BelowParts(d, p);
    var whole := Split(d);
    var dir, last := whole[..|whole| - 1], whole[|whole| - 1];
    assert whole == dir + [last] && Split(p) == dir + ([last] + rest);
    ComparePartsCancel(dir, [last], [last] + rest);
    LongerIsAfter(last, rest);
  }

  lemma LongerIsAfter(last: string, rest: seq<string>)
    requires rest != []
    ensures CompareParts([last], [last] + rest) == Less
  {
  }

  lemma StartFirst(first: EntryValue, rest: seq<EntryValue>)
    requires IsValid(first.apath) && Increasing(SourceKey, rest) && AllBelow(first.apath, rest)
    ensures Increasing(SourceKey, [first] + rest)
  {
    forall i | 0 <= i < |rest| ensures Before(first.apath, rest[i].apath) {
      assert rest[i] in rest;
      BelowIsAfter(first.apath, rest[i].apath);
    }
  }

  // ----- which paths are found, in terms of the tree on disk

  /** There is something at this path that is not excluded, of a supported kind, and no tagged cache directory. */
  ghost predicate Shown(exclude: Apath -> bool, root: Node, q: Apath)
    requires IsValid(q)
  {
    !exclude(q) && NodeAt(root, q).Some? && !NodeAt(root, q).value.Special? &&
    !(NodeAt(root, q).value.Directory? && NodeAt(root, q).value.cacheTagged)
  }

  ghost predicate Listable(root: Node, d: Apath)
    requires IsValid(d)
  {
    NodeAt(root, d).Some? && NodeAt(root, d).value.Directory? && NodeAt(root, d).value.readable
  }

  /** `p` is below `start`; every path from just below `start` down to `p` is shown, and every directory from `start`
      to just above `p` can be listed. */
  ghost predicate Visible(exclude: Apath -> bool, root: Node, start: Apath, p: Apath)
    requires IsValid(start) && IsValid(p)
  {
    Names(start) < Names(p) &&
    (forall q: Apath :: IsValid(q) && Names(start) < Names(q) <= Names(p) ==> Shown(exclude, root, q)) &&
    (forall d: Apath :: IsValid(d) && Names(start) <= Names(d) < Names(p) ==> Listable(root, d))
  }

  /** The entry has the metadata of what is at its path. */
  ghost predicate Describes(root: Node, e: EntryValue) {
    IsValid(e.apath) && NodeAt(root, e.apath).Some? && !NodeAt(root, e.apath).value.Special? &&
    var attrs := NodeAt(root, e.apath).value.attrs;
    e.kindMeta == attrs.kindMeta && e.mtime == attrs.mtime && e.unixMode == attrs.unixMode && e.owner == attrs.owner
  }

  lemma EntryDescribes(root: Node, p: Apath, e: EntryValue)
    requires IsValid(p) && NodeAt(root, p).Some? && !NodeAt(root, p).value.Special?
    ensures e == EntryOf(p, NodeAt(root, p).value) <==> e.apath == p && Describes(root, e)
  {
  }

  /** A path is visible from a directory if that can be listed, the child on the way is shown, and the path is that
      child or visible from it. */
  lemma VisibleStep(exclude: Apath -> bool, root: Node, d: Apath, n: string, p: Apath)
    requires IsValid(d) && IsValid(Append(d, n)) && Names(Append(d, n)) == Names(d) + [n]
    requires IsValid(p) && Names(d) + [n] <= Names(p)
    ensures Visible(exclude, root, d, p) <==>
      Listable(root, d) && Shown(exclude, root, Append(d, n)) &&
      (p == Append(d, n) || Visible(exclude, root, Append(d, n), p))
  {
    hide IsValid, Names, Append, Shown, Listable;
    var c := Append(d, n);
    forall q: Apath | IsValid(q) && Names(d) < Names(q) <= Names(p) ensures q == c || Names(c) < Names(q) {
      SamePrefix(Names(d), n, Names(q), Names(p));
      if Names(q) == Names(c) {
        NamesInjective(q, c);
      }
    }
    forall q: Apath | IsValid(q) && Names(d) <= Names(q) < Names(p) ensures q == d || Names(c) <= Names(q) {
      if Names(q) == Names(d) {
        NamesInjective(q, d);
      } else {
        SamePrefix(Names(d), n, Names(q), Names(p));
      }
    }
    if Names(p) == Names(c) {
      NamesInjective(p, c);
    }
    assert Names(d) < Names(c) && Names(d) < Names(p);
  }

  lemma SamePrefix(a: seq<string>, n: string, b: seq<string>, c: seq<string>)
    requires a + [n] <= c && a < b <= c
    ensures a + [n] <= b
  {
    assert b[|a|] == c[|a|] == (a + [n])[|a|];
  }

  lemma {:induction false} FoundIsVisible(exclude: Apath -> bool, root: Node, d: Apath, node: Node, e: EntryValue)
    requires WellFormed(root) && IsValid(d) && NodeAt(root, d) == Some(node) && Found(exclude, d, node, e)
    ensures IsValid(e.apath) && Visible(exclude, root, d, e.apath) && Describes(root, e)
    decreases node
  {
    hide Visible, Describes, Found, IsValid, Names;
    var c := FoundCases(exclude, d, node, e);
    var p := Append(d, c.name);
    ChildPath(root, d, c);
    if e == EntryOf(p, c.node) {
      EntryDescribes(root, p, e);
      assert Names(d) + [c.name] <= Names(p);
    } else {
      FoundIsVisible(exclude, root, p, c.node, e);
      assert Names(p) < Names(e.apath) by { VisibleIsBelow(exclude, root, p, e.apath); }
    }
    VisibleStep(exclude, root, d, c.name, e.apath);
  }

  lemma VisibleIsBelow(exclude: Apath -> bool, root: Node, d: Apath, p: Apath)
    requires IsValid(d) && IsValid(p) && Visible(exclude, root, d, p)
    ensures Names(d) < Names(p)
  {
  }

  lemma ChildPath(root: Node, d: Apath, c: Child)
    requires WellFormed(root) && IsValid(d) && NodeAt(root, d).Some?
    requires NodeAt(root, d).value.Directory? && c in NodeAt(root, d).value.children
    ensures IsValid(Append(d, c.name)) && Names(Append(d, c.name)) == Names(d) + [c.name]
    ensures NodeAt(root, Append(d, c.name)) == Some(c.node)
  {
    hide IsValid;
    ResolveWellFormed(root, Names(d));
    AppendNames(d, c.name);
    NodeAtChild(root, d, c);
  }

  lemma {:induction false} FindChildIn(kids: seq<Child>, name: string) returns (c: Child)
    requires FindChild(kids, name).Some?
    ensures c in kids && c.name == name && c.node == FindChild(kids, name).value
  {
    if kids[0].name == name {
      c := kids[0];
    } else {
      c := FindChildIn(kids[1..], name);
    }
  }

  lemma {:induction false} VisibleIsFound(exclude: Apath -> bool, root: Node, d: Apath, node: Node, e: EntryValue)
    requires WellFormed(root) && IsValid(d) && NodeAt(root, d) == Some(node)
    requires IsValid(e.apath) && Visible(exclude, root, d, e.apath) && Describes(root, e)
    ensures Found(exclude, d, node, e)
    decreases node
  {
    hide Describes, Found, IsValid;
    var names := Names(e.apath);
    var n := names[|Names(d)|];
    assert Listable(root, d);
    var c := ChildToward(root, d, e.apath, n);
    var p := Append(d, n);
    ChildPath(root, d, c);
    VisibleStep(exclude, root, d, n, e.apath);
    if p == e.apath {
      EntryDescribes(root, p, e);
      FoundDirect(exclude, d, node, c);
    } else {
      VisibleIsFound(exclude, root, p, c.node, e);
      FoundDeep(exclude, d, node, c, e);
    }
  }

  lemma ChildToward(root: Node, d: Apath, p: Apath, n: string) returns (c: Child)
    requires WellFormed(root) && IsValid(d) && IsValid(p) && Names(d) < Names(p) && n == Names(p)[|Names(d)|]
    requires NodeAt(root, d).Some? && NodeAt(root, d).value.Directory? && NodeAt(root, p).Some?
    ensures c in NodeAt(root, d).value.children && c.name == n && Names(d) + [n] <= Names(p)
  {
    hide IsValid, Names;
    var upto, rest := Names(d) + [n], Names(p)[|Names(d)| + 1..];
    assert Names(p) == upto + rest;
    ResolvePrefix(root, upto, rest);
    ResolveStep(root, Names(d), n);
    c := FindChildIn(NodeAt(root, d).value.children, n);
  }

  lemma {:induction false} ResolvePrefix(node: Node, names: seq<string>, rest: seq<string>)
    requires Resolve(node, names + rest).Some?
    ensures Resolve(node, names).Some?
    decreases names
  {
    if names != [] {
      assert (names + rest)[0] == names[0] && (names + rest)[1..] == names[1..] + rest;
      ResolvePrefix(FindChild(node.children, names[0]).value, names[1..], rest);
    }
  }

  /** For every tree, start and exclusion: the walk is strictly increasing (so no path comes twice), and it holds
      exactly the start and every visible path below it, each with the metadata of what is there. */
  lemma WalkHolds(exclude: Apath -> bool, root: Node, start: Apath, e: EntryValue)
    requires WellFormed(root) && IsValid(start) && NodeAt(root, start).Some? && !NodeAt(root, start).value.Special?
    ensures Increasing(SourceKey, Walk(exclude, root, start))
    ensures e in Walk(exclude, root, start) <==>
      IsValid(e.apath) && (e.apath == start || Visible(exclude, root, start, e.apath)) && Describes(root, e)
  {
    hide Visible, Describes, Found, IsValid, Increasing;
    var node := NodeAt(root, start).value;
    WalkCorrect(exclude, root, start);
    EntryDescribes(root, start, e);
    if Found(exclude, start, node, e) {
      FoundIsVisible(exclude, root, start, node, e);
    }
    if IsValid(e.apath) && Visible(exclude, root, start, e.apath) && Describes(root, e) {
      VisibleIsFound(exclude, root, start, node, e);
    }
  }

  /** In terms of the objects reached one from another: the walk holds exactly the start entry and the entries found
      below it. */
  lemma WalkCorrect(exclude: Apath -> bool, root: Node, start: Apath)
    requires WellFormed(root) && IsValid(start) && NodeAt(root, start).Some? && !NodeAt(root, start).value.Special?
    ensures Increasing(SourceKey, Walk(exclude, root, start))
    ensures forall e :: e in Walk(exclude, root, start) <==>
      e == EntryOf(start, NodeAt(root, start).value) || Found(exclude, start, NodeAt(root, start).value, e)
  {
    var node := NodeAt(root, start).value;
    ResolveWellFormed(root, Names(start));
    ContentsOrdered(exclude, start, node);
    var rest := Contents(exclude, start, node);
    StartFirst(EntryOf(start, node), rest);
    forall e ensures e in rest <==> Found(exclude, start, node, e) {
      ContentsComplete(exclude, start, node, e);
    }
  }

  lemma SuffixInOrder(es: seq<EntryValue>)
    requires Increasing(SourceKey, es) && es != []
    ensures InOrderAfter(Some(es[0].apath), es[1..])
  {
    forall e | e in es[1..] ensures Before(es[0].apath, e.apath) {
      var i :| 0 <= i < |es[1..]| && es[1..][i] == e;
      assert Before(SourceKey(es[0]), SourceKey(es[i + 1]));
    }
  }

  /** How many of the entries are directories. */
  function CountDirs(es: seq<EntryValue>): nat {
    if es == [] then 0 else (if es[0].kindMeta.DirMeta? then 1 else 0) + CountDirs(es[1..])
  }

  lemma {:induction false} CountDirsAppend(es: seq<EntryValue>, fs: seq<EntryValue>)
    ensures CountDirs(es + fs) == CountDirs(es) + CountDirs(fs)
  {
    if es == [] {
      assert es + fs == fs;
    } else {
      assert (es + fs)[1..] == es[1..] + fs;
      CountDirsAppend(es[1..], fs);
    }
  }

  /** Every subdirectory that is queued is also an entry that is listed. */
  lemma {:induction false} CountSubdirs(path: Apath, kids: seq<Child>)
    requires forall c :: c in kids ==> !c.node.Special? && WellFormed(c.node)
    ensures |SubdirPaths(path, kids)| == CountDirs(EntriesFor(path, kids))
  {
    if kids != [] {
      CountSubdirs(path, kids[1..]);
      assert EntriesFor(path, kids)[1..] == EntriesFor(path, kids[1..]);
    }
  }

  lemma KeptStep(exclude: Apath -> bool, path: Apath, kids: seq<Child>, i: nat)
    requires i < |kids|
    ensures Kept(exclude, path, kids[i..]) ==
      (if Keep(exclude, path, kids[i]) then [kids[i]] else []) + Kept(exclude, path, kids[i + 1..])
  {
    assert kids[i..][1..] == kids[i + 1..];
  }

  lemma {:induction false} SubdirPathsAppend(path: Apath, kids: seq<Child>, more: seq<Child>)
    ensures SubdirPaths(path, kids + more) == SubdirPaths(path, kids) + SubdirPaths(path, more)
  {
    if kids == [] {
      assert kids + more == more;
    } else {
      assert (kids + more)[1..] == kids[1..] + more;
      SubdirPathsAppend(path, kids[1..], more);
    }
  }

  /** One pass over a listing: the children to keep and, among them, the subdirectories. */
  lemma SubdirPathsOneMore(path: Apath, kids: seq<Child>, c: Child)
    ensures SubdirPaths(path, kids + [c]) ==
      SubdirPaths(path, kids) + if c.node.Directory? then [Append(path, c.name)] else []
  {
    hide Append;
    SubdirPathsAppend(path, kids, [c]);
    assert [c][1..] == [];
  }

  lemma KeptEnds(exclude: Apath -> bool, path: Apath, kids: seq<Child>)
    ensures Kept(exclude, path, kids[|kids|..]) == [] && SubdirPaths(path, []) == []
  {
  }

  method ScanListing(exclude: Apath -> bool, path: Apath, listing: seq<Child>)
    returns (children: seq<Child>, subdirs: seq<Apath>)
    ensures children == Kept(exclude, path, listing) && subdirs == SubdirPaths(path, children)
  {
    hide Append, Kept, SubdirPaths;
    children, subdirs := [], [];
    KeptEnds(exclude, path, listing);
    assert listing[0..] == listing;
    for i := 0 to |listing|
      invariant Kept(exclude, path, listing) == children + Kept(exclude, path, listing[i..])
      invariant subdirs == SubdirPaths(path, children)
    {
      var c := listing[i];
      KeptStep(exclude, path, listing, i);
      if exclude(Append(path, c.name)) { continue; }
      if c.node.Directory? && c.node.cacheTagged { continue; }
      if c.node.Special? { continue; }
      SubdirPathsOneMore(path, children, c);
      if c.node.Directory? { subdirs := subdirs + [Append(path, c.name)]; }
      children := children + [c];
    }
  }

  /** Reading one directory: its kept children, sorted, and its subdirectories, sorted. */
  method ReadDirectory(exclude: Apath -> bool, path: Apath, node: Node)
    returns (entries: seq<EntryValue>, subdirs: seq<Apath>)
    requires IsValid(path) && WellFormed(node)
    ensures node.Directory? && node.readable ==>
      var kids := SortedKids(exclude, path, node);
      entries == EntriesFor(path, kids) && subdirs == SubdirPaths(path, kids)
    ensures !(node.Directory? && node.readable) ==> entries == [] && subdirs == []
  {
    if !node.Directory? || !node.readable { return [], []; }
    var children;
    children, subdirs := ScanListing(exclude, path, node.children);
    KeptDistinct(exclude, path, node.children);
    SubdirPathsSort(path, children);
    subdirs := Sort(PathKey, subdirs);
    children := SortedKids(exclude, path, node);
    entries := EntriesFor(path, children);
  }

  lemma VisitPending(exclude: Apath -> bool, root: Node, path: Apath, node: Node, entries: seq<EntryValue>,
                     subdirs: seq<Apath>)
    requires WellFormed(root) && IsValid(path) && NodeAt(root, path) == Some(node)
    requires node.Directory? && node.readable ==>
      var kids := SortedKids(exclude, path, node);
      entries == EntriesFor(path, kids) && subdirs == SubdirPaths(path, kids)
    requires !(node.Directory? && node.readable) ==> entries == [] && subdirs == []
    ensures Present(root, subdirs) && |subdirs| == CountDirs(entries)
    ensures entries + Pending(exclude, root, subdirs) == Contents(exclude, path, node)
  {
    hide Before, IsValid, EntriesFor, SubdirPaths, Kept, Insert;
    ResolveWellFormed(root, Names(path));
    if node.Directory? && node.readable {
      var kids := SortedKids(exclude, path, node);
      PendingSubdirs(exclude, root, path, node, kids);
      CountSubdirs(path, kids);
    }
  }

  /** Visiting a directory queues exactly its contribution, in front of what was pending. */
  lemma VisitQueues(exclude: Apath -> bool, root: Node, path: Apath, node: Node, entries: seq<EntryValue>,
                    subdirs: seq<Apath>, dirs: seq<Apath>)
    requires WellFormed(root) && IsValid(path) && NodeAt(root, path) == Some(node) && Present(root, dirs)
    requires node.Directory? && node.readable ==>
      var kids := SortedKids(exclude, path, node);
      entries == EntriesFor(path, kids) && subdirs == SubdirPaths(path, kids)
    requires !(node.Directory? && node.readable) ==> entries == [] && subdirs == []
    ensures Present(root, subdirs + dirs)
    ensures entries + Pending(exclude, root, subdirs + dirs) ==
            Contents(exclude, path, node) + Pending(exclude, root, dirs)
    ensures |subdirs| + CountDirs(Pending(exclude, root, subdirs + dirs)) ==
            CountDirs(Contents(exclude, path, node) + Pending(exclude, root, dirs))
  {
    hide *;
    VisitPending(exclude, root, path, node, entries, subdirs);
    PendingAppend(exclude, root, subdirs, dirs);
    var own, rest := Pending(exclude, root, subdirs), Pending(exclude, root, dirs);
    assert entries + (own + rest) == (entries + own) + rest;
    CountDirsAppend(entries, own + rest);
  }

  /** What the order check needs of the entries that are still to come. */
  ghost predicate InOrderAfter(last: Option<Apath>, es: seq<EntryValue>) {
    Increasing(SourceKey, es) && (last.Some? ==> forall e :: e in es ==> Before(last.value, e.apath))
  }

  lemma NextInOrder(last: Option<Apath>, es: seq<EntryValue>)
    requires InOrderAfter(last, es) && es != []
    ensures last.Some? ==> Before(last.value, es[0].apath)
    ensures InOrderAfter(Some(es[0].apath), es[1..])
  {
    hide Before;
    SuffixInOrder(es);
  }

  class Iter {
    const root: Node
    const exclude: Apath -> bool

    /** Directories yet to be visited. */
    var dirDeque: seq<Apath>

    /** Entries seen but not yet returned. */
    var entryDeque: seq<EntryValue>

    /** The last path handed out, watched by the order check. */
    var lastApath: Option<Apath>

    ghost predicate Valid()
      reads this
    {
      WellFormed(root) && Present(root, dirDeque) && InOrderAfter(lastApath, Remaining())
    }

    /** Everything the iterator has yet to yield. */
    ghost function Remaining(): seq<EntryValue>
      requires Present(root, dirDeque)
      reads this
    {
      entryDeque + Pending(exclude, root, dirDeque)
    }

    constructor (root: Node, subtree: Apath, exclude: Apath -> bool)
      requires WellFormed(root) && IsValid(subtree)
      requires NodeAt(root, subtree).Some? && !NodeAt(root, subtree).value.Special?
      ensures Valid() && this.root == root && this.exclude == exclude
      ensures Remaining() == Walk(exclude, root, subtree)
    {
      this.root := root;
      this.exclude := exclude;
      entryDeque := [EntryOf(subtree, NodeAt(root, subtree).value)];
      dirDeque := [subtree];
      lastApath := None;
      new;
      WalkCorrect(exclude, root, subtree);
      assert dirDeque[1..] == [];
      assert Pending(exclude, root, []) == [];
      assert Remaining() == Walk(exclude, root, subtree);
    }

    method VisitNextDirectory(path: Apath)
      requires WellFormed(root) && Present(root, dirDeque)
      requires IsValid(path) && NodeAt(root, path).Some?
      requires entryDeque == []
      modifies this`dirDeque, this`entryDeque
      ensures Present(root, dirDeque)
      ensures Remaining() == Contents(exclude, path, NodeAt(root, path).value) + old(Pending(exclude, root, dirDeque))
      ensures |dirDeque| + CountDirs(Pending(exclude, root, dirDeque)) ==
              old(|dirDeque|) + CountDirs(Remaining())
    {
      var node := NodeAt(root, path).value;
      ResolveWellFormed(root, Names(path));
      var entries, subdirs := ReadDirectory(exclude, path, node);
      VisitQueues(exclude, root, path, node, entries, subdirs, dirDeque);
      assert entryDeque + entries == entries;
      dirDeque := subdirs + dirDeque;
      entryDeque := entryDeque + entries;
    }

    /** Visit directories until some entry is queued or nothing is left. */
    method FillEntries()
      requires WellFormed(root) && Present(root, dirDeque)
      modifies this`dirDeque, this`entryDeque
      ensures Present(root, dirDeque) && Remaining() == old(Remaining())
      ensures entryDeque == [] ==> Remaining() == []
    {
      while entryDeque == [] && dirDeque != []
        invariant Present(root, dirDeque)
        invariant Remaining() == old(Remaining())
        decreases |dirDeque| + CountDirs(Pending(exclude, root, dirDeque))
      {
        var d := dirDeque[0];
        assert d in dirDeque;
        assert Remaining() == Contents(exclude, d, NodeAt(root, d).value) + Pending(exclude, root, dirDeque[1..]);
        dirDeque := dirDeque[1..];
        VisitNextDirectory(d);
      }
    }

    /** Yield the next entry; the order check cannot fail. */
    method Next() returns (r: Option<EntryValue>)
      requires Valid()
      modifies this
      ensures Valid()
      ensures old(Remaining()) == [] ==> r == None && Remaining() == []
      ensures old(Remaining()) != [] ==> r == Some(old(Remaining())[0]) && Remaining() == old(Remaining())[1..]
    {
      hide Before, Increasing, Pending, InOrderAfter;
      FillEntries();
      if entryDeque == [] { return None; }
      var e := entryDeque[0];
      assert Remaining()[0] == e;
      NextInOrder(lastApath, Remaining());
      assert lastApath.Some? ==> Before(lastApath.value, e.apath);
      entryDeque := entryDeque[1..];
      lastApath := Some(e.apath);
      assert Remaining() == old(Remaining())[1..];
      return Some(e);
    }
  }

  datatype TreeError = NotFound | UnsupportedKind

  /** Start a walk, unless there is nothing at the start, or something of a kind that is not supported. */
  method OpenTree(root: Node, subtree: Apath, exclude: Apath -> bool) returns (r: Result<Iter, TreeError>)
    requires WellFormed(root) && IsValid(subtree)
    ensures r == Err(NotFound) <==> NodeAt(root, subtree).None?
    ensures r == Err(UnsupportedKind) <==> NodeAt(root, subtree).Some? && NodeAt(root, subtree).value.Special?
    ensures r.Ok? ==> fresh(r.value) && r.value.Valid() && r.value.Remaining() == Walk(exclude, root, subtree)
  {
    var node := NodeAt(root, subtree);
    if node.None? { return Err(NotFound); }
    if node.value.Special? { return Err(UnsupportedKind); }
    var iter := new Iter(root, subtree, exclude);
    return Ok(iter);
  }
}
