/** Loading icon themes along their Inherits lists, which may be cyclic
    (src/icon-lookup.c, load_icon_themes in src/draw.c). */
module IconThemes {
  import opened Notifications

  /** A parsed index.theme: its sections, the Name of the first one, and the entries of
      Inherits in section "Icon Theme", none when the key is missing. */
  datatype Ini = Ini(sectionCount: nat, name: Option<string>, inherits: seq<string>)

  /** The directories searched for themes, and the index.theme files by directory and
      subdirectory. */
  datatype Disk = Disk(path: seq<string>, files: map<(string, string), Ini>)

  datatype Theme = Theme(location: string, subdir: string, inherits: seq<int>)

  predicate Readable(disk: Disk, dir: string, name: string) {
    (dir, name) in disk.files && disk.files[(dir, name)].sectionCount != 0
  }

  /** The themes a theme inherits: hicolor when it names none, nothing for hicolor itself. */
  function Parents(ini: Ini): seq<string> {
    if ini.name == Some("Hicolor") then [] else if ini.inherits == [] then ["hicolor"] else ini.inherits
  }

  function Locate(disk: Disk, dirs: seq<string>, name: string): (r: Option<string>)
    ensures r.Some? ==> Readable(disk, r.value, name)
  {
    if dirs == [] then None
    else if Readable(disk, dirs[0], name) then Some(dirs[0])
    else Locate(disk, dirs[1..], name)
  }

  /** The directory a theme is loaded from. */
  function Found(disk: Disk, name: string): (r: Option<string>)
    ensures r.Some? ==> Readable(disk, r.value, name)
  {
    Locate(disk, disk.path, name)
  }

  predicate Loadable(disk: Disk, name: string) { Found(disk, name).Some? }

  function ParentsOf(disk: Disk, name: string): seq<string> {
    if Loadable(disk, name) then Parents(disk.files[(Found(disk, name).value, name)]) else []
  }

  function Subdirs(themes: seq<Theme>): (names: seq<string>)
    ensures |names| == |themes| && forall i | 0 <= i < |themes| :: names[i] == themes[i].subdir
  {
    seq(|themes|, i requires 0 <= i < |themes| => themes[i].subdir)
  }

  /** `get_icon_theme`: the first theme of that name, or -1. */
  function IndexIn(names: seq<string>, name: string): (i: int)
    ensures -1 <= i < |names|
    ensures i == -1 <==> name !in names
    ensures i >= 0 ==> names[i] == name && forall j | 0 <= j < i :: names[j] != name
  {
    if names == [] then -1
    else if names[0] == name then 0
    else
      var k := IndexIn(names[1..], name);
      assert forall x :: x in names <==> x == names[0] || x in names[1..];
      if k == -1 then -1 else k + 1
  }

  // ---------- termination ----------

  /** Names that have an index.theme somewhere and are not loaded. */
  ghost function Unloaded(disk: Disk, themes: seq<Theme>): set<string> {
    set k | k in disk.files && k.1 !in Subdirs(themes) :: k.1
  }

  lemma {:induction false} SubsetSize(a: set<string>, b: set<string>)
    requires a <= b
    ensures |a| <= |b|
  {
    if a != {} {
      var x :| x in a;
      SubsetSize(a - {x}, b - {x});
    }
  }

  lemma LoadedShrinks(disk: Disk, themes: seq<Theme>, more: seq<Theme>)
    requires forall x | x in Subdirs(themes) :: x in Subdirs(more)
    ensures Unloaded(disk, more) <= Unloaded(disk, themes)
    ensures |Unloaded(disk, more)| <= |Unloaded(disk, themes)|
  {
    SubsetSize(Unloaded(disk, more), Unloaded(disk, themes));
  }

  lemma LoadingShrinks(disk: Disk, themes: seq<Theme>, t: Theme)
    requires Readable(disk, t.location, t.subdir)
    ensures var left := |Unloaded(disk, themes + [t])|;
            if t.subdir in Subdirs(themes) then left <= |Unloaded(disk, themes)| else left < |Unloaded(disk, themes)|
  {
    var before, after := Unloaded(disk, themes), Unloaded(disk, themes + [t]);
    assert Subdirs(themes + [t]) == Subdirs(themes) + [t.subdir];
    LoadedShrinks(disk, themes, themes + [t]);
    if t.subdir !in Subdirs(themes) {
      assert (t.location, t.subdir) in disk.files;
      assert t.subdir in before && t.subdir !in after;
      SubsetSize(after, before - {t.subdir});
    }
  }

  // ---------- loading ----------

  /** How far loading `name` still can go. */
  ghost function Left(disk: Disk, themes: seq<Theme>, name: string): nat {
    |Unloaded(disk, themes)| + (if name in Subdirs(themes) then 1 else 0)
  }

  /** Below `themes` nothing changes but the inherits of the theme at `at`, before `i`. */
  ghost predicate Grows(themes: seq<Theme>, r: seq<Theme>, at: nat, i: nat)
    requires at < |themes| && i <= |themes[at].inherits|
  {
    && |themes| <= |r|
    && (forall k | 0 <= k < |themes| && k != at :: r[k] == themes[k])
    && r[at].location == themes[at].location && r[at].subdir == themes[at].subdir
    && |r[at].inherits| == |themes[at].inherits| && r[at].inherits[..i] == themes[at].inherits[..i]
  }

  function SetInherit(themes: seq<Theme>, at: nat, i: nat, e: int): (r: seq<Theme>)
    requires at < |themes| && i < |themes[at].inherits|
    ensures Subdirs(r) == Subdirs(themes)
  {
    themes[at := themes[at].(inherits := themes[at].inherits[i := e])]
  }

  /** A theme as it is appended, its inherits_index zeroed. */
  function NewTheme(dir: string, name: string, parents: nat): Theme {
    Theme(dir, name, seq(parents, _ => 0))
  }

  /** `load_icon_theme` */
  function Load(disk: Disk, themes: seq<Theme>, name: string): (r: seq<Theme>)
    ensures themes <= r
    decreases Left(disk, themes, name), 0, 1
  {
    match Found(disk, name)
    case None => themes
    case Some(dir) => LoadFrom(disk, themes, dir, name)
  }

  /** The index `load_icon_theme` returns. */
  function LoadIndex(disk: Disk, themes: seq<Theme>, name: string): int {
    if Loadable(disk, name) then |themes| else -1
  }

  /** `load_icon_theme_from_dir` when the file can be read */
  function LoadFrom(disk: Disk, themes: seq<Theme>, dir: string, name: string): (r: seq<Theme>)
    requires Readable(disk, dir, name)
    ensures themes <= r && |themes| < |r|
    ensures r[|themes|].location == dir && r[|themes|].subdir == name
    decreases Left(disk, themes, name), 0, 0
  {
    var parents := Parents(disk.files[(dir, name)]);
    var t := NewTheme(dir, name, |parents|);
    LoadingShrinks(disk, themes, t);
    LoadParents(disk, themes + [t], |themes|, parents, 0)
  }

  /** The loop over the inherited themes of the theme at `at`, from the `i`-th on. */
  function LoadParents(disk: Disk, themes: seq<Theme>, at: nat, parents: seq<string>, i: nat): (r: seq<Theme>)
    requires at < |themes| && |themes[at].inherits| == |parents| && i <= |parents|
    ensures Grows(themes, r, at, i)
    decreases |Unloaded(disk, themes)|, 1, |parents| - i
  {
    if i == |parents| then themes
    else
      var (next, e) := LoadParent(disk, themes, parents[i]);
      LoadedShrinks(disk, themes, next);
      assert Unloaded(disk, SetInherit(next, at, i, e)) == Unloaded(disk, next);
      LoadParents(disk, SetInherit(next, at, i, e), at, parents, i + 1)
  }

  /** One inherited theme: looked up, and loaded when it is not there yet. */
  function LoadParent(disk: Disk, themes: seq<Theme>, name: string): (r: (seq<Theme>, int))
    ensures themes <= r.0
    decreases |Unloaded(disk, themes)|, 1, 0
  {
    var k := IndexIn(Subdirs(themes), name);
    if k != -1 then (themes, k)
    else (Load(disk, themes, name), LoadIndex(disk, themes, name))
  }

  // ---------- what is loaded ----------

  ghost predicate Chain(disk: Disk, p: seq<string>) {
    && p != []
    && (forall k | 0 <= k < |p| :: Loadable(disk, p[k]))
    && (forall k | 0 <= k < |p| - 1 :: p[k + 1] in ParentsOf(disk, p[k]))
  }

  ghost predicate ChainTo(disk: Disk, p: seq<string>, a: string, b: string) {
    Chain(disk, p) && p[0] == a && p[|p| - 1] == b
  }

  /** Theme `b` is `a` or inherited by it over loadable themes. */
  ghost predicate Reachable(disk: Disk, a: string, b: string) {
    exists p :: ChainTo(disk, p, a, b)
  }

  lemma ReachesItself(disk: Disk, a: string)
    requires Loadable(disk, a)
    ensures Reachable(disk, a, a)
  {
    assert ChainTo(disk, [a], a, a);
  }

  lemma ReachesThrough(disk: Disk, a: string, parent: string, b: string)
    requires Loadable(disk, a) && parent in ParentsOf(disk, a) && Reachable(disk, parent, b)
    ensures Reachable(disk, a, b)
  {
    var p :| ChainTo(disk, p, parent, b);
    var q := [a] + p;
    forall k | 0 <= k < |q| - 1 ensures q[k + 1] in ParentsOf(disk, q[k]) {
      if k > 0 { assert q[k] == p[k - 1] && q[k + 1] == p[k]; }
    }
    assert ChainTo(disk, q, a, b);
  }

  /** Every theme is one the search path leads to. */
  ghost predicate Known(disk: Disk, themes: seq<Theme>) {
    forall k | 0 <= k < |themes| :: Found(disk, themes[k].subdir) == Some(themes[k].location)
  }

  /** An inherits_index entry is -1 when the theme cannot be loaded, and otherwise the first
      theme of that name. */
  ghost predicate EntryRight(disk: Disk, themes: seq<Theme>, parent: string, e: int) {
    e == IndexIn(Subdirs(themes), parent) && (e == -1 <==> !Loadable(disk, parent))
  }

  ghost predicate EntriesRight(disk: Disk, themes: seq<Theme>, parents: seq<string>, es: seq<int>, n: nat)
    requires n <= |parents| && n <= |es|
  {
    forall j | 0 <= j < n :: EntryRight(disk, themes, parents[j], es[j])
  }

  ghost predicate LinkedAt(disk: Disk, themes: seq<Theme>, k: nat)
    requires k < |themes|
  {
    var parents := ParentsOf(disk, themes[k].subdir);
    |themes[k].inherits| == |parents| && EntriesRight(disk, themes, parents, themes[k].inherits, |parents|)
  }

  ghost predicate FirstAt(themes: seq<Theme>, k: nat)
    requires k < |themes|
  {
    themes[k].subdir !in Subdirs(themes)[..k]
  }

  ghost predicate NewAt(disk: Disk, r: seq<Theme>, from: string, k: nat)
    requires k < |r|
  {
    LinkedAt(disk, r, k) && Reachable(disk, from, r[k].subdir)
  }

  /** The themes from `n` on are complete, reached from `from`, and loaded once. */
  ghost predicate NewFrom(disk: Disk, r: seq<Theme>, from: string, n: nat) {
    forall k | n <= k < |r| :: NewAt(disk, r, from, k) && FirstAt(r, k)
  }

  lemma EntryStays(disk: Disk, a: seq<Theme>, b: seq<Theme>, parent: string, e: int)
    requires Subdirs(a) <= Subdirs(b) && Known(disk, b) && EntryRight(disk, a, parent, e)
    ensures EntryRight(disk, b, parent, e)
  {
    var names := Subdirs(b);
    if e == -1 {
      assert forall k | 0 <= k < |b| :: Loadable(disk, b[k].subdir) && names[k] == b[k].subdir;
    } else {
      assert names[e] == parent;
      forall j | 0 <= j < e ensures names[j] != parent { assert names[j] == Subdirs(a)[j]; }
    }
  }

  lemma NewStays(disk: Disk, a: seq<Theme>, b: seq<Theme>, from: string, k: nat)
    requires Subdirs(a) <= Subdirs(b) && Known(disk, b) && k < |a| && a[k] == b[k]
    requires NewAt(disk, a, from, k) && FirstAt(a, k)
    ensures NewAt(disk, b, from, k) && FirstAt(b, k)
  {
    var parents := ParentsOf(disk, a[k].subdir);
    forall j | 0 <= j < |parents| ensures EntryRight(disk, b, parents[j], b[k].inherits[j]) {
      EntryStays(disk, a, b, parents[j], a[k].inherits[j]);
    }
    assert Subdirs(b)[..k] == Subdirs(a)[..k];
  }

  /** After loading `name`, everything new is in order; only `name` itself can be a second
      copy, when it was loaded before. */
  ghost predicate LoadedFrom(disk: Disk, themes: seq<Theme>, r: seq<Theme>, name: string) {
    && Known(disk, r) && Subdirs(themes) <= Subdirs(r)
    && NewFrom(disk, r, name, |themes| + 1)
    && (|themes| < |r| ==> NewAt(disk, r, name, |themes|) && r[|themes|].subdir == name)
  }

  lemma {:induction false} LoadIsRight(disk: Disk, themes: seq<Theme>, name: string)
    requires Known(disk, themes)
    ensures LoadedFrom(disk, themes, Load(disk, themes, name), name)
    decreases Left(disk, themes, name), 0
  {
    var r := Load(disk, themes, name);
    if Loadable(disk, name) {
      var dir := Found(disk, name).value;
      var parents := Parents(disk.files[(dir, name)]);
      var t := NewTheme(dir, name, |parents|);
      assert r == LoadFrom(disk, themes, dir, name);
      assert r == LoadParents(disk, themes + [t], |themes|, parents, 0);
      LoadingShrinks(disk, themes, t);
      ParentsAreRight(disk, themes + [t], |themes|, parents, 0);
      ReachesItself(disk, name);
    }
  }

  lemma {:induction false} ParentsAreRight(disk: Disk, themes: seq<Theme>, at: nat, parents: seq<string>, i: nat)
    requires at < |themes| && |themes[at].inherits| == |parents| && i <= |parents|
    requires Known(disk, themes) && parents == ParentsOf(disk, themes[at].subdir)
    requires EntriesRight(disk, themes, parents, themes[at].inherits, i)
    ensures var r := LoadParents(disk, themes, at, parents, i);
            && Known(disk, r) && Subdirs(themes) <= Subdirs(r)
            && LinkedAt(disk, r, at)
            && NewFrom(disk, r, themes[at].subdir, |themes|)
    decreases |Unloaded(disk, themes)|, 1, |parents| - i
  {
    if i < |parents| {
      var from := themes[at].subdir;
      var (next, e) := LoadParent(disk, themes, parents[i]);
      ParentIsRight(disk, themes, from, parents[i]);
      LoadedShrinks(disk, themes, next);
      var m := SetInherit(next, at, i, e);
      assert Unloaded(disk, m) == Unloaded(disk, next);
      EntriesGrow(disk, themes, next, at, parents, i, e);
      ParentsAreRight(disk, m, at, parents, i + 1);
      var r := LoadParents(disk, m, at, parents, i + 1);
      forall k | |themes| <= k < |r| ensures NewAt(disk, r, from, k) && FirstAt(r, k) {
        if k < |m| {
          assert NewAt(disk, next, from, k) && FirstAt(next, k);
          SetInheritKeepsNew(disk, next, at, i, e, from, k);
          NewStays(disk, m, r, from, k);
        }
      }
    }
  }

  lemma SetInheritKeepsNew(disk: Disk, themes: seq<Theme>, at: nat, i: nat, e: int, from: string, k: nat)
    requires at < |themes| && i < |themes[at].inherits| && at < k < |themes|
    requires NewAt(disk, themes, from, k) && FirstAt(themes, k)
    ensures var m := SetInherit(themes, at, i, e); NewAt(disk, m, from, k) && FirstAt(m, k)
  {
    SameLinks(disk, themes, SetInherit(themes, at, i, e), k);
  }

  lemma EntriesGrow(disk: Disk, themes: seq<Theme>, next: seq<Theme>, at: nat, parents: seq<string>, i: nat, e: int)
    requires at < |themes| && themes <= next && Known(disk, next)
    requires i < |parents| == |themes[at].inherits|
    requires EntriesRight(disk, themes, parents, themes[at].inherits, i) && EntryRight(disk, next, parents[i], e)
    ensures var m := SetInherit(next, at, i, e); EntriesRight(disk, m, parents, m[at].inherits, i + 1)
  {
    var m := SetInherit(next, at, i, e);
    assert Subdirs(themes) <= Subdirs(next) == Subdirs(m);
    forall j | 0 <= j < i + 1 ensures EntryRight(disk, m, parents[j], m[at].inherits[j]) {
      if j < i { EntryStays(disk, themes, m, parents[j], themes[at].inherits[j]); }
    }
  }

  lemma SameLinks(disk: Disk, a: seq<Theme>, b: seq<Theme>, k: nat)
    requires Subdirs(a) == Subdirs(b) && k < |a| == |b| && a[k] == b[k] && LinkedAt(disk, a, k)
    ensures LinkedAt(disk, b, k)
  {
    var parents := ParentsOf(disk, a[k].subdir);
    forall j | 0 <= j < |parents| ensures EntryRight(disk, b, parents[j], b[k].inherits[j]) {
      assert EntryRight(disk, a, parents[j], a[k].inherits[j]);
    }
  }

  lemma {:induction false} ParentIsRight(disk: Disk, themes: seq<Theme>, from: string, name: string)
    requires Known(disk, themes) && Loadable(disk, from) && name in ParentsOf(disk, from)
    ensures var (next, e) := LoadParent(disk, themes, name);
            && Known(disk, next) && Subdirs(themes) <= Subdirs(next)
            && NewFrom(disk, next, from, |themes|)
            && EntryRight(disk, next, name, e)
    decreases |Unloaded(disk, themes)|, 1, 0
  {
    var names := Subdirs(themes);
    var next := LoadParent(disk, themes, name).0;
    if name in names {
      assert forall k | 0 <= k < |themes| :: Loadable(disk, themes[k].subdir) && names[k] == themes[k].subdir;
    } else {
      LoadIsRight(disk, themes, name);
      forall k | |themes| <= k < |next| ensures NewAt(disk, next, from, k) && FirstAt(next, k) {
        assert NewAt(disk, next, name, k) && (k > |themes| ==> FirstAt(next, k));
        ReachesThrough(disk, from, name, next[k].subdir);
        if k == |themes| { assert Subdirs(next)[..k] == names; }
      }
      if Loadable(disk, name) {
        assert Subdirs(next)[|themes|] == name;
        assert forall j | 0 <= j < |themes| :: Subdirs(next)[j] == names[j];
      }
    }
  }

  // ---------- the whole graph ----------

  ghost predicate AllLinked(disk: Disk, themes: seq<Theme>) {
    Known(disk, themes) && forall k | 0 <= k < |themes| :: LinkedAt(disk, themes, k)
  }

  lemma LinkStays(disk: Disk, a: seq<Theme>, b: seq<Theme>, k: nat)
    requires a <= b && Known(disk, b) && k < |a| && LinkedAt(disk, a, k)
    ensures LinkedAt(disk, b, k)
  {
    var parents := ParentsOf(disk, a[k].subdir);
    assert Subdirs(a) <= Subdirs(b);
    forall j | 0 <= j < |parents| ensures EntryRight(disk, b, parents[j], b[k].inherits[j]) {
      EntryStays(disk, a, b, parents[j], a[k].inherits[j]);
    }
  }

  /** Loading a theme leaves every inherits_index entry either -1, for a theme that cannot be
      loaded, or the index of the theme with that directory name. */
  lemma LoadKeepsLinks(disk: Disk, themes: seq<Theme>, name: string)
    requires AllLinked(disk, themes)
    ensures AllLinked(disk, Load(disk, themes, name))
  {
    var r := Load(disk, themes, name);
    LoadIsRight(disk, themes, name);
    forall k | 0 <= k < |r| ensures LinkedAt(disk, r, k) {
      if k < |themes| {
        LinkStays(disk, themes, r, k);
      } else if k > |themes| {
        assert NewAt(disk, r, name, k);
      }
    }
  }

  lemma {:induction false} ChainsStayInside(disk: Disk, themes: seq<Theme>, p: seq<string>)
    requires AllLinked(disk, themes) && Chain(disk, p) && p[0] in Subdirs(themes)
    ensures p[|p| - 1] in Subdirs(themes)
  {
    if |p| > 1 {
      var names := Subdirs(themes);
      var k :| 0 <= k < |names| && names[k] == p[0];
      assert LinkedAt(disk, themes, k);
      var parents := ParentsOf(disk, p[0]);
      assert p[1] in parents;
      var j :| 0 <= j < |parents| && parents[j] == p[1];
      assert EntryRight(disk, themes, parents[j], themes[k].inherits[j]);
      var q := p[1..];
      assert q[0] == p[1];
      forall i | 0 <= i < |q| - 1 ensures q[i + 1] in ParentsOf(disk, q[i]) {
        assert p[i + 2] in ParentsOf(disk, p[i + 1]);
      }
      ChainsStayInside(disk, themes, q);
    }
  }

  /** Exactly the themes reached from `name` over loadable themes are added. */
  lemma LoadedNames(disk: Disk, themes: seq<Theme>, name: string, x: string)
    requires AllLinked(disk, themes)
    ensures x in Subdirs(Load(disk, themes, name)) <==> x in Subdirs(themes) || Reachable(disk, name, x)
  {
    var r := Load(disk, themes, name);
    LoadIsRight(disk, themes, name);
    LoadKeepsLinks(disk, themes, name);
    assert forall k | 0 <= k < |themes| :: Subdirs(r)[k] == Subdirs(themes)[k] && Subdirs(r)[k] in Subdirs(themes);
    if x in Subdirs(r) && x !in Subdirs(themes) {
      var k :| 0 <= k < |r| && Subdirs(r)[k] == x;
      assert NewAt(disk, r, name, k);
    }
    if Reachable(disk, name, x) {
      var p :| ChainTo(disk, p, name, x);
      assert Loadable(disk, p[0]);
      assert r == LoadFrom(disk, themes, Found(disk, name).value, name);
      assert Subdirs(r)[|themes|] == name;
      ChainsStayInside(disk, r, p);
    }
  }

  // ---------- the configured themes ----------

  datatype Loaded = Loaded(themes: seq<Theme>, defaults: seq<int>)

  /** `load_icon_theme` and `add_default_theme` */
  function AddRoot(disk: Disk, l: Loaded, root: string): Loaded {
    var k := LoadIndex(disk, l.themes, root);
    Loaded(Load(disk, l.themes, root), if k >= 0 then l.defaults + [k] else l.defaults)
  }

  /** The loop of `load_icon_themes`. */
  function LoadRoots(disk: Disk, roots: seq<string>): Loaded {
    if roots == [] then Loaded([], [])
    else AddRoot(disk, LoadRoots(disk, roots[..|roots| - 1]), roots[|roots| - 1])
  }

  /** `load_icon_themes`, with hicolor as the last resort */
  function Start(disk: Disk, roots: seq<string>): Loaded {
    var l := LoadRoots(disk, roots);
    if l.defaults != [] then l else AddRoot(disk, l, "hicolor")
  }

  lemma {:induction false} RootsAreLinked(disk: Disk, roots: seq<string>)
    ensures var l := LoadRoots(disk, roots);
            && AllLinked(disk, l.themes)
            && (l.defaults == [] <==> l.themes == [])
            && (l.defaults != [] ==> l.defaults[0] == 0)
  {
    if roots != [] {
      var before := LoadRoots(disk, roots[..|roots| - 1]);
      RootsAreLinked(disk, roots[..|roots| - 1]);
      LoadKeepsLinks(disk, before.themes, roots[|roots| - 1]);
    }
  }

  ghost predicate ReachedFrom(disk: Disk, roots: seq<string>, x: string) {
    exists i :: 0 <= i < |roots| && Reachable(disk, roots[i], x)
  }

  lemma {:induction false} RootsLoadExactly(disk: Disk, roots: seq<string>, x: string)
    ensures x in Subdirs(LoadRoots(disk, roots).themes) <==> ReachedFrom(disk, roots, x)
  {
    if roots != [] {
      var k := |roots| - 1;
      var before := LoadRoots(disk, roots[..k]);
      RootsAreLinked(disk, roots[..k]);
      RootsLoadExactly(disk, roots[..k], x);
      LoadedNames(disk, before.themes, roots[k], x);
      if ReachedFrom(disk, roots[..k], x) {
        var i :| 0 <= i < k && Reachable(disk, roots[..k][i], x);
        assert Reachable(disk, roots[i], x);
      }
      if ReachedFrom(disk, roots, x) && !Reachable(disk, roots[k], x) {
        var i :| 0 <= i < |roots| && Reachable(disk, roots[i], x);
        assert Reachable(disk, roots[..k][i], x);
      }
    }
  }

  /** After start-up every link is right, and a theme is loaded exactly when it is reached
      from a configured theme, or from hicolor when none of those can be loaded. */
  lemma StartLoadsWhatIsReached(disk: Disk, roots: seq<string>, x: string)
    ensures var l := Start(disk, roots);
            && AllLinked(disk, l.themes)
            && (x in Subdirs(l.themes)
                <==> || ReachedFrom(disk, roots, x)
                     || ((forall r | r in roots :: !Loadable(disk, r)) && Reachable(disk, "hicolor", x)))
  {
    var l := LoadRoots(disk, roots);
    RootsAreLinked(disk, roots);
    RootsLoadExactly(disk, roots, x);
    LoadedNames(disk, l.themes, "hicolor", x);
    LoadKeepsLinks(disk, l.themes, "hicolor");
    forall r | r in roots && Loadable(disk, r) ensures l.themes != [] {
      ReachesItself(disk, r);
      var i :| 0 <= i < |roots| && roots[i] == r;
      assert ReachedFrom(disk, roots, r);
      RootsLoadExactly(disk, roots, r);
    }
    if l.themes != [] {
      var y := Subdirs(l.themes)[0];
      RootsLoadExactly(disk, roots, y);
      var i :| 0 <= i < |roots| && Reachable(disk, roots[i], y);
      var p :| ChainTo(disk, p, roots[i], y);
      assert roots[i] in roots && Loadable(disk, p[0]);
    }
  }

  ghost predicate EachOnce(themes: seq<Theme>) {
    forall k | 0 <= k < |themes| :: FirstAt(themes, k)
  }

  /** No configured theme is reached from one before it. */
  ghost predicate RootsApart(disk: Disk, roots: seq<string>) {
    forall j | 0 <= j < |roots| :: !ReachedFrom(disk, roots[..j], roots[j])
  }

  lemma RootsApartStep(disk: Disk, roots: seq<string>)
    requires roots != []
    ensures var k := |roots| - 1;
            RootsApart(disk, roots) <==> RootsApart(disk, roots[..k]) && !ReachedFrom(disk, roots[..k], roots[k])
  {
    var k := |roots| - 1;
    assert forall j | 0 <= j < k :: roots[..k][..j] == roots[..j] && roots[..k][j] == roots[j];
    if RootsApart(disk, roots) {
      forall j | 0 <= j < k ensures !ReachedFrom(disk, roots[..k][..j], roots[..k][j]) {
        assert !ReachedFrom(disk, roots[..j], roots[j]);
      }
    }
    if RootsApart(disk, roots[..k]) && !ReachedFrom(disk, roots[..k], roots[k]) {
      forall j | 0 <= j < |roots| ensures !ReachedFrom(disk, roots[..j], roots[j]) {
        if j < k { assert !ReachedFrom(disk, roots[..k][..j], roots[..k][j]); }
      }
    }
  }

  /** Loading one more theme keeps "each once" exactly when it is not loaded already or
      cannot be loaded. */
  lemma LoadOnceIff(disk: Disk, themes: seq<Theme>, name: string)
    requires Known(disk, themes)
    ensures var r := Load(disk, themes, name);
            EachOnce(r) <==> EachOnce(themes) && (name !in Subdirs(themes) || !Loadable(disk, name))
  {
    var r := Load(disk, themes, name);
    LoadIsRight(disk, themes, name);
    assert Subdirs(r)[..|themes|] == Subdirs(themes);
    assert forall k | 0 <= k < |themes| :: Subdirs(r)[..k] == Subdirs(themes)[..k] && r[k] == themes[k];
    assert forall k | 0 <= k < |themes| :: FirstAt(r, k) <==> FirstAt(themes, k);
    if Loadable(disk, name) {
      assert r == LoadFrom(disk, themes, Found(disk, name).value, name);
      assert FirstAt(r, |themes|) <==> name !in Subdirs(themes);
      assert forall k | |themes| < k < |r| :: FirstAt(r, k);
    }
  }

  /** Each theme is loaded once exactly when no configured theme is reached from an earlier
      one: a configured theme is loaded without looking whether it is there. */
  lemma {:induction false} LoadedOnceIff(disk: Disk, roots: seq<string>)
    ensures EachOnce(LoadRoots(disk, roots).themes) <==> RootsApart(disk, roots)
  {
    if roots != [] {
      var k := |roots| - 1;
      var before := LoadRoots(disk, roots[..k]);
      RootsAreLinked(disk, roots[..k]);
      LoadedOnceIff(disk, roots[..k]);
      RootsApartStep(disk, roots);
      LoadOnceIff(disk, before.themes, roots[k]);
      RootsLoadExactly(disk, roots[..k], roots[k]);
      if ReachedFrom(disk, roots[..k], roots[k]) {
        var i :| 0 <= i < k && Reachable(disk, roots[..k][i], roots[k]);
        var p :| ChainTo(disk, p, roots[i], roots[k]);
        assert Loadable(disk, p[|p| - 1]);
      }
    }
  }

  /** Two configured themes of which the first inherits the second: it is loaded twice. */
  lemma SecondCopy()
    ensures var disk := Disk(["icons"], map[("icons", "A") := Ini(1, None, ["B"]),
                                            ("icons", "B") := Ini(1, None, ["B"])]);
            !EachOnce(LoadRoots(disk, ["A", "B"]).themes)
  {
    var disk := Disk(["icons"], map[("icons", "A") := Ini(1, None, ["B"]), ("icons", "B") := Ini(1, None, ["B"])]);
    var roots := ["A", "B"];
    assert disk.path[0] == "icons";
    assert ChainTo(disk, ["A", "B"], "A", "B");
    assert roots[..1] == ["A"] && Reachable(disk, roots[..1][0], "B");
    assert ReachedFrom(disk, roots[..1], roots[1]);
    LoadedOnceIff(disk, roots);
  }

  // ---------- finding an icon ----------

  /** `find_icon_in_theme`, for one icon name and size. */
  type Lookup = (string, string) -> Option<string>

  function IconAt(lookup: Lookup, themes: seq<Theme>, k: int): Option<string> {
    if 0 <= k < |themes| then lookup(themes[k].location, themes[k].subdir) else None
  }

  /** The first icon of the themes at `at`, leaving out indexes up to `skipped`. */
  function FirstIcon(lookup: Lookup, themes: seq<Theme>, at: seq<int>, skipped: int): Option<string> {
    if at == [] then None
    else
      var icon := if at[0] <= skipped then None else IconAt(lookup, themes, at[0]);
      if icon.Some? then icon else FirstIcon(lookup, themes, at[1..], skipped)
  }

  /** `find_icon_in_theme_with_inherit` */
  function IconWithInherits(lookup: Lookup, themes: seq<Theme>, k: int, skipped: int): Option<string> {
    var icon := IconAt(lookup, themes, k);
    if icon.Some? || !(0 <= k < |themes|) then icon else FirstIcon(lookup, themes, themes[k].inherits, skipped)
  }

  /** `find_icon_path` over the default themes. The code skips inherited indexes up to 0,
      though only -1 stands for a missing theme. */
  function FindIconPath(lookup: Lookup, themes: seq<Theme>, defaults: seq<int>, skipped: int): Option<string> {
    if defaults == [] then None
    else
      var icon := IconWithInherits(lookup, themes, defaults[0], skipped);
      if icon.Some? then icon else FindIconPath(lookup, themes, defaults[1..], skipped)
  }

  lemma {:induction false} SkippingNothing(lookup: Lookup, themes: seq<Theme>, at: seq<int>)
    requires IconAt(lookup, themes, 0) == None
    ensures FirstIcon(lookup, themes, at, 0) == FirstIcon(lookup, themes, at, -1)
  {
    if at != [] { SkippingNothing(lookup, themes, at[1..]); }
  }

  lemma {:induction false} SkippingFirst(lookup: Lookup, themes: seq<Theme>, defaults: seq<int>)
    requires IconAt(lookup, themes, 0) == None
    ensures FindIconPath(lookup, themes, defaults, 0) == FindIconPath(lookup, themes, defaults, -1)
  {
    if defaults != [] {
      if 0 <= defaults[0] < |themes| { SkippingNothing(lookup, themes, themes[defaults[0]].inherits); }
      SkippingFirst(lookup, themes, defaults[1..]);
    }
  }

  /** After start-up, treating index 0 as missing never changes the icon that is found: the
      theme at 0 is always asked first. */
  lemma SkippingFirstIsHarmless(lookup: Lookup, disk: Disk, roots: seq<string>)
    ensures var l := Start(disk, roots);
            FindIconPath(lookup, l.themes, l.defaults, 0) == FindIconPath(lookup, l.themes, l.defaults, -1)
  {
    var l := Start(disk, roots);
    RootsAreLinked(disk, roots);
    if IconAt(lookup, l.themes, 0) == None {
      SkippingFirst(lookup, l.themes, l.defaults);
    }
  }

  // ---------- the mutable list ----------

  class ThemeList {
    var themes: seq<Theme>
    var defaults: seq<int>

    constructor ()
      ensures themes == [] && defaults == []
    {
      themes, defaults := [], [];
    }

    /** `get_icon_theme` */
    method GetIconTheme(name: string) returns (k: int)
      ensures k == IndexIn(Subdirs(themes), name)
    {
      for i := 0 to |themes|
        invariant name !in Subdirs(themes)[..i]
      {
        assert Subdirs(themes)[..i + 1] == Subdirs(themes)[..i] + [themes[i].subdir];
        if themes[i].subdir == name {
          assert Subdirs(themes)[i] == name;
          return i;
        }
      }
      assert Subdirs(themes)[..|themes|] == Subdirs(themes);
      k := -1;
    }

    /** The body of the loop over inherited themes: look the theme up, or load it. */
    method LoadInherited(disk: Disk, name: string) returns (k: int)
      modifies this`themes
      ensures (themes, k) == LoadParent(disk, old(themes), name)
      decreases |Unloaded(disk, themes)|, 1, 0
    {
      k := GetIconTheme(name);
      if k == -1 {
        k := LoadIconTheme(disk, name);
      }
    }

    /** `load_icon_theme_from_dir` */
    method LoadIconThemeFromDir(disk: Disk, dir: string, name: string) returns (index: int)
      modifies this`themes
      ensures Readable(disk, dir, name) ==> themes == LoadFrom(disk, old(themes), dir, name) && index == |old(themes)|
      ensures !Readable(disk, dir, name) ==> themes == old(themes) && index == -1
      decreases Left(disk, themes, name), 0, 0
    {
      if (dir, name) !in disk.files {
        return -1;
      }
      var ini := disk.files[(dir, name)];
      if ini.sectionCount == 0 {
        return -1;
      }
      index := |themes|;
      var inherits := Parents(ini);
      LoadingShrinks(disk, themes, NewTheme(dir, name, |inherits|));
      themes := themes + [NewTheme(dir, name, |inherits|)];
      for i := 0 to |inherits|
        invariant index == |old(themes)| < |themes| && |themes[index].inherits| == |inherits|
        invariant |Unloaded(disk, themes)| < Left(disk, old(themes), name)
        invariant LoadParents(disk, themes, index, inherits, i) == LoadFrom(disk, old(themes), dir, name)
      {
        ghost var was := themes;
        var k := LoadInherited(disk, inherits[i]);
        LoadedShrinks(disk, was, themes);
        ghost var next := themes;
        themes := SetInherit(themes, index, i, k);
        assert Unloaded(disk, themes) == Unloaded(disk, next);
      }
    }

    /** `load_icon_theme` */
    method LoadIconTheme(disk: Disk, name: string) returns (index: int)
      modifies this`themes
      ensures themes == Load(disk, old(themes), name) && index == LoadIndex(disk, old(themes), name)
      decreases Left(disk, themes, name), 0, 1
    {
      for i := 0 to |disk.path|
        invariant themes == old(themes)
        invariant Found(disk, name) == Locate(disk, disk.path[i..], name)
      {
        assert disk.path[i..][1..] == disk.path[i + 1..];
        index := LoadIconThemeFromDir(disk, disk.path[i], name);
        if index != -1 {
          return;
        }
      }
      index := -1;
    }

    /** `add_default_theme` */
    method AddDefaultTheme(index: int)
      modifies this`defaults
      ensures defaults == if 0 <= index < |themes| then old(defaults) + [index] else old(defaults)
    {
      if index < 0 || index >= |themes| {
        return;
      }
      defaults := defaults + [index];
    }

    /** `load_icon_themes` */
    method LoadIconThemes(disk: Disk, roots: seq<string>)
      requires themes == [] && defaults == []
      modifies this
      ensures Loaded(themes, defaults) == Start(disk, roots)
    {
      var loaded := false;
      for i := 0 to |roots|
        invariant Loaded(themes, defaults) == LoadRoots(disk, roots[..i])
        invariant loaded <==> defaults != []
      {
        assert roots[..i + 1][..i] == roots[..i];
        var k := LoadIconTheme(disk, roots[i]);
        if k >= 0 {
          AddDefaultTheme(k);
          loaded := true;
        }
      }
      assert roots[..|roots|] == roots;
      if !loaded {
        var k := LoadIconTheme(disk, "hicolor");
        AddDefaultTheme(k);
      }
    }

    /** `find_icon_in_theme_with_inherit` */
    method FindIconInThemeWithInherit(lookup: Lookup, k: int) returns (icon: Option<string>)
      requires 0 <= k < |themes|
      ensures icon == IconWithInherits(lookup, themes, k, 0)
    {
      icon := IconAt(lookup, themes, k);
      if icon.Some? {
        return;
      }
      var inherits := themes[k].inherits;
      for i := 0 to |inherits|
        invariant FirstIcon(lookup, themes, inherits, 0) == FirstIcon(lookup, themes, inherits[i..], 0)
      {
        assert inherits[i..][1..] == inherits[i + 1..];
        if inherits[i] <= 0 {
          continue;
        }
        icon := IconAt(lookup, themes, inherits[i]);
        if icon.Some? {
          return;
        }
      }
      icon := None;
    }

    /** `find_icon_path` */
    method FindIcon(lookup: Lookup) returns (icon: Option<string>)
      requires forall k | k in defaults :: 0 <= k < |themes|
      ensures icon == FindIconPath(lookup, themes, defaults, 0)
    {
      for i := 0 to |defaults|
        invariant FindIconPath(lookup, themes, defaults, 0) == FindIconPath(lookup, themes, defaults[i..], 0)
      {
        assert defaults[i..][1..] == defaults[i + 1..];
        assert defaults[i] in defaults;
        icon := FindIconInThemeWithInherit(lookup, defaults[i]);
        if icon.Some? {
          return;
        }
      }
      icon := None;
    }
  }
}
