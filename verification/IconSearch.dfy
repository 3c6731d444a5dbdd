/** Which themes a theme file inherits, where it is found, and in which order themes are asked for
    an icon: by their names alone, without the list of loaded themes (src/icon-lookup.c). */
module IconSearch {
  import opened Notifications
  import opened IconThemes

  // ---------- where a theme is found ----------

  /** The directory has a theme file of that name with at least one section. */
  predicate Has(disk: Disk, dir: string, name: string) {
    (dir, name) in disk.files && disk.files[(dir, name)].sectionCount > 0
  }

  lemma {:induction false} LocatedFirst(disk: Disk, dirs: seq<string>, name: string)
    ensures match Locate(disk, dirs, name)
            case None => forall i | 0 <= i < |dirs| :: !Has(disk, dirs[i], name)
            case Some(d) =>
              exists i :: 0 <= i < |dirs| && dirs[i] == d && Has(disk, d, name)
                          && forall j | 0 <= j < i :: !Has(disk, dirs[j], name)
  {
    if dirs != [] && !Readable(disk, dirs[0], name) {
      LocatedFirst(disk, dirs[1..], name);
      if d :| Locate(disk, dirs[1..], name) == Some(d) {
        var i :| 0 <= i < |dirs[1..]| && dirs[1..][i] == d && Has(disk, d, name)
                 && forall j | 0 <= j < i :: !Has(disk, dirs[1..][j], name);
        assert dirs[i + 1] == d && forall j | 0 < j < i + 1 :: dirs[j] == dirs[1..][j - 1];
      }
    } else if dirs != [] {
      assert dirs[0] == Locate(disk, dirs, name).value;
    }
  }

  /** A theme is loaded from the first directory of the search path that has it. */
  lemma FoundInFirstDirectory(disk: Disk, name: string)
    ensures match Found(disk, name)
            case None => forall i | 0 <= i < |disk.path| :: !Has(disk, disk.path[i], name)
            case Some(d) =>
              exists i :: 0 <= i < |disk.path| && disk.path[i] == d && Has(disk, d, name)
                          && forall j | 0 <= j < i :: !Has(disk, disk.path[j], name)
  {
    LocatedFirst(disk, disk.path, name);
  }

  // ---------- what a theme inherits ----------

  /** What the theme file at `dir` names as inherited: hicolor when it names nothing, and nothing when
      it is hicolor's own. */
  function Inherited(disk: Disk, dir: string, name: string): seq<string> {
    if (dir, name) !in disk.files || disk.files[(dir, name)].name == Some("Hicolor") then []
    else if |disk.files[(dir, name)].inherits| == 0 then ["hicolor"]
    else disk.files[(dir, name)].inherits
  }

  /** After start-up the links of every theme are those its file names, in order: each is the first
      loaded theme of that name, or -1 exactly when no directory of the path has it. */
  lemma LinksFollowTheFile(disk: Disk, roots: seq<string>, k: nat)
    requires k < |Start(disk, roots).themes|
    ensures var themes := Start(disk, roots).themes;
            var t := themes[k];
            var names := Inherited(disk, t.location, t.subdir);
            && |t.inherits| == |names|
            && forall j | 0 <= j < |names| ::
                 if t.inherits[j] == -1 then forall d | d in disk.path :: !Has(disk, d, names[j])
                 else && 0 <= t.inherits[j] < |themes| && themes[t.inherits[j]].subdir == names[j]
                      && forall i | 0 <= i < t.inherits[j] :: themes[i].subdir != names[j]
  {
    var themes := Start(disk, roots).themes;
    var t := themes[k];
    StartLoadsWhatIsReached(disk, roots, "");
    assert LinkedAt(disk, themes, k) && Found(disk, t.subdir) == Some(t.location);
    var names := Inherited(disk, t.location, t.subdir);
    assert ParentsOf(disk, t.subdir) == names;
    forall j | 0 <= j < |names|
      ensures if t.inherits[j] == -1 then forall d | d in disk.path :: !Has(disk, d, names[j])
              else && 0 <= t.inherits[j] < |themes| && themes[t.inherits[j]].subdir == names[j]
                   && forall i | 0 <= i < t.inherits[j] :: themes[i].subdir != names[j]
    {
      assert EntryRight(disk, themes, names[j], t.inherits[j]);
      FoundInFirstDirectory(disk, names[j]);
      assert forall i | 0 <= i < |themes| :: Subdirs(themes)[i] == themes[i].subdir;
    }
  }

  // ---------- in which order themes are asked ----------

  /** Those of the names that some directory of the path has. */
  function Present(disk: Disk, names: seq<string>): seq<string> {
    if names == [] then []
    else (if Found(disk, names[0]).Some? then [names[0]] else []) + Present(disk, names[1..])
  }

  /** Every configured theme, with what it inherits behind it. */
  function Asked(disk: Disk, roots: seq<string>): seq<string> {
    if roots == [] then []
    else
      (match Found(disk, roots[0])
       case None => []
       case Some(dir) => [roots[0]] + Present(disk, Inherited(disk, dir, roots[0])))
      + Asked(disk, roots[1..])
  }

  /** The icon of the first of these themes that has one. */
  function FirstOf(lookup: Lookup, disk: Disk, names: seq<string>): Option<string> {
    if names == [] then None
    else
      var icon := if Found(disk, names[0]).Some? then lookup(Found(disk, names[0]).value, names[0]) else None;
      if icon.Some? then icon else FirstOf(lookup, disk, names[1..])
  }

  lemma {:induction false} FirstOfConcat(lookup: Lookup, disk: Disk, a: seq<string>, b: seq<string>)
    ensures FirstOf(lookup, disk, a + b)
            == if FirstOf(lookup, disk, a).Some? then FirstOf(lookup, disk, a) else FirstOf(lookup, disk, b)
  {
    if a == [] {
      assert a + b == b;
    } else {
      assert (a + b)[0] == a[0] && (a + b)[1..] == a[1..] + b;
      FirstOfConcat(lookup, disk, a[1..], b);
    }
  }

  lemma IconOfTheme(lookup: Lookup, disk: Disk, themes: seq<Theme>, k: nat)
    requires AllLinked(disk, themes) && k < |themes|
    ensures Found(disk, themes[k].subdir) == Some(themes[k].location)
    ensures IconAt(lookup, themes, k) == lookup(themes[k].location, themes[k].subdir)
  {
  }

  lemma {:induction false} LinksByName(lookup: Lookup, disk: Disk, themes: seq<Theme>, names: seq<string>,
                                       at: seq<int>)
    requires AllLinked(disk, themes) && |at| == |names| && EntriesRight(disk, themes, names, at, |names|)
    ensures FirstIcon(lookup, themes, at, -1) == FirstOf(lookup, disk, Present(disk, names))
  {
    if names != [] {
      assert EntryRight(disk, themes, names[0], at[0]);
      forall j | 0 <= j < |names| - 1 ensures EntryRight(disk, themes, names[1..][j], at[1..][j]) {
        assert EntryRight(disk, themes, names[j + 1], at[j + 1]);
      }
      LinksByName(lookup, disk, themes, names[1..], at[1..]);
      if at[0] >= 0 {
        IconOfTheme(lookup, disk, themes, at[0]);
        assert themes[at[0]].subdir == names[0];
        FirstOfConcat(lookup, disk, [names[0]], Present(disk, names[1..]));
        assert [names[0]][1..] == [];
      } else {
        assert [] + Present(disk, names[1..]) == Present(disk, names[1..]);
      }
    }
  }

  lemma ThemeByName(lookup: Lookup, disk: Disk, themes: seq<Theme>, k: nat)
    requires AllLinked(disk, themes) && k < |themes|
    ensures IconWithInherits(lookup, themes, k, -1) == FirstOf(lookup, disk, Asked(disk, [themes[k].subdir]))
  {
    var t := themes[k];
    var names := Inherited(disk, t.location, t.subdir);
    IconOfTheme(lookup, disk, themes, k);
    assert LinkedAt(disk, themes, k) && ParentsOf(disk, t.subdir) == names;
    LinksByName(lookup, disk, themes, names, t.inherits);
    FirstOfConcat(lookup, disk, [t.subdir], Present(disk, names));
    assert [t.subdir][1..] == [] && Asked(disk, [t.subdir]) == [t.subdir] + Present(disk, names);
  }

  predicate AreIndexes(at: seq<int>, n: nat) {
    forall i | 0 <= i < |at| :: 0 <= at[i] < n
  }

  /** The names of the themes at some indexes. */
  function NamesAt(themes: seq<Theme>, at: seq<int>): (names: seq<string>)
    requires AreIndexes(at, |themes|)
    ensures |names| == |at| && forall i | 0 <= i < |at| :: names[i] == themes[at[i]].subdir
  {
    seq(|at|, i requires 0 <= i < |at| => themes[at[i]].subdir)
  }

  lemma AskedFirst(disk: Disk, roots: seq<string>)
    requires roots != []
    ensures Asked(disk, roots) == Asked(disk, [roots[0]]) + Asked(disk, roots[1..])
  {
    assert [roots[0]][1..] == [] && Asked(disk, []) == [];
  }

  lemma {:induction false} DefaultsByName(lookup: Lookup, disk: Disk, themes: seq<Theme>, at: seq<int>)
    requires AllLinked(disk, themes) && AreIndexes(at, |themes|)
    ensures FindIconPath(lookup, themes, at, -1) == FirstOf(lookup, disk, Asked(disk, NamesAt(themes, at)))
  {
    if at != [] {
      var names := NamesAt(themes, at);
      assert AreIndexes(at[1..], |themes|) && names[1..] == NamesAt(themes, at[1..]);
      ThemeByName(lookup, disk, themes, at[0]);
      DefaultsByName(lookup, disk, themes, at[1..]);
      AskedFirst(disk, names);
      FirstOfConcat(lookup, disk, Asked(disk, [names[0]]), Asked(disk, names[1..]));
    }
  }

  lemma {:induction false} PresentConcat(disk: Disk, a: seq<string>, b: seq<string>)
    ensures Present(disk, a + b) == Present(disk, a) + Present(disk, b)
  {
    if a == [] {
      assert a + b == b;
    } else {
      assert (a + b)[0] == a[0] && (a + b)[1..] == a[1..] + b;
      PresentConcat(disk, a[1..], b);
    }
  }

  /** The default themes are the configured ones that are there. */
  lemma {:induction false} DefaultsArePresent(disk: Disk, roots: seq<string>)
    ensures var l := LoadRoots(disk, roots);
            && AreIndexes(l.defaults, |l.themes|)
            && NamesAt(l.themes, l.defaults) == Present(disk, roots)
  {
    if roots != [] {
      var k := |roots| - 1;
      var before, l := LoadRoots(disk, roots[..k]), LoadRoots(disk, roots);
      DefaultsArePresent(disk, roots[..k]);
      PresentConcat(disk, roots[..k], [roots[k]]);
      assert roots == roots[..k] + [roots[k]] && [roots[k]][1..] == [];
      if Loadable(disk, roots[k]) {
        assert l.themes == LoadFrom(disk, before.themes, Found(disk, roots[k]).value, roots[k]);
        assert l.themes[|before.themes|].subdir == roots[k];
      }
      assert before.themes <= l.themes && AreIndexes(l.defaults, |l.themes|);
      assert NamesAt(l.themes, before.defaults) == NamesAt(before.themes, before.defaults);
      assert NamesAt(l.themes, l.defaults)
             == NamesAt(before.themes, before.defaults) + (if Loadable(disk, roots[k]) then [roots[k]] else []);
    }
  }

  lemma {:induction false} AskedPresent(disk: Disk, roots: seq<string>)
    ensures Asked(disk, Present(disk, roots)) == Asked(disk, roots)
  {
    if roots != [] {
      AskedPresent(disk, roots[1..]);
      AskedFirst(disk, roots);
      if Found(disk, roots[0]).Some? {
        AskedFirst(disk, Present(disk, roots));
        assert Present(disk, roots)[1..] == Present(disk, roots[1..]);
      } else {
        assert Present(disk, roots) == Present(disk, roots[1..]);
        assert Asked(disk, [roots[0]]) == [];
      }
    }
  }

  /** The icon that is found is that of the first theme that has it, where every configured theme is
      asked in turn, each followed by the themes its file inherits, and hicolor with what it inherits
      only when no configured theme is there. */
  lemma IconIsOfTheFirstThemeAsked(lookup: Lookup, disk: Disk, roots: seq<string>)
    ensures var l := Start(disk, roots);
            FindIconPath(lookup, l.themes, l.defaults, 0)
            == if exists r :: r in roots && Found(disk, r).Some? then FirstOf(lookup, disk, Asked(disk, roots))
               else FirstOf(lookup, disk, Asked(disk, ["hicolor"]))
  {
    var asked := if LoadRoots(disk, roots).defaults != [] then roots else ["hicolor"];
    StartNames(disk, roots);
    StartLoadsWhatIsReached(disk, roots, "");
    SkippingFirstIsHarmless(lookup, disk, roots);
    var l := Start(disk, roots);
    DefaultsByName(lookup, disk, l.themes, l.defaults);
    AskedPresent(disk, asked);
    DefaultsArePresent(disk, roots);
    SomePresent(disk, roots);
  }

  lemma {:induction false} SomePresent(disk: Disk, roots: seq<string>)
    ensures Present(disk, roots) != [] <==> exists r :: r in roots && Found(disk, r).Some?
  {
    if roots != [] {
      SomePresent(disk, roots[1..]);
      assert roots[0] in roots && forall r :: r in roots <==> r == roots[0] || r in roots[1..];
    }
  }

  lemma StartNames(disk: Disk, roots: seq<string>)
    ensures var l := Start(disk, roots);
            && AreIndexes(l.defaults, |l.themes|)
            && NamesAt(l.themes, l.defaults)
               == Present(disk, if LoadRoots(disk, roots).defaults != [] then roots else ["hicolor"])
  {
    DefaultsArePresent(disk, roots);
    var before, l := LoadRoots(disk, roots), Start(disk, roots);
    if before.defaults == [] {
      RootsAreLinked(disk, roots);
      assert ["hicolor"][..0] == [] && LoadRoots(disk, []) == Loaded([], []);
      DefaultsArePresent(disk, ["hicolor"]);
      assert l == LoadRoots(disk, ["hicolor"]);
    }
  }
}
