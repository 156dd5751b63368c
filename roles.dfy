/** The System Roles page (plg_system_roles.py, `SystemRolesPlugin`): which of the
    MythTV role packages are installed, and the packages to install or remove when
    the radio buttons and check boxes differ from what was found.  The package
    cache is the set of installed packages, and `shutil.which` is the set of
    programs found on the PATH. */
module SystemRoles {
  import opened Wrappers
  import opened Strings
  import Plugin

  /** The role packages, in the order of `get_role_dictionary` (dictionaries.py). */
  const PRIMARY := "mythtv-backend-master"
  const SECONDARY := "mythtv-backend"
  const FRONTEND := "mythtv-frontend"
  const ROLES := [PRIMARY, SECONDARY, FRONTEND]

  /** The other packages the page manages. */
  const XMLTV := "xmltv"
  const XMLTV_UTIL := "xmltv-util"
  const SSH := "openssh-server"
  const HDHR := "hdhomerun-config"
  const HDHR_GUI := "hdhomerun-config-gui"

  /** The programs whose presence on the PATH stands for a package. */
  const TV_SORT := "tv_sort"
  const HDHR_PROGRAM := "hdhomerun_config"
  const HDHR_GUI_PROGRAM := "hdhomerun_config_gui"

  // ---------------------------------------------------------------------------
  // captureState

  /** What the role loop has found so far: `dictionary_state` keyed by package,
      `no_back` and `no_front`. */
  datatype Scan = Scan(roles: map<string, bool>, noBack: bool, noFront: bool)

  /** One pass of the role loop: the item's installed state is recorded; an
      installed item naming "backend" clears no_back, otherwise an installed item
      naming "frontend" clears no_front. */
  function ScanStep(s: Scan, item: string, installed: set<string>): Scan {
    var state := item in installed;
    if Contains(item, "backend") && state then Scan(s.roles[item := state], false, s.noFront)
    else if Contains(item, "frontend") && state then Scan(s.roles[item := state], s.noBack, false)
    else Scan(s.roles[item := state], s.noBack, s.noFront)
  }

  /** The role loop over items, from an empty dictionary with both flags set. */
  function RoleScan(items: seq<string>, installed: set<string>): Scan
    decreases |items|
  {
    if items == [] then Scan(map[], true, true)
    else ScanStep(RoleScan(items[..|items| - 1], installed), items[|items| - 1], installed)
  }

  /** Every item scanned holds its installed state, and nothing else is recorded. */
  lemma {:induction false} RoleScanStates(items: seq<string>, installed: set<string>)
    ensures var s := RoleScan(items, installed);
            (forall r :: r in s.roles <==> r in items) && forall r :: r in s.roles ==> s.roles[r] == (r in installed)
    decreases |items|
  {
    if items != [] {
      var init := items[..|items| - 1];
      RoleScanStates(init, installed);
      assert items == init + [items[|items| - 1]];
    }
  }

  /** no_back stays set exactly when no installed item names "backend". */
  lemma {:induction false} RoleScanNoBack(items: seq<string>, installed: set<string>)
    ensures RoleScan(items, installed).noBack
            <==> forall i :: 0 <= i < |items| ==> !(Contains(items[i], "backend") && items[i] in installed)
    decreases |items|
  {
    if items != [] {
      var init := items[..|items| - 1];
      RoleScanNoBack(init, installed);
      assert forall i :: 0 <= i < |init| ==> init[i] == items[i];
    }
  }

  /** no_front stays set exactly when no installed item names "frontend" without
      naming "backend" (the `elif`). */
  lemma {:induction false} RoleScanNoFront(items: seq<string>, installed: set<string>)
    ensures RoleScan(items, installed).noFront
            <==> forall i :: 0 <= i < |items| ==>
                   !(Contains(items[i], "frontend") && !Contains(items[i], "backend") && items[i] in installed)
    decreases |items|
  {
    if items != [] {
      var init := items[..|items| - 1];
      RoleScanNoFront(init, installed);
      assert forall i :: 0 <= i < |init| ==> init[i] == items[i];
    }
  }

  /** The primary backend's package names "backend" and not "frontend". */
  lemma PrimaryWords()
    ensures Contains(PRIMARY, "backend") && !Contains(PRIMARY, "frontend")
  {
    assert PRIMARY[7..14] == "backend";
    ContainsAt(PRIMARY, "backend", 7);
    MissingCharNotContained(PRIMARY, "frontend", 'f');
  }

  /** The secondary backend's package names "backend" and not "frontend". */
  lemma SecondaryWords()
    ensures Contains(SECONDARY, "backend") && !Contains(SECONDARY, "frontend")
  {
    assert SECONDARY[7..14] == "backend";
    ContainsAt(SECONDARY, "backend", 7);
    MissingCharNotContained(SECONDARY, "frontend", 'f');
  }

  /** The frontend's package names "frontend" and not "backend". */
  lemma FrontendWords()
    ensures Contains(FRONTEND, "frontend") && !Contains(FRONTEND, "backend")
  {
    assert FRONTEND[7..15] == "frontend";
    ContainsAt(FRONTEND, "frontend", 7);
    MissingCharNotContained(FRONTEND, "backend", 'b');
  }

  /** What `captureState` records. */
  datatype Captured = Captured(roles: map<string, bool>, noBack: bool, noFront: bool, xmltv: bool, ssh: bool,
                               hdhr: bool, hdhrGui: bool)

  /** `captureState` on the installed packages and the programs on the PATH: the
      role loop, the corner case that hides the secondary backend behind an installed
      primary one, then the four other packages. */
  function CaptureSpec(installed: set<string>, onPath: set<string>): Captured {
    var s := RoleScan(ROLES, installed);
    RolesScanned(installed);
    var roles := if s.roles[PRIMARY] then s.roles[SECONDARY := false] else s.roles;
    Captured(roles, s.noBack, s.noFront, TV_SORT in onPath, SSH in installed, HDHR_PROGRAM in onPath,
             HDHR_GUI_PROGRAM in onPath)
  }

  /** The role loop records every role. */
  lemma RolesScanned(installed: set<string>)
    ensures RolesKnown(RoleScan(ROLES, installed).roles)
  {
    RoleScanStates(ROLES, installed);
    assert ROLES[0] == PRIMARY && ROLES[1] == SECONDARY && ROLES[2] == FRONTEND;
  }

  /** Every role has a recorded state. */
  predicate RolesKnown(roles: map<string, bool>) {
    PRIMARY in roles && SECONDARY in roles && FRONTEND in roles
  }

  /** The role loop over two backends and a frontend. */
  lemma {:induction false} ScanThree(a: string, b: string, f: string, installed: set<string>)
    requires Contains(a, "backend") && Contains(b, "backend") && Contains(f, "frontend") && !Contains(f, "backend")
    ensures var x, y, z := a in installed, b in installed, f in installed;
            RoleScan([a, b, f], installed) == Scan(map[a := x, b := y, f := z], !x && !y, !z)
  {
    var x, y, z := a in installed, b in installed, f in installed;
    assert [a][..0] == [];
    assert RoleScan([a], installed) == Scan(map[a := x], !x, true);
    assert [a, b][..1] == [a];
    assert RoleScan([a, b], installed) == Scan(map[a := x, b := y], !x && !y, true);
    assert [a, b, f][..2] == [a, b];
  }

  /** The role loop over the three roles. */
  lemma ScanRoles(installed: set<string>)
    ensures var p, q, f := PRIMARY in installed, SECONDARY in installed, FRONTEND in installed;
            RoleScan(ROLES, installed) == Scan(map[PRIMARY := p, SECONDARY := q, FRONTEND := f], !p && !q, !f)
  {
    PrimaryWords();
    SecondaryWords();
    FrontendWords();
    ScanThree(PRIMARY, SECONDARY, FRONTEND, installed);
  }

  /** The captured state in terms of the installed packages: the secondary backend
      counts only without the primary one, no_back holds when neither backend is
      installed and no_front when the frontend is not. */
  lemma CaptureRoles(installed: set<string>, onPath: set<string>)
    ensures var c := CaptureSpec(installed, onPath);
            RolesKnown(c.roles)
            && c.roles[PRIMARY] == (PRIMARY in installed)
            && c.roles[SECONDARY] == (SECONDARY in installed && PRIMARY !in installed)
            && c.roles[FRONTEND] == (FRONTEND in installed)
            && (c.noBack <==> PRIMARY !in installed && SECONDARY !in installed)
            && (c.noFront <==> FRONTEND !in installed)
  {
    ScanRoles(installed);
    assert |PRIMARY| != |SECONDARY| && |PRIMARY| != |FRONTEND| && |SECONDARY| != |FRONTEND|;
  }

  // ---------------------------------------------------------------------------
  // compareState

  /** The widgets `compareState` reads: the primary and secondary backend and the
      frontend radio buttons, then the xmltv, ssh and HDHomeRun check boxes. */
  datatype Widgets = Widgets(primary: bool, secondary: bool, frontend: bool, xmltv: bool, ssh: bool, hdhr: bool,
                             hdhrGui: bool)

  /** Packages to install and to remove, in the order they are marked. */
  datatype Marks = Marks(install: seq<string>, remove: seq<string>)

  function Plus(a: Marks, b: Marks): Marks {
    Marks(a.install + b.install, a.remove + b.remove)
  }

  /** The backend corner case: a primary change installs the primary backend or
      removes it (with the secondary one too when that is not selected either); only
      without a primary change is a secondary change acted on. */
  function BackendMarks(c: Captured, w: Widgets): Marks
    requires RolesKnown(c.roles)
  {
    if w.primary != c.roles[PRIMARY] then
      if w.primary then Marks([PRIMARY], [])
      else if !w.secondary then Marks([], [PRIMARY, SECONDARY])
      else Marks([], [PRIMARY])
    else if w.secondary != c.roles[SECONDARY] then
      if w.secondary then Marks([SECONDARY], []) else Marks([], [SECONDARY])
    else Marks([], [])
  }

  /** A check box or radio button that differs from what was found installs its
      package when set and removes it (and the extra packages) when cleared. */
  function Switch(want: bool, have: bool, pkg: string, extra: seq<string>): Marks {
    if want == have then Marks([], [])
    else if want then Marks([pkg], [])
    else Marks([], [pkg] + extra)
  }

  /** The marks of `compareState`: the backends, then the frontend, xmltv, ssh and
      the two HDHomeRun tools, in this order. */
  function RoleMarks(c: Captured, w: Widgets): Marks
    requires RolesKnown(c.roles)
  {
    Plus(Plus(Plus(Plus(Plus(BackendMarks(c, w), Switch(w.frontend, c.roles[FRONTEND], FRONTEND, [])),
                        Switch(w.xmltv, c.xmltv, XMLTV, [XMLTV_UTIL])),
                   Switch(w.ssh, c.ssh, SSH, [])),
              Switch(w.hdhr, c.hdhr, HDHR, [])),
         Switch(w.hdhrGui, c.hdhrGui, HDHR_GUI, []))
  }

  /** Every widget shows what was captured. */
  predicate Unchanged(c: Captured, w: Widgets)
    requires RolesKnown(c.roles)
  {
    w.primary == c.roles[PRIMARY] && w.secondary == c.roles[SECONDARY] && w.frontend == c.roles[FRONTEND]
    && w.xmltv == c.xmltv && w.ssh == c.ssh && w.hdhr == c.hdhr && w.hdhrGui == c.hdhrGui
  }

  /** Nothing is marked exactly when every widget shows what was captured. */
  lemma NothingChangedNoMarks(c: Captured, w: Widgets)
    requires RolesKnown(c.roles)
    ensures RoleMarks(c, w) == Marks([], []) <==> Unchanged(c, w)
  {
    var b := BackendMarks(c, w);
    assert b == Marks([], []) <==> w.primary == c.roles[PRIMARY] && w.secondary == c.roles[SECONDARY];
  }

  /** Clearing the primary backend while the secondary one is cleared too removes both. */
  lemma PrimaryOffRemovesBoth(c: Captured, w: Widgets)
    requires RolesKnown(c.roles) && c.roles[PRIMARY] && !w.primary && !w.secondary
    ensures PRIMARY in RoleMarks(c, w).remove && SECONDARY in RoleMarks(c, w).remove
  {
    assert BackendMarks(c, w).remove == [PRIMARY, SECONDARY];
  }

  /** When the primary backend changed, what was captured for the secondary one makes
      no difference and the secondary one is not installed. */
  lemma SecondaryIgnored(c: Captured, w: Widgets, b: bool)
    requires RolesKnown(c.roles) && w.primary != c.roles[PRIMARY]
    ensures RoleMarks(c, w) == RoleMarks(c.(roles := c.roles[SECONDARY := b]), w)
    ensures SECONDARY !in BackendMarks(c, w).install
  {
    var c' := c.(roles := c.roles[SECONDARY := b]);
    assert |PRIMARY| != |SECONDARY| && |FRONTEND| != |SECONDARY|;
    assert BackendMarks(c', w) == BackendMarks(c, w);
  }

  /** Clearing the xmltv box removes xmltv and xmltv-util; setting it installs xmltv only. */
  lemma XmltvMarks(c: Captured, w: Widgets)
    requires RolesKnown(c.roles)
    ensures c.xmltv && !w.xmltv ==> XMLTV in RoleMarks(c, w).remove && XMLTV_UTIL in RoleMarks(c, w).remove
    ensures !c.xmltv && w.xmltv ==> XMLTV in RoleMarks(c, w).install && XMLTV_UTIL !in RoleMarks(c, w).install
  {
    MarksDisjoint(c, w);
    assert |XMLTV_UTIL| != |XMLTV|;
  }

  /** No package occurs twice. */
  predicate NoDuplicates(s: seq<string>) {
    forall i, j :: 0 <= i < j < |s| ==> s[i] != s[j]
  }

  /** Marks that name only packages of g, none twice and none both to install and
      to remove. */
  predicate Clean(m: Marks, g: set<string>) {
    (forall p :: p in m.install ==> p in g) && (forall p :: p in m.remove ==> p in g)
    && (forall p :: p in m.install ==> p !in m.remove)
    && NoDuplicates(m.install) && NoDuplicates(m.remove)
  }

  /** Marks over disjoint package groups combine into clean marks. */
  lemma PlusClean(a: Marks, ga: set<string>, b: Marks, gb: set<string>)
    requires Clean(a, ga) && Clean(b, gb) && ga !! gb
    ensures Clean(Plus(a, b), ga + gb)
  {
    NoDuplicatesAppend(a.install, b.install);
    NoDuplicatesAppend(a.remove, b.remove);
  }

  /** A check box marks only its own packages. */
  lemma SwitchClean(want: bool, have: bool, pkg: string, extra: seq<string>, g: set<string>)
    requires |extra| <= 1 && pkg !in extra && pkg in g && forall p :: p in extra ==> p in g
    ensures Clean(Switch(want, have, pkg, extra), g)
  {
  }

  /** The backend radio buttons mark only the two backends. */
  lemma BackendClean(c: Captured, w: Widgets)
    requires RolesKnown(c.roles)
    ensures Clean(BackendMarks(c, w), {PRIMARY, SECONDARY})
  {
    assert |PRIMARY| != |SECONDARY|;
  }

  /** The package groups of `compareState` are pairwise disjoint. */
  lemma GroupsDisjoint()
    ensures {PRIMARY, SECONDARY} !! {FRONTEND}
    ensures {PRIMARY, SECONDARY} + {FRONTEND} !! {XMLTV, XMLTV_UTIL}
    ensures {PRIMARY, SECONDARY} + {FRONTEND} + {XMLTV, XMLTV_UTIL} !! {SSH}
    ensures {PRIMARY, SECONDARY} + {FRONTEND} + {XMLTV, XMLTV_UTIL} + {SSH} !! {HDHR}
    ensures {PRIMARY, SECONDARY} + {FRONTEND} + {XMLTV, XMLTV_UTIL} + {SSH} + {HDHR} !! {HDHR_GUI}
  {
    assert |PRIMARY| == 21 && |SECONDARY| == 14 && |FRONTEND| == 15 && |XMLTV| == 5;
    assert |XMLTV_UTIL| == 10 && |SSH| == 14 && |HDHR| == 16 && |HDHR_GUI| == 20;
    assert SECONDARY[0] != SSH[0];
  }

  /** No package is both installed and removed by one `compareState`, and none is
      marked twice. */
  lemma MarksDisjoint(c: Captured, w: Widgets)
    requires RolesKnown(c.roles)
    ensures var m := RoleMarks(c, w);
            (forall p :: p in m.install ==> p !in m.remove) && NoDuplicates(m.install) && NoDuplicates(m.remove)
  {
    GroupsDisjoint();
    assert |XMLTV_UTIL| != |XMLTV|;
    var g0 := {PRIMARY, SECONDARY};
    var m0 := BackendMarks(c, w);
    BackendClean(c, w);
    var s1 := Switch(w.frontend, c.roles[FRONTEND], FRONTEND, []);
    SwitchClean(w.frontend, c.roles[FRONTEND], FRONTEND, [], {FRONTEND});
    PlusClean(m0, g0, s1, {FRONTEND});
    var g1, m1 := g0 + {FRONTEND}, Plus(m0, s1);
    var s2 := Switch(w.xmltv, c.xmltv, XMLTV, [XMLTV_UTIL]);
    SwitchClean(w.xmltv, c.xmltv, XMLTV, [XMLTV_UTIL], {XMLTV, XMLTV_UTIL});
    PlusClean(m1, g1, s2, {XMLTV, XMLTV_UTIL});
    var g2, m2 := g1 + {XMLTV, XMLTV_UTIL}, Plus(m1, s2);
    var s3 := Switch(w.ssh, c.ssh, SSH, []);
    SwitchClean(w.ssh, c.ssh, SSH, [], {SSH});
    PlusClean(m2, g2, s3, {SSH});
    var g3, m3 := g2 + {SSH}, Plus(m2, s3);
    var s4 := Switch(w.hdhr, c.hdhr, HDHR, []);
    SwitchClean(w.hdhr, c.hdhr, HDHR, [], {HDHR});
    PlusClean(m3, g3, s4, {HDHR});
    var g4, m4 := g3 + {HDHR}, Plus(m3, s4);
    var s5 := Switch(w.hdhrGui, c.hdhrGui, HDHR_GUI, []);
    SwitchClean(w.hdhrGui, c.hdhrGui, HDHR_GUI, [], {HDHR_GUI});
    PlusClean(m4, g4, s5, {HDHR_GUI});
  }

  lemma NoDuplicatesAppend(a: seq<string>, b: seq<string>)
    requires NoDuplicates(a) && NoDuplicates(b)
    requires forall p :: p in b ==> p !in a
    ensures NoDuplicates(a + b)
  {
    forall i, j | 0 <= i < j < |a + b| ensures (a + b)[i] != (a + b)[j] {
      if i < |a| && j >= |a| {
        assert (a + b)[j] == b[j - |a|];
        assert (a + b)[i] in a;
      }
    }
  }

  /** The parent's changes are exactly the packages of m: no reconfiguration and no
      request. */
  predicate Marked(p: Plugin.MCPPlugin, m: Marks)
    reads p
  {
    p.RawChanges() == Plugin.NoChanges.(install := m.install, remove := m.remove)
  }

  /** `compareState` before `captureState`: `dictionary_state` was never set. */
  datatype RolesError = AttributeError(name: string)

  /** `SystemRolesPlugin`: the parent's change set and what `captureState` found
      (None: never captured). */
  class SystemRolesPlugin {
    const plugin: Plugin.MCPPlugin
    var captured: Option<Captured>

    predicate Valid()
      reads this
    {
      captured.Some? ==> RolesKnown(captured.value.roles)
    }

    /** `__init__`: the parent with the plugin's name, icon and page. */
    constructor ()
      ensures fresh(plugin) && plugin.Valid() && plugin.RawChanges() == Plugin.NoChanges
      ensures plugin.information == map["name" := "System Roles", "icon" := "gnome-monitor", "ui" := "tab_system_roles"]
      ensures captured.None? && Valid()
    {
      plugin := new Plugin.MCPPlugin(map["name" := "System Roles", "icon" := "gnome-monitor",
                                         "ui" := "tab_system_roles"]);
      captured := None;
    }

    /** `captureState`: the loop over the role packages, the corner case, then the
        other packages. */
    method CaptureState(installed: set<string>, onPath: set<string>)
      modifies this
      ensures captured == Some(CaptureSpec(installed, onPath)) && Valid()
    {
      var scan := ScanRoleItems(ROLES, installed);
      RolesScanned(installed);
      var state := scan.roles;
      if state[PRIMARY] {
        state := state[SECONDARY := false];
      }
      captured := Some(Captured(state, scan.noBack, scan.noFront, TV_SORT in onPath, SSH in installed,
                                HDHR_PROGRAM in onPath, HDHR_GUI_PROGRAM in onPath));
    }

    /** The role loop of `captureState` over the items of the role dictionary. */
    static method ScanRoleItems(items: seq<string>, installed: set<string>) returns (scan: Scan)
      ensures scan == RoleScan(items, installed)
    {
      scan := Scan(map[], true, true);
      for i := 0 to |items|
        invariant scan == RoleScan(items[..i], installed)
      {
        assert items[..i + 1][..i] == items[..i];
        scan := ScanItem(scan, items[i], installed);
      }
      assert items[..|items|] == items;
    }

    /** One pass of the role loop of `captureState`. */
    static method ScanItem(scan: Scan, item: string, installed: set<string>) returns (next: Scan)
      ensures next == ScanStep(scan, item, installed)
    {
      var state := item in installed;
      if Contains(item, "backend") && state {
        next := Scan(scan.roles[item := state], false, scan.noFront);
      } else if Contains(item, "frontend") && state {
        next := Scan(scan.roles[item := state], scan.noBack, false);
      } else {
        next := Scan(scan.roles[item := state], scan.noBack, scan.noFront);
      }
    }

    /** The backend lines of `compareState`, on a parent with nothing marked. */
    method MarkBackend(c: Captured, w: Widgets)
      requires RolesKnown(c.roles) && Marked(plugin, Marks([], []))
      modifies plugin
      ensures Marked(plugin, BackendMarks(c, w)) && plugin.incomplete == old(plugin.incomplete)
    {
      if w.primary != c.roles[PRIMARY] {
        if w.primary {
          plugin.MarkInstall(PRIMARY, true);
        } else {
          plugin.MarkRemove(PRIMARY, true);
          if !w.secondary {
            plugin.MarkRemove(SECONDARY, true);
          }
        }
      } else if w.secondary != c.roles[SECONDARY] {
        if w.secondary {
          plugin.MarkInstall(SECONDARY, true);
        } else {
          plugin.MarkRemove(SECONDARY, true);
        }
      }
    }

    /** The lines of `compareState` for one check box: mark pkg (and extra) after
        what is already marked, when the box differs from what was found. */
    method MarkSwitch(want: bool, have: bool, pkg: string, extra: seq<string>, ghost before: Marks)
      requires Marked(plugin, before)
      modifies plugin
      ensures Marked(plugin, Plus(before, Switch(want, have, pkg, extra)))
      ensures plugin.incomplete == old(plugin.incomplete)
    {
      if want != have {
        if want {
          plugin.MarkInstall(pkg, true);
        } else {
          plugin.MarkRemove(pkg, true);
          for k := 0 to |extra|
            invariant Marked(plugin, Marks(before.install, before.remove + [pkg] + extra[..k]))
            invariant plugin.incomplete == old(plugin.incomplete)
          {
            assert extra[..k + 1] == extra[..k] + [extra[k]];
            plugin.MarkRemove(extra[k], true);
          }
          assert extra[..|extra|] == extra;
        }
      }
    }

    /** The marking lines of `compareState`, on a parent with nothing marked. */
    method MarkChoices(c: Captured, w: Widgets)
      requires RolesKnown(c.roles) && Marked(plugin, Marks([], []))
      modifies plugin
      ensures Marked(plugin, RoleMarks(c, w)) && plugin.incomplete == old(plugin.incomplete)
    {
      MarkBackend(c, w);
      ghost var m0 := BackendMarks(c, w);
      MarkSwitch(w.frontend, c.roles[FRONTEND], FRONTEND, [], m0);
      ghost var m1 := Plus(m0, Switch(w.frontend, c.roles[FRONTEND], FRONTEND, []));
      MarkSwitch(w.xmltv, c.xmltv, XMLTV, [XMLTV_UTIL], m1);
      ghost var m2 := Plus(m1, Switch(w.xmltv, c.xmltv, XMLTV, [XMLTV_UTIL]));
      MarkSwitch(w.ssh, c.ssh, SSH, [], m2);
      ghost var m3 := Plus(m2, Switch(w.ssh, c.ssh, SSH, []));
      MarkSwitch(w.hdhr, c.hdhr, HDHR, [], m3);
      ghost var m4 := Plus(m3, Switch(w.hdhr, c.hdhr, HDHR, []));
      MarkSwitch(w.hdhrGui, c.hdhrGui, HDHR_GUI, [], m4);
    }

    /** `compareState`: clears the parent's marks, then marks what the widgets change;
        before any capture the lookup of `dictionary_state` fails. */
    method CompareState(w: Widgets) returns (err: Option<RolesError>)
      requires Valid()
      modifies plugin
      ensures captured.None? ==> err == Some(AttributeError("dictionary_state")) && plugin.RawChanges() == Plugin.NoChanges
      ensures captured.Some? ==> err.None? && Marked(plugin, RoleMarks(captured.value, w))
      ensures plugin.incomplete == old(plugin.incomplete)
    {
      plugin.ClearParentState();
      if captured.None? {
        return Some(AttributeError("dictionary_state"));
      }
      MarkChoices(captured.value, w);
      return None;
    }
  }
}
