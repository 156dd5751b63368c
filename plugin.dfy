/** The change-set bookkeeping every control-panel plugin inherits (plugin.py,
    `MCPPlugin`), and the filter that turns directory entries into plugin names
    (`MCPPluginLoader.reload_plugins`).  Python lists are sequences; Python dicts are
    association lists in insertion order with distinct keys. */
module Plugin {
  import opened Wrappers
  import opened Strings
  import opened TextLines

  /** The values plugins store against a reconfiguration key: a string, a bool, a
      number, a list of strings, or None. */
  datatype Value = Text(text: string) | Flag(flag: bool) | Number(number: int) | Texts(texts: seq<string>) | NoValue

  /** A dict: (key, value) pairs in insertion order. */
  type Dict = seq<(string, Value)>

  datatype PluginError = NotImplemented(what: string) | KeyError(key: string)

  function Keys(d: Dict): (ks: seq<string>)
    ensures |ks| == |d| && forall i :: 0 <= i < |d| ==> ks[i] == d[i].0
  {
    if d == [] then [] else [d[0].0] + Keys(d[1..])
  }

  /** No key occurs twice, as in every Python dict. */
  predicate UniqueKeys(d: Dict) {
    forall i, j :: 0 <= i < j < |d| ==> d[i].0 != d[j].0
  }

  /** `d.get(k)` */
  function Lookup(d: Dict, k: string): Option<Value>
  {
    if d == [] then None else if d[0].0 == k then Some(d[0].1) else Lookup(d[1..], k)
  }

  lemma {:induction false} LookupKeys(d: Dict, k: string)
    ensures Lookup(d, k).Some? <==> k in Keys(d)
  {
    if d != [] {
      LookupKeys(d[1..], k);
      assert Keys(d) == [d[0].0] + Keys(d[1..]);
    }
  }

  /** `d[k] = v`: an existing key keeps its place, a new key goes at the end. */
  function DictSet(d: Dict, k: string, v: Value): (r: Dict)
    ensures UniqueKeys(d) ==> UniqueKeys(r)
    ensures Lookup(r, k) == Some(v)
    ensures forall k' :: k' != k ==> Lookup(r, k') == Lookup(d, k')
    ensures Keys(r) == if k in Keys(d) then Keys(d) else Keys(d) + [k]
  {
    if d == [] then [(k, v)]
    else if d[0].0 == k then [(k, v)] + d[1..]
    else
      var rest := DictSet(d[1..], k, v);
      assert Keys(d) == [d[0].0] + Keys(d[1..]);
      assert UniqueKeys(d) ==> forall j :: 0 <= j < |d[1..]| ==> d[1..][j].0 != d[0].0;
      assert UniqueKeys(d) ==> k != d[0].0 && d[0].0 !in Keys(d[1..]);
      [d[0]] + rest
  }

  /** `d.pop(k)`: KeyError when the key is absent, otherwise the key and its value go
      and the rest keep their order. */
  function DictPop(d: Dict, k: string): (r: Result<Dict, PluginError>)
    ensures r.Failure? <==> k !in Keys(d)
    ensures r.Failure? ==> r.error == KeyError(k)
    ensures r.Success? ==> |r.value| == |d| - 1
    ensures r.Success? ==> forall k' :: k' != k ==> Lookup(r.value, k') == Lookup(d, k')
    ensures r.Success? && UniqueKeys(d) ==> UniqueKeys(r.value) && Lookup(r.value, k) == None
  {
    assert d != [] ==> Keys(d) == [d[0].0] + Keys(d[1..]);
    if d == [] then Failure(KeyError(k))
    else if d[0].0 == k then
      assert UniqueKeys(d) ==> k !in Keys(d[1..]);
      LookupKeys(d[1..], k);
      Success(d[1..])
    else
      match DictPop(d[1..], k)
      case Failure(e) => Failure(e)
      case Success(rest) =>
        assert forall j :: 0 <= j < |rest| ==> Lookup(rest, rest[j].0).Some? by {
          forall j | 0 <= j < |rest| ensures Lookup(rest, rest[j].0).Some? {
            LookupKeys(rest, rest[j].0);
          }
        }
        assert UniqueKeys(d) ==> Lookup(d[1..], d[0].0) == None by {
          if UniqueKeys(d) { LookupKeys(d[1..], d[0].0); }
        }
        Success([d[0]] + rest)
  }

  /** Position of the first occurrence. */
  function IndexOf(s: seq<string>, x: string): (i: nat)
    requires x in s
    ensures i < |s| && s[i] == x && x !in s[..i]
  {
    if s[0] == x then 0
    else
      var j := IndexOf(s[1..], x);
      assert s[..j + 1] == [s[0]] + s[1..][..j];
      j + 1
  }

  /** `list.remove(x)` guarded by membership: the first occurrence goes, an absent
      item leaves the list as it is. */
  function RemoveFirst(s: seq<string>, x: string): seq<string>
  {
    if x in s then s[..IndexOf(s, x)] + s[IndexOf(s, x) + 1..] else s
  }

  /** Removing takes exactly one copy of a present item out of the list and keeps the
      others' order; a second removal takes the next copy. */
  lemma RemoveFirstCounts(s: seq<string>, x: string)
    ensures x in s ==> multiset(RemoveFirst(s, x)) == multiset(s) - multiset{x}
    ensures x in s ==> |RemoveFirst(s, x)| == |s| - 1
    ensures x !in s ==> RemoveFirst(s, x) == s
  {
    if x in s {
      var i := IndexOf(s, x);
      assert s == s[..i] + [x] + s[i + 1..];
    }
  }

  /** Appending and then removing an item that was not there gives the list back. */
  lemma AppendThenRemove(s: seq<string>, x: string)
    requires x !in s
    ensures RemoveFirst(s + [x], x) == s
  {
    IndexOfFirst(s + [x], x, |s|);
    assert (s + [x])[..|s|] == s;
  }

  /** The first position holding x is the one before which x does not occur. */
  lemma IndexOfFirst(s: seq<string>, x: string, i: nat)
    requires i < |s| && s[i] == x && x !in s[..i]
    ensures IndexOf(s, x) == i
  {
    var j := IndexOf(s, x);
    assert forall k :: 0 <= k < i ==> s[..i][k] == s[k];
    assert forall k :: 0 <= k < j ==> s[..j][k] == s[k];
  }

  /** `_mark_array` on a list: append when marking, drop the first equal element when
      unmarking. */
  method MarkList(list: seq<string>, item: string, action: bool) returns (r: seq<string>)
    ensures r == if action then list + [item] else RemoveFirst(list, item)
  {
    if action {
      return list + [item];
    }
    var i := 0;
    while i < |list|
      invariant 0 <= i <= |list| && item !in list[..i]
    {
      if list[i] == item {
        IndexOfFirst(list, item, i);
        return list[..i] + list[i + 1..];
      }
      assert list[..i + 1] == list[..i] + [list[i]];
      i := i + 1;
    }
    assert list[..i] == list;
    return list;
  }

  /** `_mark_array` on a dict: store the value when marking, pop the key when
      unmarking. */
  function MarkDict(d: Dict, item: string, value: Value, action: bool): (r: Result<Dict, PluginError>)
    ensures r.Failure? <==> !action && item !in Keys(d)
    ensures action ==> r == Success(DictSet(d, item, value))
    ensures !action && r.Success? ==>
              |r.value| == |d| - 1 && forall k' :: k' != item ==> Lookup(r.value, k') == Lookup(d, k')
  {
    if action then Success(DictSet(d, item, value)) else DictPop(d, item)
  }

  /** What `getRawChanges` returns: the install and remove lists, the two
      reconfiguration dicts and the two request flags. */
  datatype Changes = Changes(install: seq<string>, remove: seq<string>, reconfigureRoot: Dict,
                             reconfigureUser: Dict, requestUpdate: bool, requestUnauth: bool)

  const NoChanges := Changes([], [], [], [], false, false)

  /** What `getInformation` can return. */
  datatype Info = AllInformation(information: map<string, string>) | ModuleName(name: string) | Item(value: string)

  /** A plugin: its information dict and the changes it has marked. */
  class MCPPlugin {
    const information: map<string, string>
    var incomplete: bool
    var toInstall: seq<string>
    var toRemove: seq<string>
    var toReconfigureRoot: Dict
    var toReconfigureUser: Dict
    var requestUpdate: bool
    var requestUnauth: bool

    predicate Valid()
      reads this
    {
      UniqueKeys(toReconfigureRoot) && UniqueKeys(toReconfigureUser)
    }

    /** `getRawChanges` */
    function RawChanges(): Changes
      reads this
    {
      Changes(toInstall, toRemove, toReconfigureRoot, toReconfigureUser, requestUpdate, requestUnauth)
    }

    /** `__init__` once the information dict has passed its key check. */
    constructor (information: map<string, string>)
      requires "name" in information && "icon" in information && "ui" in information
      ensures this.information == information && !incomplete
      ensures RawChanges() == NoChanges && Valid()
    {
      this.information := information;
      incomplete := false;
      new;
      ClearParentState();
    }

    /** `clearParentState`: no marks, no requests. */
    method ClearParentState()
      modifies this
      ensures RawChanges() == NoChanges && Valid()
      ensures incomplete == old(incomplete)
    {
      toInstall := [];
      toRemove := [];
      toReconfigureRoot := [];
      toReconfigureUser := [];
      requestUpdate := false;
      requestUnauth := false;
    }

    /** `getInformation(key)`: the whole dict, the module name for 'module', or one
        entry (KeyError when absent). */
    function GetInformation(key: Option<string>, moduleName: string): (r: Result<Info, PluginError>)
      reads this
      ensures r.Failure? <==> key.Some? && key.value != "module" && key.value !in information
      ensures r.Failure? ==> r.error == KeyError(key.value)
      ensures key.None? ==> r == Success(AllInformation(information))
      ensures key == Some("module") ==> r == Success(ModuleName(moduleName))
    {
      if key.None? then Success(AllInformation(information))
      else if key.value == "module" then Success(ModuleName(moduleName))
      else if key.value in information then Success(Item(information[key.value]))
      else Failure(KeyError(key.value))
    }

    /** `_markInstall(item, install)` */
    method MarkInstall(item: string, install: bool)
      modifies this
      ensures toInstall == if install then old(toInstall) + [item] else RemoveFirst(old(toInstall), item)
      ensures toRemove == old(toRemove) && toReconfigureRoot == old(toReconfigureRoot)
      ensures toReconfigureUser == old(toReconfigureUser)
      ensures requestUpdate == old(requestUpdate) && requestUnauth == old(requestUnauth)
      ensures incomplete == old(incomplete)
    {
      toInstall := MarkList(toInstall, item, install);
    }

    /** `_markRemove(item, remove)` */
    method MarkRemove(item: string, remove: bool)
      modifies this
      ensures toRemove == if remove then old(toRemove) + [item] else RemoveFirst(old(toRemove), item)
      ensures toInstall == old(toInstall) && toReconfigureRoot == old(toReconfigureRoot)
      ensures toReconfigureUser == old(toReconfigureUser)
      ensures requestUpdate == old(requestUpdate) && requestUnauth == old(requestUnauth)
      ensures incomplete == old(incomplete)
    {
      toRemove := MarkList(toRemove, item, remove);
    }

    /** `_markReconfigureRoot(item, value, reconfigure)`; unmarking a key that is not
        there raises KeyError and changes nothing. */
    method MarkReconfigureRoot(item: string, value: Value, reconfigure: bool) returns (err: Option<PluginError>)
      requires Valid()
      modifies this
      ensures Valid()
      ensures err.Some? <==> !reconfigure && item !in Keys(old(toReconfigureRoot))
      ensures err.Some? ==> err.value == KeyError(item) && toReconfigureRoot == old(toReconfigureRoot)
      ensures err.None? ==> toReconfigureRoot == MarkDict(old(toReconfigureRoot), item, value, reconfigure).value
      ensures toInstall == old(toInstall) && toRemove == old(toRemove)
      ensures toReconfigureUser == old(toReconfigureUser)
      ensures requestUpdate == old(requestUpdate) && requestUnauth == old(requestUnauth)
      ensures incomplete == old(incomplete)
    {
      var r := MarkDict(toReconfigureRoot, item, value, reconfigure);
      if r.Failure? {
        return Some(r.error);
      }
      toReconfigureRoot := r.value;
      return None;
    }

    /** `_markReconfigureUser(item, value, reconfigure)`, as for the root dict. */
    method MarkReconfigureUser(item: string, value: Value, reconfigure: bool) returns (err: Option<PluginError>)
      requires Valid()
      modifies this
      ensures Valid()
      ensures err.Some? <==> !reconfigure && item !in Keys(old(toReconfigureUser))
      ensures err.Some? ==> err.value == KeyError(item) && toReconfigureUser == old(toReconfigureUser)
      ensures err.None? ==> toReconfigureUser == MarkDict(old(toReconfigureUser), item, value, reconfigure).value
      ensures toInstall == old(toInstall) && toRemove == old(toRemove)
      ensures toReconfigureRoot == old(toReconfigureRoot)
      ensures requestUpdate == old(requestUpdate) && requestUnauth == old(requestUnauth)
      ensures incomplete == old(incomplete)
    {
      var r := MarkDict(toReconfigureUser, item, value, reconfigure);
      if r.Failure? {
        return Some(r.error);
      }
      toReconfigureUser := r.value;
      return None;
    }

    /** `_markUpdatePackageList(update)` */
    method MarkUpdatePackageList(update: bool)
      modifies this
      ensures RawChanges() == old(RawChanges()).(requestUpdate := update)
      ensures incomplete == old(incomplete)
    {
      requestUpdate := update;
    }

    /** `_markUnauthenticatedPackages(unauth)` */
    method MarkUnauthenticatedPackages(unauth: bool)
      modifies this
      ensures RawChanges() == old(RawChanges()).(requestUnauth := unauth)
      ensures incomplete == old(incomplete)
    {
      requestUnauth := unauth;
    }

    /** `summarizeChanges`: the change set as text, or None where the source returns
        False. */
    method SummarizeChanges() returns (summary: Option<string>)
      ensures summary == Summary(RawChanges())
    {
      var text := SummarizeSection(toInstall, "Install");
      var t := SummarizeSection(toRemove, "Remove");
      text := text + t;
      t := SummarizeSection(Keys(toReconfigureRoot), "Reconfigure (as root)");
      text := text + t;
      t := SummarizeSection(Keys(toReconfigureUser), "Reconfigure (as user)");
      text := text + t;
      var c := RawChanges();
      SummaryJoin(c);
      ghost var sections := text;
      if requestUpdate {
        text := text + UPDATE_LINE;
      }
      assert text == sections + (if c.requestUpdate then UPDATE_LINE else "");
      if requestUnauth {
        text := text + UNAUTH_WARNING;
      }
      assert text == sections + (if c.requestUpdate then UPDATE_LINE else "")
                     + (if c.requestUnauth then UNAUTH_WARNING else "");
      if text == "" {
        return None;
      }
      return Some(text);
    }
  }

  /** The only way `__init__` completes: the information dict has 'name', 'icon' and
      'ui'; otherwise NotImplementedError. */
  method NewPlugin(information: map<string, string>) returns (r: Result<MCPPlugin, PluginError>)
    ensures r.Failure? <==> !("name" in information && "icon" in information && "ui" in information)
    ensures r.Failure? ==> r.error == NotImplemented("__init__: information keys")
    ensures r.Success? ==> fresh(r.value) && r.value.information == information && r.value.Valid()
                           && r.value.RawChanges() == NoChanges && !r.value.incomplete
  {
    if !("name" in information && "icon" in information && "ui" in information) {
      return Failure(NotImplemented("__init__: information keys"));
    }
    var p := new MCPPlugin(information);
    return Success(p);
  }

  const UPDATE_LINE := "Request Package List Update" + "\n"
  const WARNING_RULE := "*** WARNING ***" + "\n"
  const UNAUTH_NOTICE := UNAUTH_TEXT + "\n"
  const UNAUTH_TEXT := " Unauthenticated Packages" + " Will be Installed" + " during this transaction."
  const WARNING_RULE_INDENTED := " *** WARNING ***" + "\n"
  /** The unauthenticated-packages warning, three lines written in one piece. */
  const UNAUTH_WARNING := WARNING_RULE + UNAUTH_NOTICE + WARNING_RULE_INDENTED

  /** One section of the summary, line by line: a header and a tab-indented line per
      item, or nothing for an empty collection. */
  function SectionLines(items: seq<string>, action: string): seq<string>
  {
    if items == [] then []
    else [action + " the following items:\n"] + seq(|items|, i requires 0 <= i < |items| => "\t" + items[i] + "\n")
  }

  /** The four sections in order: install, remove, reconfigure as root, as user. */
  function SectionsLines(c: Changes): seq<string> {
    SectionLines(c.install, "Install") + SectionLines(c.remove, "Remove")
    + SectionLines(Keys(c.reconfigureRoot), "Reconfigure (as root)")
    + SectionLines(Keys(c.reconfigureUser), "Reconfigure (as user)")
  }

  function UpdateLines(c: Changes): seq<string> {
    if c.requestUpdate then [UPDATE_LINE] else []
  }

  function UnauthLines(c: Changes): seq<string> {
    if c.requestUnauth then
      [WARNING_RULE, UNAUTH_NOTICE, WARNING_RULE_INDENTED]
    else []
  }

  /** The summary as a list of lines. */
  function SummaryLines(c: Changes): seq<string> {
    SectionsLines(c) + UpdateLines(c) + UnauthLines(c)
  }

  /** The summary text, None standing for the source's False. */
  function Summary(c: Changes): Option<string> {
    var text := Join(SummaryLines(c));
    if text == "" then None else Some(text)
  }

  /** The summary text, piece by piece as `summarizeChanges` appends it. */
  lemma SummaryJoin(c: Changes)
    ensures Join(SummaryLines(c))
            == Join(SectionLines(c.install, "Install")) + Join(SectionLines(c.remove, "Remove"))
               + Join(SectionLines(Keys(c.reconfigureRoot), "Reconfigure (as root)"))
               + Join(SectionLines(Keys(c.reconfigureUser), "Reconfigure (as user)"))
               + (if c.requestUpdate then UPDATE_LINE else "")
               + (if c.requestUnauth then UNAUTH_WARNING else "")
  {
    var a := SectionLines(c.install, "Install");
    var b := SectionLines(c.remove, "Remove");
    var r := SectionLines(Keys(c.reconfigureRoot), "Reconfigure (as root)");
    var u := SectionLines(Keys(c.reconfigureUser), "Reconfigure (as user)");
    JoinConcat(a, b);
    JoinConcat(a + b, r);
    JoinConcat(a + b + r, u);
    JoinConcat(SectionsLines(c), UpdateLines(c));
    JoinConcat(SectionsLines(c) + UpdateLines(c), UnauthLines(c));
    if c.requestUpdate {
      assert Join([UPDATE_LINE]) == UPDATE_LINE;
    }
    Join3(WARNING_RULE, UNAUTH_NOTICE, WARNING_RULE_INDENTED);
  }

  /** `summarizeDictionary(array, action)`: the loop accumulating one section. */
  method SummarizeSection(items: seq<string>, action: string) returns (text: string)
    ensures text == Join(SectionLines(items, action))
  {
    text := "";
    if |items| > 0 {
      text := text + action + " the following items:\n";
      var lines := [action + " the following items:\n"];
      var i := 0;
      while i < |items|
        invariant 0 <= i <= |items|
        invariant lines == [action + " the following items:\n"] + seq(i, j requires 0 <= j < i => "\t" + items[j] + "\n")
        invariant text == Join(lines)
      {
        JoinAppend(lines, "\t" + items[i] + "\n");
        lines := lines + ["\t" + items[i] + "\n"];
        text := text + "\t" + items[i] + "\n";
        i := i + 1;
      }
      assert lines == SectionLines(items, action);
    }
  }

  lemma {:induction false} JoinEmpty(ls: seq<string>)
    requires NonEmptyLines(ls)
    ensures Join(ls) == "" <==> ls == []
  {
    if ls != [] {
      assert |Join(ls)| >= |ls[0]|;
    }
  }

  /** `summarizeChanges` returns False exactly when nothing is marked: both lists and
      both dicts empty and neither request set. */
  lemma SummaryEmptyIff(c: Changes)
    ensures Summary(c).None? <==> c.install == [] && c.remove == [] && c.reconfigureRoot == []
                                  && c.reconfigureUser == [] && !c.requestUpdate && !c.requestUnauth
  {
    SummaryLinesShape(c);
    JoinEmpty(SummaryLines(c));
    if c.reconfigureRoot != [] { assert |Keys(c.reconfigureRoot)| > 0; }
    if c.reconfigureUser != [] { assert |Keys(c.reconfigureUser)| > 0; }
  }

  /** No marked item or key holds a line break. */
  predicate SingleLineItems(c: Changes) {
    (forall i :: 0 <= i < |c.install| ==> '\n' !in c.install[i])
    && (forall i :: 0 <= i < |c.remove| ==> '\n' !in c.remove[i])
    && (forall i :: 0 <= i < |c.reconfigureRoot| ==> '\n' !in c.reconfigureRoot[i].0)
    && (forall i :: 0 <= i < |c.reconfigureUser| ==> '\n' !in c.reconfigureUser[i].0)
  }

  predicate AllLines(ls: seq<string>) {
    forall i :: 0 <= i < |ls| ==> IsLine(ls[i])
  }

  predicate NonEmptyLines(ls: seq<string>) {
    forall i :: 0 <= i < |ls| ==> ls[i] != ""
  }

  lemma SectionLinesShape(items: seq<string>, action: string)
    requires '\n' !in action
    ensures (forall i :: 0 <= i < |items| ==> '\n' !in items[i]) ==> AllLines(SectionLines(items, action))
    ensures NonEmptyLines(SectionLines(items, action))
  {
    var ls := SectionLines(items, action);
    if items != [] {
      LineOf(action + " the following items:");
      assert ls[0] == action + " the following items:" + "\n";
      forall i | 1 <= i < |ls| && '\n' !in items[i - 1] ensures IsLine(ls[i]) {
        LineOf("\t" + items[i - 1]);
        assert ls[i] == "\t" + items[i - 1] + "\n";
      }
    }
  }

  lemma SummaryLinesShape(c: Changes)
    ensures SingleLineItems(c) ==> AllLines(SummaryLines(c))
    ensures NonEmptyLines(SummaryLines(c))
  {
    SectionsShape(c);
    RequestLinesShape(c);
    LinesConcat(SectionsLines(c), UpdateLines(c));
    LinesConcat(SectionsLines(c) + UpdateLines(c), UnauthLines(c));
  }

  lemma SectionsShape(c: Changes)
    ensures SingleLineItems(c) ==> AllLines(SectionsLines(c))
    ensures NonEmptyLines(SectionsLines(c))
  {
    var a := SectionLines(c.install, "Install");
    var b := SectionLines(c.remove, "Remove");
    var r := SectionLines(Keys(c.reconfigureRoot), "Reconfigure (as root)");
    var u := SectionLines(Keys(c.reconfigureUser), "Reconfigure (as user)");
    SectionLinesShape(c.install, "Install");
    SectionLinesShape(c.remove, "Remove");
    SectionLinesShape(Keys(c.reconfigureRoot), "Reconfigure (as root)");
    SectionLinesShape(Keys(c.reconfigureUser), "Reconfigure (as user)");
    LinesConcat(a, b);
    LinesConcat(a + b, r);
    LinesConcat(a + b + r, u);
  }

  lemma RequestLinesShape(c: Changes)
    ensures AllLines(UpdateLines(c)) && NonEmptyLines(UpdateLines(c))
    ensures AllLines(UnauthLines(c)) && NonEmptyLines(UnauthLines(c))
  {
    LineOf("Request Package List Update");
    LineOf("*** WARNING ***");
    NoticeLine();
    LineOf(" *** WARNING ***");
  }

  lemma NoticeLine()
    ensures IsLine(UNAUTH_NOTICE)
  {
    assert '\n' !in " Unauthenticated Packages";
    assert '\n' !in " Will be Installed";
    assert '\n' !in " during this transaction.";
    LineOf(UNAUTH_TEXT);
  }

  lemma LinesConcat(a: seq<string>, b: seq<string>)
    ensures AllLines(a) && AllLines(b) ==> AllLines(a + b)
    ensures NonEmptyLines(a) && NonEmptyLines(b) ==> NonEmptyLines(a + b)
  {
    assert forall i :: |a| <= i < |a + b| ==> (a + b)[i] == b[i - |a|];
  }

  /** Read back line by line, the summary is the four sections in order (each a
      header line and one tab-indented line per item), then the update line, then
      the three warning lines. */
  lemma SummaryReadsBack(c: Changes)
    requires SingleLineItems(c)
    ensures Summary(c).Some? ==> ReadLines(Summary(c).value) == SummaryLines(c)
  {
    SummaryLinesShape(c);
    ReadLinesJoin(SummaryLines(c));
  }

  /** `'.py' in obj and '.pyc' not in obj` */
  predicate IsPluginFile(obj: string) {
    Contains(obj, ".py") && !Contains(obj, ".pyc")
  }

  /** `obj.split('.py')[0]`: the text before the first ".py". */
  function PluginName(obj: string): (name: string)
    requires Contains(obj, ".py")
    ensures StartsWith(obj, name + ".py") && !Contains(name, ".py")
  {
    var i := FirstIndex(obj, ".py");
    assert obj[..i + 3] == obj[..i] + ".py";
    obj[..i]
  }

  /** The name is the only prefix of the entry that is followed by ".py" and holds no
      ".py" itself. */
  lemma PluginNameUnique(obj: string, name: string)
    requires StartsWith(obj, name + ".py") && !Contains(name, ".py")
    ensures Contains(obj, ".py") && PluginName(obj) == name
  {
    var k := |name|;
    PyAt(obj, name);
    ContainsAt(obj, ".py", k);
    var n := PluginName(obj);
    PyAt(obj, n);
    if |n| < k {
      PyApart(obj, |n|, k);
      assert name[|n|..|n| + 3] == obj[|n|..|n| + 3];
      ContainsAt(name, ".py", |n|);
    } else if k < |n| {
      PyApart(obj, k, |n|);
      assert n[k..k + 3] == obj[k..k + 3];
      ContainsAt(n, ".py", k);
    }
  }

  lemma PyAt(obj: string, prefix: string)
    requires StartsWith(obj, prefix + ".py")
    ensures obj[|prefix|..|prefix| + 3] == ".py" && obj[..|prefix|] == prefix
  {
    var k := |prefix|;
    assert obj[..k + 3] == prefix + ".py";
    assert obj[k..k + 3] == obj[..k + 3][k..];
    assert obj[..k] == obj[..k + 3][..k];
  }

  /** Two occurrences of ".py" never overlap. */
  lemma PyApart(obj: string, i: nat, j: nat)
    requires i < j && j + 3 <= |obj| && obj[i..i + 3] == ".py" && obj[j..j + 3] == ".py"
    ensures i + 3 <= j
  {
    assert obj[i + 1] == obj[i..i + 3][1] && obj[i + 2] == obj[i..i + 3][2];
    assert obj[j] == obj[j..j + 3][0] && obj[j + 1] == obj[j..j + 3][1];
  }

  /** The plugin names among the directory entries, in listing order. */
  function PluginNames(entries: seq<string>): seq<string>
  {
    if entries == [] then []
    else if IsPluginFile(entries[0]) then [PluginName(entries[0])] + PluginNames(entries[1..])
    else PluginNames(entries[1..])
  }

  /** A name is loaded exactly when some entry is a plugin file with that name. */
  lemma {:induction false} PluginNamesMembers(entries: seq<string>, n: string)
    ensures n in PluginNames(entries) <==> exists e :: e in entries && IsPluginFile(e) && PluginName(e) == n
  {
    if entries != [] {
      PluginNamesMembers(entries[1..], n);
      if IsPluginFile(entries[0]) && PluginName(entries[0]) == n {
        assert entries[0] in entries;
      }
      forall e | e in entries[1..] ensures e in entries { }
      forall e | e in entries && e != entries[0] ensures e in entries[1..] {
        var i :| 0 <= i < |entries| && entries[i] == e;
        assert entries[1..][i - 1] == e;
      }
    }
  }

  /** The loop at the top of `reload_plugins`. */
  method ReloadPluginNames(entries: seq<string>) returns (plugins: seq<string>)
    ensures plugins == PluginNames(entries)
  {
    plugins := [];
    var i := 0;
    while i < |entries|
      invariant 0 <= i <= |entries|
      invariant plugins + PluginNames(entries[i..]) == PluginNames(entries)
    {
      assert entries[i..][1..] == entries[i + 1..];
      var obj := entries[i];
      if Contains(obj, ".py") && !Contains(obj, ".pyc") {
        plugins := plugins + [PluginName(obj)];
      }
      i := i + 1;
    }
  }
}
