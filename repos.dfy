/** The MythTV-updates repositories plugin (plg_repos.py): the version series read
    from repos.db, the password gate that keeps development series back, the marks
    `compareState` leaves for the root back end, and the PPA commands the back end
    derives from them. */
module Repos {
  import opened Wrappers
  import opened Strings
  import Plugin

  /** What the modelled code raises. */
  datatype ReposError =
    | ValueError(line: string)      // a line that does not split into exactly two fields
    | NameError(name: string)       // `distro` read before anything was assigned to it
    | AttributeError(name: string)  // an attribute never set, or a method called on None
    | KeyError(key: string)         // a missing dict key
    | TypeError(what: string)       // a value of the wrong type

  // ---------------------------------------------------------------------------
  // convertVersion

  /** The characters `str.strip(".x")` removes. */
  predicate VersionChar(c: char) {
    c == '.' || c == 'x'
  }

  /** `convertVersion`: a series name ending in ".x" loses every leading and trailing
      '.' and 'x' (`str.strip` takes a set of characters, not a suffix); any other
      name is returned as it is. */
  function ConvertVersion(v: string): (r: string)
    ensures !EndsWith(v, ".x") ==> r == v
    ensures EndsWith(v, ".x") ==> |r| == 0 || (!VersionChar(r[0]) && !VersionChar(r[|r| - 1]))
  {
    if EndsWith(v, ".x") then
      StripRightPrefix(StripLeftBy(v, VersionChar), VersionChar);
      StripBy(v, VersionChar)
    else v
  }

  /** r is v with i characters taken off the front and the rest of the tail, all of
      them '.' or 'x'. */
  predicate TrimmedAt(v: string, i: nat, r: string) {
    i + |r| <= |v| && v[i..i + |r|] == r
    && (forall k :: 0 <= k < i ==> VersionChar(v[k]))
    && (forall k :: i + |r| <= k < |v| ==> VersionChar(v[k]))
  }

  /** What convertVersion removes from a ".x" name is a run of '.' and 'x' at each end. */
  lemma ConvertVersionStrips(v: string)
    requires EndsWith(v, ".x")
    ensures exists i :: TrimmedAt(v, i, ConvertVersion(v))
  {
    var l := StripLeftBy(v, VersionChar);
    var r := StripRightBy(l, VersionChar);
    assert r == ConvertVersion(v);
    StripLeftSuffix(v, VersionChar);
    StripRightPrefix(l, VersionChar);
    var i := |v| - |l|;
    assert l == v[i..];
    assert v[i..i + |r|] == l[..|r|];
    forall k | i + |r| <= k < |v| ensures VersionChar(v[k]) {
      assert v[k] == l[k - i];
    }
    assert TrimmedAt(v, i, r);
  }

  /** convertVersion applied twice is convertVersion applied once. */
  lemma ConvertVersionIdempotent(v: string)
    ensures ConvertVersion(ConvertVersion(v)) == ConvertVersion(v)
  {
    var r := ConvertVersion(v);
    if EndsWith(v, ".x") {
      assert |r| >= 2 ==> r[|r| - 2..][1] == r[|r| - 1];
    }
  }

  /** The series "31.x" is the PPA "31". */
  lemma ConvertVersionSeries(v: string)
    requires v == "31.x"
    ensures ConvertVersion(v) == "31"
  {
    assert EndsWith(v, ".x") by { assert v[|v| - 2..] == ".x"; }
    assert StripLeftBy(v, VersionChar) == v;
    assert v[..3] == "31." && v[..3][..2] == "31";
    assert StripRightBy(v, VersionChar) == StripRightBy("31.", VersionChar);
    assert StripRightBy("31.", VersionChar) == StripRightBy("31", VersionChar);
  }

  // ---------------------------------------------------------------------------
  // captureState: /etc/lsb-release and repos.db

  const CODENAME_KEY := "DISTRIB_CODENAME"
  const RELEASE_KEY := "MYTHTV_RELEASE"
  const PASS_KEY := "TRUNKPASS"
  const URL_KEY := "URL"
  const DEFAULT_URL := "https://raw.githubusercontent.com/mythcp/mythbuntu-control-panel/master/repos.db"
  /** A sources.list entry that enables the control panel's own PPA contains this. */
  const MCP_SOURCE := "/mythcp/mcp/"

  /** `a, b = line.strip("\n").split(sep)`: b, when the line has exactly one separator. */
  function SecondField(line: string, sep: char): Option<string> {
    match SplitTwo(StripChars(line, {'\n'}), sep)
    case None => None
    case Some(parts) => Some(parts.1)
  }

  /** One line of /etc/lsb-release: a DISTRIB_CODENAME line assigns `distro`. */
  function CodenameStep(distro: Option<string>, line: string): Result<Option<string>, ReposError> {
    if Contains(line, CODENAME_KEY) then
      match SecondField(line, '=')
      case None => Failure(ValueError(line))
      case Some(name) => Success(Some(name))
    else Success(distro)
  }

  /** `distro` after the loop over /etc/lsb-release; None when nothing assigned it. */
  function Codename(lines: seq<string>): Result<Option<string>, ReposError>
    decreases |lines|
  {
    if lines == [] then Success(None)
    else
      match Codename(lines[..|lines| - 1])
      case Failure(e) => Failure(e)
      case Success(distro) => CodenameStep(distro, lines[|lines| - 1])
  }

  /** An error part-way through /etc/lsb-release is the error of the whole loop. */
  lemma {:induction false} CodenameFails(lines: seq<string>, n: nat)
    requires n <= |lines| && Codename(lines[..n]).Failure?
    ensures Codename(lines) == Codename(lines[..n])
    decreases |lines|
  {
    if n < |lines| {
      var init := lines[..|lines| - 1];
      assert init[..n] == lines[..n];
      CodenameFails(init, n);
    } else {
      assert lines[..n] == lines;
    }
  }

  /** Without a DISTRIB_CODENAME line `distro` is never assigned. */
  lemma {:induction false} CodenameAbsent(lines: seq<string>)
    requires forall i :: 0 <= i < |lines| ==> !Contains(lines[i], CODENAME_KEY)
    ensures Codename(lines) == Success(None)
    decreases |lines|
  {
    if lines != [] {
      CodenameAbsent(lines[..|lines| - 1]);
    }
  }

  /** What the repos.db loop accumulates: the version list, the local `NumRepos`,
      and the attributes CurVer, TRUNKPASS and DOWNLOADURL (None: never set). */
  datatype DbState = DbState(versions: seq<string>, numRepos: nat, curVer: Option<string>,
                             trunkPass: Option<string>, downloadUrl: Option<string>)

  /** The branch of the repos.db loop a line takes. */
  datatype LineKind = VersionLine | ReleaseLine | PassLine | UrlLine | OtherLine

  /** The branches are tried in order: the codename, MYTHTV_RELEASE, TRUNKPASS, URL. */
  function Classify(distro: string, line: string): LineKind {
    if Contains(line, distro) then VersionLine
    else if Contains(line, RELEASE_KEY) then ReleaseLine
    else if Contains(line, PASS_KEY) then PassLine
    else if Contains(line, URL_KEY) then UrlLine
    else OtherLine
  }

  /** The effect of a line of kind k whose second field is v. */
  function Record(st: DbState, k: LineKind, v: string): DbState {
    match k
    case VersionLine =>
      st.(versions := if v in st.versions then st.versions else st.versions + [v],
          numRepos := st.numRepos + 1)
    case ReleaseLine => st.(curVer := Some(v))
    case PassLine => st.(trunkPass := Some(v))
    case UrlLine => st.(downloadUrl := Some(v))
    case OtherLine => st
  }

  /** One line of repos.db. */
  function DbStep(distro: Option<string>, st: DbState, line: string): Result<DbState, ReposError> {
    if distro.None? then Failure(NameError("distro"))
    else
      var k := Classify(distro.value, line);
      if k == OtherLine then Success(st)
      else
        match SecondField(line, '\t')
        case None => Failure(ValueError(line))
        case Some(v) => Success(Record(st, k, v))
  }

  /** The loop over the lines of repos.db. */
  function ParseDb(distro: Option<string>, st: DbState, lines: seq<string>): Result<DbState, ReposError>
    decreases |lines|
  {
    if lines == [] then Success(st)
    else
      match ParseDb(distro, st, lines[..|lines| - 1])
      case Failure(e) => Failure(e)
      case Success(s) => DbStep(distro, s, lines[|lines| - 1])
  }

  /** Parsing two runs of lines is parsing the first and then the second. */
  lemma {:induction false} ParseDbConcat(distro: Option<string>, st: DbState, a: seq<string>, b: seq<string>)
    ensures ParseDb(distro, st, a + b) ==
            match ParseDb(distro, st, a)
            case Failure(e) => Failure(e)
            case Success(s) => ParseDb(distro, s, b)
    decreases |b|
  {
    if b == [] {
      assert a + b == a;
    } else {
      var b' := b[..|b| - 1];
      assert (a + b)[..|a + b| - 1] == a + b';
      assert (a + b)[|a + b| - 1] == b[|b| - 1];
      ParseDbConcat(distro, st, a, b');
    }
  }

  /** An error part-way through repos.db is the error of the whole loop. */
  lemma ParseDbFails(distro: Option<string>, st: DbState, lines: seq<string>, n: nat)
    requires n <= |lines| && ParseDb(distro, st, lines[..n]).Failure?
    ensures ParseDb(distro, st, lines) == ParseDb(distro, st, lines[..n])
  {
    assert lines == lines[..n] + lines[n..];
    ParseDbConcat(distro, st, lines[..n], lines[n..]);
  }

  /** Without a codename every line of repos.db raises NameError: the file parses
      exactly when it is empty. */
  lemma {:induction false} ParseDbNeedsCodename(st: DbState, lines: seq<string>)
    ensures ParseDb(None, st, lines).Success? <==> lines == []
    ensures lines != [] ==> ParseDb(None, st, lines) == Failure(NameError("distro"))
    decreases |lines|
  {
    if lines != [] {
      ParseDbNeedsCodename(st, lines[..|lines| - 1]);
    }
  }

  /** The second fields of the codename lines, in file order. */
  function Seen(distro: string, lines: seq<string>): seq<string>
    decreases |lines|
  {
    if lines == [] then []
    else
      var l := lines[|lines| - 1];
      var rest := Seen(distro, lines[..|lines| - 1]);
      if Classify(distro, l) == VersionLine && SecondField(l, '\t').Some? then rest + [SecondField(l, '\t').value]
      else rest
  }

  /** The entries of xs that do not occur earlier in xs, in the order of xs. */
  function FirstSeen(xs: seq<string>): seq<string>
    decreases |xs|
  {
    if xs == [] then []
    else
      var init := xs[..|xs| - 1];
      if xs[|xs| - 1] in init then FirstSeen(init) else FirstSeen(init) + [xs[|xs| - 1]]
  }

  predicate NoDuplicates(xs: seq<string>) {
    forall i, j :: 0 <= i < j < |xs| ==> xs[i] != xs[j]
  }

  /** FirstSeen drops repetitions and nothing else. */
  lemma {:induction false} FirstSeenMembers(xs: seq<string>)
    ensures forall x :: x in FirstSeen(xs) <==> x in xs
    ensures NoDuplicates(FirstSeen(xs))
    decreases |xs|
  {
    if xs != [] {
      var init := xs[..|xs| - 1];
      FirstSeenMembers(init);
      assert xs == init + [xs[|xs| - 1]];
    }
  }

  /** After the repos.db loop, `versions` holds each codename line's version once, in
      the order the versions first appear, and `NumRepos` counts the codename lines. */
  lemma {:induction false} ParseDbVersions(distro: string, st: DbState, lines: seq<string>)
    requires st.versions == [] && st.numRepos == 0
    requires ParseDb(Some(distro), st, lines).Success?
    ensures var r := ParseDb(Some(distro), st, lines).value;
            r.versions == FirstSeen(Seen(distro, lines)) && r.numRepos == |Seen(distro, lines)|
    decreases |lines|
  {
    if lines != [] {
      var init := lines[..|lines| - 1];
      var l := lines[|lines| - 1];
      var prev := ParseDb(Some(distro), st, init);
      assert prev.Success?;
      ParseDbVersions(distro, st, init);
      var rest := Seen(distro, init);
      FirstSeenMembers(rest);
      DbStepVersions(distro, prev.value, l);
      if Classify(distro, l) == VersionLine {
        var v := SecondField(l, '\t').value;
        var xs := rest + [v];
        assert xs[..|xs| - 1] == rest && xs[|xs| - 1] == v;
        assert (v in prev.value.versions) == (v in rest);
      }
    }
  }

  /** A codename line adds its version unless already listed and counts one repository;
      other lines leave both alone. */
  lemma DbStepVersions(distro: string, s: DbState, l: string)
    requires DbStep(Some(distro), s, l).Success?
    ensures var r := DbStep(Some(distro), s, l).value;
            if Classify(distro, l) == VersionLine then
              SecondField(l, '\t').Some? && r.numRepos == s.numRepos + 1
              && r.versions == (if SecondField(l, '\t').value in s.versions then s.versions
                                else s.versions + [SecondField(l, '\t').value])
            else r.versions == s.versions && r.numRepos == s.numRepos
  {
  }


  /** Parsed from scratch, repos.db yields versions exactly when it has codename lines. */
  lemma ParseDbCounts(distro: Option<string>, st: DbState, lines: seq<string>)
    requires st.versions == [] && st.numRepos == 0 && ParseDb(distro, st, lines).Success?
    ensures var r := ParseDb(distro, st, lines).value; r.versions == [] <==> r.numRepos == 0
  {
    if distro.None? {
      ParseDbNeedsCodename(st, lines);
    } else {
      var xs := Seen(distro.value, lines);
      ParseDbVersions(distro.value, st, lines);
      FirstSeenMembers(xs);
      if xs != [] {
        assert xs[0] in FirstSeen(xs);
      }
    }
  }

  /** The three attributes a repos.db line can set besides the version list. */
  datatype Setting = Release | Pass | Url

  function KindOf(s: Setting): LineKind {
    match s
    case Release => ReleaseLine
    case Pass => PassLine
    case Url => UrlLine
  }

  function Slot(st: DbState, s: Setting): Option<string> {
    match s
    case Release => st.curVer
    case Pass => st.trunkPass
    case Url => st.downloadUrl
  }

  /** An attribute no line of its kind mentions keeps the value it had. */
  lemma {:induction false} SlotUntouched(distro: string, st: DbState, lines: seq<string>, s: Setting)
    requires ParseDb(Some(distro), st, lines).Success?
    requires forall i :: 0 <= i < |lines| ==> Classify(distro, lines[i]) != KindOf(s)
    ensures Slot(ParseDb(Some(distro), st, lines).value, s) == Slot(st, s)
    decreases |lines|
  {
    if lines != [] {
      SlotUntouched(distro, st, lines[..|lines| - 1], s);
    }
  }

  /** A line of an attribute's kind at the end of the file gives it its value. */
  lemma SlotLast(distro: string, st: DbState, lines: seq<string>, s: Setting)
    requires ParseDb(Some(distro), st, lines).Success?
    requires |lines| > 0 && Classify(distro, lines[|lines| - 1]) == KindOf(s)
    ensures var l := lines[|lines| - 1];
            SecondField(l, '\t').Some? && Slot(ParseDb(Some(distro), st, lines).value, s) == SecondField(l, '\t')
  {
  }

  /** The last line of an attribute's kind gives it its value, even where a codename
      line would also match the attribute's key. */
  lemma {:induction false} SlotLastWins(distro: string, st: DbState, lines: seq<string>, n: nat, s: Setting)
    requires ParseDb(Some(distro), st, lines).Success?
    requires n < |lines| && Classify(distro, lines[n]) == KindOf(s)
    requires forall i :: n < i < |lines| ==> Classify(distro, lines[i]) != KindOf(s)
    ensures SecondField(lines[n], '\t').Some?
    ensures Slot(ParseDb(Some(distro), st, lines).value, s) == SecondField(lines[n], '\t')
    decreases |lines|
  {
    if n == |lines| - 1 {
      SlotLast(distro, st, lines, s);
    } else {
      var init := lines[..|lines| - 1];
      assert init[n] == lines[n];
      SlotLastWins(distro, st, init, n, s);
      assert Classify(distro, lines[|lines| - 1]) != KindOf(s);
    }
  }

  /** The state the code falls back to when repos.db named no version for this release. */
  function Defaults(st: DbState): DbState {
    if st.numRepos == 0 then
      st.(versions := st.versions + ["0"], curVer := Some("0"), downloadUrl := Some(DEFAULT_URL))
    else st
  }

  /** The first half of `captureState`: the codename from /etc/lsb-release (a list of
      lines), then repos.db (None when the file does not exist). prior holds the
      attributes from an earlier capture. */
  function CaptureDb(lsb: seq<string>, db: Option<seq<string>>, prior: DbState): (r: Result<DbState, ReposError>)
    ensures r.Success? ==> |r.value.versions| > 0
  {
    match Codename(lsb)
    case Failure(e) => Failure(e)
    case Success(distro) =>
      var st := prior.(versions := [], numRepos := 0);
      if db.None? then Success(Defaults(st))
      else
        match ParseDb(distro, st, db.value)
        case Failure(e) => Failure(e)
        case Success(parsed) =>
          ParseDbCounts(distro, st, db.value);
          Success(Defaults(parsed))
  }

  /** The version list, the release and the download URL after a successful capture. */
  lemma CaptureDbVersions(lsb: seq<string>, db: Option<seq<string>>, prior: DbState)
    requires CaptureDb(lsb, db, prior).Success?
    ensures var r := CaptureDb(lsb, db, prior).value;
            |r.versions| > 0 && NoDuplicates(r.versions)
            && (r.numRepos == 0 ==> r.versions == ["0"] && r.curVer == Some("0")
                                    && r.downloadUrl == Some(DEFAULT_URL))
            && (r.numRepos > 0 ==> db.Some? && Codename(lsb).value.Some?
                                   && r.versions == FirstSeen(Seen(Codename(lsb).value.value, db.value)))
  {
    var st := prior.(versions := [], numRepos := 0);
    var distro := Codename(lsb).value;
    if db.Some? {
      var parsed := ParseDb(distro, st, db.value).value;
      ParseDbCounts(distro, st, db.value);
      if distro.None? {
        ParseDbNeedsCodename(st, db.value);
      } else {
        ParseDbVersions(distro.value, st, db.value);
        FirstSeenMembers(Seen(distro.value, db.value));
      }
    }
  }

  /** The user's choice as captured: `changes['MythTVUpdatesActivated']`,
      `changes['MythTVUpdatesRepo']` and `MCPUpdatesActivated`. */
  datatype Choice = Choice(activated: bool, repo: string, mcpActivated: bool)

  /** `'/mythcp/mcp/' in entry and entry[0] != "#"`: an enabled sources.list entry for
      the control panel's PPA (an entry holding the text is never empty). */
  predicate McpEntry(e: string) {
    Contains(e, MCP_SOURCE) && |e| > 0 && e[0] != '#'
  }

  /** The second half of `captureState`. cfgActivated and cfgRepo are the config file's
      values (None where reading them raises); sources are the sources.list entries. */
  function CaptureChoice(versions: seq<string>, cfgActivated: Option<bool>, cfgRepo: Option<string>,
                         sources: seq<string>): (c: Choice)
    requires |versions| > 0
    ensures c.mcpActivated <==> exists i :: 0 <= i < |sources| && McpEntry(sources[i])
    ensures cfgRepo.None? ==> c.repo == versions[0]
  {
    Choice(if cfgActivated.Some? then cfgActivated.value else false,
           if cfgRepo.Some? then cfgRepo.value else versions[0],
           McpAmong(sources, |sources|))
  }

  // ---------------------------------------------------------------------------
  // compareState

  const ACTIVATED := "MythTV-Updates-Activated"
  const REPO := "MythTV-Updates-Repo"
  const REPO_LIST := "Repo-list"
  const MCP := "MCP-Updates-Activated"

  lemma KeysDistinct()
    ensures ACTIVATED != REPO && ACTIVATED != REPO_LIST && ACTIVATED != MCP
    ensures REPO != REPO_LIST && REPO != MCP && REPO_LIST != MCP
  {
    assert |ACTIVATED| == 24 && |REPO| == 19 && |REPO_LIST| == 9 && |MCP| == 21;
  }

  /** The widgets `compareState` reads: the updates check box, whether the series box
      is sensitive and its text (None: nothing selected), the password entry and the
      MCP check box. */
  datatype Widgets = Widgets(updatesChecked: bool, repoSensitive: bool, repoText: Option<string>,
                             password: string, mcpChecked: bool)

  /** The marks `compareState` leaves, and the error that cut it short if any. */
  datatype Outcome = Outcome(marks: Plugin.Dict, err: Option<ReposError>)

  /** The updates check box was just cleared. */
  predicate Deactivating(w: Widgets, c: Choice) {
    w.updatesChecked != c.activated && !w.updatesChecked
  }

  /** The series box is live and the series or the check box differs from the capture. */
  predicate Edited(w: Widgets, c: Choice) {
    w.repoSensitive && (w.repoText != Some(c.repo) || w.updatesChecked != c.activated)
  }

  /** `(SELVER > CurVer and password == TRUNKPASS) or SELVER <= CurVer` */
  predicate Approved(sel: string, password: string, curVer: string, trunkPass: Option<string>) {
    (StrLt(curVer, sel) && trunkPass == Some(password)) || StrLe(sel, curVer)
  }

  /** The series change was accepted. */
  predicate SeriesAccepted(w: Widgets, curVer: Option<string>, trunkPass: Option<string>, c: Choice) {
    Edited(w, c) && w.repoText.Some? && curVer.Some?
    && Approved(ConvertVersion(w.repoText.value), w.password, curVer.value, trunkPass)
  }

  /** Where the series branch of `compareState` ends. */
  datatype SeriesStep =
    | Untouched            // the box is not sensitive, or neither it nor the check box changed
    | Accepted             // the series and the check box are recorded
    | Refused              // a newer series without the password: at most a deactivation is recorded
    | Raised(e: ReposError)

  /** The series branch for the selected text. */
  function SeriesDecision(w: Widgets, text: string, c: Choice, curVer: Option<string>,
                          trunkPass: Option<string>): SeriesStep
  {
    var sel := ConvertVersion(text);
    if !Edited(w, c) then Untouched
    else if curVer.None? then Raised(AttributeError("CurVer"))
    else if StrLt(curVer.value, sel) && trunkPass.None? then Raised(AttributeError("TRUNKPASS"))
    else if Approved(sel, w.password, curVer.value, trunkPass) then Accepted
    else Refused
  }

  /** The Repo-list mark when send holds, then the MCP mark when the MCP check box
      changed to mcp.value. */
  function Tail(d: Plugin.Dict, send: bool, versions: seq<string>, mcp: Option<bool>): Outcome {
    var d' := if send then Plugin.DictSet(d, REPO_LIST, Plugin.Texts(versions)) else d;
    Outcome(if mcp.Some? then Plugin.DictSet(d', MCP, Plugin.Flag(mcp.value)) else d', None)
  }

  /** The marks of the series branch, made on top of d. */
  function SeriesDict(d: Plugin.Dict, s: SeriesStep, text: string, checked: bool): Plugin.Dict {
    match s
    case Accepted => Plugin.DictSet(Plugin.DictSet(d, REPO, Plugin.Text(text)), ACTIVATED, Plugin.Flag(checked))
    case Refused => if checked then d else Plugin.DictSet(d, ACTIVATED, Plugin.Flag(false))
    case _ => d
  }

  /** The marks, in the order `compareState` makes them, for a deactivation flag, a
      series decision and an MCP change. */
  function MarksFor(deactivate: bool, s: SeriesStep, text: string, checked: bool, versions: seq<string>,
                    mcp: Option<bool>): Outcome
  {
    var d1 := if deactivate then Plugin.DictSet([], ACTIVATED, Plugin.Flag(false)) else [];
    if s.Raised? then Outcome(d1, Some(s.e))
    else Tail(SeriesDict(d1, s, text, checked), deactivate || s.Accepted?, versions, mcp)
  }

  /** The Repo-list and MCP marks leave the series keys alone. */
  lemma TailLookups(d: Plugin.Dict, send: bool, versions: seq<string>, mcp: Option<bool>)
    requires Plugin.UniqueKeys(d) && Plugin.Lookup(d, REPO_LIST).None? && Plugin.Lookup(d, MCP).None?
    ensures var o := Tail(d, send, versions, mcp);
            Plugin.UniqueKeys(o.marks) && o.err.None?
            && Plugin.Lookup(o.marks, REPO) == Plugin.Lookup(d, REPO)
            && Plugin.Lookup(o.marks, ACTIVATED) == Plugin.Lookup(d, ACTIVATED)
            && Plugin.Lookup(o.marks, REPO_LIST) == (if send then Some(Plugin.Texts(versions)) else None)
            && Plugin.Lookup(o.marks, MCP) == (if mcp.Some? then Some(Plugin.Flag(mcp.value)) else None)
  {
    KeysDistinct();
  }

  /** The series branch marks Repo and Activated only. */
  lemma SeriesDictLookups(d: Plugin.Dict, s: SeriesStep, text: string, checked: bool)
    requires Plugin.UniqueKeys(d) && Plugin.Lookup(d, REPO).None?
    requires Plugin.Lookup(d, REPO_LIST).None? && Plugin.Lookup(d, MCP).None?
    ensures var r := SeriesDict(d, s, text, checked);
            Plugin.UniqueKeys(r) && Plugin.Lookup(r, REPO_LIST).None? && Plugin.Lookup(r, MCP).None?
            && Plugin.Lookup(r, REPO) == (if s.Accepted? then Some(Plugin.Text(text)) else None)
            && Plugin.Lookup(r, ACTIVATED) ==
                 (if s.Accepted? then Some(Plugin.Flag(checked))
                  else if s.Refused? && !checked then Some(Plugin.Flag(false))
                  else Plugin.Lookup(d, ACTIVATED))
  {
    KeysDistinct();
  }

  /** What each key holds after a decision; no other key is marked. */
  lemma MarksForLookups(deactivate: bool, s: SeriesStep, text: string, checked: bool, versions: seq<string>,
                        mcp: Option<bool>)
    ensures var o := MarksFor(deactivate, s, text, checked, versions, mcp);
            Plugin.UniqueKeys(o.marks)
            && o.err == (if s.Raised? then Some(s.e) else None)
            && Plugin.Lookup(o.marks, REPO) == (if s.Accepted? then Some(Plugin.Text(text)) else None)
            && Plugin.Lookup(o.marks, ACTIVATED) ==
                 (if s.Accepted? then Some(Plugin.Flag(checked))
                  else if deactivate || (s.Refused? && !checked) then Some(Plugin.Flag(false))
                  else None)
            && Plugin.Lookup(o.marks, REPO_LIST) ==
                 (if !s.Raised? && (deactivate || s.Accepted?) then Some(Plugin.Texts(versions)) else None)
            && Plugin.Lookup(o.marks, MCP) == (if !s.Raised? && mcp.Some? then Some(Plugin.Flag(mcp.value)) else None)
  {
    KeysDistinct();
    var d1 := if deactivate then Plugin.DictSet([], ACTIVATED, Plugin.Flag(false)) else [];
    assert Plugin.Lookup(d1, ACTIVATED) == (if deactivate then Some(Plugin.Flag(false)) else None);
    if !s.Raised? {
      SeriesDictLookups(d1, s, text, checked);
      TailLookups(SeriesDict(d1, s, text, checked), deactivate || s.Accepted?, versions, mcp);
    }
  }

  /** `compareState` on marks it has just cleared, given the plugin's attributes
      (changes is None before any capture). */
  function CompareMarks(w: Widgets, versions: seq<string>, curVer: Option<string>, trunkPass: Option<string>,
                        changes: Option<Choice>): Outcome
  {
    if w.repoText.None? then Outcome([], Some(AttributeError("endswith")))
    else if changes.None? then Outcome([], Some(AttributeError("changes")))
    else
      var c := changes.value;
      MarksFor(Deactivating(w, c), SeriesDecision(w, w.repoText.value, c, curVer, trunkPass), w.repoText.value,
               w.updatesChecked, versions, if w.mcpChecked != c.mcpActivated then Some(w.mcpChecked) else None)
  }

  /** The accepted branch is taken exactly when the series change is approved. */
  lemma AcceptedIff(w: Widgets, text: string, curVer: Option<string>, trunkPass: Option<string>, c: Choice)
    requires w.repoText == Some(text)
    ensures SeriesDecision(w, text, c, curVer, trunkPass) == Accepted <==> SeriesAccepted(w, curVer, trunkPass, c)
  {
    var sel := ConvertVersion(text);
    if curVer.Some? && StrLt(curVer.value, sel) && StrLe(sel, curVer.value) {
      StrLeAntisymmetric(sel, curVer.value);
    }
  }

  /** The password gate: a series newer than CurVer is recorded only with the right
      password. */
  lemma CompareGate(w: Widgets, versions: seq<string>, curVer: Option<string>, trunkPass: Option<string>,
                    changes: Option<Choice>)
    ensures var o := CompareMarks(w, versions, curVer, trunkPass, changes);
            Plugin.Lookup(o.marks, REPO).Some? ==>
              w.repoText.Some? && curVer.Some? && Plugin.Lookup(o.marks, REPO) == Some(Plugin.Text(w.repoText.value))
              && (StrLt(curVer.value, ConvertVersion(w.repoText.value)) ==> trunkPass == Some(w.password))
  {
    if w.repoText.Some? && changes.Some? {
      var c := changes.value;
      var text := w.repoText.value;
      var s := SeriesDecision(w, text, c, curVer, trunkPass);
      var mcp := if w.mcpChecked != c.mcpActivated then Some(w.mcpChecked) else None;
      assert CompareMarks(w, versions, curVer, trunkPass, changes)
             == MarksFor(Deactivating(w, c), s, text, w.updatesChecked, versions, mcp);
      MarksForLookups(Deactivating(w, c), s, text, w.updatesChecked, versions, mcp);
      if s.Accepted? {
        AcceptedGate(w, text, curVer, trunkPass, c);
      }
    }
  }

  /** Updates are switched on only together with a recorded series. */
  lemma ActivationNeedsSeries(w: Widgets, versions: seq<string>, curVer: Option<string>,
                              trunkPass: Option<string>, changes: Option<Choice>)
    ensures var o := CompareMarks(w, versions, curVer, trunkPass, changes);
            Plugin.Lookup(o.marks, REPO).None? ==> Plugin.Lookup(o.marks, ACTIVATED) != Some(Plugin.Flag(true))
  {
    if w.repoText.Some? && changes.Some? {
      var c := changes.value;
      var text := w.repoText.value;
      var s := SeriesDecision(w, text, c, curVer, trunkPass);
      var mcp := if w.mcpChecked != c.mcpActivated then Some(w.mcpChecked) else None;
      assert CompareMarks(w, versions, curVer, trunkPass, changes)
             == MarksFor(Deactivating(w, c), s, text, w.updatesChecked, versions, mcp);
      MarksForLookups(Deactivating(w, c), s, text, w.updatesChecked, versions, mcp);
    }
  }


  /** An accepted series had a CurVer, and a newer one the right password. */
  lemma AcceptedGate(w: Widgets, text: string, curVer: Option<string>, trunkPass: Option<string>, c: Choice)
    requires SeriesDecision(w, text, c, curVer, trunkPass) == Accepted
    ensures curVer.Some? && (StrLt(curVer.value, ConvertVersion(text)) ==> trunkPass == Some(w.password))
  {
    var sel := ConvertVersion(text);
    if StrLt(curVer.value, sel) && StrLe(sel, curVer.value) {
      StrLeAntisymmetric(sel, curVer.value);
    }
  }


  /** Repo-list is marked exactly when the deactivation branch or the accepted-series
      branch fired, and then it carries the whole version list. */
  lemma RepoListMarked(w: Widgets, versions: seq<string>, curVer: Option<string>, trunkPass: Option<string>,
                       c: Choice)
    requires CompareMarks(w, versions, curVer, trunkPass, Some(c)).err.None?
    ensures var o := CompareMarks(w, versions, curVer, trunkPass, Some(c));
            (Plugin.Lookup(o.marks, REPO_LIST).Some? <==> Deactivating(w, c) || SeriesAccepted(w, curVer, trunkPass, c))
            && (Plugin.Lookup(o.marks, REPO_LIST).Some? ==> Plugin.Lookup(o.marks, REPO_LIST) == Some(Plugin.Texts(versions)))
  {
    var text := w.repoText.value;
    AcceptedIff(w, text, curVer, trunkPass, c);
    MarksForLookups(Deactivating(w, c), SeriesDecision(w, text, c, curVer, trunkPass), text, w.updatesChecked, versions,
                    if w.mcpChecked != c.mcpActivated then Some(w.mcpChecked) else None);
  }

  /** When every widget shows what was captured, nothing is marked. */
  lemma NothingChangedNoMarks(w: Widgets, versions: seq<string>, curVer: Option<string>, trunkPass: Option<string>,
                              c: Choice)
    requires w.repoText == Some(c.repo) && w.updatesChecked == c.activated && w.mcpChecked == c.mcpActivated
    ensures CompareMarks(w, versions, curVer, trunkPass, Some(c)) == Outcome([], None)
  {
  }

  /** compareState raises only without a selection, before any capture, or when an
      edited series meets a missing CurVer, or a newer series a missing TRUNKPASS. */
  lemma CompareErrors(w: Widgets, versions: seq<string>, curVer: Option<string>, trunkPass: Option<string>,
                      changes: Option<Choice>)
    ensures CompareMarks(w, versions, curVer, trunkPass, changes).err.Some? <==>
              w.repoText.None? || changes.None?
              || (Edited(w, changes.value)
                  && (curVer.None? || (StrLt(curVer.value, ConvertVersion(w.repoText.value)) && trunkPass.None?)))
  {
  }

  // ---------------------------------------------------------------------------
  // root_scripted_changes

  const PPA_PREFIX := "ppa:mythbuntu/"
  const MCP_PPA := "ppa:mythcp/mcp"
  /** Options of the config file's "cfg" section. */
  const ACTIVATE_OPTION := "ActivateMythTVUpdates"
  const REPO_OPTION := "MythTVRepo"
  const MCP_OPTION := "ActivateMCPUpdates"

  /** An `apt-add-repository -y` call, with `-r` for a removal. */
  datatype AptCall = AddPpa(ppa: string) | RemovePpa(ppa: string)

  /** The calls made, the "cfg" section as written, and the error raised if any. */
  datatype Applied = Applied(calls: seq<AptCall>, config: map<string, string>, err: Option<ReposError>)

  /** The PPA of a series name. */
  function PpaName(v: string): (p: string)
    ensures StartsWith(p, PPA_PREFIX) && p[|PPA_PREFIX|..] == ConvertVersion(v)
  {
    PPA_PREFIX + ConvertVersion(v)
  }

  /** The removal calls for a Repo-list: one per ".x" series, in list order. */
  function Removals(items: seq<string>): seq<AptCall>
    decreases |items|
  {
    if items == [] then []
    else
      var last := items[|items| - 1];
      Removals(items[..|items| - 1]) + (if EndsWith(last, ".x") then [RemovePpa(PpaName(last))] else [])
  }

  /** Every ".x" series of the list has its PPA removed, and nothing else is called. */
  lemma {:induction false} RemovalsMembers(items: seq<string>)
    ensures forall call :: call in Removals(items) <==>
              call.RemovePpa? && exists i :: 0 <= i < |items| && EndsWith(items[i], ".x") && call.ppa == PpaName(items[i])
    decreases |items|
  {
    if items != [] {
      var init := items[..|items| - 1];
      RemovalsMembers(init);
      assert forall i :: 0 <= i < |init| ==> init[i] == items[i];
    }
  }

  /** The loop over Repo-list. */
  method RemoveOldRepos(items: seq<string>) returns (calls: seq<AptCall>)
    ensures calls == Removals(items)
  {
    calls := [];
    var i := 0;
    while i < |items|
      invariant 0 <= i <= |items|
      invariant calls == Removals(items[..i])
    {
      assert items[..i + 1][..i] == items[..i];
      var item := items[i];
      if EndsWith(item, ".x") {
        item := ConvertVersion(item);
        calls := calls + [RemovePpa(PPA_PREFIX + item)];
      }
      i := i + 1;
    }
    assert items[..i] == items;
  }

  /** Python truth of a stored value. */
  predicate Truthy(v: Plugin.Value) {
    match v
    case Text(s) => s != ""
    case Flag(b) => b
    case Number(n) => n != 0
    case Texts(l) => l != []
    case NoValue => false
  }

  /** The MCP part of `root_scripted_changes`. */
  function McpApplied(reconfigure: Plugin.Dict, calls: seq<AptCall>, config: map<string, string>): Applied {
    match Plugin.Lookup(reconfigure, MCP)
    case None => Applied(calls, config, None)
    case Some(v) =>
      if Truthy(v) then Applied(calls + [AddPpa(MCP_PPA)], config[MCP_OPTION := "True"], None)
      else Applied(calls + [RemovePpa(MCP_PPA)], config[MCP_OPTION := "False"], None)
  }

  /** The MCP step only appends a call and sets its own option. */
  lemma McpAppliedKeeps(reconfigure: Plugin.Dict, calls: seq<AptCall>, config: map<string, string>)
    ensures var a := McpApplied(reconfigure, calls, config);
            a.err.None? && (forall call :: call in calls ==> call in a.calls)
            && (forall call :: call in a.calls && call.AddPpa? ==> call in calls || call.ppa == MCP_PPA)
            && (forall k :: k in config && k != MCP_OPTION ==> k in a.config && a.config[k] == config[k])
  {
  }

  lemma OptionsDistinct()
    ensures ACTIVATE_OPTION != MCP_OPTION && REPO_OPTION != MCP_OPTION
  {
    assert |ACTIVATE_OPTION| != |MCP_OPTION|;
    assert |REPO_OPTION| != |MCP_OPTION|;
  }

  /** `root_scripted_changes(reconfigure)` on the "cfg" section read from the config
      file (empty when there is none). Iterating a string yields one-character
      strings, none of which ends in ".x"; iterating a bool, a number or None raises;
      configparser refuses a value that is not a string. */
  function RootChanges(reconfigure: Plugin.Dict, config: map<string, string>): Applied {
    var list := Plugin.Lookup(reconfigure, REPO_LIST);
    if list.Some? && !(list.value.Texts? || list.value.Text?) then Applied([], config, Some(TypeError(REPO_LIST)))
    else
      var calls := if list.Some? && list.value.Texts? then Removals(list.value.texts) else [];
      match Plugin.Lookup(reconfigure, ACTIVATED)
      case None => McpApplied(reconfigure, calls, config)
      case Some(act) =>
        if !Truthy(act) then McpApplied(reconfigure, calls, config[ACTIVATE_OPTION := "False"])
        else
          match Plugin.Lookup(reconfigure, REPO)
          case None => Applied(calls, config, Some(KeyError(REPO)))
          case Some(repo) =>
            var cfg := config[ACTIVATE_OPTION := "True"];
            if !repo.Text? then Applied(calls, cfg, Some(TypeError(REPO)))
            else McpApplied(reconfigure, calls + [AddPpa(PpaName(repo.text))], cfg[REPO_OPTION := repo.text])
  }

  /** `root_scripted_changes`: the subprocess calls and the config it writes. */
  method RootScriptedChanges(reconfigure: Plugin.Dict, config: map<string, string>) returns (a: Applied)
    ensures a == RootChanges(reconfigure, config)
  {
    var calls: seq<AptCall> := [];
    var cfg := config;
    var list := Plugin.Lookup(reconfigure, REPO_LIST);
    if list.Some? {
      match list.value
      case Texts(items) =>
        calls := RemoveOldRepos(items);
      case Text(_) =>
      case _ =>
        return Applied([], config, Some(TypeError(REPO_LIST)));
    }
    var act := Plugin.Lookup(reconfigure, ACTIVATED);
    if act.Some? {
      if Truthy(act.value) {
        var repo := Plugin.Lookup(reconfigure, REPO);
        if repo.None? {
          return Applied(calls, cfg, Some(KeyError(REPO)));
        }
        cfg := cfg[ACTIVATE_OPTION := "True"];
        if !repo.value.Text? {
          return Applied(calls, cfg, Some(TypeError(REPO)));
        }
        cfg := cfg[REPO_OPTION := repo.value.text];
        calls := calls + [AddPpa(PPA_PREFIX + ConvertVersion(repo.value.text))];
      } else {
        cfg := cfg[ACTIVATE_OPTION := "False"];
      }
    }
    var mcp := Plugin.Lookup(reconfigure, MCP);
    if mcp.Some? {
      if Truthy(mcp.value) {
        calls := calls + [AddPpa(MCP_PPA)];
        cfg := cfg[MCP_OPTION := "True"];
      } else {
        calls := calls + [RemovePpa(MCP_PPA)];
        cfg := cfg[MCP_OPTION := "False"];
      }
    }
    return Applied(calls, cfg, None);
  }

  /** Marks holding an activation with a series and a version list: the series' PPA is
      added, the config records it, and every ".x" series of the list has its PPA removed. */
  lemma ActivationApplied(d: Plugin.Dict, config: map<string, string>, text: string, list: seq<string>)
    requires Plugin.Lookup(d, REPO_LIST) == Some(Plugin.Texts(list))
    requires Plugin.Lookup(d, ACTIVATED) == Some(Plugin.Flag(true))
    requires Plugin.Lookup(d, REPO) == Some(Plugin.Text(text))
    ensures var a := RootChanges(d, config);
            a.err.None? && AddPpa(PpaName(text)) in a.calls
            && ACTIVATE_OPTION in a.config && a.config[ACTIVATE_OPTION] == "True"
            && REPO_OPTION in a.config && a.config[REPO_OPTION] == text
            && forall v :: v in list && EndsWith(v, ".x") ==> RemovePpa(PpaName(v)) in a.calls
  {
    RemovalsMembers(list);
    OptionsDistinct();
    var cfg := config[ACTIVATE_OPTION := "True"][REPO_OPTION := text];
    McpAppliedKeeps(d, Removals(list) + [AddPpa(PpaName(text))], cfg);
    forall v | v in list && EndsWith(v, ".x") ensures RemovePpa(PpaName(v)) in Removals(list) {
      var i :| 0 <= i < |list| && list[i] == v;
    }
  }

  /** Marks holding a deactivation: the config records it and no MythTV PPA is added. */
  lemma DeactivationRoot(d: Plugin.Dict, config: map<string, string>, list: seq<string>)
    requires Plugin.Lookup(d, ACTIVATED) == Some(Plugin.Flag(false))
    requires Plugin.Lookup(d, REPO_LIST) == Some(Plugin.Texts(list))
    ensures var a := RootChanges(d, config);
            a.err.None? && ACTIVATE_OPTION in a.config && a.config[ACTIVATE_OPTION] == "False"
            && forall call :: call in a.calls && call.AddPpa? ==> call.ppa == MCP_PPA
  {
    RemovalsMembers(list);
    OptionsDistinct();
    McpAppliedKeeps(d, Removals(list), config[ACTIVATE_OPTION := "False"]);
  }

  /** An accepted, activated series reaches the back end: its PPA is added, the config
      records it, and every ".x" series of the version list has its PPA removed. */
  lemma AcceptedSeriesApplied(w: Widgets, versions: seq<string>, curVer: Option<string>, trunkPass: Option<string>,
                              c: Choice, config: map<string, string>)
    requires CompareMarks(w, versions, curVer, trunkPass, Some(c)).err.None?
    requires SeriesAccepted(w, curVer, trunkPass, c) && w.updatesChecked
    ensures var a := RootChanges(CompareMarks(w, versions, curVer, trunkPass, Some(c)).marks, config);
            a.err.None? && AddPpa(PpaName(w.repoText.value)) in a.calls
            && ACTIVATE_OPTION in a.config && a.config[ACTIVATE_OPTION] == "True"
            && REPO_OPTION in a.config && a.config[REPO_OPTION] == w.repoText.value
            && forall v :: v in versions && EndsWith(v, ".x") ==> RemovePpa(PpaName(v)) in a.calls
  {
    var text := w.repoText.value;
    AcceptedIff(w, text, curVer, trunkPass, c);
    var mcp := if w.mcpChecked != c.mcpActivated then Some(w.mcpChecked) else None;
    MarksForLookups(false, Accepted, text, true, versions, mcp);
    assert CompareMarks(w, versions, curVer, trunkPass, Some(c)) == MarksFor(false, Accepted, text, true, versions, mcp);
    ActivationApplied(MarksFor(false, Accepted, text, true, versions, mcp).marks, config, text, versions);
  }

  /** A cleared check box reaches the back end: the config records the deactivation and
      no MythTV PPA is added. */
  lemma DeactivationApplied(w: Widgets, versions: seq<string>, curVer: Option<string>, trunkPass: Option<string>,
                            c: Choice, config: map<string, string>)
    requires CompareMarks(w, versions, curVer, trunkPass, Some(c)).err.None?
    requires Deactivating(w, c)
    ensures var a := RootChanges(CompareMarks(w, versions, curVer, trunkPass, Some(c)).marks, config);
            a.err.None? && ACTIVATE_OPTION in a.config && a.config[ACTIVATE_OPTION] == "False"
            && forall call :: call in a.calls && call.AddPpa? ==> call.ppa == MCP_PPA
  {
    var text := w.repoText.value;
    var s := SeriesDecision(w, text, c, curVer, trunkPass);
    var mcp := if w.mcpChecked != c.mcpActivated then Some(w.mcpChecked) else None;
    MarksForLookups(true, s, text, false, versions, mcp);
    assert CompareMarks(w, versions, curVer, trunkPass, Some(c)) == MarksFor(true, s, text, false, versions, mcp);
    DeactivationRoot(MarksFor(true, s, text, false, versions, mcp).marks, config, versions);
  }

  // ---------------------------------------------------------------------------
  // The plugin object

  /** The loop over /etc/lsb-release. */
  method ReadCodename(lsb: seq<string>) returns (r: Result<Option<string>, ReposError>)
    ensures r == Codename(lsb)
  {
    var distro: Option<string> := None;
    var i := 0;
    while i < |lsb|
      invariant 0 <= i <= |lsb|
      invariant Codename(lsb[..i]) == Success(distro)
    {
      assert lsb[..i + 1][..i] == lsb[..i];
      if Contains(lsb[i], CODENAME_KEY) {
        var name := SecondField(lsb[i], '=');
        if name.None? {
          CodenameFails(lsb, i + 1);
          return Failure(ValueError(lsb[i]));
        }
        distro := name;
      }
      i := i + 1;
    }
    assert lsb[..i] == lsb;
    return Success(distro);
  }

  /** The body of the repos.db loop for one line. */
  method ReadDbLine(distro: string, st: DbState, line: string) returns (r: Result<DbState, ReposError>)
    ensures r == DbStep(Some(distro), st, line)
  {
    var versions, numRepos, curVer, trunkPass, downloadUrl := st.versions, st.numRepos, st.curVer, st.trunkPass, st.downloadUrl;
    if Contains(line, distro) {
      var version := SecondField(line, '\t');
      if version.None? {
        return Failure(ValueError(line));
      }
      if version.value !in versions {
        versions := versions + [version.value];
      }
      numRepos := numRepos + 1;
    } else if Contains(line, RELEASE_KEY) {
      curVer := SecondField(line, '\t');
      if curVer.None? {
        return Failure(ValueError(line));
      }
    } else if Contains(line, PASS_KEY) {
      trunkPass := SecondField(line, '\t');
      if trunkPass.None? {
        return Failure(ValueError(line));
      }
    } else if Contains(line, URL_KEY) {
      downloadUrl := SecondField(line, '\t');
      if downloadUrl.None? {
        return Failure(ValueError(line));
      }
    }
    return Success(DbState(versions, numRepos, curVer, trunkPass, downloadUrl));
  }

  /** The loop over repos.db, from the attributes in st. */
  method ReadReposDb(distro: Option<string>, st: DbState, lines: seq<string>) returns (r: Result<DbState, ReposError>)
    ensures r == ParseDb(distro, st, lines)
  {
    var state := st;
    var j := 0;
    while j < |lines|
      invariant 0 <= j <= |lines|
      invariant ParseDb(distro, st, lines[..j]) == Success(state)
    {
      assert lines[..j + 1][..j] == lines[..j];
      if distro.None? {
        ParseDbFails(distro, st, lines, j + 1);
        return Failure(NameError("distro"));
      }
      var next := ReadDbLine(distro.value, state, lines[j]);
      if next.Failure? {
        ParseDbFails(distro, st, lines, j + 1);
        return next;
      }
      state := next.value;
      j := j + 1;
    }
    assert lines[..j] == lines;
    return Success(state);
  }

  /** One of the first n sources.list entries enables the MCP PPA. */
  predicate McpAmong(sources: seq<string>, n: nat)
    requires n <= |sources|
  {
    exists m :: 0 <= m < n && McpEntry(sources[m])
  }

  /** The loop over the sources.list entries, stopping at the first enabled MCP entry. */
  method FindMcpSource(sources: seq<string>) returns (found: bool)
    ensures found <==> McpAmong(sources, |sources|)
  {
    found := false;
    var k := 0;
    while k < |sources|
      invariant 0 <= k <= |sources|
      invariant !found && !McpAmong(sources, k)
    {
      if McpEntry(sources[k]) {
        found := true;
        break;
      }
      k := k + 1;
    }
  }

  /** The first half of `captureState`: /etc/lsb-release, then repos.db, then the
      fallback when no line named the codename. */
  method ReadDb(lsb: seq<string>, db: Option<seq<string>>, prior: DbState) returns (r: Result<DbState, ReposError>)
    ensures r == CaptureDb(lsb, db, prior)
  {
    var codename := ReadCodename(lsb);
    if codename.Failure? {
      return Failure(codename.error);
    }
    var st := prior.(versions := [], numRepos := 0);
    if db.Some? {
      var parsed := ReadReposDb(codename.value, st, db.value);
      if parsed.Failure? {
        return Failure(parsed.error);
      }
      st := parsed.value;
    }
    if st.numRepos == 0 {
      st := st.(versions := st.versions + ["0"], curVer := Some("0"), downloadUrl := Some(DEFAULT_URL));
    }
    return Success(st);
  }

  /** The whole of `captureState` on its inputs. */
  function CaptureSpec(lsb: seq<string>, db: Option<seq<string>>, prior: DbState, cfgActivated: Option<bool>,
                       cfgRepo: Option<string>, sources: seq<string>): Result<(DbState, Choice), ReposError>
  {
    match CaptureDb(lsb, db, prior)
    case Failure(e) => Failure(e)
    case Success(st) => Success((st, CaptureChoice(st.versions, cfgActivated, cfgRepo, sources)))
  }

  /** `MythbuntuReposPlugin`: the parent's change set and the attributes `captureState`
      sets (None: never set). */
  class ReposPlugin {
    const plugin: Plugin.MCPPlugin
    var versions: seq<string>
    var curVer: Option<string>
    var trunkPass: Option<string>
    var downloadUrl: Option<string>
    var changes: Option<Choice>

    /** `__init__`: the parent with the plugin's name, icon and page. */
    constructor ()
      ensures fresh(plugin) && plugin.Valid() && plugin.RawChanges() == Plugin.NoChanges
      ensures plugin.information == map["name" := "Repositories", "icon" := "emblem-downloads", "ui" := "tab_repos"]
      ensures versions == [] && curVer.None? && trunkPass.None? && downloadUrl.None? && changes.None?
    {
      plugin := new Plugin.MCPPlugin(map["name" := "Repositories", "icon" := "emblem-downloads", "ui" := "tab_repos"]);
      versions := [];
      curVer := None;
      trunkPass := None;
      downloadUrl := None;
      changes := None;
    }

    function Prior(): DbState
      reads this
    {
      DbState(versions, 0, curVer, trunkPass, downloadUrl)
    }

    /** `captureState` on the lines of /etc/lsb-release, repos.db (None: no such file),
        the config values and the sources.list entries. On an error nothing is updated. */
    method CaptureState(lsb: seq<string>, db: Option<seq<string>>, cfgActivated: Option<bool>,
                        cfgRepo: Option<string>, sources: seq<string>) returns (err: Option<ReposError>)
      modifies this
      ensures match CaptureSpec(lsb, db, old(Prior()), cfgActivated, cfgRepo, sources)
              case Failure(e) => err == Some(e) && unchanged(this)
              case Success(r) =>
                err.None? && versions == r.0.versions && curVer == r.0.curVer && trunkPass == r.0.trunkPass
                && downloadUrl == r.0.downloadUrl && changes == Some(r.1)
    {
      var read := ReadDb(lsb, db, Prior());
      if read.Failure? {
        return Some(read.error);
      }
      var st := read.value;
      var activated := if cfgActivated.Some? then cfgActivated.value else false;
      var repo := if cfgRepo.Some? then cfgRepo.value else st.versions[0];
      var mcp := FindMcpSource(sources);
      versions, curVer, trunkPass, downloadUrl := st.versions, st.curVer, st.trunkPass, st.downloadUrl;
      changes := Some(Choice(activated, repo, mcp));
      return None;
    }

    /** The end of `compareState`: Repo-list when send holds, then the MCP check box
        when it changed. */
    method MarkTail(send: bool, mcpChanged: bool, mcpChecked: bool)
      requires plugin.Valid()
      modifies plugin
      ensures plugin.Valid() && plugin.incomplete == old(plugin.incomplete)
      ensures plugin.RawChanges() == old(plugin.RawChanges()).(reconfigureRoot :=
                Tail(old(plugin.toReconfigureRoot), send, versions, if mcpChanged then Some(mcpChecked) else None).marks)
    {
      var e: Option<Plugin.PluginError>;
      if send {
        e := plugin.MarkReconfigureRoot(REPO_LIST, Plugin.Texts(versions), true);
      }
      if mcpChanged {
        e := plugin.MarkReconfigureRoot(MCP, Plugin.Flag(mcpChecked), true);
      }
    }

    /** The series branch of `compareState`: the checks on the edited series and the
        marks it makes on top of those already made. */
    method MarkSeries(w: Widgets, text: string, c: Choice) returns (err: Option<ReposError>, accepted: bool)
      requires plugin.Valid() && w.repoText == Some(text)
      modifies plugin
      ensures plugin.Valid() && plugin.incomplete == old(plugin.incomplete)
      ensures var s := SeriesDecision(w, text, c, curVer, trunkPass);
              if s.Raised? then err == Some(s.e) && plugin.RawChanges() == old(plugin.RawChanges())
              else err.None? && accepted == s.Accepted? &&
                   plugin.RawChanges() == old(plugin.RawChanges()).(reconfigureRoot :=
                     SeriesDict(old(plugin.toReconfigureRoot), s, text, w.updatesChecked))
    {
      accepted := false;
      ghost var s := SeriesDecision(w, text, c, curVer, trunkPass);
      var selVer := ConvertVersion(text);
      var e: Option<Plugin.PluginError>;
      if w.repoSensitive {
        if text != c.repo || w.updatesChecked != c.activated {
          if curVer.None? {
            return Some(AttributeError("CurVer")), false;
          }
          var newer := StrLt(curVer.value, selVer);
          if newer && trunkPass.None? {
            return Some(AttributeError("TRUNKPASS")), false;
          }
          if (newer && w.password == trunkPass.value) || StrLe(selVer, curVer.value) {
            assert s == Accepted;
            e := plugin.MarkReconfigureRoot(REPO, Plugin.Text(text), true);
            e := plugin.MarkReconfigureRoot(ACTIVATED, Plugin.Flag(w.updatesChecked), true);
            accepted := true;
          } else {
            assert s == Refused;
            if !w.updatesChecked {
              e := plugin.MarkReconfigureRoot(ACTIVATED, Plugin.Flag(w.updatesChecked), true);
            }
          }
          return None, accepted;
        }
      }
      assert s == Untouched;
      return None, accepted;
    }

    /** The marks `compareState` makes once the series text and the capture are known:
        the deactivation, the series branch, then the Repo-list and MCP marks. */
    method MarkChoice(w: Widgets, text: string, c: Choice) returns (err: Option<ReposError>)
      requires plugin.Valid() && plugin.toReconfigureRoot == [] && w.repoText == Some(text)
      modifies plugin
      ensures plugin.Valid() && plugin.incomplete == old(plugin.incomplete)
      ensures var o := MarksFor(Deactivating(w, c), SeriesDecision(w, text, c, curVer, trunkPass), text,
                                w.updatesChecked, versions,
                                if w.mcpChecked != c.mcpActivated then Some(w.mcpChecked) else None);
              err == o.err && plugin.RawChanges() == old(plugin.RawChanges()).(reconfigureRoot := o.marks)
    {
      var sendList := false;
      var e: Option<Plugin.PluginError>;
      ghost var d1 := if Deactivating(w, c) then Plugin.DictSet([], ACTIVATED, Plugin.Flag(false)) else [];
      ghost var s := SeriesDecision(w, text, c, curVer, trunkPass);
      if w.updatesChecked != c.activated && !w.updatesChecked {
        e := plugin.MarkReconfigureRoot(ACTIVATED, Plugin.Flag(w.updatesChecked), true);
        sendList := true;
      }
      assert plugin.toReconfigureRoot == d1;
      var raised, accepted := MarkSeries(w, text, c);
      if raised.Some? {
        return raised;
      }
      sendList := sendList || accepted;
      ghost var d2 := plugin.toReconfigureRoot;
      assert d2 == SeriesDict(d1, s, text, w.updatesChecked);
      assert sendList == (Deactivating(w, c) || s.Accepted?);
      ghost var mcp := if w.mcpChecked != c.mcpActivated then Some(w.mcpChecked) else None;
      assert MarksFor(Deactivating(w, c), s, text, w.updatesChecked, versions, mcp) == Tail(d2, sendList, versions, mcp);
      MarkTail(sendList, w.mcpChecked != c.mcpActivated, w.mcpChecked);
      return None;
    }

    /** `compareState`: clears the parent's marks, then marks what the widgets change. */
    method CompareState(w: Widgets) returns (err: Option<ReposError>)
      modifies plugin
      ensures var o := CompareMarks(w, versions, curVer, trunkPass, changes);
              err == o.err && plugin.RawChanges() == Plugin.NoChanges.(reconfigureRoot := o.marks)
      ensures plugin.Valid() && plugin.incomplete == old(plugin.incomplete)
    {
      plugin.ClearParentState();
      if w.repoText.None? {
        return Some(AttributeError("endswith"));
      }
      if changes.None? {
        return Some(AttributeError("changes"));
      }
      err := MarkChoice(w, w.repoText.value, changes.value);
    }
  }
}
