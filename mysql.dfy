/** MySQL settings kept by the control panel (mysql.py, `MySQLHandler`): the
    `bind-address` toggle that rewrites mythtv.cnf line by line, and the stored
    connection configuration.  The file is an input text (None when it cannot be
    opened) and the text written back is the result. */
module MySql {
  import opened Wrappers
  import opened Strings
  import opened TextLines

  const BIND := "bind-address"
  const COMMENTED_BIND := "#" + BIND
  /** The section header written into a file that could not be opened. */
  const SECTION := "[mysqld]\n"

  /** `re.search("^bind-address|^#bind-address", line)` finds a match: the pattern
      is anchored at the start of the line. */
  predicate Matches(line: string) {
    StartsWith(line, BIND) || StartsWith(line, COMMENTED_BIND)
  }

  /** A line starting with neither 'b' nor '#' is not a directive line. */
  lemma NotDirective(line: string)
    requires |line| > 0 && line[0] != 'b' && line[0] != '#'
    ensures !Matches(line)
  {
    assert BIND[0] == 'b' && COMMENTED_BIND[0] == '#';
    assert |BIND| > 0 && |COMMENTED_BIND| > 0;
  }

  /** The line written for the directive: listening on all interfaces, or the same
      line commented out. */
  function Directive(enable: bool): (d: string)
    ensures Matches(d) && IsLine(d)
  {
    var text := if enable then BIND + "=::" else COMMENTED_BIND + "=::";
    assert (text + "\n")[..|BIND|] == BIND || (text + "\n")[..|COMMENTED_BIND|] == COMMENTED_BIND;
    assert '\n' !in text by {
      assert '\n' !in BIND && '\n' !in "=::" && '\n' !in "#";
    }
    LineOf(text);
    text + "\n"
  }

  /** The directive holds no carriage return. */
  lemma DirectivePlain(enable: bool)
    ensures '\r' !in Directive(enable)
  {
    assert '\r' !in BIND && '\r' !in "=::" && '\r' !in "#";
  }

  /** The lines written while going through the file's lines, `found` telling whether
      a directive line has been met already. */
  function Rewrite(lines: seq<string>, enable: bool, found: bool): seq<string>
  {
    if lines == [] then (if found then [] else [Directive(enable)])
    else if !Matches(lines[0]) then [lines[0]] + Rewrite(lines[1..], enable, found)
    else if !found then [Directive(enable)] + Rewrite(lines[1..], enable, true)
    else Rewrite(lines[1..], enable, true)
  }

  /** The text `toggle_mysql_service_config(enable)` leaves in the file. */
  function ToggleText(existing: Option<string>, enable: bool): string
  {
    match existing
    case None => SECTION + Directive(enable)
    case Some(text) => Join(Rewrite(FileLines(text), enable, false))
  }

  /** `toggle_mysql_service_config(enable)`: the loop over `readlines()` with its
      `found` flag, writing to the output as it goes. */
  method ToggleMySqlServiceConfig(existing: Option<string>, enable: bool) returns (written: string)
    ensures written == ToggleText(existing, enable)
  {
    if existing.None? {
      return SECTION + Directive(enable);
    }
    written := WriteRewritten(FileLines(existing.value), enable);
  }

  /** The loop over the file's lines with its `found` flag, writing as it goes. */
  method WriteRewritten(lines: seq<string>, enable: bool) returns (written: string)
    ensures written == Join(Rewrite(lines, enable, false))
  {
    var directive := Directive(enable);
    var found := false;
    written := "";
    ghost var out: seq<string> := [];
    var i := 0;
    while i < |lines|
      invariant 0 <= i <= |lines|
      invariant Rewrite(lines, enable, false) == out + Rewrite(lines[i..], enable, found)
      invariant written == Join(out)
    {
      var line := lines[i];
      RewriteStep(lines[i..], enable, found);
      assert lines[i..][1..] == lines[i + 1..];
      if !Matches(line) {
        ConcatAssoc(out, [line], Rewrite(lines[i + 1..], enable, found));
        JoinAppend(out, line);
        out := out + [line];
        written := written + line;
      } else if !found {
        ConcatAssoc(out, [directive], Rewrite(lines[i + 1..], enable, true));
        JoinAppend(out, directive);
        out := out + [directive];
        written := written + directive;
        found := true;
      }
      i := i + 1;
    }
    assert lines[i..] == [];
    if !found {
      JoinAppend(out, directive);
      out := out + [directive];
      written := written + directive;
    }
    assert Rewrite(lines, enable, false) == out;
  }

  lemma ConcatAssoc(a: seq<string>, b: seq<string>, c: seq<string>)
    ensures a + (b + c) == (a + b) + c
  {
  }

  /** One line of the rewrite: copied, replaced by the directive, or dropped. */
  lemma RewriteStep(lines: seq<string>, enable: bool, found: bool)
    requires lines != []
    ensures Rewrite(lines, enable, found)
            == if !Matches(lines[0]) then [lines[0]] + Rewrite(lines[1..], enable, found)
               else if !found then [Directive(enable)] + Rewrite(lines[1..], enable, true)
               else Rewrite(lines[1..], enable, true)
  {
  }

  /** The lines that do not hold the directive, in order. */
  function Others(lines: seq<string>): (r: seq<string>)
    ensures NoMatch(r)
  {
    if lines == [] then []
    else if Matches(lines[0]) then Others(lines[1..])
    else [lines[0]] + Others(lines[1..])
  }

  predicate NoMatch(lines: seq<string>) {
    forall i :: 0 <= i < |lines| ==> !Matches(lines[i])
  }

  /** How many lines hold the directive. */
  function CountMatching(lines: seq<string>): nat {
    if lines == [] then 0 else (if Matches(lines[0]) then 1 else 0) + CountMatching(lines[1..])
  }

  lemma {:induction false} OthersNoMatch(lines: seq<string>)
    requires NoMatch(lines)
    ensures Others(lines) == lines && CountMatching(lines) == 0
  {
    if lines != [] {
      OthersNoMatch(lines[1..]);
    }
  }

  lemma {:induction false} OthersConcat(a: seq<string>, b: seq<string>)
    ensures Others(a + b) == Others(a) + Others(b)
    ensures CountMatching(a + b) == CountMatching(a) + CountMatching(b)
  {
    if a == [] {
      assert a + b == b;
    } else {
      assert (a + b)[1..] == a[1..] + b;
      OthersConcat(a[1..], b);
    }
  }

  /** Once a directive has been met, later directive lines are dropped and every other
      line is copied. */
  lemma {:induction false} RewriteAfterFound(lines: seq<string>, enable: bool)
    ensures Rewrite(lines, enable, true) == Others(lines)
  {
    if lines != [] {
      RewriteAfterFound(lines[1..], enable);
    }
  }

  /** The directive replaces the first directive line, in place; the lines before it
      are kept, later directive lines are dropped, the rest is kept in order. */
  lemma {:induction false} RewriteFirstMatch(lines: seq<string>, enable: bool, i: nat)
    requires i < |lines| && Matches(lines[i]) && NoMatch(lines[..i])
    ensures Rewrite(lines, enable, false) == lines[..i] + [Directive(enable)] + Others(lines[i + 1..])
  {
    if i == 0 {
      RewriteAfterFound(lines[1..], enable);
    } else {
      assert lines[1..][..i - 1] == lines[..i][1..];
      assert lines[1..][i - 1] == lines[i];
      assert !Matches(lines[..i][0]);
      RewriteFirstMatch(lines[1..], enable, i - 1);
      assert lines[1..][i - 1 + 1..] == lines[i + 1..];
      assert lines[..i] == [lines[0]] + lines[1..][..i - 1];
    }
  }

  /** With no directive line in the file, the directive is appended after all of it. */
  lemma {:induction false} RewriteNoMatch(lines: seq<string>, enable: bool)
    requires NoMatch(lines)
    ensures Rewrite(lines, enable, false) == lines + [Directive(enable)]
  {
    if lines != [] {
      RewriteNoMatch(lines[1..], enable);
    }
  }

  /** Whatever the file held, the lines written hold the directive exactly once and
      keep every other line, in order. */
  lemma RewriteResult(lines: seq<string>, enable: bool)
    ensures CountMatching(Rewrite(lines, enable, false)) == 1
    ensures Others(Rewrite(lines, enable, false)) == Others(lines)
  {
    var d := [Directive(enable)];
    assert CountMatching(d) == 1 && Others(d) == [] by {
      assert d[1..] == [];
    }
    if NoMatch(lines) {
      RewriteNoMatch(lines, enable);
      OthersNoMatch(lines);
      OthersConcat(lines, d);
    } else {
      var i := FirstMatch(lines);
      RewriteFirstMatch(lines, enable, i);
      OthersNoMatch(lines[..i]);
      var rest := Others(lines[i + 1..]);
      OthersNoMatch(rest);
      OthersConcat(lines[..i] + d, rest);
      OthersConcat(lines[..i], d);
      assert lines == lines[..i] + [lines[i]] + lines[i + 1..];
      OthersConcat(lines[..i] + [lines[i]], lines[i + 1..]);
      OthersConcat(lines[..i], [lines[i]]);
      assert [lines[i]][1..] == [];
    }
  }

  /** The position of the first directive line. */
  function FirstMatch(lines: seq<string>): (i: nat)
    requires !NoMatch(lines)
    ensures i < |lines| && Matches(lines[i]) && NoMatch(lines[..i])
  {
    if Matches(lines[0]) then 0
    else
      var j := FirstMatch(lines[1..]);
      assert forall k :: 0 <= k < j + 1 ==> lines[..j + 1][k] == lines[k];
      assert forall k :: 0 <= k < j ==> lines[1..][..j][k] == lines[k + 1];
      j + 1
  }

  /** Rewriting lines that are already rewritten changes nothing. */
  lemma RewriteIdempotent(lines: seq<string>, enable: bool)
    ensures Rewrite(Rewrite(lines, enable, false), enable, false) == Rewrite(lines, enable, false)
  {
    var d := Directive(enable);
    var p: seq<string>, rest: seq<string>;
    if NoMatch(lines) {
      RewriteNoMatch(lines, enable);
      p, rest := lines, [];
    } else {
      var i := FirstMatch(lines);
      RewriteFirstMatch(lines, enable, i);
      p, rest := lines[..i], Others(lines[i + 1..]);
    }
    var out := p + [d] + rest;
    assert Rewrite(lines, enable, false) == out;
    assert out[|p|] == d && out[..|p|] == p && out[|p| + 1..] == rest;
    RewriteFirstMatch(out, enable, |p|);
    OthersNoMatch(rest);
  }

  /** A file that is empty or ends in a line break: `readlines()` then yields
      complete lines only. */
  predicate Terminated(text: string) {
    text == [] || text[|text| - 1] == '\n' || text[|text| - 1] == '\r'
  }

  /** Read back, the file written holds exactly one directive line, and the lines
      that are not directives are those of the file before, in order. */
  lemma ToggleReadsBack(existing: Option<string>, enable: bool)
    requires existing.Some? ==> Terminated(existing.value)
    ensures var lines := FileLines(ToggleText(existing, enable));
            CountMatching(lines) == 1
            && Others(lines) == (if existing.None? then ["[mysqld]\n"] else Others(FileLines(existing.value)))
  {
    var d := Directive(enable);
    match existing {
      case None =>
        var ls := ["[mysqld]\n", d];
        assert IsLine("[mysqld]\n") by { LineOf("[mysqld]"); }
        assert '\r' !in "[mysqld]\n";
        DirectivePlain(enable);
        Join2("[mysqld]\n", d);
        FileLinesJoin(ls);
        NotDirective("[mysqld]\n");
        assert CountMatching([d]) == 1 && Others([d]) == [] by {
          assert [d][1..] == [];
        }
        assert ls[1..] == [d];
      case Some(text) =>
        var out := Rewrite(FileLines(text), enable, false);
        RewriteLines(FileLines(text), enable);
        FileLinesJoin(out);
        RewriteResult(FileLines(text), enable);
    }
  }

  /** Rewriting complete lines without carriage returns writes such lines. */
  lemma {:induction false} RewriteLines(lines: seq<string>, enable: bool)
    requires forall i :: 0 <= i < |lines| ==> IsLine(lines[i]) && '\r' !in lines[i]
    ensures forall i :: 0 <= i < |Rewrite(lines, enable, false)| ==>
              IsLine(Rewrite(lines, enable, false)[i]) && '\r' !in Rewrite(lines, enable, false)[i]
  {
    var out := Rewrite(lines, enable, false);
    DirectivePlain(enable);
    if NoMatch(lines) {
      RewriteNoMatch(lines, enable);
    } else {
      var i := FirstMatch(lines);
      RewriteFirstMatch(lines, enable, i);
      OthersLines(lines[i + 1..]);
    }
  }

  lemma {:induction false} OthersLines(lines: seq<string>)
    ensures forall i :: 0 <= i < |Others(lines)| ==> Others(lines)[i] in lines
  {
    if lines != [] {
      OthersLines(lines[1..]);
    }
  }

  /** Toggling a second time with the same flag leaves the file as the first toggle
      wrote it. */
  lemma ToggleIdempotent(existing: Option<string>, enable: bool)
    requires existing.Some? ==> Terminated(existing.value)
    ensures ToggleText(Some(ToggleText(existing, enable)), enable) == ToggleText(existing, enable)
  {
    var d := Directive(enable);
    var out: seq<string>;
    match existing {
      case None =>
        out := ["[mysqld]\n", d];
        assert IsLine("[mysqld]\n") by { LineOf("[mysqld]"); }
        assert '\r' !in "[mysqld]\n";
        DirectivePlain(enable);
        Join2("[mysqld]\n", d);
        NotDirective("[mysqld]\n");
        assert NoMatch(out[..1]);
        RewriteFirstMatch(out, enable, 1);
        assert out[2..] == [];
        assert Rewrite(out, enable, false) == out;
      case Some(text) =>
        out := Rewrite(FileLines(text), enable, false);
        RewriteLines(FileLines(text), enable);
        RewriteIdempotent(FileLines(text), enable);
    }
    assert ToggleText(existing, enable) == Join(out) && Rewrite(out, enable, false) == out;
    FileLinesJoin(out);
  }

  /** A last line without a newline runs into the directive: a file holding just
      "port=3306", say, becomes "port=3306bind-address=::\n". */
  lemma UnterminatedLastLine(t: string, enable: bool)
    requires '\n' !in t && '\r' !in t && |t| > 0 && t[0] != 'b' && t[0] != '#'
    ensures ToggleText(Some(t), enable) == t + Directive(enable)
    ensures FileLines(ToggleText(Some(t), enable)) == [t + Directive(enable)]
    ensures CountMatching(FileLines(ToggleText(Some(t), enable))) == 0
  {
    UniversalPlain(t);
    assert NewlineIndex(t) == |t|;
    assert ReadLines(t) == [t];
    NotDirective(t);
    RewriteNoMatch([t], enable);
    var d := Directive(enable);
    Join2(t, d);
    var l := t + d;
    assert l[..|l| - 1] == t + d[..|d| - 1];
    assert IsLine(l);
    DirectivePlain(enable);
    assert '\r' !in l;
    FileLinesJoin([l]);
    assert Join([l]) == l;
    NotDirective(l);
    assert [l][1..] == [];
  }

  /** The toggle with an unterminated last line ended first, so that the directive
      always gets a line of its own. */
  function ToggleTextTerminated(existing: Option<string>, enable: bool): string
  {
    match existing
    case None => ToggleText(None, enable)
    case Some(text) => ToggleText(Some(if Terminated(text) then text else text + "\n"), enable)
  }

  /** With the last line ended first, every file read back holds exactly one directive
      line, and toggling again changes nothing. */
  lemma TerminatedToggleReadsBack(existing: Option<string>, enable: bool)
    ensures CountMatching(FileLines(ToggleTextTerminated(existing, enable))) == 1
    ensures ToggleTextTerminated(Some(ToggleTextTerminated(existing, enable)), enable)
            == ToggleTextTerminated(existing, enable)
  {
    var e := match existing
             case None => None
             case Some(text) => Some(if Terminated(text) then text else text + "\n");
    assert e.Some? ==> Terminated(e.value);
    assert ToggleTextTerminated(existing, enable) == ToggleText(e, enable);
    ToggleReadsBack(e, enable);
    ToggleIdempotent(e, enable);
    var out := ToggleText(e, enable);
    assert Terminated(out) by {
      if e.None? {
        assert out == "[mysqld]\n" + Directive(enable);
      } else {
        var ls := Rewrite(FileLines(e.value), enable, false);
        RewriteLines(FileLines(e.value), enable);
        JoinLinesTerminated(ls);
      }
    }
  }

  /** The five connection settings, as `get_config` returns them and `update_config`
      takes them. */
  const CONFIG_KEYS := ["user", "password", "server", "database", "securitypin"]

  /** The default of `__init__`'s `config` argument. */
  const DEFAULT_CONFIG := map["user" := "mythtv", "password" := "mythtv", "server" := "localhost",
                              "database" := "mythconverg", "securitypin" := "0000"]

  predicate Complete(config: map<string, string>) {
    forall k :: k in CONFIG_KEYS ==> k in config
  }

  class MySQLHandler {
    var user: string
    var password: string
    var server: string
    var database: string
    var securitypin: string

    /** `__init__(config)` for a config holding all five keys. */
    constructor (config: map<string, string>)
      requires Complete(config)
      ensures GetConfig() == map k: string | k in CONFIG_KEYS :: config[k]
    {
      user := config["user"];
      password := config["password"];
      server := config["server"];
      database := config["database"];
      securitypin := config["securitypin"];
    }

    /** `get_config()` */
    function GetConfig(): (c: map<string, string>)
      reads this
      ensures c.Keys == set k: string | k in CONFIG_KEYS
    {
      map["user" := user, "password" := password, "server" := server,
          "database" := database, "securitypin" := securitypin]
    }

    /** `update_config(config)`: the fields are assigned in order, so a missing key
        raises KeyError after the fields before it have been assigned. */
    method UpdateConfig(config: map<string, string>) returns (err: Option<string>)
      modifies this
      ensures err.None? <==> Complete(config)
      ensures err.None? ==> GetConfig() == map k: string | k in CONFIG_KEYS :: config[k]
      ensures err.Some? ==> err.value in CONFIG_KEYS && err.value !in config
      ensures user == if "user" in config then config["user"] else old(user)
      ensures password == if "user" in config && "password" in config then config["password"] else old(password)
      ensures server == if "user" in config && "password" in config && "server" in config
                        then config["server"] else old(server)
      ensures database == if "user" in config && "password" in config && "server" in config
                             && "database" in config then config["database"] else old(database)
      ensures securitypin == if Complete(config) then config["securitypin"] else old(securitypin)
    {
      if "user" !in config { return Some("user"); }
      user := config["user"];
      if "password" !in config { return Some("password"); }
      password := config["password"];
      if "server" !in config { return Some("server"); }
      server := config["server"];
      if "database" !in config { return Some("database"); }
      database := config["database"];
      if "securitypin" !in config { return Some("securitypin"); }
      securitypin := config["securitypin"];
      return None;
    }
  }

  /** `MySQLHandler(config)`: KeyError for the first of the five keys that is missing. */
  method NewHandler(config: map<string, string>) returns (r: Result<MySQLHandler, string>)
    ensures r.Success? <==> Complete(config)
    ensures r.Failure? ==> r.error in CONFIG_KEYS && r.error !in config
    ensures r.Failure? ==> exists i :: 0 <= i < |CONFIG_KEYS| && r.error == CONFIG_KEYS[i]
                                       && forall j :: 0 <= j < i ==> CONFIG_KEYS[j] in config
    ensures r.Success? ==> fresh(r.value) && r.value.GetConfig() == map k: string | k in CONFIG_KEYS :: config[k]
  {
    var i := 0;
    while i < |CONFIG_KEYS|
      invariant 0 <= i <= |CONFIG_KEYS| && forall j :: 0 <= j < i ==> CONFIG_KEYS[j] in config
    {
      if CONFIG_KEYS[i] !in config {
        return Failure(CONFIG_KEYS[i]);
      }
      i := i + 1;
    }
    var h := new MySQLHandler(config);
    return Success(h);
  }

  /** The default configuration is complete, so the handler built without arguments
      reports exactly it. */
  lemma DefaultComplete()
    ensures Complete(DEFAULT_CONFIG)
    ensures (map k: string | k in CONFIG_KEYS :: DEFAULT_CONFIG[k]) == DEFAULT_CONFIG
  {
  }
}
