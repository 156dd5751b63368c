/** The remote-control plugin's text handling (plg_remotes.py): the keymap lists
    offered in the two drop-downs, the rewrite of a keycode file into keyboard keys,
    and the `rc_maps.cfg` rewrite that makes the panel's keymap the active one.
    Directory listings and file contents are inputs; the texts written are results. */
module Remotes {
  import opened Wrappers
  import opened Strings
  import opened TextLines

  const TOML := ".toml"

  /** The entries ending in ".toml", with that suffix cut off, in listing order. */
  function TomlNames(entries: seq<string>): (names: seq<string>)
    ensures |names| <= |entries|
  {
    if entries == [] then []
    else if EndsWith(entries[0], TOML) then [entries[0][..|entries[0]| - 5]] + TomlNames(entries[1..])
    else TomlNames(entries[1..])
  }

  /** A keymap drop-down: the keymap names sorted, or the placeholder alone when there
      are none. */
  function KeymapList(entries: seq<string>, placeholder: string): seq<string>
  {
    var names := TomlNames(entries);
    if names == [] then [placeholder] else Sort(names)
  }

  /** The keymaps shipped in /lib/udev/rc_keymaps (an empty listing when the directory
      is missing). */
  function DefaultKeymaps(entries: seq<string>): seq<string> {
    KeymapList(entries, "None installed")
  }

  /** The list holds each keymap name once per file, sorted; with no keymap file it
      is the placeholder alone. */
  lemma KeymapListContents(entries: seq<string>, placeholder: string)
    ensures TomlNames(entries) == [] ==> KeymapList(entries, placeholder) == [placeholder]
    ensures TomlNames(entries) != [] ==>
              Sorted(KeymapList(entries, placeholder))
              && multiset(KeymapList(entries, placeholder)) == multiset(TomlNames(entries))
  {
  }

  /** A name is listed exactly when the listing holds that name followed by ".toml". */
  lemma {:induction false} TomlNamesMembers(entries: seq<string>, n: string)
    ensures n in TomlNames(entries) <==> n + TOML in entries
  {
    if entries != [] {
      TomlNamesMembers(entries[1..], n);
      var e0 := entries[0];
      assert entries == [e0] + entries[1..];
      assert (n + TOML)[|n + TOML| - 5..] == TOML;
      assert (n + TOML)[..|n + TOML| - 5] == n;
      if EndsWith(e0, TOML) {
        assert e0 == e0[..|e0| - 5] + TOML;
        assert TomlNames(entries) == [e0[..|e0| - 5]] + TomlNames(entries[1..]);
      } else {
        assert e0 != n + TOML;
      }
    }
  }

  /** The home folder's keymaps: the loop appending every ".toml" entry, then the sort
      and the placeholder. */
  method HomeKeymaps(entries: seq<string>) returns (homeKeycFls: seq<string>)
    ensures homeKeycFls == KeymapList(entries, "None found in home folder")
  {
    homeKeycFls := [];
    var i := 0;
    while i < |entries|
      invariant 0 <= i <= |entries|
      invariant homeKeycFls + TomlNames(entries[i..]) == TomlNames(entries)
    {
      assert entries[i..][1..] == entries[i + 1..];
      var item := entries[i];
      if EndsWith(item, TOML) {
        homeKeycFls := homeKeycFls + [item[..|item| - 5]];
      }
      i := i + 1;
    }
    assert homeKeycFls == TomlNames(entries);
    homeKeycFls := Sort(homeKeycFls);
    if |homeKeycFls| == 0 {
      homeKeycFls := ["None found in home folder"];
    }
  }

  /** A key name: never empty, no line break in it. */
  type KeyName = s: string | |s| > 0 && '\n' !in s && '\r' !in s witness "KEY"

  /** Remote-control key names, and in the same positions the keyboard keys they are
      rewritten to. */
  const KEYS_1: seq<KeyName> := [
    "KEY_INFO", "KEY_EPG", "KEY_SELECT", "KEY_RECORD", "KEY_CHANNELUP",
    "KEY_CHANNELDOWN", "KEY_PLAY", "KEY_PAUSE", "KEY_REWIND"]
  const KEYS_2: seq<KeyName> := [
    "KEY_FASTFORWARD", "KEY_PREVIOUS", "KEY_NEXT", "KEY_ZOOM", "KEY_STOP",
    "KEY_NUMERIC_1", "KEY_NUMERIC_2", "KEY_NUMERIC_3", "KEY_NUMERIC_4"]
  const KEYS_3: seq<KeyName> := [
    "KEY_NUMERIC_5", "KEY_NUMERIC_6", "KEY_NUMERIC_7", "KEY_NUMERIC_8", "KEY_NUMERIC_9",
    "KEY_NUMERIC_0", "KEY_CLEAR", "KEY_MENU", "KEY_CANCEL"]
  const KEYS_4: seq<KeyName> := [
    "KEY_OK", "KEY_DELETE", "KEY_BACK", "KEY_LAST", "KEY_PLAYPAUSE", "KEY_BLUE",
    "KEY_RED", "KEY_GREEN", "KEY_YELLOW"]
  const TO_REPLACE: seq<KeyName> := KEYS_1 + KEYS_2 + KEYS_3 + KEYS_4
  const KEYBOARD_1: seq<KeyName> := [
    "KEY_I", "KEY_S", "KEY_ENTER", "KEY_R", "KEY_UP", "KEY_DOWN", "KEY_P", "KEY_P",
    "KEY_COMMA"]
  const KEYBOARD_2: seq<KeyName> := [
    "KEY_DOT", "KEY_PAGEUP", "KEY_PAGEDOWN", "KEY_W", "KEY_ESC", "KEY_1", "KEY_2",
    "KEY_3", "KEY_4"]
  const KEYBOARD_3: seq<KeyName> := [
    "KEY_5", "KEY_6", "KEY_7", "KEY_8", "KEY_9", "KEY_0", "KEY_ESC", "KEY_M", "KEY_ESC"]
  const KEYBOARD_4: seq<KeyName> := [
    "KEY_ENTER", "KEY_D", "KEY_ESC", "KEY_H", "KEY_P", "KEY_F5", "KEY_F2", "KEY_F3",
    "KEY_F4"]
  const REPLACE_WITH: seq<KeyName> := KEYBOARD_1 + KEYBOARD_2 + KEYBOARD_3 + KEYBOARD_4

  /** The two tables have 36 entries each, paired by position. */
  lemma TablesPaired()
    ensures |TO_REPLACE| == |REPLACE_WITH| == 36
  {
  }

  /** The first position at or after `from` of a table whose key occurs in the line. */
  function FirstKey(s: string, keys: seq<KeyName>, from: nat): (r: Option<nat>)
    requires from <= |keys|
    ensures r.Some? ==> from <= r.value < |keys| && Contains(s, keys[r.value])
                        && forall j :: from <= j < r.value ==> !Contains(s, keys[j])
    ensures r.None? ==> forall j :: from <= j < |keys| ==> !Contains(s, keys[j])
    decreases |keys| - from
  {
    if from == |keys| then None
    else if Contains(s, keys[from]) then Some(from)
    else FirstKey(s, keys, from + 1)
  }

  /** A stripped line of the keycode file: the first key of the table that occurs in
      it replaced everywhere in it by its keyboard key. */
  function RewriteStripped(stripped: string): string
  {
    match FirstKey(stripped, TO_REPLACE, 0)
    case None => stripped
    case Some(i) => ReplaceAll(stripped, TO_REPLACE[i], REPLACE_WITH[i])
  }

  /** One line of the keycode file: stripped, then rewritten. */
  function RewriteKeyLine(line: string): string
  {
    RewriteStripped(Strip(line))
  }

  function RewriteKeyLines(lines: seq<string>): (r: seq<string>)
    ensures |r| == |lines| && forall i :: 0 <= i < |lines| ==> r[i] == RewriteKeyLine(lines[i])
  {
    seq(|lines|, i requires 0 <= i < |lines| => RewriteKeyLine(lines[i]))
  }

  lemma RewriteKeyLinesPrefix(lines: seq<string>, n: nat)
    requires n < |lines|
    ensures RewriteKeyLines(lines[..n + 1]) == RewriteKeyLines(lines[..n]) + [RewriteKeyLine(lines[n])]
  {
  }

  /** The keycode file as `user_scripted_changes` writes it back. */
  function KeycodeText(text: string): string {
    Join(Terminated(RewriteKeyLines(FileLines(text))))
  }

  /** The inner search over the table, which stops at the first key found in the
      stripped line. */
  method ReplaceFirstKey(strippedLine: string) returns (newLine: string)
    ensures newLine == RewriteStripped(strippedLine)
  {
    newLine := strippedLine;
    var i := 0;
    while i < |TO_REPLACE|
      invariant 0 <= i <= |TO_REPLACE|
      invariant FirstKey(strippedLine, TO_REPLACE, 0) == FirstKey(strippedLine, TO_REPLACE, i)
      invariant newLine == strippedLine
    {
      if Contains(strippedLine, TO_REPLACE[i]) {
        newLine := ReplaceAll(strippedLine, TO_REPLACE[i], REPLACE_WITH[i]);
        return;
      }
      i := i + 1;
    }
  }

  /** The loop over the keycode file's lines. */
  method ModifyKeycodeFile(text: string) returns (modKcFile: string)
    ensures modKcFile == KeycodeText(text)
  {
    var lines := FileLines(text);
    modKcFile := "";
    var n := 0;
    while n < |lines|
      invariant 0 <= n <= |lines|
      invariant modKcFile == Join(Terminated(RewriteKeyLines(lines[..n])))
    {
      var strippedLine := Strip(lines[n]);
      var newLine := ReplaceFirstKey(strippedLine);
      RewriteKeyLinesPrefix(lines, n);
      WriteLine(RewriteKeyLines(lines[..n]), newLine);
      modKcFile := modKcFile + newLine + "\n";
      n := n + 1;
    }
    assert lines[..n] == lines;
  }

  /** Every rewritten line is a single line, and gains no carriage return. */
  lemma RewriteKeyLineSingle(line: string)
    requires IsPiece(line) && '\r' !in line
    ensures '\n' !in RewriteKeyLine(line) && '\r' !in RewriteKeyLine(line)
  {
    StripPiece(line);
    StripPlain(line);
  }

  /** Read back, the keycode file written has one line per line of the file read,
      each the rewritten line with a newline. */
  lemma KeycodeLines(text: string)
    ensures FileLines(KeycodeText(text)) == Terminated(RewriteKeyLines(FileLines(text)))
    ensures |FileLines(KeycodeText(text))| == |FileLines(text)|
  {
    var lines := FileLines(text);
    var r := RewriteKeyLines(lines);
    forall i | 0 <= i < |r| ensures '\n' !in r[i] && '\r' !in r[i] {
      RewriteKeyLineSingle(lines[i]);
    }
    FileTerminated(r);
  }

  /** A line holding none of the keys is only stripped. */
  lemma NoKeyOnlyStripped(line: string)
    requires forall j :: 0 <= j < |TO_REPLACE| ==> !Contains(Strip(line), TO_REPLACE[j])
    ensures RewriteKeyLine(line) == Strip(line)
  {
    assert FirstKey(Strip(line), TO_REPLACE, 0).None?;
  }

  /** The key applied is the first in table order that occurs in the line, even when
      a later key occurs too. */
  lemma FirstKeyApplied(line: string, i: nat)
    requires i < |TO_REPLACE| && Contains(Strip(line), TO_REPLACE[i])
    requires forall j :: 0 <= j < i ==> !Contains(Strip(line), TO_REPLACE[j])
    ensures RewriteKeyLine(line) == ReplaceAll(Strip(line), TO_REPLACE[i], REPLACE_WITH[i])
  {
    assert FirstKey(Strip(line), TO_REPLACE, 0) == Some(i);
  }

  /** A key that does not occur in the line is passed over. */
  lemma KeySkipped(line: string, keys: seq<KeyName>, j: nat, c: char)
    requires j < |keys| && c in keys[j] && c !in line
    ensures FirstKey(line, keys, j) == FirstKey(line, keys, j + 1)
  {
    MissingCharNotContained(line, keys[j], c);
  }

  /** A line with KEY_PLAY in it and none of I, G, C and R stops the search at
      KEY_PLAY. */
  lemma PlayFirst(line: string)
    requires 'I' !in line && 'G' !in line && 'C' !in line && 'R' !in line
    requires Contains(line, TO_REPLACE[6])
    ensures FirstKey(line, TO_REPLACE, 0) == Some(6)
  {
    KeySkipped(line, TO_REPLACE, 0, 'I');
    KeySkipped(line, TO_REPLACE, 1, 'G');
    KeySkipped(line, TO_REPLACE, 2, 'C');
    KeySkipped(line, TO_REPLACE, 3, 'R');
    KeySkipped(line, TO_REPLACE, 4, 'C');
    KeySkipped(line, TO_REPLACE, 5, 'C');
  }

  lemma PlayPauseStripped(line: string)
    requires line == "KEY_PLAYPAUSE"
    ensures Strip(line) == line
  {
    StripByUnchanged(line, IsSpace);
  }

  lemma PlayPauseHasPlay(line: string)
    requires line == "KEY_PLAYPAUSE"
    ensures 'I' !in line && 'G' !in line && 'C' !in line && 'R' !in line
    ensures Contains(line, TO_REPLACE[6])
  {
    var key := TO_REPLACE[6];
    assert key == "KEY_PLAY";
    assert line[..8] == key;
    ContainsAt(line, key, 0);
  }

  lemma PlayReplaced(line: string)
    requires line == "KEY_PLAYPAUSE"
    ensures ReplaceAll(line, TO_REPLACE[6], REPLACE_WITH[6]) == "KEY_PPAUSE"
  {
    var key := TO_REPLACE[6];
    var r := REPLACE_WITH[6];
    assert key == "KEY_PLAY" && r == "KEY_P";
    var rest := line[8..];
    MissingCharNotContained(rest, key, 'K');
    ReplaceAbsent(rest, key, r);
    assert line[..8] == key;
    assert ReplaceAll(line, key, r) == r + ReplaceAll(rest, key, r);
  }

  /** A KEY_PLAYPAUSE line becomes KEY_PPAUSE, which is no key name, although the
      table pairs KEY_PLAYPAUSE with KEY_P: the earlier KEY_PLAY entry occurs in it
      and wins. */
  lemma PlayPauseRewritten(line: string)
    requires line == "KEY_PLAYPAUSE"
    ensures RewriteKeyLine(line) == "KEY_PPAUSE"
  {
    PlayPauseStripped(line);
    PlayPauseHasPlay(line);
    PlayFirst(line);
    PlayReplaced(line);
  }

  /** The table pairs KEY_PLAYPAUSE with KEY_P. */
  lemma PlayPauseEntry()
    ensures TO_REPLACE[31] == "KEY_PLAYPAUSE" && REPLACE_WITH[31] == "KEY_P"
  {
    assert TO_REPLACE[31] == KEYS_4[4];
    assert REPLACE_WITH[31] == KEYBOARD_4[4];
  }

  /** The table as evidently intended: KEY_PLAYPAUSE tried before KEY_PLAY, whose
      name it contains. */
  const FIXED_KEYS: seq<KeyName> := ["KEY_PLAYPAUSE"] + TO_REPLACE
  const FIXED_KEYBOARD: seq<KeyName> := ["KEY_P"] + REPLACE_WITH

  /** The rewrite of a stripped line with the corrected table. */
  function RewriteStrippedFixed(stripped: string): string
  {
    match FirstKey(stripped, FIXED_KEYS, 0)
    case None => stripped
    case Some(i) => ReplaceAll(stripped, FIXED_KEYS[i], FIXED_KEYBOARD[i])
  }

  /** With the corrected table a KEY_PLAYPAUSE line becomes the key the table pairs
      it with. */
  lemma FixedPlayPause(line: string)
    requires line == "KEY_PLAYPAUSE"
    ensures RewriteStrippedFixed(line) == REPLACE_WITH[31]
  {
    var key := FIXED_KEYS[0];
    assert key == line;
    ContainsAt(line, key, 0);
    assert FirstKey(line, FIXED_KEYS, 0) == Some(0);
    assert line[..|key|] == key;
    assert line[|key|..] == [];
    assert ReplaceAll(line, key, FIXED_KEYBOARD[0]) == FIXED_KEYBOARD[0] + ReplaceAll([], key, FIXED_KEYBOARD[0]);
  }

  /** Putting a key in front of a table that does not occur in the line shifts the
      search's answer by one. */
  lemma {:induction false} FirstKeyPrepend(s: string, k: KeyName, keys: seq<KeyName>, from: nat)
    requires from <= |keys| && !Contains(s, k)
    ensures FirstKey(s, [k] + keys, from + 1) ==
              match FirstKey(s, keys, from)
              case None => None
              case Some(i) => Some(i + 1)
    decreases |keys| - from
  {
    assert ([k] + keys)[from + 1..] == keys[from..];
    if from < |keys| {
      assert ([k] + keys)[from + 1] == keys[from];
      if !Contains(s, keys[from]) {
        FirstKeyPrepend(s, k, keys, from + 1);
      }
    }
  }

  /** The correction changes nothing for a line without KEY_PLAYPAUSE. */
  lemma FixedElsewhereSame(stripped: string)
    requires !Contains(stripped, "KEY_PLAYPAUSE")
    ensures RewriteStrippedFixed(stripped) == RewriteStripped(stripped)
  {
    var k: KeyName := "KEY_PLAYPAUSE";
    FirstKeyPrepend(stripped, k, TO_REPLACE, 0);
    assert FirstKey(stripped, FIXED_KEYS, 0) == FirstKey(stripped, FIXED_KEYS, 1);
  }

  const KEYMAP_DIR := "* * /etc/rc_keymaps/"
  const MCP_KCF := "mcp_kcf.toml"
  const DRIVER_TABLE := "driver table"
  /** The rc_maps.cfg line that selects the panel's keymap for every driver and
      table. */
  const ENTRY := KEYMAP_DIR + MCP_KCF

  /** What one stripped line of rc_maps.cfg becomes: a "driver table" line is kept
      and followed by the entry, other lines naming mcp_kcf.toml are dropped, the rest
      are kept. */
  function CfgLine(s: string): seq<string> {
    if Contains(s, DRIVER_TABLE) then [s, ENTRY]
    else if Contains(s, MCP_KCF) then []
    else [s]
  }

  /** The lines written for the lines read, without their newlines. */
  function CfgLines(lines: seq<string>): seq<string>
  {
    if lines == [] then [] else CfgLine(Strip(lines[0])) + CfgLines(lines[1..])
  }

  /** The rewrite works line by line. */
  lemma {:induction false} CfgLinesConcat(a: seq<string>, b: seq<string>)
    ensures CfgLines(a + b) == CfgLines(a) + CfgLines(b)
  {
    if a == [] {
      assert a + b == b;
    } else {
      assert (a + b)[1..] == a[1..] + b;
      CfgLinesConcat(a[1..], b);
    }
  }

  lemma CfgLinesOne(x: string)
    ensures CfgLines([x]) == CfgLine(Strip(x))
  {
    assert [x][1..] == [];
    assert CfgLines([x]) == CfgLine(Strip(x)) + CfgLines([]);
  }

  lemma CfgLinesPrefix(lines: seq<string>, n: nat)
    requires n < |lines|
    ensures CfgLines(lines[..n + 1]) == CfgLines(lines[..n]) + CfgLine(Strip(lines[n]))
  {
    var x := lines[n];
    CfgLinesConcat(lines[..n], [x]);
    assert lines[..n + 1] == lines[..n] + [x];
    CfgLinesOne(x);
  }

  /** Writing `l + "\n"` after the lines already written. */
  lemma WriteLine(done: seq<string>, l: string)
    ensures Join(Terminated(done + [l])) == Join(Terminated(done)) + l + "\n"
  {
    assert Terminated(done + [l]) == Terminated(done) + [l + "\n"];
    JoinAppend(Terminated(done), l + "\n");
  }

  /** The rc_maps.cfg text as `root_scripted_changes` writes it back. */
  function RcMapsText(text: string): string {
    Join(Terminated(CfgLines(FileLines(text))))
  }

  /** What writing the rewrite of one stripped line adds to the text written so far. */
  lemma WriteCfgLine(done: seq<string>, s: string)
    ensures Contains(s, DRIVER_TABLE) ==>
              Join(Terminated(done + CfgLine(s))) == Join(Terminated(done)) + s + "\n" + ENTRY + "\n"
    ensures !Contains(s, DRIVER_TABLE) && Contains(s, MCP_KCF) ==>
              Join(Terminated(done + CfgLine(s))) == Join(Terminated(done))
    ensures !Contains(s, DRIVER_TABLE) && !Contains(s, MCP_KCF) ==>
              Join(Terminated(done + CfgLine(s))) == Join(Terminated(done)) + s + "\n"
  {
    WriteLine(done, s);
    if Contains(s, DRIVER_TABLE) {
      WriteLine(done + [s], ENTRY);
      assert done + CfgLine(s) == done + [s] + [ENTRY];
    } else if Contains(s, MCP_KCF) {
      assert done + CfgLine(s) == done;
    }
  }

  /** The loop over rc_maps.cfg in `root_scripted_changes`. */
  method ModifyRcMaps(text: string) returns (modCfgFile: string)
    ensures modCfgFile == RcMapsText(text)
  {
    var lines := FileLines(text);
    modCfgFile := "";
    var n := 0;
    while n < |lines|
      invariant 0 <= n <= |lines|
      invariant modCfgFile == Join(Terminated(CfgLines(lines[..n])))
    {
      CfgLinesPrefix(lines, n);
      var strippedLine := Strip(lines[n]);
      WriteCfgLine(CfgLines(lines[..n]), strippedLine);
      var newLine: string;
      if Contains(strippedLine, DRIVER_TABLE) {
        modCfgFile := modCfgFile + strippedLine + "\n";
        newLine := ENTRY;
      } else if Contains(strippedLine, MCP_KCF) {
        n := n + 1;
        continue;
      } else {
        newLine := strippedLine;
      }
      modCfgFile := modCfgFile + newLine + "\n";
      n := n + 1;
    }
    assert lines[..n] == lines;
  }

  /** The entry names the panel's keymap file. */
  lemma EntryNamesKeymap()
    ensures Contains(ENTRY, MCP_KCF)
  {
    assert ENTRY[|KEYMAP_DIR|..] == MCP_KCF;
    ContainsAt(ENTRY, MCP_KCF, |KEYMAP_DIR|);
  }

  /** The entry is not a "driver table" line. */
  lemma EntryNotDriverTable()
    ensures !Contains(ENTRY, DRIVER_TABLE)
  {
    assert 'v' !in KEYMAP_DIR && 'v' !in MCP_KCF;
    assert 'v' in DRIVER_TABLE by { assert DRIVER_TABLE[3] == 'v'; }
    MissingCharNotContained(ENTRY, DRIVER_TABLE, 'v');
  }

  /** The entry is one line, and `strip()` leaves it alone. */
  lemma EntryClean()
    ensures '\n' !in ENTRY && '\r' !in ENTRY && Strip(ENTRY) == ENTRY
  {
    assert '\n' !in KEYMAP_DIR && '\n' !in MCP_KCF;
    assert '\r' !in KEYMAP_DIR && '\r' !in MCP_KCF;
    assert ENTRY[0] == '*' && ENTRY[|ENTRY| - 1] == 'l';
    StripByUnchanged(ENTRY, IsSpace);
  }

  /** The entry names the panel's keymap file, is not a "driver table" line, is one
      line, and `strip()` leaves it alone. */
  lemma EntryFacts()
    ensures Contains(ENTRY, MCP_KCF) && !Contains(ENTRY, DRIVER_TABLE)
    ensures '\n' !in ENTRY && '\r' !in ENTRY && Strip(ENTRY) == ENTRY
  {
    EntryNamesKeymap();
    EntryNotDriverTable();
    EntryClean();
  }

  /** The entry, written and read back, is dropped by the next rewrite. */
  lemma EntryDropped(t: string)
    requires t == ENTRY + "\n"
    ensures CfgLine(Strip(t)) == []
  {
    EntryFacts();
    StripIgnoresTrailingSpace(ENTRY, '\n');
  }

  /** Every line containing p is directly followed by e. */
  predicate Follows(out: seq<string>, p: string, e: string) {
    forall i :: 0 <= i < |out| && Contains(out[i], p) ==> i + 1 < |out| && out[i + 1] == e
  }

  lemma FollowsCons(x: string, out: seq<string>, p: string, e: string)
    requires Follows(out, p, e) && !Contains(x, p)
    ensures Follows([x] + out, p, e)
  {
    var o := [x] + out;
    forall i | 0 <= i < |o| && Contains(o[i], p) ensures i + 1 < |o| && o[i + 1] == e {
      assert o[i] == out[i - 1];
    }
  }

  lemma FollowsPair(x: string, out: seq<string>, p: string, e: string)
    requires Follows(out, p, e) && !Contains(e, p)
    ensures Follows([x, e] + out, p, e)
  {
    var o := [x, e] + out;
    forall i | 0 <= i < |o| && Contains(o[i], p) ensures i + 1 < |o| && o[i + 1] == e {
      if i >= 2 {
        assert o[i] == out[i - 2];
      }
    }
  }

  /** The entry follows every "driver table" line written. */
  lemma {:induction false} EntryAfterDriverTable(lines: seq<string>)
    ensures Follows(CfgLines(lines), DRIVER_TABLE, ENTRY)
  {
    if lines != [] {
      EntryAfterDriverTable(lines[1..]);
      var s := Strip(lines[0]);
      if Contains(s, DRIVER_TABLE) {
        EntryFacts();
        FollowsPair(s, CfgLines(lines[1..]), DRIVER_TABLE, ENTRY);
      } else if !Contains(s, MCP_KCF) {
        FollowsCons(s, CfgLines(lines[1..]), DRIVER_TABLE, ENTRY);
      }
    }
  }

  /** The lines kept from the file, stripped: all but those naming mcp_kcf.toml without
      being "driver table" lines. */
  function Kept(lines: seq<string>): seq<string> {
    if lines == [] then []
    else
      var s := Strip(lines[0]);
      (if Contains(s, MCP_KCF) && !Contains(s, DRIVER_TABLE) then [] else [s]) + Kept(lines[1..])
  }

  /** The lines other than e. */
  function Without(ls: seq<string>, e: string): seq<string> {
    if ls == [] then [] else (if ls[0] == e then [] else [ls[0]]) + Without(ls[1..], e)
  }

  lemma {:induction false} WithoutConcat(a: seq<string>, b: seq<string>, e: string)
    ensures Without(a + b, e) == Without(a, e) + Without(b, e)
  {
    if a == [] {
      assert a + b == b;
    } else {
      assert (a + b)[1..] == a[1..] + b;
      WithoutConcat(a[1..], b, e);
    }
  }

  lemma WithoutPair(x: string, e: string, p: string)
    requires Contains(x, p) && !Contains(e, p)
    ensures Without([x, e], e) == [x]
  {
    assert x != e;
    assert [x, e][1..] == [e];
    assert [e][1..] == [];
    assert Without([e], e) == [];
  }

  lemma WithoutOne(x: string, e: string)
    requires x != e
    ensures Without([x], e) == [x]
  {
    assert [x][1..] == [];
  }

  /** Apart from the entries it adds, the rewrite keeps the file's lines stripped and
      in order, less those naming mcp_kcf.toml outside a "driver table" line. */
  lemma {:induction false} CfgKeepsOthers(lines: seq<string>)
    ensures Without(CfgLines(lines), ENTRY) == Kept(lines)
  {
    if lines != [] {
      var s := Strip(lines[0]);
      CfgKeepsOthers(lines[1..]);
      WithoutConcat(CfgLine(s), CfgLines(lines[1..]), ENTRY);
      if Contains(s, DRIVER_TABLE) {
        EntryFacts();
        WithoutPair(s, ENTRY, DRIVER_TABLE);
      } else if !Contains(s, MCP_KCF) {
        EntryFacts();
        WithoutOne(s, ENTRY);
      }
    }
  }

  /** Adding a whitespace character at the end does not change what `strip()` gives. */
  lemma {:induction false} StripIgnoresTrailingSpace(s: string, c: char)
    requires IsSpace(c)
    ensures Strip(s + [c]) == Strip(s)
  {
    var l := StripLeftBy(s, IsSpace);
    var l' := StripLeftBy(s + [c], IsSpace);
    StripLeftAppend(s, c);
    if l == [] {
      assert l' == [];
    } else {
      assert l' == l + [c];
      assert StripRightBy(l', IsSpace) == StripRightBy(l'[..|l'| - 1], IsSpace);
      assert l'[..|l'| - 1] == l;
    }
  }

  lemma {:induction false} StripLeftAppend(s: string, c: char)
    requires IsSpace(c)
    ensures StripLeftBy(s, IsSpace) == [] ==> StripLeftBy(s + [c], IsSpace) == []
    ensures StripLeftBy(s, IsSpace) != [] ==> StripLeftBy(s + [c], IsSpace) == StripLeftBy(s, IsSpace) + [c]
    decreases |s|
  {
    if s == [] {
      assert s + [c] == [c];
      assert [c][1..] == [];
    } else {
      assert (s + [c])[1..] == s[1..] + [c];
      assert (s + [c])[0] == s[0];
      StripLeftAppend(s[1..], c);
    }
  }

  /** A file the rewrite has produced: every line is one line that `strip()` leaves
      alone, each "driver table" line is followed by the entry, and no other line
      names mcp_kcf.toml. */
  predicate Settled(out: seq<string>)
    decreases |out|
  {
    if out == [] then true
    else
      var s := out[0];
      '\n' !in s && '\r' !in s && Strip(s) == s &&
      if Contains(s, DRIVER_TABLE) then |out| >= 2 && out[1] == ENTRY && Settled(out[2..])
      else !Contains(s, MCP_KCF) && Settled(out[1..])
  }

  lemma SettledPair(s: string, e: string, rest: seq<string>)
    requires '\n' !in s && '\r' !in s && Strip(s) == s && Contains(s, DRIVER_TABLE) && Settled(rest)
    requires e == ENTRY
    ensures Settled([s, e] + rest)
  {
    assert ([s, e] + rest)[2..] == rest;
  }

  lemma SettledOne(s: string, rest: seq<string>)
    requires '\n' !in s && '\r' !in s && Strip(s) == s && !Contains(s, DRIVER_TABLE) && !Contains(s, MCP_KCF)
    requires Settled(rest)
    ensures Settled([s] + rest)
  {
    assert ([s] + rest)[1..] == rest;
  }

  /** The rewrite of any file read line by line is settled. */
  lemma {:induction false} CfgLinesSettled(lines: seq<string>)
    requires forall i :: 0 <= i < |lines| ==> IsPiece(lines[i]) && '\r' !in lines[i]
    ensures Settled(CfgLines(lines))
  {
    if lines != [] {
      CfgLinesSettled(lines[1..]);
      var s := Strip(lines[0]);
      var rest := CfgLines(lines[1..]);
      assert CfgLines(lines) == CfgLine(s) + rest;
      StripPiece(lines[0]);
      StripPlain(lines[0]);
      StripByIdempotent(lines[0], IsSpace);
      if Contains(s, DRIVER_TABLE) {
        SettledPair(s, ENTRY, rest);
      } else if !Contains(s, MCP_KCF) {
        SettledOne(s, rest);
      } else {
        assert CfgLine(s) + rest == rest;
      }
    }
  }

  /** The lines of a settled file hold no newline. */
  lemma {:induction false} SettledLines(out: seq<string>)
    requires Settled(out)
    ensures forall i :: 0 <= i < |out| ==> '\n' !in out[i] && '\r' !in out[i]
    decreases |out|
  {
    if out != [] {
      if Contains(out[0], DRIVER_TABLE) {
        SettledLines(out[2..]);
        EntryFacts();
        assert forall i :: 2 <= i < |out| ==> out[i] == out[2..][i - 2];
      } else {
        SettledLines(out[1..]);
        assert forall i :: 1 <= i < |out| ==> out[i] == out[1..][i - 1];
      }
    }
  }

  /** Rewriting a settled file changes nothing. */
  lemma {:induction false} SettledFixed(out: seq<string>)
    requires Settled(out)
    ensures CfgLines(Terminated(out)) == out
    decreases |out|
  {
    if out != [] {
      var s := out[0];
      var t := Terminated(out);
      StripIgnoresTrailingSpace(s, '\n');
      if Contains(s, DRIVER_TABLE) {
        SettledFixed(out[2..]);
        assert t[1..][1..] == Terminated(out[2..]);
        EntryDropped(t[1]);
        assert CfgLines(t[1..]) == CfgLines(Terminated(out[2..]));
        assert out == [s, ENTRY] + out[2..];
      } else {
        SettledFixed(out[1..]);
        assert t[1..] == Terminated(out[1..]);
        assert out == [s] + out[1..];
      }
    }
  }

  /** Modifying rc_maps.cfg a second time leaves it as the first time left it. */
  lemma RcMapsIdempotent(text: string)
    ensures RcMapsText(RcMapsText(text)) == RcMapsText(text)
  {
    var out := CfgLines(FileLines(text));
    CfgLinesSettled(FileLines(text));
    SettledLines(out);
    FileTerminated(out);
    SettledFixed(out);
  }
}
