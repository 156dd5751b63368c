/** A text file as Python's line iteration sees it (`for line in f`,
    `f.readlines()`): the universal-newline translation of text mode, then the split
    after each newline; and the text a loop of `out += line` writes back. */
module TextLines {
  import opened Strings

  /** The text a file opened in text mode reads as: "\r\n" and a lone "\r" each
      become "\n" (universal newlines); every other character is kept. */
  function Universal(t: string): (u: string)
    ensures '\r' !in u
    decreases |t|
  {
    if t == [] then []
    else if t[0] == '\r' then "\n" + Universal(if |t| > 1 && t[1] == '\n' then t[2..] else t[1..])
    else [t[0]] + Universal(t[1..])
  }

  /** A text without carriage returns reads as itself. */
  lemma {:induction false} UniversalPlain(t: string)
    requires '\r' !in t
    ensures Universal(t) == t
    decreases |t|
  {
    if t != [] {
      assert t == [t[0]] + t[1..];
      UniversalPlain(t[1..]);
    }
  }

  /** A text ending in a line break ("\n", or "\r" alone) reads as one ending in a
      newline. */
  lemma {:induction false} UniversalTerminated(t: string)
    ensures t == [] || t[|t| - 1] == '\n' || t[|t| - 1] == '\r' ==>
              var u := Universal(t); u == [] || u[|u| - 1] == '\n'
    decreases |t|
  {
    if t != [] && (t[|t| - 1] == '\n' || t[|t| - 1] == '\r') {
      var rest := if t[0] == '\r' && |t| > 1 && t[1] == '\n' then t[2..] else t[1..];
      assert rest != [] ==> rest[|rest| - 1] == t[|t| - 1];
      UniversalTerminated(rest);
    }
  }

  /** The lines `for line in f` yields from a file holding t. */
  function FileLines(t: string): (ls: seq<string>)
    ensures forall i :: 0 <= i < |ls| ==> IsPiece(ls[i]) && '\r' !in ls[i]
    ensures (t == [] || t[|t| - 1] == '\n' || t[|t| - 1] == '\r') ==> forall i :: 0 <= i < |ls| ==> IsLine(ls[i])
  {
    var u := Universal(t);
    ReadLinesWithout(u, '\r');
    UniversalTerminated(t);
    ReadLines(u)
  }

  /** Splitting introduces no character. */
  lemma {:induction false} ReadLinesWithout(t: string, c: char)
    requires c !in t
    ensures forall i :: 0 <= i < |ReadLines(t)| ==> c !in ReadLines(t)[i]
    decreases |t|
  {
    if t != [] {
      var k := NewlineIndex(t);
      if k < |t| {
        assert c !in t[..k + 1];
        ReadLinesWithout(t[k + 1..], c);
      }
    }
  }

  /** Lines without carriage returns, written, hold none. */
  lemma {:induction false} JoinWithout(ls: seq<string>, c: char)
    requires forall i :: 0 <= i < |ls| ==> c !in ls[i]
    ensures c !in Join(ls)
  {
    if ls != [] {
      JoinWithout(ls[1..], c);
    }
  }

  /** Complete lines without carriage returns, written and read back from the file,
      are the same lines. */
  lemma FileLinesJoin(ls: seq<string>)
    requires forall i :: 0 <= i < |ls| ==> IsLine(ls[i]) && '\r' !in ls[i]
    ensures FileLines(Join(ls)) == ls
  {
    JoinWithout(ls, '\r');
    UniversalPlain(Join(ls));
    ReadLinesJoin(ls);
  }

  /** Index of the first newline in t, or |t| when there is none. */
  function NewlineIndex(t: string): (k: nat)
    ensures k <= |t| && (k < |t| ==> t[k] == '\n') && '\n' !in t[..k]
  {
    if t == [] || t[0] == '\n' then 0
    else
      var k := 1 + NewlineIndex(t[1..]);
      assert t[..k] == [t[0]] + t[1..][..k - 1];
      k
  }

  /** A complete line: ends in its one newline. */
  predicate IsLine(l: string) {
    |l| > 0 && l[|l| - 1] == '\n' && '\n' !in l[..|l| - 1]
  }

  /** A piece of a line split: non-empty, a newline at most at its end. */
  predicate IsPiece(l: string) {
    |l| > 0 && '\n' !in l[..|l| - 1]
  }

  /** The lines of t, each keeping its newline; a last line without one is kept too. */
  function ReadLines(t: string): (ls: seq<string>)
    ensures forall i :: 0 <= i < |ls| ==> IsPiece(ls[i])
    ensures forall i :: 0 <= i < |ls| - 1 ==> IsLine(ls[i])
    ensures (t == [] || t[|t| - 1] == '\n') ==> forall i :: 0 <= i < |ls| ==> IsLine(ls[i])
    decreases |t|
  {
    if t == [] then []
    else
      var k := NewlineIndex(t);
      if k == |t| then [t]
      else
        assert t[..k + 1][..k] == t[..k];
        var rest := ReadLines(t[k + 1..]);
        assert k + 1 < |t| ==> t[k + 1..][|t[k + 1..]| - 1] == t[|t| - 1];
        [t[..k + 1]] + rest
  }

  /** The text written by appending every line in turn. */
  function Join(ls: seq<string>): string {
    if ls == [] then "" else ls[0] + Join(ls[1..])
  }

  lemma JoinAppend(ls: seq<string>, l: string)
    ensures Join(ls + [l]) == Join(ls) + l
  {
    if ls != [] {
      assert (ls + [l])[1..] == ls[1..] + [l];
      JoinAppend(ls[1..], l);
    }
  }

  /** Writing two runs of lines one after the other writes their concatenation. */
  lemma {:induction false} JoinConcat(a: seq<string>, b: seq<string>)
    ensures Join(a + b) == Join(a) + Join(b)
  {
    if a == [] {
      assert a + b == b;
    } else {
      assert (a + b)[0] == a[0];
      assert (a + b)[1..] == a[1..] + b;
      JoinConcat(a[1..], b);
      assert Join(a + b) == a[0] + Join(a[1..] + b);
    }
  }

  /** A newline-free text with a newline after it is a complete line. */
  lemma LineOf(s: string)
    requires '\n' !in s
    ensures IsLine(s + "\n")
  {
    assert |s + "\n"| == |s| + 1;
    assert (s + "\n")[..|s|] == s;
  }

  lemma Join2(a: string, b: string)
    ensures Join([a, b]) == a + b
  {
    assert [a, b][1..] == [b];
    assert [b][1..] == [];
    assert Join([b]) == b;
  }

  lemma Join3(a: string, b: string, c: string)
    ensures Join([a, b, c]) == a + b + c
  {
    assert [a, b, c][1..] == [b, c];
    Join2(b, c);
  }

  /** Complete lines written one after another leave a text ending in a newline (or
      no text at all). */
  lemma {:induction false} JoinLinesTerminated(ls: seq<string>)
    requires forall i :: 0 <= i < |ls| ==> IsLine(ls[i])
    ensures var t := Join(ls); t == [] || t[|t| - 1] == '\n'
  {
    if ls != [] {
      JoinLinesTerminated(ls[1..]);
      var rest := Join(ls[1..]);
      assert Join(ls) == ls[0] + rest;
      if rest == [] {
        assert Join(ls)[|Join(ls)| - 1] == ls[0][|ls[0]| - 1];
      } else {
        assert Join(ls)[|Join(ls)| - 1] == rest[|rest| - 1];
      }
    }
  }

  /** Splitting and writing back reproduces the text. */
  lemma {:induction false} JoinReadLines(t: string)
    ensures Join(ReadLines(t)) == t
    decreases |t|
  {
    if t != [] {
      var k := NewlineIndex(t);
      if k < |t| {
        JoinReadLines(t[k + 1..]);
        assert t[..k + 1] + t[k + 1..] == t;
      }
    }
  }

  /** Writing complete lines and reading them back gives the same lines. */
  lemma {:induction false} ReadLinesJoin(ls: seq<string>)
    requires forall i :: 0 <= i < |ls| ==> IsLine(ls[i])
    ensures ReadLines(Join(ls)) == ls
  {
    if ls != [] {
      var l := ls[0];
      var t := Join(ls);
      assert t == l + Join(ls[1..]);
      NewlineAt(l, Join(ls[1..]));
      assert t[..|l|] == l;
      assert t[|l|..] == Join(ls[1..]);
      ReadLinesJoin(ls[1..]);
    }
  }

  lemma NewlineAt(l: string, rest: string)
    requires IsLine(l)
    ensures NewlineIndex(l + rest) == |l| - 1
  {
    var t := l + rest;
    var k := NewlineIndex(t);
    assert t[|l| - 1] == '\n';
    assert forall j :: 0 <= j < |l| - 1 ==> t[j] == l[..|l| - 1][j];
  }

  /** Each piece followed by a newline, as `out += text + "\n"` writes it. */
  function Terminated(ls: seq<string>): (r: seq<string>)
    ensures |r| == |ls| && forall i :: 0 <= i < |ls| ==> r[i] == ls[i] + "\n"
  {
    if ls == [] then [] else [ls[0] + "\n"] + Terminated(ls[1..])
  }

  /** Newline-free texts, once terminated, read back as themselves. */
  lemma ReadTerminated(ls: seq<string>)
    requires forall i :: 0 <= i < |ls| ==> '\n' !in ls[i]
    ensures ReadLines(Join(Terminated(ls))) == Terminated(ls)
  {
    var r := Terminated(ls);
    forall i | 0 <= i < |r| ensures IsLine(r[i]) {
      assert r[i][..|r[i]| - 1] == ls[i];
    }
    ReadLinesJoin(r);
  }

  /** Newline-free texts without carriage returns, once terminated, read back from
      the file as themselves. */
  lemma FileTerminated(ls: seq<string>)
    requires forall i :: 0 <= i < |ls| ==> '\n' !in ls[i] && '\r' !in ls[i]
    ensures FileLines(Join(Terminated(ls))) == Terminated(ls)
  {
    var r := Terminated(ls);
    forall i | 0 <= i < |r| ensures '\r' !in r[i] {
      assert r[i] == ls[i] + "\n";
    }
    JoinWithout(r, '\r');
    UniversalPlain(Join(r));
    ReadTerminated(ls);
  }

  /** Stripping a line without carriage returns leaves none in it. */
  lemma StripPlain(l: string)
    requires '\r' !in l
    ensures '\r' !in Strip(l)
  {
    StripByDropsLast(l, IsSpace, '\r');
  }

  /** Stripping a line read from a file leaves no newline in it. */
  lemma StripPiece(l: string)
    requires IsPiece(l)
    ensures '\n' !in Strip(l)
  {
    assert forall j :: 0 <= j < |l| - 1 ==> l[j] == l[..|l| - 1][j];
    StripByDropsLast(l, IsSpace, '\n');
  }
}
