/** The few Python `str` operations the modelled code relies on, over `string`. */
module Strings {
  import opened Wrappers

  /** `s.startswith(p)` */
  predicate StartsWith(s: string, p: string) {
    |p| <= |s| && s[..|p|] == p
  }

  /** `s.endswith(p)` */
  predicate EndsWith(s: string, p: string) {
    |p| <= |s| && s[|s| - |p|..] == p
  }

  /** `p in s`: p occurs in s at some offset. */
  predicate Contains(s: string, p: string)
    decreases |s|
  {
    StartsWith(s, p) || (|s| > 0 && Contains(s[1..], p))
  }

  /** An occurrence of p at offset i witnesses `p in s`. */
  lemma {:induction false} ContainsAt(s: string, p: string, i: nat)
    requires i + |p| <= |s| && s[i..i + |p|] == p
    ensures Contains(s, p)
    decreases i
  {
    if i > 0 {
      assert s[1..][i - 1..i - 1 + |p|] == s[i..i + |p|];
      ContainsAt(s[1..], p, i - 1);
    } else {
      assert s[..|p|] == p;
    }
  }

  /** A character of p that never occurs in s rules out `p in s`. */
  lemma {:induction false} MissingCharNotContained(s: string, p: string, c: char)
    requires c in p && c !in s
    ensures !Contains(s, p)
    decreases |s|
  {
    if |s| > 0 {
      assert forall j :: 0 <= j < |s| - 1 ==> s[1..][j] == s[j + 1];
      MissingCharNotContained(s[1..], p, c);
    }
  }

  /** Offset of the first occurrence of p in s: `s.split(p)[0] == s[..FirstIndex(s, p)]`. */
  function FirstIndex(s: string, p: string): (i: nat)
    requires |p| > 0 && Contains(s, p)
    ensures i + |p| <= |s| && s[i..i + |p|] == p
    ensures !Contains(s[..i], p)
    decreases |s|
  {
    if StartsWith(s, p) then 0
    else
      var j := FirstIndex(s[1..], p);
      assert s[1..][..j] == s[1..1 + j];
      assert s[..1 + j][1..] == s[1..][..j];
      assert s[1..][j..j + |p|] == s[1 + j..1 + j + |p|];
      assert !StartsWith(s[..1 + j], p) by {
        if |p| <= 1 + j {
          assert s[..1 + j][..|p|] == s[..|p|];
        }
      }
      1 + j
  }

  /** Python's `str.isspace()` for one character: the characters `str.strip()` removes. */
  predicate IsSpace(c: char) {
    var n := c as int;
    n == 0x20 || 0x09 <= n <= 0x0d || 0x1c <= n <= 0x1f || n == 0x85 || n == 0xa0
    || n == 0x1680 || 0x2000 <= n <= 0x200a || n == 0x2028 || n == 0x2029
    || n == 0x202f || n == 0x205f || n == 0x3000
  }

  /** `lstrip` by a character class: the longest suffix of s not starting with a member. */
  function StripLeftBy(s: string, strip: char -> bool): (r: string)
    ensures |r| <= |s|
    ensures |r| > 0 ==> !strip(r[0])
    decreases |s|
  {
    if |s| > 0 && strip(s[0]) then StripLeftBy(s[1..], strip) else s
  }

  /** What `lstrip` removes is a prefix of members. */
  lemma {:induction false} StripLeftSuffix(s: string, strip: char -> bool)
    ensures var r := StripLeftBy(s, strip);
            r == s[|s| - |r|..] && forall k :: 0 <= k < |s| - |r| ==> strip(s[k])
    decreases |s|
  {
    if |s| > 0 && strip(s[0]) {
      StripLeftSuffix(s[1..], strip);
      assert forall k :: 1 <= k < |s| ==> s[k] == s[1..][k - 1];
    }
  }

  /** `rstrip` by a character class: the longest prefix of s not ending with a member. */
  function StripRightBy(s: string, strip: char -> bool): (r: string)
    ensures |r| <= |s|
    ensures |r| > 0 ==> !strip(r[|r| - 1])
    decreases |s|
  {
    if |s| > 0 && strip(s[|s| - 1]) then StripRightBy(s[..|s| - 1], strip) else s
  }

  /** What `rstrip` removes is a suffix of members. */
  lemma {:induction false} StripRightPrefix(s: string, strip: char -> bool)
    ensures var r := StripRightBy(s, strip);
            r == s[..|r|] && forall k :: |r| <= k < |s| ==> strip(s[k])
    decreases |s|
  {
    if |s| > 0 && strip(s[|s| - 1]) {
      StripRightPrefix(s[..|s| - 1], strip);
    }
  }

  /** `strip` by a character class: both ends trimmed. */
  function StripBy(s: string, strip: char -> bool): (r: string)
  {
    StripRightBy(StripLeftBy(s, strip), strip)
  }

  /** A string with no strippable first or last character is left alone. */
  lemma StripByUnchanged(s: string, strip: char -> bool)
    requires |s| > 0 ==> !strip(s[0]) && !strip(s[|s| - 1])
    ensures StripBy(s, strip) == s
  {
    assert StripLeftBy(s, strip) == s;
    assert StripRightBy(s, strip) == s;
  }

  /** Stripping a string that already has no strippable ends leaves it alone. */
  lemma StripByIdempotent(s: string, strip: char -> bool)
    ensures StripBy(StripBy(s, strip), strip) == StripBy(s, strip)
  {
    var l := StripLeftBy(s, strip);
    var t := StripBy(s, strip);
    StripRightPrefix(l, strip);
    if |t| > 0 {
      assert t[0] == l[0];
    }
    StripByUnchanged(t, strip);
  }

  /** A character that s holds at most as its strippable last character is
      not in the stripped result. */
  lemma StripByDropsLast(s: string, strip: char -> bool, c: char)
    requires forall k :: 0 <= k < |s| && s[k] == c ==> k == |s| - 1 && strip(c)
    ensures c !in StripBy(s, strip)
  {
    var l := StripLeftBy(s, strip);
    var t := StripBy(s, strip);
    StripLeftSuffix(s, strip);
    StripRightPrefix(l, strip);
    forall j | 0 <= j < |t|
      ensures t[j] != c
    {
      assert t[j] == s[|s| - |l| + j];
    }
  }

  /** `s.strip()`: leading and trailing whitespace removed. */
  function Strip(s: string): string {
    StripBy(s, IsSpace)
  }

  /** `s.strip(chars)`: every leading and trailing member of chars removed. */
  function StripChars(s: string, chars: set<char>): string {
    StripBy(s, c => c in chars)
  }

  /** `s.replace(p, r)`: every non-overlapping occurrence of p, scanning left to right,
      replaced by r. */
  function ReplaceAll(s: string, p: string, r: string): (t: string)
    requires |p| > 0
    ensures forall c :: c in t ==> c in s || c in r
    decreases |s|
  {
    if |s| < |p| then s
    else if s[..|p|] == p then
      assert forall c :: c in s[|p|..] ==> c in s;
      r + ReplaceAll(s[|p|..], p, r)
    else
      assert forall c :: c in s[1..] ==> c in s;
      [s[0]] + ReplaceAll(s[1..], p, r)
  }

  /** Replacing a pattern that does not occur changes nothing. */
  lemma {:induction false} ReplaceAbsent(s: string, p: string, r: string)
    requires |p| > 0 && !Contains(s, p)
    ensures ReplaceAll(s, p, r) == s
    decreases |s|
  {
    if |s| >= |p| {
      ReplaceAbsent(s[1..], p, r);
      assert [s[0]] + s[1..] == s;
    }
  }

  /** `a, b = s.split(sep)`: succeeds exactly when sep occurs once, giving the two sides. */
  function SplitTwo(s: string, sep: char): (r: Option<(string, string)>)
    ensures r.Some? <==> multiset(s)[sep] == 1
    ensures r.Some? ==> s == r.value.0 + [sep] + r.value.1
                        && sep !in r.value.0 && sep !in r.value.1
    decreases |s|
  {
    if |s| == 0 then None
    else if s[0] == sep then
      if sep in s[1..] then
        assert multiset(s) == multiset{sep} + multiset(s[1..]) by { assert s == [s[0]] + s[1..]; }
        None
      else
        assert multiset(s) == multiset{sep} + multiset(s[1..]) by { assert s == [s[0]] + s[1..]; }
        Some(([], s[1..]))
    else
      assert multiset(s) == multiset{s[0]} + multiset(s[1..]) by { assert s == [s[0]] + s[1..]; }
      match SplitTwo(s[1..], sep)
      case None => None
      case Some(pair) => Some(([s[0]] + pair.0, pair.1))
  }

  /** Python's `a <= b` on strings: code-point lexicographic order. */
  predicate StrLe(a: string, b: string)
    decreases |a|
  {
    |a| == 0 || (|b| > 0 && (a[0] < b[0] || (a[0] == b[0] && StrLe(a[1..], b[1..]))))
  }

  /** Python's `a < b` on strings. */
  predicate StrLt(a: string, b: string) {
    StrLe(a, b) && a != b
  }

  /** Any two strings are ordered one way or the other. */
  lemma {:induction false} StrLeTotal(a: string, b: string)
    ensures StrLe(a, b) || StrLe(b, a)
    decreases |a|
  {
    if |a| > 0 && |b| > 0 && a[0] == b[0] {
      StrLeTotal(a[1..], b[1..]);
    }
  }

  /** Two strings each at most the other are equal. */
  lemma {:induction false} StrLeAntisymmetric(a: string, b: string)
    requires StrLe(a, b) && StrLe(b, a)
    ensures a == b
    decreases |a|
  {
    if |a| > 0 {
      StrLeAntisymmetric(a[1..], b[1..]);
      assert a == [a[0]] + a[1..] && b == [b[0]] + b[1..];
    }
  }

  /** Ascending in the order of `list.sort()`. */
  predicate Sorted(s: seq<string>) {
    forall i :: 0 <= i < |s| - 1 ==> StrLe(s[i], s[i + 1])
  }

  /** Insert x into its place. */
  function Insert(x: string, s: seq<string>): (r: seq<string>)
    ensures |r| == |s| + 1 && multiset(r) == multiset(s) + multiset{x}
    ensures r[0] == x || (|s| > 0 && r[0] == s[0])
    ensures Sorted(s) ==> Sorted(r)
  {
    if s == [] then [x]
    else if StrLe(x, s[0]) then [x] + s
    else
      StrLeTotal(x, s[0]);
      var rest := Insert(x, s[1..]);
      assert s == [s[0]] + s[1..];
      assert Sorted(s) ==> Sorted(s[1..]) by {
        if Sorted(s) {
          forall i | 0 <= i < |s[1..]| - 1 ensures StrLe(s[1..][i], s[1..][i + 1]) {
            assert s[1..][i] == s[i + 1] && s[1..][i + 1] == s[i + 2];
          }
        }
      }
      assert Sorted(s) ==> Sorted([s[0]] + rest) by {
        if Sorted(s) {
          forall i | 0 <= i < |rest| ensures StrLe(([s[0]] + rest)[i], ([s[0]] + rest)[i + 1]) {
            if i > 0 {
              assert ([s[0]] + rest)[i] == rest[i - 1] && ([s[0]] + rest)[i + 1] == rest[i];
            }
          }
        }
      }
      [s[0]] + rest
  }

  /** `sorted(s)` for strings: an ascending permutation of s. */
  function Sort(s: seq<string>): (r: seq<string>)
    ensures multiset(r) == multiset(s) && Sorted(r)
  {
    if s == [] then []
    else
      assert s == [s[0]] + s[1..];
      Insert(s[0], Sort(s[1..]))
  }
}
