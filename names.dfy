/** The string operations `fileScanner.js` borrows from JavaScript and Node:
    lower-casing, `path.extname`, the digit-group regular expression and
    `String.prototype.includes`. */
module FileNames {
  import opened Wrappers

  /** `toLowerCase` on one character, for the ASCII letters. */
  function LowerChar(c: char): char
  {
    if 'A' <= c <= 'Z' then (c as int + 32) as char else c
  }

  /** `toLowerCase` on a string, for the ASCII letters. */
  function Lower(s: string): string
  {
    seq(|s|, i requires 0 <= i < |s| => LowerChar(s[i]))
  }

  /** Lower-casing twice is lower-casing once. */
  lemma LowerIdempotent(s: string)
    ensures Lower(Lower(s)) == Lower(s)
  {
  }

  /** The index of the last '.' in `s`, if there is one. */
  function LastDot(s: string): (r: Option<nat>)
    ensures r.Some? ==> r.value < |s|
  {
    if s == [] then None
    else if s[|s| - 1] == '.' then Some(|s| - 1)
    else LastDot(s[..|s| - 1])
  }

  /** `LastDot` finds a '.' with none after it, and None means no '.'. */
  lemma {:induction false} LastDotSpec(s: string)
    ensures LastDot(s).None? ==> forall i :: 0 <= i < |s| ==> s[i] != '.'
    ensures LastDot(s).Some? ==> LastDot(s).value < |s| && s[LastDot(s).value] == '.'
    ensures LastDot(s).Some? ==> forall i :: LastDot(s).value < i < |s| ==> s[i] != '.'
  {
    if s != [] && s[|s| - 1] != '.' {
      var t := s[..|s| - 1];
      LastDotSpec(t);
      assert forall i :: 0 <= i < |t| ==> t[i] == s[i];
    }
  }

  /** `path.extname` of a base name (a name with no separator in it): the
      suffix that starts at the last '.', or "" when no '.' follows the
      first character, and "" for "..". */
  function Extname(name: string): string
  {
    match LastDot(name)
    case None => ""
    case Some(i) => if i == 0 || name == ".." then "" else name[i..]
  }

  /** The extension is "" exactly when no '.' follows the first character,
      or for ".."; otherwise it is a proper suffix of the name that starts
      with its only '.'. */
  lemma ExtnameSpec(name: string)
    ensures Extname(name) == "" <==> name == ".." || forall i :: 0 < i < |name| ==> name[i] != '.'
    ensures Extname(name) != "" ==> 0 < |Extname(name)| < |name| && Extname(name) == name[|name| - |Extname(name)|..]
    ensures Extname(name) != "" ==> Extname(name)[0] == '.' && forall i :: 0 < i < |Extname(name)| ==> Extname(name)[i] != '.'
  {
    LastDotSpec(name);
    match LastDot(name)
    case None =>
    case Some(i) =>
      if i != 0 && name != ".." {
        var ext := name[i..];
        assert forall j :: 0 < j < |ext| ==> ext[j] == name[i + j];
      }
  }

  /** `LastDot` pinned down by the character at `i` and the part after it. */
  lemma {:induction false} LastDotIs(s: string, i: nat)
    requires i < |s| && s[i] == '.' && '.' !in s[i + 1..]
    ensures LastDot(s) == Some(i)
  {
    var n := |s| - 1;
    if i < n {
      assert s[n] == s[i + 1..][n - (i + 1)];
      var t := s[..n];
      assert t[i + 1..] == s[i + 1..n];
      assert t[i + 1..] == s[i + 1..][..n - (i + 1)];
      LastDotIs(t, i);
    }
  }

  /** A name with no '.' has no last '.'. */
  lemma {:induction false} LastDotNone(s: string)
    requires '.' !in s
    ensures LastDot(s) == None
  {
    if s != [] {
      var t := s[..|s| - 1];
      assert forall c :: c in t ==> c in s;
      LastDotNone(t);
    }
  }

  /** A few values of `path.extname`, as Node computes them. */
  lemma ExtnameExamples()
    ensures Extname("photo.png") == ".png"
    ensures Extname("archive.tar.gz") == ".gz"
    ensures Extname("a.") == "."
    ensures Extname(".x") == ""
    ensures Extname("..") == ""
    ensures Extname("README") == ""
  {
    LastDotIs("photo.png", 5);
    LastDotIs("archive.tar.gz", 11);
    LastDotIs("a.", 1);
    LastDotIs(".x", 0);
    LastDotNone("README");
  }

  /** `\d` in a JavaScript regular expression without the `u` flag. */
  predicate IsDigit(c: char)
  {
    '0' <= c <= '9'
  }

  /** The regular expression `^\d+(_\d+)*$` as a recogniser: a digit, then
      `GroupsTail`. */
  predicate MatchesDigitGroups(s: string)
  {
    |s| > 0 && IsDigit(s[0]) && GroupsTail(s[1..])
  }

  /** What may follow a digit in `\d+(_\d+)*`: more digits, or an underscore
      and a digit and then more of the same. */
  predicate GroupsTail(s: string)
    decreases |s|
  {
    || s == []
    || (IsDigit(s[0]) && GroupsTail(s[1..]))
    || (|s| >= 2 && s[0] == '_' && IsDigit(s[1]) && GroupsTail(s[2..]))
  }

  /** The character at `i` is a digit, or an underscore with a digit right after it. */
  predicate LinkedAt(s: string, i: nat)
    requires i < |s|
  {
    IsDigit(s[i]) || (s[i] == '_' && i + 1 < |s| && IsDigit(s[i + 1]))
  }

  /** Every character is a digit, or an underscore with a digit right after it. */
  predicate LinkedDigits(s: string)
  {
    forall i :: 0 <= i < |s| ==> LinkedAt(s, i)
  }

  /** The language of `\d+(_\d+)*` stated without the automaton: non-empty,
      starting with a digit, made of digits and underscores, and every
      underscore followed by a digit (so none is last and none is doubled). */
  predicate DigitGroups(s: string)
  {
    |s| > 0 && IsDigit(s[0]) && LinkedDigits(s)
  }

  /** `LinkedDigits` checked one character at a time from the front. */
  lemma LinkedDigitsCons(s: string)
    requires s != []
    ensures LinkedDigits(s) <==> LinkedAt(s, 0) && LinkedDigits(s[1..])
  {
    forall i | 0 <= i < |s| - 1
      ensures LinkedAt(s[1..], i) <==> LinkedAt(s, i + 1)
    {
      assert s[1..][i] == s[i + 1];
      if i + 1 < |s| - 1 {
        assert s[1..][i + 1] == s[i + 2];
      }
    }
    if LinkedAt(s, 0) && LinkedDigits(s[1..]) {
      forall i | 0 < i < |s|
        ensures LinkedAt(s, i)
      {
        assert LinkedAt(s[1..], i - 1);
      }
    }
  }

  lemma {:induction false} GroupsTailIff(s: string)
    ensures GroupsTail(s) <==> LinkedDigits(s)
    decreases |s|
  {
    if s != [] {
      LinkedDigitsCons(s);
      GroupsTailIff(s[1..]);
      if |s| >= 2 {
        GroupsTailIff(s[2..]);
        LinkedDigitsCons(s[1..]);
        assert s[1..][1..] == s[2..];
        assert s[1..][0] == s[1];
        if |s| >= 3 {
          assert s[1..][1] == s[2];
        }
      }
    }
  }

  /** The recogniser accepts exactly the language `DigitGroups` describes. */
  lemma {:induction false} MatchesDigitGroupsIff(s: string)
    ensures MatchesDigitGroups(s) <==> DigitGroups(s)
  {
    if |s| > 0 {
      GroupsTailIff(s[1..]);
      LinkedDigitsCons(s);
    }
  }

  /** Names the digit pattern excludes, and names it lets through. */
  lemma DigitGroupsExamples()
    ensures MatchesDigitGroups("123")
    ensures MatchesDigitGroups("123_456")
    ensures !MatchesDigitGroups("123_")
    ensures !MatchesDigitGroups("_123")
    ensures !MatchesDigitGroups("1__2")
    ensures !MatchesDigitGroups("12a")
    ensures !MatchesDigitGroups("")
  {
    MatchesDigitGroupsIff("123");
    MatchesDigitGroupsIff("123_456");
    MatchesDigitGroupsIff("123_");
    MatchesDigitGroupsIff("1__2");
    MatchesDigitGroupsIff("12a");
    assert "123_"[3] == '_';
    assert "1__2"[1] == '_' && "1__2"[2] == '_';
    assert "12a"[2] == 'a';
  }

  /** `t` occurs in `s` starting at index `i`. */
  predicate OccursAt(s: string, t: string, i: int)
  {
    0 <= i && i + |t| <= |s| && s[i..i + |t|] == t
  }

  /** `s.includes(t)`, as a recursive search from the front. */
  predicate Contains(s: string, t: string)
    decreases |s|
  {
    (|t| <= |s| && s[..|t|] == t) || (|s| > 0 && Contains(s[1..], t))
  }

  /** The search finds `t` exactly when `t` occurs somewhere in `s`. */
  lemma {:induction false} ContainsIff(s: string, t: string)
    ensures Contains(s, t) <==> exists i :: OccursAt(s, t, i)
    decreases |s|
  {
    if |s| > 0 {
      ContainsIff(s[1..], t);
      if Contains(s[1..], t) {
        var j :| OccursAt(s[1..], t, j);
        assert s[j + 1..j + 1 + |t|] == s[1..][j..j + |t|];
        assert OccursAt(s, t, j + 1);
      }
      if i :| OccursAt(s, t, i) && i > 0 {
        assert s[1..][i - 1..i - 1 + |t|] == s[i..i + |t|];
        assert OccursAt(s[1..], t, i - 1);
      }
    }
    if |t| <= |s| && s[..|t|] == t {
      assert OccursAt(s, t, 0);
    }
  }
}
