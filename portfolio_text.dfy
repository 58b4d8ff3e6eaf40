/** The two string helpers of the portfolio view: `cleanText`, which drops
    the `**` bold markers, and the `./init_<name>.sh` label of a project card. */
module PortfolioText {
  import Strings

  /** The characters of `s` other than `*`, in order. */
  function Unstarred(s: string): (r: string)
    ensures '*' !in r
  {
    if s == [] then [] else (if s[0] == '*' then [] else [s[0]]) + Unstarred(s[1..])
  }

  /** No two adjacent `*` in `s`. */
  predicate NoDoubleStar(s: string)
  {
    forall i :: 0 <= i < |s| - 1 ==> !(s[i] == '*' && s[i + 1] == '*')
  }

  /** `text.replace` with the global pattern for `**`: scanning from the left, each `**` is
      removed. Only `*` are removed, two at a time; every other character keeps
      its place in the order; and no `**` is left, so a run of three stars
      leaves one. */
  function CleanText(s: string): (r: string)
    ensures |r| <= |s| && (|s| - |r|) % 2 == 0
    ensures Unstarred(r) == Unstarred(s)
    ensures NoDoubleStar(r)
    ensures s != [] && s[0] != '*' ==> r != [] && r[0] == s[0]
  {
    if |s| >= 2 && s[0] == '*' && s[1] == '*' then
      assert Unstarred(s) == Unstarred(s[1..]) == Unstarred(s[2..]);
      CleanText(s[2..])
    else if s == [] then []
    else
      var t := CleanText(s[1..]);
      assert ([s[0]] + t)[0] == s[0] && ([s[0]] + t)[1..] == t;
      [s[0]] + t
  }

  /** Text without `**` is left as it is. */
  lemma {:induction false} CleanTextKeepsClean(s: string)
    requires NoDoubleStar(s)
    ensures CleanText(s) == s
  {
    if s != [] {
      assert NoDoubleStar(s[1..]) by {
        forall i | 0 <= i < |s[1..]| - 1
          ensures !(s[1..][i] == '*' && s[1..][i + 1] == '*')
        {
          assert s[1..][i] == s[i + 1] && s[1..][i + 1] == s[i + 2];
        }
      }
      CleanTextKeepsClean(s[1..]);
      if |s| >= 2 {
        assert !(s[0] == '*' && s[1] == '*');
      }
      assert [s[0]] + s[1..] == s;
    }
  }

  /** Dropping the first character keeps text free of `**`. */
  lemma NoDoubleStarTail(a: string)
    requires a != [] && NoDoubleStar(a)
    ensures NoDoubleStar(a[1..])
  {
    forall i | 0 <= i < |a[1..]| - 1
      ensures !(a[1..][i] == '*' && a[1..][i + 1] == '*')
    {
      assert a[1..][i] == a[i + 1] && a[1..][i + 1] == a[i + 2];
    }
  }

  /** The first `**` is the one removed: text before it that holds no `**`
      and does not end in `*` is kept as it is, stars included. */
  lemma {:induction false} CleanTextSkipsPlain(a: string, b: string)
    requires NoDoubleStar(a) && (a == [] || a[|a| - 1] != '*')
    ensures CleanText(a + "**" + b) == a + CleanText(b)
    decreases |a|
  {
    var s := a + "**" + b;
    if a == [] {
      assert s[2..] == b;
    } else {
      var t := a[1..];
      assert s[0] == a[0] && s[1..] == t + "**" + b;
      assert !(s[0] == '*' && s[1] == '*') by {
        if |a| >= 2 {
          assert s[1] == a[1];
        } else {
          assert a[0] == a[|a| - 1];
        }
      }
      assert CleanText(s) == [a[0]] + CleanText(s[1..]);
      NoDoubleStarTail(a);
      assert t == [] || t[|t| - 1] == a[|a| - 1];
      CleanTextSkipsPlain(t, b);
      assert a == [a[0]] + t;
      Strings.ConcatAssoc([a[0]], t, CleanText(b));
    }
  }

  /** A lone `*` before a `**` stays where it was. */
  lemma LoneStarStays()
    ensures CleanText("*a**b") == "*ab"
  {
    assert NoDoubleStar("*a");
    assert "*a**b" == "*a" + "**" + "b";
    CleanTextSkipsPlain("*a", "b");
    CleanTextKeepsClean("b");
  }

  /** Cleaning twice is cleaning once. */
  lemma CleanTextIdempotent(s: string)
    ensures CleanText(CleanText(s)) == CleanText(s)
  {
    CleanTextKeepsClean(CleanText(s));
  }

  /** `name.split(' ')[0]`: the name up to its first space. */
  function FirstWord(name: string): (w: string)
    ensures w <= name && ' ' !in w
    ensures |w| < |name| ==> name[|w|] == ' '
  {
    Strings.Split(name, ' ')[0]
  }

  /** `toLowerCase` on ASCII. */
  function LowerChar(c: char): char
  {
    if 'A' <= c <= 'Z' then (c as int - 'A' as int + 'a' as int) as char else c
  }

  function Lowercase(s: string): (r: string)
    ensures |r| == |s|
    ensures forall i :: 0 <= i < |s| ==> r[i] == LowerChar(s[i])
  {
    if s == [] then [] else [LowerChar(s[0])] + Lowercase(s[1..])
  }

  predicate IsTokenChar(c: char)
  {
    'a' <= c <= 'z' || '0' <= c <= '9'
  }

  /** `replace(/[^a-z0-9]/g, '')`: keep only lower-case letters and digits. */
  function KeepTokenChars(s: string): (r: string)
    ensures |r| <= |s|
    ensures forall i :: 0 <= i < |r| ==> IsTokenChar(r[i])
  {
    if s == [] then []
    else (if IsTokenChar(s[0]) then [s[0]] else []) + KeepTokenChars(s[1..])
  }

  /** The `<name>` in `./init_<name>.sh`: the project name's first
      space-separated word, lower-cased, keeping only `[a-z0-9]`. */
  function InitToken(projectName: string): (t: string)
    ensures |t| <= |FirstWord(projectName)|
    ensures forall i :: 0 <= i < |t| ==> IsTokenChar(t[i])
  {
    KeepTokenChars(Lowercase(FirstWord(projectName)))
  }

  /** The label shown on a project card. */
  function InitScript(projectName: string): (script: string)
    ensures |script| == |InitToken(projectName)| + 10
    ensures script[..7] == "./init_" && script[|script| - 3..] == ".sh"
    ensures script[7..|script| - 3] == InitToken(projectName)
  {
    "./init_" + InitToken(projectName) + ".sh"
  }

  /** A reference definition in one pass: each ASCII letter or digit of the
      word, lower-cased; everything else dropped. */
  function TokenOf(w: string): string
  {
    if w == [] then []
    else
      var c := w[0];
      (if 'a' <= c <= 'z' || 'A' <= c <= 'Z' || '0' <= c <= '9' then [LowerChar(c)] else [])
      + TokenOf(w[1..])
  }

  lemma {:induction false} KeepLowerIsTokenOf(w: string)
    ensures KeepTokenChars(Lowercase(w)) == TokenOf(w)
  {
    if w != [] {
      KeepLowerIsTokenOf(w[1..]);
      assert Lowercase(w)[1..] == Lowercase(w[1..]);
    }
  }

  /** The token keeps exactly the ASCII letters and digits of the first word,
      in order and lower-cased; upper-case letters are kept, not dropped. */
  lemma InitTokenIsAlnumOfFirstWord(projectName: string)
    ensures InitToken(projectName) == TokenOf(FirstWord(projectName))
  {
    KeepLowerIsTokenOf(FirstWord(projectName));
  }

  lemma {:induction false} TokenCharsKept(s: string)
    requires forall i :: 0 <= i < |s| ==> IsTokenChar(s[i])
    ensures Lowercase(s) == s && KeepTokenChars(s) == s
  {
    if s != [] {
      TokenCharsKept(s[1..]);
      assert [s[0]] + s[1..] == s;
    }
  }

  /** Deriving the token of a token gives it back. */
  lemma InitTokenIdempotent(projectName: string)
    ensures InitToken(InitToken(projectName)) == InitToken(projectName)
  {
    var t := InitToken(projectName);
    assert ' ' !in t;
    assert FirstWord(t) == t;
    TokenCharsKept(t);
  }

  /** A name that starts with a space has an empty token: `./init_.sh`. */
  lemma LeadingSpaceEmptyToken(projectName: string)
    requires projectName != [] && projectName[0] == ' '
    ensures InitScript(projectName) == "./init_.sh"
  {
    assert FirstWord(projectName) == [];
  }
}
