/** JavaScript's `String.prototype.split` on a one-character separator and
    `Array.prototype.join`, over `seq<char>`, with their round trips. */
module Strings {

  /** `s.split(c)`: the pieces of `s` between the occurrences of `c`, in order.
      The empty string splits into one empty piece. */
  function Split(s: string, c: char): (parts: seq<string>)
    ensures |parts| >= 1
    ensures forall i :: 0 <= i < |parts| ==> c !in parts[i]
    ensures c !in s ==> parts == [s]
    ensures c in s ==> |parts| >= 2
    ensures forall i, x :: 0 <= i < |parts| && x in parts[i] ==> x in s
    ensures parts[0] <= s && (|parts[0]| < |s| ==> s[|parts[0]|] == c)
  {
    if s == [] then [""]
    else
      var rest := Split(s[1..], c);
      assert forall x :: x in s[1..] ==> x in s;
      if s[0] == c then
        assert forall i :: 0 < i < |[""] + rest| ==> ([""] + rest)[i] == rest[i - 1];
        [""] + rest
      else
        assert c !in s ==> c !in s[1..] && [s[0]] + s[1..] == s;
        [[s[0]] + rest[0]] + rest[1..]
  }

  /** `xs.join(sep)`: the elements of `xs` with `sep` between neighbours. */
  function Join(xs: seq<string>, sep: string): (s: string)
    ensures |xs| >= 1 ==> xs[0] <= s
  {
    if |xs| == 0 then ""
    else if |xs| == 1 then xs[0]
    else xs[0] + sep + Join(xs[1..], sep)
  }

  /** A piece free of the separator followed by the separator starts a new piece. */
  lemma {:induction false} SplitCons(a: string, c: char, b: string)
    requires c !in a
    ensures Split(a + [c] + b, c) == [a] + Split(b, c)
  {
    var s := a + [c] + b;
    if a == [] {
      assert s[0] == c && s[1..] == b;
    } else {
      assert s[0] == a[0] && s[1..] == a[1..] + [c] + b;
      SplitCons(a[1..], c, b);
      var rest := Split(s[1..], c);
      assert rest == [a[1..]] + Split(b, c);
      assert Split(s, c) == [[a[0]] + rest[0]] + rest[1..];
      assert [a[0]] + a[1..] == a;
    }
  }

  /** Joining the pieces back with the separator gives the original string. */
  lemma {:induction false} JoinSplit(s: string, c: char)
    ensures Join(Split(s, c), [c]) == s
    decreases |s|
  {
    if c in s {
      var a := Split(s, c)[0];
      assert |a| < |s|;
      var b := s[|a| + 1..];
      assert s == a + [c] + b;
      SplitCons(a, c, b);
      JoinSplit(b, c);
      var rest := Split(b, c);
      assert ([a] + rest)[1..] == rest;
    }
  }

  /** Splitting a join of separator-free pieces gives the pieces back; the
      empty list is the one exception, since it joins to "" which splits into [""]. */
  lemma {:induction false} SplitJoin(xs: seq<string>, c: char)
    requires |xs| >= 1
    requires forall i :: 0 <= i < |xs| ==> c !in xs[i]
    ensures Split(Join(xs, [c]), c) == xs
  {
    if |xs| > 1 {
      SplitJoin(xs[1..], c);
      SplitCons(xs[0], c, Join(xs[1..], [c]));
      assert [xs[0]] + xs[1..] == xs;
    }
  }

  /** Without the non-empty requirement the round trip fails. */
  lemma SplitJoinEmptyList(c: char)
    ensures Split(Join([], [c]), c) == [""] != []
  {
  }

  /** Concatenation is associative. */
  lemma ConcatAssoc<T>(x: seq<T>, y: seq<T>, z: seq<T>)
    ensures x + (y + z) == (x + y) + z
  {
  }

  /** Joining with no separator is concatenating. */
  lemma JoinNoSepCons(xs: seq<string>)
    requires xs != []
    ensures Join(xs, "") == xs[0] + Join(xs[1..], "")
  {
    if |xs| == 1 {
      assert xs[0] + "" == xs[0];
    } else {
      assert xs[0] + "" + Join(xs[1..], "") == xs[0] + Join(xs[1..], "");
    }
  }
}
