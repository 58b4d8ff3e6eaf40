/** The text helpers of the printable résumé view. They strip a leading
    bullet, cut a line into plain and `**bold**` parts, shorten URLs, split a
    skill line into category and items, pick the end-date labels, skip blank
    description lines, and lay out the contact lines with their separators. */
module Preview {
  import opened Optional
  import opened Resume
  import Strings
  import PortfolioText

  // ---------------------------------------------------------------------
  // JavaScript whitespace, `\s` and `trim`.
  // ---------------------------------------------------------------------

  /** The characters `.` does not match in a JavaScript regular expression. */
  predicate IsLineTerminator(c: char)
    ensures c == '\n' || c == '\r' ==> IsLineTerminator(c)
    ensures IsLineTerminator(c) ==> c != '*' && c != ' '
  {
    c == '\n' || c == '\r' || c == '\U{2028}' || c == '\U{2029}'
  }

  /** What `\s` matches and `trim` removes: the ECMAScript white space
      characters and the line terminators. */
  predicate IsJsSpace(c: char)
    ensures IsLineTerminator(c) ==> IsJsSpace(c)
    ensures c == ' ' || c == '\t' ==> IsJsSpace(c)
    ensures IsJsSpace(c) ==> c != '*' && !('a' <= c <= 'z')
  {
    || c == '\t' || c == '\U{000B}' || c == '\U{000C}' || c == ' '
    || c == '\U{00A0}' || c == '\U{1680}' || ('\U{2000}' <= c <= '\U{200A}')
    || c == '\U{202F}' || c == '\U{205F}' || c == '\U{3000}' || c == '\U{FEFF}'
    || IsLineTerminator(c)
  }

  predicate IsBlank(s: string)
  {
    forall i :: 0 <= i < |s| ==> IsJsSpace(s[i])
  }

  /** The longest suffix that does not start with white space. */
  function TrimStart(s: string): (r: string)
    ensures |r| <= |s| && r == s[|s| - |r|..]
    ensures forall i :: 0 <= i < |s| - |r| ==> IsJsSpace(s[i])
    ensures r == [] || !IsJsSpace(r[0])
  {
    if s != [] && IsJsSpace(s[0]) then TrimStart(s[1..]) else s
  }

  /** The longest prefix that does not end with white space. */
  function TrimEnd(s: string): (r: string)
    ensures |r| <= |s| && r == s[..|r|]
    ensures forall i :: |r| <= i < |s| ==> IsJsSpace(s[i])
    ensures r == [] || !IsJsSpace(r[|r| - 1])
  {
    if s != [] && IsJsSpace(s[|s| - 1]) then TrimEnd(s[..|s| - 1]) else s
  }

  /** `s.trim()`: empty exactly when `s` is all white space; otherwise it
      neither starts nor ends with white space. */
  function Trim(s: string): (r: string)
    ensures r == "" <==> IsBlank(s)
    ensures r == [] || (!IsJsSpace(r[0]) && !IsJsSpace(r[|r| - 1]))
  {
    var t := TrimStart(s);
    assert t != [] ==> s[|s| - |t|] == t[0];
    TrimEnd(t)
  }

  // ---------------------------------------------------------------------
  // Leading bullet.
  // ---------------------------------------------------------------------

  /** Bullet, middle dot, en dash, em dash and hyphen. */
  predicate IsBulletMarker(c: char)
    ensures IsBulletMarker(c) ==> !IsJsSpace(c) && c != '*'
    ensures c == '-' ==> IsBulletMarker(c)
  {
    c == '\U{2022}' || c == '\U{00B7}' || c == '\U{2013}' || c == '\U{2014}' || c == '-'
  }

  /** The bullet-stripping `replace` of `renderTextWithBold`: a marker in the
      very first position goes, together with the white space after it. Only
      one marker is removed, and a marker after leading white space stays. */
  function StripBullet(line: string): (r: string)
    ensures |r| <= |line| && r == line[|line| - |r|..]
    ensures line == [] || !IsBulletMarker(line[0]) ==> r == line
    ensures line != [] && IsBulletMarker(line[0]) ==>
      && |r| < |line|
      && (forall i :: 1 <= i < |line| - |r| ==> IsJsSpace(line[i]))
      && (r == [] || !IsJsSpace(r[0]))
  {
    if line != [] && IsBulletMarker(line[0]) then TrimStart(line[1..]) else line
  }

  // ---------------------------------------------------------------------
  // The `**` tokenizer: `split` on a regular expression whose capturing
  // group is two stars, the shortest run of non-line-terminators, and two
  // stars.
  // ---------------------------------------------------------------------

  /** The lazy search for the closing `**` from `k`: the first position with
      `**`, provided no line terminator comes before it. */
  function CloseFrom(s: string, k: nat): (e: Option<nat>)
    requires k <= |s|
    ensures e.Some? ==> k + 2 <= e.value <= |s|
    decreases |s| - k
  {
    if k + 2 <= |s| && s[k] == '*' && s[k + 1] == '*' then Some(k + 2)
    else if k < |s| && !IsLineTerminator(s[k]) then CloseFrom(s, k + 1)
    else None
  }

  /** The closing `**` found is the first one, and no line terminator comes
      before it. */
  lemma {:induction false} CloseFromFirst(s: string, k: nat)
    requires k <= |s| && CloseFrom(s, k).Some?
    ensures var e := CloseFrom(s, k).value;
      && s[e - 2] == '*' && s[e - 1] == '*'
      && forall i :: k <= i < e - 2 ==> !IsLineTerminator(s[i]) && !(s[i] == '*' && s[i + 1] == '*')
    decreases |s| - k
  {
    if !(k + 2 <= |s| && s[k] == '*' && s[k + 1] == '*') {
      CloseFromFirst(s, k + 1);
    }
  }

  /** No line terminator in `s[a..b]`. */
  predicate Unbroken(s: string, a: nat, b: nat)
    requires a <= b <= |s|
  {
    forall i :: a <= i < b ==> !IsLineTerminator(s[i])
  }

  /** When the search fails, no `**` follows `k` on the same line. */
  lemma {:induction false} CloseFromNone(s: string, k: nat)
    requires k <= |s| && CloseFrom(s, k).None?
    ensures forall j :: k <= j && j + 1 < |s| && Unbroken(s, k, j) ==> !(s[j] == '*' && s[j + 1] == '*')
    decreases |s| - k
  {
    if k < |s| && !IsLineTerminator(s[k]) {
      CloseFromNone(s, k + 1);
      forall j | k < j && j + 1 < |s| && Unbroken(s, k, j)
        ensures Unbroken(s, k + 1, j)
      {
      }
    }
  }

  /** A bold span: `**`, text with no line terminator and no `**`, `**`. */
  predicate IsBoldSpan(x: string)
  {
    && |x| >= 4 && x[..2] == "**" && x[|x| - 2..] == "**"
    && (forall i :: 2 <= i < |x| - 2 ==> !IsLineTerminator(x[i]))
    && PortfolioText.NoDoubleStar(x[2..|x| - 2])
  }

  /** Where a match that starts at `q` ends, if one does. */
  function MatchAt(s: string, q: nat): (e: Option<nat>)
    requires q <= |s|
    ensures e.Some? ==> q + 4 <= e.value <= |s|
  {
    if q + 2 <= |s| && s[q] == '*' && s[q + 1] == '*' then CloseFrom(s, q + 2) else None
  }

  /** What a match covers is a bold span. */
  lemma MatchIsBoldSpan(s: string, q: nat, x: string)
    requires q <= |s| && MatchAt(s, q).Some? && x == s[q..MatchAt(s, q).value]
    ensures IsBoldSpan(x)
  {
    CloseFromFirst(s, q + 2);
    assert forall i :: 0 <= i < |x| ==> x[i] == s[q + i];
    var inner := x[2..|x| - 2];
    forall i | 0 <= i < |inner| - 1 ensures !(inner[i] == '*' && inner[i + 1] == '*') {
      assert inner[i] == s[q + 2 + i] && inner[i + 1] == s[q + 2 + i + 1];
    }
  }

  /** No match at `q` means no `**…**` without a line terminator starts there. */
  lemma MatchAtNone(s: string, q: nat)
    requires q <= |s| && MatchAt(s, q).None?
    ensures q + 1 < |s| && s[q] == '*' && s[q + 1] == '*' ==>
      forall j :: q + 2 <= j && j + 1 < |s| && Unbroken(s, q + 2, j) ==> !(s[j] == '*' && s[j + 1] == '*')
  {
    if q + 2 <= |s| && s[q] == '*' && s[q + 1] == '*' {
      CloseFromNone(s, q + 2);
    }
  }

  /** A match is the shortest `**…**` at `q`: no earlier `**` closes it. */
  lemma MatchAtShortest(s: string, q: nat)
    requires q <= |s| && MatchAt(s, q).Some?
    ensures s[q] == '*' && s[q + 1] == '*'
    ensures forall j :: q + 2 <= j < MatchAt(s, q).value - 2 ==> !(s[j] == '*' && s[j + 1] == '*')
  {
    CloseFromFirst(s, q + 2);
  }

  /** No match starts anywhere in `[a, b)`. */
  predicate PlainRun(s: string, a: nat, b: nat)
    requires a <= b <= |s|
  {
    forall i :: a <= i < b ==> MatchAt(s, i).None?
  }

  /** What the split returns for `s[at..]`, declaratively: a run in which no
      match starts, then, unless that run reaches the end, the match at the
      run's end, and the same again after it. The capturing group puts each
      match between its neighbours. */
  predicate Tiles(s: string, at: nat, parts: seq<string>)
    decreases |parts|
  {
    && at <= |s| && |parts| >= 1
    && at + |parts[0]| <= |s| && s[at..at + |parts[0]|] == parts[0]
    && PlainRun(s, at, at + |parts[0]|)
    && if |parts| == 1 then at + |parts[0]| == |s|
       else
         var m := at + |parts[0]|;
         && |parts| >= 3
         && MatchAt(s, m) == Some(m + |parts[1]|)
         && s[m..m + |parts[1]|] == parts[1]
         && Tiles(s, m + |parts[1]|, parts[2..])
  }

  /** The splitting loop: `p` is where the current plain part began and `q`
      the position being tried. */
  function SplitFrom(s: string, p: nat, q: nat): (parts: seq<string>)
    requires p <= q <= |s| && PlainRun(s, p, q)
    ensures |parts| % 2 == 1
    decreases |s| - q
  {
    if q == |s| then [s[p..]]
    else
      match MatchAt(s, q)
      case None => SplitFrom(s, p, q + 1)
      case Some(e) => [s[p..q], s[q..e]] + SplitFrom(s, e, e)
  }

  /** The loop builds a tiling. */
  lemma {:induction false} SplitFromTiles(s: string, p: nat, q: nat)
    requires p <= q <= |s| && PlainRun(s, p, q)
    ensures Tiles(s, p, SplitFrom(s, p, q))
    decreases |s| - q
  {
    if q < |s| {
      match MatchAt(s, q)
      case None =>
        SplitFromTiles(s, p, q + 1);
      case Some(e) =>
        SplitFromTiles(s, e, e);
        var rest := SplitFrom(s, e, e);
        assert ([s[p..q], s[q..e]] + rest)[2..] == rest;
    }
  }

  /** `line.split(/(\*\*.*?\*\*)/g)`. */
  function SplitBold(line: string): (parts: seq<string>)
    ensures Tiles(line, 0, parts)
  {
    SplitFromTiles(line, 0, 0);
    SplitFrom(line, 0, 0)
  }

  /** What follows a match is tiled in turn. */
  lemma TilesRest(s: string, at: nat, parts: seq<string>)
    requires Tiles(s, at, parts) && |parts| > 1
    ensures |parts| >= 3 && MatchAt(s, at + |parts[0]|) == Some(at + |parts[0]| + |parts[1]|)
    ensures parts[1] == s[at + |parts[0]|..at + |parts[0]| + |parts[1]|]
    ensures Tiles(s, at + |parts[0]| + |parts[1]|, parts[2..])
  {
  }

  /** Scanning across positions where no match starts changes nothing. */
  lemma {:induction false} ScanPlain(s: string, at: nat, q: nat, m: nat)
    requires at <= q <= m <= |s| && PlainRun(s, at, m)
    ensures SplitFrom(s, at, q) == SplitFrom(s, at, m)
    decreases m - q
  {
    if q < m {
      assert MatchAt(s, q).None?;
      ScanPlain(s, at, q + 1, m);
    }
  }

  /** Any tiling is the one the splitting loop builds. */
  lemma {:induction false} TilesIsSplit(s: string, at: nat, parts: seq<string>)
    requires Tiles(s, at, parts)
    ensures SplitFrom(s, at, at) == parts
    decreases |parts|
  {
    var m := at + |parts[0]|;
    ScanPlain(s, at, at, m);
    if |parts| > 1 {
      TilesRest(s, at, parts);
      var e := m + |parts[1]|;
      TilesIsSplit(s, e, parts[2..]);
      assert SplitFrom(s, at, m) == [parts[0], parts[1]] + parts[2..];
      assert parts == [parts[0], parts[1]] + parts[2..];
    } else {
      assert m == |s| && parts[0] == s[at..];
      assert parts == [s[at..]];
    }
  }

  /** Only one list of parts tiles a line: the split is determined by `Tiles`. */
  lemma TilesUnique(s: string, at: nat, xs: seq<string>, ys: seq<string>)
    requires Tiles(s, at, xs) && Tiles(s, at, ys)
    ensures xs == ys
  {
    TilesIsSplit(s, at, xs);
    TilesIsSplit(s, at, ys);
  }

  lemma SliceThree(s: string, a: nat, m: nat, n: nat)
    requires a <= m <= n <= |s|
    ensures s[a..] == s[a..m] + (s[m..n] + s[n..])
  {
    assert s[m..] == s[m..n] + s[n..];
    assert s[a..] == s[a..m] + s[m..];
  }

  /** Concatenating the parts gives back the text. */
  lemma {:induction false} TilesJoin(s: string, at: nat, parts: seq<string>)
    requires Tiles(s, at, parts)
    ensures Strings.Join(parts, "") == s[at..]
    decreases |parts|
  {
    if |parts| > 1 {
      var m := at + |parts[0]|;
      var n := m + |parts[1]|;
      var rest := parts[2..];
      TilesJoin(s, n, rest);
      assert parts[1..][1..] == rest;
      Strings.JoinNoSepCons(parts);
      Strings.JoinNoSepCons(parts[1..]);
      assert parts[0] == s[at..m] && parts[1] == s[m..n];
      SliceThree(s, at, m, n);
    }
  }

  /** Every other part, from the second on, is a bold span. */
  predicate AlternatesBold(parts: seq<string>)
    decreases |parts|
  {
    |parts| <= 1 || (|parts| >= 3 && IsBoldSpan(parts[1]) && AlternatesBold(parts[2..]))
  }

  /** A tiling has an odd number of parts. */
  lemma {:induction false} TilesOdd(s: string, at: nat, parts: seq<string>)
    requires Tiles(s, at, parts)
    ensures |parts| % 2 == 1
    decreases |parts|
  {
    if |parts| > 1 {
      TilesRest(s, at, parts);
      TilesOdd(s, at + |parts[0]| + |parts[1]|, parts[2..]);
    }
  }

  /** Its parts alternate plain runs and bold spans. */
  lemma {:induction false} TilesAlternate(s: string, at: nat, parts: seq<string>)
    requires Tiles(s, at, parts)
    ensures AlternatesBold(parts)
    decreases |parts|
  {
    if |parts| > 1 {
      TilesRest(s, at, parts);
      var m := at + |parts[0]|;
      TilesAlternate(s, m + |parts[1]|, parts[2..]);
      MatchIsBoldSpan(s, m, parts[1]);
    }
  }

  lemma {:induction false} AlternatesBoldOdd(parts: seq<string>)
    requires AlternatesBold(parts)
    ensures forall j :: 0 <= j < |parts| && j % 2 == 1 ==> IsBoldSpan(parts[j])
    decreases |parts|
  {
    if |parts| > 1 {
      var rest := parts[2..];
      AlternatesBoldOdd(rest);
      assert forall j :: 2 <= j < |parts| ==> parts[j] == rest[j - 2];
    }
  }

  /** The split keeps every character, in order, and alternates plain text
      with bold spans; a line with no `**` is one plain part. */
  lemma SplitBoldProperties(line: string)
    ensures Strings.Join(SplitBold(line), "") == line
    ensures |SplitBold(line)| % 2 == 1
    ensures forall j :: 0 <= j < |SplitBold(line)| && j % 2 == 1 ==> IsBoldSpan(SplitBold(line)[j])
    ensures PortfolioText.NoDoubleStar(line) ==> SplitBold(line) == [line]
  {
    TilesJoin(line, 0, SplitBold(line));
    TilesOdd(line, 0, SplitBold(line));
    TilesAlternate(line, 0, SplitBold(line));
    AlternatesBoldOdd(SplitBold(line));
    if PortfolioText.NoDoubleStar(line) {
      assert PlainRun(line, 0, |line|) by {
        forall i | 0 <= i < |line| ensures MatchAt(line, i).None? {
          if i + 1 < |line| {
            assert !(line[i] == '*' && line[i + 1] == '*');
          }
        }
      }
      assert Tiles(line, 0, [line]);
      TilesUnique(line, 0, SplitBold(line), [line]);
    }
  }

  /** A worked line: the first closing pair ends the span, so two spans come
      out separately. */
  lemma SplitBoldExample()
    ensures SplitBold("a **b** c **d**") == ["a ", "**b**", " c ", "**d**", ""]
  {
    var s := "a **b** c **d**";
    var parts := ["a ", "**b**", " c ", "**d**", ""];
    assert MatchAt(s, 2) == Some(7);
    assert MatchAt(s, 10) == Some(15);
    assert PlainRun(s, 0, 2);
    assert PlainRun(s, 7, 10) by {
      assert MatchAt(s, 7).None? && MatchAt(s, 8).None? && MatchAt(s, 9).None?;
    }
    assert Tiles(s, 15, [""]);
    assert parts[2..][2..] == [""];
    assert Tiles(s, 7, parts[2..]);
    assert Tiles(s, 0, parts);
    TilesUnique(s, 0, SplitBold(s), parts);
  }

  /** How a part is shown. */
  datatype Piece = Plain(text: string) | Bold(text: string)

  /** A part that starts and ends with `**` is shown bold without its first
      and last two characters (`slice(2, -2)`, empty when it is shorter than
      four); any other part is shown as it is. */
  function RenderPart(part: string): (p: Piece)
    ensures p.Bold? <==> |part| >= 2 && part[..2] == "**" && part[|part| - 2..] == "**"
    ensures p.Plain? ==> p.text == part
    ensures p.Bold? && |part| >= 4 ==> "**" + p.text + "**" == part
    ensures p.Bold? && |part| < 4 ==> p.text == ""
  {
    if |part| >= 2 && part[..2] == "**" && part[|part| - 2..] == "**" then
      Bold(if |part| >= 4 then part[2..|part| - 2] else "")
    else Plain(part)
  }

  /** The pieces of the parts of a split, in order. */
  function RenderParts(parts: seq<string>): (pieces: seq<Piece>)
    ensures |pieces| == |parts|
    ensures forall j :: 0 <= j < |parts| ==> pieces[j] == RenderPart(parts[j])
  {
    if parts == [] then [] else [RenderPart(parts[0])] + RenderParts(parts[1..])
  }

  /** `renderTextWithBold(line)`: one piece per part of the split. */
  function RenderLine(line: string): (pieces: seq<Piece>)
    ensures |pieces| == |SplitBold(StripBullet(line))|
    ensures forall j :: 0 <= j < |pieces| ==> pieces[j] == RenderPart(SplitBold(StripBullet(line))[j])
    ensures |pieces| % 2 == 1
    ensures forall j :: 0 <= j < |pieces| && j % 2 == 1 ==>
      pieces[j].Bold? && PortfolioText.NoDoubleStar(pieces[j].text)
  {
    var parts := SplitBold(StripBullet(line));
    SplitBoldProperties(StripBullet(line));
    var pieces := RenderParts(parts);
    forall j | 0 <= j < |pieces| && j % 2 == 1
      ensures pieces[j].Bold? && PortfolioText.NoDoubleStar(pieces[j].text)
    {
      var x := parts[j];
      assert IsBoldSpan(x);
      assert pieces[j] == Bold(x[2..|x| - 2]);
    }
    pieces
  }

  /** The markup a piece stands for: bold text back between `**`. */
  function Markup(p: Piece): string
  {
    if p.Plain? then p.text else "**" + p.text + "**"
  }

  /** The markup a sequence of pieces stands for. */
  function Unrender(pieces: seq<Piece>): string
  {
    if pieces == [] then "" else Markup(pieces[0]) + Unrender(pieces[1..])
  }

  /** A part other than a bare `**` or `***` is given back by its piece. */
  lemma MarkupOfPart(x: string)
    requires x != "**" && x != "***"
    ensures Markup(RenderPart(x)) == x
  {
    assert |x| == 3 && x[..2] == "**" && x[1..] == "**" ==> x == "***";
    assert |x| == 2 ==> x == x[..2];
    if |x| >= 4 && RenderPart(x).Bold? {
      assert x == x[..2] + x[2..|x| - 2] + x[|x| - 2..];
    }
  }

  lemma {:induction false} UnrenderParts(parts: seq<string>)
    requires forall j :: 0 <= j < |parts| ==> parts[j] != "**" && parts[j] != "***"
    ensures Unrender(RenderParts(parts)) == Strings.Join(parts, "")
    decreases |parts|
  {
    if parts != [] {
      var p := RenderParts(parts);
      assert p[0] == RenderPart(parts[0]) && p[1..] == RenderParts(parts[1..]);
      MarkupOfPart(parts[0]);
      UnrenderParts(parts[1..]);
      Strings.JoinNoSepCons(parts);
    }
  }

  /** Writing the bold pieces back between `**` restores the line without its
      bullet, unless the split left a bare `**` or `***` part, which shows as
      an empty bold piece. */
  lemma RenderLineRestores(line: string)
    requires forall j :: 0 <= j < |SplitBold(StripBullet(line))| ==>
      SplitBold(StripBullet(line))[j] != "**" && SplitBold(StripBullet(line))[j] != "***"
    ensures Unrender(RenderLine(line)) == StripBullet(line)
  {
    var parts := SplitBold(StripBullet(line));
    UnrenderParts(parts);
    assert RenderLine(line) == RenderParts(parts);
    SplitBoldProperties(StripBullet(line));
  }

  /** A line where no match starts is split into itself alone. */
  lemma NoMatchOnePart(s: string)
    requires PlainRun(s, 0, |s|)
    ensures SplitBold(s) == [s]
  {
    assert s[0..|s|] == s;
    assert Tiles(s, 0, [s]);
    TilesUnique(s, 0, SplitBold(s), [s]);
  }

  /** A bare `**` or `***` renders as an empty bold piece. */
  lemma BareStarsPart(t: string)
    requires t == "**" || t == "***"
    ensures StripBullet(t) == t && RenderPart(t) == Bold("")
    ensures SplitBold(t) == [t]
  {
    assert t[0] == '*' && t[1] == '*' && t[|t| - 1] == '*';
    assert t[..2] == "**" && t[|t| - 2..] == "**";
    forall q | 0 <= q < |t| ensures MatchAt(t, q).None? {
      if q + 2 <= |t| {
        assert CloseFrom(t, |t|).None?;
        assert |t| == 3 ==> CloseFrom(t, 2) == CloseFrom(t, 3);
      }
    }
    NoMatchOnePart(t);
  }

  /** A line of just `**` or `***` is one part, shown as an empty bold piece. */
  lemma LoneStarsRenderEmptyBold()
    ensures RenderLine("**") == [Bold("")]
    ensures RenderLine("***") == [Bold("")]
  {
    BareStarsPart("**");
    BareStarsPart("***");
    assert RenderParts(["**"]) == [Bold("")];
    assert RenderParts(["***"]) == [Bold("")];
  }

  // ---------------------------------------------------------------------
  // Description lines.
  // ---------------------------------------------------------------------

  /** The `line.trim() &&` guard: blank lines give no bullet; the others
      keep their order. */
  function KeptLines(lines: seq<string>): (r: seq<string>)
    ensures |r| <= |lines|
    ensures forall x :: x in r <==> x in lines && !IsBlank(x)
    ensures (forall x :: x in lines ==> IsBlank(x)) ==> r == []
  {
    if lines == [] then []
    else
      var rest := KeptLines(lines[1..]);
      assert forall x :: x in lines <==> x == lines[0] || x in lines[1..];
      (if Trim(lines[0]) != "" then [lines[0]] else []) + rest
  }

  /** Filtering distributes over concatenation, so order and repeats are kept. */
  lemma {:induction false} KeptLinesAppend(a: seq<string>, b: seq<string>)
    ensures KeptLines(a + b) == KeptLines(a) + KeptLines(b)
    decreases |a|
  {
    if a != [] {
      assert (a + b)[0] == a[0] && (a + b)[1..] == a[1..] + b;
      KeptLinesAppend(a[1..], b);
      var head := if Trim(a[0]) != "" then [a[0]] else [];
      assert KeptLines(a + b) == head + KeptLines(a[1..] + b);
      assert KeptLines(a) == head + KeptLines(a[1..]);
      Strings.ConcatAssoc(head, KeptLines(a[1..]), KeptLines(b));
    } else {
      assert a + b == b;
    }
  }

  /** A single line is kept exactly when it is not blank. */
  lemma KeptLinesOne(x: string)
    ensures KeptLines([x]) == if IsBlank(x) then [] else [x]
  {
    assert [x][1..] == [];
  }

  /** The bullets of an experience or project description. */
  function DescriptionBullets(description: string): (bullets: seq<seq<Piece>>)
    ensures |bullets| <= |Strings.Split(description, '\n')|
  {
    var lines := KeptLines(Strings.Split(description, '\n'));
    seq(|lines|, i requires 0 <= i < |lines| => RenderLine(lines[i]))
  }

  /** A description of white space only produces no bullet. */
  lemma BlankDescriptionNoBullets(description: string)
    requires IsBlank(description)
    ensures DescriptionBullets(description) == []
  {
    var lines := Strings.Split(description, '\n');
    forall x | x in lines ensures IsBlank(x) {
      var i :| 0 <= i < |lines| && lines[i] == x;
      forall k | 0 <= k < |x| ensures IsJsSpace(x[k]) {
        assert x[k] in x;
        assert x[k] in description;
      }
    }
  }

  // ---------------------------------------------------------------------
  // URLs.
  // ---------------------------------------------------------------------

  function StripScheme(url: string): (r: string)
    ensures "http://" <= url ==> url == "http://" + r
    ensures "https://" <= url ==> url == "https://" + r
    ensures !("http://" <= url) && !("https://" <= url) ==> r == url
    ensures |r| <= |url| && url == url[..|url| - |r|] + r
    ensures url[..|url| - |r|] in {"", "http://", "https://"}
  {
    if "http://" <= url then
      assert url[4] == ':' && url == "http://" + url[7..];
      url[7..]
    else if "https://" <= url then
      assert url == "https://" + url[8..];
      url[8..]
    else url
  }

  function StripWww(s: string): (r: string)
    ensures "www." <= s ==> s == "www." + r
    ensures !("www." <= s) ==> r == s
    ensures |r| <= |s| && s == s[..|s| - |r|] + r
    ensures s[..|s| - |r|] in {"", "www."}
  {
    if "www." <= s then
      assert s == "www." + s[4..];
      s[4..]
    else s
  }

  /** `cleanUrl`: at most one scheme, then at most one `www.`, removed from
      the front; the empty URL stays empty. */
  function CleanUrl(url: string): (r: string)
    ensures url == "" ==> r == ""
    ensures |r| <= |url| && r == url[|url| - |r|..]
    ensures url[..|url| - |r|] in {"", "http://", "https://", "www.", "http://www.", "https://www."}
  {
    if url == "" then ""
    else
      var a := StripScheme(url);
      var r := StripWww(a);
      var scheme, www := url[..|url| - |a|], a[..|a| - |r|];
      assert url == scheme + www + r;
      assert url[..|url| - |r|] == scheme + www;
      PrefixesCombine(scheme, www);
      r
  }

  lemma PrefixesCombine(scheme: string, www: string)
    requires scheme in {"", "http://", "https://"} && www in {"", "www."}
    ensures scheme + www in {"", "http://", "https://", "www.", "http://www.", "https://www."}
  {
    if www == "" {
      assert scheme + www == scheme;
    } else if scheme == "" {
      assert scheme + www == "www.";
    } else if scheme == "http://" {
      assert scheme + www == "http://www.";
    } else {
      assert scheme + www == "https://www.";
    }
  }

  /** The empty-input guard changes nothing: stripping would give "" anyway. */
  lemma CleanUrlGuardRedundant(url: string)
    ensures CleanUrl(url) == StripWww(StripScheme(url))
  {
  }

  /** A leading `http://` goes when no `www.` follows it. */
  lemma CleanUrlDropsHttp(u: string)
    requires !("www." <= u)
    ensures CleanUrl("http://" + u) == u
  {
    var url := "http://" + u;
    assert url[..7] == "http://" && url[7..] == u;
  }

  /** One pass only: a doubled scheme keeps its second copy, so cleaning is
      not idempotent. */
  lemma CleanUrlNotIdempotent()
    ensures CleanUrl("http://http://x") == "http://x"
    ensures CleanUrl(CleanUrl("http://http://x")) == "x"
  {
    assert "http://http://x" == "http://" + "http://x";
    assert "http://x" == "http://" + "x";
    assert "http://x"[0] != 'w' && "x"[0] != 'w';
    CleanUrlDropsHttp("http://x");
    CleanUrlDropsHttp("x");
  }

  // ---------------------------------------------------------------------
  // Skill lines.
  // ---------------------------------------------------------------------

  datatype SkillLine = SkillLine(category: string, items: string)

  /** The destructuring at Preview.tsx line 130: with a `:` the category is
      the first piece of `split(':')` and the items the second, so text after
      a second `:` is lost. */
  function SplitSkillAsWritten(skill: string): (r: SkillLine)
    ensures ':' !in skill ==> r == SkillLine("", skill)
    ensures ':' in skill ==>
      ':' !in r.category && ':' !in r.items && r.category + ":" + r.items <= skill
  {
    if ':' in skill then
      var parts := Strings.Split(skill, ':');
      Strings.JoinSplit(skill, ':');
      assert skill == parts[0] + ":" + Strings.Join(parts[1..], ":");
      SkillLine(parts[0], parts[1])
    else SkillLine("", skill)
  }

  /** The split as intended: the category is the text before the first `:`
      and the items everything after it. */
  function SplitSkill(skill: string): (r: SkillLine)
    ensures ':' !in skill ==> r == SkillLine("", skill)
    ensures ':' in skill ==> ':' !in r.category && r.category + ":" + r.items == skill
  {
    if ':' in skill then
      var category := Strings.Split(skill, ':')[0];
      assert |category| < |skill|;
      assert skill == category + ":" + skill[|category| + 1..];
      SkillLine(category, skill[|category| + 1..])
    else SkillLine("", skill)
  }

  /** The two agree exactly when the items hold no further `:`. */
  lemma AsWrittenAgreesIffOneColon(skill: string)
    ensures SplitSkillAsWritten(skill) == SplitSkill(skill) <==> ':' !in SplitSkill(skill).items
  {
    if ':' in skill {
      var parts := Strings.Split(skill, ':');
      Strings.JoinSplit(skill, ':');
      var tail := Strings.Join(parts[1..], ":");
      assert skill == parts[0] + ":" + tail;
      assert SplitSkill(skill).items == tail;
      if |parts| == 2 {
        assert tail == parts[1];
      } else {
        assert tail == parts[1] + ":" + Strings.Join(parts[2..], ":");
        assert tail[|parts[1]|] == ':';
        assert |tail| > |parts[1]|;
      }
    }
  }

  /** With two colons, the as-written split keeps only the text between
      them as items; the intended split keeps the rest of the line. */
  lemma {:induction false} SecondColonDropsRest(a: string, b: string, c: string)
    requires ':' !in a && ':' !in b
    ensures SplitSkillAsWritten(a + ":" + b + ":" + c) == SkillLine(a, b)
    ensures SplitSkill(a + ":" + b + ":" + c) == SkillLine(a, b + ":" + c)
  {
    var skill := a + ":" + b + ":" + c;
    assert skill == a + [':'] + (b + [':'] + c);
    Strings.SplitCons(a, ':', b + [':'] + c);
    Strings.SplitCons(b, ':', c);
    assert skill[|a|] == ':';
    assert skill[|a| + 1..] == b + ":" + c;
  }

  /** The input that shows the loss: a URL after the category. */
  lemma SkillWithUrlLosesText()
    ensures SplitSkillAsWritten("Web: https://x").items == " https"
    ensures SplitSkill("Web: https://x").items == " https://x"
  {
    assert "Web: https://x" == "Web" + ":" + " https" + ":" + "//x";
    SecondColonDropsRest("Web", " https", "//x");
  }

  /** What a skill row shows: a bold `category:` caption when the category is
      not empty, then the items, or the category again when there are no items. */
  datatype SkillRow = SkillRow(caption: Option<string>, body: string)

  /** The row drawn for a split line. */
  function RowOf(line: SkillLine): (r: SkillRow)
    ensures r.caption.Some? <==> line.category != ""
    ensures r.caption.Some? ==> r.caption.value == line.category + ":"
    ensures line.items != "" ==> r.body == line.items
    ensures line.items == "" ==> r.body == line.category
  {
    SkillRow(if line.category != "" then Some(line.category + ":") else None,
             if line.items != "" then line.items else line.category)
  }

  /** The row as the skills section draws it, over the as-written split: with
      a second `:` the body stops short of the end of the line. */
  function RenderSkill(skill: string): (r: SkillRow)
    ensures ':' !in skill ==> r == SkillRow(None, skill)
    ensures r.caption.Some? <==> ':' in skill && skill[0] != ':'
    ensures ':' in skill ==> ':' !in r.body
    ensures r.caption.Some? ==> r.caption.value + r.body <= skill || r.caption.value == r.body + ":"
    ensures ':' in skill && r.caption.None? ==> r.body <= skill[1..]
  {
    var line := SplitSkillAsWritten(skill);
    assert ':' in skill ==> (line.category == "" <==> skill[0] == ':') by {
      if ':' in skill {
        if line.category != "" {
          assert skill[0] == line.category[0];
        } else {
          assert skill[0] == (line.category + ":" + line.items)[0];
        }
      }
    }
    assert ':' in skill && line.category == "" ==> line.items <= skill[1..] by {
      if ':' in skill && line.category == "" {
        assert line.category + ":" + line.items == [':'] + line.items;
      }
    }
    RowOf(line)
  }

  /** The row as intended, over the split at the first `:` only: caption and
      body together give back the whole line. */
  function RenderSkillIntended(skill: string): (r: SkillRow)
    ensures ':' !in skill ==> r == SkillRow(None, skill)
    ensures r.caption.Some? <==> ':' in skill && skill[0] != ':'
    ensures r.caption.Some? ==> r.caption.value + r.body == skill || r.caption.value == r.body + ":"
  {
    var line := SplitSkill(skill);
    assert ':' in skill ==> (line.category == "" <==> skill[0] == ':') by {
      if ':' in skill && line.category != "" {
        assert skill[0] == line.category[0];
      }
    }
    RowOf(line)
  }

  /** The drawn row is the intended one exactly when the line has no second `:`. */
  lemma RenderSkillAgreesIffOneColon(skill: string)
    ensures RenderSkill(skill) == RenderSkillIntended(skill) <==> ':' !in SplitSkill(skill).items
  {
    AsWrittenAgreesIffOneColon(skill);
    if ':' in SplitSkill(skill).items {
      assert RenderSkillIntended(skill).body == SplitSkill(skill).items;
      assert ':' in skill;
      assert ':' !in RenderSkill(skill).body;
    }
  }

  /** With two colons the drawn row shows only the text between them, where
      the intended row shows the rest of the line. */
  lemma SecondColonRow(a: string, b: string, c: string)
    requires ':' !in a && ':' !in b && a != "" && b != ""
    ensures RenderSkill(a + ":" + b + ":" + c) == SkillRow(Some(a + ":"), b)
    ensures RenderSkillIntended(a + ":" + b + ":" + c) == SkillRow(Some(a + ":"), b + ":" + c)
  {
    SecondColonDropsRest(a, b, c);
  }

  // ---------------------------------------------------------------------
  // Date labels.
  // ---------------------------------------------------------------------

  /** The end of an experience's date range. */
  function ExperienceEndLabel(e: ExperienceItem): (caption: string)
    ensures e.current ==> caption == "Present"
    ensures !e.current ==> caption == e.endDate
  {
    if e.current then "Present" else e.endDate
  }

  /** The end of a project's date range: never empty. */
  function ProjectEndLabel(p: ProjectItem): (caption: string)
    ensures caption != ""
    ensures caption == "Present" <==> p.endDate == "" || p.endDate == "Present"
    ensures p.endDate != "" ==> caption == p.endDate
  {
    if p.endDate != "" then p.endDate else "Present"
  }

  /** An experience that is not current and has no end date shows an empty
      end; a project never does. */
  lemma EndLabelsDiffer(e: ExperienceItem, p: ProjectItem)
    requires !e.current && e.endDate == "" && p.endDate == ""
    ensures ExperienceEndLabel(e) == "" && ProjectEndLabel(p) == "Present"
  {
  }

  // ---------------------------------------------------------------------
  // Contact lines.
  // ---------------------------------------------------------------------

  /** A piece of a contact line: text, the `|` separator, a mail link, or a
      labelled link showing the cleaned URL. */
  datatype Span = Text(text: string) | Separator | Mail(address: string)
                | Labeled(caption: string, shown: string, href: string)

  /** A labelled link: its target is `https://` and the cleaned URL, so an
      `http://` address is shown and linked without its scheme. */
  function LinkTo(caption: string, url: string): (s: Span)
    ensures s.Labeled? && s.href == "https://" + s.shown
    ensures s.caption == caption && s.shown == CleanUrl(url)
    ensures |s.shown| <= |url|
  {
    Labeled(caption, CleanUrl(url), "https://" + CleanUrl(url))
  }

  /** A span that appears only when its field is given. */
  function ShownIf(given: bool, s: Span): (r: seq<Span>)
    ensures forall x :: x in r <==> given && x == s
    ensures |r| == if given then 1 else 0
    ensures multiset(r)[Separator] == if given && s == Separator then 1 else 0
  {
    if given then [s] else []
  }

  /** Location, phone and email, each only when given, with both separators
      always there. */
  function ContactLine1(p: PersonalInfo): (r: seq<Span>)
    ensures |r| == 2 + (if p.location != "" then 1 else 0) + (if p.phone != "" then 1 else 0)
                     + (if p.email != "" then 1 else 0)
    ensures var location := if p.location != "" then [Text(p.location)] else [];
      var phone := if p.phone != "" then [Text(p.phone)] else [];
      var email := if p.email != "" then [Mail(p.email)] else [];
      r == location + [Separator] + phone + [Separator] + email
    ensures multiset(r)[Separator] == 2
    ensures Text(p.location) in r <==> p.location != ""
    ensures Mail(p.email) in r <==> p.email != ""
  {
    var a, b, c := ShownIf(p.location != "", Text(p.location)),
                   ShownIf(p.phone != "", Text(p.phone)),
                   ShownIf(p.email != "", Mail(p.email));
    var ab := a + [Separator] + b;
    InConcat(a, [Separator], b, Text(p.location));
    InConcat(ab, [Separator], c, Text(p.location));
    InConcat(a, [Separator], b, Mail(p.email));
    InConcat(ab, [Separator], c, Mail(p.email));
    assert multiset(ab + [Separator] + c) == multiset(a) + multiset([Separator]) + multiset(b)
                                            + multiset([Separator]) + multiset(c);
    ab + [Separator] + c
  }

  /** LinkedIn and GitHub, each only when given, with the separator between
      them exactly when both are. */
  function ContactLine2(p: PersonalInfo): (r: seq<Span>)
    ensures p.linkedin != "" && p.github != "" ==>
      r == [LinkTo("LinkedIn:", p.linkedin), Separator, LinkTo("GitHub:", p.github)]
    ensures p.linkedin != "" && p.github == "" ==> r == [LinkTo("LinkedIn:", p.linkedin)]
    ensures p.linkedin == "" && p.github != "" ==> r == [LinkTo("GitHub:", p.github)]
    ensures p.linkedin == "" && p.github == "" ==> r == []
    ensures Separator in r <==> p.linkedin != "" && p.github != ""
    ensures LinkTo("LinkedIn:", p.linkedin) in r <==> p.linkedin != ""
    ensures LinkTo("GitHub:", p.github) in r <==> p.github != ""
  {
    var linkedin, github := LinkTo("LinkedIn:", p.linkedin), LinkTo("GitHub:", p.github);
    var r := if p.linkedin != "" && p.github != "" then [linkedin, Separator, github]
             else if p.linkedin != "" then [linkedin]
             else if p.github != "" then [github]
             else [];
    LinksDistinct(p.linkedin, p.github);
    InLine2(linkedin, github, p.linkedin != "", p.github != "", r);
    r
  }

  /** Which spans the second contact line holds, from its shape. */
  lemma InLine2(linkedin: Span, github: Span, hasLinkedin: bool, hasGithub: bool, r: seq<Span>)
    requires linkedin != Separator && github != Separator && linkedin != github
    requires r == if hasLinkedin && hasGithub then [linkedin, Separator, github]
                  else if hasLinkedin then [linkedin]
                  else if hasGithub then [github]
                  else []
    ensures Separator in r <==> hasLinkedin && hasGithub
    ensures linkedin in r <==> hasLinkedin
    ensures github in r <==> hasGithub
  {
  }

  /** The two links and the separator are three different spans. */
  lemma LinksDistinct(linkedin: string, github: string)
    ensures var l, g := LinkTo("LinkedIn:", linkedin), LinkTo("GitHub:", github);
      l != Separator && g != Separator && l != g
  {
    var l, g := LinkTo("LinkedIn:", linkedin), LinkTo("GitHub:", github);
    assert l.caption[0] == 'L' && g.caption[0] == 'G';
  }

  lemma InConcat(a: seq<Span>, b: seq<Span>, c: seq<Span>, x: Span)
    ensures x in a + b + c <==> x in a || x in b || x in c
  {
  }

  /** The portfolio link, on its own line, only when given. */
  function ContactLine3(p: PersonalInfo): (r: Option<Span>)
    ensures r.Some? <==> p.portfolioUrl != ""
    ensures r.Some? ==> r.value == LinkTo("Portfolio:", p.portfolioUrl)
  {
    if p.portfolioUrl != "" then Some(LinkTo("Portfolio:", p.portfolioUrl)) else None
  }
}
