// The note editor of src/features/notes/Notes.jsx as functions on the text
// and the selection: the current line around the cursor, the list editing of
// Tab, Enter and Backspace, the formatting buttons, the three rewrites made
// on every input, and the list of notes shown for a category and a search.
//
// Text positions are UTF-16 code units, one `char` each; the bullet `•` is
// U+2022 and the arrow `→` is U+2192. The browser keeps a selection inside
// the text, which the `requires` clauses state.

module NotesEditor {
  import opened Common
  import opened Store

  const Bullet: char := '\U{2022}'
  const Arrow: char := '\U{2192}'
  const BulletSpace: string := [Bullet, ' ']

  /** New text and the collapsed cursor position set after it. */
  datatype Edit = Edit(content: string, cursor: int)

  // ---------------------------------------------------------------------
  // JavaScript string primitives.
  // ---------------------------------------------------------------------

  function Clamp(i: int, n: nat): (r: nat)
    ensures r <= n && (0 <= i <= n ==> r == i)
  {
    if i < 0 then 0 else if i > n then n else i
  }

  /** String.prototype.substring: both ends clamped, swapped when reversed. */
  function Substring(s: string, a: int, b: int): (r: string)
    ensures 0 <= a <= b <= |s| ==> r == s[a..b]
  {
    var x, y := Clamp(a, |s|), Clamp(b, |s|);
    if x <= y then s[x..y] else s[y..x]
  }

  /** `s.substring(0, a) + mid + s.substring(b)`: the text with [a, b) replaced by mid. */
  function Splice(s: string, a: int, b: int, mid: string): (r: string)
    ensures 0 <= a <= |s| && 0 <= b <= |s| ==> r == s[..a] + mid + s[b..]
  {
    Substring(s, 0, a) + mid + Substring(s, b, |s|)
  }

  /** The last index at or before k holding c, or -1. */
  function LastIndexUpTo(s: string, c: char, k: int): (r: int)
    requires -1 <= k < |s|
    ensures -1 <= r <= k
    ensures r >= 0 ==> s[r] == c
    ensures forall i :: r < i <= k && 0 <= i ==> s[i] != c
    decreases k + 1
  {
    if k < 0 then -1 else if s[k] == c then k else LastIndexUpTo(s, c, k - 1)
  }

  /** String.prototype.lastIndexOf(c, from) for one character. */
  function LastIndexOf(s: string, c: char, from: int): (r: int)
    ensures -1 <= r < |s|
  {
    var start := Clamp(from, |s|);
    LastIndexUpTo(s, c, if start < |s| then start else |s| - 1)
  }

  // ---------------------------------------------------------------------
  // The current line.
  // ---------------------------------------------------------------------

  /** `value.lastIndexOf('\n', selectionStart - 1) + 1`. */
  function LineStart(v: string, sel: nat): (r: nat)
    ensures r <= |v|
  {
    LastIndexOf(v, '\n', sel - 1) + 1
  }

  /** `value.indexOf('\n', selectionStart)`, with the text's end for -1. */
  function LineEnd(v: string, sel: nat): (r: nat)
    requires sel <= |v|
    ensures sel <= r <= |v|
    ensures r < |v| ==> v[r] == '\n'
    ensures forall i :: sel <= i < r ==> v[i] != '\n'
  {
    match IndexOfFrom(v, '\n', sel)
    case None => |v|
    case Some(k) => k
  }

  function CurrentLine(v: string, sel: nat): string
    requires sel <= |v|
  {
    Substring(v, LineStart(v, sel), LineEnd(v, sel))
  }

  /**
   * The current line is the stretch between the newline before the cursor
   * and the next newline or the end. (With the cursor at 0 before a leading
   * newline, `lastIndexOf` clamps its start to 0 and the line start passes
   * the cursor; no branch below treats that line as a list line.)
   */
  lemma CurrentLineIsLine(v: string, sel: nat)
    requires sel <= |v|
    requires sel > 0 || v == [] || v[0] != '\n'
    ensures var ls, le := LineStart(v, sel), LineEnd(v, sel);
      ls <= sel <= le && CurrentLine(v, sel) == v[ls..le]
      && (ls == 0 || v[ls - 1] == '\n')
      && (forall i :: ls <= i < le ==> v[i] != '\n')
  {
    var ls := LineStart(v, sel);
    if sel == 0 {
      if v != [] {
        assert LastIndexUpTo(v, '\n', 0) == -1;
      }
    }
  }

  // ---------------------------------------------------------------------
  // Keys.
  // ---------------------------------------------------------------------

  datatype KeyPress = Tab | Enter | Backspace | OtherKey

  /**
   * What a key press does: the text and cursor it sets, nothing but
   * preventing the default (`Swallowed`), or the browser's own handling.
   */
  datatype KeyOutcome = Rewrite(edit: Edit) | Swallowed | Native

  /** The length of the `/^• +/` match: the bullet and the spaces after it, or 0. */
  function BulletRun(line: string): (m: nat)
    ensures m <= |line|
    ensures StartsWith(line, BulletSpace) ==> m >= 2
  {
    if line != [] && line[0] == Bullet then 1 + SpaceRun(line[1..]) else 0
  }

  function SpaceRun(s: string): (n: nat)
    ensures n <= |s| && forall i :: 0 <= i < n ==> s[i] == ' '
    ensures s != [] && s[0] == ' ' ==> n >= 1
  {
    if s != [] && s[0] == ' ' then 1 + SpaceRun(s[1..]) else 0
  }

  /**
   * `(line.match(/^• /g) || []).length`: without the `m` flag `^` anchors at
   * the start only, so there is at most one match.
   */
  function IndentLevel(line: string): (n: nat)
    ensures n <= 1
  {
    if StartsWith(line, BulletSpace) then 1 else 0
  }

  /** `line.replace(/^• +/, bullets)`. */
  function ReplaceBulletRun(line: string, bullets: string): string
  {
    var m := BulletRun(line);
    if m >= 2 then bullets + line[m..] else line
  }

  /** `'• '.repeat(n)`, empty for n <= 0. */
  function Bullets(n: int): (r: string)
    decreases n
  {
    if n <= 0 then "" else BulletSpace + Bullets(n - 1)
  }

  /** `/^\d+\. /`: the line opens with a number, a dot and a space. */
  predicate NumberedLine(line: string)
  {
    var d := DigitRun(line);
    d >= 1 && d + 1 < |line| && line[d] == '.' && line[d + 1] == ' '
  }

  /** `parseInt(numberMatch[1]) + 1`. */
  function NextNumber(line: string): (n: nat)
    requires NumberedLine(line)
  {
    DigitsValue(line[..DigitRun(line)]) + 1
  }

  /** handleKeyDown on a textarea with text v and selection [ss, se). */
  function HandleKeyDown(v: string, ss: nat, se: nat, key: KeyPress, shift: bool): (r: KeyOutcome)
    requires ss <= se <= |v|
    ensures key == OtherKey ==> r == Native
    ensures key == Tab ==> r != Native
    ensures key == Enter ==> r.Rewrite?
  {
    match key
    case Tab => HandleTab(v, ss, shift)
    case Enter => HandleEnter(v, ss, se)
    case Backspace => HandleBackspace(v, ss, se)
    case OtherKey => Native
  }

  /**
   * The line Tab puts in place of the current one: a "-" line becomes a
   * bare bullet, a bullet line gains a level (Shift+Tab drops one when there
   * are several); None when the text stays as it is.
   */
  function TabLine(line: string, shift: bool): (r: Option<string>)
  {
    if Trim(line) == "-" then Some(BulletSpace)
    else if StartsWith(line, BulletSpace) then
      var level := IndentLevel(line);
      if shift && level > 1 then Some(ReplaceBulletRun(line, Bullets(level - 1)))
      else if !shift then Some(ReplaceBulletRun(line, Bullets(level + 1)))
      else None
    else None
  }

  /** Tab replaces the current line and puts the cursor at its end; it is never typed. */
  function HandleTab(v: string, ss: nat, shift: bool): (r: KeyOutcome)
    requires ss <= |v|
    ensures r != Native
  {
    var ls, le := LineStart(v, ss), LineEnd(v, ss);
    match TabLine(CurrentLine(v, ss), shift)
    case None => Swallowed
    case Some(newLine) => Rewrite(Edit(Splice(v, ls, le, newLine), ls + |newLine|))
  }

  /** What Enter does to the text: empty the current line, or put text in place of the selection. */
  datatype EnterAction = ClearLine | Insert(text: string)

  /**
   * A bare bullet line is emptied; a bullet line continues with its bullet
   * run; an `n. ` line continues with `(n+1). `; an empty line and any other
   * line get a plain newline.
   */
  function EnterActionOf(line: string): EnterAction
  {
    if StartsWith(line, BulletSpace) then
      if Trim(line) == [Bullet] then ClearLine
      else Insert("\n" + line[..BulletRun(line)])
    else if NumberedLine(line) then Insert("\n" + NatToStr(NextNumber(line)) + ". ")
    else Insert("\n")
  }

  /** Enter always rewrites: the inserted text goes in place of the selection, the cursor after it. */
  function HandleEnter(v: string, ss: nat, se: nat): (r: KeyOutcome)
    requires ss <= se <= |v|
    ensures r.Rewrite?
  {
    var ls, le := LineStart(v, ss), LineEnd(v, ss);
    match EnterActionOf(CurrentLine(v, ss))
    case ClearLine => Rewrite(Edit(Splice(v, ls, le, ""), ls))
    case Insert(t) => Rewrite(Edit(Splice(v, ss, se, t), ss + |t|))
  }

  /** Backspace right after the bullet of a bullet line removes the bullet. */
  function HandleBackspace(v: string, ss: nat, se: nat): (r: KeyOutcome)
    requires ss <= se <= |v|
    ensures r != Swallowed
  {
    var ls, le := LineStart(v, ss), LineEnd(v, ss);
    var line := CurrentLine(v, ss);
    if StartsWith(line, BulletSpace) && ss == ls + 2 && se == ss then
      Rewrite(Edit(Splice(v, ls, le, line[2..]), ls))
    else Native
  }

  /** Shift+Tab never changes the text except on a "-" line: unindenting needs two bullets at once. */
  lemma ShiftTabNeverUnindents(line: string)
    ensures TabLine(line, true).Some? ==> Trim(line) == "-"
  {
  }

  /** Tab on a bullet line doubles the bullet, dropping the spaces after it. */
  lemma TabIndentsBullet(line: string)
    requires StartsWith(line, BulletSpace) && Trim(line) != "-"
    ensures TabLine(line, false) == Some(BulletSpace + BulletSpace + line[BulletRun(line)..])
  {
    assert Bullets(2) == BulletSpace + BulletSpace by {
      assert Bullets(1) == BulletSpace + "";
    }
  }

  /** Tab on a line holding only "-" (blanks around it allowed) makes it a bare bullet. */
  lemma DashTabLine(v: string, ss: nat, se: nat)
    requires ss <= se <= |v|
    requires ss > 0 || v == [] || v[0] != '\n'
    requires Trim(CurrentLine(v, ss)) == "-"
    ensures var ls, le := LineStart(v, ss), LineEnd(v, ss);
      HandleKeyDown(v, ss, se, Tab, false) == Rewrite(Edit(v[..ls] + BulletSpace + v[le..], ls + 2))
  {
    CurrentLineIsLine(v, ss);
  }

  /** In `p + "• " + q`, with p empty or ending a line and q empty or starting one, the cursor after the bullet sits on the line "• ". */
  lemma BareBulletLine(p: string, q: string)
    requires p == [] || p[|p| - 1] == '\n'
    requires q == [] || q[0] == '\n'
    ensures var w, c := p + BulletSpace + q, |p| + 2;
      c <= |w| && LineStart(w, c) == |p| && LineEnd(w, c) == c && CurrentLine(w, c) == BulletSpace
  {
    var w, c := p + BulletSpace + q, |p| + 2;
    assert w[|p|] == Bullet && w[|p| + 1] == ' ';
    assert LastIndexUpTo(w, '\n', |p| + 1) == LastIndexUpTo(w, '\n', |p| - 1);
    if p != [] {
      assert w[|p| - 1] == '\n';
    }
    if q != [] {
      assert w[c] == '\n';
      assert IndexOfFrom(w, '\n', c) == Some(c);
    }
    assert w[|p|..c] == BulletSpace;
  }

  /** Backspace right after the bullet of the line "• " removes the line's two characters. */
  lemma BackspaceOnBareBullet(w: string, c: nat)
    requires 2 <= c <= |w| && LineStart(w, c) == c - 2 && LineEnd(w, c) == c && CurrentLine(w, c) == BulletSpace
    ensures HandleKeyDown(w, c, c, Backspace, false) == Rewrite(Edit(w[..c - 2] + w[c..], c - 2))
  {
    assert BulletSpace[2..] == "";
  }

  /**
   * Tab on a "-" line and then Backspace right after the new bullet remove
   * the line's text, leaving the cursor at the line's start.
   */
  lemma DashTabThenBackspace(v: string, ss: nat, se: nat)
    requires ss <= se <= |v|
    requires ss > 0 || v == [] || v[0] != '\n'
    requires Trim(CurrentLine(v, ss)) == "-"
    ensures var ls, le := LineStart(v, ss), LineEnd(v, ss);
      var w := v[..ls] + BulletSpace + v[le..];
      ls + 2 <= |w| && HandleKeyDown(w, ls + 2, ls + 2, Backspace, false) == Rewrite(Edit(v[..ls] + v[le..], ls))
  {
    CurrentLineIsLine(v, ss);
    var ls, le := LineStart(v, ss), LineEnd(v, ss);
    var p, q := v[..ls], v[le..];
    assert p == [] || p[|p| - 1] == '\n';
    assert q == [] || q[0] == '\n';
    BackspaceAfterBareBullet(p, q);
  }

  /** Backspace right after a bullet that is alone on its line removes the bullet. */
  lemma BackspaceAfterBareBullet(p: string, q: string)
    requires p == [] || p[|p| - 1] == '\n'
    requires q == [] || q[0] == '\n'
    ensures HandleKeyDown(p + BulletSpace + q, |p| + 2, |p| + 2, Backspace, false) == Rewrite(Edit(p + q, |p|))
  {
    BareBulletLine(p, q);
    var w := p + BulletSpace + q;
    BackspaceOnBareBullet(w, |p| + 2);
    assert w[..|p|] == p && w[|p| + 2..] == q;
  }

  /** Enter on a bullet line with text starts the next line with the same bullet run. */
  lemma EnterContinuesBullet(line: string)
    requires StartsWith(line, BulletSpace) && Trim(line) != [Bullet]
    ensures var indent := line[..BulletRun(line)];
      EnterActionOf(line) == Insert("\n" + indent) && StartsWith(indent, BulletSpace)
  {
    var indent := line[..BulletRun(line)];
    assert indent[..2] == line[..2];
  }

  /** Enter on an `n. ` line opens the next line with `(n+1). `. */
  lemma EnterNumbersNextLine(line: string)
    requires !StartsWith(line, BulletSpace) && NumberedLine(line)
    ensures EnterActionOf(line) == Insert("\n" + NatToStr(DigitsValue(line[..DigitRun(line)]) + 1) + ". ")
  {
  }

  /** Enter on any other line inserts a plain newline. */
  lemma EnterPlainLine(line: string)
    requires !StartsWith(line, BulletSpace) && !NumberedLine(line)
    ensures EnterActionOf(line) == Insert("\n")
  {
  }

  /** The text and cursor after Enter that inserts t: the selection replaced, the cursor after t. */
  lemma EnterInserts(v: string, ss: nat, se: nat)
    requires ss <= se <= |v|
    requires EnterActionOf(CurrentLine(v, ss)).Insert?
    ensures var t := EnterActionOf(CurrentLine(v, ss)).text;
      HandleKeyDown(v, ss, se, Enter, false) == Rewrite(Edit(v[..ss] + t + v[se..], ss + |t|))
  {
  }

  /** Enter on a bullet line holding nothing but the bullet empties the line and leaves the cursor at its start. */
  lemma EnterClearsBareBullet(v: string, ss: nat, se: nat)
    requires ss <= se <= |v|
    requires StartsWith(CurrentLine(v, ss), BulletSpace) && Trim(CurrentLine(v, ss)) == [Bullet]
    ensures var ls, le := LineStart(v, ss), LineEnd(v, ss);
      ls <= le && HandleKeyDown(v, ss, se, Enter, false) == Rewrite(Edit(v[..ls] + v[le..], ls))
  {
  }

  /** Backspace leaves everything but a bullet right before a collapsed cursor to the browser. */
  lemma BackspaceElsewhereIsNative(v: string, ss: nat, se: nat)
    requires ss <= se <= |v|
    requires se != ss || ss != LineStart(v, ss) + 2 || !StartsWith(CurrentLine(v, ss), BulletSpace)
    ensures HandleKeyDown(v, ss, se, Backspace, false) == Native
  {
  }

  // ---------------------------------------------------------------------
  // Formatting buttons.
  // ---------------------------------------------------------------------

  datatype Format = BulletFormat | NumberFormat | Bold | Italic | Code | UnknownFormat

  /** t is the selection between an opening and a closing marker. */
  predicate Wraps(t: string, open: string, sel: string, close: string)
  {
    |t| == |open| + |sel| + |close|
    && t[..|open|] == open && t[|open|..|open| + |sel|] == sel && t[|open| + |sel|..] == close
  }

  /**
   * The text a button puts in place of the selection: the selection behind
   * "• " or "1. ", or between "**", "*" or "`" pairs; None for an unknown type.
   */
  function Formatted(f: Format, sel: string): (r: Option<string>)
    ensures f == UnknownFormat <==> r.None?
    ensures f == BulletFormat ==> r.Some? && Wraps(r.value, BulletSpace, sel, "")
    ensures f == NumberFormat ==> r.Some? && Wraps(r.value, "1. ", sel, "")
    ensures f == Bold ==> r.Some? && Wraps(r.value, "**", sel, "**")
    ensures f == Italic ==> r.Some? && Wraps(r.value, "*", sel, "*")
    ensures f == Code ==> r.Some? && Wraps(r.value, "`", sel, "`")
  {
    match f
    case BulletFormat => Some(BulletSpace + sel)
    case NumberFormat => Some("1. " + sel)
    case Bold => Some("**" + sel + "**")
    case Italic => Some("*" + sel + "*")
    case Code => Some("`" + sel + "`")
    case UnknownFormat => None
  }

  /**
   * insertFormatting: the selection [start, end) is replaced by its
   * formatted form and the cursor lands after it; an unknown type changes
   * nothing (None).
   */
  function InsertFormatting(content: string, start: nat, end: nat, f: Format): (r: Option<Edit>)
    requires start <= end <= |content|
    ensures f == UnknownFormat <==> r.None?
    ensures r.Some? ==> end <= r.value.cursor <= |r.value.content|
    ensures r.Some? ==> |r.value.content| == |content| - (end - start) + (r.value.cursor - start)
    ensures r.Some? ==> r.value.content[..start] == content[..start]
    ensures r.Some? ==> r.value.content[r.value.cursor..] == content[end..]
    ensures r.Some? ==> r.value.cursor == start + |Formatted(f, content[start..end]).value|
    ensures r.Some? ==> r.value.content[start..r.value.cursor] == Formatted(f, content[start..end]).value
  {
    match Formatted(f, content[start..end])
    case None => None
    case Some(t) =>
      var c := content[..start] + t + content[end..];
      assert c[..start] == content[..start];
      assert c[start + |t|..] == content[end..];
      assert c[start..start + |t|] == t;
      Some(Edit(c, start + |t|))
  }

  /** With nothing selected the buttons insert their bare markers. */
  lemma FormattingEmptySelection(content: string, at: nat)
    requires at <= |content|
    ensures InsertFormatting(content, at, at, Bold) == Some(Edit(content[..at] + "****" + content[at..], at + 4))
    ensures InsertFormatting(content, at, at, Italic) == Some(Edit(content[..at] + "**" + content[at..], at + 2))
    ensures InsertFormatting(content, at, at, Code) == Some(Edit(content[..at] + "``" + content[at..], at + 2))
    ensures InsertFormatting(content, at, at, BulletFormat) == Some(Edit(content[..at] + BulletSpace + content[at..], at + 2))
    ensures InsertFormatting(content, at, at, NumberFormat) == Some(Edit(content[..at] + "1. " + content[at..], at + 3))
  {
    assert content[at..at] == "";
    assert "**" + "" + "**" == "****";
    assert "*" + "" + "*" == "**";
    assert "`" + "" + "`" == "``";
    assert BulletSpace + "" == BulletSpace;
    assert "1. " + "" == "1. ";
  }

  // ---------------------------------------------------------------------
  // The rewrites made on every input.
  // ---------------------------------------------------------------------

  /** `replace(/->/g, '→')`. */
  function ArrowPass(s: string): (r: string)
    ensures |r| <= |s|
    ensures r != [] ==> s != [] && (r[0] == Arrow || r[0] == s[0])
  {
    if |s| < 2 then s
    else if s[0] == '-' && s[1] == '>' then [Arrow] + ArrowPass(s[2..])
    else [s[0]] + ArrowPass(s[1..])
  }

  predicate NoArrowPair(s: string)
  {
    forall i :: 0 <= i < |s| - 1 ==> !(s[i] == '-' && s[i + 1] == '>')
  }

  /** After the rewrite no `->` is left. */
  lemma {:induction false} ArrowPassLeavesNone(s: string)
    ensures NoArrowPair(ArrowPass(s))
  {
    if |s| >= 2 {
      if s[0] == '-' && s[1] == '>' {
        ArrowPassLeavesNone(s[2..]);
        var r := ArrowPass(s[2..]);
        assert forall i :: 1 <= i < |r| ==> ([Arrow] + r)[i] == r[i - 1];
      } else {
        ArrowPassLeavesNone(s[1..]);
        var r := ArrowPass(s[1..]);
        assert r != [] && (r[0] == Arrow || r[0] == s[1]);
        assert forall i :: 1 <= i < |r| + 1 ==> ([s[0]] + r)[i] == r[i - 1];
      }
    }
  }

  /** The rewrite changes a text exactly when it holds an arrow. */
  lemma {:induction false} ArrowPassFixesArrowFree(s: string)
    requires NoArrowPair(s)
    ensures ArrowPass(s) == s
  {
    if |s| >= 2 {
      assert !(s[0] == '-' && s[1] == '>');
      forall i | 0 <= i < |s[1..]| - 1 ensures !(s[1..][i] == '-' && s[1..][i + 1] == '>') {
        assert s[1..][i] == s[i + 1] && s[1..][i + 1] == s[i + 2];
      }
      ArrowPassFixesArrowFree(s[1..]);
      assert [s[0]] + s[1..] == s;
    }
  }

  /** The length of the prefix free of `*` and newlines. */
  function PlainRun(t: string): (n: nat)
    ensures n <= |t| && forall i :: 0 <= i < n ==> t[i] != '*' && t[i] != '\n'
    ensures n < |t| ==> t[n] == '*' || t[n] == '\n'
  {
    if t != [] && t[0] != '*' && t[0] != '\n' then 1 + PlainRun(t[1..]) else 0
  }

  /** After an opening `*`: `([^*\n]+)\*(?!\*)` matches. */
  predicate ClosesItalic(t: string)
  {
    var n := PlainRun(t);
    n >= 1 && n < |t| && t[n] == '*' && (n + 1 == |t| || t[n + 1] != '*')
  }

  /**
   * `replace(/(?<!\*)\*([^*\n]+)\*(?!\*)/g, '**$1**')`, scanning left to
   * right; `afterStar` is whether the character before s is a `*`.
   */
  function BoldPass(s: string, afterStar: bool): string
    decreases |s|
  {
    if s == [] then []
    else if s[0] == '*' && !afterStar && ClosesItalic(s[1..]) then
      var n := PlainRun(s[1..]);
      "**" + s[1..n + 1] + "**" + BoldPass(s[n + 2..], true)
    else [s[0]] + BoldPass(s[1..], s[0] == '*')
  }

  /** The text with every c removed. */
  function Erase(s: string, c: char): string
  {
    if s == [] then [] else (if s[0] == c then [] else [s[0]]) + Erase(s[1..], c)
  }

  lemma {:induction false} EraseAppend(a: string, b: string, c: char)
    ensures Erase(a + b, c) == Erase(a, c) + Erase(b, c)
  {
    if a == [] {
      assert a + b == b;
    } else {
      var x := if a[0] == c then [] else [a[0]];
      assert (a + b)[0] == a[0] && (a + b)[1..] == a[1..] + b;
      EraseAppend(a[1..], b, c);
      calc {
        Erase(a + b, c);
        x + Erase(a[1..] + b, c);
        x + (Erase(a[1..], c) + Erase(b, c));
        (x + Erase(a[1..], c)) + Erase(b, c);
      }
    }
  }

  lemma {:induction false} EraseFree(s: string, c: char)
    requires c !in s
    ensures Erase(s, c) == s
  {
    if s != [] {
      EraseFree(s[1..], c);
    }
  }

  /** Erasing c from p + ins + out, where ins is all c and out erases like q. */
  lemma EraseInserted(p: string, ins: string, q: string, out: string, c: char)
    requires Erase(ins, c) == [] && Erase(out, c) == Erase(q, c)
    ensures Erase(p + ins + out, c) == Erase(p + q, c)
  {
    EraseAppend(p + ins, out, c);
    EraseAppend(p, ins, c);
    EraseAppend(p, q, c);
  }

  /** Doubling the stars around a star-free text does not change it once stars are erased. */
  lemma StarWrap(mid: string, rest: string, out: string)
    requires '*' !in mid && Erase(out, '*') == Erase(rest, '*')
    ensures Erase("**" + mid + "**" + out, '*') == Erase("*" + mid + "*" + rest, '*')
  {
    EraseFree(mid, '*');
    assert Erase("**", '*') == [] by { assert Erase("*", '*') == []; }
    EraseAppend("**" + mid + "**", out, '*');
    EraseAppend("**" + mid, "**", '*');
    EraseAppend("**", mid, '*');
    EraseAppend("*" + mid + "*", rest, '*');
    EraseAppend("*" + mid, "*", '*');
    EraseAppend("*", mid, '*');
  }

  /** A text opening and closing a star run, cut around the two stars. */
  lemma StarSplit(s: string, n: nat)
    requires n + 2 <= |s| && s[0] == '*' && s[n + 1] == '*'
    ensures s == "*" + s[1..n + 1] + "*" + s[n + 2..]
  {
    assert s == s[..1] + s[1..n + 1] + s[n + 1..n + 2] + s[n + 2..];
  }

  /** One `*x*` made bold, followed by a text that erases like the rest. */
  lemma BoldBranch(s: string, n: nat, out: string)
    requires s != [] && s[0] == '*' && ClosesItalic(s[1..]) && n == PlainRun(s[1..])
    requires Erase(out, '*') == Erase(s[n + 2..], '*')
    ensures Erase("**" + s[1..n + 1] + "**" + out, '*') == Erase(s, '*')
  {
    var mid := s[1..n + 1];
    assert '*' !in mid by {
      forall i | 0 <= i < |mid| ensures mid[i] != '*' {
        assert mid[i] == s[1..][i];
      }
    }
    assert s[n + 1] == s[1..][n] == '*';
    StarSplit(s, n);
    StarWrap(mid, s[n + 2..], out);
  }

  /** The bold rewrite only adds asterisks: erasing them gives back the same text. */
  lemma {:induction false} BoldPassOnlyAddsStars(s: string, afterStar: bool)
    ensures Erase(BoldPass(s, afterStar), '*') == Erase(s, '*')
    decreases |s|
  {
    if s != [] {
      if s[0] == '*' && !afterStar && ClosesItalic(s[1..]) {
        var n := PlainRun(s[1..]);
        BoldPassOnlyAddsStars(s[n + 2..], true);
        BoldBranch(s, n, BoldPass(s[n + 2..], true));
      } else {
        var out := BoldPass(s[1..], s[0] == '*');
        BoldPassOnlyAddsStars(s[1..], s[0] == '*');
        EraseInserted([s[0]], "", s[1..], out, '*');
        assert [s[0]] + "" + out == BoldPass(s, afterStar);
        assert [s[0]] + s[1..] == s;
      }
    }
  }

  /** A text with no asterisk is left alone. */
  lemma {:induction false} BoldPassStarFree(s: string, afterStar: bool)
    requires '*' !in s
    ensures BoldPass(s, afterStar) == s
    decreases |s|
  {
    if s != [] {
      BoldPassStarFree(s[1..], false);
      assert [s[0]] + s[1..] == s;
    }
  }

  lemma BoldPassExamples()
    ensures BoldPass("*hi*", false) == "**hi**"
    ensures BoldPass("**hi**", false) == "**hi**"
  {
    assert PlainRun("hi*") == 2;
    assert "*hi*"[1..3] == "hi";
    assert BoldPass([], true) == [];
    var s := "**hi**";
    assert !ClosesItalic(s[1..]) by { assert PlainRun(s[1..]) == 0; }
    assert BoldPass(s[1..], true) == [s[1]] + BoldPass(s[2..], true);
    assert !ClosesItalic(s[5..]);
    assert PlainRun(s[5..]) == 0;
    assert BoldPass(s[2..], true) == [s[2]] + BoldPass(s[3..], false);
    assert BoldPass(s[3..], false) == [s[3]] + BoldPass(s[4..], false);
    assert PlainRun(s[5..]) == 0;
    assert BoldPass(s[4..], false) == [s[4]] + BoldPass(s[5..], true);
    assert BoldPass(s[5..], true) == [s[5]] + BoldPass(s[6..], true);
  }

  /** The characters after which `^` matches in multiline mode. */
  predicate IsLineTerminator(c: char)
  {
    c == '\n' || c == '\r' || c == '\U{2028}' || c == '\U{2029}'
  }

  /** `/^(\d+)\.([^\s\d])/` at a line start. */
  predicate NumberDot(s: string)
  {
    var d := DigitRun(s);
    d >= 1 && d + 1 < |s| && s[d] == '.' && !IsJsSpace(s[d + 1]) && !IsDigit(s[d + 1])
  }

  /** `replace(/^(\d+)\.([^\s\d])/gm, '$1. $2')`; `atLineStart` is whether s starts a line. */
  function NumberPass(s: string, atLineStart: bool): string
    decreases |s|
  {
    if s == [] then []
    else if atLineStart && NumberDot(s) then
      var d := DigitRun(s);
      s[..d + 1] + " " + NumberPass(s[d + 1..], false)
    else [s[0]] + NumberPass(s[1..], IsLineTerminator(s[0]))
  }

  /** The numbering rewrite only adds spaces. */
  lemma {:induction false} NumberPassOnlyAddsSpaces(s: string, atLineStart: bool)
    ensures Erase(NumberPass(s, atLineStart), ' ') == Erase(s, ' ')
    decreases |s|
  {
    if s != [] {
      if atLineStart && NumberDot(s) {
        var d := DigitRun(s);
        var out := NumberPass(s[d + 1..], false);
        NumberPassOnlyAddsSpaces(s[d + 1..], false);
        assert Erase(" ", ' ') == [];
        EraseInserted(s[..d + 1], " ", s[d + 1..], out, ' ');
        assert s[..d + 1] + s[d + 1..] == s;
      } else {
        var out := NumberPass(s[1..], IsLineTerminator(s[0]));
        NumberPassOnlyAddsSpaces(s[1..], IsLineTerminator(s[0]));
        EraseInserted([s[0]], "", s[1..], out, ' ');
        assert [s[0]] + "" + out == NumberPass(s, atLineStart);
        assert [s[0]] + s[1..] == s;
      }
    }
  }

  lemma NumberPassExample()
    ensures NumberPass("1.x", true) == "1. x"
  {
    assert DigitRun("1.x") == 1;
    var out := NumberPass("x", false);
    assert out == "x" by {
      assert NumberPass("x"[1..], false) == [];
    }
    assert "1.x"[..2] == "1." && "1.x"[2..] == "x";
  }

  /**
   * handleInput: the three rewrites in order; when they change the text the
   * cursor moves to min(selectionStart, new length), else text and cursor
   * stay.
   */
  function HandleInput(v: string, sel: nat): (r: Edit)
    ensures r.content == v ==> r.cursor == sel
    ensures r.content != v ==> r.cursor <= |r.content| && r.cursor <= sel && (sel <= |r.content| ==> r.cursor == sel)
    ensures Erase(Erase(r.content, ' '), '*') == Erase(Erase(ArrowPass(v), ' '), '*')
  {
    var a := ArrowPass(v);
    var b := BoldPass(a, false);
    var c := NumberPass(b, true);
    NumberPassOnlyAddsSpaces(b, true);
    BoldPassOnlyAddsStars(a, false);
    EraseSpacesThenStars(b, a);
    if c != v then Edit(c, if sel < |c| then sel else |c|) else Edit(v, sel)
  }

  predicate OneLine(s: string)
  {
    forall i :: 0 <= i < |s| ==> !IsLineTerminator(s[i])
  }

  /**
   * A leading `*x*`, x a run of one line without asterisks and not followed
   * by another `*`, becomes `**x**`, whatever x and whatever follows.
   */
  lemma BoldWrapsItalic(x: string, t: string)
    requires x != [] && '*' !in x && '\n' !in x
    requires t == [] || t[0] != '*'
    ensures BoldPass("*" + x + "*" + t, false) == "**" + x + "**" + BoldPass(t, true)
  {
    var s := "*" + x + "*" + t;
    var u := s[1..];
    assert u == x + "*" + t;
    var n := PlainRun(u);
    assert forall i :: 0 <= i < |x| ==> u[i] == x[i];
    assert u[|x|] == '*';
    assert n == |x|;
    assert ClosesItalic(u);
    assert s[1..n + 1] == x && s[n + 2..] == t;
  }

  /**
   * At a line start, digits, a dot and a character that is neither a space
   * nor a digit get a space after the dot, whatever the digits and the
   * character.
   */
  lemma NumberGetsSpace(ds: string, c: char, t: string)
    requires ds != [] && forall i :: 0 <= i < |ds| ==> IsDigit(ds[i])
    requires !IsJsSpace(c) && !IsDigit(c)
    ensures NumberPass(ds + "." + [c] + t, true) == ds + ". " + [c] + NumberPass(t, false)
  {
    var s := ds + "." + [c] + t;
    var d := DigitRun(s);
    assert forall i :: 0 <= i < |ds| ==> s[i] == ds[i];
    assert s[|ds|] == '.' && !IsDigit('.');
    assert d == |ds|;
    assert NumberDot(s);
    assert s[..d + 1] == ds + "." && s[d + 1..] == [c] + t;
    assert ([c] + t)[1..] == t;
  }

  /** Inside a line the numbering rewrite changes nothing. */
  lemma {:induction false} NumberPassMidLine(s: string)
    requires OneLine(s)
    ensures NumberPass(s, false) == s
    decreases |s|
  {
    if s != [] {
      NumberPassMidLine(s[1..]);
      assert [s[0]] + s[1..] == s;
    }
  }

  /** Typing `*x*` on its own, x one line without asterisks or dashes, gives `**x**`. */
  lemma HandleInputBolds(x: string, sel: nat)
    requires x != [] && '*' !in x && '-' !in x && OneLine(x)
    ensures HandleInput("*" + x + "*", sel).content == "**" + x + "**"
  {
    var v := "*" + x + "*";
    assert NoArrowPair(v) by {
      forall i | 0 <= i < |v| - 1 ensures v[i] != '-' {
        if 1 <= i <= |x| {
          assert v[i] == x[i - 1];
        }
      }
    }
    ArrowPassFixesArrowFree(v);
    assert v == "*" + x + "*" + "";
    BoldWrapsItalic(x, "");
    var b := "**" + x + "**";
    assert BoldPass(v, false) == b;
    assert OneLine(b[1..]) by {
      forall i | 0 <= i < |b[1..]| ensures !IsLineTerminator(b[1..][i]) {
        if 1 <= i <= |x| {
          assert b[1..][i] == x[i - 1];
        }
      }
    }
    NumberPassMidLine(b[1..]);
    assert DigitRun(b) == 0;
    assert [b[0]] + b[1..] == b;
  }

  /**
   * Typing a numbered line `n.x…` without asterisks or dashes gives
   * `n. x…`: a space goes after the number's dot.
   */
  lemma HandleInputNumbers(ds: string, c: char, t: string, sel: nat)
    requires ds != [] && forall i :: 0 <= i < |ds| ==> IsDigit(ds[i])
    requires !IsJsSpace(c) && !IsDigit(c) && c != '*' && c != '-'
    requires '*' !in t && '-' !in t && OneLine(t)
    ensures HandleInput(ds + "." + [c] + t, sel).content == ds + ". " + [c] + t
  {
    var v := ds + "." + [c] + t;
    assert forall i :: 0 <= i < |v| ==> v[i] != '*' && v[i] != '-' by {
      forall i | 0 <= i < |v| ensures v[i] != '*' && v[i] != '-' {
        if i < |ds| {
          assert v[i] == ds[i];
        } else if i > |ds| + 1 {
          assert v[i] == t[i - |ds| - 2];
        }
      }
    }
    ArrowPassFixesArrowFree(v);
    BoldPassStarFree(v, false);
    NumberGetsSpace(ds, c, t);
    NumberPassMidLine(t);
  }

  lemma EraseSpacesThenStars(b: string, a: string)
    requires Erase(b, '*') == Erase(a, '*')
    ensures Erase(Erase(b, ' '), '*') == Erase(Erase(a, ' '), '*')
  {
    EraseCommutes(b, ' ', '*');
    EraseCommutes(a, ' ', '*');
  }

  lemma {:induction false} EraseCommutes(s: string, c: char, d: char)
    ensures Erase(Erase(s, c), d) == Erase(Erase(s, d), c)
  {
    if s != [] {
      EraseCommutes(s[1..], c, d);
      var x := if s[0] == c then [] else [s[0]];
      var y := if s[0] == d then [] else [s[0]];
      EraseAppend(x, Erase(s[1..], c), d);
      EraseAppend(y, Erase(s[1..], d), c);
    }
  }

  // ---------------------------------------------------------------------
  // The note list.
  // ---------------------------------------------------------------------

  /** The category filter and the case-insensitive search of the list. */
  predicate Shown(n: Note, category: string, term: string)
  {
    (category == "all" || n.category == category)
    && (Contains(Lower(n.title), Lower(term)) || Contains(Lower(n.content), Lower(term))
        || Contains(Lower(n.category), Lower(term)))
  }

  /** Pinned notes first, then the newest first. */
  function NoteKey(n: Note): Key
  {
    Key(if n.pinned then 0 else 1, -n.createdAt)
  }

  function ShownBy(category: string, term: string): Note -> bool
  {
    (n: Note) => Shown(n, category, term)
  }

  /** filteredNotes: the shown notes, pinned ones first, each group newest first. */
  function FilteredNotes(notes: seq<Note>, category: string, term: string): (r: seq<Note>)
    ensures multiset(r) == multiset(Filter(notes, ShownBy(category, term)))
    ensures forall i :: 0 <= i < |r| ==> Shown(r[i], category, term) && r[i] in notes
    ensures forall i :: 0 <= i < |notes| && Shown(notes[i], category, term) ==> notes[i] in r
    ensures forall i, j :: 0 <= i < j < |r| ==>
      (r[i].pinned || !r[j].pinned) && (r[i].pinned == r[j].pinned ==> r[i].createdAt >= r[j].createdAt)
  {
    var kept := Filter(notes, ShownBy(category, term));
    var r := SortByKey(kept, NoteKey);
    SortByKeySorted(kept, NoteKey);
    KeptShown(notes, kept, category, term);
    SortedShown(notes, kept, r, category, term);
    r
  }

  /** The sorted kept notes: the shown notes, in the list's order. */
  lemma SortedShown(notes: seq<Note>, kept: seq<Note>, r: seq<Note>, category: string, term: string)
    requires forall x :: x in kept ==> Shown(x, category, term) && x in notes
    requires forall i :: 0 <= i < |notes| && Shown(notes[i], category, term) ==> notes[i] in kept
    requires multiset(r) == multiset(kept) && SortedByKey(r, NoteKey)
    ensures forall i :: 0 <= i < |r| ==> Shown(r[i], category, term) && r[i] in notes
    ensures forall i :: 0 <= i < |notes| && Shown(notes[i], category, term) ==> notes[i] in r
    ensures forall i, j :: 0 <= i < j < |r| ==>
      (r[i].pinned || !r[j].pinned) && (r[i].pinned == r[j].pinned ==> r[i].createdAt >= r[j].createdAt)
  {
    NotesOrder(r);
    forall i | 0 <= i < |r| ensures Shown(r[i], category, term) && r[i] in notes {
      assert r[i] in multiset(kept);
    }
    forall i | 0 <= i < |notes| && Shown(notes[i], category, term) ensures notes[i] in r {
      assert notes[i] in multiset(r);
    }
  }

  /** Sorted by NoteKey: pinned notes first, each group newest first. */
  lemma NotesOrder(r: seq<Note>)
    requires SortedByKey(r, NoteKey)
    ensures forall i, j :: 0 <= i < j < |r| ==>
      (r[i].pinned || !r[j].pinned) && (r[i].pinned == r[j].pinned ==> r[i].createdAt >= r[j].createdAt)
  {
    forall i, j | 0 <= i < j < |r|
      ensures (r[i].pinned || !r[j].pinned) && (r[i].pinned == r[j].pinned ==> r[i].createdAt >= r[j].createdAt)
    {
      assert KeyLe(NoteKey(r[i]), NoteKey(r[j]));
    }
  }

  /** The kept notes are exactly the shown ones. */
  lemma KeptShown(notes: seq<Note>, kept: seq<Note>, category: string, term: string)
    requires kept == Filter(notes, ShownBy(category, term))
    ensures forall x :: x in kept ==> Shown(x, category, term) && x in notes
    ensures forall i :: 0 <= i < |notes| && Shown(notes[i], category, term) ==> notes[i] in kept
  {
    forall x | x in kept ensures Shown(x, category, term) && x in notes {
      var k :| 0 <= k < |kept| && kept[k] == x;
      assert ShownBy(category, term)(kept[k]);
    }
    forall i | 0 <= i < |notes| && Shown(notes[i], category, term) ensures notes[i] in kept {
      assert ShownBy(category, term)(notes[i]);
    }
  }

  /** An empty search with the 'all' category lists every note. */
  lemma EverythingShownByDefault(notes: seq<Note>)
    ensures multiset(FilteredNotes(notes, "all", "")) == multiset(notes)
  {
    forall n: Note ensures ShownBy("all", "")(n) {
      assert OccursAt(Lower(n.title), Lower(""), 0);
    }
    FilterAllKept(notes, ShownBy("all", ""));
  }

  /** The category chips: the distinct non-empty categories, in first-seen order. */
  function Categories(notes: seq<Note>): (r: seq<string>)
    ensures NoDuplicates(r)
    ensures forall i :: 0 <= i < |r| ==> r[i] != ""
    ensures forall i :: 0 <= i < |notes| && notes[i].category != "" ==> notes[i].category in r
    ensures forall i :: 0 <= i < |r| ==> exists j :: 0 <= j < |notes| && notes[j].category == r[i]
  {
    var cats := MapSeq(notes, (n: Note) => n.category);
    var named := Filter(cats, (c: string) => c != "");
    var r := Distinct(named);
    CategoriesCover(notes, cats, named, r);
    r
  }

  lemma CategoriesCover(notes: seq<Note>, cats: seq<string>, named: seq<string>, r: seq<string>)
    requires |cats| == |notes| && forall i :: 0 <= i < |notes| ==> cats[i] == notes[i].category
    requires forall i :: 0 <= i < |named| ==> named[i] in cats && named[i] != ""
    requires forall i :: 0 <= i < |cats| && cats[i] != "" ==> cats[i] in named
    requires (forall i :: 0 <= i < |r| ==> r[i] in named) && forall i :: 0 <= i < |named| ==> named[i] in r
    ensures forall i :: 0 <= i < |r| ==> r[i] != ""
    ensures forall i :: 0 <= i < |notes| && notes[i].category != "" ==> notes[i].category in r
    ensures forall i :: 0 <= i < |r| ==> exists j :: 0 <= j < |notes| && notes[j].category == r[i]
  {
    forall i | 0 <= i < |notes| && notes[i].category != "" ensures notes[i].category in r {
      assert cats[i] == notes[i].category;
      assert cats[i] in named;
      var k :| 0 <= k < |named| && named[k] == cats[i];
    }
    forall i | 0 <= i < |r| ensures r[i] != "" {
      var k :| 0 <= k < |named| && named[k] == r[i];
    }
    forall i | 0 <= i < |r| ensures exists j :: 0 <= j < |notes| && notes[j].category == r[i] {
      var k :| 0 <= k < |named| && named[k] == r[i];
      var j :| 0 <= j < |cats| && cats[j] == named[k];
      assert notes[j].category == r[i];
    }
  }

  datatype NoteDraft = NoteDraft(title: string, content: string, category: string, color: string)

  datatype NotePayload = NotePayload(title: string, content: string, category: string, color: string,
                                     createdAt: string, pinned: bool)

  /**
   * addNote's payload: rejected (None) when both the trimmed title and the
   * trimmed content are empty; else the trimmed fields, unpinned, stamped
   * with `now`.
   */
  function AddNotePayload(d: NoteDraft, now: string): (r: Option<NotePayload>)
    ensures r.None? <==> IsBlank(d.title) && IsBlank(d.content)
    ensures r.Some? ==> r.value == NotePayload(Trim(d.title), Trim(d.content), Trim(d.category), d.color, now, false)
    ensures r.Some? ==> r.value.title != "" || r.value.content != ""
  {
    TrimEmptyIffBlank(d.title);
    TrimEmptyIffBlank(d.content);
    if Trim(d.title) == "" && Trim(d.content) == "" then None
    else Some(NotePayload(Trim(d.title), Trim(d.content), Trim(d.category), d.color, now, false))
  }
}
