/**
 Line wrapping of cmds/screenrecord/TextRenderer.cpp, with exact numbers for the widths.
 */
module TextWrap {
  import opened Wrappers

  /** How far each character advances, scaled; glyphIndex replaces characters without a glyph. */
  datatype Font = Font(advance: char -> real)

  /** Every glyph of the font bitmap is wider than the two pixels that are merged away. */
  ghost predicate FontOk(f: Font) {
    forall c :: f.advance(c) > 0.0
  }

  predicate White(c: char) {
    c == ' ' || c == '\t' || c == '\n' || c == '\r'
  }

  /** computeScaledStringWidth. */
  function Width(f: Font, s: string): real {
    if s == [] then 0.0 else Width(f, s[..|s| - 1]) + f.advance(s[|s| - 1])
  }

  lemma {:induction false} WidthAppend(f: Font, a: string, b: string)
    ensures Width(f, a + b) == Width(f, a) + Width(f, b)
  {
    if b == [] {
      assert a + b == a;
    } else {
      assert (a + b)[..|a + b| - 1] == a + b[..|b| - 1];
      WidthAppend(f, a, b[..|b| - 1]);
    }
  }

  lemma {:induction false} WidthPositive(f: Font, s: string)
    requires FontOk(f)
    ensures Width(f, s) >= 0.0 && (s != [] ==> Width(f, s) > 0.0)
  {
    if s != [] {
      WidthPositive(f, s[..|s| - 1]);
    }
  }

  lemma WidthGrows(f: Font, s: string, i: nat, j: nat)
    requires FontOk(f) && i <= j <= |s|
    ensures Width(f, s[..i]) <= Width(f, s[..j])
  {
    assert s[..j] == s[..i] + s[i..j];
    WidthAppend(f, s[..i], s[i..j]);
    WidthPositive(f, s[i..j]);
  }

  // ----- breakString -----

  /** The loop that looks for the longest prefix that fits: it stops at the first that does not. */
  function LongestFrom(f: Font, s: string, w: real, i: nat): (r: nat)
    requires i < |s|
    ensures i <= r < |s|
    decreases |s| - i
  {
    if i + 1 < |s| && Width(f, s[..i + 1]) < w then LongestFrom(f, s, w, i + 1) else i
  }

  /** The longest proper prefix that fits, or one character if none does. */
  function GoodPos(f: Font, s: string, w: real): (g: nat)
    requires s != []
    ensures 1 <= g <= |s|
    ensures g == |s| ==> |s| == 1
  {
    if Width(f, []) < w && LongestFrom(f, s, w, 0) > 0 then LongestFrom(f, s, w, 0) else 1
  }

  /** The last position from `g` down to 1 that holds whitespace; the terminator counts as
      whitespace too.  If there is none, `g`. */
  function ScanBack(s: string, i: nat, g: nat): (r: nat)
    requires 1 <= g <= |s| && i <= g
    ensures 1 <= r <= g
  {
    if i == 0 then g else if i == |s| || White(s[i]) then i else ScanBack(s, i - 1, g)
  }

  /** breakString: where to break, or None if the whole string fits. */
  function BreakAt(f: Font, s: string, w: real): (r: Option<nat>)
    ensures r.Some? ==> 1 <= r.value <= |s|
    ensures r.Some? && r.value == |s| ==> |s| == 1
  {
    if s == [] || Width(f, s) <= w then None
    else
      var g := GoodPos(f, s, w);
      Some(ScanBack(s, g, g))
  }

  lemma {:induction false} LongestIs(f: Font, s: string, w: real, i: nat)
    requires FontOk(f) && i < |s| && Width(f, s[..i]) < w
    ensures var r := LongestFrom(f, s, w, i);
            Width(f, s[..r]) < w && (r + 1 < |s| ==> Width(f, s[..r + 1]) >= w)
    decreases |s| - i
  {
    if i + 1 < |s| && Width(f, s[..i + 1]) < w {
      LongestIs(f, s, w, i + 1);
    }
  }

  lemma {:induction false} ScanBackIs(s: string, i: nat, g: nat)
    requires 1 <= g < |s| && i <= g
    ensures var r := ScanBack(s, i, g);
            && (forall k :: r < k <= i ==> !White(s[k]))
            && ((r <= i && White(s[r])) || (r == g && forall k :: 1 <= k <= i ==> !White(s[k])))
  {
    if i > 0 && !White(s[i]) {
      ScanBackIs(s, i - 1, g);
    }
  }

  /** Where a break is: at the last whitespace inside the longest prefix that fits, which is one
      character if none does, or at that prefix's end if there is no whitespace in it. */
  lemma BreakIsRight(f: Font, s: string, w: real)
    requires FontOk(f) && BreakAt(f, s, w).Some?
    ensures Width(f, s) > w
    ensures var b, g := BreakAt(f, s, w).value, GoodPos(f, s, w);
            && (g > 1 ==> Width(f, s[..g]) < w)
            && (g + 1 < |s| ==> Width(f, s[..g + 1]) >= w)
            && (|s| > 1 ==>
                  && (forall k :: b < k <= g ==> !White(s[k]))
                  && (White(s[b]) || (b == g && forall k :: 1 <= k <= g ==> !White(s[k]))))
  {
    var g := GoodPos(f, s, w);
    assert s[..0] == [];
    if Width(f, []) < w {
      LongestIs(f, s, w, 0);
    } else if |s| > 2 {
      WidthGrows(f, s, 0, 2);
    }
    if g == 1 && |s| > 2 && Width(f, []) < w {
      WidthGrows(f, s, 1, 2);
    }
    if |s| > 1 {
      ScanBackIs(s, g, g);
    }
  }

  // ----- drawWrappedString -----

  /** A line that was drawn, and the whitespace that was skipped behind it. */
  datatype Piece = Piece(text: string, gap: string)

  /** `overrun`: the loop went past the terminator. */
  datatype Layout = Layout(pieces: seq<Piece>, overrun: bool)

  /** The whitespace at a break, if there is any, is skipped. */
  function Gap(s: string, g: nat): string
    requires g < |s|
  {
    if White(s[g]) then [s[g]] else ""
  }

  function Behind(s: string, g: nat): (r: string)
    requires 1 <= g < |s|
    ensures |r| < |s|
  {
    s[g + |Gap(s, g)|..]
  }

  /** The wrapping loop: the first line has `first` of space, the others `later`. */
  function Wrap(f: Font, s: string, first: real, later: real): (r: Layout)
    ensures |r.pieces| > 0
    decreases |s|
  {
    var b := BreakAt(f, s, first);
    if b.None? then Layout([Piece(s, "")], false)
    else if b.value == |s| then Layout([Piece(s, "")], true)
    else
      var r := Wrap(f, Behind(s, b.value), later, later);
      Layout([Piece(s[..b.value], Gap(s, b.value))] + r.pieces, r.overrun)
  }

  function Joined(ps: seq<Piece>): string {
    if ps == [] then "" else ps[0].text + ps[0].gap + Joined(ps[1..])
  }

  predicate GapOk(p: Piece) {
    p.gap == "" || (|p.gap| == 1 && White(p.gap[0]))
  }

  lemma JoinedCons(p: Piece, ps: seq<Piece>)
    ensures Joined([p] + ps) == p.text + p.gap + Joined(ps)
  {
    assert ([p] + ps)[1..] == ps;
  }

  /** Nothing of the text is lost or repeated: the lines and the whitespace skipped at breaks are
      the text. */
  lemma {:induction false} NothingLost(f: Font, s: string, first: real, later: real)
    ensures Joined(Wrap(f, s, first, later).pieces) == s
    decreases |s|
  {
    var b := BreakAt(f, s, first);
    if b.None? || b.value == |s| {
      JoinedCons(Piece(s, ""), []);
      assert [Piece(s, "")] + [] == [Piece(s, "")];
    } else {
      NothingLost(f, Behind(s, b.value), later, later);
      JoinedCons(Piece(s[..b.value], Gap(s, b.value)), Wrap(f, Behind(s, b.value), later, later).pieces);
      SplitAt(s, b.value);
    }
  }

  lemma SplitAt(s: string, g: nat)
    requires 1 <= g < |s|
    ensures s == s[..g] + Gap(s, g) + Behind(s, g)
  {
  }

  /** At most one whitespace is skipped a break. */
  lemma {:induction false} GapsAreSmall(f: Font, s: string, first: real, later: real, i: nat)
    requires i < |Wrap(f, s, first, later).pieces|
    ensures GapOk(Wrap(f, s, first, later).pieces[i])
    decreases |s|
  {
    var b := BreakAt(f, s, first);
    if b.Some? && b.value < |s| && i > 0 {
      GapsAreSmall(f, Behind(s, b.value), later, later, i - 1);
    }
  }

  ghost predicate Fits(f: Font, s: string, w: real) {
    forall i :: 0 <= i < |s| ==> f.advance(s[i]) <= w
  }

  lemma BreakFits(f: Font, s: string, w: real)
    requires FontOk(f) && BreakAt(f, s, w).Some? && Fits(f, s, w)
    ensures BreakAt(f, s, w).value < |s|
    ensures Width(f, s[..BreakAt(f, s, w).value]) <= w
  {
    BreakIsRight(f, s, w);
    var b, g := BreakAt(f, s, w).value, GoodPos(f, s, w);
    OneCharacter(f, s);
    WidthGrows(f, s, b, g);
  }

  lemma OneCharacter(f: Font, s: string)
    requires s != []
    ensures Width(f, s[..1]) == f.advance(s[0])
  {
    assert s[..1] == [s[0]];
    assert [s[0]][..0] == [];
  }

  /** No line from the first on exceeds its space. */
  ghost predicate LinesFit(f: Font, ps: seq<Piece>, first: real, later: real) {
    && ps != []
    && (ps[0].text == [] || Width(f, ps[0].text) <= first)
    && forall i :: 1 <= i < |ps| ==> ps[i].text == [] || Width(f, ps[i].text) <= later
  }

  lemma LinesFitCons(f: Font, p: Piece, ps: seq<Piece>, first: real, later: real)
    requires LinesFit(f, ps, later, later) && Width(f, p.text) <= first
    ensures LinesFit(f, [p] + ps, first, later)
  {
    var qs := [p] + ps;
    forall i | 1 <= i < |qs| ensures qs[i].text == [] || Width(f, qs[i].text) <= later {
      assert qs[i] == ps[i - 1];
    }
  }

  /** If the widest glyph of the text fits a continuation line, no line exceeds its space and the
      loop stays inside the text. */
  lemma {:induction false} NoLineTooWide(f: Font, s: string, first: real, later: real)
    requires FontOk(f) && Fits(f, s, later) && later <= first
    ensures !Wrap(f, s, first, later).overrun
    ensures LinesFit(f, Wrap(f, s, first, later).pieces, first, later)
    decreases |s|
  {
    var b := BreakAt(f, s, first);
    if b.Some? {
      BreakFits(f, s, first);
      var g := b.value;
      NoLineTooWide(f, Behind(s, g), later, later);
      LinesFitCons(f, Piece(s[..g], Gap(s, g)), Wrap(f, Behind(s, g), later, later).pieces, first, later);
    }
  }

  /** The last character does not fit the line it would be alone on. */
  predicate LastTooWide(f: Font, s: string, first: real, later: real)
    requires s != []
  {
    Width(f, s) > first && f.advance(s[|s| - 1]) > (if |s| == 1 then first else later)
  }

  lemma LastIsPart(f: Font, s: string)
    requires FontOk(f) && s != []
    ensures Width(f, s) >= f.advance(s[|s| - 1])
  {
    WidthPositive(f, s[..|s| - 1]);
  }

  function LastPiece(l: Layout): Piece
    requires l.pieces != []
  {
    l.pieces[|l.pieces| - 1]
  }

  /** The loop runs past the end of the text exactly if the last character is too wide for its
      line and is not skipped as the whitespace of a break, which leaves an empty last line. */
  lemma {:induction false} OverrunExactly(f: Font, s: string, first: real, later: real)
    requires FontOk(f) && s != []
    ensures var w := Wrap(f, s, first, later);
            w.overrun <==> LastTooWide(f, s, first, later) && LastPiece(w).text != []
    decreases |s|
  {
    var b := BreakAt(f, s, first);
    if b.Some? && b.value == |s| {
      OneCharacter(f, s);
      assert s[..1] == s;
    } else if b.Some? {
      var rest := Behind(s, b.value);
      var r := Wrap(f, rest, later, later);
      assert LastPiece(Wrap(f, s, first, later)) == LastPiece(r);
      if rest == [] {
        assert r.pieces == [Piece("", "")];
      } else {
        assert rest[|rest| - 1] == s[|s| - 1];
        OverrunExactly(f, rest, later, later);
        LastIsPart(f, rest);
      }
    }
  }

  /** Unless a text ends in two whitespace characters, its end tells whether the last character is
      skipped: it overruns exactly if that character is too wide, and is no whitespace or all of
      the text. */
  lemma {:induction false} OverrunByEnd(f: Font, s: string, first: real, later: real)
    requires FontOk(f) && s != []
    requires |s| == 1 || !White(s[|s| - 1]) || !White(s[|s| - 2])
    ensures Wrap(f, s, first, later).overrun
       <==> LastTooWide(f, s, first, later) && (|s| == 1 || !White(s[|s| - 1]))
    decreases |s|
  {
    var b := BreakAt(f, s, first);
    if |s| == 1 {
      assert s[..0] == [];
    }
    if b.Some? && b.value < |s| {
      var rest := Behind(s, b.value);
      if rest == [] {
        assert BreakAt(f, rest, later).None?;
      } else {
        assert rest[|rest| - 1] == s[|s| - 1];
        assert |rest| > 1 ==> rest[|rest| - 2] == s[|s| - 2];
        OverrunByEnd(f, rest, later, later);
        LastIsPart(f, rest);
      }
    }
  }

  // ----- Texts that end in whitespace -----

  /** The search for the longest prefix ends at the only place where it can. */
  lemma LongestIsAt(f: Font, s: string, w: real, r: nat)
    requires FontOk(f) && r < |s| && Width(f, []) < w && Width(f, s[..r]) < w
    requires r + 1 < |s| ==> Width(f, s[..r + 1]) >= w
    ensures LongestFrom(f, s, w, 0) == r
  {
    assert s[..0] == [];
    LongestIs(f, s, w, 0);
    var q := LongestFrom(f, s, w, 0);
    if q < r {
      WidthGrows(f, s, q + 1, r);
    } else if r < q {
      WidthGrows(f, s, r + 1, q);
    }
  }

  lemma OneMore(f: Font, u: string, c: char)
    ensures Width(f, u + [c]) == Width(f, u) + f.advance(c)
    ensures (u + [c])[..|u|] == u
  {
    assert (u + [c])[..|u|] == u;
  }

  /** One more character at the end does not change where a text that is too wide is broken. */
  lemma SameBreak(f: Font, u: string, c: char, w: real)
    requires FontOk(f) && |u| > 1 && Width(f, u) > w
    ensures BreakAt(f, u, w).Some? && BreakAt(f, u + [c], w) == BreakAt(f, u, w)
    ensures BreakAt(f, u, w).value < |u|
  {
    var s := u + [c];
    OneMore(f, u, c);
    assert u[..|u|] == u && s[..|u|] == u;
    if Width(f, []) < w {
      assert u[..0] == [];
      LongestIs(f, u, w, 0);
      var r := LongestFrom(f, u, w, 0);
      assert s[..r] == u[..r] && s[..r + 1] == u[..r + 1];
      LongestIsAt(f, s, w, r);
    }
    SameScan(u, c, GoodPos(f, u, w), GoodPos(f, u, w));
  }

  lemma {:induction false} SameScan(u: string, c: char, i: nat, g: nat)
    requires 1 <= g < |u| && i <= g
    ensures ScanBack(u + [c], i, g) == ScanBack(u, i, g)
  {
    if i > 0 && !White(u[i]) {
      SameScan(u, c, i - 1, g);
    }
  }

  /** For a text that fits, and then a character that does not. */
  lemma LongestBehind(f: Font, u: string, c: char, w: real)
    requires FontOk(f) && u != [] && Width(f, u) <= w
    ensures Width(f, []) < w
    ensures LongestFrom(f, u + [c], w, 0) == if Width(f, u) == w then |u| - 1 else |u|
  {
    var s, n := u + [c], |u|;
    OneMore(f, u, c);
    WidthPositive(f, u);
    if Width(f, u) < w {
      LongestIsAt(f, s, w, n);
    } else {
      OneMore(f, u[..n - 1], u[n - 1]);
      assert u == u[..n - 1] + [u[n - 1]];
      assert s[..n - 1] == u[..n - 1];
      LongestIsAt(f, s, w, n - 1);
    }
  }

  lemma ScanNone(s: string, g: nat)
    requires 1 <= g < |s| && White(s[g])
    ensures ScanBack(s, g, g) == g
  {
  }

  /** A text that fits, and then a whitespace that does not: the break is at the whitespace, unless
      the text fills its space to the last and ends in a whitespace itself, which is then taken. */
  lemma BreakBehind(f: Font, u: string, c: char, w: real)
    requires FontOk(f) && u != [] && Width(f, u) <= w < Width(f, u + [c]) && White(c) && White(u[|u| - 1])
    ensures BreakAt(f, u + [c], w) == Some(if |u| > 1 && Width(f, u) == w then |u| - 1 else |u|)
  {
    LongestBehind(f, u, c, w);
    ScanNone(u + [c], |u|);
    if |u| > 1 {
      ScanNone(u + [c], |u| - 1);
    }
  }

  /** A single character that is too wide for its line. */
  lemma BreakSingle(f: Font, x: char, w: real)
    requires f.advance(x) > w
    ensures BreakAt(f, [x], w) == Some(1)
  {
    OneCharacter(f, [x]);
    assert [x][..1] == [x];
  }

  lemma BreakSecond(f: Font, x: char, c: char, w: real)
    requires FontOk(f) && f.advance(x) > w && White(c)
    ensures BreakAt(f, [x, c], w) == Some(1)
  {
    OneCharacter(f, [x, c]);
    assert [x, c] == [x] + [c] && [x, c][..0] == [];
    OneMore(f, [x], c);
    if Width(f, []) < w {
      LongestIsAt(f, [x, c], w, 0);
    }
  }

  /** The layout of a text ends in an empty line, or in one of several characters that fills its
      space to the last. */
  predicate EndsFull(f: Font, s: string, first: real, later: real) {
    var ps := Wrap(f, s, first, later).pieces;
    var t, w := ps[|ps| - 1].text, if |ps| == 1 then first else later;
    t == [] || (|t| > 1 && Width(f, t) == w)
  }

  lemma EndsFullRest(f: Font, u: string, first: real, later: real)
    requires BreakAt(f, u, first).Some? && BreakAt(f, u, first).value < |u|
    ensures EndsFull(f, u, first, later) <==> EndsFull(f, Behind(u, BreakAt(f, u, first).value), later, later)
  {
  }

  lemma BehindMore(u: string, c: char, g: nat)
    requires 1 <= g < |u|
    ensures Behind(u + [c], g) == Behind(u, g) + [c]
  {
  }

  /** A text that ends in two whitespace characters, or is a single one, overruns exactly if the last
      one is too wide and the text before it ends full. */
  lemma {:induction false} OverrunByRest(f: Font, u: string, c: char, first: real, later: real)
    requires FontOk(f) && White(c) && (u != [] ==> White(u[|u| - 1]))
    ensures Wrap(f, u + [c], first, later).overrun
       <==> LastTooWide(f, u + [c], first, later) && EndsFull(f, u, first, later)
    decreases |u|
  {
    var s := u + [c];
    OverrunExactly(f, s, first, later);
    if LastTooWide(f, s, first, later) {
      if u == [] {
        assert s == [c];
        OneCharacter(f, s);
        BreakSingle(f, c, first);
      } else if Width(f, u) <= first {
        BreakBehind(f, u, c, first);
        assert s[|u|..] == [c] && s[|u| + 1..] == [];
        BreakSingle(f, c, later);
      } else if |u| == 1 {
        assert s == [u[0], c] && s[2..] == [];
        OneCharacter(f, u);
        assert u == [u[0]];
        BreakSingle(f, u[0], first);
        BreakSecond(f, u[0], c, first);
      } else {
        SameBreak(f, u, c, first);
        OverrunOfRest(f, u, c, first, later);
      }
    }
  }

  lemma {:induction false} OverrunOfRest(f: Font, u: string, c: char, first: real, later: real)
    requires FontOk(f) && White(c) && u != [] && White(u[|u| - 1])
    requires BreakAt(f, u, first).Some? && BreakAt(f, u, first).value < |u|
    requires BreakAt(f, u + [c], first) == BreakAt(f, u, first) && f.advance(c) > later
    ensures Wrap(f, u + [c], first, later).overrun <==> EndsFull(f, u, first, later)
    decreases |u|, 0
  {
    var b := BreakAt(f, u, first).value;
    var rest := Behind(u, b);
    BehindMore(u, c, b);
    EndsFullRest(f, u, first, later);
    LastIsPart(f, rest + [c]);
    OverrunByRest(f, rest, c, later, later);
  }

  /** For every text: it overruns exactly if its last character is too wide, and is no whitespace, or
      stands alone, or follows a whitespace behind which the text without it ends full. */
  lemma OverrunByText(f: Font, s: string, first: real, later: real)
    requires FontOk(f) && s != []
    ensures var n := |s|;
            Wrap(f, s, first, later).overrun
            <==> LastTooWide(f, s, first, later)
                 && (n == 1 || !White(s[n - 1]) || (White(s[n - 2]) && EndsFull(f, s[..n - 1], first, later)))
  {
    var n := |s|;
    if n == 1 || !White(s[n - 1]) || !White(s[n - 2]) {
      OverrunByEnd(f, s, first, later);
    } else {
      assert s == s[..n - 1] + [s[n - 1]];
      OverrunByRest(f, s[..n - 1], s[n - 1], first, later);
    }
  }

  /** A single glyph that is wider than the screen. */
  lemma OverrunExample()
    ensures Wrap(Font(c => 9.0), "m", 5.0, 5.0).overrun
  {
    var f := Font(c => 9.0);
    assert "m"[..0] == [];
    assert Width(f, "m") == 9.0;
  }

  // ----- The code -----

  /** A call of drawString. */
  datatype Drawn = Drawn(x: real, y: real, text: string)

  /** The renderer: the font, the indentation and the height of a line, all scaled, the border
      and the screen. */
  datatype Renderer = Renderer(font: Font, indent: real, lineHeight: real, border: real,
                               screenWidth: nat, screenHeight: nat)

  function Max(a: real, b: real): real {
    if a < b then b else a
  }

  /** The cast of a width to an unsigned integer. */
  function Truncated(r: real): nat {
    if r < 0.0 then 0 else r.Floor
  }

  method ScaledWidth(f: Font, s: string, len: nat) returns (width: real)
    requires len <= |s|
    ensures width == Width(f, s[..len])
  {
    width := 0.0;
    for i := 0 to len
      invariant width == Width(f, s[..i])
    {
      assert s[..i + 1][..i] == s[..i];
      width := width + f.advance(s[i]);
    }
  }

  method BreakString(f: Font, s: string, w: real) returns (r: Option<nat>)
    ensures r == BreakAt(f, s, w)
  {
    if s == [] {
      return None;
    }
    var width := ScaledWidth(f, s, |s|);
    assert s[..|s|] == s;
    if width <= w {
      return None;
    }
    var goodPos := LongestPrefix(f, s, w);
    if goodPos == 0 {
      goodPos := 1;
    }
    var g := goodPos;
    var i := g;
    while i > 0
      invariant 0 <= i <= g
      invariant ScanBack(s, g, g) == ScanBack(s, i, g)
    {
      if i == |s| || White(s[i]) {
        return Some(i);
      }
      i := i - 1;
    }
    return Some(g);
  }

  /** The forward loop of breakString. */
  method LongestPrefix(f: Font, s: string, w: real) returns (goodPos: nat)
    requires s != []
    ensures goodPos == if Width(f, []) < w then LongestFrom(f, s, w, 0) else 0
  {
    goodPos := 0;
    var i := 0;
    assert s[..0] == [];
    while i < |s|
      invariant 0 <= i <= |s|
      invariant i == 0 ==> goodPos == 0
      invariant i > 0 ==> goodPos == i - 1 && Width(f, []) < w
      invariant i > 0 ==> LongestFrom(f, s, w, 0) == LongestFrom(f, s, w, goodPos)
    {
      var width := ScaledWidth(f, s, i);
      if width < w {
        goodPos := i;
      } else {
        break;
      }
      i := i + 1;
    }
  }

  /** The lines of a layout, one below the other. */
  function Placed(ps: seq<Piece>, x: real, later: real, y: real, h: real): seq<Drawn> {
    if ps == [] then [] else [Drawn(x, y, ps[0].text)] + Placed(ps[1..], later, later, y + h, h)
  }

  /** The position `n` lines further down. */
  function Below(y: real, n: nat, h: real): real
    decreases n
  {
    if n == 0 then y else Below(y + h, n - 1, h)
  }

  /** What the wrapping loop does from a position on. */
  datatype Result = Result(drawn: seq<Drawn>, ypos: real, overrun: bool)

  function DrawFrom(f: Font, s: string, right: real, x: real, later: real, y: real, h: real): Result {
    var w := Wrap(f, s, right - x, right - later);
    Result(Placed(w.pieces, x, later, y, h), Below(y, |w.pieces|, h), w.overrun)
  }

  function Then(drawn: seq<Drawn>, r: Result): Result {
    r.(drawn := drawn + r.drawn)
  }

  lemma ThenThen(a: seq<Drawn>, b: seq<Drawn>, r: Result)
    ensures Then(a, Then(b, r)) == Then(a + b, r)
  {
    assert a + (b + r.drawn) == (a + b) + r.drawn;
  }

  /** One line, and then the rest. */
  lemma DrawStep(f: Font, s: string, right: real, x: real, later: real, y: real, h: real)
    ensures var b := BreakAt(f, s, right - x);
            var line := if b.None? then s else s[..b.value];
            var all := DrawFrom(f, s, right, x, later, y, h);
            if b.None? || b.value == |s| then all == Result([Drawn(x, y, line)], y + h, b.Some?)
            else
              var rest := DrawFrom(f, Behind(s, b.value), right, later, later, y + h, h);
              all == Then([Drawn(x, y, line)], rest)
  {
    var b := BreakAt(f, s, right - x);
    var ps := Wrap(f, s, right - x, right - later).pieces;
    if b.None? || b.value == |s| {
      assert ps == [Piece(s, "")] && s[..|s|] == s;
      assert ps[1..] == [];
      assert Placed([], later, later, y + h, h) == [];
      assert Below(y, 1, h) == Below(y + h, 0, h);
    } else {
      assert ps[1..] == Wrap(f, Behind(s, b.value), right - later, right - later).pieces;
    }
  }

  /** The lines drawn so far, one more, and then the rest. */
  lemma DrawNext(f: Font, s: string, right: real, x: real, later: real, y: real, h: real,
                 drawn: seq<Drawn>, line: seq<Drawn>, b: Option<nat>)
    requires b == BreakAt(f, s, right - x)
    requires line == [Drawn(x, y, if b.None? then s else s[..b.value])]
    ensures var all := Then(drawn, DrawFrom(f, s, right, x, later, y, h));
            if b.None? || b.value == |s| then all == Result(drawn + line, y + h, b.Some?)
            else all == Then(drawn + line, DrawFrom(f, Behind(s, b.value), right, later, later, y + h, h))
  {
    DrawStep(f, s, right, x, later, y, h);
    if b.Some? && b.value < |s| {
      ThenThen(drawn, line, DrawFrom(f, Behind(s, b.value), right, later, later, y + h, h));
    }
  }

  /** The wrapping loop of drawWrappedString. */
  method DrawPieces(f: Font, text: string, right: real, x: real, later: real, y: real, h: real)
    returns (drawn: seq<Drawn>, ypos: real, overrun: bool)
    ensures Result(drawn, ypos, overrun) == DrawFrom(f, text, right, x, later, y, h)
  {
    drawn, ypos, overrun := [], y, false;
    var start, xpos := text, x;
    ghost var all := DrawFrom(f, text, right, x, later, y, h);
    while true
      invariant all == Then(drawn, DrawFrom(f, start, right, xpos, later, ypos, h))
      decreases |start|
    {
      var brk := BreakString(f, start, right - xpos);
      var line := [Drawn(xpos, ypos, if brk.None? then start else start[..brk.value])];
      DrawNext(f, start, right, xpos, later, ypos, h, drawn, line, brk);
      drawn := drawn + line;
      ypos := ypos + h;
      if brk.None? || brk.value == |start| {
        return drawn, ypos, brk.Some?;
      }
      start := Behind(start, brk.value);
      xpos := later;
    }
  }

  /** drawWrappedString. */
  method DrawWrapped(r: Renderer, x: real, y: real, text: string)
    returns (drawn: seq<Drawn>, ypos: real, overrun: bool)
    ensures r.screenWidth == 0 || r.screenHeight == 0 ==> drawn == [] && ypos == y && !overrun
    ensures r.screenWidth > 0 && r.screenHeight > 0 ==>
              var x1, y1 := Max(x, r.border), Max(y, r.border);
              var right := r.screenWidth as real - r.border;
              if Truncated(right - x1) < 1 then drawn == [] && ypos == y1 && !overrun
              else if Width(r.font, text) <= Truncated(right - x1) as real then
                drawn == [Drawn(x1, y1, text)] && ypos == y1 + r.lineHeight && !overrun
              else
                Result(drawn, ypos, overrun)
                == DrawFrom(r.font, text, right, x1, x1 + r.indent, y1, r.lineHeight)
  {
    if r.screenWidth == 0 || r.screenHeight == 0 {
      return [], y, false;
    }
    var x1, y1 := Max(x, r.border), Max(y, r.border);
    var right := r.screenWidth as real - r.border;
    var maxWidth := Truncated(right - x1);
    if maxWidth < 1 {
      return [], y1, false;
    }
    var width := ScaledWidth(r.font, text, |text|);
    assert text[..|text|] == text;
    if width <= maxWidth as real {
      return [Drawn(x1, y1, text)], y1 + r.lineHeight, false;
    }
    drawn, ypos, overrun := DrawPieces(r.font, text, right, x1, x1 + r.indent, y1, r.lineHeight);
  }
}
