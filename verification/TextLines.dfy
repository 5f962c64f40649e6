/**
 Which line holds what and where it is drawn by the line wrapping of
 cmds/screenrecord/TextRenderer.cpp.
 */
module TextLines {
  import opened TextWrap
  import opened Wrappers

  /** The space of line `k`. */
  function Space(k: nat, first: real, later: real): real {
    if k == 0 then first else later
  }

  /** What is left of the text at line `k`. */
  function From(ps: seq<Piece>, k: nat): string
    requires k <= |ps|
  {
    Joined(ps[k..])
  }

  lemma FromFirst(s: string, ps: seq<Piece>, rest: seq<Piece>, p: Piece, k: nat)
    requires ps == [p] + rest && k <= |rest|
    ensures From(ps, k + 1) == From(rest, k)
  {
    assert ps[k + 1..] == rest[k..];
  }

  /** A line that is not the last one ends where the text that is left breaks in the line's own space,
      and the character at the break is skipped exactly if it is whitespace. */
  predicate BrokenRight(f: Font, rest: string, p: Piece, w: real) {
    var n := |p.text|;
    && n < |rest| && p.text == rest[..n] && BreakAt(f, rest, w) == Some(n)
    && p.gap == if rest[n] == ' ' || rest[n] == '\t' || rest[n] == '\n' || rest[n] == '\r' then [rest[n]] else ""
  }

  /** The last line holds all that is left: it fits, or the loop overruns with one character. */
  predicate EndsRight(f: Font, rest: string, p: Piece, w: real, overrun: bool) {
    && p.text == rest && p.gap == ""
    && (overrun <==> rest != "" && Width(f, rest) > w) && (overrun ==> |rest| == 1)
  }

  /** Every line but the last is broken right in its space, which is `first` for the first line and
      `later` for the others, and the last one ends right. */
  lemma {:induction false} LinesAreBreaks(f: Font, s: string, first: real, later: real, k: nat)
    requires k < |Wrap(f, s, first, later).pieces|
    ensures var l := Wrap(f, s, first, later);
            var ps, w := l.pieces, Space(k, first, later);
            if k + 1 < |ps| then BrokenRight(f, From(ps, k), ps[k], w)
            else EndsRight(f, From(ps, k), ps[k], w, l.overrun)
    decreases |s|
  {
    var b, l := BreakAt(f, s, first), Wrap(f, s, first, later);
    var ps := l.pieces;
    NothingLost(f, s, first, later);
    assert ps[0..] == ps;
    if b.Some? && b.value < |s| {
      var r := Wrap(f, Behind(s, b.value), later, later);
      assert ps == [ps[0]] + r.pieces;
      if k > 0 {
        FromFirst(s, ps, r.pieces, ps[0], k - 1);
        LinesAreBreaks(f, Behind(s, b.value), later, later, k - 1);
      }
    }
  }

  // ----- Positions -----

  lemma {:induction false} BelowIs(y: real, n: nat, h: real)
    ensures Below(y, n, h) == y + n as real * h
    decreases n
  {
    if n > 0 {
      BelowIs(y + h, n - 1, h);
      assert n as real == (n - 1) as real + 1.0;
      assert n as real * h == (n - 1) as real * h + h;
    }
  }

  /** Line `k` is drawn `k` line heights below the first one, at the first line's position or, behind
      it, at that of the continuation lines. */
  lemma {:induction false} LinePositions(ps: seq<Piece>, x: real, later: real, y: real, h: real, k: nat)
    requires k < |ps|
    ensures |Placed(ps, x, later, y, h)| == |ps|
    ensures Placed(ps, x, later, y, h)[k] == Drawn(if k == 0 then x else later, y + k as real * h, ps[k].text)
  {
    if k > 0 {
      LinePositions(ps[1..], later, later, y + h, h, k - 1);
      assert k as real == (k - 1) as real + 1.0;
      assert k as real * h == (k - 1) as real * h + h;
    } else if |ps| > 1 {
      LinePositions(ps[1..], later, later, y + h, h, 0);
    }
  }

  /** What the wrapping loop draws. */
  lemma DrawnLines(f: Font, s: string, right: real, x: real, later: real, y: real, h: real, k: nat)
    requires k < |Wrap(f, s, right - x, right - later).pieces|
    ensures var l, r := Wrap(f, s, right - x, right - later), DrawFrom(f, s, right, x, later, y, h);
            && |r.drawn| == |l.pieces| && r.overrun == l.overrun
            && r.drawn[k] == Drawn(if k == 0 then x else later, y + k as real * h, l.pieces[k].text)
  {
    var l := Wrap(f, s, right - x, right - later);
    LinePositions(l.pieces, x, later, y, h, k);
    DrawnIs(f, s, right, x, later, y, h, l);
  }

  /** It ends below the last line. */
  lemma DrawnEnd(f: Font, s: string, right: real, x: real, later: real, y: real, h: real, n: nat)
    requires n == |Wrap(f, s, right - x, right - later).pieces|
    ensures DrawFrom(f, s, right, x, later, y, h).ypos == y + n as real * h
  {
    DrawnIs(f, s, right, x, later, y, h, Wrap(f, s, right - x, right - later));
    EndIs(DrawFrom(f, s, right, x, later, y, h).ypos, y, n, h);
  }

  lemma EndIs(end: real, y: real, n: nat, h: real)
    requires end == Below(y, n, h)
    ensures end == y + n as real * h
  {
    BelowIs(y, n, h);
  }

  lemma DrawnIs(f: Font, s: string, right: real, x: real, later: real, y: real, h: real, l: Layout)
    requires l == Wrap(f, s, right - x, right - later)
    ensures DrawFrom(f, s, right, x, later, y, h)
         == Result(Placed(l.pieces, x, later, y, h), Below(y, |l.pieces|, h), l.overrun)
  {
  }
}
