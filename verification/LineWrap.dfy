/** Greedy wrapping of chat lines and the colouring of pending text (cli/chat_tui.go). The width of a
    rune, runewidth.RuneWidth in the program, is an arbitrary natural number here. */
module LineWrap {
  import opened Text

  function Width(s: string, w: char -> nat): nat {
    if s == "" then 0 else Width(s[..|s| - 1], w) + w(s[|s| - 1])
  }

  /** The lines of `current + rest`, where `current` already stands on the first line. */
  function Wrap(current: string, rest: string, limit: nat, w: char -> nat): (lines: seq<string>)
    ensures |lines| > 0
    decreases |rest|
  {
    if rest == "" then [current]
    else if Width(current, w) > 0 && Width(current, w) + w(rest[0]) > limit
    then [current] + Wrap([rest[0]], rest[1..], limit, w)
    else Wrap(current + [rest[0]], rest[1..], limit, w)
  }

  lemma WidthSnoc(s: string, c: char, w: char -> nat)
    ensures Width(s + [c], w) == Width(s, w) + w(c)
  {
    assert (s + [c])[..|s|] == s;
  }

  lemma {:induction false} WidthAppend(s: string, t: string, w: char -> nat)
    ensures Width(s + t, w) == Width(s, w) + Width(t, w)
  {
    if t == "" {
      assert s + t == s;
    } else {
      var t', c := t[..|t| - 1], t[|t| - 1];
      WidthAppend(s, t', w);
      WidthSnoc(s + t', c, w);
      assert s + t == s + t' + [c];
    }
  }

  /** Wrapping neither loses, adds nor reorders a rune. */
  lemma {:induction false} WrapKeepsText(current: string, rest: string, limit: nat, w: char -> nat)
    ensures Concat(Wrap(current, rest, limit, w)) == current + rest
    decreases |rest|
  {
    if rest == "" {
      assert Concat([current]) == current + Concat([]);
    } else if Width(current, w) > 0 && Width(current, w) + w(rest[0]) > limit {
      WrapKeepsText([rest[0]], rest[1..], limit, w);
      assert ([current] + Wrap([rest[0]], rest[1..], limit, w))[1..] == Wrap([rest[0]], rest[1..], limit, w);
      assert rest == [rest[0]] + rest[1..];
    } else {
      WrapKeepsText(current + [rest[0]], rest[1..], limit, w);
    }
  }

  predicate NoWideRune(s: string, limit: nat, w: char -> nat) {
    forall i :: 0 <= i < |s| ==> w(s[i]) <= limit
  }

  /** A line is only too wide because of one rune that no line could hold: its last one, after nothing
      but zero-width runes. */
  predicate FitsOrMust(line: string, limit: nat, w: char -> nat) {
    && (Width(line, w) <= limit <==> NoWideRune(line, limit, w))
    && (Width(line, w) > limit ==> line != "" && w(line[|line| - 1]) > limit && Width(line[..|line| - 1], w) == 0)
  }

  lemma AddRune(line: string, c: char, limit: nat, w: char -> nat)
    requires FitsOrMust(line, limit, w) && (Width(line, w) == 0 || Width(line, w) + w(c) <= limit)
    ensures FitsOrMust(line + [c], limit, w)
  {
    WidthSnoc(line, c, w);
    assert (line + [c])[..|line|] == line;
    assert (line + [c])[|line|] == c;
    assert forall i :: 0 <= i < |line| ==> (line + [c])[i] == line[i];
  }

  lemma {:induction false} WrapFits(current: string, rest: string, limit: nat, w: char -> nat)
    requires FitsOrMust(current, limit, w)
    ensures forall i :: 0 <= i < |Wrap(current, rest, limit, w)| ==>
              FitsOrMust(Wrap(current, rest, limit, w)[i], limit, w)
    decreases |rest|
  {
    if rest != "" {
      if Width(current, w) > 0 && Width(current, w) + w(rest[0]) > limit {
        AddRune("", rest[0], limit, w);
        assert "" + [rest[0]] == [rest[0]];
        WrapFits([rest[0]], rest[1..], limit, w);
      } else {
        AddRune(current, rest[0], limit, w);
        WrapFits(current + [rest[0]], rest[1..], limit, w);
      }
    }
  }

  /** `pieces` are consecutive pieces of `text`, none wider than `limit`. */
  predicate FittingSplit(pieces: seq<string>, text: string, limit: nat, w: char -> nat) {
    Concat(pieces) == text && forall i :: 0 <= i < |pieces| ==> Width(pieces[i], w) <= limit
  }

  lemma PrefixIsNarrower(s: string, t: string, w: char -> nat)
    requires s <= t
    ensures Width(s, w) <= Width(t, w)
  {
    WidthAppend(s, t[|s|..], w);
    assert t == s + t[|s|..];
  }

  lemma Overlap(a: string, b: string, c: string, d: string)
    requires a + b == c + d && |a| <= |c|
    ensures a <= c && b == c[|a|..] + d
  {
    assert a == (a + b)[..|a|] == (c + d)[..|a|] == c[..|a|];
    assert b == (a + b)[|a|..] == (c + d)[|a|..] == c[|a|..] + d;
  }

  /** A piece that fits ends before a stretch that does not. */
  lemma FirstPieceIsShort(piece: string, tail: string, before: string, rest: string, wide: string, after: string,
                          limit: nat, w: char -> nat)
    requires piece + tail == before + rest && piece + tail == wide + after && |wide| == |before| + 1
    requires Width(piece, w) <= limit < Width(wide, w)
    ensures |piece| <= |before| && tail == before[|piece|..] + rest
  {
    if |piece| > |before| {
      Overlap(wide, after, piece, tail);
      PrefixIsNarrower(wide, piece, w);
    } else {
      Overlap(piece, tail, before, rest);
    }
  }

  /** The greedy lines of a text are no more than the pieces of any fitting split of it, even when the
      split has to cover some text in front as well. */
  lemma {:induction false} WrapIsShortest(front: string, current: string, rest: string, limit: nat, w: char -> nat,
                                          pieces: seq<string>)
    requires FittingSplit(pieces, front + current + rest, limit, w) && current + rest != ""
    ensures |Wrap(current, rest, limit, w)| <= |pieces|
    decreases |rest|
  {
    assert pieces != [];
    if rest != "" {
      var c, after := rest[0], rest[1..];
      assert rest == [c] + after;
      if Width(current, w) > 0 && Width(current, w) + w(c) > limit {
        var before := front + current;
        assert before + rest == before + [c] + after;
        WidthSnoc(before, c, w);
        WidthAppend(front, current, w);
        FirstPieceIsShort(pieces[0], Concat(pieces[1..]), before, rest, before + [c], after, limit, w);
        assert before[|pieces[0]|..] + rest == before[|pieces[0]|..] + [c] + after;
        assert FittingSplit(pieces[1..], before[|pieces[0]|..] + [c] + after, limit, w);
        WrapIsShortest(before[|pieces[0]|..], [c], after, limit, w, pieces[1..]);
      } else {
        assert front + (current + [c]) + after == front + current + rest;
        WrapIsShortest(front, current + [c], after, limit, w, pieces);
      }
    }
  }

  /** What wrapping a whole text promises: the text is kept; all lines fit exactly if every rune does;
      and then there is no way to cut the text into fewer fitting lines. */
  lemma WrapIsOptimal(text: string, limit: nat, w: char -> nat)
    ensures var lines := Wrap("", text, limit, w);
            && Concat(lines) == text
            && (FittingSplit(lines, text, limit, w) <==> NoWideRune(text, limit, w))
            && (forall i :: 0 <= i < |lines| ==> FitsOrMust(lines[i], limit, w))
            && (text != "" ==> forall pieces :: FittingSplit(pieces, text, limit, w) ==> |lines| <= |pieces|)
  {
    var lines := Wrap("", text, limit, w);
    WrapKeepsText("", text, limit, w);
    WrapFits("", text, limit, w);
    NoWideRuneInPieces(lines, limit, w);
    forall pieces | text != "" && FittingSplit(pieces, text, limit, w) ensures |lines| <= |pieces| {
      assert "" + "" + text == text;
      WrapIsShortest("", "", text, limit, w, pieces);
    }
  }

  lemma {:induction false} NoWideRuneInPieces(pieces: seq<string>, limit: nat, w: char -> nat)
    ensures NoWideRune(Concat(pieces), limit, w) <==> forall i :: 0 <= i < |pieces| ==> NoWideRune(pieces[i], limit, w)
  {
    if pieces != [] {
      var s, t := pieces[0], Concat(pieces[1..]);
      NoWideRuneInPieces(pieces[1..], limit, w);
      assert forall i :: 0 <= i < |s| ==> (s + t)[i] == s[i];
      assert forall i :: 0 <= i < |t| ==> (s + t)[|s| + i] == t[i];
      assert forall i :: 0 <= i < |pieces| - 1 ==> pieces[1..][i] == pieces[i + 1];
      assert pieces == [s] + pieces[1..];
      if NoWideRune(s, limit, w) && NoWideRune(t, limit, w) {
        assert NoWideRune(s + t, limit, w);
      }
    }
  }

  // ----- Pending text

  const ESC := '\U{1b}'
  const COLOR_START := [ESC] + "[38;5;"
  const RESET := [ESC] + "[0m"

  /** Go's `%`, whose result has the sign of the dividend. */
  function GoMod(n: int, mod: int): int
    requires mod > 0
  {
    if n < 0 then -((-n) % mod) else n % mod
  }

  function PositiveMod(n: int, mod: int): (r: int)
    ensures mod > 0 ==> 0 <= r < mod && exists q :: n == q * mod + r
  {
    if mod <= 0 then 0
    else
      var m := GoMod(n, mod);
      assert m == n - mod * (if n < 0 then -((-n) / mod) else n / mod);
      var q := if n < 0 then -((-n) / mod) else n / mod;
      assert n == q * mod + m;
      if m < 0 then
        assert n == (q - 1) * mod + (m + mod);
        m + mod
      else m
  }

  /** The colour sequences and runes of the first `n` runes. */
  function Colored(text: string, frame: int, colors: seq<string>, n: nat): string
    requires n <= |text| && colors != []
  {
    if n == 0 then ""
    else
      Colored(text, frame, colors, n - 1)
      + (COLOR_START + colors[PositiveMod(n - 1 - frame, |colors|)] + "m" + [text[n - 1]])
  }

  method ColorPendingText(text: string, frame: int, colors: seq<string>) returns (out: string)
    ensures out == if text == "" || colors == [] then text else Colored(text, frame, colors, |text|) + RESET
  {
    if |text| == 0 || |colors| == 0 {
      return text;
    }
    out := "";
    for i := 0 to |text|
      invariant out == Colored(text, frame, colors, i)
    {
      var color := colors[PositiveMod(i - frame, |colors|)];
      out := out + (COLOR_START + color + "m" + [text[i]]);
    }
    out := out + RESET;
  }

  /** What a terminal shows: escape sequences, from ESC to the next `m`, are invisible. */
  function Visible(s: string, escaped: bool): string {
    if s == "" then ""
    else if escaped then Visible(s[1..], s[0] != 'm')
    else if s[0] == ESC then Visible(s[1..], true)
    else [s[0]] + Visible(s[1..], false)
  }

  lemma {:induction false} VisibleEscape(sequence: string, s: string)
    requires 'm' !in sequence
    ensures Visible(sequence + "m" + s, true) == Visible(s, false)
  {
    if sequence == "" {
      assert (sequence + "m" + s)[1..] == s;
    } else {
      assert (sequence + "m" + s)[1..] == sequence[1..] + "m" + s;
      VisibleEscape(sequence[1..], s);
    }
  }

  lemma {:induction false} VisibleOfColored(text: string, frame: int, colors: seq<string>, n: nat, s: string)
    requires n <= |text| && colors != [] && ESC !in text
    requires forall i :: 0 <= i < |colors| ==> 'm' !in colors[i]
    ensures Visible(Colored(text, frame, colors, n) + s, false) == text[..n] + Visible(s, false)
  {
    if n == 0 {
      assert Colored(text, frame, colors, n) + s == s;
    } else {
      var color, c := colors[PositiveMod(n - 1 - frame, |colors|)], text[n - 1];
      var sequence := "[38;5;" + color;
      var tail := [ESC] + (sequence + "m" + ([c] + s));
      assert Colored(text, frame, colors, n) + s == Colored(text, frame, colors, n - 1) + tail;
      VisibleOfColored(text, frame, colors, n - 1, tail);
      VisibleEscape(sequence, [c] + s);
      assert tail[1..] == sequence + "m" + ([c] + s);
      assert ([c] + s)[1..] == s;
      assert text[..n] == text[..n - 1] + [c];
    }
  }

  /** Rune `i` is shown in colour number `i - frame`, counted around the palette: the colours move by one rune
      from frame to frame. */
  lemma {:induction false} RuneColor(text: string, frame: int, colors: seq<string>, n: nat, i: nat)
    returns (left: string, right: string)
    requires i < n <= |text| && colors != []
    ensures Colored(text, frame, colors, n) ==
            left + ([ESC] + "[38;5;" + colors[PositiveMod(i - frame, |colors|)] + "m" + [text[i]]) + right
    ensures ESC !in text && (forall k :: 0 <= k < |colors| ==> 'm' !in colors[k]) ==>
              Visible(left, false) == text[..i]
  {
    if i == n - 1 {
      left, right := Colored(text, frame, colors, i), "";
      var piece := COLOR_START + colors[PositiveMod(i - frame, |colors|)] + "m" + [text[i]];
      assert left + piece + right == left + piece;
      if ESC !in text && forall k :: 0 <= k < |colors| ==> 'm' !in colors[k] {
        VisibleOfColored(text, frame, colors, i, "");
        assert left + "" == left;
      }
    } else {
      left, right := RuneColor(text, frame, colors, n - 1, i);
      var piece := COLOR_START + colors[PositiveMod(n - 1 - frame, |colors|)] + "m" + [text[n - 1]];
      var mine := [ESC] + "[38;5;" + colors[PositiveMod(i - frame, |colors|)] + "m" + [text[i]];
      assert left + mine + right + piece == left + mine + (right + piece);
      right := right + piece;
    }
  }

  /** Colouring pending text does not change what is read. */
  lemma ColoringIsInvisible(text: string, frame: int, colors: seq<string>)
    requires text != "" && colors != [] && ESC !in text
    requires forall i :: 0 <= i < |colors| ==> 'm' !in colors[i]
    ensures Visible(Colored(text, frame, colors, |text|) + RESET, false) == text
  {
    VisibleOfColored(text, frame, colors, |text|, RESET);
    assert RESET[1..] == "[0" + "m" + "";
    VisibleEscape("[0", "");
  }

  // ----- The loop

  function Max(a: int, b: int): int { if a < b then b else a }

  function Spaces(n: nat): string { seq(n, _ => ' ') }

  function Shown(content: string, pending: bool, frame: int, colors: seq<string>): string {
    if !pending || content == "" || colors == [] then content
    else Colored(content, frame, colors, |content|) + RESET
  }

  /** Pending text is coloured, other text is shown as it is; either way it reads the same. */
  lemma ShownIsRead(content: string, pending: bool, frame: int, colors: seq<string>)
    requires ESC !in content && forall i :: 0 <= i < |colors| ==> 'm' !in colors[i]
    ensures Visible(Shown(content, pending, frame, colors), false) == content
    ensures Shown(content, pending, frame, colors) == content <==> !pending || content == "" || colors == []
  {
    VisibleOfPlain(content);
    if pending && content != "" && colors != [] {
      ColoringIsInvisible(content, frame, colors);
      var left, right := RuneColor(content, frame, colors, |content|, 0);
      assert ESC in Shown(content, pending, frame, colors);
    }
  }

  lemma {:induction false} VisibleOfPlain(s: string)
    requires ESC !in s
    ensures Visible(s, false) == s
  {
    if s != "" {
      VisibleOfPlain(s[1..]);
      assert s == [s[0]] + s[1..];
    }
  }

  /** The prefix stands in front of the first line, blanks of the same width in front of the others. */
  function Lines(contents: seq<string>, prefix: string, indent: string, pending: bool, frame: int,
                 colors: seq<string>): (lines: seq<string>)
  {
    if contents == [] then []
    else
      var last := |contents| - 1;
      Lines(contents[..last], prefix, indent, pending, frame, colors)
      + [(if last == 0 then prefix else indent) + Shown(contents[last], pending, frame, colors)]
  }

  lemma {:induction false} EachLine(contents: seq<string>, prefix: string, indent: string, pending: bool, frame: int,
                                    colors: seq<string>)
    ensures var lines := Lines(contents, prefix, indent, pending, frame, colors);
            && |lines| == |contents|
            && forall i :: 0 <= i < |lines| ==>
                 lines[i] == (if i == 0 then prefix else indent) + Shown(contents[i], pending, frame, colors)
  {
    if contents != [] {
      EachLine(contents[..|contents| - 1], prefix, indent, pending, frame, colors);
    }
  }

  lemma FlushedLine(contents: seq<string>, content: string, prefix: string, indent: string, pending: bool, frame: int,
                    colors: seq<string>)
    ensures Lines(contents + [content], prefix, indent, pending, frame, colors)
            == Lines(contents, prefix, indent, pending, frame, colors)
               + [(if contents == [] then prefix else indent) + Shown(content, pending, frame, colors)]
  {
    assert (contents + [content])[..|contents|] == contents;
  }

  lemma WrapStep(contents: seq<string>, current: string, text: string, k: nat, limit: nat, w: char -> nat)
    requires k < |text|
    ensures contents + Wrap(current, text[k..], limit, w)
            == if Width(current, w) > 0 && Width(current, w) + w(text[k]) > limit
               then contents + [current] + Wrap([text[k]], text[k + 1..], limit, w)
               else contents + Wrap(current + [text[k]], text[k + 1..], limit, w)
  {
    assert text[k..][1..] == text[k + 1..];
  }

  method WrapChatLine(prefix: string, text: string, width: int, pending: bool, frame: int, colors: seq<string>,
                      w: char -> nat, stringWidth: string -> nat)
    returns (lines: seq<string>)
    ensures lines == Lines(Wrap("", text, Max(1, width - stringWidth(prefix)), w), prefix, Spaces(stringWidth(prefix)),
                           pending, frame, colors)
  {
    var prefixWidth := stringWidth(prefix);
    var limit := Max(1, width - prefixWidth);
    var indent := Spaces(prefixWidth);
    ghost var contents, all := [], Wrap("", text, limit, w);
    var p, current, currentWidth := prefix, "", 0;
    lines := [];
    for k := 0 to |text|
      invariant contents + Wrap(current, text[k..], limit, w) == all
      invariant currentWidth == Width(current, w)
      invariant p == if contents == [] then prefix else indent
      invariant lines == Lines(contents, prefix, indent, pending, frame, colors)
    {
      var r := text[k];
      var rw := w(r);
      WrapStep(contents, current, text, k, limit, w);
      if currentWidth > 0 && currentWidth + rw > limit {
        var content := Flush(current, pending, frame, colors);
        lines := lines + [p + content];
        FlushedLine(contents, current, prefix, indent, pending, frame, colors);
        contents := contents + [current];
        current, currentWidth := "", 0;
        p := indent;
      }
      WidthSnoc(current, r, w);
      current := current + [r];
      currentWidth := currentWidth + rw;
    }
    var content := Flush(current, pending, frame, colors);
    lines := lines + [p + content];
    FlushedLine(contents, current, prefix, indent, pending, frame, colors);
    assert text[|text|..] == "";
    assert all == contents + [current];
  }

  method Flush(current: string, pending: bool, frame: int, colors: seq<string>) returns (content: string)
    ensures content == Shown(current, pending, frame, colors)
  {
    content := current;
    if pending {
      content := ColorPendingText(content, frame, colors);
    }
  }
}
