/** The greedy title wrap of `_insert_newline_characters_to_text`.  The
    rendered width of a string under the tile font (`font.getlength`) is not
    modelled; every operation takes it as a parameter `width`. */
module TextWrap {

  import opened Arith

  /** A line is committed once its measured width reaches this many pixels. */
  const LineBudget: nat := 275

  /** Every non-empty prefix of `line`, the whole line included, is narrower
      than the budget: the state of the line buffer between characters. */
  ghost predicate PrefixesFit(line: string, width: string -> nat)
  {
    forall i :: 1 <= i <= |line| ==> width(line[..i]) < LineBudget
  }

  /** A committed line: non-empty, at least as wide as the budget, and every
      shorter non-empty prefix of it narrower than the budget (so it was
      committed at the first character that reached the budget). */
  ghost predicate CommittedLine(line: string, width: string -> nat)
  {
    && |line| >= 1
    && width(line) >= LineBudget
    && PrefixesFit(line[..|line| - 1], width)
  }

  /** Scans `rest` one character at a time, `line` being the characters
      accumulated since the last committed line. */
  function WrapFrom(rest: string, line: string, width: string -> nat): seq<string>
    decreases |rest|
  {
    if rest == [] then [line]
    else
      var grown := line + [rest[0]];
      if width(grown) >= LineBudget then [grown] + WrapFrom(rest[1..], "", width)
      else WrapFrom(rest[1..], grown, width)
  }

  /** The lines a title is broken into, the residual last line included. */
  function Wrap(text: string, width: string -> nat): seq<string>
  {
    WrapFrom(text, "", width)
  }

  /** The lines glued together without separators. */
  function Concat(lines: seq<string>): string
  {
    if lines == [] then "" else lines[0] + Concat(lines[1..])
  }

  /** The lines joined with a newline between consecutive lines. */
  function JoinLines(lines: seq<string>): string
  {
    if lines == [] then ""
    else if |lines| == 1 then lines[0]
    else lines[0] + "\n" + JoinLines(lines[1..])
  }

  lemma {:induction false} WrapFromConcat(rest: string, line: string, width: string -> nat)
    ensures |WrapFrom(rest, line, width)| >= 1
    ensures Concat(WrapFrom(rest, line, width)) == line + rest
    decreases |rest|
  {
    if rest != [] {
      var grown := line + [rest[0]];
      assert grown + rest[1..] == line + rest;
      if width(grown) >= LineBudget {
        WrapFromConcat(rest[1..], "", width);
        assert Concat([grown] + WrapFrom(rest[1..], "", width))
            == grown + Concat(WrapFrom(rest[1..], "", width));
      } else {
        WrapFromConcat(rest[1..], grown, width);
      }
    }
  }

  /** Wrapping loses and adds nothing: there is at least one line and the
      lines, glued without separators, give back the title. */
  lemma WrapConcat(text: string, width: string -> nat)
    ensures |Wrap(text, width)| >= 1
    ensures Concat(Wrap(text, width)) == text
  {
    WrapFromConcat(text, "", width);
    assert "" + text == text;
  }

  lemma {:induction false} WrapFromLines(rest: string, line: string, width: string -> nat)
    requires PrefixesFit(line, width)
    ensures var lines := WrapFrom(rest, line, width);
      && |lines| >= 1
      && (forall i :: 0 <= i < |lines| - 1 ==> CommittedLine(lines[i], width))
      && PrefixesFit(lines[|lines| - 1], width)
    decreases |rest|
  {
    if rest != [] {
      var grown := line + [rest[0]];
      assert grown[..|grown| - 1] == line;
      if width(grown) >= LineBudget {
        WrapFromLines(rest[1..], "", width);
        assert CommittedLine(grown, width);
      } else {
        assert forall i :: 1 <= i <= |grown| ==> grown[..i] == if i == |grown| then grown else line[..i];
        WrapFromLines(rest[1..], grown, width);
      }
    }
  }

  /** The width bounds of the greedy wrap: every line but the last was
      committed at the first character that brought it to the budget, and the
      residual last line is empty or narrower than the budget, as is every
      non-empty prefix of it. */
  lemma WrapLines(text: string, width: string -> nat)
    ensures var lines := Wrap(text, width);
      && |lines| >= 1
      && (forall i :: 0 <= i < |lines| - 1 ==>
            |lines[i]| >= 1 && width(lines[i]) >= LineBudget
            && forall j :: 1 <= j < |lines[i]| ==> width(lines[i][..j]) < LineBudget)
      && (lines[|lines| - 1] == [] || width(lines[|lines| - 1]) < LineBudget)
      && PrefixesFit(lines[|lines| - 1], width)
  {
    WrapFromLines(text, "", width);
    var lines := Wrap(text, width);
    var last := lines[|lines| - 1];
    assert last != [] ==> last[..|last|] == last;
    forall i | 0 <= i < |lines| - 1
      ensures forall j :: 1 <= j < |lines[i]| ==> width(lines[i][..j]) < LineBudget
    {
      assert CommittedLine(lines[i], width);
      var l := lines[i];
      forall j | 1 <= j < |l| ensures width(l[..j]) < LineBudget {
        assert l[..|l| - 1][..j] == l[..j];
      }
    }
  }

  /** Characters in one committed line when every character is `w` pixels
      wide: the least count whose width reaches the budget. */
  function MonospaceLineLength(w: nat): nat
    requires w >= 1
  {
    (LineBudget - 1) / w + 1
  }

  lemma MonospaceReachesBudget(n: nat, w: nat)
    requires w >= 1
    ensures n * w >= LineBudget <==> n >= MonospaceLineLength(w)
  {
    var q, r := (LineBudget - 1) / w, (LineBudget - 1) % w;
    assert LineBudget - 1 == q * w + r;
    MulMonotone(q + 1, n, w);
    MulMonotone(n, q, w);
  }

  /** Shape of a monospace wrap of `n` characters into lines of `k`. */
  ghost predicate MonospaceShape(lines: seq<string>, n: nat, k: nat)
    requires k >= 1
  {
    && |lines| == n / k + 1
    && (forall i :: 0 <= i < |lines| - 1 ==> |lines[i]| == k)
    && |lines[|lines| - 1]| == n % k
  }

  /** Prepending a full line of k characters to a shape of m characters
      gives a shape of m + k characters. */
  lemma MonospaceShapeCons(line: string, lines: seq<string>, m: nat, k: nat)
    requires k >= 1 && |line| == k
    requires MonospaceShape(lines, m, k)
    ensures MonospaceShape([line] + lines, m + k, k)
  {
    assert m == (m / k) * k + m % k;
    DivModUnique(m + k, k, m / k + 1, m % k);
  }

  lemma {:induction false} MonospaceWrapFrom(rest: string, line: string, width: string -> nat, w: nat)
    requires w >= 1
    requires forall s :: width(s) == |s| * w
    requires |line| < MonospaceLineLength(w)
    ensures MonospaceShape(WrapFrom(rest, line, width), |line| + |rest|, MonospaceLineLength(w))
    decreases |rest|
  {
    var k := MonospaceLineLength(w);
    if rest == [] {
      DivModUnique(|line|, k, 0, |line|);
    } else {
      var grown := line + [rest[0]];
      assert width(grown) == |grown| * w;
      MonospaceReachesBudget(|grown|, w);
      if width(grown) >= LineBudget {
        MonospaceWrapFrom(rest[1..], "", width, w);
        MonospaceShapeCons(grown, WrapFrom(rest[1..], "", width), |rest| - 1, k);
      } else {
        MonospaceWrapFrom(rest[1..], grown, width, w);
      }
    }
  }

  /** In a font whose every character is `w` pixels wide, a title of L
      characters wraps into L div k + 1 lines, where k is the least number of
      characters whose width reaches the budget: every line but the last holds
      exactly k characters and the last holds the L mod k left over (none when
      k divides L, leaving a trailing empty line). */
  lemma MonospaceWrap(text: string, width: string -> nat, w: nat)
    requires w >= 1
    requires forall s :: width(s) == |s| * w
    ensures var lines, k := Wrap(text, width), MonospaceLineLength(w);
      && |lines| == |text| / k + 1
      && (forall i :: 0 <= i < |lines| - 1 ==> |lines[i]| == k)
      && |lines[|lines| - 1]| == |text| % k
  {
    MonospaceWrapFrom(text, "", width, w);
  }

  /** The loop of `_insert_newline_characters_to_text`: append each character to the line buffer, measure
      it, and commit the buffer once it reaches the budget; finally add the
      residual buffer and join the lines with newlines. */
  method InsertNewlines(text: string, width: string -> nat) returns (title: string)
    ensures title == JoinLines(Wrap(text, width))
  {
    var lines: seq<string> := [];
    var processed: string := "";
    var i := 0;
    while i < |text|
      invariant 0 <= i <= |text|
      invariant lines + WrapFrom(text[i..], processed, width) == Wrap(text, width)
    {
      assert text[i..][0] == text[i] && text[i..][1..] == text[i + 1..];
      processed := processed + [text[i]];
      if width(processed) >= LineBudget {
        lines := lines + [processed];
        processed := "";
      }
      i := i + 1;
    }
    lines := lines + [processed];
    title := JoinLines(lines);
  }
}
