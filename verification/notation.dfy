/**
 * Move notation: `parse_input` turns text such as "B2 B3" into a pair of
 * board coordinates, and the game loop renders a square as its column letter
 * followed by its rank: column 0 is 'A' and row 0 is rank 5.
 */
module Notation {
  import opened MiniChess

  datatype Option<T> = None | Some(value: T)

  /** The characters Python's `str.split()` (no argument) treats as separators. */
  predicate IsSpace(c: char) {
    || c == ' '
    || '\t' <= c <= '\r'
    || '\U{1C}' <= c <= '\U{1F}'
    || c == '\U{85}' || c == '\U{A0}' || c == '\U{1680}'
    || '\U{2000}' <= c <= '\U{200A}'
    || c == '\U{2028}' || c == '\U{2029}' || c == '\U{202F}' || c == '\U{205F}' || c == '\U{3000}'
  }

  predicate NoSpace(w: string) {
    forall i :: 0 <= i < |w| ==> !IsSpace(w[i])
  }

  /** The longest prefix of `s` without a separator. */
  function Word(s: string): (w: string)
    ensures |w| <= |s| && w == s[..|w|]
    ensures NoSpace(w)
    ensures |w| == |s| || IsSpace(s[|w|])
  {
    if |s| == 0 || IsSpace(s[0]) then [] else [s[0]] + Word(s[1..])
  }

  /** `s` with every separator removed. */
  function Strip(s: string): string {
    if |s| == 0 then [] else (if IsSpace(s[0]) then [] else [s[0]]) + Strip(s[1..])
  }

  /** The words of `ws` written one after another. */
  function Concat(ws: seq<string>): string {
    if |ws| == 0 then [] else ws[0] + Concat(ws[1..])
  }

  lemma {:induction false} StripWord(w: string, rest: string)
    requires NoSpace(w)
    ensures Strip(w + rest) == w + Strip(rest)
    decreases |w|
  {
    if |w| == 0 {
      assert w + rest == rest;
    } else {
      assert (w + rest)[0] == w[0] && (w + rest)[1..] == w[1..] + rest;
      StripWord(w[1..], rest);
      assert w == [w[0]] + w[1..];
    }
  }

  /**
   * `str.split()`: non-empty separator-free tokens that, written one after
   * another, give the text without its separators. `SplitLayout` and
   * `SplitHasLayout` show the tokens are the maximal runs, in order.
   */
  function Split(s: string): (r: seq<string>)
    ensures Words(r)
    ensures Concat(r) == Strip(s)
    decreases |s|
  {
    if |s| == 0 then []
    else if IsSpace(s[0]) then Split(s[1..])
    else
      var w := Word(s);
      var rest := Split(s[|w|..]);
      assert s == w + s[|w|..];
      StripWord(w, s[|w|..]);
      assert ([w] + rest)[1..] == rest;
      [w] + rest
  }

  predicate AllSpace(g: string) {
    forall i :: 0 <= i < |g| ==> IsSpace(g[i])
  }

  /** The text `gaps[0] + ws[0] + gaps[1] + ... + ws[n-1] + gaps[n]`. */
  function Layout(ws: seq<string>, gaps: seq<string>): string
    requires |gaps| == |ws| + 1
  {
    if |ws| == 0 then gaps[0] else gaps[0] + ws[0] + Layout(ws[1..], gaps[1..])
  }

  lemma {:induction false} SplitAfterSpaces(g: string, rest: string)
    requires AllSpace(g)
    ensures Split(g + rest) == Split(rest)
    decreases |g|
  {
    if |g| == 0 {
      assert g + rest == rest;
    } else {
      assert (g + rest)[0] == g[0] && (g + rest)[1..] == g[1..] + rest;
      SplitAfterSpaces(g[1..], rest);
    }
  }

  /** Non-empty, separator-free words. */
  predicate Words(ws: seq<string>) {
    forall i :: 0 <= i < |ws| ==> |ws[i]| > 0 && NoSpace(ws[i])
  }

  /** Runs of separators around `n` words: the ones between two words are non-empty. */
  predicate Gaps(gaps: seq<string>, n: nat) {
    && |gaps| == n + 1
    && (forall i :: 0 <= i < |gaps| ==> AllSpace(gaps[i]))
    && (forall i :: 0 < i < n ==> |gaps[i]| > 0)
  }

  lemma GapsTail(gaps: seq<string>, n: nat)
    requires n > 0 && Gaps(gaps, n)
    ensures Gaps(gaps[1..], n - 1)
  {
    forall i | 0 <= i < |gaps[1..]|
      ensures AllSpace(gaps[1..][i])
    {
      assert gaps[1..][i] == gaps[i + 1];
    }
    forall i | 0 < i < n - 1
      ensures |gaps[1..][i]| > 0
    {
      assert gaps[1..][i] == gaps[i + 1];
    }
  }

  /** What follows the first word of a layout is empty or starts with a separator. */
  lemma AfterFirstWord(ws: seq<string>, gaps: seq<string>)
    requires |ws| > 0 && Words(ws) && Gaps(gaps, |ws|)
    ensures var after := Layout(ws[1..], gaps[1..]);
            |after| == 0 || IsSpace(after[0])
  {
    if |ws| > 1 {
      assert |gaps[1]| > 0 && AllSpace(gaps[1]);
      var after := Layout(ws[1..], gaps[1..]);
      assert after == gaps[1] + (ws[1] + Layout(ws[2..], gaps[2..]));
    } else {
      assert AllSpace(gaps[1]);
    }
  }

  /**
   * Words separated by non-empty runs of separators, with any separators
   * before the first and after the last, split back into exactly those words.
   */
  lemma {:induction false} SplitLayout(ws: seq<string>, gaps: seq<string>)
    requires Words(ws) && Gaps(gaps, |ws|)
    ensures Split(Layout(ws, gaps)) == ws
  {
    if |ws| == 0 {
      SplitAfterSpaces(gaps[0], []);
      assert gaps[0] + [] == gaps[0];
    } else {
      var w := ws[0];
      var after := Layout(ws[1..], gaps[1..]);
      assert Words(ws[1..]) by {
        forall i | 0 <= i < |ws[1..]|
          ensures |ws[1..][i]| > 0 && NoSpace(ws[1..][i])
        {
          assert ws[1..][i] == ws[i + 1];
        }
      }
      GapsTail(gaps, |ws|);
      SplitLayout(ws[1..], gaps[1..]);
      AfterFirstWord(ws, gaps);
      assert AllSpace(gaps[0]) && |w| > 0 && NoSpace(w);
      assert Layout(ws, gaps) == gaps[0] + (w + after);
      SplitAfterSpaces(gaps[0], w + after);
      SplitAfterWord(w, after);
      assert ws == [w] + ws[1..];
    }
  }

  lemma {:induction false} WordOfWord(w: string, rest: string)
    requires NoSpace(w)
    requires |rest| == 0 || IsSpace(rest[0])
    ensures Word(w + rest) == w
    decreases |w|
  {
    if |w| != 0 {
      assert (w + rest)[1..] == w[1..] + rest;
      WordOfWord(w[1..], rest);
    }
  }

  lemma SplitAfterWord(w: string, rest: string)
    requires |w| > 0 && NoSpace(w)
    requires |rest| == 0 || IsSpace(rest[0])
    ensures Split(w + rest) == [w] + Split(rest)
  {
    WordOfWord(w, rest);
    assert (w + rest)[|w|..] == rest;
  }

  lemma SplitAfterSpace(rest: string)
    ensures Split(" " + rest) == Split(rest)
  {
    assert (" " + rest)[1..] == rest;
  }

  /** Two separator-free words joined by a space split back into the two words. */
  lemma SplitTwoWords(a: string, b: string)
    requires |a| > 0 && |b| > 0 && NoSpace(a) && NoSpace(b)
    ensures Split(a + " " + b) == [a, b]
  {
    assert a + " " + b == a + (" " + b);
    SplitAfterWord(a, " " + b);
    SplitAfterSpace(b);
    SplitAfterWord(b, "");
    assert b + "" == b;
  }

  predicate IsDigit(c: char) {
    '0' <= c <= '9'
  }

  /** `str.upper()` on one character, for the ASCII letters. */
  function Upper(c: char): char {
    if 'a' <= c <= 'z' then (c as int - 32) as char else c
  }

  /**
   * One token: the row is 5 minus the digit in second place, the column is
   * the upper-cased first character's distance from 'A'; nothing when the
   * token is too short or the second character is not a digit.
   */
  function ParseSquare(t: string): (r: Option<Pos>)
    ensures r.Some? <==> |t| >= 2 && IsDigit(t[1])
    ensures r.Some? ==> -4 <= r.value.row <= 5
  {
    if |t| < 2 || !IsDigit(t[1]) then None
    else Some(Pos(5 - (t[1] as int - '0' as int), Upper(t[0]) as int - 'A' as int))
  }

  /**
   * `parse_input`: exactly two tokens, each with a digit as second character,
   * give a move; anything else gives None. Coordinates are not checked
   * against the board.
   */
  function ParseInput(text: string): (r: Option<Move>)
    ensures |Split(text)| != 2 ==> r.None?
    ensures r.Some? <==>
              |Split(text)| == 2 && forall w :: w in Split(text) ==> |w| >= 2 && IsDigit(w[1])
  {
    var words := Split(text);
    if |words| != 2 then None
    else
      match ParseSquare(words[0])
      case None => None
      case Some(start) =>
        match ParseSquare(words[1])
        case None => None
        case Some(end) => Some(Move(start, end))
  }

  /** How the game loop prints a square on the board: column letter, then rank. */
  function Render(p: Pos): (r: string)
    requires OnBoard(p)
    ensures |r| == 2 && 'A' <= r[0] <= 'E' && '1' <= r[1] <= '5'
  {
    [(p.col + 'A' as int) as char, (5 - p.row + '0' as int) as char]
  }

  /** Rendering two squares and joining them with a space parses back to the move. */
  lemma ParseRendered(a: Pos, b: Pos)
    requires OnBoard(a) && OnBoard(b)
    ensures ParseInput(Render(a) + " " + Render(b)) == Some(Move(a, b))
  {
    SplitTwoWords(Render(a), Render(b));
  }

  /** Lower-case column letters parse like upper-case ones. */
  lemma ParseIgnoresCase(a: Pos, b: Pos)
    requires OnBoard(a) && OnBoard(b)
    ensures var lower := [(Render(a)[0] as int + 32) as char, Render(a)[1]];
            ParseInput(lower + " " + Render(b)) == Some(Move(a, b))
  {
    var lower := [(Render(a)[0] as int + 32) as char, Render(a)[1]];
    SplitTwoWords(lower, Render(b));
  }

  /** The parser lets squares off the board through: "A9 z0" names rows -4 and 5. */
  lemma ParseSkipsBoundsCheck()
    ensures ParseInput("A9 z0") == Some(Move(Pos(-4, 0), Pos(5, 25)))
  {
    assert NoSpace("A9") && NoSpace("z0");
    assert "A9 z0" == "A9" + " " + "z0";
    SplitTwoWords("A9", "z0");
    assert ParseSquare("A9") == Some(Pos(-4, 0));
    assert ParseSquare("z0") == Some(Pos(5, 25));
  }

  /** A token too short to have a second character makes the whole input fail. */
  lemma ParseRejectsShortToken()
    ensures ParseInput("B B3") == None
  {
    SplitTwoWords("B", "B3");
  }

  /** With no separators before it, a layout starts with its first word's first character. */
  lemma LayoutStart(ws: seq<string>, gaps: seq<string>)
    requires |ws| > 0 && Words(ws) && |gaps| == |ws| + 1
    ensures |gaps[0]| == 0 ==> |Layout(ws, gaps)| > 0 && !IsSpace(Layout(ws, gaps)[0])
  {
    assert Layout(ws, gaps) == gaps[0] + ws[0] + Layout(ws[1..], gaps[1..]);
  }

  /** One more separator in front of the first gap puts it in front of the text. */
  lemma LayoutWiderFirstGap(c: char, ws: seq<string>, g: seq<string>)
    requires |g| == |ws| + 1
    ensures var gaps := [[c] + g[0]] + g[1..];
            |gaps| == |ws| + 1 && Layout(ws, gaps) == [c] + Layout(ws, g)
  {
    var gaps := [[c] + g[0]] + g[1..];
    assert gaps[0] == [c] + g[0] && gaps[1..] == g[1..];
  }

  /** A word in front with no separators before it. */
  lemma LayoutNewFirstWord(w: string, ws: seq<string>, g: seq<string>)
    requires |g| == |ws| + 1
    ensures Layout([w] + ws, [[]] + g) == w + Layout(ws, g)
  {
    var ws' := [w] + ws;
    var g' := [[]] + g;
    assert ws'[0] == w && ws'[1..] == ws && g'[0] == [] && g'[1..] == g;
    assert Layout(ws', g') == g'[0] + ws'[0] + Layout(ws'[1..], g'[1..]);
  }

  /** A leading separator widens the first gap of the rest's layout. */
  lemma LayoutAfterSpace(s: string, g: seq<string>)
    requires |s| > 0 && IsSpace(s[0])
    requires Gaps(g, |Split(s[1..])|) && Layout(Split(s[1..]), g) == s[1..]
    ensures var gaps := [[s[0]] + g[0]] + g[1..];
            Gaps(gaps, |Split(s)|) && Layout(Split(s), gaps) == s
  {
    var ws := Split(s[1..]);
    assert Split(s) == ws;
    LayoutWiderFirstGap(s[0], ws, g);
    var gaps := [[s[0]] + g[0]] + g[1..];
    assert Gaps(gaps, |ws|) by {
      assert AllSpace(gaps[0]);
      forall i | 0 < i < |gaps|
        ensures gaps[i] == g[i]
      {
      }
    }
    assert s == [s[0]] + s[1..];
  }

  /** A leading word goes in front of the rest's layout with an empty first gap. */
  lemma LayoutAfterWord(s: string, g: seq<string>)
    requires |s| > 0 && !IsSpace(s[0])
    requires var rest := s[|Word(s)|..];
             Gaps(g, |Split(rest)|) && Layout(Split(rest), g) == rest
    ensures Gaps([[]] + g, |Split(s)|) && Layout(Split(s), [[]] + g) == s
  {
    var w := Word(s);
    var rest := s[|w|..];
    var tail := Split(rest);
    assert Split(s) == [w] + tail;
    if |tail| > 0 {
      LayoutStart(tail, g);
      assert IsSpace(rest[0]);
    }
    var gaps := [[]] + g;
    assert Gaps(gaps, |tail| + 1) by {
      forall i | 0 < i < |gaps|
        ensures gaps[i] == g[i - 1]
      {
      }
    }
    LayoutNewFirstWord(w, tail, g);
    assert s == w + rest;
  }

  /** Every text is its own tokens laid out between runs of separators. */
  lemma {:induction false} SplitHasLayout(s: string)
    ensures exists gaps :: Gaps(gaps, |Split(s)|) && Layout(Split(s), gaps) == s
    decreases |s|
  {
    if |s| == 0 {
      assert Gaps([[]], 0) && Layout(Split(s), [[]]) == s;
    } else if IsSpace(s[0]) {
      SplitHasLayout(s[1..]);
      var g :| Gaps(g, |Split(s[1..])|) && Layout(Split(s[1..]), g) == s[1..];
      LayoutAfterSpace(s, g);
    } else {
      var rest := s[|Word(s)|..];
      SplitHasLayout(rest);
      var g :| Gaps(g, |Split(rest)|) && Layout(Split(rest), g) == rest;
      LayoutAfterWord(s, g);
    }
  }
}
