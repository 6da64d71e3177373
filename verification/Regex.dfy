/**
 The matcher of grep: the code's own recursion, and the language that a pattern denotes.
 Patterns and texts hold no NUL; the end of a string stands for it.
 */
module Regex {

  // ------------------------------------------------------- what a pattern denotes

  /** One character, or any number of them; '.' stands for every character. */
  datatype Item = One(c: char) | Many(c: char)

  /** A pattern after a leading '^' was taken off: its items, and whether a trailing '$' ends it. */
  datatype Pattern = Pattern(items: seq<Item>, end: bool)

  function Parse(re: string): (p: Pattern) {
    if re == "" then Pattern([], false)
    else if |re| >= 2 && re[1] == '*' then
      var p := Parse(re[2..]);
      p.(items := [Many(re[0])] + p.items)
    else if re == "$" then Pattern([], true)
    else
      var p := Parse(re[1..]);
      p.(items := [One(re[0])] + p.items)
  }

  predicate Fits(c: char, x: char) {
    c == '.' || c == x
  }

  predicate AllFit(c: char, w: string) {
    forall i :: 0 <= i < |w| ==> Fits(c, w[i])
  }

  predicate PieceOf(item: Item, w: string) {
    match item
    case One(c) => |w| == 1 && Fits(c, w[0])
    case Many(c) => AllFit(c, w)
  }

  function Join(pieces: seq<string>): string {
    if pieces == [] then "" else pieces[0] + Join(pieces[1..])
  }

  ghost predicate Spells(items: seq<Item>, pieces: seq<string>, w: string) {
    |pieces| == |items| && Join(pieces) == w && forall i :: 0 <= i < |items| ==> PieceOf(items[i], pieces[i])
  }

  /** The word is a concatenation of one piece for each item. */
  ghost predicate InLang(items: seq<Item>, w: string) {
    exists pieces :: Spells(items, pieces, w)
  }

  /** Some part of the text from position i on is in the language, and reaches the end if '$' asks for it. */
  ghost predicate MatchesFrom(p: Pattern, text: string, i: nat) {
    exists j :: i <= j <= |text| && InLang(p.items, text[i..j]) && (p.end ==> j == |text|)
  }

  /** What grep promises: some part of the text, anchored as '^' and a trailing '$' demand. */
  ghost predicate Matches(re: string, text: string) {
    if re != "" && re[0] == '^' then MatchesFrom(Parse(re[1..]), text, 0)
    else exists i: nat :: i <= |text| && MatchesFrom(Parse(re), text, i)
  }

  // ------------------------------------------------------------- what the code does

  function Here(re: string, text: string): bool
    decreases |re|, |text|, 0
  {
    if re == "" then true
    else if |re| >= 2 && re[1] == '*' then Star(re[0], re[2..], text)
    else if re[0] == '$' && |re| == 1 then text == ""
    else if text != "" && (re[0] == '.' || re[0] == text[0]) then Here(re[1..], text[1..])
    else false
  }

  function Star(c: char, re: string, text: string): bool
    decreases |re|, |text|, 1
  {
    if Here(re, text) then true
    else if text != "" && (text[0] == c || c == '.') then Star(c, re, text[1..])
    else false
  }

  // ------------------------------------------------------------ laws of the language

  lemma LangNil(w: string)
    ensures InLang([], w) <==> w == ""
  {
    if InLang([], w) {
      var pieces :| Spells([], pieces, w);
    } else if w == "" {
      assert Spells([], [], w);
    }
  }

  lemma ConsSpells(item: Item, rest: seq<Item>, piece: string, w: string)
    requires PieceOf(item, piece) && InLang(rest, w)
    ensures InLang([item] + rest, piece + w)
  {
    var pieces :| Spells(rest, pieces, w);
    assert ([piece] + pieces)[1..] == pieces;
    assert Spells([item] + rest, [piece] + pieces, piece + w);
  }

  lemma SpellsCons(item: Item, rest: seq<Item>, w: string) returns (k: nat)
    requires InLang([item] + rest, w)
    ensures k <= |w| && PieceOf(item, w[..k]) && InLang(rest, w[k..])
  {
    var pieces :| Spells([item] + rest, pieces, w);
    k := |pieces[0]|;
    assert w == pieces[0] + Join(pieces[1..]);
    assert w[..k] == pieces[0] && w[k..] == Join(pieces[1..]);
    assert PieceOf(([item] + rest)[0], pieces[0]);
    assert ([item] + rest)[1..] == rest;
    forall i | 0 <= i < |rest|
      ensures PieceOf(rest[i], pieces[1..][i])
    {
      assert PieceOf(([item] + rest)[i + 1], pieces[i + 1]);
    }
    assert Spells(rest, pieces[1..], w[k..]);
  }

  // ---------------------------------------------------------- the code is the language

  lemma EmptyPattern(text: string)
    ensures MatchesFrom(Pattern([], false), text, 0)
    ensures MatchesFrom(Pattern([], true), text, 0) <==> text == ""
  {
    LangNil("");
    assert text[0..0] == "";
    assert InLang([], text[0..0]);
    if MatchesFrom(Pattern([], true), text, 0) {
      LangNil(text[0..|text|]);
    }
  }

  lemma OnePattern(c: char, p: Pattern, text: string)
    ensures MatchesFrom(Pattern([One(c)] + p.items, p.end), text, 0)
       <==> text != "" && Fits(c, text[0]) && MatchesFrom(p, text[1..], 0)
  {
    hide InLang;
    if MatchesFrom(Pattern([One(c)] + p.items, p.end), text, 0) {
      var j :| 0 <= j <= |text| && InLang([One(c)] + p.items, text[0..j]) && (p.end ==> j == |text|);
      var k := SpellsCons(One(c), p.items, text[0..j]);
      assert text[0..j][..k] == [text[0]];
      assert text[0..j][k..] == text[1..][0..j - 1];
    }
    if text != "" && Fits(c, text[0]) && MatchesFrom(p, text[1..], 0) {
      var j :| 0 <= j <= |text[1..]| && InLang(p.items, text[1..][0..j]) && (p.end ==> j == |text[1..]|);
      ConsSpells(One(c), p.items, [text[0]], text[1..][0..j]);
      assert [text[0]] + text[1..][0..j] == text[0..j + 1];
    }
  }

  /** c* either matches nothing here, or one character and then again c*. */
  lemma ManyPattern(c: char, p: Pattern, text: string)
    ensures MatchesFrom(Pattern([Many(c)] + p.items, p.end), text, 0)
       <==> MatchesFrom(p, text, 0)
            || (text != "" && Fits(c, text[0]) && MatchesFrom(Pattern([Many(c)] + p.items, p.end), text[1..], 0))
  {
    var q := Pattern([Many(c)] + p.items, p.end);
    if MatchesFrom(q, text, 0) {
      var j :| 0 <= j <= |text| && InLang(q.items, text[0..j]) && (p.end ==> j == |text|);
      var k := SpellsCons(Many(c), p.items, text[0..j]);
      if k == 0 {
        assert text[0..j][0..] == text[0..j];
      } else {
        ManyFirst(c, p, text, j, k);
      }
    }
    if MatchesFrom(p, text, 0) {
      var j :| 0 <= j <= |text| && InLang(p.items, text[0..j]) && (p.end ==> j == |text|);
      ConsSpells(Many(c), p.items, "", text[0..j]);
      assert "" + text[0..j] == text[0..j];
    }
    if text != "" && Fits(c, text[0]) && MatchesFrom(q, text[1..], 0) {
      var j :| 0 <= j <= |text[1..]| && InLang(q.items, text[1..][0..j]) && (p.end ==> j == |text[1..]|);
      ManyMore(c, p, text, j);
    }
  }

  lemma WithoutFirst(text: string, j: nat, k: nat)
    requires 0 < k <= j <= |text|
    ensures text[0..j][..k][1..] + text[0..j][k..] == text[1..][0..j - 1]
  {
    assert text[0..j][..k] + text[0..j][k..] == text[0..j];
    assert text[0..j][1..] == text[1..][0..j - 1];
  }

  lemma WithFirst(text: string, j: nat, k: nat)
    requires text != "" && k <= j <= |text[1..]|
    ensures [text[0]] + text[1..][0..j][..k] + text[1..][0..j][k..] == text[0..j + 1]
  {
    assert text[1..][0..j][..k] + text[1..][0..j][k..] == text[1..][0..j];
    assert [text[0]] + text[1..][0..j] == text[0..j + 1];
  }

  lemma ManyFirst(c: char, p: Pattern, text: string, j: nat, k: nat)
    requires 0 < k <= j <= |text| && AllFit(c, text[0..j][..k]) && InLang(p.items, text[0..j][k..]) &&
      (p.end ==> j == |text|)
    ensures Fits(c, text[0]) && MatchesFrom(Pattern([Many(c)] + p.items, p.end), text[1..], 0)
  {
    var w := text[0..j];
    assert w[..k][0] == text[0];
    var head := w[..k][1..];
    assert AllFit(c, head);
    ConsSpells(Many(c), p.items, head, w[k..]);
    WithoutFirst(text, j, k);
  }

  lemma ManyMore(c: char, p: Pattern, text: string, j: nat)
    requires text != "" && Fits(c, text[0]) && j <= |text[1..]|
    requires InLang([Many(c)] + p.items, text[1..][0..j]) && (p.end ==> j == |text[1..]|)
    ensures MatchesFrom(Pattern([Many(c)] + p.items, p.end), text, 0)
  {
    var w := text[1..][0..j];
    var k := SpellsCons(Many(c), p.items, w);
    var piece := [text[0]] + w[..k];
    assert AllFit(c, piece);
    ConsSpells(Many(c), p.items, piece, w[k..]);
    WithFirst(text, j, k);
  }

  /** matchhere accepts exactly when the language matches at the start of the text. */
  lemma {:induction false} HereIff(re: string, text: string)
    ensures Here(re, text) <==> MatchesFrom(Parse(re), text, 0)
    decreases |re|, |text|, 0
  {
    if re == "" {
      EmptyPattern(text);
    } else if |re| >= 2 && re[1] == '*' {
      StarIff(re[0], re[2..], text);
    } else if re == "$" {
      EmptyPattern(text);
    } else {
      OnePattern(re[0], Parse(re[1..]), text);
      if text != "" {
        HereIff(re[1..], text[1..]);
      }
    }
  }

  lemma {:induction false} StarIff(c: char, re: string, text: string)
    ensures Star(c, re, text) <==> MatchesFrom(Pattern([Many(c)] + Parse(re).items, Parse(re).end), text, 0)
    decreases |re|, |text|, 1
  {
    ManyPattern(c, Parse(re), text);
    HereIff(re, text);
    if text != "" {
      StarIff(c, re, text[1..]);
    }
  }

  lemma MatchesShift(p: Pattern, text: string, i: nat)
    requires i <= |text|
    ensures MatchesFrom(p, text, i) <==> MatchesFrom(p, text[i..], 0)
  {
    if MatchesFrom(p, text, i) {
      var j :| i <= j <= |text| && InLang(p.items, text[i..j]) && (p.end ==> j == |text|);
      assert text[i..j] == text[i..][0..j - i];
    }
    if MatchesFrom(p, text[i..], 0) {
      var j :| 0 <= j <= |text[i..]| && InLang(p.items, text[i..][0..j]) && (p.end ==> j == |text[i..]|);
      assert text[i..][0..j] == text[i..i + j];
    }
  }

  // ------------------------------------------------------------------- the methods

  /** matchhere: does the pattern match at the start of the text? */
  method MatchHere(re: string, text: string) returns (r: bool)
    ensures r <==> MatchesFrom(Parse(re), text, 0)
    decreases |re|, |text|, 0
  {
    hide MatchesFrom, Parse;
    HereIff(re, text);
    if re == "" {
      return true;
    }
    if |re| >= 2 && re[1] == '*' {
      StarIff(re[0], re[2..], text);
      r := MatchStar(re[0], re[2..], text);
      return;
    }
    if re[0] == '$' && |re| == 1 {
      return text == "";
    }
    if text != "" && (re[0] == '.' || re[0] == text[0]) {
      HereIff(re[1..], text[1..]);
      r := MatchHere(re[1..], text[1..]);
      return;
    }
    return false;
  }

  /** matchstar: try the rest of the pattern at each position that c* reaches. */
  method MatchStar(c: char, re: string, text: string) returns (r: bool)
    ensures r <==> MatchesFrom(Pattern([Many(c)] + Parse(re).items, Parse(re).end), text, 0)
    decreases |re|, |text|, 1
  {
    hide MatchesFrom, Parse;
    StarIff(c, re, text);
    var i := 0;
    while true
      invariant 0 <= i <= |text| && Star(c, re, text) == Star(c, re, text[i..])
      decreases |text| - i
    {
      HereIff(re, text[i..]);
      var here := MatchHere(re, text[i..]);
      if here {
        return true;
      }
      if i == |text| || !(text[i] == c || c == '.') {
        return false;
      }
      assert text[i..][1..] == text[i + 1..];
      i := i + 1;
    }
  }

  /** match: the answer is 1 exactly when the pattern matches. */
  method Match(re: string, text: string) returns (r: bool)
    ensures r <==> Matches(re, text)
  {
    if re != "" && re[0] == '^' {
      r := MatchHere(re[1..], text);
      return;
    }
    var i := 0;
    while true
      invariant 0 <= i <= |text|
      invariant forall k: nat :: k < i ==> !MatchesFrom(Parse(re), text, k)
      decreases |text| - i
    {
      MatchesShift(Parse(re), text, i);
      var here := MatchHere(re, text[i..]);
      if here {
        return true;
      }
      if i == |text| {
        return false;
      }
      i := i + 1;
    }
  }
}
