/** The regular-expression matcher of user/grep.c against the language of its patterns.

    Strings are without their terminating zero. */
module Grep {
  import opened Options

  // ---------------------------------------------------------------- patterns and their language

  /** A character, or any number of them; None stands for `.`. */
  datatype Item = One(c: Option<char>) | Star(c: Option<char>)

  datatype Pattern = Pattern(items: seq<Item>, end: bool)

  function Symbol(c: char): Option<char> {
    if c == '.' then None else Some(c)
  }

  predicate Fits(c: Option<char>, x: char) {
    c.Some? ==> c.value == x
  }

  /** How a pattern, without a leading `^`, is read: `x*` first, then a final `$`, then one character. */
  function Parse(re: string): Pattern {
    if re == [] then Pattern([], false)
    else if |re| >= 2 && re[1] == '*' then
      var p := Parse(re[2..]);
      Pattern([Star(Symbol(re[0]))] + p.items, p.end)
    else if re == "$" then Pattern([], true)
    else
      var p := Parse(re[1..]);
      Pattern([One(Symbol(re[0]))] + p.items, p.end)
  }

  /** The string u is in the language of the items. */
  ghost predicate In(items: seq<Item>, u: string) {
    if items == [] then u == []
    else match items[0]
      case One(c) => u != [] && Fits(c, u[0]) && In(items[1..], u[1..])
      case Star(c) => exists k :: 0 <= k <= |u| && All(c, u[..k]) && In(items[1..], u[k..])
  }

  predicate All(c: Option<char>, u: string) {
    forall i :: 0 <= i < |u| ==> Fits(c, u[i])
  }

  /** The first j characters of the text are what the pattern asks for. */
  ghost predicate Spans(p: Pattern, text: string, j: int) {
    0 <= j <= |text| && (p.end ==> j == |text|) && In(p.items, text[..j])
  }

  /** Some prefix of the text is in the language; with a final `$`, the whole text. */
  ghost predicate Here(p: Pattern, text: string) {
    exists j :: Spans(p, text, j)
  }

  /** Some part of the text is in the language, from its start if the pattern begins with `^`. */
  ghost predicate Somewhere(re: string, text: string) {
    if re != [] && re[0] == '^' then Here(Parse(re[1..]), text)
    else exists i, j {:trigger text[i..j]} ::
      0 <= i <= j <= |text| && (Parse(re).end ==> j == |text|) && In(Parse(re).items, text[i..j])
  }

  // ---------------------------------------------------------------- one step of matchhere

  lemma HereEmpty(text: string)
    ensures Here(Parse([]), text)
  {
    assert Spans(Parse([]), text, 0);
  }

  lemma HereEnd(text: string)
    ensures Here(Parse("$"), text) <==> text == []
  {
    if text == [] {
      assert Spans(Parse("$"), text, 0);
    }
  }

  lemma HereOne(re: string, text: string)
    requires re != [] && !(|re| >= 2 && re[1] == '*') && re != "$"
    ensures Here(Parse(re), text) <==>
            text != [] && (re[0] == '.' || re[0] == text[0]) && Here(Parse(re[1..]), text[1..])
  {
    var p, q := Parse(re), Parse(re[1..]);
    assert p.items[1..] == q.items;
    if Here(p, text) {
      var j :| Spans(p, text, j);
      assert text[..j][1..] == text[1..][..j - 1];
      assert Spans(q, text[1..], j - 1);
    }
    if text != [] && Fits(Symbol(re[0]), text[0]) && Here(q, text[1..]) {
      var j :| Spans(q, text[1..], j);
      assert text[..j + 1][1..] == text[1..][..j];
      assert Spans(p, text, j + 1);
    }
  }

  /** `x*` followed by the rest matches when the rest matches after some number of x. */
  lemma HereStar(re: string, text: string)
    requires |re| >= 2 && re[1] == '*'
    ensures Here(Parse(re), text) <==> StarHere(Symbol(re[0]), Parse(re[2..]), text)
  {
    var c, p, q := Symbol(re[0]), Parse(re), Parse(re[2..]);
    assert p.items[0] == Star(c) && p.items[1..] == q.items;
    if Here(p, text) {
      var j :| Spans(p, text, j);
      var u := text[..j];
      var k :| 0 <= k <= |u| && All(c, u[..k]) && In(q.items, u[k..]);
      assert u[..k] == text[..k] && u[k..] == text[k..][..j - k];
      assert Spans(q, text[k..], j - k);
      assert StarAt(c, q, text, k);
    }
    if StarHere(c, q, text) {
      var k :| StarAt(c, q, text, k);
      var j :| Spans(q, text[k..], j);
      var u := text[..k + j];
      assert u[..k] == text[..k] && u[k..] == text[k..][..j];
      assert Spans(p, text, k + j);
    }
  }

  ghost predicate StarAt(c: Option<char>, q: Pattern, text: string, k: int) {
    0 <= k <= |text| && All(c, text[..k]) && Here(q, text[k..])
  }

  ghost predicate StarHere(c: Option<char>, q: Pattern, text: string) {
    exists k :: StarAt(c, q, text, k)
  }

  // ---------------------------------------------------------------- the matcher

  /** Is there a match for re at the beginning of the text? */
  method MatchHere(re: string, text: string) returns (found: bool)
    ensures found <==> Here(Parse(re), text)
    decreases |re|, 0
  {
    hide Here, Parse;
    if re == [] {
      HereEmpty(text);
      return true;
    }
    if |re| >= 2 && re[1] == '*' {
      HereStar(re, text);
      found := MatchStar(re[0], re[2..], text);
      return;
    }
    if re[0] == '$' && |re| == 1 {
      assert re == "$";
      HereEnd(text);
      return text == [];
    }
    HereOne(re, text);
    if text != [] && (re[0] == '.' || re[0] == text[0]) {
      found := MatchHere(re[1..], text[1..]);
      return;
    }
    return false;
  }

  /** Is there a match for c*re at the beginning of the text? */
  method MatchStar(c: char, re: string, text: string) returns (found: bool)
    ensures found <==> StarHere(Symbol(c), Parse(re), text)
    decreases |re|, 1
  {
    hide Here, Parse;
    var i := 0;
    while true
      invariant i <= |text| && All(Symbol(c), text[..i])
      invariant forall k :: 0 <= k < i ==> !StarAt(Symbol(c), Parse(re), text, k)
      decreases |text| - i
    {
      found := MatchHere(re, text[i..]);
      if found {
        assert StarAt(Symbol(c), Parse(re), text, i);
        return;
      }
      if i == |text| || !(text[i] == c || c == '.') {
        StuckAt(Symbol(c), Parse(re), text, i);
        return;
      }
      assert text[..i + 1] == text[..i] + [text[i]];
      i := i + 1;
    }
  }

  /** Where the next character does not fit, the star can go no further. */
  lemma StuckAt(c: Option<char>, q: Pattern, text: string, i: nat)
    requires i <= |text| && (i == |text| || !Fits(c, text[i]))
    requires forall k :: 0 <= k <= i ==> !StarAt(c, q, text, k)
    ensures !StarHere(c, q, text)
  {
    forall k | i < k <= |text| ensures !StarAt(c, q, text, k) {
      assert text[..k][i] == text[i];
    }
  }

  /** Does the text contain a match for re?  True exactly when some part of the text is in the
      language of the pattern. */
  method Match(re: string, text: string) returns (found: bool)
    ensures found <==> Somewhere(re, text)
  {
    hide Here, Parse;
    if re != [] && re[0] == '^' {
      found := MatchHere(re[1..], text);
      return;
    }
    var i := 0;
    while true
      invariant i <= |text| && forall k :: 0 <= k < i ==> !Here(Parse(re), text[k..])
      decreases |text| - i
    {
      found := MatchHere(re, text[i..]);
      if found {
        FoundAt(re, text, i);
        return;
      }
      if i == |text| {
        FoundNowhere(re, text);
        return;
      }
      i := i + 1;
    }
  }

  lemma FoundAt(re: string, text: string, i: nat)
    requires i <= |text| && Here(Parse(re), text[i..]) && (re == [] || re[0] != '^')
    ensures Somewhere(re, text)
  {
    hide Parse;
    var j :| Spans(Parse(re), text[i..], j);
    assert text[i..][..j] == text[i..i + j];
  }

  lemma FoundNowhere(re: string, text: string)
    requires (re == [] || re[0] != '^') && forall k :: 0 <= k <= |text| ==> !Here(Parse(re), text[k..])
    ensures !Somewhere(re, text)
  {
    hide Parse;
    forall i, j {:trigger text[i..j]} | 0 <= i <= j <= |text| && (Parse(re).end ==> j == |text|)
      ensures !In(Parse(re).items, text[i..j])
    {
      assert text[i..][..j - i] == text[i..j];
      assert !Spans(Parse(re), text[i..], j - i);
    }
  }
}
