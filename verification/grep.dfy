/** The matcher of user/grep.c, after The Practice of Programming, chapter 9, against the
    language a pattern denotes. */
module Grep {

  /** A pattern is a sequence of items between an optional `^` and an optional final `$`. */
  datatype Item = One(c: char) | Star(c: char)

  predicate Fits(c: char, x: char) {
    c == '.' || c == x
  }

  /** The words of one item. */
  predicate InItem(it: Item, w: string) {
    match it
    case One(c) => |w| == 1 && (c == '.' || w[0] == c)
    case Star(c) => c == '.' || forall i :: 0 <= i < |w| ==> w[i] == c
  }

  function Concat(ws: seq<string>): (w: string) {
    if ws == [] then "" else ws[0] + Concat(ws[1..])
  }

  /** w falls into one word for each item. */
  ghost predicate Pieces(items: seq<Item>, ws: seq<string>, w: string) {
    |ws| == |items| && Concat(ws) == w && forall k :: 0 <= k < |ws| ==> InItem(items[k], ws[k])
  }

  ghost predicate InLang(items: seq<Item>, w: string) {
    exists ws :: Pieces(items, ws, w)
  }

  /** The items of a pattern without its anchors. */
  function Items(re: string): (items: seq<Item>) {
    if re == "" || re == "$" then []
    else if |re| >= 2 && re[1] == '*' then [Star(re[0])] + Items(re[2..])
    else [One(re[0])] + Items(re[1..])
  }

  /** Whether a pattern ends with the anchor `$`. */
  predicate Ended(re: string) {
    if re == "" then false
    else if re == "$" then true
    else if |re| >= 2 && re[1] == '*' then Ended(re[2..])
    else Ended(re[1..])
  }

  /** text[i..j] is matched by the pattern re, which has no `^`. */
  ghost predicate Found(re: string, text: string, i: nat, j: nat) {
    i <= j <= |text| && InLang(Items(re), text[i..j]) && (Ended(re) ==> j == |text|)
  }

  /** Some part of the text is matched; with `^` it must be at its start. */
  ghost predicate Matches(re: string, text: string) {
    if re != "" && re[0] == '^' then exists j :: Found(re[1..], text, 0, j)
    else exists i, j :: Found(re, text, i, j)
  }

  // ---- Languages by their first item

  lemma LangNil(w: string)
    ensures InLang([], w) <==> w == ""
  {
    assert Concat([]) == "";
    if w == "" {
      assert Pieces([], [], w);
    }
  }

  lemma LangCons(it: Item, rest: seq<Item>, w: string, k: nat)
    requires k <= |w| && InItem(it, w[..k]) && InLang(rest, w[k..])
    ensures InLang([it] + rest, w)
  {
    var ws :| Pieces(rest, ws, w[k..]);
    var all := [w[..k]] + ws;
    assert all[1..] == ws;
    assert w == w[..k] + w[k..];
    assert Pieces([it] + rest, all, w);
  }

  lemma LangUncons(it: Item, rest: seq<Item>, w: string) returns (k: nat)
    requires InLang([it] + rest, w)
    ensures k <= |w| && InItem(it, w[..k]) && InLang(rest, w[k..])
  {
    var ws :| Pieces([it] + rest, ws, w);
    k := |ws[0]|;
    assert w[..k] == ws[0] && w[k..] == Concat(ws[1..]);
    assert ([it] + rest)[0] == it;
    forall l | 0 <= l < |ws[1..]| ensures InItem(rest[l], ws[1..][l]) {
      assert InItem(([it] + rest)[l + 1], ws[l + 1]);
    }
    assert Pieces(rest, ws[1..], w[k..]);
  }

  /** Where a pattern that starts with an item is found. */
  lemma FoundCons(it: Item, re: string, re': string, text: string, i: nat, k: nat, j: nat)
    requires Items(re) == [it] + Items(re') && Ended(re) == Ended(re')
    requires i <= k <= |text| && InItem(it, text[i..k]) && Found(re', text, k, j)
    ensures Found(re, text, i, j)
  {
    assert text[i..j][..k - i] == text[i..k] && text[i..j][k - i..] == text[k..j];
    LangCons(it, Items(re'), text[i..j], k - i);
  }

  lemma FoundUncons(it: Item, re: string, re': string, text: string, i: nat, j: nat) returns (k: nat)
    requires Items(re) == [it] + Items(re') && Ended(re) == Ended(re') && Found(re, text, i, j)
    ensures i <= k <= j && InItem(it, text[i..k]) && Found(re', text, k, j)
  {
    var l := LangUncons(it, Items(re'), text[i..j]);
    k := i + l;
    assert text[i..j][..l] == text[i..k] && text[i..j][l..] == text[k..j];
  }

  /** Some match of re starts at i. */
  ghost predicate Here(re: string, text: string, i: nat) {
    exists j :: Found(re, text, i, j)
  }

  // ---- The matcher

  lemma StarHere(re: string, text: string, i: nat, k: nat)
    requires |re| >= 2 && re[1] == '*' && i <= k <= |text| && InItem(Star(re[0]), text[i..k]) && Here(re[2..], text, k)
    ensures Here(re, text, i)
  {
    var j :| Found(re[2..], text, k, j);
    FoundCons(Star(re[0]), re, re[2..], text, i, k, j);
  }

  lemma StarSplit(re: string, text: string, i: nat, j: nat) returns (l: nat)
    requires |re| >= 2 && re[1] == '*' && Found(re, text, i, j)
    ensures i <= l <= |text| && Here(re[2..], text, l) && forall m :: i <= m < l ==> Fits(re[0], text[m])
  {
    l := FoundUncons(Star(re[0]), re, re[2..], text, i, j);
    forall m | i <= m < l ensures Fits(re[0], text[m]) {
      assert text[i..l][m - i] == text[m];
    }
  }

  /** Once the repetition cannot go on, every split has been tried. */
  lemma StarNowhere(re: string, text: string, i: nat, k: nat)
    requires |re| >= 2 && re[1] == '*' && i <= k <= |text| && !(k < |text| && Fits(re[0], text[k]))
    requires forall l :: i <= l <= k ==> !Here(re[2..], text, l)
    ensures !Here(re, text, i)
  {
    if Here(re, text, i) {
      var j: nat :| Found(re, text, i, j);
      var l := StarSplit(re, text, i, j);
    }
  }

  /** matchstar: is there a match of c* and the rest of re that starts at i? */
  method MatchStar(c: char, re: string, text: string, i: nat) returns (r: bool)
    requires i <= |text| && |re| >= 2 && re[0] == c && re[1] == '*'
    ensures r <==> Here(re, text, i)
    decreases |re|, 0
  {
    var k := i;
    while true
      invariant i <= k <= |text| && InItem(Star(c), text[i..k])
      invariant forall l :: i <= l < k ==> !Here(re[2..], text, l)
      decreases |text| - k
    {
      r := MatchHere(re[2..], text, k);
      if r {
        StarHere(re, text, i, k);
        return true;
      }
      if !(k < |text| && Fits(c, text[k])) {
        StarNowhere(re, text, i, k);
        return false;
      }
      assert text[i..k + 1] == text[i..k] + [text[k]];
      k := k + 1;
    }
  }

  lemma DollarHere(text: string, i: nat)
    requires i <= |text|
    ensures Here("$", text, i) <==> i == |text|
  {
    LangNil("");
    if i == |text| {
      assert text[i..i] == "";
      assert Found("$", text, i, i);
    }
    if Here("$", text, i) {
      var j: nat :| Found("$", text, i, j);
      LangNil(text[i..j]);
    }
  }

  lemma OneHere(re: string, text: string, i: nat)
    requires i <= |text| && re != "" && re != "$" && !(|re| >= 2 && re[1] == '*')
    ensures Here(re, text, i) <==> i < |text| && Fits(re[0], text[i]) && Here(re[1..], text, i + 1)
  {
    if i < |text| && Fits(re[0], text[i]) && Here(re[1..], text, i + 1) {
      var j :| Found(re[1..], text, i + 1, j);
      FoundCons(One(re[0]), re, re[1..], text, i, i + 1, j);
    }
    if Here(re, text, i) {
      var j :| Found(re, text, i, j);
      var k := FoundUncons(One(re[0]), re, re[1..], text, i, j);
      assert Found(re[1..], text, i + 1, j);
    }
  }

  /** matchhere: is there a match that starts at i? */
  method MatchHere(re: string, text: string, i: nat) returns (r: bool)
    requires i <= |text|
    ensures r <==> Here(re, text, i)
    decreases |re|, 1
  {
    if re == "" {
      LangNil(text[i..i]);
      assert Found(re, text, i, i);
      return true;
    }
    if |re| >= 2 && re[1] == '*' {
      r := MatchStar(re[0], re, text, i);
      return;
    }
    if re == "$" {
      DollarHere(text, i);
      return i == |text|;
    }
    if i < |text| && Fits(re[0], text[i]) {
      r := MatchHere(re[1..], text, i + 1);
      OneHere(re, text, i);
      return;
    }
    OneHere(re, text, i);
    return false;
  }

  lemma NotFound(re: string, text: string)
    requires forall i :: 0 <= i <= |text| ==> !Here(re, text, i)
    ensures !(exists i, j :: Found(re, text, i, j))
  {
    forall i: nat, j: nat ensures !Found(re, text, i, j) {
      if i <= |text| {
        assert !Here(re, text, i);
      }
    }
  }

  /** match: is some part of the text in the language of the pattern? */
  method Match(re: string, text: string) returns (r: bool)
    ensures r <==> Matches(re, text)
  {
    if re != "" && re[0] == '^' {
      r := MatchHere(re[1..], text, 0);
      return;
    }
    var i := 0;
    while true
      invariant 0 <= i <= |text|
      invariant forall l :: 0 <= l < i ==> !Here(re, text, l)
      decreases |text| - i
    {
      r := MatchHere(re, text, i);
      if r {
        return true;
      }
      if i == |text| {
        NotFound(re, text);
        return false;
      }
      i := i + 1;
    }
  }
}
