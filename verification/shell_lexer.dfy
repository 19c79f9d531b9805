/** The tokens of a line (user/sh.c): which tokens a line has, and the lexer that finds them. */
module ShellLexer {
  import opened ShellGrammar

  predicate White(c: char) {
    c == ' ' || c == '\t' || c == '\r' || c == '\n' || c == '\U{0B}'
  }

  predicate Symbol(c: char) {
    c == '<' || c == '|' || c == '>' || c == '&' || c == ';' || c == '(' || c == ')'
  }

  predicate Inside(c: char) {
    !White(c) && !Symbol(c)
  }

  // ---- What tokens a line has

  /** A word of the line: it is non-empty, maximal, and holds no blank and no symbol. */
  predicate WordAt(line: string, w: Tok) {
    && w.Word? && w.q < w.eq <= |line|
    && (forall k :: w.q <= k < w.eq ==> Inside(line[k]))
    && (w.eq < |line| ==> !Inside(line[w.eq]))
  }

  /** The characters a .. b - 1 of the line are the token t: a whole word, one symbol, or ">>" for '+'. */
  predicate TokAt(line: string, t: Tok, a: nat, b: nat) {
    match t
    case Word(q, eq) => q == a && eq == b && WordAt(line, t)
    case Sym(c) =>
      && a < b <= |line|
      && if c == '+' then line[a..b] == ">>"
         else Symbol(c) && line[a..b] == [c] && (c == '>' ==> b == |line| || line[b] != '>')
  }

  predicate AllWhite(line: string, i: nat, j: nat) {
    i <= j <= |line| && forall k :: i <= k < j ==> White(line[k])
  }

  /** From i on the line is these tokens, with white space before, between and after them. */
  ghost predicate Spelled(line: string, i: nat, ts: seq<Tok>)
    decreases |ts|
  {
    if ts == [] then AllWhite(line, i, |line|)
    else exists a: nat, b: nat :: AllWhite(line, i, a) && TokAt(line, ts[0], a, b) && Spelled(line, b, ts[1..])
  }

  // ---- The lexer

  function Skip(line: string, i: nat): (j: nat)
    requires i <= |line|
    ensures i <= j <= |line| && (j < |line| ==> !White(line[j])) && forall k :: i <= k < j ==> White(line[k])
    decreases |line| - i
  {
    if i < |line| && White(line[i]) then Skip(line, i + 1) else i
  }

  function WordEnd(line: string, i: nat): (j: nat)
    requires i <= |line|
    ensures i <= j <= |line| && (j < |line| ==> !Inside(line[j])) && forall k :: i <= k < j ==> Inside(line[k])
    decreases |line| - i
  {
    if i < |line| && Inside(line[i]) then WordEnd(line, i + 1) else i
  }

  /** The first token from i on, if any, and where it ends. */
  function First(line: string, i: nat): (r: (Tok, nat))
    requires i < |line| && !White(line[i])
    ensures i < r.1 <= |line|
  {
    if line[i] == '>' then
      if i + 1 < |line| && line[i + 1] == '>' then (Sym('+'), i + 2) else (Sym('>'), i + 1)
    else if Symbol(line[i]) then (Sym(line[i]), i + 1)
    else (Word(i, WordEnd(line, i)), WordEnd(line, i))
  }

  function Lex(line: string, i: nat): (ts: seq<Tok>)
    requires i <= |line|
    decreases |line| - i
  {
    var j := Skip(line, i);
    if j == |line| then []
    else
      var (tok, e) := First(line, j);
      [tok] + Lex(line, e)
  }

  lemma LexSkip(line: string, i: nat)
    requires i <= |line|
    ensures Lex(line, Skip(line, i)) == Lex(line, i)
  {
    assert Skip(line, Skip(line, i)) == Skip(line, i);
  }

  lemma FirstToken(line: string, i: nat)
    requires i < |line| && !White(line[i])
    ensures TokAt(line, First(line, i).0, i, First(line, i).1)
  {
  }

  /** The tokens found spell the line. */
  lemma {:induction false} LexSpells(line: string, i: nat)
    requires i <= |line|
    ensures Spelled(line, i, Lex(line, i))
    decreases |line| - i
  {
    var j := Skip(line, i);
    assert AllWhite(line, i, j);
    if j < |line| {
      FirstToken(line, j);
      LexSpells(line, First(line, j).1);
      assert Lex(line, i)[1..] == Lex(line, First(line, j).1);
    }
  }

  lemma OneToken(line: string, i: nat, t: Tok, b: nat)
    requires TokAt(line, t, i, b)
    ensures i < |line| && !White(line[i]) && First(line, i) == (t, b)
  {
    assert line[i..b][0] == line[i];
    assert t.Sym? && t.c == '+' ==> line[i..b][1] == line[i + 1] == '>';
  }

  /** No other tokens do. */
  lemma {:induction false} OneLexing(line: string, i: nat, ts: seq<Tok>)
    requires i <= |line| && Spelled(line, i, ts)
    ensures ts == Lex(line, i)
    decreases |ts|
  {
    var j := Skip(line, i);
    if ts != [] {
      var a: nat, b: nat :| AllWhite(line, i, a) && TokAt(line, ts[0], a, b) && Spelled(line, b, ts[1..]);
      OneToken(line, a, ts[0], b);
      assert j == a;
      OneLexing(line, b, ts[1..]);
      assert ts == [ts[0]] + ts[1..];
    }
  }

  // ---- Words and symbols of a line

  lemma {:induction false} LexWords(line: string, i: nat)
    requires i <= |line|
    ensures forall t :: t in Lex(line, i) && t.Word? ==> WordAt(line, t)
    decreases |line| - i
  {
    var j := Skip(line, i);
    if j < |line| {
      LexWords(line, First(line, j).1);
    }
  }

  /** The symbol characters of the line from i on, in order. */
  function SymbolsIn(line: string, i: nat): (s: string)
    requires i <= |line|
    decreases |line| - i
  {
    if i == |line| then ""
    else (if Symbol(line[i]) then [line[i]] else "") + SymbolsIn(line, i + 1)
  }

  /** The characters of a symbol; '+' stands for two. */
  function TokSymbol(t: Tok): (s: string) {
    if t.Word? then "" else if t.c == '+' then ">>" else [t.c]
  }

  /** The characters of the symbols among the tokens, in order. */
  function SymbolText(ts: seq<Tok>): (s: string)
    decreases |ts|
  {
    if ts == [] then "" else TokSymbol(ts[0]) + SymbolText(ts[1..])
  }

  lemma {:induction false} NoSymbols(line: string, i: nat, j: nat)
    requires i <= j <= |line| && forall k :: i <= k < j ==> !Symbol(line[k])
    ensures SymbolsIn(line, i) == SymbolsIn(line, j)
    decreases j - i
  {
    if i < j {
      NoSymbols(line, i + 1, j);
    }
  }

  lemma TokSymbols(line: string, t: Tok, a: nat, b: nat)
    requires TokAt(line, t, a, b)
    ensures b <= |line| && SymbolsIn(line, a) == TokSymbol(t) + SymbolsIn(line, b)
  {
    if t.Word? {
      NoSymbols(line, a, b);
    } else {
      assert line[a..b][0] == line[a];
      assert t.c == '+' ==> line[a..b][1] == line[a + 1] == '>';
    }
  }

  /** Every symbol of the line is in a token, and the tokens have no others: none is lost and none is made up. */
  lemma {:induction false} SymbolsRead(line: string, i: nat, ts: seq<Tok>)
    requires i <= |line| && Spelled(line, i, ts)
    ensures SymbolText(ts) == SymbolsIn(line, i)
    decreases |ts|
  {
    if ts == [] {
      NoSymbols(line, i, |line|);
    } else {
      var a: nat, b: nat :| AllWhite(line, i, a) && TokAt(line, ts[0], a, b) && Spelled(line, b, ts[1..]);
      NoSymbols(line, i, a);
      TokSymbols(line, ts[0], a, b);
      SymbolsRead(line, b, ts[1..]);
    }
  }
}
