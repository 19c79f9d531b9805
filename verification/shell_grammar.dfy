/** The grammar of the shell's command language (user/sh.c) and its parser on tokens. */
module ShellGrammar {
  import opened Common

  const MAXARGS: nat := 10

  /** A symbol, with '+' for ">>", or a word by its place in the line. */
  datatype Tok = Sym(c: char) | Word(q: nat, eq: nat)

  datatype Cmd =
    | Exec(argv: seq<Tok>)
    | Redir(cmd: Cmd, op: char, file: Tok)
    | Pipe(left: Cmd, right: Cmd)
    | List(left: Cmd, right: Cmd)
    | Back(cmd: Cmd)

  // ---- Derivations

  /** One step of a simple command: a word, or a redirection with its file. */
  datatype Item = Arg(w: Tok) | Into(op: char, file: Tok)

  datatype PipeD = PipeEnd(exec: ExecD) | PipeMore(exec: ExecD, rest: PipeD)

  datatype LineD = LineEnd(pipe: PipeD, amps: nat) | LineMore(pipe: PipeD, amps: nat, rest: LineD)

  datatype ExecD = Simple(items: seq<Item>) | Block(line: LineD, redirs: seq<Item>)

  predicate IsOp(c: char) {
    c == '<' || c == '>' || c == '+'
  }

  predicate ItemOk(it: Item) {
    match it
    case Arg(w) => w.Word?
    case Into(op, file) => IsOp(op) && file.Word?
  }

  function CountArgs(items: seq<Item>): (n: nat) {
    if items == [] then 0 else One(items[0].Arg?) + CountArgs(items[1..])
  }

  predicate ItemsOk(items: seq<Item>) {
    forall i :: 0 <= i < |items| ==> ItemOk(items[i])
  }

  predicate PipeOk(d: PipeD) {
    match d
    case PipeEnd(e) => ExecOk(e)
    case PipeMore(e, rest) => ExecOk(e) && PipeOk(rest)
  }

  predicate LineOk(d: LineD) {
    match d
    case LineEnd(p, _) => PipeOk(p)
    case LineMore(p, _, rest) => PipeOk(p) && LineOk(rest)
  }

  /** Derivations of the grammar with at most nine words in a simple command. */
  predicate ExecOk(d: ExecD) {
    match d
    case Simple(items) => ItemsOk(items) && CountArgs(items) < MAXARGS
    case Block(line, redirs) => LineOk(line) && ItemsOk(redirs) && CountArgs(redirs) == 0
  }

  // ---- The tokens a derivation yields, in front of `rest`

  function ItemToks(it: Item, rest: seq<Tok>): (ts: seq<Tok>) {
    match it
    case Arg(w) => [w] + rest
    case Into(op, file) => [Sym(op)] + ([file] + rest)
  }

  function ItemsToks(items: seq<Item>, rest: seq<Tok>): (ts: seq<Tok>) {
    if items == [] then rest else ItemToks(items[0], ItemsToks(items[1..], rest))
  }

  function Amps(n: nat, rest: seq<Tok>): (ts: seq<Tok>) {
    if n == 0 then rest else [Sym('&')] + Amps(n - 1, rest)
  }

  function PipeToks(d: PipeD, rest: seq<Tok>): (ts: seq<Tok>) {
    match d
    case PipeEnd(e) => ExecToks(e, rest)
    case PipeMore(e, p) => ExecToks(e, [Sym('|')] + PipeToks(p, rest))
  }

  function LineToks(d: LineD, rest: seq<Tok>): (ts: seq<Tok>) {
    match d
    case LineEnd(p, amps) => PipeToks(p, Amps(amps, rest))
    case LineMore(p, amps, l) => PipeToks(p, Amps(amps, [Sym(';')] + LineToks(l, rest)))
  }

  function ExecToks(d: ExecD, rest: seq<Tok>): (ts: seq<Tok>) {
    match d
    case Simple(items) => ItemsToks(items, rest)
    case Block(line, redirs) => [Sym('(')] + LineToks(line, [Sym(')')] + ItemsToks(redirs, rest))
  }

  // ---- The command a derivation stands for

  function Words(items: seq<Item>): (ws: seq<Tok>) {
    if items == [] then [] else (if items[0].Arg? then [items[0].w] else []) + Words(items[1..])
  }

  /** Redirections wrap the command from the first to the last. */
  function Wrap(cmd: Cmd, items: seq<Item>): (r: Cmd)
    decreases |items|
  {
    if items == [] then cmd
    else Wrap(if items[0].Into? then Redir(cmd, items[0].op, items[0].file) else cmd, items[1..])
  }

  function Backs(cmd: Cmd, n: nat): (r: Cmd)
    decreases n
  {
    if n == 0 then cmd else Backs(Back(cmd), n - 1)
  }

  function PipeCmd(d: PipeD): (r: Cmd) {
    match d
    case PipeEnd(e) => ExecCmd(e)
    case PipeMore(e, rest) => Pipe(ExecCmd(e), PipeCmd(rest))
  }

  function LineCmd(d: LineD): (r: Cmd) {
    match d
    case LineEnd(p, amps) => Backs(PipeCmd(p), amps)
    case LineMore(p, amps, rest) => List(Backs(PipeCmd(p), amps), LineCmd(rest))
  }

  function ExecCmd(d: ExecD): (r: Cmd) {
    match d
    case Simple(items) => Wrap(Exec(Words(items)), items)
    case Block(line, redirs) => Wrap(LineCmd(line), redirs)
  }

  // ---- The parser on tokens

  datatype Result<T> = Ok(value: T, rest: seq<Tok>) | Err

  predicate Starts(ts: seq<Tok>, c: char) {
    ts != [] && ts[0] == Sym(c)
  }

  predicate StartsOp(ts: seq<Tok>) {
    Starts(ts, '<') || Starts(ts, '>') || Starts(ts, '+')
  }

  /** The end of a simple command. */
  predicate Stops(ts: seq<Tok>) {
    ts == [] || Starts(ts, '|') || Starts(ts, ')') || Starts(ts, '&') || Starts(ts, ';')
  }

  /** parseredirs */
  function ParseRedirs(ts: seq<Tok>): (r: Result<seq<Item>>)
    ensures r.Ok? ==> |r.rest| <= |ts|
    decreases |ts|
  {
    if StartsOp(ts) then
      if |ts| >= 2 && ts[1].Word? then
        match ParseRedirs(ts[2..])
        case Ok(items, rest) => Ok([Into(ts[0].c, ts[1])] + items, rest)
        case Err => Err
      else Err
    else Ok([], ts)
  }

  /** The words and redirections of parseexec, of which argc words have been read. */
  function ParseItems(ts: seq<Tok>, argc: nat): (r: Result<seq<Item>>)
    ensures r.Ok? ==> |r.rest| <= |ts|
    decreases |ts|
  {
    if StartsOp(ts) then
      if |ts| >= 2 && ts[1].Word? then
        match ParseItems(ts[2..], argc)
        case Ok(items, rest) => Ok([Into(ts[0].c, ts[1])] + items, rest)
        case Err => Err
      else Err
    else if Stops(ts) then Ok([], ts)
    else if ts[0].Word? && argc + 1 < MAXARGS then
      match ParseItems(ts[1..], argc + 1)
      case Ok(items, rest) => Ok([Arg(ts[0])] + items, rest)
      case Err => Err
    else Err
  }

  /** parsepipe */
  function ParsePipe(ts: seq<Tok>): (r: Result<PipeD>)
    ensures r.Ok? ==> |r.rest| <= |ts|
    decreases |ts|, 1
  {
    match ParseExec(ts)
    case Err => Err
    case Ok(e, rest) =>
      if Starts(rest, '|') then
        match ParsePipe(rest[1..])
        case Ok(p, rest') => Ok(PipeMore(e, p), rest')
        case Err => Err
      else Ok(PipeEnd(e), rest)
  }

  /** The loop of parseline: how many '&' follow, and what comes after them. */
  function ParseAmps(ts: seq<Tok>): (r: (nat, seq<Tok>))
    ensures |r.1| <= |ts|
  {
    if Starts(ts, '&') then
      var (n, rest) := ParseAmps(ts[1..]);
      (n + 1, rest)
    else (0, ts)
  }

  /** parseline */
  function ParseLine(ts: seq<Tok>): (r: Result<LineD>)
    ensures r.Ok? ==> |r.rest| <= |ts|
    decreases |ts|, 2
  {
    match ParsePipe(ts)
    case Err => Err
    case Ok(p, rest) =>
      var (n, after) := ParseAmps(rest);
      if Starts(after, ';') then
        match ParseLine(after[1..])
        case Ok(l, rest') => Ok(LineMore(p, n, l), rest')
        case Err => Err
      else Ok(LineEnd(p, n), after)
  }

  /** parseexec and parseblock */
  function ParseExec(ts: seq<Tok>): (r: Result<ExecD>)
    ensures r.Ok? ==> |r.rest| <= |ts|
    decreases |ts|, 0
  {
    if Starts(ts, '(') then
      match ParseLine(ts[1..])
      case Err => Err
      case Ok(line, rest) =>
        if Starts(rest, ')') then
          match ParseRedirs(rest[1..])
          case Ok(redirs, rest') => Ok(Block(line, redirs), rest')
          case Err => Err
        else Err
    else
      match ParseItems(ts, 0)
      case Ok(items, rest) => Ok(Simple(items), rest)
      case Err => Err
  }

  // ---- The parser accepts only what the grammar derives

  lemma {:induction false} RedirsSound(ts: seq<Tok>)
    ensures var r := ParseRedirs(ts);
      r.Ok? ==> ItemsToks(r.value, r.rest) == ts && ItemsOk(r.value) && CountArgs(r.value) == 0
    decreases |ts|
  {
    var r := ParseRedirs(ts);
    if r.Ok? && StartsOp(ts) {
      RedirsSound(ts[2..]);
      assert r.value[1..] == ParseRedirs(ts[2..]).value;
      assert ts == [ts[0]] + ([ts[1]] + ts[2..]);
    }
  }

  lemma {:induction false} ItemsSound(ts: seq<Tok>, argc: nat)
    requires argc < MAXARGS
    ensures var r := ParseItems(ts, argc);
      r.Ok? ==> ItemsToks(r.value, r.rest) == ts && ItemsOk(r.value) && argc + CountArgs(r.value) < MAXARGS
    decreases |ts|
  {
    var r := ParseItems(ts, argc);
    if r.Ok? && StartsOp(ts) {
      ItemsSound(ts[2..], argc);
      assert r.value[1..] == ParseItems(ts[2..], argc).value;
      assert ts == [ts[0]] + ([ts[1]] + ts[2..]);
    } else if r.Ok? && !Stops(ts) {
      ItemsSound(ts[1..], argc + 1);
      assert r.value[1..] == ParseItems(ts[1..], argc + 1).value;
      assert ts == [ts[0]] + ts[1..];
    }
  }

  lemma {:induction false} PipeSound(ts: seq<Tok>)
    ensures var r := ParsePipe(ts);
      r.Ok? ==> PipeToks(r.value, r.rest) == ts && PipeOk(r.value)
    decreases |ts|, 1
  {
    var r := ParsePipe(ts);
    if r.Ok? {
      ExecSound(ts);
      var e := ParseExec(ts);
      if Starts(e.rest, '|') {
        PipeSound(e.rest[1..]);
        assert e.rest == [Sym('|')] + e.rest[1..];
      }
    }
  }

  lemma {:induction false} AmpsSound(ts: seq<Tok>)
    ensures Amps(ParseAmps(ts).0, ParseAmps(ts).1) == ts
  {
    if Starts(ts, '&') {
      AmpsSound(ts[1..]);
      assert ts == [Sym('&')] + ts[1..];
    }
  }

  /** Whatever parseline accepts is a derivation of the tokens it consumed. */
  lemma {:induction false} LineSound(ts: seq<Tok>)
    ensures var r := ParseLine(ts);
      r.Ok? ==> LineToks(r.value, r.rest) == ts && LineOk(r.value)
    decreases |ts|, 2
  {
    var r := ParseLine(ts);
    if r.Ok? {
      PipeSound(ts);
      var p := ParsePipe(ts);
      AmpsSound(p.rest);
      var after := ParseAmps(p.rest).1;
      if Starts(after, ';') {
        LineSound(after[1..]);
        assert after == [Sym(';')] + after[1..];
      }
    }
  }

  lemma {:induction false} ExecSound(ts: seq<Tok>)
    ensures var r := ParseExec(ts);
      r.Ok? ==> ExecToks(r.value, r.rest) == ts && ExecOk(r.value)
    decreases |ts|, 0
  {
    var r := ParseExec(ts);
    if r.Ok? && Starts(ts, '(') {
      LineSound(ts[1..]);
      var l := ParseLine(ts[1..]);
      RedirsSound(l.rest[1..]);
      assert l.rest == [Sym(')')] + l.rest[1..];
      assert ts == [Sym('(')] + ts[1..];
    } else if r.Ok? {
      ItemsSound(ts, 0);
    }
  }

  // ---- and everything the grammar derives, by that derivation

  lemma {:induction false} RedirsComplete(items: seq<Item>, rest: seq<Tok>)
    requires ItemsOk(items) && CountArgs(items) == 0 && Stops(rest)
    ensures ParseRedirs(ItemsToks(items, rest)) == Ok(items, rest)
  {
    if items != [] {
      RedirsComplete(items[1..], rest);
      assert ItemOk(items[0]);
      assert ItemsToks(items, rest)[2..] == ItemsToks(items[1..], rest);
      assert items == [items[0]] + items[1..];
    }
  }

  lemma ArgParses(w: Tok, more: seq<Tok>, argc: nat, items: seq<Item>, rest: seq<Tok>)
    requires w.Word? && argc + 1 < MAXARGS && ParseItems(more, argc + 1) == Ok(items, rest)
    ensures ParseItems([w] + more, argc) == Ok([Arg(w)] + items, rest)
  {
    var ts := [w] + more;
    assert ts[0] == w && ts[1..] == more;
  }

  lemma IntoParses(op: char, file: Tok, more: seq<Tok>, argc: nat, items: seq<Item>, rest: seq<Tok>)
    requires IsOp(op) && file.Word? && ParseItems(more, argc) == Ok(items, rest)
    ensures ParseItems([Sym(op)] + ([file] + more), argc) == Ok([Into(op, file)] + items, rest)
  {
    var ts := [Sym(op)] + ([file] + more);
    assert ts[0] == Sym(op) && ts[1] == file && ts[2..] == more;
  }

  lemma {:induction false} ItemsComplete(items: seq<Item>, rest: seq<Tok>, argc: nat)
    requires ItemsOk(items) && argc + CountArgs(items) < MAXARGS && Stops(rest)
    ensures ParseItems(ItemsToks(items, rest), argc) == Ok(items, rest)
    decreases |items|
  {
    if items != [] {
      var it, tail := items[0], items[1..];
      assert ItemOk(it) && items == [it] + tail;
      match it {
        case Arg(w) =>
          ItemsComplete(tail, rest, argc + 1);
          ArgParses(w, ItemsToks(tail, rest), argc, tail, rest);
        case Into(op, file) =>
          ItemsComplete(tail, rest, argc);
          IntoParses(op, file, ItemsToks(tail, rest), argc, tail, rest);
      }
    }
  }

  lemma {:induction false} PipeComplete(d: PipeD, rest: seq<Tok>)
    requires PipeOk(d) && Stops(rest) && !Starts(rest, '|')
    ensures ParsePipe(PipeToks(d, rest)) == Ok(d, rest)
    decreases d, 1
  {
    match d {
      case PipeEnd(e) =>
        ExecComplete(e, rest);
      case PipeMore(e, p) =>
        var after := [Sym('|')] + PipeToks(p, rest);
        ExecComplete(e, after);
        PipeComplete(p, rest);
        assert after[1..] == PipeToks(p, rest);
    }
  }

  lemma {:induction false} AmpsComplete(n: nat, rest: seq<Tok>)
    requires !Starts(rest, '&')
    ensures ParseAmps(Amps(n, rest)) == (n, rest)
    ensures Stops(rest) && !Starts(rest, '|') ==> Stops(Amps(n, rest)) && !Starts(Amps(n, rest), '|')
  {
    if n > 0 {
      AmpsComplete(n - 1, rest);
      assert Amps(n, rest)[1..] == Amps(n - 1, rest);
    }
  }

  /** Every derivation is found by parseline, whatever closes the line after it. */
  lemma {:induction false} LineComplete(d: LineD, rest: seq<Tok>)
    requires LineOk(d) && (rest == [] || Starts(rest, ')'))
    ensures ParseLine(LineToks(d, rest)) == Ok(d, rest)
    decreases d, 2
  {
    match d {
      case LineEnd(p, amps) =>
        AmpsComplete(amps, rest);
        PipeComplete(p, Amps(amps, rest));
      case LineMore(p, amps, l) =>
        var semi := [Sym(';')] + LineToks(l, rest);
        AmpsComplete(amps, semi);
        PipeComplete(p, Amps(amps, semi));
        LineComplete(l, rest);
        assert semi[1..] == LineToks(l, rest);
    }
  }

  lemma {:induction false} ExecComplete(d: ExecD, rest: seq<Tok>)
    requires ExecOk(d) && Stops(rest)
    ensures ParseExec(ExecToks(d, rest)) == Ok(d, rest)
    decreases d, 0
  {
    match d {
      case Simple(items) =>
        assert items != [] ==> ItemOk(items[0]);
        ItemsComplete(items, rest, 0);
      case Block(line, redirs) =>
        var after := [Sym(')')] + ItemsToks(redirs, rest);
        LineComplete(line, after);
        RedirsComplete(redirs, rest);
        assert ExecToks(d, rest)[1..] == LineToks(line, after);
        assert after[1..] == ItemsToks(redirs, rest);
    }
  }

  /** The line parses completely exactly when it has a derivation, and by that derivation. */
  lemma ParseExactly(ts: seq<Tok>, d: LineD)
    ensures LineOk(d) && LineToks(d, []) == ts <==> ParseLine(ts) == Ok(d, [])
  {
    if LineOk(d) && LineToks(d, []) == ts {
      LineComplete(d, []);
    }
    if ParseLine(ts) == Ok(d, []) {
      LineSound(ts);
    }
  }

  /** The grammar is unambiguous. */
  lemma OneDerivation(d: LineD, e: LineD)
    requires LineOk(d) && LineOk(e) && LineToks(d, []) == LineToks(e, [])
    ensures d == e
  {
    ParseExactly(LineToks(d, []), d);
    ParseExactly(LineToks(e, []), e);
  }
}
