/** Reading a command back: a command is printed as tokens that parse to it again, and what the line says, from
    left to right, is what the command says (user/sh.c). */
module ShellPrint {
  import opened ShellGrammar

  // ---- What a line and what a command say

  predicate OpTok(t: Tok) {
    t.Sym? && IsOp(t.c)
  }

  predicate Paren(t: Tok) {
    t == Sym('(') || t == Sym(')')
  }

  /** The tokens without parentheses and redirections: the argument words and what is between the commands. */
  function Strip(ts: seq<Tok>): (r: seq<Tok>)
    decreases |ts|
  {
    if ts == [] then []
    else if |ts| >= 2 && OpTok(ts[0]) then Strip(ts[2..])
    else if Paren(ts[0]) then Strip(ts[1..])
    else [ts[0]] + Strip(ts[1..])
  }

  /** The redirections of a line, each with its file. */
  function RedirsIn(ts: seq<Tok>): (r: seq<(char, Tok)>)
    decreases |ts|
  {
    if ts == [] then []
    else if |ts| >= 2 && OpTok(ts[0]) then [(ts[0].c, ts[1])] + RedirsIn(ts[2..])
    else RedirsIn(ts[1..])
  }

  /** The arguments of a command from left to right, with the operators between them. */
  function Flat(c: Cmd): (r: seq<Tok>) {
    match c
    case Exec(argv) => argv
    case Redir(d, _, _) => Flat(d)
    case Pipe(l, r) => Flat(l) + [Sym('|')] + Flat(r)
    case List(l, r) => Flat(l) + [Sym(';')] + Flat(r)
    case Back(d) => Flat(d) + [Sym('&')]
  }

  /** Its redirections from left to right. */
  function RedirsOf(c: Cmd): (r: seq<(char, Tok)>) {
    match c
    case Exec(_) => []
    case Redir(d, op, file) => RedirsOf(d) + [(op, file)]
    case Pipe(l, r) => RedirsOf(l) + RedirsOf(r)
    case List(l, r) => RedirsOf(l) + RedirsOf(r)
    case Back(d) => RedirsOf(d)
  }

  /** A command that the shell can hold. */
  predicate CmdOk(c: Cmd) {
    match c
    case Exec(argv) => |argv| < MAXARGS && forall i :: 0 <= i < |argv| ==> argv[i].Word?
    case Redir(d, op, file) => CmdOk(d) && IsOp(op) && file.Word?
    case Pipe(l, r) => CmdOk(l) && CmdOk(r)
    case List(l, r) => CmdOk(l) && CmdOk(r)
    case Back(d) => CmdOk(d)
  }

  /** The tokens ts in front of rest say what the command says. */
  ghost predicate Reads(c: Cmd, ts: seq<Tok>, rest: seq<Tok>) {
    CmdOk(c) && Strip(ts) == Flat(c) + Strip(rest) && RedirsIn(ts) == RedirsOf(c) + RedirsIn(rest)
  }

  /** The commands that do. */
  ghost function Readings(ts: seq<Tok>, rest: seq<Tok>): iset<Cmd> {
    iset c | Reads(c, ts, rest)
  }

  lemma Joined<T>(x: seq<T>, y: seq<T>, z: seq<T>)
    ensures (x + y) + z == x + (y + z)
  {
  }

  // ---- A derivation's command says what its tokens say

  lemma SymReads(s: char, rest: seq<Tok>)
    requires !IsOp(s)
    ensures Strip([Sym(s)] + rest) == if s == '(' || s == ')' then Strip(rest) else [Sym(s)] + Strip(rest)
    ensures RedirsIn([Sym(s)] + rest) == RedirsIn(rest)
  {
    assert ([Sym(s)] + rest)[1..] == rest;
  }

  function Intos(items: seq<Item>): (r: seq<(char, Tok)>) {
    if items == [] then [] else (if items[0].Into? then [(items[0].op, items[0].file)] else []) + Intos(items[1..])
  }

  lemma ItemReads(it: Item, rest: seq<Tok>)
    requires ItemOk(it)
    ensures Strip(ItemToks(it, rest)) == (if it.Arg? then [it.w] else []) + Strip(rest)
    ensures RedirsIn(ItemToks(it, rest)) == (if it.Into? then [(it.op, it.file)] else []) + RedirsIn(rest)
  {
    match it
    case Arg(w) => assert ([w] + rest)[1..] == rest;
    case Into(op, file) => assert ([Sym(op)] + ([file] + rest))[2..] == rest;
  }

  lemma {:induction false} ItemsRead(items: seq<Item>, rest: seq<Tok>)
    requires ItemsOk(items)
    ensures Strip(ItemsToks(items, rest)) == Words(items) + Strip(rest)
    ensures RedirsIn(ItemsToks(items, rest)) == Intos(items) + RedirsIn(rest)
    ensures |Words(items)| == CountArgs(items) && forall i :: 0 <= i < |Words(items)| ==> Words(items)[i].Word?
  {
    if items != [] {
      var it, tail := items[0], items[1..];
      ItemsRead(tail, rest);
      assert ItemOk(it);
      ItemReads(it, ItemsToks(tail, rest));
      Joined(if it.Arg? then [it.w] else [], Words(tail), Strip(rest));
      Joined(if it.Into? then [(it.op, it.file)] else [], Intos(tail), RedirsIn(rest));
    }
  }

  lemma {:induction false} WrapReads(c: Cmd, items: seq<Item>)
    requires CmdOk(c) && ItemsOk(items)
    ensures CmdOk(Wrap(c, items)) && Flat(Wrap(c, items)) == Flat(c) &&
      RedirsOf(Wrap(c, items)) == RedirsOf(c) + Intos(items)
    decreases |items|
  {
    if items != [] {
      assert ItemOk(items[0]);
      WrapReads(if items[0].Into? then Redir(c, items[0].op, items[0].file) else c, items[1..]);
    }
  }

  lemma {:induction false} BacksRead(c: Cmd, n: nat, ts: seq<Tok>, rest: seq<Tok>)
    requires Reads(c, ts, Amps(n, rest))
    ensures Reads(Backs(c, n), ts, rest)
    decreases n
  {
    if n > 0 {
      SymReads('&', Amps(n - 1, rest));
      BacksRead(Back(c), n - 1, ts, rest);
    }
  }

  /** Two commands with an operator between them. */
  lemma BothRead(l: Cmd, r: Cmd, s: char, ts: seq<Tok>, mid: seq<Tok>, rest: seq<Tok>)
    requires (s == '|' || s == ';') && Reads(l, ts, [Sym(s)] + mid) && Reads(r, mid, rest)
    ensures Strip(ts) == (Flat(l) + [Sym(s)] + Flat(r)) + Strip(rest)
    ensures RedirsIn(ts) == (RedirsOf(l) + RedirsOf(r)) + RedirsIn(rest)
  {
    SymReads(s, mid);
    Joined(Flat(l) + [Sym(s)], Flat(r), Strip(rest));
    Joined(Flat(l), [Sym(s)], Flat(r) + Strip(rest));
    Joined(RedirsOf(l), RedirsOf(r), RedirsIn(rest));
  }

  lemma SimpleReads(items: seq<Item>, rest: seq<Tok>)
    requires ItemsOk(items) && CountArgs(items) < MAXARGS
    ensures Reads(Wrap(Exec(Words(items)), items), ItemsToks(items, rest), rest)
  {
    ItemsRead(items, rest);
    WrapReads(Exec(Words(items)), items);
  }

  lemma BlockReads(c: Cmd, ts: seq<Tok>, redirs: seq<Item>, rest: seq<Tok>)
    requires Reads(c, ts, [Sym(')')] + ItemsToks(redirs, rest)) && ItemsOk(redirs) && CountArgs(redirs) == 0
    ensures Reads(Wrap(c, redirs), [Sym('(')] + ts, rest)
  {
    SymReads('(', ts);
    SymReads(')', ItemsToks(redirs, rest));
    ItemsRead(redirs, rest);
    WrapReads(c, redirs);
    assert Words(redirs) + Strip(rest) == Strip(rest);
    Joined(RedirsOf(c), Intos(redirs), RedirsIn(rest));
  }

  lemma {:induction false} PipeReads(d: PipeD, rest: seq<Tok>)
    requires PipeOk(d)
    ensures Reads(PipeCmd(d), PipeToks(d, rest), rest)
    decreases d, 1
  {
    match d
    case PipeEnd(e) => ExecReads(e, rest);
    case PipeMore(e, p) =>
      PipeReads(p, rest);
      ExecReads(e, [Sym('|')] + PipeToks(p, rest));
      BothRead(ExecCmd(e), PipeCmd(p), '|', PipeToks(d, rest), PipeToks(p, rest), rest);
  }

  /** From left to right, the command of a line has the arguments, the operators and the redirections of the line. */
  lemma {:induction false} LineReads(d: LineD, rest: seq<Tok>)
    requires LineOk(d)
    ensures Reads(LineCmd(d), LineToks(d, rest), rest)
    decreases d, 2
  {
    match d
    case LineEnd(p, amps) =>
      PipeReads(p, Amps(amps, rest));
      BacksRead(PipeCmd(p), amps, LineToks(d, rest), rest);
    case LineMore(p, amps, l) =>
      var semi := [Sym(';')] + LineToks(l, rest);
      LineReads(l, rest);
      PipeReads(p, Amps(amps, semi));
      BacksRead(PipeCmd(p), amps, LineToks(d, rest), semi);
      BothRead(Backs(PipeCmd(p), amps), LineCmd(l), ';', LineToks(d, rest), LineToks(l, rest), rest);
  }

  lemma {:induction false} ExecReads(d: ExecD, rest: seq<Tok>)
    requires ExecOk(d)
    ensures Reads(ExecCmd(d), ExecToks(d, rest), rest)
    decreases d, 0
  {
    match d
    case Simple(items) =>
      SimpleReads(items, rest);
    case Block(line, redirs) =>
      LineReads(line, [Sym(')')] + ItemsToks(redirs, rest));
      BlockReads(LineCmd(line), LineToks(line, [Sym(')')] + ItemsToks(redirs, rest)), redirs, rest);
  }

  /** What the parser reads off says what the command says. */
  lemma ParseReads(ts: seq<Tok>)
    ensures ParseExec(ts).Ok? ==> ExecCmd(ParseExec(ts).value) in Readings(ts, ParseExec(ts).rest)
    ensures ParsePipe(ts).Ok? ==> PipeCmd(ParsePipe(ts).value) in Readings(ts, ParsePipe(ts).rest)
    ensures ParseLine(ts).Ok? ==> LineCmd(ParseLine(ts).value) in Readings(ts, ParseLine(ts).rest)
  {
    ExecSound(ts);
    PipeSound(ts);
    LineSound(ts);
    if ParseExec(ts).Ok? {
      ExecReads(ParseExec(ts).value, ParseExec(ts).rest);
    }
    if ParsePipe(ts).Ok? {
      PipeReads(ParsePipe(ts).value, ParsePipe(ts).rest);
    }
    if ParseLine(ts).Ok? {
      LineReads(ParseLine(ts).value, ParseLine(ts).rest);
    }
  }

  // ---- The printer

  /** The level of the grammar at which a command stands without parentheses: 0 for a line, 1 in front of
      '&', 2 for a pipeline, 3 for a simple command. */
  function Top(c: Cmd): (level: nat)
    ensures level < 4
  {
    match c case List(_, _) => 0 case Back(_) => 1 case Pipe(_, _) => 2 case _ => 3
  }

  /** The command at that level, in front of rest. */
  function Print(c: Cmd, level: nat, rest: seq<Tok>): (ts: seq<Tok>)
    requires level < 4
    decreases c, (Top(c) + 4 - level) % 4
  {
    if level != Top(c) then
      if level == 3 then [Sym('(')] + Print(c, 0, [Sym(')')] + rest) else Print(c, level + 1, rest)
    else
      match c
      case List(l, r) => Print(l, 1, [Sym(';')] + Print(r, 0, rest))
      case Back(d) => Print(d, 1, [Sym('&')] + rest)
      case Pipe(l, r) => Print(l, 3, [Sym('|')] + Print(r, 2, rest))
      case Redir(d, op, file) => Print(d, 3, [Sym(op)] + ([file] + rest))
      case Exec(argv) => argv + rest
  }

  // ---- What is printed parses to the command

  function Args(argv: seq<Tok>): (items: seq<Item>) {
    if argv == [] then [] else [Arg(argv[0])] + Args(argv[1..])
  }

  function AddRedir(e: ExecD, it: Item): (r: ExecD) {
    match e
    case Simple(items) => Simple(items + [it])
    case Block(line, redirs) => Block(line, redirs + [it])
  }

  /** The derivations of a command at the levels of the grammar. */
  function ToLine(c: Cmd): (d: LineD)
    decreases c, Top(c) % 4
  {
    match c
    case List(l, r) => LineMore(ToBacks(l).0, ToBacks(l).1, ToLine(r))
    case _ => LineEnd(ToBacks(c).0, ToBacks(c).1)
  }

  function ToBacks(c: Cmd): (r: (PipeD, nat))
    decreases c, (Top(c) + 3) % 4
  {
    match c
    case Back(d) => (ToBacks(d).0, ToBacks(d).1 + 1)
    case _ => (ToPipe(c), 0)
  }

  function ToPipe(c: Cmd): (d: PipeD)
    decreases c, (Top(c) + 2) % 4
  {
    match c
    case Pipe(l, r) => PipeMore(ToExec(l), ToPipe(r))
    case _ => PipeEnd(ToExec(c))
  }

  function ToExec(c: Cmd): (d: ExecD)
    decreases c, (Top(c) + 1) % 4
  {
    match c
    case Exec(argv) => Simple(Args(argv))
    case Redir(d, op, file) => AddRedir(ToExec(d), Into(op, file))
    case _ => Block(ToLine(c), [])
  }

  lemma {:induction false} ArgsToks(argv: seq<Tok>, rest: seq<Tok>)
    requires forall i :: 0 <= i < |argv| ==> argv[i].Word?
    ensures ItemsOk(Args(argv)) && CountArgs(Args(argv)) == |argv| && Words(Args(argv)) == argv
    ensures ItemsToks(Args(argv), rest) == argv + rest && Wrap(Exec(argv), Args(argv)) == Exec(argv)
  {
    ArgsPlain(argv, Exec(argv));
    if argv == [] {
      assert argv + rest == rest;
    } else {
      ArgsToks(argv[1..], rest);
      assert Args(argv)[1..] == Args(argv[1..]);
      assert argv == [argv[0]] + argv[1..] && [argv[0]] + (argv[1..] + rest) == argv + rest;
    }
  }

  lemma {:induction false} ArgsPlain(argv: seq<Tok>, c: Cmd)
    ensures Wrap(c, Args(argv)) == c
  {
    if argv != [] {
      assert Args(argv)[1..] == Args(argv[1..]);
      ArgsPlain(argv[1..], c);
    }
  }

  /** One redirection more, at the end. */
  lemma {:induction false} ItemsMore(items: seq<Item>, it: Item, c: Cmd, rest: seq<Tok>)
    requires it.Into? && ItemsOk(items) && ItemOk(it)
    ensures ItemsOk(items + [it]) && CountArgs(items + [it]) == CountArgs(items) && Words(items + [it]) == Words(items)
    ensures ItemsToks(items + [it], rest) == ItemsToks(items, ItemToks(it, rest))
    ensures Wrap(c, items + [it]) == Redir(Wrap(c, items), it.op, it.file)
    decreases |items|
  {
    if items == [] {
      assert items + [it] == [it] && [it][1..] == [];
    } else {
      var c' := if items[0].Into? then Redir(c, items[0].op, items[0].file) else c;
      ItemsMore(items[1..], it, c', rest);
      assert (items + [it])[1..] == items[1..] + [it] && (items + [it])[0] == items[0];
    }
  }

  lemma RedirPrints(e: ExecD, it: Item, rest: seq<Tok>)
    requires ExecOk(e) && it.Into? && ItemOk(it)
    ensures ExecOk(AddRedir(e, it)) && ExecCmd(AddRedir(e, it)) == Redir(ExecCmd(e), it.op, it.file)
    ensures ExecToks(AddRedir(e, it), rest) == ExecToks(e, ItemToks(it, rest))
  {
    match e
    case Simple(items) => ItemsMore(items, it, Exec(Words(items)), rest);
    case Block(line, redirs) => ItemsMore(redirs, it, LineCmd(line), rest);
  }

  lemma {:induction false} BacksMore(c: Cmd, n: nat, rest: seq<Tok>)
    ensures Backs(c, n + 1) == Back(Backs(c, n)) && Amps(n + 1, rest) == Amps(n, [Sym('&')] + rest)
    decreases n
  {
    if n > 0 {
      BacksMore(Back(c), n - 1, rest);
    }
  }

  lemma {:induction false} ExecPrints(c: Cmd, rest: seq<Tok>)
    requires CmdOk(c)
    ensures ExecOk(ToExec(c)) && ExecCmd(ToExec(c)) == c && ExecToks(ToExec(c), rest) == Print(c, 3, rest)
    decreases c, (Top(c) + 1) % 4
  {
    match c
    case Exec(argv) => ArgsToks(argv, rest);
    case Redir(d, op, file) =>
      ExecPrints(d, ItemToks(Into(op, file), rest));
      RedirPrints(ToExec(d), Into(op, file), rest);
    case _ =>
      LinePrints(c, [Sym(')')] + rest);
  }

  lemma {:induction false} PipePrints(c: Cmd, rest: seq<Tok>)
    requires CmdOk(c)
    ensures PipeOk(ToPipe(c)) && PipeCmd(ToPipe(c)) == c && PipeToks(ToPipe(c), rest) == Print(c, 2, rest)
    decreases c, (Top(c) + 2) % 4
  {
    match c
    case Pipe(l, r) =>
      PipePrints(r, rest);
      ExecPrints(l, [Sym('|')] + Print(r, 2, rest));
    case _ =>
      ExecPrints(c, rest);
  }

  lemma {:induction false} BacksPrint(c: Cmd, rest: seq<Tok>)
    requires CmdOk(c)
    ensures var (p, n) := ToBacks(c);
      PipeOk(p) && Backs(PipeCmd(p), n) == c && PipeToks(p, Amps(n, rest)) == Print(c, 1, rest)
    decreases c, (Top(c) + 3) % 4
  {
    match c
    case Back(d) =>
      var (p, n) := ToBacks(d);
      BacksPrint(d, [Sym('&')] + rest);
      BacksMore(PipeCmd(p), n, rest);
    case _ =>
      PipePrints(c, rest);
  }

  lemma {:induction false} LinePrints(c: Cmd, rest: seq<Tok>)
    requires CmdOk(c)
    ensures LineOk(ToLine(c)) && LineCmd(ToLine(c)) == c && LineToks(ToLine(c), rest) == Print(c, 0, rest)
    decreases c, Top(c) % 4
  {
    match c
    case List(l, r) =>
      LinePrints(r, rest);
      BacksPrint(l, [Sym(';')] + Print(r, 0, rest));
    case _ =>
      BacksPrint(c, rest);
  }

  /** The tokens of the command parse, and to that command. */
  ghost predicate ParsesTo(ts: seq<Tok>, c: Cmd) {
    exists d :: ParseLine(ts) == Ok(d, []) && LineCmd(d) == c
  }

  /** What is printed parses to the command that was printed. */
  lemma PrintParses(c: Cmd)
    requires CmdOk(c)
    ensures ParsesTo(Print(c, 0, []), c)
  {
    LinePrints(c, []);
    LineComplete(ToLine(c), []);
  }

  /** Every command the parser makes reads back: it is printed as tokens that parse to it. */
  lemma ParsePrints(ts: seq<Tok>, d: LineD)
    requires ParseLine(ts) == Ok(d, [])
    ensures ParsesTo(Print(LineCmd(d), 0, []), LineCmd(d))
    ensures Strip(ts) == Flat(LineCmd(d)) && RedirsIn(ts) == RedirsOf(LineCmd(d))
  {
    LineSound(ts);
    LineReads(d, []);
    PrintParses(LineCmd(d));
  }
}
