/** The shell's parser on its line buffer (user/sh.c): tokens are read by moving a cursor,
    and words are terminated in place. */
module Shell {
  import opened ShellGrammar
  import opened ShellLexer
  import opened ShellPrint

  const NUL: char := '\0'

  // ---- The words of a command

  function CmdWords(cmd: Cmd): (ws: seq<Tok>) {
    match cmd
    case Exec(argv) => argv
    case Redir(c, _, file) => CmdWords(c) + [file]
    case Pipe(l, r) => CmdWords(l) + CmdWords(r)
    case List(l, r) => CmdWords(l) + CmdWords(r)
    case Back(c) => CmdWords(c)
  }

  /** The words of a command are among the tokens it says. */
  lemma {:induction false} WordsAmong(c: Cmd, ts: seq<Tok>)
    requires CmdOk(c) && (forall t :: t in Flat(c) ==> t in ts) && forall r :: r in RedirsOf(c) ==> r.1 in ts
    ensures forall w :: w in CmdWords(c) ==> w in ts && w.Word?
  {
    match c
    case Exec(_) =>
    case Redir(d, op, file) =>
      assert (op, file) in RedirsOf(c);
      WordsAmong(d, ts);
    case Pipe(l, r) =>
      WordsAmong(l, ts);
      WordsAmong(r, ts);
    case List(l, r) =>
      WordsAmong(l, ts);
      WordsAmong(r, ts);
    case Back(d) =>
      WordsAmong(d, ts);
  }

  lemma {:induction false} SaidIn(ts: seq<Tok>)
    ensures forall t :: t in Strip(ts) ==> t in ts
    ensures forall r :: r in RedirsIn(ts) ==> r.1 in ts
    decreases |ts|
  {
    if ts != [] {
      SaidIn(if |ts| >= 2 && OpTok(ts[0]) then ts[2..] else ts[1..]);
      if !(|ts| >= 2 && OpTok(ts[0])) {
        SaidIn(ts[1..]);
      }
    }
  }

  // ---- Words read back

  ghost predicate EndOf(ws: seq<Tok>, i: int) {
    exists w :: w in ws && w.Word? && w.eq == i
  }

  /** The buffer with a NUL at the end of each of the words. */
  ghost predicate Terminated(line: string, buf: seq<char>, ws: seq<Tok>) {
    && |buf| == |line| + 1 && buf[|line|] == NUL
    && (forall i :: 0 <= i < |line| ==> buf[i] == if EndOf(ws, i) then NUL else line[i])
  }

  /** The C string at q is the word: it is there up to a NUL. */
  ghost predicate ReadsBack(line: string, buf: seq<char>, w: Tok) {
    && WordAt(line, w) && |buf| == |line| + 1 && buf[w.eq] == NUL
    && forall i :: w.q <= i < w.eq ==> buf[i] == line[i] && buf[i] != NUL
  }

  /** Ends of words are not inside words. */
  lemma WordReadsBack(line: string, buf: seq<char>, ws: seq<Tok>, w: Tok)
    requires Terminated(line, buf, ws) && (forall i :: 0 <= i < |line| ==> line[i] != NUL)
    requires w in ws && forall v :: v in ws ==> WordAt(line, v)
    ensures ReadsBack(line, buf, w)
  {
    forall i | w.q <= i < w.eq ensures buf[i] == line[i] && buf[i] != NUL {
      assert !EndOf(ws, i);
    }
    if w.eq < |line| {
      assert EndOf(ws, w.eq);
    }
  }

  // ---- Steps of the parsers' loops

  function Prepend(items: seq<Item>, r: Result<seq<Item>>): (r': Result<seq<Item>>) {
    match r
    case Ok(more, rest) => Ok(items + more, rest)
    case Err => Err
  }

  lemma PrependMore(items: seq<Item>, it: Item, r: Result<seq<Item>>)
    ensures Prepend(items, Prepend([it], r)) == Prepend(items + [it], r)
  {
    if r.Ok? {
      assert items + ([it] + r.value) == items + [it] + r.value;
    }
  }

  lemma PrependAll(items: seq<Item>, more: seq<Item>, r: Result<seq<Item>>)
    ensures Prepend(items, Prepend(more, r)) == Prepend(items + more, r)
  {
    if r.Ok? {
      assert items + (more + r.value) == items + more + r.value;
    }
  }

  lemma {:induction false} RedirsThenItems(ts: seq<Tok>, argc: nat)
    ensures var r := ParseRedirs(ts);
      && (r.Ok? ==> ParseItems(ts, argc) == Prepend(r.value, ParseItems(r.rest, argc)) && !StartsOp(r.rest))
      && (r.Err? ==> ParseItems(ts, argc) == Err)
    decreases |ts|
  {
    var r := ParseRedirs(ts);
    if StartsOp(ts) {
      if |ts| >= 2 && ts[1].Word? {
        RedirsThenItems(ts[2..], argc);
        var r2 := ParseRedirs(ts[2..]);
        if r2.Ok? {
          PrependAll([Into(ts[0].c, ts[1])], r2.value, ParseItems(r2.rest, argc));
        }
      }
    } else if ParseItems(ts, argc).Ok? {
      assert [] + ParseItems(ts, argc).value == ParseItems(ts, argc).value;
    }
  }

  datatype Next = End | Tok(t: Tok)

  datatype Turn = More | Stop | Fail

  /** The character a token begins with, for the symbols peek is asked about. */
  predicate Begins(ts: seq<Tok>, toks: string) {
    ts != [] && ts[0].Sym? && (if ts[0].c == '+' then '>' else ts[0].c) in toks
  }

  lemma EndOfMore(ws: seq<Tok>, w: Tok)
    requires w.Word?
    ensures forall i :: EndOf(ws + [w], i) <==> EndOf(ws, i) || i == w.eq
  {
    forall i ensures EndOf(ws + [w], i) <==> EndOf(ws, i) || i == w.eq {
      if EndOf(ws, i) {
        var v :| v in ws && v.Word? && v.eq == i;
        assert v in ws + [w];
      }
      assert w in ws + [w];
    }
  }

  lemma EndOfBoth(us: seq<Tok>, ws: seq<Tok>)
    ensures forall i :: EndOf(us + ws, i) <==> EndOf(us, i) || EndOf(ws, i)
  {
    forall i ensures EndOf(us + ws, i) <==> EndOf(us, i) || EndOf(ws, i) {
      if EndOf(us, i) {
        var v :| v in us && v.Word? && v.eq == i;
        assert v in us + ws;
      }
      if EndOf(ws, i) {
        var v :| v in ws && v.Word? && v.eq == i;
        assert v in us + ws;
      }
    }
  }

  lemma NoDerivation(ts: seq<Tok>)
    requires ParseLine(ts).Err? || ParseLine(ts).rest != []
    ensures !(exists d :: LineOk(d) && LineToks(d, []) == ts)
  {
    forall d | LineOk(d) ensures LineToks(d, []) != ts {
      ParseExactly(ts, d);
    }
  }

  /** A line has one sequence of tokens. */
  lemma OnlyTokens(line: string)
    ensures Spelled(line, 0, Lex(line, 0)) && forall ts :: Spelled(line, 0, ts) ==> ts == Lex(line, 0)
  {
    LexSpells(line, 0);
    forall ts | Spelled(line, 0, ts) ensures ts == Lex(line, 0) {
      OneLexing(line, 0, ts);
    }
  }

  function MapExec(r: Result<ExecD>): (r': Result<Cmd>) {
    match r case Ok(d, rest) => Ok(ExecCmd(d), rest) case Err => Err
  }

  function MapPipe(r: Result<PipeD>): (r': Result<Cmd>) {
    match r case Ok(d, rest) => Ok(PipeCmd(d), rest) case Err => Err
  }

  function MapLine(r: Result<LineD>): (r': Result<Cmd>) {
    match r case Ok(d, rest) => Ok(LineCmd(d), rest) case Err => Err
  }

  /** What a parsing method returned, against the parser on tokens. */
  ghost predicate Parsed(ok: bool, cmd: Cmd, rest: seq<Tok>, r: Result<Cmd>) {
    r == if ok then Ok(cmd, rest) else Err
  }

  class Parser {
    const buf: array<char>      // the line and its terminating NUL
    const es: nat
    var ps: nat

    constructor (line: string)
      requires forall i :: 0 <= i < |line| ==> line[i] != NUL
      ensures Valid() && es == |line| && buf[..es] == line && ps == 0 && fresh(buf)
    {
      buf := new char[|line| + 1](i => if 0 <= i < |line| then line[i] else NUL);
      es, ps := |line|, 0;
    }

    ghost predicate Valid()
      reads this, buf
    {
      && buf.Length == es + 1 && buf[es] == NUL && ps <= es
      && forall i :: 0 <= i < es ==> buf[i] != NUL
    }

    /** The tokens the parser has yet to read. */
    ghost function Rest(): (ts: seq<Tok>)
      requires Valid()
      reads this, buf
    {
      Lex(buf[..es], ps)
    }

    method SkipWhite()
      requires Valid()
      modifies this`ps
      ensures Valid() && ps == Skip(buf[..es], old(ps)) && Rest() == old(Rest())
    {
      ghost var line := buf[..es];
      while ps < es && White(buf[ps])
        invariant Valid() && Skip(line, ps) == Skip(line, old(ps))
        decreases es - ps
      {
        ps := ps + 1;
      }
      LexSkip(line, old(ps));
    }

    /** peek */
    method Peek(toks: string) returns (r: bool)
      requires Valid() && forall i :: 0 <= i < |toks| ==> Symbol(toks[i])
      modifies this`ps
      ensures Valid() && Rest() == old(Rest()) && ps == Skip(buf[..es], old(ps))
      ensures r <==> Begins(Rest(), toks)
    {
      SkipWhite();
      ghost var line := buf[..es];
      assert Skip(line, ps) == ps;
      r := buf[ps] != NUL && buf[ps] in toks;
      if ps < es {
        assert line[ps] == buf[ps];
        assert Lex(line, ps)[0] == First(line, ps).0;
      }
    }

    /** The switch of gettoken. */
    method TakeToken() returns (t: Tok)
      requires Valid() && ps < es && !White(buf[ps])
      modifies this`ps
      ensures Valid() && (t, ps) == First(buf[..es], old(ps)) && TokAt(buf[..es], t, old(ps), ps)
    {
      ghost var line := buf[..es];
      FirstToken(line, ps);
      var q := ps;
      assert line[q] == buf[q];
      match buf[q] {
        case '|' | '(' | ')' | ';' | '&' | '<' =>
          t := Sym(buf[q]);
          ps := ps + 1;
        case '>' =>
          ps := ps + 1;
          t := Sym('>');
          if buf[ps] == '>' {
            t := Sym('+');
            assert ps < es && line[ps] == '>';
            ps := ps + 1;
          }
        case _ =>
          while ps < es && !White(buf[ps]) && !Symbol(buf[ps])
            invariant Valid() && q <= ps && WordEnd(line, ps) == WordEnd(line, q)
            decreases es - ps
          {
            ps := ps + 1;
          }
          t := Word(q, ps);
      }
    }

    /** gettoken */
    method GetToken() returns (tok: Next)
      requires Valid()
      modifies this`ps
      ensures Valid() && (ps == es || !White(buf[ps]))
      ensures old(Rest()) == [] ==> tok == End && Rest() == []
      ensures old(Rest()) != [] ==> tok == Next.Tok(old(Rest())[0]) && Rest() == old(Rest())[1..]
    {
      SkipWhite();
      ghost var line := buf[..es];
      ghost var q := ps;
      assert Skip(line, q) == q;
      if ps == es {
        return End;
      }
      var t := TakeToken();
      assert old(Rest()) == [First(line, q).0] + Lex(line, First(line, q).1);
      SkipWhite();
      tok := Next.Tok(t);
    }

    /** parseredirs */
    method Redirs() returns (ok: bool, items: seq<Item>)
      requires Valid()
      modifies this`ps
      ensures Valid() && |Rest()| <= |old(Rest())|
      ensures ParseRedirs(old(Rest())) == if ok then Ok(items, Rest()) else Err
    {
      items := [];
      ghost var ts := Rest();
      assert [] + (if ParseRedirs(ts).Ok? then ParseRedirs(ts).value
        else []) == (if ParseRedirs(ts).Ok? then ParseRedirs(ts).value else []);
      while true
        invariant Valid() && |Rest()| <= |ts|
        invariant ParseRedirs(ts) == Prepend(items, ParseRedirs(Rest()))
        decreases |Rest()|
      {
        var more := Peek("<>");
        if !more {
          assert items + [] == items;
          return true, items;
        }
        ghost var now := Rest();
        var op := GetToken();
        var file := GetToken();
        if file == End || !file.t.Word? {
          return false, [];
        }
        assert now[1..][1..] == now[2..];
        PrependMore(items, Into(op.t.c, file.t), ParseRedirs(Rest()));
        items := items + [Into(op.t.c, file.t)];
      }
    }

    /** One turn of parseexec's loop: a word and the redirections after it. */
    method WordAndRedirs(argc: nat) returns (turn: Turn, items: seq<Item>)
      requires Valid() && !StartsOp(Rest())
      modifies this`ps
      ensures Valid() && |Rest()| <= |old(Rest())|
      ensures turn == Fail ==> ParseItems(old(Rest()), argc) == Err
      ensures turn == Stop ==> ParseItems(old(Rest()), argc) == Ok([], Rest())
      ensures turn == More ==> |Rest()| < |old(Rest())| && !StartsOp(Rest())
      ensures turn == More ==> ParseItems(old(Rest()), argc) == Prepend(items, ParseItems(Rest(), argc + 1))
    {
      items := [];
      var stop := Peek("|)&;");
      if stop {
        return Stop, [];
      }
      var tok := GetToken();
      if tok == End {
        return Stop, [];
      }
      if !tok.t.Word? || argc + 1 >= MAXARGS {
        return Fail, [];
      }
      RedirsThenItems(Rest(), argc + 1);
      var ok, more := Redirs();
      if !ok {
        return Fail, [];
      }
      PrependAll([Arg(tok.t)], more, ParseItems(Rest(), argc + 1));
      return More, [Arg(tok.t)] + more;
    }

    /** The words and redirections of parseexec. */
    method SimpleItems() returns (ok: bool, items: seq<Item>)
      requires Valid()
      modifies this`ps
      ensures Valid() && |Rest()| <= |old(Rest())|
      ensures ParseItems(old(Rest()), 0) == if ok then Ok(items, Rest()) else Err
    {
      ghost var ts := Rest();
      RedirsThenItems(ts, 0);
      ok, items := Redirs();
      if !ok {
        return;
      }
      var argc := 0;
      while true
        invariant Valid() && |Rest()| <= |ts| && !StartsOp(Rest())
        invariant ParseItems(ts, 0) == Prepend(items, ParseItems(Rest(), argc))
        decreases |Rest()|
      {
        var turn, more := WordAndRedirs(argc);
        if turn == Fail {
          return false, [];
        }
        if turn == Stop {
          assert items + [] == items;
          return true, items;
        }
        argc := argc + 1;
        PrependAll(items, more, ParseItems(Rest(), argc));
        items := items + more;
      }
    }

    /** parseblock */
    method BlockCommand() returns (ok: bool, cmd: Cmd)
      requires Valid() && Starts(Rest(), '(')
      modifies this`ps
      ensures Valid() && |Rest()| <= |old(Rest())|
      ensures Parsed(ok, cmd, Rest(), MapExec(ParseExec(old(Rest()))))
      decreases |Rest()|, 0
    {
      var open := GetToken();
      ok, cmd := LineCommand();
      if !ok {
        return;
      }
      var close := Peek(")");
      if !close {
        return false, cmd;
      }
      var paren := GetToken();
      var items;
      ok, items := Redirs();
      cmd := Wrap(cmd, items);
    }

    /** parseexec */
    method ExecCommand() returns (ok: bool, cmd: Cmd)
      requires Valid()
      modifies this`ps
      ensures Valid() && |Rest()| <= |old(Rest())|
      ensures Parsed(ok, cmd, Rest(), MapExec(ParseExec(old(Rest()))))
      ensures ok ==> cmd in Readings(old(Rest()), Rest())
      decreases |Rest()|, 1
    {
      ParseReads(Rest());
      var block := Peek("(");
      if block {
        ok, cmd := BlockCommand();
        return;
      }
      var items;
      ok, items := SimpleItems();
      cmd := Wrap(Exec(Words(items)), items);
    }

    /** parsepipe */
    method PipeCommand() returns (ok: bool, cmd: Cmd)
      requires Valid()
      modifies this`ps
      ensures Valid() && |Rest()| <= |old(Rest())|
      ensures Parsed(ok, cmd, Rest(), MapPipe(ParsePipe(old(Rest()))))
      ensures ok ==> cmd in Readings(old(Rest()), Rest())
      decreases |Rest()|, 2
    {
      ParseReads(Rest());
      ok, cmd := ExecCommand();
      if !ok {
        return;
      }
      var more := Peek("|");
      if more {
        var bar := GetToken();
        var right;
        ok, right := PipeCommand();
        cmd := Pipe(cmd, right);
      }
    }

    /** The loop of parseline over '&'. */
    method Background(first: Cmd) returns (cmd: Cmd)
      requires Valid()
      modifies this`ps
      ensures Valid() && |Rest()| <= |old(Rest())|
      ensures cmd == Backs(first, ParseAmps(old(Rest())).0) && Rest() == ParseAmps(old(Rest())).1
    {
      cmd := first;
      ghost var after := Rest();
      var more := Peek("&");
      while more
        invariant Valid() && |Rest()| <= |after| && (more <==> Starts(Rest(), '&'))
        invariant ParseAmps(after).1 == ParseAmps(Rest()).1
        invariant Backs(first, ParseAmps(after).0) == Backs(cmd, ParseAmps(Rest()).0)
        decreases |Rest()|
      {
        var amp := GetToken();
        cmd := Back(cmd);
        more := Peek("&");
      }
    }

    /** parseline */
    method LineCommand() returns (ok: bool, cmd: Cmd)
      requires Valid()
      modifies this`ps
      ensures Valid() && |Rest()| <= |old(Rest())|
      ensures Parsed(ok, cmd, Rest(), MapLine(ParseLine(old(Rest()))))
      ensures ok ==> cmd in Readings(old(Rest()), Rest())
      decreases |Rest()|, 3
    {
      ParseReads(Rest());
      ok, cmd := PipeCommand();
      if !ok {
        return;
      }
      cmd := Background(cmd);
      var semi := Peek(";");
      if semi {
        var tok := GetToken();
        var right;
        ok, right := LineCommand();
        cmd := List(cmd, right);
      }
    }

    /** nulterminate: a NUL goes to the end of every word of the command, and nowhere else. */
    method NulTerminate(cmd: Cmd)
      requires buf.Length == es + 1 && forall w :: w in CmdWords(cmd) ==> w.Word? && w.eq <= es
      modifies buf
      ensures forall i :: 0 <= i < buf.Length ==> buf[i] == if EndOf(CmdWords(cmd), i) then NUL else old(buf[i])
    {
      match cmd
      case Exec(argv) =>
        var i := 0;
        while i < |argv|
          invariant 0 <= i <= |argv|
          invariant forall k :: 0 <= k < buf.Length ==> buf[k] == if EndOf(argv[..i], k) then NUL else old(buf[k])
        {
          assert argv[i] in argv;
          EndOfMore(argv[..i], argv[i]);
          assert argv[..i + 1] == argv[..i] + [argv[i]];
          buf[argv[i].eq] := NUL;
          i := i + 1;
        }
        assert argv[..i] == argv;
      case Redir(c, _, file) =>
        NulTerminate(c);
        EndOfMore(CmdWords(c), file);
        buf[file.eq] := NUL;
      case Pipe(l, r) =>
        NulTerminate(l);
        NulTerminate(r);
        EndOfBoth(CmdWords(l), CmdWords(r));
      case List(l, r) =>
        NulTerminate(l);
        NulTerminate(r);
        EndOfBoth(CmdWords(l), CmdWords(r));
      case Back(c) =>
        NulTerminate(c);
    }

    /** parsecmd: accepts the line exactly when its tokens have a derivation, and returns the command of
        that derivation.  From left to right the command has the arguments, operators and redirections of
        the line, it is printed as tokens that parse to it, and every word and file name is left readable in
        the buffer. */
    method ParseCmd(ghost line: string) returns (ok: bool, cmd: Cmd)
      requires Valid() && ps == 0 && buf[..es] == line
      modifies this`ps, buf
      ensures forall ts :: Spelled(line, 0, ts) ==> (ok <==> exists d :: LineOk(d) && LineToks(d, []) == ts)
      ensures ok ==> exists d :: LineOk(d) && Spelled(line, 0, LineToks(d, [])) && cmd == LineCmd(d)
      ensures ok ==> forall ts :: Spelled(line, 0, ts) ==> Strip(ts) == Flat(cmd) && RedirsIn(ts) == RedirsOf(cmd)
      ensures ok ==> ParsesTo(Print(cmd, 0, []), cmd)
      ensures ok ==> forall w :: w in CmdWords(cmd) ==> ReadsBack(line, buf[..], w)
    {
      ok, cmd := LineCommand();
      ghost var ts := Lex(line, 0);
      ghost var r := ParseLine(ts);
      OnlyTokens(line);
      if !ok {
        NoDerivation(ts);
        return;
      }
      var more := Peek("");
      if ps != es {
        assert Rest() != [];
        NoDerivation(ts);
        return false, cmd;
      }
      ParseExactly(ts, r.value);
      ParsePrints(ts, r.value);
      SaidIn(ts);
      WordsAmong(cmd, ts);
      LexWords(line, 0);
      NulTerminate(cmd);
      forall w | w in CmdWords(cmd) ensures ReadsBack(line, buf[..], w) {
        WordReadsBack(line, buf[..], CmdWords(cmd), w);
      }
    }
  }
}
