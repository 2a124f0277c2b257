/**
 The grammar of user/sh.c as functions on the text still to be read, and the printer that
 they undo.
 */
module ShellGrammar {

  const MAXARGS: nat := 10

  // fcntl.h
  const O_RDONLY := 0
  const O_WRONLY := 1
  const O_CREATE := 0x200
  const O_TRUNC := 0x400

  datatype Tree =
    | Exec(args: seq<string>)
    | Redir(cmd: Tree, to: Target)
    | Pipe(left: Tree, right: Tree)
    | List(left: Tree, right: Tree)
    | Back(cmd: Tree)

  datatype Target = Target(file: string, mode: int, fd: int)

  // ---------------------------------------------------------------- tokens

  predicate White(c: char) {
    c == ' ' || c == '\t' || c == '\r' || c == '\n' || c == '\U{0B}'
  }

  /** The symbols other than < and >. */
  predicate Single(c: char) {
    c == '|' || c == '&' || c == ';' || c == '(' || c == ')'
  }

  predicate Symbol(c: char) {
    c == '<' || c == '>' || Single(c)
  }

  predicate WordChar(c: char) {
    !White(c) && !Symbol(c)
  }

  function Skip(u: string): (v: string)
    ensures |v| <= |u| && (v == [] || !White(v[0])) && (u == [] || !White(u[0]) ==> v == u)
  {
    if u != [] && White(u[0]) then Skip(u[1..]) else u
  }

  function WordLen(u: string): (n: nat)
    ensures n <= |u| && (forall i :: 0 <= i < n ==> WordChar(u[i])) && (n == |u| || !WordChar(u[n]))
  {
    if u != [] && WordChar(u[0]) then 1 + WordLen(u[1..]) else 0
  }

  const END: char := '\0'

  /** The first character that is not white space. */
  function Head(u: string): char {
    if Skip(u) == [] then END else Skip(u)[0]
  }

  /** How much of v is its first token, v starting with no white space. */
  function Length(v: string): (n: nat)
    requires v != [] && !White(v[0])
    ensures 0 < n <= |v|
  {
    if Single(v[0]) || v[0] == '<' then 1
    else if v[0] == '>' then if |v| > 1 && v[1] == '>' then 2 else 1
    else
      var n := WordLen(v);
      assert n > 0;
      n
  }

  /** A token: its kind ('a' for a word, '+' for >>, 0 at the end), its text, and what follows. */
  datatype Token = Token(kind: char, word: string, rest: string)

  /** gettoken */
  function Next(u: string): (t: Token)
    ensures |t.rest| <= |u| && (Skip(u) != [] ==> |t.rest| < |u|) && Skip(t.rest) == t.rest
  {
    var v := Skip(u);
    if v == [] then Token(END, [], [])
    else
      var n := Length(v);
      var kind := if Single(v[0]) || v[0] == '<' then v[0] else if v[0] == '>' then (if n == 2 then '+' else '>')
        else 'a';
      Token(kind, v[..n], Skip(v[n..]))
  }

  /** peek */
  predicate Peek(u: string, toks: set<char>) {
    Skip(u) != [] && Head(u) in toks
  }

  // ---------------------------------------------------------------- the parser

  datatype Parsed = Fail | Ok(cmd: Tree, rest: string)
  datatype Redirects = BadRedirects | Redirects(list: seq<Target>, rest: string)
  datatype Arguments = BadArguments | Arguments(args: seq<string>, list: seq<Target>, rest: string)

  function TargetOf(kind: char, file: string): Target {
    if kind == '<' then Target(file, O_RDONLY, 0)
    else if kind == '>' then Target(file, O_WRONLY + O_CREATE + O_TRUNC, 1)
    else Target(file, O_WRONLY + O_CREATE, 1)
  }

  /** parseredirs: the redirections, in the order read. */
  function Redirs(u: string): (r: Redirects)
    ensures r.Redirects? ==> |r.rest| <= |u| && Skip(r.rest) == r.rest
    decreases |u|
  {
    if Peek(u, {'<', '>'}) then
      var t := Next(u);
      var f := Next(t.rest);
      if f.kind != 'a' then BadRedirects
      else
        var r := Redirs(f.rest);
        if r.BadRedirects? then r else Redirects([TargetOf(t.kind, f.word)] + r.list, r.rest)
    else Redirects([], Skip(u))
  }

  /** The command with its redirections around it, the last one outermost. */
  function Wrap(c: Tree, list: seq<Target>): Tree
    decreases |list|
  {
    if list == [] then c else Wrap(Redir(c, list[0]), list[1..])
  }

  lemma {:induction false} WrapSnoc(c: Tree, list: seq<Target>, x: Target)
    ensures Wrap(c, list + [x]) == Redir(Wrap(c, list), x)
    decreases |list|
  {
    if list == [] {
      assert Wrap(Redir(c, x), []) == Redir(c, x);
      assert list + [x] == [x];
    } else {
      assert (list + [x])[1..] == list[1..] + [x];
      WrapSnoc(Redir(c, list[0]), list[1..], x);
    }
  }

  /** parseexec's loop, with argc arguments read. */
  function Args(u: string, argc: nat): (r: Arguments)
    ensures r.Arguments? ==> |r.rest| <= |u| && Skip(r.rest) == r.rest
    decreases |u|
  {
    if Peek(u, {'|', ')', '&', ';'}) then Arguments([], [], Skip(u))
    else
      var t := Next(u);
      if Skip(u) == [] then Arguments([], [], Skip(u))
      else if t.kind != 'a' || argc + 1 >= MAXARGS then BadArguments
      else
        var l := Redirs(t.rest);
        if l.BadRedirects? then BadArguments
        else
          var r := Args(l.rest, argc + 1);
          if r.BadArguments? then r else Arguments([t.word] + r.args, l.list + r.list, r.rest)
  }

  function ExecCmd(u: string): (r: Parsed)
    ensures r.Ok? ==> |r.rest| <= |u| && Skip(r.rest) == r.rest
    decreases |u|, 1
  {
    if Peek(u, {'('}) then Block(u)
    else
      var l := Redirs(u);
      if l.BadRedirects? then Fail
      else
        var r := Args(l.rest, 0);
        if r.BadArguments? then Fail else Ok(Wrap(Exec(r.args), l.list + r.list), r.rest)
  }

  function Block(u: string): (r: Parsed)
    requires Peek(u, {'('})
    ensures r.Ok? ==> |r.rest| <= |u| && Skip(r.rest) == r.rest
    decreases |u|, 0
  {
    var c := Line(Next(u).rest);
    if c.Fail? || !Peek(c.rest, {')'}) then Fail
    else
      var l := Redirs(Next(c.rest).rest);
      if l.BadRedirects? then Fail else Ok(Wrap(c.cmd, l.list), l.rest)
  }

  function PipeCmd(u: string): (r: Parsed)
    ensures r.Ok? ==> |r.rest| <= |u| && Skip(r.rest) == r.rest
    decreases |u|, 2
  {
    var c := ExecCmd(u);
    if c.Fail? || !Peek(c.rest, {'|'}) then c
    else
      var d := PipeCmd(Next(c.rest).rest);
      if d.Fail? then Fail else Ok(Pipe(c.cmd, d.cmd), d.rest)
  }

  /** parseline's loop over & */
  function Backs(c: Tree, u: string): (r: Parsed)
    ensures r.Ok? && |r.rest| <= |u| && Skip(r.rest) == r.rest
    decreases |u|
  {
    if Peek(u, {'&'}) then Backs(Back(c), Next(u).rest) else Ok(c, Skip(u))
  }

  function Line(u: string): (r: Parsed)
    ensures r.Ok? ==> |r.rest| <= |u| && Skip(r.rest) == r.rest
    decreases |u|, 3
  {
    var c := PipeCmd(u);
    if c.Fail? then Fail
    else
      var b := Backs(c.cmd, c.rest);
      if !Peek(b.rest, {';'}) then b
      else
        var d := Line(Next(b.rest).rest);
        if d.Fail? then Fail else Ok(List(b.cmd, d.cmd), d.rest)
  }

  /** parsecmd, without nulterminate: nothing may be left over. */
  function Command(s: string): Parsed {
    var r := Line(s);
    if r.Ok? && Skip(r.rest) != [] then Fail else r
  }

  // ---------------------------------------------------------------- the printer

  predicate LegalWord(w: string) {
    w != [] && forall i :: 0 <= i < |w| ==> WordChar(w[i])
  }

  predicate LegalTarget(to: Target) {
    && LegalWord(to.file)
    && (to == TargetOf('<', to.file) || to == TargetOf('>', to.file) || to == TargetOf('+', to.file))
  }

  predicate Legal(t: Tree) {
    match t
    case Exec(args) => |args| < MAXARGS && forall i :: 0 <= i < |args| ==> LegalWord(args[i])
    case Redir(c, to) => Legal(c) && LegalTarget(to)
    case Pipe(l, r) => Legal(l) && Legal(r)
    case List(l, r) => Legal(l) && Legal(r)
    case Back(c) => Legal(c)
  }

  function Words(args: seq<string>): string {
    if args == [] then [] else args[0] + (" " + Words(args[1..]))
  }

  function Operator(to: Target): string {
    if to.fd == 0 then "<" else if to.mode == O_WRONLY + O_CREATE then ">>" else ">"
  }

  /** A command with everything below it in parentheses. */
  function Print(t: Tree): string {
    match t
    case Exec(args) => Words(args)
    case Redir(c, to) => "(" + Print(c) + ")" + Operator(to) + to.file + " "
    case Pipe(l, r) => "(" + Print(l) + ")|(" + Print(r) + ")"
    case List(l, r) => "(" + Print(l) + ");(" + Print(r) + ")"
    case Back(c) => "(" + Print(c) + ")&"
  }

  // ---------------------------------------------------------------- reading what was printed

  /** What may follow a printed command: the end, or the parenthesis around it. */
  predicate Stop(post: string) {
    Skip(post) == [] || Skip(post)[0] == ')'
  }

  lemma NextSymbol(c: char, v: string)
    requires Single(c) || c == '<'
    ensures Next([c] + v) == Token(c, [c], Skip(v)) && Skip([c] + v) == [c] + v
  {
    assert ([c] + v)[1..] == v && ([c] + v)[..1] == [c];
  }

  lemma {:induction false} WordLenOf(w: string, v: string)
    requires (forall i :: 0 <= i < |w| ==> WordChar(w[i])) && (v == [] || !WordChar(v[0]))
    ensures WordLen(w + v) == |w|
  {
    if w == [] {
      assert w + v == v;
    } else {
      assert (w + v)[1..] == w[1..] + v;
      WordLenOf(w[1..], v);
    }
  }

  lemma NextWord(w: string, v: string)
    requires LegalWord(w) && (v == [] || !WordChar(v[0]))
    ensures Skip(w + v) == w + v && Next(w + v) == Token('a', w, Skip(v))
  {
    WordLenOf(w, v);
    assert (w + v)[0] == w[0];
    assert (w + v)[..|w|] == w && (w + v)[|w|..] == v;
  }

  lemma SkipSpace(v: string)
    ensures Skip(" " + v) == Skip(v)
  {
    assert (" " + v)[1..] == v;
  }

  /** Skipping white space twice is skipping it once. */
  lemma SkipTwice(u: string)
    ensures Skip(Skip(u)) == Skip(u) && Next(Skip(u)) == Next(u)
    ensures forall toks :: Peek(Skip(u), toks) <==> Peek(u, toks)
  {
    hide Length;
  }

  lemma SkipRedirs(u: string)
    ensures Redirs(Skip(u)) == Redirs(u)
  {
    hide Skip, Next, Peek;
    SkipTwice(u);
  }

  lemma SkipArgs(u: string, argc: nat)
    ensures Args(Skip(u), argc) == Args(u, argc)
  {
    hide Skip, Next, Peek, Redirs;
    SkipTwice(u);
  }

  lemma SkipExec(u: string)
    ensures ExecCmd(Skip(u)) == ExecCmd(u)
  {
    hide Skip, Next, Peek, Redirs, Args, Wrap;
    SkipTwice(u);
    SkipRedirs(u);
  }

  /** Leading white space makes no difference. */
  lemma SkipParse(u: string)
    ensures Redirs(Skip(u)) == Redirs(u) && ExecCmd(Skip(u)) == ExecCmd(u)
    ensures PipeCmd(Skip(u)) == PipeCmd(u) && Line(Skip(u)) == Line(u)
    ensures forall argc: nat :: Args(Skip(u), argc) == Args(u, argc)
  {
    hide Skip, Next, Peek, Redirs, Args, ExecCmd, Backs;
    SkipRedirs(u);
    SkipExec(u);
    forall argc: nat ensures Args(Skip(u), argc) == Args(u, argc) {
      SkipArgs(u, argc);
    }
  }

  /** One more argument in front. */
  lemma ArgsStep(w: string, v: string, argc: nat)
    requires LegalWord(w) && argc + 1 < MAXARGS && !Peek(v, {'<', '>'})
    ensures !Peek(w + (" " + v), {'<', '>', '('})
    ensures var r := Args(v, argc + 1);
      Args(w + (" " + v), argc) == if r.BadArguments? then r else Arguments([w] + r.args, r.list, r.rest)
  {
    hide Next, WordLen;
    NextWord(w, " " + v);
    SkipSpace(v);
    SkipParse(v);
    assert Redirs(Skip(v)) == Redirects([], Skip(v)) by {
      NoRedirects(v);
    }
    assert (w + (" " + v))[0] == w[0];
    assert !Symbol(w[0]);
  }

  lemma NoWords(post: string)
    ensures Words([]) + post == post
  {
  }

  lemma WordsStep(args: seq<string>, post: string)
    requires args != []
    ensures Words(args) + post == args[0] + (" " + (Words(args[1..]) + post))
  {
    var w, rest := args[0], Words(args[1..]);
    assert (w + (" " + rest)) + post == w + (" " + (rest + post));
  }

  lemma {:induction false} ArgsPrinted(args: seq<string>, argc: nat, post: string)
    requires argc + |args| < MAXARGS && (forall i :: 0 <= i < |args| ==> LegalWord(args[i])) && Stop(post)
    ensures Args(Words(args) + post, argc) == Arguments(args, [], Skip(post))
    ensures !Peek(Words(args) + post, {'<', '>', '('})
  {
    hide *;
    if args == [] {
      NoWords(post);
      NoArgs(post, argc);
    } else {
      WordsStep(args, post);
      var w, v := args[0], Words(args[1..]) + post;
      ArgsPrinted(args[1..], argc + 1, post);
      FewerPeeks(v);
      ArgsStep(w, v, argc);
      assert [w] + args[1..] == args;
    }
  }

  lemma FewerPeeks(v: string)
    requires !Peek(v, {'<', '>', '('})
    ensures !Peek(v, {'<', '>'}) && !Peek(v, {'('})
  {
  }

  lemma NoArgs(post: string, argc: nat)
    requires Stop(post)
    ensures Args(post, argc) == Arguments([], [], Skip(post)) && !Peek(post, {'<', '>', '('})
  {
  }

  /** A line that is one command, with nothing after it that could join it. */
  lemma Alone(u: string, c: Tree, post: string)
    requires ExecCmd(u) == Ok(c, Skip(post)) && Stop(post)
    ensures PipeCmd(u) == Ok(c, Skip(post)) && Line(u) == Ok(c, Skip(post))
  {
    assert Skip(Skip(post)) == Skip(post);
  }

  /** A parenthesised command followed by tail. */
  function Paren(t: Tree, tail: string): string {
    "(" + (Print(t) + (")" + tail))
  }

  lemma BlockPrinted(t: Tree, tail: string)
    requires Line(Print(t) + (")" + tail)) == Ok(t, ")" + tail)
    ensures var l := Redirs(tail);
      ExecCmd(Paren(t, tail)) == if l.BadRedirects? then Fail else Ok(Wrap(t, l.list), l.rest)
  {
    var inner := Print(t) + (")" + tail);
    NextSymbol('(', inner);
    NextSymbol(')', tail);
    SkipParse(inner);
    SkipParse(tail);
    assert Paren(t, tail) == ['('] + inner;
    assert ")" + tail == [')'] + tail;
    assert Peek(Paren(t, tail), {'('});
  }

  lemma NoRedirects(u: string)
    requires !Peek(u, {'<', '>'})
    ensures Redirs(u) == Redirects([], Skip(u))
  {
  }

  lemma OneRedirect(to: Target, post: string)
    requires LegalTarget(to) && Stop(post)
    ensures Redirs(Operator(to) + (to.file + (" " + post))) == Redirects([to], Skip(post))
  {
    hide Next, Args, ExecCmd, PipeCmd, Line;
    var v := to.file + (" " + post);
    NextWord(to.file, " " + post);
    SkipSpace(post);
    SkipParse(v);
    NoRedirects(Skip(post));
    assert Skip(Skip(post)) == Skip(post);
    OperatorRead(to, v);
  }

  lemma OperatorRead(to: Target, v: string)
    requires LegalTarget(to) && v != [] && WordChar(v[0])
    ensures var u := Operator(to) + v; Peek(u, {'<', '>'}) && Next(u).rest == v && TargetOf(Next(u).kind, to.file) == to
  {
    var u := Operator(to) + v;
    if Operator(to) == "<" {
      NextSymbol('<', v);
      assert u == ['<'] + v;
    } else if Operator(to) == ">" {
      assert u[1..] == v;
    } else {
      assert u[2..] == v;
    }
  }

  lemma PrintedExec(args: seq<string>)
    ensures Print(Exec(args)) == Words(args)
  {
  }

  lemma PrintedRedir(c: Tree, to: Target, post: string)
    ensures Print(Redir(c, to)) + post == Paren(c, Operator(to) + (to.file + (" " + post)))
  {
  }

  lemma PrintedPipe(l: Tree, r: Tree, post: string)
    ensures Print(Pipe(l, r)) + post == Paren(l, "|" + Paren(r, post))
  {
  }

  lemma PrintedList(l: Tree, r: Tree, post: string)
    ensures Print(List(l, r)) + post == Paren(l, ";" + Paren(r, post))
  {
  }

  lemma PrintedBack(c: Tree, post: string)
    ensures Print(Back(c)) + post == Paren(c, "&" + post)
  {
  }

  /** The parser undoes the printer, wherever the printed text ends. */
  lemma {:induction false} Parses(t: Tree, post: string)
    requires Legal(t) && Stop(post)
    ensures Line(Print(t) + post) == Ok(t, Skip(post))
    decreases t
  {
    hide Line, ExecCmd, PipeCmd, Skip, Redirs, Stop, Print, Paren, Wrap;
    match t
    case Exec(args) =>
      PrintedExec(args);
      ParsesExec(args, post);
    case Redir(c, to) =>
      var tail := Operator(to) + (to.file + (" " + post));
      Closing(tail);
      Parses(c, ")" + tail);
      BlockPrinted(c, tail);
      OneRedirect(to, post);
      PrintedRedir(c, to, post);
      WrapOne(c, to);
      Alone(Paren(c, tail), t, post);
    case Pipe(l, r) =>
      var tail := "|" + Paren(r, post);
      Closing(tail);
      Closing(post);
      Parses(l, ")" + tail);
      Parses(r, ")" + post);
      PrintedPipe(l, r, post);
      ParsesPipe(l, r, post);
    case List(l, r) =>
      var tail := ";" + Paren(r, post);
      Closing(tail);
      Closing(post);
      Parses(l, ")" + tail);
      Parses(r, ")" + post);
      PrintedList(l, r, post);
      ParsesList(l, r, post);
    case Back(c) =>
      var tail := "&" + post;
      Closing(tail);
      Parses(c, ")" + tail);
      PrintedBack(c, post);
      ParsesBack(c, post);
  }

  lemma WrapOne(c: Tree, to: Target)
    ensures Wrap(c, [to]) == Redir(c, to)
  {
    assert Wrap(Redir(c, to), []) == Redir(c, to);
  }

  lemma Closing(tail: string)
    ensures Stop(")" + tail) && Skip(")" + tail) == ")" + tail
  {
  }

  lemma ParsesExec(args: seq<string>, post: string)
    requires Legal(Exec(args)) && Stop(post)
    ensures Line(Words(args) + post) == Ok(Exec(args), Skip(post))
  {
    var u := Words(args) + post;
    ArgsPrinted(args, 0, post);
    NoRedirects(u);
    SkipParse(u);
    Alone(u, Exec(args), post);
  }

  lemma ParsesPipe(l: Tree, r: Tree, post: string)
    requires Stop(post) && Line(Print(r) + (")" + post)) == Ok(r, ")" + post)
    requires var tail := "|" + Paren(r, post); Line(Print(l) + (")" + tail)) == Ok(l, ")" + tail)
    ensures Line(Paren(l, "|" + Paren(r, post))) == Ok(Pipe(l, r), Skip(post))
  {
    hide Next, Args, Redirs, ExecCmd, Print;
    var tail := "|" + Paren(r, post);
    BlockPrinted(r, post);
    BlockPrinted(l, tail);
    NoRedirects(post);
    NextSymbol('|', Paren(r, post));
    assert tail == ['|'] + Paren(r, post);
    NoRedirects(tail);
    Alone(Paren(r, post), r, post);
    NextSymbol('(', Print(r) + (")" + post));
    assert Skip(Paren(r, post)) == Paren(r, post);
    assert PipeCmd(Paren(l, tail)) == Ok(Pipe(l, r), Skip(post));
    assert Skip(Skip(post)) == Skip(post);
  }

  lemma ParsesList(l: Tree, r: Tree, post: string)
    requires Stop(post) && Line(Print(r) + (")" + post)) == Ok(r, ")" + post)
    requires var tail := ";" + Paren(r, post); Line(Print(l) + (")" + tail)) == Ok(l, ")" + tail)
    ensures Line(Paren(l, ";" + Paren(r, post))) == Ok(List(l, r), Skip(post))
  {
    hide Next, Args, Redirs, ExecCmd, Print;
    var tail := ";" + Paren(r, post);
    BlockPrinted(r, post);
    BlockPrinted(l, tail);
    NoRedirects(post);
    NextSymbol(';', Paren(r, post));
    assert tail == [';'] + Paren(r, post);
    NoRedirects(tail);
    Alone(Paren(r, post), r, post);
    NextSymbol('(', Print(r) + (")" + post));
    assert PipeCmd(Paren(l, tail)) == Ok(l, tail);
    assert Backs(l, tail) == Ok(l, tail);
  }

  lemma ParsesBack(c: Tree, post: string)
    requires Stop(post)
    requires var tail := "&" + post; Line(Print(c) + (")" + tail)) == Ok(c, ")" + tail)
    ensures Line(Paren(c, "&" + post)) == Ok(Back(c), Skip(post))
  {
    hide Next, Args, Redirs, ExecCmd, Print;
    var tail := "&" + post;
    BlockPrinted(c, tail);
    NextSymbol('&', post);
    assert tail == ['&'] + post;
    NoRedirects(tail);
    assert PipeCmd(Paren(c, tail)) == Ok(c, tail);
    assert Skip(Skip(post)) == Skip(post);
    assert Backs(Back(c), Skip(post)) == Ok(Back(c), Skip(post));
    assert Backs(c, tail) == Ok(Back(c), Skip(post));
  }

  /** parsecmd inverts the printer. */
  lemma RoundTrip(t: Tree)
    requires Legal(t)
    ensures Command(Print(t)) == Ok(t, [])
  {
    Parses(t, []);
    assert Print(t) + [] == Print(t);
  }
}
