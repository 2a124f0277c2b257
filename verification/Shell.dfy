/**
 The parser of user/sh.c: recursive methods that move a cursor through the text, nodes that
 point into it, and nulterminate, which writes into it. A panic is the result ok == false.
 */
module Shell {
  import opened Common
  import opened ShellGrammar
  import ShellScript

  /** A token in the text: q and eq. */
  datatype Span = Span(q: nat, eq: nat)

  datatype Node =
    | ExecNode(argv: seq<Span>)
    | RedirNode(cmd: Node, file: Span, mode: int, fd: int)
    | PipeNode(left: Node, right: Node)
    | ListNode(left: Node, right: Node)
    | BackNode(cmd: Node)

  /** A whole word of s. */
  predicate Proper(s: string, w: Span) {
    && w.q < w.eq <= |s| && (forall i :: w.q <= i < w.eq ==> WordChar(s[i]))
    && (w.eq == |s| || !WordChar(s[w.eq]))
  }

  predicate ProperNode(s: string, c: Node) {
    match c
    case ExecNode(argv) => forall i :: 0 <= i < |argv| ==> Proper(s, argv[i])
    case RedirNode(d, file, _, _) => ProperNode(s, d) && Proper(s, file)
    case PipeNode(l, r) => ProperNode(s, l) && ProperNode(s, r)
    case ListNode(l, r) => ProperNode(s, l) && ProperNode(s, r)
    case BackNode(d) => ProperNode(s, d)
  }

  function Word(s: string, w: Span): string {
    if w.q <= w.eq <= |s| then s[w.q..w.eq] else []
  }

  function TextOf(s: string, argv: seq<Span>): (args: seq<string>)
    ensures |args| == |argv| && forall i :: 0 <= i < |argv| ==> args[i] == Word(s, argv[i])
  {
    seq(|argv|, i requires 0 <= i < |argv| => Word(s, argv[i]))
  }

  /** The command a node stands for, its words read between their pointers. */
  function Resolve(s: string, c: Node): Tree {
    match c
    case ExecNode(argv) => Exec(TextOf(s, argv))
    case RedirNode(d, file, mode, fd) => Redir(Resolve(s, d), Target(Word(s, file), mode, fd))
    case PipeNode(l, r) => Pipe(Resolve(s, l), Resolve(s, r))
    case ListNode(l, r) => List(Resolve(s, l), Resolve(s, r))
    case BackNode(d) => Back(Resolve(s, d))
  }

  // ---------------------------------------------------------------- tokens

  method SkipWhite(s: string, p: nat) returns (r: nat)
    requires p <= |s|
    ensures p <= r <= |s| && s[r..] == Skip(s[p..]) && (r < |s| ==> !White(s[r]))
  {
    r := p;
    while r < |s| && White(s[r])
      invariant p <= r <= |s| && Skip(s[r..]) == Skip(s[p..])
    {
      r := r + 1;
    }
  }

  /** The end of the word that starts at q. */
  method ScanWord(s: string, q: nat) returns (e: nat)
    requires q < |s| && WordChar(s[q])
    ensures q < e <= |s| && e - q == WordLen(s[q..]) && Proper(s, Span(q, e))
  {
    e := q;
    while e < |s| && !White(s[e]) && !Symbol(s[e])
      invariant q <= e <= |s| && WordLen(s[q..]) == e - q + WordLen(s[e..])
      invariant forall i :: q <= i < e ==> WordChar(s[i])
    {
      e := e + 1;
    }
  }

  /** What Next says of the token between q and eq. */
  lemma TokenAt(s: string, ps: nat, q: nat, eq: nat)
    requires ps <= q < |s| && s[q..] == Skip(s[ps..]) && q <= eq <= |s| && !White(s[q]) && eq - q == Length(s[q..])
    ensures var t := Next(s[ps..]);
      && t.word == s[q..eq] && t.rest == Skip(s[eq..])
      && t.kind == if Single(s[q]) || s[q] == '<' then s[q] else if s[q] == '>' then (if eq - q == 2 then '+' else '>')
        else 'a'
  {
    hide Skip, Length;
    var v := s[q..];
    assert v[0] == s[q] && v[..eq - q] == s[q..eq] && v[eq - q..] == s[eq..];
  }

  /** gettoken */
  method GetToken(s: string, ps: nat) returns (kind: char, q: nat, eq: nat, next: nat)
    requires ps <= |s|
    ensures q <= eq <= next <= |s| && ps <= q && s[next..] == Next(s[ps..]).rest && kind == Next(s[ps..]).kind
    ensures kind == 'a' ==> Proper(s, Span(q, eq)) && s[q..eq] == Next(s[ps..]).word
    ensures Skip(s[ps..]) != [] ==> next > ps
  {
    hide Skip, Next, WordLen, Proper;
    q := SkipWhite(s, ps);
    eq := q;
    if q == |s| {
      kind := END;
      AtEnd(s, ps);
    } else {
      if Single(s[q]) || s[q] == '<' {
        kind, eq := s[q], q + 1;
      } else if s[q] == '>' {
        kind, eq := '>', q + 1;
        if eq < |s| && s[eq] == '>' {
          kind, eq := '+', eq + 1;
        }
      } else {
        kind := 'a';
        eq := ScanWord(s, q);
      }
      TokenAt(s, ps, q, eq);
    }
    next := SkipWhite(s, eq);
  }

  lemma AtEnd(s: string, ps: nat)
    requires ps <= |s| && s[|s|..] == Skip(s[ps..])
    ensures Next(s[ps..]) == Token(END, [], []) && Skip(s[|s|..]) == []
  {
    assert s[|s|..] == [];
  }

  /** peek */
  method PeekAt(s: string, ps: nat, toks: set<char>) returns (next: nat, yes: bool)
    requires ps <= |s|
    ensures ps <= next <= |s| && s[next..] == Skip(s[ps..]) && yes == Peek(s[ps..], toks)
  {
    next := SkipWhite(s, ps);
    yes := next < |s| && s[next] in toks;
  }

  // ---------------------------------------------------------------- redirections

  /** What parseredirs makes of u, given that it has read acc already. */
  function After(acc: seq<Target>, u: string): Redirects {
    var r := Redirs(u);
    if r.BadRedirects? then r else Redirects(acc + r.list, r.rest)
  }

  lemma AfterStep(acc: seq<Target>, u: string)
    requires Peek(u, {'<', '>'})
    ensures var t := Next(u); var f := Next(t.rest);
      After(acc, u) == if f.kind != 'a' then BadRedirects else After(acc + [TargetOf(t.kind, f.word)], f.rest)
  {
    var t := Next(u);
    var f := Next(t.rest);
    if f.kind == 'a' {
      var r := Redirs(f.rest);
      if r.Redirects? {
        assert acc + ([TargetOf(t.kind, f.word)] + r.list) == acc + [TargetOf(t.kind, f.word)] + r.list;
      }
    }
  }

  /** One turn of parseredirs: the operator and its file. */
  method ReadRedir(s: string, cmd: Node, ps: nat) returns (node: Node, next: nat, ok: bool)
    requires ps <= |s| && ProperNode(s, cmd) && Peek(s[ps..], {'<', '>'})
    ensures var t := Next(s[ps..]); var f := Next(t.rest);
      && (ok <==> f.kind == 'a')
      && (ok ==> ps < next <= |s| && ProperNode(s, node) && s[next..] == f.rest && Inner(node) == Inner(cmd)
                 && Resolve(s, node) == Redir(Resolve(s, cmd), TargetOf(t.kind, f.word)))
  {
    hide Next, Skip, Proper;
    PeekNonempty(s[ps..], {'<', '>'});
    var kind, q0, eq0, mid := GetToken(s, ps);
    var word, q, eq, last := GetToken(s, mid);
    if word != 'a' {
      return cmd, last, false;
    }
    var to := TargetOf(kind, s[q..eq]);
    assert Word(s, Span(q, eq)) == s[q..eq];
    return RedirNode(cmd, Span(q, eq), to.mode, to.fd), last, true;
  }

  /** parseredirs */
  method ParseRedirs(s: string, cmd: Node, ps: nat) returns (node: Node, next: nat, ok: bool)
    requires ps <= |s| && ProperNode(s, cmd)
    ensures ok <==> Redirs(s[ps..]).Redirects?
    ensures ok ==>
      ps <= next <= |s| && ProperNode(s, node) && s[next..] == Redirs(s[ps..]).rest && Inner(node) == Inner(cmd)
    ensures ok ==> Resolve(s, node) == Wrap(Resolve(s, cmd), Redirs(s[ps..]).list)
  {
    hide Next, Skip, Redirs, Wrap, Resolve, ProperNode, After, Peek, Inner;
    node := cmd;
    ghost var acc: seq<Target> := [];
    AfterNone(s[ps..], Resolve(s, cmd));
    var yes;
    next, yes := PeekAt(s, ps, {'<', '>'});
    AfterSkip(acc, s[ps..]);
    while yes
      invariant ps <= next <= |s| && ProperNode(s, node)
      invariant Resolve(s, node) == Wrap(Resolve(s, cmd), acc) && Inner(node) == Inner(cmd)
      invariant After(acc, s[next..]) == Redirs(s[ps..])
      invariant yes == Peek(s[next..], {'<', '>'}) && Skip(s[next..]) == s[next..]
      decreases |s| - next
    {
      AfterStep(acc, s[next..]);
      ghost var t := Next(s[next..]);
      ghost var to := TargetOf(t.kind, Next(t.rest).word);
      var last;
      node, last, ok := ReadRedir(s, node, next);
      if !ok {
        return;
      }
      WrapSnoc(Resolve(s, cmd), acc, to);
      acc := acc + [to];
      next, yes := PeekAt(s, last, {'<', '>'});
      AfterSkip(acc, s[last..]);
    }
    AfterEnd(acc, s[next..]);
    ok := true;
  }

  lemma AfterSkip(acc: seq<Target>, u: string)
    ensures After(acc, Skip(u)) == After(acc, u)
    ensures Peek(Skip(u), {'<', '>'}) == Peek(u, {'<', '>'}) && Skip(Skip(u)) == Skip(u)
  {
    hide Skip, Redirs, Peek;
    SkipParse(u);
    PeekSkip(u, {'<', '>'});
  }

  lemma AfterNone(u: string, c: Tree)
    ensures After([], u) == Redirs(u) && Wrap(c, []) == c
  {
  }

  lemma AfterEnd(acc: seq<Target>, u: string)
    requires !Peek(u, {'<', '>'}) && Skip(u) == u
    ensures After(acc, u) == Redirects(acc, u)
  {
  }

  lemma PeekSkip(u: string, toks: set<char>)
    ensures Peek(Skip(u), toks) == Peek(u, toks) && Skip(Skip(u)) == Skip(u)
  {
  }

  lemma PeekNonempty(u: string, toks: set<char>)
    requires Peek(u, toks)
    ensures Skip(u) != []
  {
  }

  /** The arguments of the exec node inside redirections. */
  function Inner(c: Node): Option<seq<Span>> {
    match c
    case ExecNode(argv) => Some(argv)
    case RedirNode(d, _, _, _) => Inner(d)
    case _ => None
  }

  // ---------------------------------------------------------------- arguments

  /** cmd->argv[argc] = q, in the exec node that redirections already surround. */
  function AddArg(c: Node, w: Span): Node {
    match c
    case ExecNode(argv) => ExecNode(argv + [w])
    case RedirNode(d, file, mode, fd) => RedirNode(AddArg(d, w), file, mode, fd)
    case _ => c
  }

  lemma {:induction false} WrapLast(c: Tree, list: seq<Target>)
    requires list != []
    ensures Wrap(c, list) == Redir(Wrap(c, list[..|list| - 1]), list[|list| - 1])
  {
    var n := |list| - 1;
    WrapSnoc(c, list[..n], list[n]);
    assert list[..n] + [list[n]] == list;
  }

  lemma {:induction false} AddArgs(s: string, c: Node, argv: seq<Span>, list: seq<Target>, w: Span)
    requires Inner(c) == Some(argv) && ProperNode(s, c) && Proper(s, w)
    requires Resolve(s, c) == Wrap(Exec(TextOf(s, argv)), list)
    ensures Inner(AddArg(c, w)) == Some(argv + [w]) && ProperNode(s, AddArg(c, w))
    ensures Resolve(s, AddArg(c, w)) == Wrap(Exec(TextOf(s, argv) + [Word(s, w)]), list)
  {
    if list != [] {
      WrapLast(Exec(TextOf(s, argv)), list);
      WrapLast(Exec(TextOf(s, argv) + [Word(s, w)]), list);
    }
    match c
    case ExecNode(_) =>
      assert TextOf(s, argv + [w]) == TextOf(s, argv) + [Word(s, w)];
    case RedirNode(d, _, _, _) =>
      AddArgs(s, d, argv, list[..|list| - 1], w);
  }

  /** What parseexec's loop makes of u, given the arguments and redirections it has read already. */
  function Then(args: seq<string>, list: seq<Target>, u: string): Arguments {
    var r := Args(u, |args|);
    if r.BadArguments? then r else Arguments(args + r.args, list + r.list, r.rest)
  }

  lemma ThenWord(args: seq<string>, list: seq<Target>, u: string)
    requires !Peek(u, {'|', ')', '&', ';'}) && Skip(u) != [] && Next(u).kind == 'a' && |args| + 1 < MAXARGS
    ensures var l := Redirs(Next(u).rest);
      Then(args, list, u) == if l.BadRedirects? then BadArguments
        else Then(args + [Next(u).word], list + l.list, l.rest)
  {
    hide Next, Skip, Peek, Redirs;
    var t := Next(u);
    var l := Redirs(t.rest);
    if l.Redirects? {
      var r := Args(l.rest, |args| + 1);
      if r.Arguments? {
        assert args + ([t.word] + r.args) == args + [t.word] + r.args;
        assert list + (l.list + r.list) == list + l.list + r.list;
      }
    }
  }

  lemma ThenBad(args: seq<string>, list: seq<Target>, u: string)
    requires !Peek(u, {'|', ')', '&', ';'}) && Skip(u) != [] && (Next(u).kind != 'a' || |args| + 1 >= MAXARGS)
    ensures Then(args, list, u) == BadArguments
  {
  }

  lemma ThenEnd(args: seq<string>, list: seq<Target>, u: string)
    requires Peek(u, {'|', ')', '&', ';'}) || Skip(u) == []
    ensures Then(args, list, u) == Arguments(args, list, Skip(u))
  {
  }

  lemma ThenSkip(args: seq<string>, list: seq<Target>, u: string)
    ensures Then(args, list, Skip(u)) == Then(args, list, u)
    ensures Peek(Skip(u), {'|', ')', '&', ';'}) == Peek(u, {'|', ')', '&', ';'})
    ensures Skip(Skip(u)) == Skip(u)
  {
    hide Skip, Args, Peek;
    SkipParse(u);
    PeekSkip(u, {'|', ')', '&', ';'});
  }

  lemma KindEnd(u: string)
    ensures Next(u).kind == END <==> Skip(u) == []
  {
  }

  /** parseexec's loop over the arguments. */
  method ParseArgs(s: string, cmd: Node, ps: nat, ghost list0: seq<Target>) returns (node: Node, next: nat, ok: bool)
    requires ps <= |s| && ProperNode(s, cmd) && Inner(cmd) == Some([]) && Resolve(s, cmd) == Wrap(Exec([]), list0)
    ensures ok <==> Then([], list0, s[ps..]).Arguments?
    ensures ok ==> ps <= next <= |s| && ProperNode(s, node) && s[next..] == Then([], list0, s[ps..]).rest
    ensures ok ==> var r := Then([], list0, s[ps..]); Resolve(s, node) == Wrap(Exec(r.args), r.list)
  {
    hide Next, Skip, Redirs, Wrap, Resolve, ProperNode, Then, Peek, Inner, Proper;
    node := cmd;
    ghost var argv, args, list := [], [], list0;
    var argc := 0;
    var stop;
    next, stop := PeekAt(s, ps, {'|', ')', '&', ';'});
    ThenSkip(args, list, s[ps..]);
    while !stop
      invariant ps <= next <= |s| && ProperNode(s, node) && Inner(node) == Some(argv)
      invariant args == TextOf(s, argv) && argc == |argv|
      invariant Resolve(s, node) == Wrap(Exec(args), list) && Then(args, list, s[next..]) == Then([], list0, s[ps..])
      invariant stop == Peek(s[next..], {'|', ')', '&', ';'}) && Skip(s[next..]) == s[next..]
      decreases |s| - next
    {
      ghost var u := s[next..];
      KindEnd(u);
      var kind, q, eq, last := GetToken(s, next);
      if kind == END {
        break;
      }
      if kind != 'a' {
        ThenBad(args, list, u);
        return node, next, false;
      }
      AddArgs(s, node, argv, list, Span(q, eq));
      node := AddArg(node, Span(q, eq));
      argc := argc + 1;
      if argc >= MAXARGS {
        ThenBad(args, list, u);
        return node, next, false;
      }
      ThenWord(args, list, u);
      argv, args := argv + [Span(q, eq)], args + [s[q..eq]];
      assert args == TextOf(s, argv);
      node, last, ok := ParseRedirs(s, node, last);
      if !ok {
        return;
      }
      WrapWrap(Exec(args), list, Redirs(Next(u).rest).list);
      list := list + Redirs(Next(u).rest).list;
      next, stop := PeekAt(s, last, {'|', ')', '&', ';'});
      ThenSkip(args, list, s[last..]);
    }
    ThenEnd(args, list, s[next..]);
    ok := true;
  }

  lemma {:induction false} WrapWrap(c: Tree, a: seq<Target>, b: seq<Target>)
    ensures Wrap(Wrap(c, a), b) == Wrap(c, a + b)
    decreases |a|
  {
    if a == [] {
      assert a + b == b;
    } else {
      assert (a + b)[1..] == a[1..] + b;
      WrapWrap(Redir(c, a[0]), a[1..], b);
    }
  }

  // ---------------------------------------------------------------- commands

  /** What a parser that starts at ps has to deliver. */
  ghost predicate Delivers(s: string, ps: nat, r: Parsed, node: Node, next: nat, ok: bool)
    requires ps <= |s|
  {
    && (ok <==> r.Ok?)
    && (ok ==> ps <= next <= |s| && ProperNode(s, node) && s[next..] == r.rest && Resolve(s, node) == r.cmd)
  }

  /** parseexec */
  method ParseExec(s: string, ps: nat) returns (node: Node, next: nat, ok: bool)
    requires ps <= |s|
    ensures Delivers(s, ps, ExecCmd(s[ps..]), node, next, ok)
    decreases |s| - ps, 1
  {
    hide Next, Skip, Peek, Args, Redirs, Wrap, Block;
    var start, paren := PeekAt(s, ps, {'('});
    ExecParts(s[ps..]);
    PeekSkip(s[ps..], {'('});
    if paren {
      node, next, ok := ParseBlock(s, start);
      return;
    }
    node := ExecNode([]);
    assert TextOf(s, []) == [];
    node, next, ok := ParseRedirs(s, node, start);
    if !ok {
      return;
    }
    ghost var list := Redirs(s[start..]).list;
    node, next, ok := ParseArgs(s, node, next, list);
  }

  /** ExecCmd, and Block, on a text whose white space has been skipped or not. */
  lemma ExecParts(u: string)
    ensures ExecCmd(u) == if Peek(u, {'('}) then ExecCmd(Skip(u)) else
        var l := Redirs(Skip(u));
        if l.BadRedirects? then Fail
        else var r := Then([], l.list, l.rest); if r.BadArguments? then Fail else Ok(Wrap(Exec(r.args), r.list), r.rest)
    ensures Peek(u, {'('}) ==> Peek(Skip(u), {'('}) && ExecCmd(Skip(u)) == Block(Skip(u))
  {
    hide Next, Skip, Wrap, Redirs, Args, Block, Peek;
    SkipParse(u);
    PeekSkip(u, {'('});
    if !Peek(u, {'('}) {
      var l := Redirs(u);
      if l.Redirects? {
        ThenNothing(l.list, l.rest);
      }
    }
  }

  lemma ThenNothing(list: seq<Target>, u: string)
    ensures Then([], list, u) == var r := Args(u, 0);
      if r.BadArguments? then r else Arguments(r.args, list + r.list, r.rest)
  {
    hide Args;
    var r := Args(u, 0);
    if r.Arguments? {
      assert [] + r.args == r.args;
    }
  }

  /** parseblock */
  method ParseBlock(s: string, ps: nat) returns (node: Node, next: nat, ok: bool)
    requires ps <= |s| && Peek(s[ps..], {'('})
    ensures Delivers(s, ps, Block(s[ps..]), node, next, ok)
    decreases |s| - ps, 0
  {
    hide Next, Skip, Peek, Redirs, Wrap, Line;
    PeekNonempty(s[ps..], {'('});
    var kind, q, eq, close;
    kind, q, eq, next := GetToken(s, ps);
    node, next, ok := ParseLine(s, next);
    if !ok {
      return;
    }
    next, ok := PeekAt(s, next, {')'});
    if !ok {
      return;
    }
    kind, q, eq, close := GetToken(s, next);
    node, next, ok := ParseRedirs(s, node, close);
  }

  /** parsepipe */
  method ParsePipe(s: string, ps: nat) returns (node: Node, next: nat, ok: bool)
    requires ps <= |s|
    ensures Delivers(s, ps, PipeCmd(s[ps..]), node, next, ok)
    decreases |s| - ps, 2
  {
    hide Next, Skip, Peek, ExecCmd;
    node, next, ok := ParseExec(s, ps);
    if !ok {
      return;
    }
    var bar;
    next, bar := PeekAt(s, next, {'|'});
    if bar {
      PeekNonempty(s[next..], {'|'});
      var kind, q, eq, rest := GetToken(s, next);
      var right;
      right, next, ok := ParsePipe(s, rest);
      if ok {
        node := PipeNode(node, right);
      }
    }
  }

  /** parseline's loop over & */
  method ParseBacks(s: string, cmd: Node, ps: nat) returns (node: Node, next: nat)
    requires ps <= |s| && ProperNode(s, cmd)
    ensures Delivers(s, ps, Backs(Resolve(s, cmd), s[ps..]), node, next, true)
  {
    hide Next, Skip, Peek;
    node := cmd;
    var more;
    next, more := PeekAt(s, ps, {'&'});
    BacksSkip(Resolve(s, cmd), s[ps..]);
    while more
      invariant ps <= next <= |s| && ProperNode(s, node)
      invariant Backs(Resolve(s, node), s[next..]) == Backs(Resolve(s, cmd), s[ps..])
      invariant more == Peek(s[next..], {'&'}) && Skip(s[next..]) == s[next..]
      decreases |s| - next
    {
      PeekNonempty(s[next..], {'&'});
      var kind, q, eq, rest := GetToken(s, next);
      node := BackNode(node);
      BacksSkip(Resolve(s, node), s[rest..]);
      next, more := PeekAt(s, rest, {'&'});
    }
  }

  lemma BacksSkip(c: Tree, u: string)
    ensures Backs(c, Skip(u)) == Backs(c, u) && Peek(Skip(u), {'&'}) == Peek(u, {'&'}) && Skip(Skip(u)) == Skip(u)
  {
    assert Next(Skip(u)) == Next(u);
  }

  /** parseline */
  method ParseLine(s: string, ps: nat) returns (node: Node, next: nat, ok: bool)
    requires ps <= |s|
    ensures Delivers(s, ps, Line(s[ps..]), node, next, ok)
    decreases |s| - ps, 3
  {
    hide Next, Skip, Peek, PipeCmd, Backs;
    node, next, ok := ParsePipe(s, ps);
    if !ok {
      return;
    }
    node, next := ParseBacks(s, node, next);
    var semi;
    next, semi := PeekAt(s, next, {';'});
    if semi {
      PeekNonempty(s[next..], {';'});
      var kind, q, eq, rest := GetToken(s, next);
      var right;
      right, next, ok := ParseLine(s, rest);
      if ok {
        node := ListNode(node, right);
      }
    }
  }

  // ---------------------------------------------------------------- nulterminate

  /** Where nulterminate writes. */
  function Ends(c: Node): set<nat> {
    match c
    case ExecNode(argv) => EndsOf(argv)
    case RedirNode(d, file, _, _) => Ends(d) + {file.eq}
    case PipeNode(l, r) => Ends(l) + Ends(r)
    case ListNode(l, r) => Ends(l) + Ends(r)
    case BackNode(d) => Ends(d)
  }

  function EndsOf(argv: seq<Span>): set<nat> {
    set i | 0 <= i < |argv| :: argv[i].eq
  }

  /** NUL at each of ends, and no other change. */
  ghost predicate Cleared(was: seq<char>, now: seq<char>, ends: set<nat>) {
    |now| == |was| && forall i: nat :: i < |was| ==> now[i] == if i in ends then '\0' else was[i]
  }

  ghost predicate Bounded(ends: set<nat>, n: nat) {
    forall e :: e in ends ==> e < n
  }

  /** nulterminate; it recurs on the children and loops over argv. */
  method NulTerminate(buf: array<char>, c: Node)
    requires Bounded(Ends(c), buf.Length)
    modifies buf
    ensures Cleared(old(buf[..]), buf[..], Ends(c))
    decreases c
  {
    match c
    case ExecNode(argv) =>
      for i := 0 to |argv|
        invariant Cleared(old(buf[..]), buf[..], EndsOf(argv[..i]))
      {
        ghost var was := buf[..];
        assert argv[i].eq in Ends(c);
        buf[argv[i].eq] := '\0';
      }
      assert argv[..|argv|] == argv;
    case RedirNode(d, file, _, _) =>
      assert Ends(c) == Ends(d) + {file.eq};
      NulTerminate(buf, d);
      ghost var was := buf[..];
      buf[file.eq] := '\0';
    case PipeNode(l, r) =>
      assert Ends(c) == Ends(l) + Ends(r);
      NulTerminate(buf, l);
      ghost var was := buf[..];
      NulTerminate(buf, r);
    case ListNode(l, r) =>
      assert Ends(c) == Ends(l) + Ends(r);
      NulTerminate(buf, l);
      ghost var was := buf[..];
      NulTerminate(buf, r);
    case BackNode(d) =>
      assert Ends(c) == Ends(d);
      NulTerminate(buf, d);
  }

  // ---------------------------------------------------------------- C strings

  /** The C string at q. */
  function CString(b: seq<char>, q: nat): string
    decreases |b| - q
  {
    if q >= |b| || b[q] == '\0' then [] else [b[q]] + CString(b, q + 1)
  }

  /** The command a node stands for, its words read as C strings. */
  function CResolve(b: seq<char>, c: Node): Tree {
    match c
    case ExecNode(argv) => Exec(seq(|argv|, i requires 0 <= i < |argv| => CString(b, argv[i].q)))
    case RedirNode(d, file, mode, fd) => Redir(CResolve(b, d), Target(CString(b, file.q), mode, fd))
    case PipeNode(l, r) => Pipe(CResolve(b, l), CResolve(b, r))
    case ListNode(l, r) => List(CResolve(b, l), CResolve(b, r))
    case BackNode(d) => Back(CResolve(b, d))
  }

  predicate NulFree(s: string) {
    forall i :: 0 <= i < |s| ==> s[i] != '\0'
  }

  lemma {:induction false} CStringIs(b: seq<char>, q: nat, e: nat)
    requires q <= e < |b| && b[e] == '\0' && forall i :: q <= i < e ==> b[i] != '\0'
    ensures CString(b, q) == b[q..e]
    decreases e - q
  {
    if q < e {
      CStringIs(b, q + 1, e);
      assert b[q..e] == [b[q]] + b[q + 1..e];
    }
  }

  /** The place after a word is not inside any word. */
  ghost predicate BetweenWords(s: string, ends: set<nat>) {
    forall e :: e in ends ==> e <= |s| && (e == |s| || !WordChar(s[e]))
  }

  lemma ProperEnds(s: string, c: Node)
    requires ProperNode(s, c)
    ensures BetweenWords(s, Ends(c))
  {
    match c
    case ExecNode(argv) =>
      forall e | e in EndsOf(argv) ensures e <= |s| && (e == |s| || !WordChar(s[e])) {
        var i :| 0 <= i < |argv| && argv[i].eq == e;
        assert Proper(s, argv[i]);
      }
    case RedirNode(d, _, _, _) => ProperEnds(s, d);
    case PipeNode(l, r) => ProperEnds(s, l); ProperEnds(s, r);
    case ListNode(l, r) => ProperEnds(s, l); ProperEnds(s, r);
    case BackNode(d) => ProperEnds(s, d);
  }

  /** A word whose end is among the NULs reads back whole. */
  lemma WordSurvives(s: string, was: seq<char>, b: seq<char>, ends: set<nat>, w: Span)
    requires NulFree(s) && |was| > |s| && was[..|s|] == s && Cleared(was, b, ends) && BetweenWords(s, ends)
    requires Proper(s, w) && w.eq in ends
    ensures CString(b, w.q) == Word(s, w)
  {
    forall i | w.q <= i < w.eq ensures b[i] == s[i] && b[i] != '\0' {
      assert WordChar(s[i]);
      assert was[..|s|][i] == s[i];
    }
    CStringIs(b, w.q, w.eq);
    assert b[w.q..w.eq] == s[w.q..w.eq];
  }

  lemma {:induction false} AllSurvive(s: string, was: seq<char>, b: seq<char>, ends: set<nat>, c: Node)
    requires NulFree(s) && |was| > |s| && was[..|s|] == s && Cleared(was, b, ends) && BetweenWords(s, ends)
    requires ProperNode(s, c) && Ends(c) <= ends
    ensures CResolve(b, c) == Resolve(s, c)
    decreases c
  {
    match c
    case ExecNode(argv) =>
      forall i | 0 <= i < |argv| ensures CString(b, argv[i].q) == Word(s, argv[i]) {
        assert argv[i].eq in EndsOf(argv);
        WordSurvives(s, was, b, ends, argv[i]);
      }
      assert CResolve(b, c).args == TextOf(s, argv);
    case RedirNode(d, file, _, _) =>
      AllSurvive(s, was, b, ends, d);
      WordSurvives(s, was, b, ends, file);
    case PipeNode(l, r) =>
      AllSurvive(s, was, b, ends, l);
      AllSurvive(s, was, b, ends, r);
    case ListNode(l, r) =>
      AllSurvive(s, was, b, ends, l);
      AllSurvive(s, was, b, ends, r);
    case BackNode(d) =>
      AllSurvive(s, was, b, ends, d);
  }

  /**
   parsecmd: succeeds on exactly the command lines of the shell's language, and leaves the
   buffer so that the nodes' C strings spell a command that the text is a way to write.
   */
  method ParseCmd(buf: array<char>, ghost n: nat) returns (node: Node, ok: bool)
    requires n < buf.Length && buf[n] == '\0' && NulFree(buf[..n])
    modifies buf
    ensures ok <==> Command(old(buf[..n])).Ok?
    ensures ok ==> CResolve(buf[..], node) == Command(old(buf[..n])).cmd
    ensures var ts := ShellScript.Toks(old(buf[..n]));
      if ok then exists x :: ShellScript.Writes(x, CResolve(buf[..], node), ts)
      else forall x :: ShellScript.LegalScript(x) ==> ShellScript.Tokens(x) != ts
    ensures !ok ==> buf[..] == old(buf[..])
  {
    hide Skip, Line, Ends, Resolve, CResolve, ProperNode;
    hide ShellScript.Toks, ShellScript.Writes, ShellScript.LegalScript, ShellScript.Tokens;
    ShellScript.ReadsExactly(buf[..n]);
    var len := StrLen(buf, n);
    var s := buf[..len];
    var next;
    assert s[0..] == s;
    node, next, ok := ParseLine(s, 0);
    if !ok {
      return;
    }
    next, ok := PeekAt(s, next, {});
    ok := next == |s|;
    if ok {
      ProperEnds(s, node);
      ghost var was := buf[..];
      NulTerminate(buf, node);
      AllSurvive(s, was, buf[..], Ends(node), node);
    }
  }

  method StrLen(buf: array<char>, ghost n: nat) returns (len: nat)
    requires n < buf.Length && buf[n] == '\0' && NulFree(buf[..n])
    ensures len == n
  {
    len := 0;
    assert forall i :: 0 <= i < n ==> buf[..n][i] == buf[i];
    while buf[len] != '\0'
      invariant len <= n
      decreases n - len
    {
      len := len + 1;
    }
  }

  // ---------------------------------------------------------------- from text to text

  /** The words of the command are C strings. */
  predicate Textual(t: Tree) {
    match t
    case Exec(args) => forall i :: 0 <= i < |args| ==> NulFree(args[i])
    case Redir(c, to) => Textual(c) && NulFree(to.file)
    case Pipe(l, r) => Textual(l) && Textual(r)
    case List(l, r) => Textual(l) && Textual(r)
    case Back(c) => Textual(c)
  }

  lemma {:induction false} WordsNulFree(args: seq<string>)
    requires forall i :: 0 <= i < |args| ==> NulFree(args[i])
    ensures NulFree(Words(args))
    decreases |args|
  {
    if args != [] {
      WordsNulFree(args[1..]);
    }
  }

  lemma {:induction false} PrintNulFree(t: Tree)
    requires Textual(t)
    ensures NulFree(Print(t))
    decreases t
  {
    match t
    case Exec(args) => WordsNulFree(args);
    case Redir(c, to) => PrintNulFree(c);
    case Pipe(l, r) => PrintNulFree(l); PrintNulFree(r);
    case List(l, r) => PrintNulFree(l); PrintNulFree(r);
    case Back(c) => PrintNulFree(c);
  }

  /** A command's text, as a C string in a buffer, is parsed into nodes whose C strings spell the command. */
  method ParsePrinted(t: Tree, buf: array<char>) returns (node: Node, ok: bool)
    requires Legal(t) && Textual(t) && |Print(t)| < buf.Length
    requires buf[..|Print(t)|] == Print(t) && buf[|Print(t)|] == '\0'
    modifies buf
    ensures ok && CResolve(buf[..], node) == t
  {
    hide *;
    PrintNulFree(t);
    RoundTrip(t);
    node, ok := ParseCmd(buf, |Print(t)|);
  }

  lemma {:induction false} TextNulFree(ts: seq<ShellScript.Tok>, gaps: seq<string>)
    requires |gaps| == |ts| && forall i :: 0 <= i < |ts| ==> NulFree(ts[i].word) && ShellScript.Blank(gaps[i])
    ensures NulFree(ShellScript.Text(ts, gaps))
  {
    if ts != [] {
      TextNulFree(ts[1..], gaps[1..]);
    }
  }

  /** So is any command line whose words are C strings, however spaced: its nodes spell what it means. */
  method ParseScript(x: ShellScript.Script, lead: string, gaps: seq<string>, buf: array<char>)
    returns (node: Node, ok: bool)
    requires ShellScript.LegalScript(x) && ShellScript.Blank(lead) && ShellScript.Parts(ShellScript.Tokens(x), gaps)
    requires forall i :: 0 <= i < |ShellScript.Tokens(x)| ==> NulFree(ShellScript.Tokens(x)[i].word)
    requires var u := lead + ShellScript.Text(ShellScript.Tokens(x), gaps);
      |u| < buf.Length && buf[..|u|] == u && buf[|u|] == '\0'
    modifies buf
    ensures ok && CResolve(buf[..], node) == ShellScript.Meaning(x)
  {
    hide CResolve, Command;
    hide ShellScript.LegalScript, ShellScript.Tokens, ShellScript.Text;
    var ts := ShellScript.Tokens(x);
    TextNulFree(ts, gaps);
    ShellScript.ScriptRead(x, lead, gaps);
    node, ok := ParseCmd(buf, |lead + ShellScript.Text(ts, gaps)|);
  }
}
