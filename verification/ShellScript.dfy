/**
 The language of user/sh.c: command lines as written, without regard to white space, with
 their tokens and their meaning. The parser accepts exactly these, and every tree has one
 with the fewest parentheses.
 */
module ShellScript {
  import opened ShellGrammar

  // ---------------------------------------------------------------- tokens

  datatype Tok = Tok(kind: char, word: string)

  /** What gettoken returns, called until the end. */
  function Toks(u: string): seq<Tok>
    decreases |u|
  {
    if Skip(u) == [] then [] else [Tok(Next(u).kind, Next(u).word)] + Toks(Next(u).rest)
  }

  predicate LegalTok(t: Tok) {
    || (t.kind == 'a' && LegalWord(t.word))
    || ((Single(t.kind) || t.kind == '<' || t.kind == '>') && t.word == [t.kind])
    || (t.kind == '+' && t.word == ">>")
  }

  predicate Starts(ts: seq<Tok>, kinds: set<char>) {
    ts != [] && ts[0].kind in kinds
  }

  /** What may follow a simple command. */
  predicate Ends(ts: seq<Tok>) {
    ts == [] || Starts(ts, {'|', ')', '&', ';'})
  }

  predicate Arrowed(ts: seq<Tok>) {
    Starts(ts, {'<', '>', '+'})
  }

  // ---------------------------------------------------------------- command lines

  datatype Item = Word(text: string) | Into(to: Target)

  /** A command of a pipeline: words and redirections in any order, or a block with redirections. */
  datatype Unit = Simple(items: seq<Item>) | Group(line: Script, list: seq<Target>)

  /** c1 | c2 | ... | cn */
  datatype Pipes = Last(unit: Unit) | More(unit: Unit, rest: Pipes)

  /** A pipeline and so many &, and what follows a ; */
  datatype Script = End(pipes: Pipes, backs: nat) | Then(pipes: Pipes, backs: nat, rest: Script)

  function WordsOf(items: seq<Item>): seq<string> {
    if items == [] then []
    else if items[0].Word? then [items[0].text] + WordsOf(items[1..])
    else WordsOf(items[1..])
  }

  function TargetsOf(items: seq<Item>): seq<Target> {
    if items == [] then []
    else if items[0].Into? then [items[0].to] + TargetsOf(items[1..])
    else TargetsOf(items[1..])
  }

  predicate LegalTargets(list: seq<Target>) {
    forall i :: 0 <= i < |list| ==> LegalTarget(list[i])
  }

  predicate LegalItems(items: seq<Item>) {
    forall i :: 0 <= i < |items| ==> if items[i].Word? then LegalWord(items[i].text) else LegalTarget(items[i].to)
  }

  predicate LegalUnit(x: Unit) {
    match x
    case Simple(items) => LegalItems(items) && |WordsOf(items)| < MAXARGS
    case Group(line, list) => LegalScript(line) && LegalTargets(list)
  }

  predicate LegalPipes(x: Pipes) {
    LegalUnit(x.unit) && (x.More? ==> LegalPipes(x.rest))
  }

  predicate LegalScript(x: Script) {
    LegalPipes(x.pipes) && (x.Then? ==> LegalScript(x.rest))
  }

  // What each means.

  function UnitMeaning(x: Unit): Tree {
    match x
    case Simple(items) => Wrap(Exec(WordsOf(items)), TargetsOf(items))
    case Group(line, list) => Wrap(Meaning(line), list)
  }

  function PipesMeaning(x: Pipes): Tree {
    match x
    case Last(u) => UnitMeaning(u)
    case More(u, rest) => Pipe(UnitMeaning(u), PipesMeaning(rest))
  }

  function Backed(c: Tree, n: nat): Tree {
    if n == 0 then c else Back(Backed(c, n - 1))
  }

  function Meaning(x: Script): Tree {
    var c := Backed(PipesMeaning(x.pipes), x.backs);
    if x.End? then c else List(c, Meaning(x.rest))
  }

  // The tokens of each, and then those of post.

  function Sym(c: char): Tok {
    Tok(c, [c])
  }

  function Arrow(to: Target): Tok {
    if to.fd == 0 then Sym('<') else if to.mode == O_WRONLY + O_CREATE then Tok('+', ">>") else Sym('>')
  }

  function OfTargets(list: seq<Target>, post: seq<Tok>): seq<Tok> {
    if list == [] then post else [Arrow(list[0])] + ([Tok('a', list[0].file)] + OfTargets(list[1..], post))
  }

  function OfItems(items: seq<Item>, post: seq<Tok>): seq<Tok> {
    if items == [] then post
    else
      match items[0]
      case Word(w) => [Tok('a', w)] + OfItems(items[1..], post)
      case Into(to) => [Arrow(to)] + ([Tok('a', to.file)] + OfItems(items[1..], post))
  }

  function OfUnit(x: Unit, post: seq<Tok>): seq<Tok> {
    match x
    case Simple(items) => OfItems(items, post)
    case Group(line, list) => [Sym('(')] + OfScript(line, [Sym(')')] + OfTargets(list, post))
  }

  function OfPipes(x: Pipes, post: seq<Tok>): seq<Tok> {
    match x
    case Last(u) => OfUnit(u, post)
    case More(u, rest) => OfUnit(u, [Sym('|')] + OfPipes(rest, post))
  }

  function Amps(n: nat, post: seq<Tok>): seq<Tok> {
    if n == 0 then post else [Sym('&')] + Amps(n - 1, post)
  }

  function OfScript(x: Script, post: seq<Tok>): seq<Tok> {
    OfPipes(x.pipes, Amps(x.backs, if x.End? then post else [Sym(';')] + OfScript(x.rest, post)))
  }

  function Tokens(x: Script): seq<Tok> {
    OfScript(x, [])
  }

  // ---------------------------------------------------------------- what the tokens say of the text

  lemma LegalFirst(v: string)
    requires v != [] && !White(v[0])
    ensures Skip(v) == v && LegalTok(Tok(Next(v).kind, Next(v).word))
  {
    assert v[..1] == [v[0]];
    if WordChar(v[0]) {
      forall i | 0 <= i < WordLen(v) ensures WordChar(v[..WordLen(v)][i]) {
      }
    } else if |v| > 1 && v[0] == v[1] == '>' {
      assert v[..2] == ">>";
    }
  }

  lemma TokFacts(u: string)
    ensures Toks(Skip(u)) == Toks(u) && (Toks(u) == [] <==> Skip(u) == []) && (Toks(u) == [] ==> Next(u).kind == END)
    ensures Toks(u) != [] ==> (
        var t := Next(u);
        && LegalTok(Tok(t.kind, t.word)) && |t.rest| < |u| && Toks(u) == [Tok(t.kind, t.word)] + Toks(t.rest)
        && Toks(u)[1..] == Toks(t.rest))
  {
    hide Length, LegalTok;
    SkipTwice(u);
    if Skip(u) != [] {
      LegalFirst(Skip(u));
    }
  }

  lemma PeekFacts(u: string)
    ensures Peek(u, {'<', '>'}) <==> Arrowed(Toks(u))
    ensures Peek(u, {'|', ')', '&', ';'}) <==> Starts(Toks(u), {'|', ')', '&', ';'})
    ensures forall c | Single(c) :: Peek(u, {c}) <==> Starts(Toks(u), {c})
  {
    hide Toks, WordLen, LegalTok;
    TokFacts(u);
  }

  // ---------------------------------------------------------------- every line of the language is read

  lemma {:induction false} ReadsRedirs(u: string, list: seq<Target>, post: seq<Tok>)
    requires LegalTargets(list) && !Arrowed(post) && Toks(u) == OfTargets(list, post)
    ensures var r := Redirs(u); r.Redirects? && r.list == list && Toks(r.rest) == post
    decreases |list|
  {
    hide Toks, Skip, Next, Peek;
    TokFacts(u);
    PeekFacts(u);
    if list != [] {
      var t := Next(u);
      TokFacts(t.rest);
      ReadsRedirs(Next(t.rest).rest, list[1..], post);
    }
  }

  lemma WordFirst(u: string, argc: nat)
    requires Starts(Toks(u), {'a'}) && argc + 1 < MAXARGS
    ensures Redirs(u) == Redirects([], Skip(u))
    ensures var l := Redirs(Next(u).rest);
      l.Redirects? ==> (
        var r := Args(l.rest, argc + 1);
        r.Arguments? ==> Args(Skip(u), argc) == Arguments([Next(u).word] + r.args, l.list + r.list, r.rest))
  {
    hide Toks, Skip, Next, Peek;
    TokFacts(u);
    PeekFacts(u);
    SkipArgs(u, argc);
  }

  lemma ArrowMeans(to: Target)
    requires LegalTarget(to)
    ensures TargetOf(Arrow(to).kind, to.file) == to && Arrow(to).kind in {'<', '>', '+'}
  {
  }

  lemma ArrowFirst(u: string)
    requires Arrowed(Toks(u)) && Starts(Toks(u)[1..], {'a'})
    ensures var f := Next(Next(u).rest);
      var r := Redirs(f.rest);
      r.Redirects? ==> Redirs(u) == Redirects([TargetOf(Next(u).kind, f.word)] + r.list, r.rest)
  {
    hide Toks, Skip, Next, Peek, TargetOf;
    TokFacts(u);
    PeekFacts(u);
    TokFacts(Next(u).rest);
  }

  lemma NoItems(u: string, argc: nat)
    requires Ends(Toks(u))
    ensures Redirs(u) == Redirects([], Skip(u)) && Args(Skip(u), argc) == Arguments([], [], Skip(u))
  {
    hide Toks, Skip, Next, Peek;
    TokFacts(u);
    PeekFacts(u);
    SkipArgs(u, argc);
    SkipTwice(u);
  }

  /** The redirections and then the arguments at u, before post. */
  ghost predicate Gives(u: string, argc: nat, words: seq<string>, list: seq<Target>, post: seq<Tok>) {
    var l := Redirs(u);
    l.Redirects? && var r := Args(l.rest, argc);
    r.Arguments? && r.args == words && l.list + r.list == list && Toks(r.rest) == post
  }

  lemma WordGives(u: string, argc: nat, words: seq<string>, list: seq<Target>, post: seq<Tok>)
    requires Starts(Toks(u), {'a'}) && argc + 1 < MAXARGS && Gives(Next(u).rest, argc + 1, words, list, post)
    ensures Gives(u, argc, [Next(u).word] + words, list, post)
  {
    hide Toks, Skip, Next, Peek, Redirs, Args;
    WordFirst(u, argc);
    var l := Redirs(Next(u).rest);
    assert [] + (l.list + Args(l.rest, argc + 1).list) == list;
  }

  lemma ArrowGives(u: string, to: Target, argc: nat, words: seq<string>, list: seq<Target>, post: seq<Tok>)
    requires LegalTarget(to) && |Toks(u)| > 1 && Toks(u)[0] == Arrow(to) && Toks(u)[1] == Tok('a', to.file)
    requires Gives(Next(Next(u).rest).rest, argc, words, list, post)
    ensures Gives(u, argc, words, [to] + list, post)
  {
    hide Toks, Skip, Next, Peek, Redirs, Args, TargetOf, Arrow, LegalTarget;
    ArrowMeans(to);
    TokFacts(u);
    TokFacts(Next(u).rest);
    ArrowFirst(u);
    var l := Redirs(Next(Next(u).rest).rest);
    assert ([to] + l.list) + Args(l.rest, argc).list == [to] + list;
  }

  lemma NotBlock(items: seq<Item>, post: seq<Tok>)
    requires Ends(post)
    ensures !Starts(OfItems(items, post), {'('})
  {
  }

  lemma {:induction false} ReadsItems(u: string, items: seq<Item>, argc: nat, post: seq<Tok>)
    requires LegalItems(items) && argc + |WordsOf(items)| < MAXARGS && Ends(post) && Toks(u) == OfItems(items, post)
    ensures Gives(u, argc, WordsOf(items), TargetsOf(items), post)
    decreases |items|
  {
    hide Toks, Skip, Next, Peek, Gives, Arrow, LegalTok, LegalTarget, LegalWord, Ends;
    TokFacts(u);
    if items == [] {
      NothingGiven(u, argc);
    } else {
      var v := Next(u).rest;
      match items[0]
      case Word(w) =>
        ReadsItems(v, items[1..], argc + 1, post);
        WordGives(u, argc, WordsOf(items[1..]), TargetsOf(items[1..]), post);
      case Into(to) =>
        TokFacts(v);
        ReadsItems(Next(v).rest, items[1..], argc, post);
        ArrowGives(u, to, argc, WordsOf(items[1..]), TargetsOf(items[1..]), post);
    }
  }

  lemma NothingGiven(u: string, argc: nat)
    requires Ends(Toks(u))
    ensures Gives(u, argc, [], [], Toks(u))
  {
    hide Toks, Skip, Next, Peek, Redirs, Args;
    NoItems(u, argc);
    TokFacts(u);
  }

  lemma {:induction false} ReadsUnit(u: string, x: Unit, post: seq<Tok>)
    requires LegalUnit(x) && Ends(post) && Toks(u) == OfUnit(x, post)
    ensures var r := ExecCmd(u); r.Ok? && r.cmd == UnitMeaning(x) && Toks(r.rest) == post
    decreases x
  {
    hide Toks, Skip, Next, Peek, Redirs, Args, Wrap;
    PeekFacts(u);
    match x
    case Simple(items) =>
      NotBlock(items, post);
      ReadsItems(u, items, 0, post);
    case Group(line, list) =>
      TokFacts(u);
      var v := Next(u).rest;
      ReadsScript(v, line, [Sym(')')] + OfTargets(list, post));
      var w := Line(v).rest;
      PeekFacts(w);
      TokFacts(w);
      ReadsRedirs(Next(w).rest, list, post);
  }

  lemma {:induction false} ReadsPipes(u: string, x: Pipes, post: seq<Tok>)
    requires LegalPipes(x) && Ends(post) && !Starts(post, {'|'}) && Toks(u) == OfPipes(x, post)
    ensures var r := PipeCmd(u); r.Ok? && r.cmd == PipesMeaning(x) && Toks(r.rest) == post
    decreases x
  {
    hide Toks, Skip, Next, Peek, ExecCmd, UnitMeaning;
    match x
    case Last(c) =>
      ReadsUnit(u, c, post);
      PeekFacts(ExecCmd(u).rest);
    case More(c, rest) =>
      ReadsUnit(u, c, [Sym('|')] + OfPipes(rest, post));
      var v := ExecCmd(u).rest;
      PeekFacts(v);
      TokFacts(v);
      ReadsPipes(Next(v).rest, rest, post);
  }

  lemma {:induction false} BackedInside(c: Tree, n: nat)
    ensures Backed(Back(c), n) == Back(Backed(c, n))
  {
    if n > 0 {
      BackedInside(c, n - 1);
    }
  }

  lemma {:induction false} ReadsBacks(c: Tree, u: string, n: nat, post: seq<Tok>)
    requires !Starts(post, {'&'}) && Toks(u) == Amps(n, post)
    ensures Backs(c, u).cmd == Backed(c, n) && Toks(Backs(c, u).rest) == post
    decreases n
  {
    hide Toks, Skip, Next, Peek;
    PeekFacts(u);
    TokFacts(u);
    if n > 0 {
      ReadsBacks(Back(c), Next(u).rest, n - 1, post);
      BackedInside(c, n - 1);
    }
  }

  lemma {:induction false} ReadsScript(u: string, x: Script, post: seq<Tok>)
    requires LegalScript(x) && (post == [] || Starts(post, {')'})) && Toks(u) == OfScript(x, post)
    ensures var r := Line(u); r.Ok? && r.cmd == Meaning(x) && Toks(r.rest) == post
    decreases x
  {
    hide Toks, Skip, Next, Peek, PipeCmd, PipesMeaning, Backed;
    var after := if x.End? then post else [Sym(';')] + OfScript(x.rest, post);
    ReadsPipes(u, x.pipes, Amps(x.backs, after));
    var c := PipeCmd(u);
    ReadsBacks(c.cmd, c.rest, x.backs, after);
    var v := Backs(c.cmd, c.rest).rest;
    PeekFacts(v);
    TokFacts(v);
    if x.Then? {
      ReadsScript(Next(v).rest, x.rest, post);
    }
  }

  // ---------------------------------------------------------------- nothing else is read

  lemma {:induction false} RedirsRead(u: string)
    requires Redirs(u).Redirects?
    ensures var r := Redirs(u); LegalTargets(r.list) && Toks(u) == OfTargets(r.list, Toks(r.rest))
    decreases |u|
  {
    hide Toks, Skip, Next, Peek;
    TokFacts(u);
    PeekFacts(u);
    if Peek(u, {'<', '>'}) {
      var t := Next(u);
      TokFacts(t.rest);
      var f := Next(t.rest);
      RedirsRead(f.rest);
      assert Redirs(u).list[1..] == Redirs(f.rest).list;
      assert Arrow(TargetOf(t.kind, f.word)) == Tok(t.kind, t.word);
    }
  }

  function AsItems(list: seq<Target>): seq<Item> {
    if list == [] then [] else [Into(list[0])] + AsItems(list[1..])
  }

  /** Redirections in front of other items. */
  lemma {:induction false} ItemsInFront(list: seq<Target>, items: seq<Item>, post: seq<Tok>)
    requires LegalTargets(list) && LegalItems(items)
    ensures var all := AsItems(list) + items;
      && LegalItems(all) && WordsOf(all) == WordsOf(items) && TargetsOf(all) == list + TargetsOf(items)
      && OfItems(all, post) == OfTargets(list, OfItems(items, post))
    decreases |list|
  {
    var all := AsItems(list) + items;
    if list == [] {
      assert all == items;
    } else {
      ItemsInFront(list[1..], items, post);
      assert all[1..] == AsItems(list[1..]) + items;
    }
  }

  lemma {:induction false} ArgsRead(u: string, argc: nat) returns (items: seq<Item>)
    requires Args(u, argc).Arguments? && argc < MAXARGS
    ensures var r := Args(u, argc);
      && LegalItems(items) && WordsOf(items) == r.args && TargetsOf(items) == r.list
      && argc + |r.args| < MAXARGS && Toks(u) == OfItems(items, Toks(r.rest))
    decreases |u|
  {
    hide Toks, Skip, Next, Peek, Redirs;
    TokFacts(u);
    PeekFacts(u);
    if Ends(Toks(u)) {
      items := [];
    } else {
      var t := Next(u);
      RedirsRead(t.rest);
      var l := Redirs(t.rest);
      var rest := ArgsRead(l.rest, argc + 1);
      ItemsInFront(l.list, rest, Toks(Args(l.rest, argc + 1).rest));
      items := [Word(t.word)] + (AsItems(l.list) + rest);
    }
  }

  lemma {:induction false} ExecRead(u: string) returns (x: Unit)
    requires ExecCmd(u).Ok?
    ensures var r := ExecCmd(u); LegalUnit(x) && UnitMeaning(x) == r.cmd && Toks(u) == OfUnit(x, Toks(r.rest))
    decreases |u|, 1
  {
    hide Toks, Skip, Next, Peek, Redirs, Args, Wrap, Block;
    PeekFacts(u);
    if Peek(u, {'('}) {
      x := BlockRead(u);
    } else {
      RedirsRead(u);
      var l := Redirs(u);
      var items := ArgsRead(l.rest, 0);
      ItemsInFront(l.list, items, Toks(Args(l.rest, 0).rest));
      x := Simple(AsItems(l.list) + items);
    }
  }

  lemma {:induction false} BlockRead(u: string) returns (x: Unit)
    requires Peek(u, {'('}) && Block(u).Ok?
    ensures var r := Block(u); LegalUnit(x) && UnitMeaning(x) == r.cmd && Toks(u) == OfUnit(x, Toks(r.rest))
    decreases |u|, 0
  {
    hide Toks, Skip, Next, Peek, Redirs, Args, Wrap, Line;
    PeekFacts(u);
    TokFacts(u);
    var v := Next(u).rest;
    var line := LineRead(v);
    var w := Line(v).rest;
    PeekFacts(w);
    TokFacts(w);
    RedirsRead(Next(w).rest);
    x := Group(line, Redirs(Next(w).rest).list);
  }

  lemma {:induction false} PipeRead(u: string) returns (x: Pipes)
    requires PipeCmd(u).Ok?
    ensures var r := PipeCmd(u); LegalPipes(x) && PipesMeaning(x) == r.cmd && Toks(u) == OfPipes(x, Toks(r.rest))
    decreases |u|, 2
  {
    hide Toks, Skip, Next, Peek, ExecCmd, OfUnit, UnitMeaning, LegalUnit;
    var c := ExecRead(u);
    var v := ExecCmd(u).rest;
    PeekFacts(v);
    TokFacts(v);
    if Peek(v, {'|'}) {
      var rest := PipeRead(Next(v).rest);
      x := More(c, rest);
    } else {
      x := Last(c);
    }
  }

  lemma {:induction false} BacksRead(c: Tree, u: string) returns (n: nat)
    ensures Backs(c, u).cmd == Backed(c, n) && Toks(u) == Amps(n, Toks(Backs(c, u).rest))
    decreases |u|
  {
    hide Toks, Skip, Next, Peek;
    PeekFacts(u);
    TokFacts(u);
    if Peek(u, {'&'}) {
      var m := BacksRead(Back(c), Next(u).rest);
      BackedInside(c, m);
      n := m + 1;
    } else {
      n := 0;
    }
  }

  lemma {:induction false} LineRead(u: string) returns (x: Script)
    requires Line(u).Ok?
    ensures var r := Line(u); LegalScript(x) && Meaning(x) == r.cmd && Toks(u) == OfScript(x, Toks(r.rest))
    decreases |u|, 3
  {
    hide Toks, Skip, Next, Peek, PipeCmd, OfPipes, PipesMeaning, LegalPipes;
    var p := PipeRead(u);
    var c := PipeCmd(u);
    var n := BacksRead(c.cmd, c.rest);
    var v := Backs(c.cmd, c.rest).rest;
    PeekFacts(v);
    TokFacts(v);
    if Peek(v, {';'}) {
      var rest := LineRead(Next(v).rest);
      x := Then(p, n, rest);
    } else {
      x := End(p, n);
    }
  }

  /** x is a way to write the command t with the tokens ts. */
  predicate Writes(x: Script, t: Tree, ts: seq<Tok>) {
    LegalScript(x) && Meaning(x) == t && Tokens(x) == ts
  }

  /**
   parsecmd accepts a text as the command t exactly if its tokens are those of a command line
   that means t. White space makes no difference beyond parting words.
   */
  lemma ParsesExactly(s: string, t: Tree)
    ensures Command(s) == Ok(t, []) <==> exists x :: Writes(x, t, Toks(s))
  {
    hide Toks, Skip, Line, OfScript, Meaning, LegalScript;
    if Command(s) == Ok(t, []) {
      var x := LineRead(s);
      TokFacts(Line(s).rest);
      assert Writes(x, t, Toks(s));
    }
    if x :| Writes(x, t, Toks(s)) {
      ReadsScript(s, x, []);
      TokFacts(Line(s).rest);
    }
  }

  /** parsecmd fails on exactly the texts that are no command line. */
  lemma ReadsExactly(s: string)
    ensures var r := Command(s);
      if r.Ok? then r.rest == [] && exists x :: Writes(x, r.cmd, Toks(s))
      else forall x :: LegalScript(x) ==> Tokens(x) != Toks(s)
  {
    hide Toks, Line, Tokens, LegalScript;
    var r := Command(s);
    if r.Ok? {
      ParsesExactly(s, r.cmd);
    } else {
      forall x | LegalScript(x) ensures Tokens(x) != Toks(s) {
        ParsesExactly(s, Meaning(x));
        assert Tokens(x) == Toks(s) ==> Writes(x, Meaning(x), Toks(s));
      }
    }
  }

  // ---------------------------------------------------------------- the texts of a command line

  predicate Blank(v: string) {
    forall i :: 0 <= i < |v| ==> White(v[i])
  }

  /** Tokens that would be read as others if nothing were between them. */
  predicate Joined(a: Tok, b: Tok) {
    (a.kind == 'a' && b.kind == 'a') || (a.kind == '>' && (b.kind == '>' || b.kind == '+'))
  }

  /** White space to put after each token, where needed and anywhere else. */
  predicate Parts(ts: seq<Tok>, gaps: seq<string>) {
    && |gaps| == |ts|
    && forall i :: 0 <= i < |ts| ==> Blank(gaps[i]) && (gaps[i] == [] && i + 1 < |ts| ==> !Joined(ts[i], ts[i + 1]))
  }

  /** The tokens' text. */
  function Text(ts: seq<Tok>, gaps: seq<string>): string
    requires |gaps| == |ts|
  {
    if ts == [] then [] else ts[0].word + (gaps[0] + Text(ts[1..], gaps[1..]))
  }

  predicate LegalToks(ts: seq<Tok>) {
    forall i :: 0 <= i < |ts| ==> LegalTok(ts[i])
  }

  /** u is a way to put down the tokens ts. */
  predicate Spells(u: string, ts: seq<Tok>, lead: string, gaps: seq<string>) {
    LegalToks(ts) && Blank(lead) && Parts(ts, gaps) && u == lead + Text(ts, gaps)
  }

  lemma {:induction false} SkipBlank(lead: string, v: string)
    requires Blank(lead)
    ensures Skip(lead + v) == Skip(v)
  {
    if lead == [] {
      assert lead + v == v;
    } else {
      assert (lead + v)[1..] == lead[1..] + v;
      SkipBlank(lead[1..], v);
    }
  }

  /** v does not go on with the token t. */
  predicate Apart(t: Tok, v: string) {
    v == [] || ((t.kind == 'a' ==> !WordChar(v[0])) && (t.kind == '>' ==> v[0] != '>'))
  }

  lemma FirstToken(t: Tok, v: string)
    requires LegalTok(t) && Apart(t, v)
    ensures Skip(t.word + v) == t.word + v && Next(t.word + v) == Token(t.kind, t.word, Skip(v))
  {
    if t.kind == 'a' {
      NextWord(t.word, v);
    } else {
      SymbolFirst(t, v);
    }
  }

  lemma SymbolFirst(t: Tok, v: string)
    requires LegalTok(t) && t.kind != 'a' && Apart(t, v)
    ensures Skip(t.word + v) == t.word + v && Next(t.word + v) == Token(t.kind, t.word, Skip(v))
  {
    hide WordLen;
    var u := t.word + v;
    if t.kind == '+' {
      assert u[2..] == v && u[..2] == ">>";
    } else {
      assert u[1..] == v && u[..1] == t.word;
    }
  }

  lemma TextApart(ts: seq<Tok>, gaps: seq<string>)
    requires LegalToks(ts) && Parts(ts, gaps) && ts != []
    ensures Apart(ts[0], gaps[0] + Text(ts[1..], gaps[1..]))
  {
    hide WordLen;
    var v := gaps[0] + Text(ts[1..], gaps[1..]);
    if gaps[0] != [] {
      assert v[0] == gaps[0][0];
    } else if |ts| > 1 {
      assert v == Text(ts[1..], gaps[1..]) && v[0] == ts[1].word[0];
    }
  }

  lemma {:induction false} TextRead(ts: seq<Tok>, lead: string, gaps: seq<string>)
    requires LegalToks(ts) && Blank(lead) && Parts(ts, gaps)
    ensures Toks(lead + Text(ts, gaps)) == ts
    decreases |ts|
  {
    hide Toks, Next, Skip, LegalTok, Blank, Joined, Apart;
    var v := Text(ts, gaps);
    var u := lead + v;
    SkipBlank(lead, v);
    TokFacts(u);
    TokFacts(v);
    if ts == [] {
      assert Skip([]) == [];
    } else {
      var w := gaps[0] + Text(ts[1..], gaps[1..]);
      TextApart(ts, gaps);
      FirstToken(ts[0], w);
      NonEmpty(ts[0]);
      TextRead(ts[1..], gaps[0], gaps[1..]);
      TokFacts(w);
    }
  }

  lemma NonEmpty(t: Tok)
    requires LegalTok(t)
    ensures t.word != []
  {
  }

  /** White space is all that is skipped. */
  lemma {:induction false} Skipped(u: string) returns (lead: string)
    ensures Blank(lead) && u == lead + Skip(u)
  {
    if u != [] && White(u[0]) {
      var rest := Skipped(u[1..]);
      lead := [u[0]] + rest;
    } else {
      lead := [];
    }
  }

  /** The first token and what follows it. */
  lemma TokenParts(u: string) returns (gap: string)
    requires Skip(u) != []
    ensures var t := Next(u);
      Blank(gap) && Skip(u) == t.word + (gap + t.rest) && Apart(Tok(t.kind, t.word), gap + t.rest)
  {
    var v := Skip(u);
    var n := Length(v);
    gap := Skipped(v[n..]);
    assert v == v[..n] + v[n..];
  }

  lemma {:induction false} TextOf(u: string) returns (lead: string, gaps: seq<string>)
    ensures Spells(u, Toks(u), lead, gaps)
    decreases |u|
  {
    hide Toks, Next, LegalTok, Blank, Joined, Apart;
    lead := Skipped(u);
    TokFacts(u);
    if Skip(u) == [] {
      gaps := [];
    } else {
      var gap := TokenParts(u);
      var t := Next(u);
      var none, rest := TextOf(t.rest);
      StartsBlack(t.rest, none, rest);
      gaps := [gap] + rest;
      assert gaps[1..] == rest;
      GapFits(Tok(t.kind, t.word), gap, t.rest, rest);
    }
  }

  /** What follows a token starts with the next. */
  lemma StartsBlack(v: string, lead: string, gaps: seq<string>)
    requires Skip(v) == v && Spells(v, Toks(v), lead, gaps)
    ensures lead == [] && v == Text(Toks(v), gaps)
  {
    hide Toks;
  }

  lemma GapFits(t: Tok, gap: string, v: string, rest: seq<string>)
    requires LegalTok(t) && Apart(t, gap + v) && Blank(gap)
    requires LegalToks(Toks(v)) && Parts(Toks(v), rest) && v == Text(Toks(v), rest)
    ensures Parts([t] + Toks(v), [gap] + rest)
  {
    hide Toks;
    var ts, gaps := [t] + Toks(v), [gap] + rest;
    if gap == [] && Toks(v) != [] {
      assert (gap + v)[0] == Toks(v)[0].word[0];
    }
    forall i | 0 < i < |ts| ensures Blank(gaps[i]) && (gaps[i] == [] && i + 1 < |ts| ==> !Joined(ts[i], ts[i + 1])) {
      assert ts[i] == Toks(v)[i - 1] && gaps[i] == rest[i - 1];
      if i + 1 < |ts| {
        assert ts[i + 1] == Toks(v)[i - 1 + 1];
      }
    }
  }

  /** gettoken finds the tokens ts in a text exactly if it is a way to put them down. */
  lemma LexesExactly(u: string, ts: seq<Tok>)
    ensures Toks(u) == ts <==> exists lead, gaps :: Spells(u, ts, lead, gaps)
  {
    hide Toks, Parts, LegalToks, Blank;
    var l, g := TextOf(u);
    if lead, gaps :| Spells(u, ts, lead, gaps) {
      TextRead(ts, lead, gaps);
    }
  }

  lemma {:induction false} TargetToks(list: seq<Target>, post: seq<Tok>)
    requires LegalTargets(list) && LegalToks(post)
    ensures LegalToks(OfTargets(list, post))
  {
    if list != [] {
      TargetToks(list[1..], post);
    }
  }

  lemma {:induction false} ItemToks(items: seq<Item>, post: seq<Tok>)
    requires LegalItems(items) && LegalToks(post)
    ensures LegalToks(OfItems(items, post))
  {
    if items != [] {
      ItemToks(items[1..], post);
    }
  }

  lemma {:induction false} UnitToks(x: Unit, post: seq<Tok>)
    requires LegalUnit(x) && LegalToks(post)
    ensures LegalToks(OfUnit(x, post))
    decreases x
  {
    match x
    case Simple(items) =>
      ItemToks(items, post);
    case Group(line, list) =>
      TargetToks(list, post);
      ScriptToks(line, [Sym(')')] + OfTargets(list, post));
  }

  lemma {:induction false} PipesToks(x: Pipes, post: seq<Tok>)
    requires LegalPipes(x) && LegalToks(post)
    ensures LegalToks(OfPipes(x, post))
    decreases x
  {
    match x
    case Last(u) =>
      UnitToks(u, post);
    case More(u, rest) =>
      PipesToks(rest, post);
      UnitToks(u, [Sym('|')] + OfPipes(rest, post));
  }

  lemma {:induction false} AmpsToks(n: nat, post: seq<Tok>)
    requires LegalToks(post)
    ensures LegalToks(Amps(n, post))
  {
    if n > 0 {
      AmpsToks(n - 1, post);
    }
  }

  lemma {:induction false} ScriptToks(x: Script, post: seq<Tok>)
    requires LegalScript(x) && LegalToks(post)
    ensures LegalToks(OfScript(x, post))
    decreases x
  {
    if x.Then? {
      ScriptToks(x.rest, post);
    }
    var after := if x.End? then post else [Sym(';')] + OfScript(x.rest, post);
    AmpsToks(x.backs, after);
    PipesToks(x.pipes, Amps(x.backs, after));
  }

  /** parsecmd reads every command line, however spaced, as what it means. */
  lemma ScriptRead(x: Script, lead: string, gaps: seq<string>)
    requires LegalScript(x) && Blank(lead) && Parts(Tokens(x), gaps)
    ensures Command(lead + Text(Tokens(x), gaps)) == Ok(Meaning(x), [])
  {
    hide Toks, LegalScript, Meaning, OfScript;
    ScriptToks(x, []);
    TextRead(Tokens(x), lead, gaps);
    var u := lead + Text(Tokens(x), gaps);
    assert Writes(x, Meaning(x), Toks(u));
    ParsesExactly(u, Meaning(x));
  }

  /** No text can be read in two ways. */
  lemma Unambiguous(x: Script, y: Script)
    requires LegalScript(x) && LegalScript(y) && Tokens(x) == Tokens(y)
    ensures Meaning(x) == Meaning(y)
  {
    hide LegalScript, Meaning, Tokens;
    var gaps := seq(|Tokens(x)|, _ => " ");
    ScriptRead(x, "", gaps);
    ScriptRead(y, "", gaps);
  }

  // ---------------------------------------------------------------- the fewest parentheses

  function Size(t: Tree): nat {
    match t
    case Exec(_) => 0
    case Redir(c, _) => Size(c) + 1
    case Pipe(l, r) => Size(l) + Size(r) + 1
    case List(l, r) => Size(l) + Size(r) + 1
    case Back(c) => Size(c) + 1
  }

  /** The command without its outer redirections, and those, the outermost last. */
  function Bare(t: Tree): (c: Tree)
    ensures !c.Redir? && if t.Redir? then Size(c) < Size(t) else c == t
  {
    if t.Redir? then Bare(t.cmd) else t
  }

  function Around(t: Tree): seq<Target> {
    if t.Redir? then Around(t.cmd) + [t.to] else []
  }

  /** The command without its outer &, and how many there are. */
  function Front(t: Tree): (c: Tree)
    ensures !c.Back? && if t.Back? then Size(c) < Size(t) else c == t
  {
    if t.Back? then Front(t.cmd) else t
  }

  function Behind(t: Tree): nat {
    if t.Back? then Behind(t.cmd) + 1 else 0
  }

  function AsWords(args: seq<string>): seq<Item> {
    if args == [] then [] else [Word(args[0])] + AsWords(args[1..])
  }

  /** Which of the three functions below goes on to which with the same tree. */
  function Rank(t: Tree, script: nat, pipes: nat, unit: nat): nat {
    if t.Pipe? then pipes else if t.Exec? || t.Redir? then unit else script
  }

  /** A tree as a command of a pipeline, as a pipeline, and as a line. */
  function UnitOf(t: Tree): Unit
    decreases Size(t), Rank(t, 1, 2, 0)
  {
    var c := Bare(t);
    if c.Exec? then Simple(AsWords(c.args) + AsItems(Around(t))) else Group(ScriptOf(c), Around(t))
  }

  function PipesOf(t: Tree): Pipes
    decreases Size(t), Rank(t, 2, 0, 1)
  {
    if t.Pipe? then More(UnitOf(t.left), PipesOf(t.right)) else Last(UnitOf(t))
  }

  function ScriptOf(t: Tree): Script
    decreases Size(t), Rank(t, 0, 1, 2)
  {
    if t.List? then Then(PipesOf(Front(t.left)), Behind(t.left), ScriptOf(t.right))
    else End(PipesOf(Front(t)), Behind(t))
  }

  lemma {:induction false} BareAround(t: Tree)
    ensures Wrap(Bare(t), Around(t)) == t
    ensures Legal(t) ==> Legal(Bare(t)) && LegalTargets(Around(t))
  {
    if t.Redir? {
      BareAround(t.cmd);
      WrapSnoc(Bare(t), Around(t.cmd), t.to);
    }
  }

  lemma {:induction false} FrontBehind(t: Tree)
    ensures Backed(Front(t), Behind(t)) == t && (Legal(t) ==> Legal(Front(t)))
  {
    if t.Back? {
      FrontBehind(t.cmd);
    }
  }

  lemma {:induction false} WordItems(args: seq<string>, list: seq<Target>)
    requires LegalTargets(list) && forall i :: 0 <= i < |args| ==> LegalWord(args[i])
    ensures var items := AsWords(args) + AsItems(list);
      LegalItems(items) && WordsOf(items) == args && TargetsOf(items) == list
    decreases |args|
  {
    var items := AsWords(args) + AsItems(list);
    if args == [] {
      ItemsInFront(list, [], []);
      assert items == AsItems(list) + [] && list + [] == list;
    } else {
      WordItems(args[1..], list);
      assert items[1..] == AsWords(args[1..]) + AsItems(list);
    }
  }

  lemma {:induction false} UnitOfMeans(t: Tree)
    requires Legal(t)
    ensures LegalUnit(UnitOf(t)) && UnitMeaning(UnitOf(t)) == t
    decreases Size(t), Rank(t, 1, 2, 0)
  {
    var c := Bare(t);
    BareAround(t);
    if c.Exec? {
      WordItems(c.args, Around(t));
    } else {
      ScriptOfMeans(c);
    }
  }

  lemma {:induction false} PipesOfMeans(t: Tree)
    requires Legal(t)
    ensures LegalPipes(PipesOf(t)) && PipesMeaning(PipesOf(t)) == t
    decreases Size(t), Rank(t, 2, 0, 1)
  {
    if t.Pipe? {
      UnitOfMeans(t.left);
      PipesOfMeans(t.right);
    } else {
      UnitOfMeans(t);
    }
  }

  /** Every command can be written. */
  lemma {:induction false} ScriptOfMeans(t: Tree)
    requires Legal(t)
    ensures LegalScript(ScriptOf(t)) && Meaning(ScriptOf(t)) == t
    decreases Size(t), Rank(t, 0, 1, 2)
  {
    if t.List? {
      FrontBehind(t.left);
      PipesOfMeans(Front(t.left));
      ScriptOfMeans(t.right);
    } else {
      FrontBehind(t);
      PipesOfMeans(Front(t));
    }
  }

  // How many parentheses there are.

  function UnitGroups(x: Unit): nat {
    if x.Simple? then 0 else 1 + Groups(x.line)
  }

  function PipesGroups(x: Pipes): nat {
    UnitGroups(x.unit) + if x.Last? then 0 else PipesGroups(x.rest)
  }

  function Groups(x: Script): nat {
    PipesGroups(x.pipes) + if x.End? then 0 else Groups(x.rest)
  }

  /** Redirections outside, and &, take no parentheses of their own. */
  lemma {:induction false} BareWrap(c: Tree, list: seq<Target>)
    ensures Bare(Wrap(c, list)) == Bare(c)
    decreases |list|
  {
    if list != [] {
      BareWrap(Redir(c, list[0]), list[1..]);
    }
  }

  lemma {:induction false} FrontBacked(c: Tree, n: nat)
    ensures Front(Backed(c, n)) == Front(c)
  {
    if n > 0 {
      FrontBacked(c, n - 1);
    }
  }

  /** As a whole line a command needs no more parentheses than as a part of one. */
  lemma LineIsFree(t: Tree)
    ensures PipesGroups(PipesOf(t)) <= UnitGroups(UnitOf(t))
    ensures PipesGroups(PipesOf(Front(t))) <= PipesGroups(PipesOf(t))
    ensures Groups(ScriptOf(t)) <= PipesGroups(PipesOf(t))
    ensures Groups(ScriptOf(Bare(t))) <= Groups(ScriptOf(t))
  {
  }

  lemma {:induction false} FewestUnit(x: Unit)
    ensures UnitGroups(UnitOf(UnitMeaning(x))) <= UnitGroups(x)
    decreases x
  {
    match x
    case Simple(items) =>
      BareWrap(Exec(WordsOf(items)), TargetsOf(items));
    case Group(line, list) =>
      FewestScript(line);
      BareWrap(Meaning(line), list);
      LineIsFree(Meaning(line));
  }

  lemma {:induction false} FewestPipes(x: Pipes)
    ensures PipesGroups(PipesOf(PipesMeaning(x))) <= PipesGroups(x)
    decreases x
  {
    FewestUnit(x.unit);
    match x
    case Last(u) =>
      LineIsFree(PipesMeaning(x));
    case More(_, rest) =>
      FewestPipes(rest);
  }

  /** Among all ways to write a command, ScriptOf's has the fewest parentheses. */
  lemma {:induction false} FewestScript(x: Script)
    ensures Groups(ScriptOf(Meaning(x))) <= Groups(x)
    decreases x
  {
    var c := PipesMeaning(x.pipes);
    FewestPipes(x.pipes);
    FrontBacked(c, x.backs);
    LineIsFree(c);
    if x.Then? {
      FewestScript(x.rest);
    }
  }

  /** parsecmd reads every command written with the fewest parentheses. */
  lemma FewestRead(t: Tree, lead: string, gaps: seq<string>)
    requires Legal(t) && Blank(lead) && Parts(Tokens(ScriptOf(t)), gaps)
    ensures Command(lead + Text(Tokens(ScriptOf(t)), gaps)) == Ok(t, [])
    ensures forall x :: LegalScript(x) && Meaning(x) == t ==> Groups(ScriptOf(t)) <= Groups(x)
  {
    ScriptOfMeans(t);
    ScriptRead(ScriptOf(t), lead, gaps);
    forall x | LegalScript(x) && Meaning(x) == t ensures Groups(ScriptOf(t)) <= Groups(x) {
      FewestScript(x);
    }
  }
}
