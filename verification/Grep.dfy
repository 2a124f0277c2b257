/**
 The pattern matcher and the line loop of user/grep.c.

 The matcher walks the pattern and the text by hand; here it is proved against a
 declarative reading of the pattern as a list of items, each of which denotes a
 set of strings.
 */
module Grep {

  /** A C string: the characters before the terminating NUL. */
  type CString = s: seq<char> | forall i :: 0 <= i < |s| ==> s[i] != '\0'

  /** Reading a C string at an index at or before its terminator. */
  function At(s: CString, i: nat): char {
    if i < |s| then s[i] else '\0'
  }

  // ---------------------------------------------------------------- the language of a pattern

  datatype Item = One(c: char) | Many(c: char)

  /** What a pattern without its leading ^ says: items in order, and whether it must reach the end. */
  datatype Pattern = Pattern(items: seq<Item>, toEnd: bool)

  function Parse(re: CString): Pattern {
    if |re| == 0 then Pattern([], false)
    else if At(re, 1) == '*' then
      var rest := Parse(re[2..]);
      rest.(items := [Many(re[0])] + rest.items)
    else if re == "$" then Pattern([], true)
    else
      var rest := Parse(re[1..]);
      rest.(items := [One(re[0])] + rest.items)
  }

  predicate Fits(c: char, x: char) {
    c == '.' || c == x
  }

  predicate AllFit(c: char, w: seq<char>) {
    forall i :: 0 <= i < |w| ==> Fits(c, w[i])
  }

  predicate InItem(item: Item, w: seq<char>) {
    match item
    case One(c) => |w| == 1 && Fits(c, w[0])
    case Many(c) => AllFit(c, w)
  }

  function Flatten(pieces: seq<seq<char>>): seq<char> {
    if pieces == [] then [] else pieces[0] + Flatten(pieces[1..])
  }

  ghost predicate Splits(items: seq<Item>, w: seq<char>, pieces: seq<seq<char>>) {
    && |pieces| == |items|
    && Flatten(pieces) == w
    && forall k :: 0 <= k < |items| ==> InItem(items[k], pieces[k])
  }

  /** w is a concatenation of one piece for every item. */
  ghost predicate InLanguage(items: seq<Item>, w: seq<char>) {
    exists pieces :: Splits(items, w, pieces)
  }

  /** Some prefix of text is in the language; the whole of it when the pattern ends in $. */
  ghost predicate PrefixUpTo(p: Pattern, text: seq<char>, j: nat) {
    j <= |text| && (p.toEnd ==> j == |text|) && InLanguage(p.items, text[..j])
  }

  ghost predicate MatchesHere(re: CString, text: seq<char>) {
    exists j: nat :: PrefixUpTo(Parse(re), text, j)
  }

  ghost predicate MatchesStar(c: char, re: CString, text: seq<char>) {
    exists k: nat :: k <= |text| && AllFit(c, text[..k]) && MatchesHere(re, text[k..])
  }

  /** The documented meaning of grep's match: some substring, subject to the two anchors. */
  ghost predicate Matches(re: CString, text: seq<char>) {
    var anchored := At(re, 0) == '^';
    var p := Parse(if anchored then re[1..] else re);
    exists i: nat, j: nat ::
      && i <= j <= |text|
      && (anchored ==> i == 0)
      && (p.toEnd ==> j == |text|)
      && InLanguage(p.items, text[i..j])
  }

  // ---------------------------------------------------------------- unfolding the language

  lemma InLanguageNil(w: seq<char>)
    ensures InLanguage([], w) <==> w == []
  {
    if w == [] {
      assert Splits([], w, []);
    }
  }

  lemma InLanguageOne(c: char, rest: seq<Item>, w: seq<char>)
    ensures InLanguage([One(c)] + rest, w) <==> |w| > 0 && Fits(c, w[0]) && InLanguage(rest, w[1..])
  {
    var items := [One(c)] + rest;
    if InLanguage(items, w) {
      var pieces :| Splits(items, w, pieces);
      assert InItem(items[0], pieces[0]);
      assert forall k :: 0 <= k < |rest| ==> rest[k] == items[k + 1];
      assert Splits(rest, w[1..], pieces[1..]);
    }
    if |w| > 0 && Fits(c, w[0]) && InLanguage(rest, w[1..]) {
      var pieces :| Splits(rest, w[1..], pieces);
      assert ([w[..1]] + pieces)[1..] == pieces;
      assert Splits(items, w, [w[..1]] + pieces);
    }
  }

  lemma InLanguageMany(c: char, rest: seq<Item>, w: seq<char>)
    ensures InLanguage([Many(c)] + rest, w)
       <==> exists k: nat :: k <= |w| && AllFit(c, w[..k]) && InLanguage(rest, w[k..])
  {
    var items := [Many(c)] + rest;
    if InLanguage(items, w) {
      var pieces :| Splits(items, w, pieces);
      var k := |pieces[0]|;
      assert InItem(items[0], pieces[0]);
      assert w[..k] == pieces[0] && w[k..] == Flatten(pieces[1..]);
      assert forall k :: 0 <= k < |rest| ==> rest[k] == items[k + 1];
      assert Splits(rest, w[k..], pieces[1..]);
    }
    if k: nat :| k <= |w| && AllFit(c, w[..k]) && InLanguage(rest, w[k..]) {
      var pieces :| Splits(rest, w[k..], pieces);
      assert ([w[..k]] + pieces)[1..] == pieces;
      assert w == w[..k] + w[k..];
      assert Splits(items, w, [w[..k]] + pieces);
    }
  }

  lemma HereEmpty(text: seq<char>)
    ensures MatchesHere([], text)
  {
    InLanguageNil(text[..0]);
    assert PrefixUpTo(Parse([]), text, 0);
  }

  lemma HereStar(re: CString, text: seq<char>)
    requires |re| > 0 && At(re, 1) == '*'
    ensures MatchesHere(re, text) <==> MatchesStar(re[0], re[2..], text)
  {
    var c, rest := re[0], Parse(re[2..]);
    if MatchesHere(re, text) {
      var j: nat :| PrefixUpTo(Parse(re), text, j);
      InLanguageMany(c, rest.items, text[..j]);
      var k: nat :| k <= j && AllFit(c, text[..j][..k]) && InLanguage(rest.items, text[..j][k..]);
      assert text[..j][..k] == text[..k] && text[..j][k..] == text[k..][..j - k];
      assert PrefixUpTo(rest, text[k..], j - k);
    }
    if MatchesStar(c, re[2..], text) {
      var k: nat :| k <= |text| && AllFit(c, text[..k]) && MatchesHere(re[2..], text[k..]);
      var j: nat :| PrefixUpTo(rest, text[k..], j);
      assert text[..k + j][..k] == text[..k] && text[..k + j][k..] == text[k..][..j];
      InLanguageMany(c, rest.items, text[..k + j]);
      assert PrefixUpTo(Parse(re), text, k + j);
    }
  }

  lemma HereEnd(text: seq<char>)
    ensures MatchesHere("$", text) <==> text == []
  {
    var p := Parse("$");
    assert p == Pattern([], true);
    InLanguageNil(text);
    if MatchesHere("$", text) {
      var j: nat :| PrefixUpTo(p, text, j);
      assert text[..j] == text;
    }
    if text == [] {
      assert text[..0] == text;
      assert PrefixUpTo(p, text, 0);
    }
  }

  lemma HereOne(re: CString, text: seq<char>)
    requires |re| > 0 && At(re, 1) != '*' && re != "$"
    ensures MatchesHere(re, text) <==> |text| > 0 && Fits(re[0], text[0]) && MatchesHere(re[1..], text[1..])
  {
    var rest := Parse(re[1..]);
    if MatchesHere(re, text) {
      var j: nat :| PrefixUpTo(Parse(re), text, j);
      InLanguageOne(re[0], rest.items, text[..j]);
      assert text[..j][1..] == text[1..][..j - 1];
      assert PrefixUpTo(rest, text[1..], j - 1);
    }
    if |text| > 0 && Fits(re[0], text[0]) && MatchesHere(re[1..], text[1..]) {
      var j: nat :| PrefixUpTo(rest, text[1..], j);
      assert text[..j + 1][1..] == text[1..][..j];
      InLanguageOne(re[0], rest.items, text[..j + 1]);
      assert PrefixUpTo(Parse(re), text, j + 1);
    }
  }

  lemma MatchesFrom(re: CString, text: seq<char>, i: nat)
    requires i <= |text|
    ensures var p := Parse(re);
      MatchesHere(re, text[i..])
      <==> exists j: nat :: i <= j <= |text| && (p.toEnd ==> j == |text|) && InLanguage(p.items, text[i..j])
  {
    var p := Parse(re);
    if MatchesHere(re, text[i..]) {
      var j: nat :| PrefixUpTo(p, text[i..], j);
      assert text[i..][..j] == text[i..i + j];
    }
    if j: nat :| i <= j <= |text| && (p.toEnd ==> j == |text|) && InLanguage(p.items, text[i..j]) {
      assert text[i..][..j - i] == text[i..j];
      assert PrefixUpTo(p, text[i..], j - i);
    }
  }

  // ---------------------------------------------------------------- the matcher

  method MatchHere(re: CString, text: CString) returns (r: bool)
    ensures r <==> MatchesHere(re, text)
    decreases 2 * |re|
  {
    if At(re, 0) == '\0' {
      HereEmpty(text);
      return true;
    }
    if At(re, 1) == '*' {
      HereStar(re, text);
      r := MatchStar(re[0], re[2..], text);
      return;
    }
    if re[0] == '$' && At(re, 1) == '\0' {
      assert re == "$";
      HereEnd(text);
      return At(text, 0) == '\0';
    }
    HereOne(re, text);
    if At(text, 0) != '\0' && (re[0] == '.' || re[0] == At(text, 0)) {
      r := MatchHere(re[1..], text[1..]);
      return;
    }
    return false;
  }

  method MatchStar(c: char, re: CString, text: CString) returns (r: bool)
    ensures r <==> MatchesStar(c, re, text)
    decreases 2 * |re| + 1
  {
    var t := 0;
    while true
      invariant t <= |text|
      invariant AllFit(c, text[..t])
      invariant forall k: nat :: k < t ==> !MatchesHere(re, text[k..])
      decreases |text| - t
    {
      r := MatchHere(re, text[t..]);
      if r {
        return true;
      }
      if !(t < |text| && (text[t] == c || c == '.')) {
        forall k: nat | t < k <= |text| ensures !AllFit(c, text[..k]) {
          assert text[..k][t] == text[t];
        }
        return false;
      }
      assert text[..t + 1] == text[..t] + [text[t]];
      t := t + 1;
    }
  }

  method Match(re: CString, text: CString) returns (r: bool)
    ensures r <==> Matches(re, text)
  {
    if At(re, 0) == '^' {
      MatchesFrom(re[1..], text, 0);
      assert text[0..] == text;
      r := MatchHere(re[1..], text);
      return;
    }
    var t := 0;
    while true
      invariant t <= |text|
      invariant forall k: nat :: k < t ==> !MatchesHere(re, text[k..])
      decreases |text| - t
    {
      r := MatchHere(re, text[t..]);
      MatchesFrom(re, text, t);
      if r {
        return true;
      }
      if t == |text| {
        forall i: nat, j: nat | i <= j <= |text| && (Parse(re).toEnd ==> j == |text|)
          ensures !InLanguage(Parse(re).items, text[i..j])
        {
          MatchesFrom(re, text, i);
          assert !MatchesHere(re, text[i..]);
        }
        return false;
      }
      t := t + 1;
    }
  }

  // ---------------------------------------------------------------- the line loop

  const BUFSIZE: nat := 1024

  predicate Plain(s: seq<char>) {
    '\n' !in s && '\0' !in s
  }

  /** First index at or after p that holds a newline or a NUL, or |s| when there is none. */
  function StopFrom(s: seq<char>, p: nat): (q: nat)
    requires p <= |s|
    ensures p <= q <= |s| && Plain(s[p..q]) && (q < |s| ==> s[q] == '\n' || s[q] == '\0')
    decreases |s| - p
  {
    if p == |s| || s[p] == '\n' || s[p] == '\0' then p
    else
      var q := StopFrom(s, p + 1);
      assert s[p..q] == [s[p]] + s[p + 1..q];
      q
  }

  /**
   What grep prints for an input, without mention of buffers or reads: every
   newline-terminated line that matches, up to the first line that has a NUL in it or
   cannot be held in the buffer together with its newline.
   */
  ghost function Selected(re: CString, input: seq<char>): seq<char>
    decreases |input|
  {
    var q := StopFrom(input, 0);
    if q == |input| || input[q] == '\0' || q + 1 > BUFSIZE - 1 then []
    else (if Matches(re, input[..q]) then input[..q + 1] else []) + Selected(re, input[q + 1..])
  }

  lemma StopIs(s: seq<char>, q: nat)
    requires q <= |s| && Plain(s[..q]) && (q == |s| || s[q] == '\n' || s[q] == '\0')
    ensures StopFrom(s, 0) == q
  {
  }

  lemma SelectedLine(re: CString, rest: seq<char>, q: nat)
    requires q < |rest| && q + 1 <= BUFSIZE - 1 && Plain(rest[..q]) && rest[q] == '\n'
    ensures Selected(re, rest)
         == (if Matches(re, rest[..q]) then rest[..q + 1] else []) + Selected(re, rest[q + 1..])
  {
    StopIs(rest, q);
  }

  /** No line of s is complete: it has no newline, or a NUL before the first. */
  predicate NoLine(s: seq<char>) {
    var q := StopFrom(s, 0);
    q < |s| ==> s[q] == '\0'
  }

  lemma SelectedNothing(re: CString, held: seq<char>, tail: seq<char>)
    requires NoLine(held) && (tail == [] || |held| == BUFSIZE - 1)
    ensures Selected(re, held + tail) == []
  {
    var q, rest := StopFrom(held, 0), held + tail;
    assert rest[..q] == held[..q];
    if q < |held| {
      StopIs(rest, q);
    }
  }

  /** strchr(p, '\n') on the buffer, with a NUL behind its text. */
  method StrChr(buf: array<char>, p: nat, m: nat, ghost text: seq<char>) returns (q: nat, found: bool)
    requires p <= m == |text| < buf.Length && buf[m] == '\0'
    requires forall i :: p <= i < m ==> buf[i] == text[i]
    ensures p <= q <= m && Plain(text[p..q])
    ensures if found then q < m && text[q] == '\n' else q == m || text[q] == '\0'
  {
    q := p;
    while buf[q] != '\0' && buf[q] != '\n'
      invariant p <= q <= m && Plain(text[p..q])
      decreases m - q
    {
      q := q + 1;
    }
    found := buf[q] == '\n';
  }

  /** The number of bytes a read returns: at least one unless nothing is left or nothing was asked for. */
  function ReadCount(want: nat, asked: nat, left: nat): (n: nat)
    ensures n <= asked && n <= left
    ensures n == 0 <==> asked == 0 || left == 0
  {
    var w := if want == 0 then 1 else want;
    if asked == 0 || left == 0 then 0
    else if w <= asked && w <= left then w
    else if asked <= left then asked
    else left
  }

  /** One line of the buffer: cut it with a NUL, match it, put the newline back to print it. */
  method OneLine(re: CString, buf: array<char>, p: nat, q: nat, ghost text: seq<char>) returns (out: seq<char>)
    requires p <= q < |text| < buf.Length && text[q] == '\n' && Plain(text[p..q])
    requires forall i :: p <= i < |text| ==> buf[i] == text[i]
    modifies buf
    ensures out == if Matches(re, text[p..q]) then text[p..q] + ['\n'] else []
    ensures forall i :: q < i < buf.Length ==> buf[i] == old(buf[i])
  {
    buf[q] := '\0';
    assert buf[p..q] == text[p..q];
    var line: CString := buf[p..q];
    out := [];
    var hit := Match(re, line);
    if hit {
      buf[q] := '\n';
      out := buf[p..q + 1];
      assert out == line + ['\n'];
    }
  }

  /**
   The inner loop: prints the complete lines of the buffered text and returns where
   the incomplete rest begins. `tail` is the input that has not been read yet.
   */
  method Scan(re: CString, buf: array<char>, m: nat, ghost text: seq<char>, ghost tail: seq<char>)
    returns (p: nat, out: seq<char>)
    requires m == |text| < buf.Length == BUFSIZE && buf[m] == '\0'
    requires buf[..m] == text
    modifies buf
    ensures p <= m && buf[p..m] == text[p..] && NoLine(text[p..])
    ensures Selected(re, text + tail) == out + Selected(re, text[p..] + tail)
  {
    hide Selected, Matches;
    p, out := 0, [];
    assert text[0..] == text;
    var q, found := StrChr(buf, p, m, text);
    while found
      invariant p <= q <= m && buf[m] == '\0'
      invariant forall i :: p <= i < m ==> buf[i] == text[i]
      invariant Plain(text[p..q])
      invariant if found then q < m && text[q] == '\n' else q == m || text[q] == '\0'
      invariant Selected(re, text + tail) == out + Selected(re, text[p..] + tail)
      decreases m - p, if found then 1 else 0
    {
      LineOfText(re, text, p, q, tail);
      var line := OneLine(re, buf, p, q, text);
      out := out + line;
      p := q + 1;
      q, found := StrChr(buf, p, m, text);
    }
    assert text[p..][..q - p] == text[p..q];
    StopIs(text[p..], q - p);
  }

  lemma LineOfText(re: CString, text: seq<char>, p: nat, q: nat, tail: seq<char>)
    requires p <= q < |text| < BUFSIZE && Plain(text[p..q]) && text[q] == '\n'
    ensures Selected(re, text[p..] + tail)
         == (if Matches(re, text[p..q]) then text[p..q] + ['\n'] else []) + Selected(re, text[q + 1..] + tail)
  {
    var rest := text[p..] + tail;
    assert rest[..q - p] == text[p..q];
    assert rest[..q - p + 1] == text[p..q] + ['\n'];
    assert rest[q - p + 1..] == text[q + 1..] + tail;
    SelectedLine(re, rest, q - p);
  }

  /** read(fd, buf + m, ...): appends input[fed..fed + n] to the buffer and NUL-terminates it. */
  method Fill(buf: array<char>, m: nat, bytes: seq<char>)
    requires m + |bytes| < buf.Length
    modifies buf
    ensures buf[..m + |bytes|] == old(buf[..m]) + bytes && buf[m + |bytes|] == '\0'
  {
    forall i | 0 <= i < |bytes| {
      buf[m + i] := bytes[i];
    }
    buf[m + |bytes|] := '\0';
  }

  /** memmove(buf, buf + p, m - p). */
  method Shift(buf: array<char>, p: nat, m: nat)
    requires p <= m <= buf.Length
    modifies buf
    ensures buf[..m - p] == old(buf[p..m])
  {
    var kept := buf[p..m];
    forall i | 0 <= i < m - p {
      buf[i] := kept[i];
    }
  }

  /**
   grep(): the input, which is what reads deliver until one returns nothing or fails, arrives
   in pieces whose sizes the environment picks (`chunk`, one choice for every read); the
   output is the same for every choice.
   */
  method Run(re: CString, input: seq<char>, chunk: nat -> nat) returns (out: seq<char>)
    ensures out == Selected(re, input)
  {
    hide Selected, Matches;
    var buf := new char[BUFSIZE](i => '\0');
    var m, fed, calls := 0, 0, 0;
    out := [];
    ghost var held: seq<char> := [];
    assert held + input[fed..] == input;
    while true
      invariant m == |held| < BUFSIZE && fed <= |input|
      invariant buf[..m] == held && NoLine(held)
      invariant out + Selected(re, held + input[fed..]) == Selected(re, input)
      decreases |input| - fed
    {
      var n := ReadCount(chunk(calls), BUFSIZE - m - 1, |input| - fed);
      calls := calls + 1;
      if n == 0 {
        SelectedNothing(re, held, input[fed..]);
        break;
      }
      assert held + input[fed..] == held + input[fed..fed + n] + input[fed + n..];
      var printed;
      m, printed, held := Round(re, buf, m, held, input[fed..fed + n], input[fed + n..]);
      out, fed := out + printed, fed + n;
    }
  }

  /** One read that returned something: take it in, print the complete lines, keep the rest. */
  method Round(re: CString, buf: array<char>, m: nat, ghost held: seq<char>, bytes: seq<char>, ghost tail: seq<char>)
    returns (m': nat, printed: seq<char>, ghost held': seq<char>)
    requires buf.Length == BUFSIZE && m == |held| && m + |bytes| < BUFSIZE && buf[..m] == held
    modifies buf
    ensures m' == |held'| < BUFSIZE && buf[..m'] == held' && NoLine(held')
    ensures Selected(re, held + bytes + tail) == printed + Selected(re, held' + tail)
  {
    hide Selected, Matches;
    Fill(buf, m, bytes);
    ghost var text := held + bytes;
    var p, out := Scan(re, buf, m + |bytes|, text, tail);
    Shift(buf, p, m + |bytes|);
    m', printed, held' := m + |bytes| - p, out, text[p..];
  }
}
