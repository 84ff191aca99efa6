/** The shell's language (user/sh.c): tokens, command trees, what the parser
    makes of a line, and a printer whose output parses back to the same tree. */
module ShellSyntax {

  const MAXARGS: nat := 10

  /** < opens for reading, > creates and truncates, >> creates. */
  datatype Kind = Input | Output | Append

  /** A command tree over words of type W. */
  datatype Cmd<W> =
    | Exec(argv: seq<W>)
    | Redir(cmd: Cmd<W>, file: W, kind: Kind)
    | Pipe(left: Cmd<W>, right: Cmd<W>)
    | List(left: Cmd<W>, right: Cmd<W>)
    | Back(cmd: Cmd<W>)

  predicate Ws(c: char) {
    c == ' ' || c == '\t' || c == '\r' || c == '\n' || c == 11 as char
  }

  predicate Symbol(c: char) {
    c == '<' || c == '|' || c == '>' || c == '&' || c == ';' || c == '(' || c == ')'
  }

  predicate WordChar(c: char) {
    !Ws(c) && !Symbol(c)
  }

  function SkipWs(s: string): (r: string)
    ensures |r| <= |s| && (r == [] || !Ws(r[0]))
  {
    if s != [] && Ws(s[0]) then SkipWs(s[1..]) else s
  }

  function WordLen(s: string): (n: nat)
    ensures n <= |s| && (s != [] && WordChar(s[0]) ==> n > 0)
  {
    if s == [] || !WordChar(s[0]) then 0 else 1 + WordLen(s[1..])
  }

  /** What gettoken returns: 0 at the end, a symbol, '+' for >>, or a word. */
  datatype Tok = End | Sym(c: char) | Plus | Word(w: string)

  /** gettoken: the next token, and what follows it past white space. */
  function Token(s: string): (r: (Tok, string))
    ensures |r.1| <= |s| && (SkipWs(s) != [] ==> |r.1| < |s|) && (r.0.End? <==> SkipWs(s) == [])
  {
    var t := SkipWs(s);
    if t == [] then (End, [])
    else if t[0] == '>' then
      if |t| > 1 && t[1] == '>' then (Plus, SkipWs(t[2..])) else (Sym('>'), SkipWs(t[1..]))
    else if Symbol(t[0]) then (Sym(t[0]), SkipWs(t[1..]))
    else (Word(t[..WordLen(t)]), SkipWs(t[WordLen(t)..]))
  }

  /** peek: does the next token start with one of these? */
  predicate Peek(s: string, toks: string) {
    SkipWs(s) != [] && SkipWs(s)[0] in toks
  }

  datatype Result<T> = Ok(value: T, rest: string) | Panic

  /** parseredirs: the redirections in front. */
  function ParseRedirs(s: string): (r: Result<seq<(string, Kind)>>)
    ensures r.Ok? ==> |r.rest| <= |s|
    decreases |s|
  {
    if !Peek(s, "<>") then Ok([], SkipWs(s))
    else
      var (op, s1) := Token(s);
      var (file, s2) := Token(s1);
      if !file.Word? then Panic
      else
        var more := ParseRedirs(s2);
        if more.Panic? then Panic
        else
          var kind := if op == Sym('<') then Input else if op == Plus then Append else Output;
          Ok([(file.w, kind)] + more.value, more.rest)
  }

  function Wrap<W>(c: Cmd<W>, rs: seq<(W, Kind)>): Cmd<W>
    decreases |rs|
  {
    if rs == [] then c else Wrap(Redir(c, rs[0].0, rs[0].1), rs[1..])
  }

  /** parseexec's loop: words, each followed by redirections. */
  function ParseArgs(s: string, n: nat): (r: Result<(seq<string>, seq<(string, Kind)>)>)
    ensures r.Ok? ==> |r.rest| <= |s|
    decreases |s|
  {
    if Peek(s, "|)&;") || SkipWs(s) == [] then Ok(([], []), SkipWs(s))
    else
      var (t, s1) := Token(s);
      if !t.Word? || n + 1 >= MAXARGS then Panic
      else
        var rs := ParseRedirs(s1);
        if rs.Panic? then Panic
        else
          var more := ParseArgs(rs.rest, n + 1);
          if more.Panic? then Panic
          else Ok(([t.w] + more.value.0, rs.value + more.value.1), more.rest)
  }

  function ParseExec(s: string): (r: Result<Cmd<string>>)
    ensures r.Ok? ==> |r.rest| <= |s|
    decreases |s|, 2
  {
    if Peek(s, "(") then ParseBlock(s)
    else
      var rs := ParseRedirs(s);
      if rs.Panic? then Panic
      else
        var more := ParseArgs(rs.rest, 0);
        if more.Panic? then Panic
        else Ok(Wrap(Exec(more.value.0), rs.value + more.value.1), more.rest)
  }

  function ParseBlock(s: string): (r: Result<Cmd<string>>)
    ensures r.Ok? ==> |r.rest| <= |s|
    decreases |s|, 1
  {
    if !Peek(s, "(") then Panic
    else
      var line := ParseLine(Token(s).1);
      if line.Panic? || !Peek(line.rest, ")") then Panic
      else
        var rs := ParseRedirs(Token(line.rest).1);
        if rs.Panic? then Panic else Ok(Wrap(line.value, rs.value), rs.rest)
  }

  function ParsePipe(s: string): (r: Result<Cmd<string>>)
    ensures r.Ok? ==> |r.rest| <= |s|
    decreases |s|, 3
  {
    var e := ParseExec(s);
    if e.Panic? then Panic
    else if !Peek(e.rest, "|") then Ok(e.value, SkipWs(e.rest))
    else
      var p := ParsePipe(Token(e.rest).1);
      if p.Panic? then Panic else Ok(Pipe(e.value, p.value), p.rest)
  }

  /** parseline's loop over &. */
  function Backs(c: Cmd<string>, s: string): (r: (Cmd<string>, string))
    ensures |r.1| <= |s|
    decreases |s|
  {
    if Peek(s, "&") then Backs(Back(c), Token(s).1) else (c, SkipWs(s))
  }

  function ParseLine(s: string): (r: Result<Cmd<string>>)
    ensures r.Ok? ==> |r.rest| <= |s|
    decreases |s|, 4
  {
    var p := ParsePipe(s);
    if p.Panic? then Panic
    else
      var (c, s1) := Backs(p.value, p.rest);
      if !Peek(s1, ";") then Ok(c, SkipWs(s1))
      else
        var l := ParseLine(Token(s1).1);
        if l.Panic? then Panic else Ok(List(c, l.value), l.rest)
  }

  /** parsecmd: the whole line, with nothing left over. */
  function ParseCmd(s: string): (r: Result<Cmd<string>>) {
    var l := ParseLine(s);
    if l.Panic? || SkipWs(l.rest) != [] then Panic else Ok(l.value, [])
  }

  // ---- printing ----

  predicate ValidWord(w: string) {
    w != [] && forall i :: 0 <= i < |w| ==> WordChar(w[i])
  }

  /** A tree the shell can express: words it can read, and fewer than MAXARGS
      of them in a command. */
  predicate WellFormed(t: Cmd<string>) {
    match t
    case Exec(argv) => |argv| < MAXARGS && forall i :: 0 <= i < |argv| ==> ValidWord(argv[i])
    case Redir(c, f, _) => ValidWord(f) && WellFormed(c)
    case Pipe(l, r) => WellFormed(l) && WellFormed(r)
    case List(l, r) => WellFormed(l) && WellFormed(r)
    case Back(c) => WellFormed(c)
  }

  function PrintOp(k: Kind): string {
    match k
    case Input => "< "
    case Output => "> "
    case Append => ">> "
  }

  function PrintWords(ws: seq<string>): string {
    if ws == [] then "" else ws[0] + " " + PrintWords(ws[1..])
  }

  function PrintRedirs(rs: seq<(string, Kind)>): string {
    if rs == [] then "" else PrintOp(rs[0].1) + (rs[0].0 + " ") + PrintRedirs(rs[1..])
  }

  /** The command under a tree's redirections. */
  function Bare<W>(t: Cmd<W>): (b: Cmd<W>)
    ensures !b.Redir? && (t.Redir? ==> b < t) && (!t.Redir? ==> b == t)
  {
    if t.Redir? then Bare(t.cmd) else t
  }

  /** A tree's redirections, innermost first. */
  function Redirs<W>(t: Cmd<W>): seq<(W, Kind)> {
    if t.Redir? then Redirs(t.cmd) + [(t.file, t.kind)] else []
  }

  /** The order in which the four printers below hand a tree on, by its kind:
      each kind has one printer that takes it apart. */
  function Rank<W>(t: Cmd<W>, fromLine: nat): nat {
    var first := if t.List? then 1 else if t.Back? then 2 else if t.Pipe? then 3 else 4;
    (first + 4 - fromLine - 1) % 4
  }

  /** Parentheses go where a list, pipe or background command stands for a
      simple one. */
  function PrintExec(t: Cmd<string>): string
    decreases t, Rank(t, 3)
  {
    if t.Exec? then PrintWords(t.argv)
    else if Bare(t).Exec? then PrintWords(Bare(t).argv) + PrintRedirs(Redirs(t))
    else "( " + PrintLine(Bare(t)) + ") " + PrintRedirs(Redirs(t))
  }

  function PrintPipe(t: Cmd<string>): string
    decreases t, Rank(t, 2)
  {
    if t.Pipe? then PrintExec(t.left) + ("| " + PrintPipe(t.right)) else PrintExec(t)
  }

  function PrintBacks(t: Cmd<string>): string
    decreases t, Rank(t, 1)
  {
    if t.Back? then PrintBacks(t.cmd) + "& " else PrintPipe(t)
  }

  function PrintLine(t: Cmd<string>): string
    decreases t, Rank(t, 0)
  {
    if t.List? then PrintBacks(t.left) + ("; " + PrintLine(t.right)) else PrintBacks(t)
  }

  // ---- tokens read back ----

  lemma {:induction false} WordLenOf(w: string, rest: string)
    requires ValidWord(w) && rest != [] && !WordChar(rest[0])
    ensures WordLen(w + rest) == |w|
  {
    if |w| == 1 {
      assert (w + rest)[1..] == rest;
    } else {
      assert (w + rest)[1..] == w[1..] + rest;
      WordLenOf(w[1..], rest);
    }
  }

  lemma TokenWord(w: string, rest: string)
    requires ValidWord(w)
    ensures Token(w + " " + rest) == (Word(w), SkipWs(rest)) && SkipWs(w + " " + rest) == w + " " + rest
  {
    var s := w + " " + rest;
    assert s == w + (" " + rest) && WordChar(s[0]);
    WordLenOf(w, " " + rest);
    assert s[..|w|] == w && s[|w|..] == " " + rest;
    assert (" " + rest)[1..] == rest;
  }

  lemma TokenSym(c: char, rest: string)
    requires Symbol(c)
    ensures Token([c] + " " + rest) == (Sym(c), SkipWs(rest)) && SkipWs([c] + " " + rest) == [c] + " " + rest
  {
  }

  lemma SkipTwice(s: string)
    ensures SkipWs(SkipWs(s)) == SkipWs(s)
  {
  }
}
