/** What the shell's parser (user/sh.c) makes of a line, told from the line's
    tokens alone: which lines it accepts, and that the tree has all of the line. */
module ShellTokens {
  import opened ShellSyntax
  import opened ShellRoundTrip

  /** gettoken, over and over. */
  function Tokens(s: string): seq<Tok>
    decreases |s|
  {
    if SkipWs(s) == [] then [] else [Token(s).0] + Tokens(Token(s).1)
  }

  predicate RedirOp(t: Tok) {
    t == Sym('<') || t == Sym('>') || t == Plus
  }

  function KindOf(t: Tok): Kind {
    if t == Sym('<') then Input else if t == Plus then Append else Output
  }

  // ---- tokens and peek ----

  lemma TokensSkip(s: string)
    ensures Tokens(SkipWs(s)) == Tokens(s)
  {
    SkipTwice(s);
    SkipSame(s);
  }

  /** peek asks for the next token. */
  lemma PeekToken(s: string)
    ensures Tokens(s) == [] <==> SkipWs(s) == []
    ensures Tokens(s) != [] ==> Tokens(s)[0] == Token(s).0 && Tokens(s)[1..] == Tokens(Token(s).1)
    ensures Peek(s, "<>") <==> Tokens(s) != [] && RedirOp(Tokens(s)[0])
    ensures Peek(s, "(") <==> Tokens(s) != [] && Tokens(s)[0] == Sym('(')
    ensures Peek(s, ")") <==> Tokens(s) != [] && Tokens(s)[0] == Sym(')')
    ensures Peek(s, "|") <==> Tokens(s) != [] && Tokens(s)[0] == Sym('|')
    ensures Peek(s, "&") <==> Tokens(s) != [] && Tokens(s)[0] == Sym('&')
    ensures Peek(s, ";") <==> Tokens(s) != [] && Tokens(s)[0] == Sym(';')
    ensures Peek(s, "|)&;") <==> Tokens(s) != [] && Stop(Tokens(s)[0])
  {
  }

  predicate Stop(t: Tok) {
    t == Sym('|') || t == Sym(')') || t == Sym('&') || t == Sym(';')
  }

  // ---- the tokens spell the line ----

  function NoWs(s: string): string {
    if s == [] then [] else (if Ws(s[0]) then [] else [s[0]]) + NoWs(s[1..])
  }

  function Spell(t: Tok): string {
    match t
    case End => ""
    case Sym(c) => [c]
    case Plus => ">>"
    case Word(w) => w
  }

  function Spelled(ts: seq<Tok>): string {
    if ts == [] then "" else Spell(ts[0]) + Spelled(ts[1..])
  }

  lemma {:induction false} SkipNoWs(s: string)
    ensures NoWs(SkipWs(s)) == NoWs(s)
  {
    if s != [] && Ws(s[0]) {
      SkipNoWs(s[1..]);
    }
  }

  lemma {:induction false} WordNoWs(s: string)
    ensures NoWs(s) == s[..WordLen(s)] + NoWs(s[WordLen(s)..])
  {
    if s != [] && WordChar(s[0]) {
      WordNoWs(s[1..]);
      assert s[..WordLen(s)] == [s[0]] + s[1..][..WordLen(s[1..])];
      assert s[WordLen(s)..] == s[1..][WordLen(s[1..])..];
    }
  }

  lemma TokenSpells(s: string)
    requires SkipWs(s) != []
    ensures NoWs(s) == Spell(Token(s).0) + NoWs(Token(s).1)
    ensures match Token(s).0
      case End => false
      case Sym(c) => Symbol(c)
      case Plus => true
      case Word(w) => ValidWord(w)
  {
    var t := SkipWs(s);
    SkipNoWs(s);
    TokenValid(s);
    if t[0] == '>' && |t| > 1 && t[1] == '>' {
      SkipNoWs(t[2..]);
      assert t[1..][1..] == t[2..];
    } else if Symbol(t[0]) {
      SkipNoWs(t[1..]);
    } else {
      WordNoWs(t);
      SkipNoWs(t[WordLen(t)..]);
    }
  }

  /** Nothing of the line is lost in its tokens but white space. */
  lemma {:induction false} TokensSpell(s: string)
    ensures Spelled(Tokens(s)) == NoWs(s)
    decreases |s|
  {
    if SkipWs(s) == [] {
      SkipNoWs(s);
    } else {
      TokenSpells(s);
      TokensSpell(Token(s).1);
      PeekToken(s);
    }
  }

  // ---- what a line and a tree hold ----

  datatype Item = Arg(w: string) | File(f: string, kind: Kind) | Op(c: char)

  /** The arguments of the line, or its redirections, with the pipes, semicolons
      and ampersands between them. */
  function LineItems(ts: seq<Tok>, files: bool): seq<Item> {
    if ts == [] then []
    else if RedirOp(ts[0]) && |ts| > 1 && ts[1].Word? then
      (if files then [File(ts[1].w, KindOf(ts[0]))] else []) + LineItems(ts[2..], files)
    else if ts[0].Word? then (if files then [] else [Arg(ts[0].w)]) + LineItems(ts[1..], files)
    else (if ts[0].Sym? && ts[0].c in "|;&" then [Op(ts[0].c)] else []) + LineItems(ts[1..], files)
  }

  function Args(ws: seq<string>): seq<Item> {
    if ws == [] then [] else [Arg(ws[0])] + Args(ws[1..])
  }

  function Files(rs: seq<(string, Kind)>): seq<Item> {
    if rs == [] then [] else [File(rs[0].0, rs[0].1)] + Files(rs[1..])
  }

  /** The same of a tree, from left to right; a command's redirections from the
      innermost on. */
  function TreeItems(t: Cmd<string>, files: bool): seq<Item> {
    match t
    case Exec(argv) => if files then [] else Args(argv)
    case Redir(c, f, k) => TreeItems(c, files) + if files then [File(f, k)] else []
    case Pipe(l, r) => TreeItems(l, files) + [Op('|')] + TreeItems(r, files)
    case List(l, r) => TreeItems(l, files) + [Op(';')] + TreeItems(r, files)
    case Back(c) => TreeItems(c, files) + [Op('&')]
  }

  function Picked(ws: seq<string>, rs: seq<(string, Kind)>, files: bool): seq<Item> {
    if files then Files(rs) else Args(ws)
  }

  lemma {:induction false} FilesJoin(a: seq<(string, Kind)>, b: seq<(string, Kind)>)
    ensures Files(a + b) == Files(a) + Files(b)
  {
    if a == [] {
      assert a + b == b;
    } else {
      FilesJoin(a[1..], b);
      assert (a + b)[1..] == a[1..] + b;
    }
  }

  lemma {:induction false} WrapItems(c: Cmd<string>, rs: seq<(string, Kind)>, files: bool)
    ensures TreeItems(Wrap(c, rs), files) == TreeItems(c, files) + if files then Files(rs) else []
    decreases |rs|
  {
    if rs != [] {
      WrapItems(Redir(c, rs[0].0, rs[0].1), rs[1..], files);
    }
  }

  lemma {:induction false} RedirsItems(s: string, files: bool)
    requires ParseRedirs(s).Ok?
    ensures var r := ParseRedirs(s);
      LineItems(Tokens(s), files) == (if files then Files(r.value) else []) + LineItems(Tokens(r.rest), files)
    decreases |s|
  {
    hide Token;
    PeekToken(s);
    if Peek(s, "<>") {
      PeekToken(Token(s).1);
      assert Tokens(s)[2..] == Tokens(s)[1..][1..];
      RedirsItems(Token(Token(s).1).1, files);
    } else {
      TokensSkip(s);
    }
  }

  lemma Join(a: seq<Item>, b: seq<Item>, c: seq<Item>)
    ensures a + (b + c) == (a + b) + c
  {
  }

  /** One token's share of the line. */
  lemma ItemsStep(s: string, files: bool)
    requires Tokens(s) != [] && !RedirOp(Tokens(s)[0])
    ensures LineItems(Tokens(s), files) ==
            (if Token(s).0.Word? then if files then [] else [Arg(Token(s).0.w)]
             else if Token(s).0.Sym? && Token(s).0.c in "|;&" then [Op(Token(s).0.c)] else [])
            + LineItems(Tokens(Token(s).1), files)
  {
    hide Token;
    PeekToken(s);
    hide Tokens;
  }

  lemma PickedMore(w: string, rs: seq<(string, Kind)>, ws: seq<string>, more: seq<(string, Kind)>, files: bool)
    ensures Picked([w] + ws, rs + more, files) ==
            (if files then [] else [Arg(w)]) + ((if files then Files(rs) else []) + Picked(ws, more, files))
  {
    FilesJoin(rs, more);
    assert ([w] + ws)[1..] == ws;
  }

  lemma {:induction false} ArgsItems(s: string, n: nat, files: bool)
    requires ParseArgs(s, n).Ok?
    ensures var r := ParseArgs(s, n);
      LineItems(Tokens(s), files) == Picked(r.value.0, r.value.1, files) + LineItems(Tokens(r.rest), files)
    decreases |s|
  {
    hide Token, ParseRedirs, Tokens, LineItems;
    PeekToken(s);
    if Peek(s, "|)&;") || SkipWs(s) == [] {
      TokensSkip(s);
    } else {
      hide Peek;
      var w, rs := Token(s).0.w, ParseRedirs(Token(s).1);
      var more := ParseArgs(rs.rest, n + 1);
      ItemsStep(s, files);
      RedirsItems(Token(s).1, files);
      ArgsItems(rs.rest, n + 1, files);
      PickedMore(w, rs.value, more.value.0, more.value.1, files);
      hide Picked;
      var a, b, c := if files then [] else [Arg(w)], if files then Files(rs.value) else [],
                     Picked(more.value.0, more.value.1, files);
      Join(b, c, LineItems(Tokens(more.rest), files));
      Join(a, b + c, LineItems(Tokens(more.rest), files));
    }
  }

  lemma {:induction false} ExecItems(s: string, files: bool)
    requires ParseExec(s).Ok?
    ensures var r := ParseExec(s);
      LineItems(Tokens(s), files) == TreeItems(r.value, files) + LineItems(Tokens(r.rest), files)
    decreases |s|, 2
  {
    hide Token, ParseRedirs, ParseArgs, Tokens, LineItems, Peek, ParseBlock;
    if Peek(s, "(") {
      BlockItems(s, files);
    } else {
      var rs := ParseRedirs(s);
      var more := ParseArgs(rs.rest, 0);
      RedirsItems(s, files);
      ArgsItems(rs.rest, 0, files);
      FilesJoin(rs.value, more.value.1);
      WrapItems(Exec(more.value.0), rs.value + more.value.1, files);
    }
  }

  lemma {:induction false} BlockItems(s: string, files: bool)
    requires ParseBlock(s).Ok?
    ensures var r := ParseBlock(s);
      LineItems(Tokens(s), files) == TreeItems(r.value, files) + LineItems(Tokens(r.rest), files)
    decreases |s|, 1
  {
    hide Token, ParseRedirs, Tokens, LineItems, TreeItems, ParsePipe;
    PeekToken(s);
    var line := ParseLine(Token(s).1);
    LineTree(Token(s).1, files);
    PeekToken(line.rest);
    hide Peek;
    var rs := ParseRedirs(Token(line.rest).1);
    ItemsStep(s, files);
    ItemsStep(line.rest, files);
    RedirsItems(Token(line.rest).1, files);
    WrapItems(line.value, rs.value, files);
    Join(TreeItems(line.value, files), if files then Files(rs.value) else [], LineItems(Tokens(rs.rest), files));
  }

  lemma {:induction false} PipeItems(s: string, files: bool)
    requires ParsePipe(s).Ok?
    ensures var r := ParsePipe(s);
      LineItems(Tokens(s), files) == TreeItems(r.value, files) + LineItems(Tokens(r.rest), files)
    decreases |s|, 3
  {
    hide Token, ParseExec, Tokens, LineItems;
    var e := ParseExec(s);
    ExecItems(s, files);
    PeekToken(e.rest);
    if Peek(e.rest, "|") {
      hide Peek;
      ItemsStep(e.rest, files);
      PipeItems(Token(e.rest).1, files);
    } else {
      TokensSkip(e.rest);
    }
  }

  lemma {:induction false} BacksItems(c: Cmd<string>, s: string, files: bool)
    ensures var r := Backs(c, s);
      TreeItems(c, files) + LineItems(Tokens(s), files) == TreeItems(r.0, files) + LineItems(Tokens(r.1), files)
    decreases |s|
  {
    hide Token, Tokens, LineItems;
    PeekToken(s);
    if Peek(s, "&") {
      hide Peek;
      ItemsStep(s, files);
      BacksItems(Back(c), Token(s).1, files);
    } else {
      TokensSkip(s);
    }
  }

  lemma {:induction false} LineTree(s: string, files: bool)
    requires ParseLine(s).Ok?
    ensures var r := ParseLine(s);
      LineItems(Tokens(s), files) == TreeItems(r.value, files) + LineItems(Tokens(r.rest), files)
    decreases |s|, 4
  {
    hide Token, ParsePipe, Backs, Tokens, LineItems;
    var p := ParsePipe(s);
    PipeItems(s, files);
    BacksItems(p.value, p.rest, files);
    var (c, s1) := Backs(p.value, p.rest);
    PeekToken(s1);
    if Peek(s1, ";") {
      hide Peek;
      ItemsStep(s1, files);
      LineTree(Token(s1).1, files);
      var l := ParseLine(Token(s1).1);
      Join(TreeItems(c, files), [Op(';')], TreeItems(l.value, files) + LineItems(Tokens(l.rest), files));
      Join(TreeItems(c, files) + [Op(';')], TreeItems(l.value, files), LineItems(Tokens(l.rest), files));
    } else {
      TokensSkip(s1);
    }
  }

  // ---- which lines are accepted ----

  /** Where in a line one is: before a command, in a simple one with n words so
      far, behind a closing parenthesis, or behind an ampersand. */
  datatype Place = Before | Words(n: nat) | Closed | Backed

  function Count(q: Place): nat {
    if q.Words? then q.n else 0
  }

  /** The lines of the language, read from left to right, with the number of
      parentheses that are open. */
  predicate Accepts(ts: seq<Tok>, q: Place, depth: nat) {
    if ts == [] then depth == 0
    else if ts[0].Word? then
      (q.Before? || q.Words?) && Count(q) + 1 < MAXARGS && Accepts(ts[1..], Words(Count(q) + 1), depth)
    else if RedirOp(ts[0]) then
      !q.Backed? && |ts| > 1 && ts[1].Word? && Accepts(ts[2..], if q.Before? then Words(0) else q, depth)
    else if ts[0] == Sym('(') then q.Before? && Accepts(ts[1..], Before, depth + 1)
    else if ts[0] == Sym(')') then depth > 0 && Accepts(ts[1..], Closed, depth - 1)
    else if ts[0] == Sym('|') then !q.Backed? && Accepts(ts[1..], Before, depth)
    else if ts[0] == Sym(';') then Accepts(ts[1..], Before, depth)
    else ts[0] == Sym('&') && Accepts(ts[1..], Backed, depth)
  }

  lemma TokenKinds(s: string)
    requires SkipWs(s) != []
    ensures var t := Token(s).0;
      t.Word? || RedirOp(t) || t == Sym('(') || Stop(t)
  {
  }

  lemma {:induction false} RedirsAccepted(s: string, q: Place, d: nat)
    requires q.Words? || q.Closed?
    ensures var r := ParseRedirs(s);
      Accepts(Tokens(s), q, d) <==> r.Ok? && Accepts(Tokens(r.rest), q, d)
    ensures ParseRedirs(s).Ok? ==> !Peek(ParseRedirs(s).rest, "<>")
    decreases |s|
  {
    hide Token;
    PeekToken(s);
    if Peek(s, "<>") {
      PeekToken(Token(s).1);
      TokenEnd(Token(s).1);
      assert |Tokens(s)| > 1 ==> Tokens(s)[2..] == Tokens(s)[1..][1..];
      if Token(Token(s).1).0.Word? {
        RedirsAccepted(Token(Token(s).1).1, q, d);
      }
    } else {
      TokensSkip(s);
      SkipTwice(s);
    }
  }

  lemma TokenEnd(s: string)
    ensures Token(s).0.End? <==> SkipWs(s) == []
  {
  }

  lemma {:induction false} ArgsAccepted(s: string, n: nat, d: nat)
    requires n < MAXARGS && !Peek(s, "<>")
    ensures var r := ParseArgs(s, n);
      Accepts(Tokens(s), Words(n), d) <==> r.Ok? && Accepts(Tokens(r.rest), Closed, d)
    ensures ParseArgs(s, n).Ok? ==> !Peek(ParseArgs(s, n).rest, "<>")
    decreases |s|
  {
    hide Token, ParseRedirs;
    PeekToken(s);
    if Peek(s, "|)&;") || SkipWs(s) == [] {
      TokensSkip(s);
      SkipTwice(s);
    } else {
      TokenKinds(s);
      if Token(s).0.Word? && n + 1 < MAXARGS {
        RedirsAccepted(Token(s).1, Words(n + 1), d);
        if ParseRedirs(Token(s).1).Ok? {
          ArgsAccepted(ParseRedirs(Token(s).1).rest, n + 1, d);
        }
      }
    }
  }

  /** Before a command that does not start with a parenthesis one is as good as in
      it. */
  lemma BeforeSame(ts: seq<Tok>, d: nat)
    requires ts == [] || ts[0] != Sym('(')
    ensures Accepts(ts, Before, d) <==> Accepts(ts, Words(0), d)
  {
  }

  /** What follows a line that has been read, when d parentheses are open. */
  predicate Closes(ts: seq<Tok>, d: nat) {
    if ts == [] then d == 0 else ts[0] == Sym(')') && d > 0 && Accepts(ts[1..], Closed, d - 1)
  }

  /** What follows a pipeline and its ampersands. */
  predicate Settles(ts: seq<Tok>, d: nat) {
    Closes(ts, d) || (ts != [] && ts[0] == Sym(';') && Accepts(ts[1..], Before, d))
  }

  lemma {:induction false} ExecAccepted(s: string, d: nat)
    ensures var r := ParseExec(s);
      Accepts(Tokens(s), Before, d) <==> r.Ok? && Accepts(Tokens(r.rest), Closed, d)
    ensures ParseExec(s).Ok? ==> !Peek(ParseExec(s).rest, "<>")
    decreases |s|, 2
  {
    hide Token, ParseRedirs, ParseArgs, Tokens, ParseBlock, Accepts;
    PeekToken(s);
    hide Peek;
    if Peek(s, "(") {
      BlockAccepted(s, d);
    } else {
      BeforeSame(Tokens(s), d);
      RedirsAccepted(s, Words(0), d);
      if ParseRedirs(s).Ok? {
        ArgsAccepted(ParseRedirs(s).rest, 0, d);
      }
    }
  }

  lemma AcceptsStep(s: string, q: Place, d: nat)
    requires Tokens(s) != []
    ensures var t, ts := Token(s).0, Tokens(Token(s).1);
      && (t == Sym('(') ==> (Accepts(Tokens(s), q, d) <==> q.Before? && Accepts(ts, Before, d + 1)))
      && (t == Sym(')') ==> (Accepts(Tokens(s), q, d) <==> d > 0 && Accepts(ts, Closed, d - 1)))
      && (t == Sym('|') ==> (Accepts(Tokens(s), q, d) <==> !q.Backed? && Accepts(ts, Before, d)))
      && (t == Sym(';') ==> (Accepts(Tokens(s), q, d) <==> Accepts(ts, Before, d)))
      && (t == Sym('&') ==> (Accepts(Tokens(s), q, d) <==> Accepts(ts, Backed, d)))
  {
    hide Token;
    PeekToken(s);
    hide Tokens;
  }

  lemma {:induction false} BlockAccepted(s: string, d: nat)
    requires Peek(s, "(")
    ensures var r := ParseBlock(s);
      Accepts(Tokens(s), Before, d) <==> r.Ok? && Accepts(Tokens(r.rest), Closed, d)
    ensures ParseBlock(s).Ok? ==> !Peek(ParseBlock(s).rest, "<>")
    decreases |s|, 1
  {
    hide Token, ParseRedirs, Tokens, ParsePipe, Accepts;
    PeekToken(s);
    hide Peek;
    AcceptsStep(s, Before, d);
    var line := ParseLine(Token(s).1);
    LineAccepted(Token(s).1, d + 1);
    if line.Ok? {
      PeekToken(line.rest);
      if Peek(line.rest, ")") {
        RedirsAccepted(Token(line.rest).1, Closed, d);
      }
    }
  }

  lemma {:induction false} PipeAccepted(s: string, d: nat)
    ensures var r := ParsePipe(s);
      Accepts(Tokens(s), Before, d) <==> r.Ok? && Accepts(Tokens(r.rest), Closed, d)
    ensures ParsePipe(s).Ok? ==> !Peek(ParsePipe(s).rest, "<>") && !Peek(ParsePipe(s).rest, "|")
    decreases |s|, 3
  {
    hide Token, ParseExec, Tokens, Accepts;
    var e := ParseExec(s);
    ExecAccepted(s, d);
    if e.Ok? {
      PeekToken(e.rest);
      SkipSame(e.rest);
      TokensSkip(e.rest);
      hide Peek;
      if Peek(e.rest, "|") {
        AcceptsStep(e.rest, Closed, d);
        PipeAccepted(Token(e.rest).1, d);
      }
    }
  }

  lemma {:induction false} BacksAccepted(c: Cmd<string>, s: string, q: Place, d: nat)
    requires q.Backed? || (q.Closed? && !Peek(s, "<>") && !Peek(s, "|"))
    ensures Accepts(Tokens(s), q, d) <==> Settles(Tokens(Backs(c, s).1), d)
    decreases |s|
  {
    hide Token, Tokens;
    PeekToken(s);
    if Peek(s, "&") {
      hide Accepts;
      AcceptsStep(s, q, d);
      BacksAccepted(Back(c), Token(s).1, Backed, d);
    } else {
      TokensSkip(s);
      hide Peek;
    }
  }

  lemma {:induction false} LineAccepted(s: string, d: nat)
    ensures var r := ParseLine(s);
      Accepts(Tokens(s), Before, d) <==> r.Ok? && Closes(Tokens(r.rest), d)
    decreases |s|, 4
  {
    hide Token, ParsePipe, Backs, Tokens, Accepts, Peek;
    var p := ParsePipe(s);
    PipeAccepted(s, d);
    if p.Ok? {
      BacksAccepted(p.value, p.rest, Closed, d);
      var s1 := Backs(p.value, p.rest).1;
      PeekToken(s1);
      TokensSkip(s1);
      if Peek(s1, ";") {
        LineAccepted(Token(s1).1, d);
      }
    }
  }

  /** The parser accepts exactly the lines of the language, and of a line that it
      accepts nothing is missing in the tree and nothing added: its arguments, and
      its redirections, with the pipes, semicolons and ampersands between them,
      are those of the line, in order. */
  lemma ParseExact(s: string)
    ensures ParseCmd(s).Ok? <==> Accepts(Tokens(s), Before, 0)
    ensures ParseCmd(s).Ok? ==> forall files: bool :: TreeItems(ParseCmd(s).value, files) == LineItems(Tokens(s), files)
  {
    hide Token, ParseLine, Accepts, TreeItems;
    LineAccepted(s, 0);
    var l := ParseLine(s);
    if l.Ok? {
      PeekToken(l.rest);
      if SkipWs(l.rest) == [] {
        forall files: bool ensures TreeItems(l.value, files) == LineItems(Tokens(s), files) {
          LineTree(s, files);
          assert LineItems(Tokens(l.rest), files) == [];
        }
      }
    }
  }
}
