/** Printing a command tree and parsing the line gives the tree back. */
module ShellRoundTrip {
  import opened ShellSyntax

  /** What follows ends a construct that these symbols end. */
  predicate Stops(s: string, toks: string) {
    SkipWs(s) == [] || SkipWs(s)[0] in toks
  }

  // ---- leading white space does not matter ----

  lemma SkipSame(s: string)
    ensures Token(SkipWs(s)) == Token(s) && forall toks :: Peek(SkipWs(s), toks) == Peek(s, toks)
  {
  }

  lemma RedirsSkip(s: string)
    ensures ParseRedirs(SkipWs(s)) == ParseRedirs(s)
  {
  }

  lemma ArgsSkip(s: string, n: nat)
    ensures ParseArgs(SkipWs(s), n) == ParseArgs(s, n)
  {
  }

  lemma ExecSkip(s: string)
    ensures ParseExec(SkipWs(s)) == ParseExec(s)
  {
    SkipSame(s);
    RedirsSkip(s);
  }

  lemma PipeSkip(s: string)
    ensures ParsePipe(SkipWs(s)) == ParsePipe(s)
  {
    ExecSkip(s);
  }

  lemma LineSkip(s: string)
    ensures ParseLine(SkipWs(s)) == ParseLine(s)
  {
    PipeSkip(s);
  }

  // ---- redirections and words ----

  predicate ValidFiles(rs: seq<(string, Kind)>) {
    forall i :: 0 <= i < |rs| ==> ValidWord(rs[i].0)
  }

  lemma OpBack(k: Kind, rest: string)
    ensures Peek(PrintOp(k) + rest, "<>")
    ensures Token(PrintOp(k) + rest) ==
            (if k == Append then Plus else if k == Input then Sym('<') else Sym('>'), SkipWs(rest))
  {
  }

  lemma {:induction false} RedirsBack(rs: seq<(string, Kind)>, rest: string)
    requires ValidFiles(rs) && !Peek(rest, "<>")
    ensures ParseRedirs(PrintRedirs(rs) + rest) == Ok(rs, SkipWs(rest))
  {
    hide Token, SkipWs, PrintOp, ParseRedirs;
    if rs == [] {
      assert PrintRedirs(rs) + rest == rest;
      RedirsEnd(rest);
    } else {
      var tail := PrintRedirs(rs[1..]) + rest;
      RedirsText(rs, rest);
      OpBack(rs[0].1, rs[0].0 + " " + tail);
      TokenWord(rs[0].0, tail);
      RedirsSkip(tail);
      RedirsBack(rs[1..], rest);
      RedirsTurn(PrintRedirs(rs) + rest);
      assert rs == [rs[0]] + rs[1..];
    }
  }

  lemma RedirsText(rs: seq<(string, Kind)>, rest: string)
    requires rs != []
    ensures PrintRedirs(rs) + rest == PrintOp(rs[0].1) + (rs[0].0 + " " + (PrintRedirs(rs[1..]) + rest))
  {
  }

  lemma RedirsEnd(s: string)
    requires !Peek(s, "<>")
    ensures ParseRedirs(s) == Ok([], SkipWs(s))
  {
  }

  /** parseredirs on a line that starts with a redirection. */
  lemma RedirsTurn(s: string)
    requires Peek(s, "<>")
    ensures var (op, s1) := Token(s); var (file, s2) := Token(s1);
      var more := ParseRedirs(s2);
      var kind := if op == Sym('<') then Input else if op == Plus then Append else Output;
      ParseRedirs(s) == if !file.Word? || more.Panic? then Panic else Ok([(file.w, kind)] + more.value, more.rest)
  {
  }

  lemma {:induction false} ArgsBack(ws: seq<string>, rs: seq<(string, Kind)>, rest: string, n: nat)
    requires ws != [] && n + |ws| < MAXARGS && ValidFiles(rs) && Stops(rest, "|)&;")
    requires forall i :: 0 <= i < |ws| ==> ValidWord(ws[i])
    ensures ParseArgs(PrintWords(ws) + (PrintRedirs(rs) + rest), n) == Ok((ws, rs), SkipWs(rest))
  {
    hide Token, PrintRedirs, ParseRedirs;
    var tail := PrintWords(ws[1..]) + (PrintRedirs(rs) + rest);
    var s := ws[0] + " " + tail;
    assert PrintWords(ws) + (PrintRedirs(rs) + rest) == s;
    TokenWord(ws[0], tail);
    RedirsSkip(tail);
    if |ws| == 1 {
      assert tail == PrintRedirs(rs) + rest;
      RedirsBack(rs, rest);
      ArgsNone(rest, n + 1);
      assert [ws[0]] + [] == ws && rs + [] == rs;
    } else {
      NoRedirs(ws[1..], PrintRedirs(rs) + rest);
      ArgsBack(ws[1..], rs, rest, n + 1);
      ArgsSkip(tail, n + 1);
      assert ws == [ws[0]] + ws[1..] && [] + rs == rs;
    }
  }

  lemma ArgsNone(rest: string, n: nat)
    requires Stops(rest, "|)&;")
    ensures ParseArgs(SkipWs(rest), n) == Ok(([], []), SkipWs(rest))
  {
  }

  lemma NoRedirs(ws: seq<string>, rest: string)
    requires ws != [] && ValidWord(ws[0])
    ensures ParseRedirs(PrintWords(ws) + rest) == Ok([], SkipWs(PrintWords(ws) + rest))
    ensures !Peek(PrintWords(ws) + rest, "(")
  {
  }

  lemma {:induction false} WrapMore<W>(c: Cmd<W>, rs: seq<(W, Kind)>, r: (W, Kind))
    ensures Wrap(c, rs + [r]) == Redir(Wrap(c, rs), r.0, r.1)
    decreases |rs|
  {
    if rs == [] {
      assert (rs + [r])[1..] == [];
    } else {
      assert (rs + [r])[1..] == rs[1..] + [r];
      WrapMore(Redir(c, rs[0].0, rs[0].1), rs[1..], r);
    }
  }

  /** A tree is its bare command under its redirections. */
  lemma {:induction false} WrapBare(t: Cmd<string>)
    requires WellFormed(t)
    ensures Wrap(Bare(t), Redirs(t)) == t && WellFormed(Bare(t)) && ValidFiles(Redirs(t))
  {
    if t.Redir? {
      WrapBare(t.cmd);
      WrapMore(Bare(t.cmd), Redirs(t.cmd), (t.file, t.kind));
    }
  }

  lemma SimpleBack(t: Cmd<string>, rest: string)
    requires WellFormed(t) && Bare(t).Exec? && Stops(rest, "|)&;")
    ensures ParseExec(PrintExec(t) + rest) == Ok(t, SkipWs(rest))
  {
    WrapBare(t);
    WordsBack(Bare(t).argv, Redirs(t), rest);
    if t.Exec? {
      assert PrintRedirs(Redirs(t)) + rest == rest;
    } else {
      assert PrintExec(t) + rest == PrintWords(Bare(t).argv) + (PrintRedirs(Redirs(t)) + rest);
    }
  }

  lemma WordsBack(ws: seq<string>, rs: seq<(string, Kind)>, rest: string)
    requires WellFormed(Exec(ws)) && ValidFiles(rs) && Stops(rest, "|)&;")
    ensures ParseExec(PrintWords(ws) + (PrintRedirs(rs) + rest)) == Ok(Wrap(Exec(ws), rs), SkipWs(rest))
  {
    hide Token, PrintRedirs, ParseRedirs, ParseArgs, ParseBlock, SkipWs;
    var s := PrintWords(ws) + (PrintRedirs(rs) + rest);
    if ws == [] {
      assert s == PrintRedirs(rs) + rest;
      RedirsBack(rs, rest);
      NoParen(rs, rest);
      ArgsNone(rest, 0);
      assert rs + [] == rs;
    } else {
      NoRedirs(ws, PrintRedirs(rs) + rest);
      ArgsBack(ws, rs, rest, 0);
      ArgsSkip(s, 0);
      assert [] + rs == rs;
    }
  }

  lemma NoParen(rs: seq<(string, Kind)>, rest: string)
    requires !Peek(rest, "(")
    ensures !Peek(PrintRedirs(rs) + rest, "(")
  {
    var s := PrintRedirs(rs) + rest;
    if rs == [] {
      assert s == rest;
    } else {
      assert s[0] == PrintOp(rs[0].1)[0];
      assert SkipWs(s) == s;
    }
  }

  // ---- blocks, pipes, lists ----

  lemma {:induction false} ExecBack(t: Cmd<string>, rest: string)
    requires WellFormed(t) && Stops(rest, "|)&;")
    ensures ParseExec(PrintExec(t) + rest) == Ok(t, SkipWs(rest))
    decreases t, Rank(t, 3)
  {
    if Bare(t).Exec? {
      SimpleBack(t, rest);
    } else {
      WrapBare(t);
      hide ParseExec, ParseLine, Token, PrintRedirs;
      var b, rs := Bare(t), Redirs(t);
      var tail := PrintRedirs(rs) + rest;
      LineBack(b, ") " + tail);
      assert PrintExec(t) + rest == "( " + (PrintLine(b) + (") " + tail));
      BlockBack(b, rs, rest);
    }
  }

  lemma BlockBack(b: Cmd<string>, rs: seq<(string, Kind)>, rest: string)
    requires ValidFiles(rs) && Stops(rest, "|)&;")
    requires var y := ") " + (PrintRedirs(rs) + rest); ParseLine(PrintLine(b) + y) == Ok(b, SkipWs(y))
    ensures ParseExec("( " + (PrintLine(b) + (") " + (PrintRedirs(rs) + rest)))) == Ok(Wrap(b, rs), SkipWs(rest))
  {
    hide Token, PrintRedirs, ParseRedirs, PrintLine, ParseLine;
    var tail := PrintRedirs(rs) + rest;
    var y := ") " + tail;
    var x := PrintLine(b) + y;
    TokenSym('(', x);
    assert "( " + x == ['('] + " " + x;
    LineSkip(x);
    TokenSym(')', tail);
    assert y == [')'] + " " + tail;
    SkipSame(y);
    RedirsSkip(tail);
    RedirsBack(rs, rest);
  }

  lemma {:induction false} PipeBack(t: Cmd<string>, rest: string)
    requires WellFormed(t) && Stops(rest, ")&;")
    ensures ParsePipe(PrintPipe(t) + rest) == Ok(t, SkipWs(rest))
    decreases t, Rank(t, 2)
  {
    hide Token, ParseExec, ParsePipe, PrintExec;
    if t.Pipe? {
      var y := PrintPipe(t.right) + rest;
      assert PrintPipe(t) + rest == PrintExec(t.left) + ("| " + y);
      assert "| " + y == ['|'] + " " + y;
      TokenSym('|', y);
      ExecBack(t.left, "| " + y);
      PipeBack(t.right, rest);
      PipeJoin(t.left, t.right, PrintExec(t.left) + ("| " + y), y, rest);
    } else {
      ExecBack(t, rest);
      PipeAlone(t, PrintExec(t) + rest, rest);
    }
  }

  lemma PipeJoin(l: Cmd<string>, r: Cmd<string>, s: string, y: string, rest: string)
    requires ParseExec(s) == Ok(l, SkipWs("| " + y)) && ParsePipe(y) == Ok(r, SkipWs(rest))
    ensures ParsePipe(s) == Ok(Pipe(l, r), SkipWs(rest))
  {
    hide ParseExec;
    assert "| " + y == ['|'] + " " + y;
    TokenSym('|', y);
    PipeSkip(y);
    SkipSame("| " + y);
  }

  lemma PipeAlone(t: Cmd<string>, s: string, rest: string)
    requires ParseExec(s) == Ok(t, SkipWs(rest)) && Stops(rest, ")&;")
    ensures ParsePipe(s) == Ok(t, SkipWs(rest))
  {
    hide ParseExec;
    SkipTwice(rest);
    SkipSame(rest);
  }

  lemma {:induction false} BacksBack(t: Cmd<string>, rest: string)
    requires WellFormed(t) && Stops(rest, ")&;")
    ensures var p := ParsePipe(PrintBacks(t) + rest); p.Ok? && Backs(p.value, p.rest) == Backs(t, rest)
    decreases t, Rank(t, 1)
  {
    if t.Back? {
      var y := "& " + rest;
      TokenSym('&', rest);
      assert y == ['&'] + " " + rest;
      assert PrintBacks(t) + rest == PrintBacks(t.cmd) + y;
      BacksBack(t.cmd, y);
      BacksSkip(t, rest);
    } else {
      PipeBack(t, rest);
      BacksSkip(t, rest);
    }
  }

  lemma BacksSkip(c: Cmd<string>, s: string)
    ensures Backs(c, SkipWs(s)) == Backs(c, s)
  {
  }

  lemma {:induction false} LineBack(t: Cmd<string>, rest: string)
    requires WellFormed(t) && Stops(rest, ")")
    ensures ParseLine(PrintLine(t) + rest) == Ok(t, SkipWs(rest))
    decreases t, Rank(t, 0)
  {
    SkipTwice(rest);
    if t.List? {
      hide Token, ParsePipe, PrintBacks;
      var y := PrintLine(t.right) + rest;
      TokenSym(';', y);
      assert "; " + y == [';'] + " " + y;
      assert PrintLine(t) + rest == PrintBacks(t.left) + ("; " + y);
      BacksBack(t.left, "; " + y);
      LineBack(t.right, rest);
      LineSkip(y);
      SkipSame("; " + y);
    } else {
      BacksBack(t, rest);
      SkipSame(rest);
    }
  }

  /** Printing any well-formed command tree and parsing the line yields the same
      tree. */
  lemma RoundTrip(t: Cmd<string>)
    requires WellFormed(t)
    ensures ParseCmd(PrintLine(t)) == Ok(t, [])
  {
    LineBack(t, "");
    assert PrintLine(t) + "" == PrintLine(t);
  }

  // ---- what parses is well formed ----

  lemma {:induction false} RedirsValid(s: string)
    ensures var r := ParseRedirs(s); r.Ok? ==> ValidFiles(r.value)
    decreases |s|
  {
    if Peek(s, "<>") {
      var s1 := Token(s).1;
      TokenValid(s1);
      RedirsValid(Token(s1).1);
    }
  }

  lemma TokenValid(s: string)
    ensures Token(s).0.Word? ==> ValidWord(Token(s).0.w)
  {
    WordValid(SkipWs(s));
  }

  lemma {:induction false} WordValid(s: string)
    ensures forall i :: 0 <= i < WordLen(s) ==> WordChar(s[i])
  {
    if s != [] && WordChar(s[0]) {
      WordValid(s[1..]);
      assert forall i :: 1 <= i < WordLen(s) ==> s[i] == s[1..][i - 1];
    }
  }

  lemma {:induction false} ArgsValid(s: string, n: nat)
    requires n < MAXARGS
    ensures var r := ParseArgs(s, n);
      r.Ok? ==> n + |r.value.0| < MAXARGS && ValidFiles(r.value.1) &&
                forall i :: 0 <= i < |r.value.0| ==> ValidWord(r.value.0[i])
    decreases |s|
  {
    hide Token, SkipWs, ParseRedirs, ValidWord;
    if !Peek(s, "|)&;") && SkipWs(s) != [] && Token(s).0.Word? && n + 1 < MAXARGS {
      TokenValid(s);
      var rs := ParseRedirs(Token(s).1);
      RedirsValid(Token(s).1);
      if rs.Ok? {
        ArgsValid(rs.rest, n + 1);
      }
    }
  }

  lemma {:induction false} WrapValid(c: Cmd<string>, rs: seq<(string, Kind)>)
    requires WellFormed(c) && ValidFiles(rs)
    ensures WellFormed(Wrap(c, rs))
    decreases |rs|
  {
    if rs != [] {
      WrapValid(Redir(c, rs[0].0, rs[0].1), rs[1..]);
    }
  }

  lemma {:induction false} ExecValid(s: string)
    ensures ParseExec(s).Ok? ==> WellFormed(ParseExec(s).value)
    decreases |s|, 2
  {
    hide Token, ParseRedirs, ParseArgs;
    if Peek(s, "(") {
      BlockValid(s);
    } else {
      var rs := ParseRedirs(s);
      RedirsValid(s);
      if rs.Ok? {
        var more := ParseArgs(rs.rest, 0);
        ArgsValid(rs.rest, 0);
        if more.Ok? {
          WrapValid(Exec(more.value.0), rs.value + more.value.1);
        }
      }
    }
  }

  lemma {:induction false} BlockValid(s: string)
    ensures ParseBlock(s).Ok? ==> WellFormed(ParseBlock(s).value)
    decreases |s|, 1
  {
    hide ParseRedirs;
    if Peek(s, "(") {
      var line := ParseLine(Token(s).1);
      LineValid(Token(s).1);
      if line.Ok? {
        var rs := ParseRedirs(Token(line.rest).1);
        RedirsValid(Token(line.rest).1);
        if rs.Ok? {
          WrapValid(line.value, rs.value);
        }
      }
    }
  }

  lemma {:induction false} PipeValid(s: string)
    ensures ParsePipe(s).Ok? ==> WellFormed(ParsePipe(s).value)
    decreases |s|, 3
  {
    ExecValid(s);
    var e := ParseExec(s);
    if e.Ok? && Peek(e.rest, "|") {
      PipeValid(Token(e.rest).1);
    }
  }

  lemma {:induction false} BacksValid(c: Cmd<string>, s: string)
    requires WellFormed(c)
    ensures WellFormed(Backs(c, s).0)
    decreases |s|
  {
    if Peek(s, "&") {
      BacksValid(Back(c), Token(s).1);
    }
  }

  lemma {:induction false} LineValid(s: string)
    ensures ParseLine(s).Ok? ==> WellFormed(ParseLine(s).value)
    decreases |s|, 4
  {
    PipeValid(s);
    var p := ParsePipe(s);
    if p.Ok? {
      BacksValid(p.value, p.rest);
      var s1 := Backs(p.value, p.rest).1;
      if Peek(s1, ";") {
        LineValid(Token(s1).1);
      }
    }
  }

  /** The parser yields only well-formed trees, so a line that parses and its
      tree printed again mean the same. */
  lemma ReprintSame(s: string)
    requires ParseCmd(s).Ok?
    ensures WellFormed(ParseCmd(s).value) && ParseCmd(PrintLine(ParseCmd(s).value)) == ParseCmd(s)
  {
    LineValid(s);
    RoundTrip(ParseCmd(s).value);
  }
}
