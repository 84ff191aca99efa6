/** The recursive-descent parser of user/sh.c: a cursor moves over the line, words
    are pairs of positions in it, and nulterminate cuts the line into C strings.
    Proved against the parser on strings in ShellSyntax. */
module ShellParser {
  import opened ShellSyntax
  import opened ShellRoundTrip
  import ShellTokens

  /** A word in the line: from q up to eq. */
  datatype Span = Span(q: nat, eq: nat)

  /** A maximal run of word characters. */
  predicate WordSpan(s: string, w: Span) {
    && w.q < w.eq <= |s| && (forall i :: w.q <= i < w.eq ==> WordChar(s[i]))
    && (w.eq < |s| ==> !WordChar(s[w.eq]))
  }

  /** All words of the tree are words of the line. */
  predicate Spans(c: Cmd<Span>, s: string) {
    match c
    case Exec(argv) => forall i :: 0 <= i < |argv| ==> WordSpan(s, argv[i])
    case Redir(d, f, _) => Spans(d, s) && WordSpan(s, f)
    case Pipe(l, r) => Spans(l, s) && Spans(r, s)
    case List(l, r) => Spans(l, s) && Spans(r, s)
    case Back(d) => Spans(d, s)
  }

  function Cut(s: string, w: Span): string {
    if w.q <= w.eq <= |s| then s[w.q..w.eq] else ""
  }

  function Cuts(s: string, ws: seq<Span>): (r: seq<string>)
    ensures |r| == |ws| && forall i :: 0 <= i < |ws| ==> r[i] == Cut(s, ws[i])
  {
    seq(|ws|, i requires 0 <= i < |ws| => Cut(s, ws[i]))
  }

  /** The tree with the text of its words. */
  function Text(c: Cmd<Span>, s: string): Cmd<string> {
    match c
    case Exec(argv) => Exec(Cuts(s, argv))
    case Redir(d, f, k) => Redir(Text(d, s), Cut(s, f), k)
    case Pipe(l, r) => Pipe(Text(l, s), Text(r, s))
    case List(l, r) => List(Text(l, s), Text(r, s))
    case Back(d) => Back(Text(d, s))
  }

  /** What gettoken's return value and positions say of the token t. */
  predicate Tells(s: string, ret: char, w: Span, t: Tok) {
    match t
    case End => ret == '\0'
    case Sym(c) => ret == c && Symbol(c)
    case Plus => ret == '+'
    case Word(x) => ret == 'a' && WordSpan(s, w) && Cut(s, w) == x
  }

  predicate NoNul(s: string) {
    forall i :: 0 <= i < |s| ==> s[i] != '\0'
  }

  method SkipSpaces(s: string, i: nat) returns (j: nat)
    requires i <= |s|
    ensures i <= j <= |s| && s[j..] == SkipWs(s[i..])
  {
    j := i;
    while j < |s| && Ws(s[j])
      invariant i <= j <= |s| && SkipWs(s[i..]) == SkipWs(s[j..])
    {
      assert s[j..][1..] == s[j + 1..];
      j := j + 1;
    }
  }

  /** The next token, where it stands, and the cursor after it. */
  method Gettoken(s: string, ps: nat) returns (ret: char, w: Span, ps1: nat)
    requires ps <= |s| && NoNul(s)
    ensures ps <= ps1 <= |s| && s[ps1..] == Token(s[ps..]).1 && Tells(s, ret, w, Token(s[ps..]).0)
  {
    var i := SkipSpaces(s, ps);
    var q := i;
    if i == |s| {
      ret := '\0';
    } else if s[i] == '>' {
      ret := '>';
      i := i + 1;
      if i < |s| && s[i] == '>' {
        ret := '+';
        i := i + 1;
      }
    } else if Symbol(s[i]) {
      ret := s[i];
      i := i + 1;
    } else {
      ret := 'a';
      i := SkipWord(s, i);
    }
    w := Span(q, i);
    ghost var t := s[q..];
    assert i >= q && t[i - q..] == s[i..];
    assert ret == 'a' ==> t[..i - q] == s[q..i];
    ps1 := SkipSpaces(s, i);
  }

  method SkipWord(s: string, i: nat) returns (j: nat)
    requires i < |s| && WordChar(s[i])
    ensures i < j <= |s| && j - i == WordLen(s[i..]) && WordSpan(s, Span(i, j))
  {
    j := i;
    while j < |s| && !Ws(s[j]) && !Symbol(s[j])
      invariant i <= j <= |s| && WordLen(s[i..]) == j - i + WordLen(s[j..])
      invariant forall k :: i <= k < j ==> WordChar(s[k])
    {
      assert s[j..][1..] == s[j + 1..];
      j := j + 1;
    }
  }

  /** Moves the cursor past white space, and looks at what is there. */
  method PeekAt(s: string, ps: nat, toks: string) returns (yes: bool, ps1: nat)
    requires ps <= |s|
    ensures ps <= ps1 <= |s| && s[ps1..] == SkipWs(s[ps..]) && (yes <==> Peek(s[ps..], toks))
  {
    ps1 := SkipSpaces(s, ps);
    yes := ps1 < |s| && s[ps1] in toks;
    assert ps1 < |s| ==> s[ps1..][0] == s[ps1];
  }

  // ---- redirections and arguments ----

  function FileTexts(s: string, rs: seq<(Span, Kind)>): (r: seq<(string, Kind)>)
    ensures |r| == |rs|
  {
    seq(|rs|, i requires 0 <= i < |rs| => (Cut(s, rs[i].0), rs[i].1))
  }

  predicate FileSpans(s: string, rs: seq<(Span, Kind)>) {
    forall i :: 0 <= i < |rs| ==> WordSpan(s, rs[i].0)
  }

  /** The rest of a result, with what was read before put in front. */
  function Before(rs: seq<(string, Kind)>, r: Result<seq<(string, Kind)>>): Result<seq<(string, Kind)>> {
    if r.Panic? then Panic else Ok(rs + r.value, r.rest)
  }

  /** parseredirs: reads redirections as long as there are any. */
  method Redirections(s: string, ps: nat) returns (ok: bool, rs: seq<(Span, Kind)>, ps1: nat)
    requires ps <= |s| && NoNul(s)
    ensures ps <= ps1 <= |s| && FileSpans(s, rs)
    ensures ParseRedirs(s[ps..]) == if ok then Ok(FileTexts(s, rs), s[ps1..]) else Panic
  {
    hide Token, ParseRedirs, FileTexts;
    rs, ok := [], true;
    var yes;
    yes, ps1 := PeekAt(s, ps, "<>");
    RedirsSkip(s[ps..]);
    SkipSame(s[ps..]);
    NoTexts(s, ParseRedirs(s[ps1..]));
    while yes
      invariant ps <= ps1 <= |s| && ok && FileSpans(s, rs) && s[ps1..] == SkipWs(s[ps1..])
      invariant yes == Peek(s[ps1..], "<>")
      invariant ParseRedirs(s[ps..]) == Before(FileTexts(s, rs), ParseRedirs(s[ps1..]))
      decreases |s| - ps1
    {
      ghost var x := s[ps1..];
      var op, w, tok, file;
      op, w, ps1 := Gettoken(s, ps1);
      tok, file, ps1 := Gettoken(s, ps1);
      RedirsStep(s, x, op, w);
      if tok != 'a' {
        return false, rs, ps1;
      }
      var kind := if op == '<' then Input else if op == '+' then Append else Output;
      TextsMore(s, rs, file, kind, ParseRedirs(s[ps1..]));
      rs := rs + [(file, kind)];
      yes, ps1 := PeekAt(s, ps1, "<>");
    }
    RedirsNone(s[ps1..]);
    TextsAll(s, rs);
  }

  lemma NoTexts(s: string, r: Result<seq<(string, Kind)>>)
    ensures Before(FileTexts(s, []), r) == r
  {
    if r.Ok? {
      assert [] + r.value == r.value;
    }
  }

  lemma TextsAll(s: string, rs: seq<(Span, Kind)>)
    ensures FileTexts(s, rs) + [] == FileTexts(s, rs)
  {
  }

  lemma TextsMore(s: string, rs: seq<(Span, Kind)>, f: Span, k: Kind, r: Result<seq<(string, Kind)>>)
    ensures Before(FileTexts(s, rs), Before([(Cut(s, f), k)], r)) == Before(FileTexts(s, rs + [(f, k)]), r)
  {
    assert FileTexts(s, rs + [(f, k)]) == FileTexts(s, rs) + [(Cut(s, f), k)];
    if r.Ok? {
      assert FileTexts(s, rs) + ([(Cut(s, f), k)] + r.value) == FileTexts(s, rs) + [(Cut(s, f), k)] + r.value;
    }
  }

  lemma RedirsNone(x: string)
    requires !Peek(x, "<>") && x == SkipWs(x)
    ensures ParseRedirs(x) == Ok([], x)
  {
  }

  /** One turn of parseredirs' loop. */
  lemma RedirsStep(s: string, x: string, op: char, w: Span)
    requires Peek(x, "<>") && Tells(s, op, w, Token(x).0)
    ensures var (file, x2) := Token(Token(x).1);
      var kind := if op == '<' then Input else if op == '+' then Append else Output;
      |x2| < |x| && SkipWs(x2) == x2 &&
      ParseRedirs(x) == if file.Word? then Before([(file.w, kind)], ParseRedirs(x2)) else Panic
  {
    hide Token, SkipWs;
    OpKind(x);
    Skipped(Token(x).1);
  }

  lemma OpKind(x: string)
    requires Peek(x, "<>")
    ensures Token(x).0 == Sym('<') || Token(x).0 == Sym('>') || Token(x).0 == Plus
  {
  }

  /** The cursor after a token is past white space. */
  lemma Skipped(x: string)
    ensures SkipWs(Token(x).1) == Token(x).1
  {
  }

  function BeforeArgs(ws: seq<string>, rs: seq<(string, Kind)>, r: Result<(seq<string>, seq<(string, Kind)>)>):
    Result<(seq<string>, seq<(string, Kind)>)>
  {
    if r.Panic? then Panic else Ok((ws + r.value.0, rs + r.value.1), r.rest)
  }

  /** parseexec's loop over words and redirections. */
  method Arguments(s: string, ps: nat) returns (ok: bool, argv: seq<Span>, rs: seq<(Span, Kind)>, ps1: nat)
    requires ps <= |s| && NoNul(s)
    ensures ps <= ps1 <= |s| && FileSpans(s, rs) && forall i :: 0 <= i < |argv| ==> WordSpan(s, argv[i])
    ensures ParseArgs(s[ps..], 0) == if ok then Ok((Cuts(s, argv), FileTexts(s, rs)), s[ps1..]) else Panic
  {
    hide Token, ParseArgs, ParseRedirs, FileTexts, Cuts, SkipWs;
    argv, rs, ok := [], [], true;
    var stop;
    stop, ps1 := PeekAt(s, ps, "|)&;");
    ArgsSkip(s[ps..], 0);
    SkipSame(s[ps..]);
    SkipTwice(s[ps..]);
    NoArgs(s, ParseArgs(s[ps1..], 0));
    while !stop
      invariant ps <= ps1 <= |s| && ok && FileSpans(s, rs) && s[ps1..] == SkipWs(s[ps1..])
      invariant forall i :: 0 <= i < |argv| ==> WordSpan(s, argv[i])
      invariant stop == Peek(s[ps1..], "|)&;")
      invariant ParseArgs(s[ps..], 0) == BeforeArgs(Cuts(s, argv), FileTexts(s, rs), ParseArgs(s[ps1..], |argv|))
      decreases |s| - ps1
    {
      ghost var x := s[ps1..];
      ArgsStep(x, |argv|);
      var tok, w;
      tok, w, ps1 := Gettoken(s, ps1);
      if tok == '\0' {
        NoneLeft(s, ps1, x);
        break;
      }
      if tok != 'a' || |argv| + 1 >= MAXARGS {
        return false, argv, rs, ps1;
      }
      var more;
      ok, more, ps1 := Redirections(s, ps1);
      if !ok {
        return;
      }
      ArgsMore(s, argv, rs, w, more, ParseArgs(s[ps1..], |argv| + 1));
      argv, rs := argv + [w], rs + more;
      ghost var y := s[ps1..];
      stop, ps1 := PeekAt(s, ps1, "|)&;");
      ArgsSkip(y, |argv|);
      SkipSame(y);
      SkipTwice(y);
    }
    ArgsEnd(s, argv, rs, s[ps1..]);
  }

  lemma NoArgs(s: string, r: Result<(seq<string>, seq<(string, Kind)>)>)
    ensures BeforeArgs(Cuts(s, []), FileTexts(s, []), r) == r
  {
    if r.Ok? {
      assert [] + r.value.0 == r.value.0 && [] + r.value.1 == r.value.1;
    }
  }

  lemma ArgsMore(s: string, argv: seq<Span>, rs: seq<(Span, Kind)>, w: Span, more: seq<(Span, Kind)>,
                 r: Result<(seq<string>, seq<(string, Kind)>)>)
    ensures BeforeArgs(Cuts(s, argv), FileTexts(s, rs), BeforeArgs([Cut(s, w)], FileTexts(s, more), r)) ==
            BeforeArgs(Cuts(s, argv + [w]), FileTexts(s, rs + more), r)
  {
    assert Cuts(s, argv + [w]) == Cuts(s, argv) + [Cut(s, w)];
    assert FileTexts(s, rs + more) == FileTexts(s, rs) + FileTexts(s, more);
    if r.Ok? {
      assert Cuts(s, argv) + ([Cut(s, w)] + r.value.0) == Cuts(s, argv) + [Cut(s, w)] + r.value.0;
      assert FileTexts(s, rs) + (FileTexts(s, more) + r.value.1) == FileTexts(s, rs) + FileTexts(s, more) + r.value.1;
    }
  }

  /** One turn of parseexec's loop. */
  lemma ArgsStep(x: string, n: nat)
    requires !Peek(x, "|)&;")
    ensures var (t, x1) := Token(x);
      (t.End? <==> SkipWs(x) == []) && (SkipWs(x) != [] ==> |x1| < |x|) &&
      ParseArgs(x, n) ==
        if t.End? then Ok(([], []), SkipWs(x))
        else if !t.Word? || n + 1 >= MAXARGS then Panic
        else var rs := ParseRedirs(x1);
          if rs.Panic? then Panic else BeforeArgs([t.w], rs.value, ParseArgs(rs.rest, n + 1))
  {
  }

  lemma NoneLeft(s: string, ps: nat, x: string)
    requires ps <= |s| && Token(x).0.End? && s[ps..] == Token(x).1 && SkipWs(x) == x
    ensures s[ps..] == [] && x == []
  {
  }

  lemma ArgsEnd(s: string, argv: seq<Span>, rs: seq<(Span, Kind)>, x: string)
    requires Peek(x, "|)&;") || x == []
    requires x == SkipWs(x)
    ensures BeforeArgs(Cuts(s, argv), FileTexts(s, rs), ParseArgs(x, |argv|)) ==
            Ok((Cuts(s, argv), FileTexts(s, rs)), x)
  {
    assert Cuts(s, argv) + [] == Cuts(s, argv) && FileTexts(s, rs) + [] == FileTexts(s, rs);
  }

  // ---- commands ----

  lemma {:induction false} WrapText(s: string, c: Cmd<Span>, rs: seq<(Span, Kind)>)
    requires Spans(c, s) && FileSpans(s, rs)
    ensures Spans(Wrap(c, rs), s) && Text(Wrap(c, rs), s) == Wrap(Text(c, s), FileTexts(s, rs))
    decreases |rs|
  {
    if rs != [] {
      assert FileTexts(s, rs)[1..] == FileTexts(s, rs[1..]);
      WrapText(s, Redir(c, rs[0].0, rs[0].1), rs[1..]);
    }
  }

  /** What a parsing method promises: it agrees with the parser on strings. */
  predicate Agrees(s: string, ok: bool, c: Cmd<Span>, ps1: nat, r: Result<Cmd<string>>) {
    ps1 <= |s| && (ok <==> r.Ok?) && (ok ==> Spans(c, s) && Text(c, s) == r.value && s[ps1..] == r.rest)
  }

  method ExecCommand(s: string, ps: nat) returns (ok: bool, c: Cmd<Span>, ps1: nat)
    requires ps <= |s| && NoNul(s)
    ensures ps <= ps1 && Agrees(s, ok, c, ps1, ParseExec(s[ps..]))
    decreases |s| - ps, 2
  {
    hide Token, ParseArgs, ParseRedirs, FileTexts, SkipWs, ParseBlock, Spans, Text, Wrap;
    var yes;
    yes, ps1 := PeekAt(s, ps, "(");
    SkipSame(s[ps..]);
    if yes {
      BlockSkip(s[ps..]);
      ok, c, ps1 := Block(s, ps1);
      return;
    }
    var rs, argv, more;
    RedirsSkip(s[ps..]);
    c := Exec([]);
    ok, rs, ps1 := Redirections(s, ps1);
    if !ok {
      return;
    }
    ok, argv, more, ps1 := Arguments(s, ps1);
    if !ok {
      return;
    }
    ExecText(s, argv, rs, more);
    c := Wrap(Exec(argv), rs + more);
  }

  lemma BlockSkip(x: string)
    ensures ParseBlock(SkipWs(x)) == ParseBlock(x)
  {
    SkipSame(x);
  }

  lemma ExecText(s: string, argv: seq<Span>, rs: seq<(Span, Kind)>, more: seq<(Span, Kind)>)
    requires FileSpans(s, rs) && FileSpans(s, more) && forall i :: 0 <= i < |argv| ==> WordSpan(s, argv[i])
    ensures Spans(Wrap(Exec(argv), rs + more), s)
    ensures Text(Wrap(Exec(argv), rs + more), s) == Wrap(Exec(Cuts(s, argv)), FileTexts(s, rs) + FileTexts(s, more))
  {
    assert FileTexts(s, rs + more) == FileTexts(s, rs) + FileTexts(s, more);
    WrapText(s, Exec(argv), rs + more);
  }

  method Block(s: string, ps: nat) returns (ok: bool, c: Cmd<Span>, ps1: nat)
    requires ps <= |s| && NoNul(s)
    ensures ps <= ps1 && Agrees(s, ok, c, ps1, ParseBlock(s[ps..]))
    decreases |s| - ps, 1
  {
    hide ParseArgs, ParseRedirs, FileTexts, ParseLine, Spans, Text, Wrap, Token;
    c := Exec([]);
    var yes;
    yes, ps1 := PeekAt(s, ps, "(");
    SkipSame(s[ps..]);
    if !yes {
      return false, c, ps1;
    }
    var tok, w;
    tok, w, ps1 := Gettoken(s, ps1);
    ok, c, ps1 := Line(s, ps1);
    if !ok {
      return;
    }
    ghost var x := s[ps1..];
    yes, ps1 := PeekAt(s, ps1, ")");
    SkipSame(x);
    if !yes {
      return false, c, ps1;
    }
    tok, w, ps1 := Gettoken(s, ps1);
    var rs;
    ok, rs, ps1 := Redirections(s, ps1);
    if ok {
      WrapText(s, c, rs);
      c := Wrap(c, rs);
    }
  }

  method Pipeline(s: string, ps: nat) returns (ok: bool, c: Cmd<Span>, ps1: nat)
    requires ps <= |s| && NoNul(s)
    ensures ps <= ps1 && Agrees(s, ok, c, ps1, ParsePipe(s[ps..]))
    decreases |s| - ps, 3
  {
    hide ParseExec, Token;
    ok, c, ps1 := ExecCommand(s, ps);
    if !ok {
      return;
    }
    ghost var x := s[ps1..];
    var yes;
    yes, ps1 := PeekAt(s, ps1, "|");
    SkipSame(x);
    if yes {
      var tok, w, right;
      tok, w, ps1 := Gettoken(s, ps1);
      ok, right, ps1 := Pipeline(s, ps1);
      c := Pipe(c, right);
    }
  }

  method Line(s: string, ps: nat) returns (ok: bool, c: Cmd<Span>, ps1: nat)
    requires ps <= |s| && NoNul(s)
    ensures ps <= ps1 && Agrees(s, ok, c, ps1, ParseLine(s[ps..]))
    decreases |s| - ps, 4
  {
    hide ParsePipe, Token, Backs;
    ok, c, ps1 := Pipeline(s, ps);
    if !ok {
      return;
    }
    c, ps1 := Ampersands(s, ps1, c);
    ghost var x := s[ps1..];
    var yes;
    yes, ps1 := PeekAt(s, ps1, ";");
    SkipSame(x);
    if yes {
      var tok, w, right;
      tok, w, ps1 := Gettoken(s, ps1);
      ok, right, ps1 := Line(s, ps1);
      c := List(c, right);
    }
  }

  /** parseline's loop: one background command for each &. */
  method Ampersands(s: string, ps: nat, c: Cmd<Span>) returns (d: Cmd<Span>, ps1: nat)
    requires ps <= |s| && NoNul(s) && Spans(c, s)
    ensures ps <= ps1 <= |s| && Spans(d, s) && (Text(d, s), s[ps1..]) == Backs(Text(c, s), s[ps..])
  {
    hide Token;
    d := c;
    var yes;
    yes, ps1 := PeekAt(s, ps, "&");
    SkipSame(s[ps..]);
    SkipTwice(s[ps..]);
    BacksSkip(Text(c, s), s[ps..]);
    while yes
      invariant ps <= ps1 <= |s| && Spans(d, s) && yes == Peek(s[ps1..], "&") && s[ps1..] == SkipWs(s[ps1..])
      invariant Backs(Text(c, s), s[ps..]) == Backs(Text(d, s), s[ps1..])
      decreases |s| - ps1
    {
      var tok, w;
      Skipped(s[ps1..]);
      tok, w, ps1 := Gettoken(s, ps1);
      d := Back(d);
      yes, ps1 := PeekAt(s, ps1, "&");
    }
  }

  // ---- cutting the line into C strings ----

  /** Where the tree's words end. */
  function Ends(c: Cmd<Span>): set<nat> {
    match c
    case Exec(argv) => set i | 0 <= i < |argv| :: argv[i].eq
    case Redir(d, f, _) => Ends(d) + {f.eq}
    case Pipe(l, r) => Ends(l) + Ends(r)
    case List(l, r) => Ends(l) + Ends(r)
    case Back(d) => Ends(d)
  }

  /** The words of the tree. */
  function Words(c: Cmd<Span>): set<Span> {
    match c
    case Exec(argv) => set i | 0 <= i < |argv| :: argv[i]
    case Redir(d, f, _) => Words(d) + {f}
    case Pipe(l, r) => Words(l) + Words(r)
    case List(l, r) => Words(l) + Words(r)
    case Back(d) => Words(d)
  }

  /** nulterminate: writes a NUL at the end of every word, and nowhere else. */
  method Nulterminate(c: Cmd<Span>, buf: array<char>)
    requires forall e :: e in Ends(c) ==> e < buf.Length
    modifies buf
    ensures forall i :: 0 <= i < buf.Length ==> buf[i] == if i in Ends(c) then '\0' else old(buf[i])
    decreases c
  {
    match c
    case Exec(argv) =>
      var i := 0;
      while i < |argv|
        invariant 0 <= i <= |argv|
        invariant forall k :: 0 <= k < buf.Length ==>
                    buf[k] == if exists j :: 0 <= j < i && argv[j].eq == k then '\0' else old(buf[k])
      {
        assert argv[i].eq in Ends(c);
        buf[argv[i].eq] := '\0';
        i := i + 1;
      }
    case Redir(d, f, _) =>
      assert Ends(c) == Ends(d) + {f.eq} && f.eq in Ends(c) && Ends(d) <= Ends(c);
      Nulterminate(d, buf);
      buf[f.eq] := '\0';
    case Pipe(l, r) =>
      assert Ends(c) == Ends(l) + Ends(r) && Ends(l) <= Ends(c) && Ends(r) <= Ends(c);
      Nulterminate(l, buf);
      Nulterminate(r, buf);
    case List(l, r) =>
      assert Ends(c) == Ends(l) + Ends(r) && Ends(l) <= Ends(c) && Ends(r) <= Ends(c);
      Nulterminate(l, buf);
      Nulterminate(r, buf);
    case Back(d) =>
      assert Ends(c) == Ends(d);
      Nulterminate(d, buf);
  }

  /** The C string that starts at q. */
  function CString(t: string, q: nat): string
    decreases |t| - q
  {
    if q < |t| && t[q] != '\0' then [t[q]] + CString(t, q + 1) else []
  }

  lemma {:induction false} CStringTo(t: string, q: nat, e: nat)
    requires q <= e < |t| && t[e] == '\0' && forall i :: q <= i < e ==> t[i] != '\0'
    ensures CString(t, q) == t[q..e]
    decreases e - q
  {
    if q < e {
      CStringTo(t, q + 1, e);
      assert t[q..e] == [t[q]] + t[q + 1..e];
    } else {
      assert t[q..e] == [];
    }
  }

  /** Words end before characters that belong to no word, so cutting harms none
      of them. */
  lemma {:induction false} EndsOutside(c: Cmd<Span>, s: string, e: nat)
    requires Spans(c, s) && e in Ends(c)
    ensures e <= |s| && (e < |s| ==> !WordChar(s[e]))
  {
    match c
    case Exec(argv) =>
    case Redir(d, f, _) => if e in Ends(d) { EndsOutside(d, s, e); }
    case Pipe(l, r) => if e in Ends(l) { EndsOutside(l, s, e); } else { EndsOutside(r, s, e); }
    case List(l, r) => if e in Ends(l) { EndsOutside(l, s, e); } else { EndsOutside(r, s, e); }
    case Back(d) => EndsOutside(d, s, e);
  }

  lemma {:induction false} WordOf(c: Cmd<Span>, s: string, w: Span)
    requires Spans(c, s) && w in Words(c)
    ensures WordSpan(s, w) && w.eq in Ends(c)
  {
    match c
    case Exec(argv) =>
    case Redir(d, f, _) => if w in Words(d) { WordOf(d, s, w); }
    case Pipe(l, r) => if w in Words(l) { WordOf(l, s, w); } else { WordOf(r, s, w); }
    case List(l, r) => if w in Words(l) { WordOf(l, s, w); } else { WordOf(r, s, w); }
    case Back(d) => WordOf(d, s, w);
  }

  /** After the cuts every word reads back as exactly its token. */
  lemma ReadsBack(c: Cmd<Span>, s: string, t: string, w: Span)
    requires Spans(c, s) && NoNul(s) && |t| == |s| + 1 && w in Words(c)
    requires forall i :: 0 <= i < |t| ==> t[i] == if i in Ends(c) then '\0' else (s + ['\0'])[i]
    ensures CString(t, w.q) == Cut(s, w)
  {
    WordOf(c, s, w);
    forall i | w.q <= i < w.eq ensures t[i] == s[i] {
      if i in Ends(c) {
        EndsOutside(c, s, i);
      }
    }
    CStringTo(t, w.q, w.eq);
    assert t[w.q..w.eq] == s[w.q..w.eq];
  }

  /** parsecmd: parses the line in the buffer, or panics; then cuts it up. The
      tree is what the parser on strings gives, the buffer changes only at the
      ends of words, and each word reads back as its token. */
  method ParseCommand(buf: array<char>) returns (ok: bool, c: Cmd<Span>)
    requires buf.Length > 0 && buf[buf.Length - 1] == '\0' && NoNul(buf[..buf.Length - 1])
    modifies buf
    ensures var s := old(buf[..buf.Length - 1]);
      && (ok <==> ParseCmd(s).Ok?)
      && (ok ==> Text(c, s) == ParseCmd(s).value)
      && (ok <==> ShellTokens.Accepts(ShellTokens.Tokens(s), ShellTokens.Before, 0))
      && (ok ==> forall files: bool ::
            ShellTokens.TreeItems(Text(c, s), files) == ShellTokens.LineItems(ShellTokens.Tokens(s), files))
      && (ok ==> forall i :: 0 <= i < buf.Length ==> buf[i] == if i in Ends(c) then '\0' else old(buf[i]))
      && (ok ==> forall w :: w in Words(c) ==> CString(buf[..], w.q) == Cut(s, w))
      && (!ok ==> buf[..] == old(buf[..]))
  {
    hide ParseLine, ShellTokens.Accepts, ShellTokens.TreeItems, ShellTokens.LineItems, ShellTokens.Tokens;
    var s := buf[..buf.Length - 1];
    ShellTokens.ParseExact(s);
    var ps;
    assert s[0..] == s;
    ok, c, ps := Line(s, 0);
    if !ok {
      return;
    }
    ghost var x := s[ps..];
    var yes;
    yes, ps := PeekAt(s, ps, "");
    if ps != |s| {
      assert s[ps..] != [];
      return false, c;
    }
    assert s[ps..] == [];
    forall e | e in Ends(c) ensures e < buf.Length {
      EndsOutside(c, s, e);
    }
    Nulterminate(c, buf);
    assert old(buf[..]) == s + ['\0'];
    forall w | w in Words(c) ensures CString(buf[..], w.q) == Cut(s, w) {
      ReadsBack(c, s, buf[..], w);
    }
  }
}
