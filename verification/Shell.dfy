/**
 The command parser of sh.c.  The meaning of a line is given by a lexer and a recursive parser on token
 sequences; the cursor-driven code is proved to compute it, every command tree has a line that parses back
 to it, and nulterminate() makes each argument and file name read as its token.
 */
module Shell {

  // ---------------------------------------------------------------- trees

  /** `>` and `>>` open the file the same way. */
  datatype Mode = In | Out

  datatype Redirect<W> = Redirect(file: W, mode: Mode)

  /** W is a word: its text, or where it stands in the line. */
  datatype Cmd<W> =
    | Exec(argv: seq<W>)
    | Redir(cmd: Cmd<W>, to: Redirect<W>)
    | Pipe(left: Cmd<W>, right: Cmd<W>)
    | List(left: Cmd<W>, right: Cmd<W>)
    | Back(cmd: Cmd<W>)

  datatype Error = MissingFile | MissingParen | Syntax | TooManyArgs | Leftovers

  const MAXARGS: nat := 10

  /** The first redirection is the innermost. */
  function Wrap<W>(c: Cmd<W>, rs: seq<Redirect<W>>): Cmd<W>
    decreases |rs|
  {
    if rs == [] then c else Wrap(Redir(c, rs[0]), rs[1..])
  }

  // ---------------------------------------------------------------- tokens

  predicate IsSpace(c: char) { c == ' ' || c == '\t' || c == '\r' || c == '\n' || c == '\U{0B}' }
  predicate IsSymbol(c: char) { c == '<' || c == '|' || c == '>' || c == '&' || c == ';' || c == '(' || c == ')' }
  predicate IsWordChar(c: char) { !IsSpace(c) && !IsSymbol(c) && c != '\0' }

  datatype Tok = Sym(c: char) | Append | Word(text: string)

  /** Length of the longest prefix of word characters. */
  function WordLen(s: string): (n: nat)
    ensures n <= |s| && (forall i :: 0 <= i < n ==> IsWordChar(s[i])) && (n < |s| ==> !IsWordChar(s[n]))
  {
    if s == [] || !IsWordChar(s[0]) then 0 else 1 + WordLen(s[1..])
  }

  function Lex(s: string): seq<Tok> {
    if s == [] || s[0] == '\0' then []
    else if IsSpace(s[0]) then Lex(s[1..])
    else if s[0] == '>' && |s| >= 2 && s[1] == '>' then [Append] + Lex(s[2..])
    else if IsSymbol(s[0]) then [Sym(s[0])] + Lex(s[1..])
    else [Word(s[..WordLen(s)])] + Lex(s[WordLen(s)..])
  }

  /** The next token is a symbol whose first character is one of toks. */
  predicate StartsWith(ts: seq<Tok>, toks: string) {
    ts != [] && match ts[0] case Sym(c) => c in toks case Append => '>' in toks case Word(_) => false
  }

  // ---------------------------------------------------------------- the grammar

  datatype Parsed = Done(cmd: Cmd<string>, rest: seq<Tok>) | Fail(error: Error)

  datatype Redirections = RDone(list: seq<Redirect<string>>, rest: seq<Tok>) | RFail(error: Error)

  function ModeOf(t: Tok): Mode { if t == Sym('<') then In else Out }

  function PRedirs(rs: seq<Redirect<string>>, ts: seq<Tok>): (r: Redirections)
    ensures r.RDone? ==> |r.rest| <= |ts|
    decreases |ts|
  {
    if !StartsWith(ts, "<>") then RDone(rs, ts)
    else if |ts| < 2 || !ts[1].Word? then RFail(MissingFile)
    else PRedirs(rs + [Redirect(ts[1].text, ModeOf(ts[0]))], ts[2..])
  }

  function PArgs(args: seq<string>, rs: seq<Redirect<string>>, ts: seq<Tok>): (r: Parsed)
    ensures r.Done? ==> |r.rest| <= |ts|
    decreases |ts|
  {
    if ts == [] || StartsWith(ts, "|)&;") then Done(Wrap(Exec(args), rs), ts)
    else if !ts[0].Word? then Fail(Syntax)
    else if |args| + 1 >= MAXARGS then Fail(TooManyArgs)
    else
      match PRedirs(rs, ts[1..])
      case RFail(e) => Fail(e)
      case RDone(rs', rest) => PArgs(args + [ts[0].text], rs', rest)
  }

  function PExec(ts: seq<Tok>): (r: Parsed)
    ensures r.Done? ==> |r.rest| <= |ts|
    decreases |ts|, 1
  {
    if StartsWith(ts, "(") then PBlock(ts)
    else
      match PRedirs([], ts)
      case RFail(e) => Fail(e)
      case RDone(rs, rest) => PArgs([], rs, rest)
  }

  function PBlock(ts: seq<Tok>): (r: Parsed)
    requires StartsWith(ts, "(")
    ensures r.Done? ==> |r.rest| <= |ts|
    decreases |ts|, 0
  {
    match PLine(ts[1..])
    case Fail(e) => Fail(e)
    case Done(c, rest) =>
      if !StartsWith(rest, ")") then Fail(MissingParen)
      else
        match PRedirs([], rest[1..])
        case RFail(e) => Fail(e)
        case RDone(rs, rest') => Done(Wrap(c, rs), rest')
  }

  function PPipe(ts: seq<Tok>): (r: Parsed)
    ensures r.Done? ==> |r.rest| <= |ts|
    decreases |ts|, 2
  {
    match PExec(ts)
    case Fail(e) => Fail(e)
    case Done(c, rest) =>
      if !StartsWith(rest, "|") then Done(c, rest)
      else
        match PPipe(rest[1..])
        case Fail(e) => Fail(e)
        case Done(d, rest') => Done(Pipe(c, d), rest')
  }

  function PBacks(c: Cmd<string>, ts: seq<Tok>): (r: Parsed)
    ensures r.Done? && |r.rest| <= |ts| && !StartsWith(r.rest, "&")
    decreases |ts|
  {
    if StartsWith(ts, "&") then PBacks(Back(c), ts[1..]) else Done(c, ts)
  }

  function PLine(ts: seq<Tok>): (r: Parsed)
    ensures r.Done? ==> |r.rest| <= |ts|
    decreases |ts|, 3
  {
    match PPipe(ts)
    case Fail(e) => Fail(e)
    case Done(c, rest) =>
      var b := PBacks(c, rest);
      if !StartsWith(b.rest, ";") then b
      else
        match PLine(b.rest[1..])
        case Fail(e) => Fail(e)
        case Done(d, rest') => Done(List(b.cmd, d), rest')
  }

  function Parse(line: string): Parsed {
    match PLine(Lex(line))
    case Fail(e) => Fail(e)
    case Done(c, rest) => if rest == [] then Done(c, []) else Fail(Leftovers)
  }

  // ---------------------------------------------------------------- printing a tree

  predicate WordOk(w: string) { w != [] && forall i :: 0 <= i < |w| ==> IsWordChar(w[i]) }

  /** The trees the shell can hold: words are words, and a command has at most nine of them. */
  predicate Printable(c: Cmd<string>) {
    match c
    case Exec(argv) => |argv| < MAXARGS && forall i :: 0 <= i < |argv| ==> WordOk(argv[i])
    case Redir(d, r) => Printable(d) && WordOk(r.file)
    case Pipe(l, r) => Printable(l) && Printable(r)
    case List(l, r) => Printable(l) && Printable(r)
    case Back(d) => Printable(d)
  }

  function Words(argv: seq<string>): seq<Tok> {
    if argv == [] then [] else [Word(argv[0])] + Words(argv[1..])
  }

  function RedirToks(r: Redirect<string>): seq<Tok> {
    [Sym(if r.mode == In then '<' else '>'), Word(r.file)]
  }

  /** A tree where an argument list may stand, in parentheses unless it is one, with its redirections. */
  function PrExec(c: Cmd<string>): seq<Tok>
    decreases c, 0
  {
    match c
    case Exec(argv) => Words(argv)
    case Redir(d, r) => PrExec(d) + RedirToks(r)
    case Pipe(l, r) => [Sym('(')] + (PrExec(l) + [Sym('|')] + PrPipe(r)) + [Sym(')')]
    case List(l, r) => [Sym('(')] + (PrBack(l) + [Sym(';')] + PrLine(r)) + [Sym(')')]
    case Back(d) => [Sym('(')] + (PrBack(d) + [Sym('&')]) + [Sym(')')]
  }

  function PrPipe(c: Cmd<string>): seq<Tok>
    decreases c, 1
  {
    if c.Pipe? then PrExec(c.left) + [Sym('|')] + PrPipe(c.right) else PrExec(c)
  }

  function PrBack(c: Cmd<string>): seq<Tok>
    decreases c, 2
  {
    if c.Back? then PrBack(c.cmd) + [Sym('&')] else PrPipe(c)
  }

  function PrLine(c: Cmd<string>): seq<Tok>
    decreases c, 3
  {
    if c.List? then PrBack(c.left) + [Sym(';')] + PrLine(c.right) else PrBack(c)
  }

  // ---------------------------------------------------------------- reading it back

  /** The commands under the redirections and under the `&`s of a tree, and how to put them back. */
  function Base(c: Cmd<string>): (b: Cmd<string>)
    ensures !b.Redir? && (Printable(c) ==> Printable(b))
  {
    if c.Redir? then Base(c.cmd) else c
  }

  function Redirects(c: Cmd<string>): seq<Redirect<string>> {
    if c.Redir? then Redirects(c.cmd) + [c.to] else []
  }

  function Core(c: Cmd<string>): (b: Cmd<string>)
    ensures !b.Back? && (Printable(c) ==> Printable(b))
  {
    if c.Back? then Core(c.cmd) else c
  }

  function Depth(c: Cmd<string>): nat { if c.Back? then Depth(c.cmd) + 1 else 0 }

  function Backed(c: Cmd<string>, k: nat): Cmd<string> { if k == 0 then c else Back(Backed(c, k - 1)) }

  function Amps(k: nat): seq<Tok> { if k == 0 then [] else Amps(k - 1) + [Sym('&')] }

  function AllRedirs(rs: seq<Redirect<string>>): seq<Tok> {
    if rs == [] then [] else RedirToks(rs[0]) + AllRedirs(rs[1..])
  }

  lemma {:induction false} WrapLast<W>(c: Cmd<W>, rs: seq<Redirect<W>>, r: Redirect<W>)
    ensures Wrap(c, rs + [r]) == Redir(Wrap(c, rs), r)
    decreases |rs|
  {
    if rs != [] {
      assert (rs + [r])[0] == rs[0] && (rs + [r])[1..] == rs[1..] + [r];
      WrapLast(Redir(c, rs[0]), rs[1..], r);
    } else {
      assert (rs + [r])[1..] == [];
    }
  }

  lemma {:induction false} RedirsLast(rs: seq<Redirect<string>>, r: Redirect<string>)
    ensures AllRedirs(rs + [r]) == AllRedirs(rs) + RedirToks(r)
  {
    if rs != [] {
      assert (rs + [r])[0] == rs[0] && (rs + [r])[1..] == rs[1..] + [r];
      RedirsLast(rs[1..], r);
    } else {
      assert (rs + [r])[1..] == [];
    }
  }

  lemma {:induction false} Unwrap(c: Cmd<string>)
    ensures Wrap(Base(c), Redirects(c)) == c
    ensures PrExec(c) == PrExec(Base(c)) + AllRedirs(Redirects(c))
  {
    if c.Redir? {
      Unwrap(c.cmd);
      WrapLast(Base(c), Redirects(c.cmd), c.to);
      RedirsLast(Redirects(c.cmd), c.to);
    }
  }

  lemma {:induction false} Unback(c: Cmd<string>)
    ensures Backed(Core(c), Depth(c)) == c
    ensures PrBack(c) == PrPipe(Core(c)) + Amps(Depth(c))
  {
    if c.Back? {
      Unback(c.cmd);
    }
  }

  /** What may follow an argument list, and what may follow a line. */
  predicate AfterExec(ts: seq<Tok>) { ts == [] || StartsWith(ts, "|)&;") }
  predicate AfterLine(ts: seq<Tok>) { ts == [] || StartsWith(ts, ")") }

  lemma {:induction false} RedirsBack(rs0: seq<Redirect<string>>, rs: seq<Redirect<string>>, rest: seq<Tok>)
    requires !StartsWith(rest, "<>")
    ensures PRedirs(rs0, AllRedirs(rs) + rest) == RDone(rs0 + rs, rest)
    decreases |rs|
  {
    var ts := AllRedirs(rs) + rest;
    if rs == [] {
      assert ts == rest;
    } else {
      assert ts[..2] == RedirToks(rs[0]) && ts[2..] == AllRedirs(rs[1..]) + rest;
      assert ts[0] == RedirToks(rs[0])[0] && ts[1] == RedirToks(rs[0])[1];
      RedirsBack(rs0 + [rs[0]], rs[1..], rest);
      assert rs0 + [rs[0]] + rs[1..] == rs0 + rs;
    }
  }

  lemma ArgsStop(args: seq<string>, rs: seq<Redirect<string>>, ts: seq<Tok>)
    requires AfterExec(ts)
    ensures PArgs(args, rs, ts) == Done(Wrap(Exec(args), rs), ts)
  {
  }

  lemma ArgsWord(args: seq<string>, w: string, ts: seq<Tok>)
    requires |args| + 1 < MAXARGS && !StartsWith(ts, "<>")
    ensures PArgs(args, [], [Word(w)] + ts) == PArgs(args + [w], [], ts)
  {
    assert ([Word(w)] + ts)[1..] == ts;
  }

  lemma ArgsLast(args: seq<string>, w: string, rs: seq<Redirect<string>>, rest: seq<Tok>)
    requires |args| + 1 < MAXARGS && AfterExec(rest)
    ensures PArgs(args, [], [Word(w)] + (AllRedirs(rs) + rest)) == Done(Wrap(Exec(args + [w]), rs), rest)
  {
    hide Wrap, AllRedirs;
    assert ([Word(w)] + (AllRedirs(rs) + rest))[1..] == AllRedirs(rs) + rest;
    RedirsBack([], rs, rest);
    assert [] + rs == rs;
    ArgsStop(args + [w], rs, rest);
  }

  lemma {:induction false} ArgsBack(args: seq<string>, ws: seq<string>, rs: seq<Redirect<string>>, rest: seq<Tok>)
    requires AfterExec(rest) && |args| + |ws| < MAXARGS && ws != []
    ensures PArgs(args, [], Words(ws) + AllRedirs(rs) + rest) == Done(Wrap(Exec(args + ws), rs), rest)
    decreases |ws|
  {
    hide PArgs, Wrap, AllRedirs, AfterExec, Words;
    FirstWord(ws, AllRedirs(rs), rest);
    if |ws| == 1 {
      assert ws == [ws[0]];
      ArgsLast(args, ws[0], rs, rest);
    } else {
      ArgsWord(args, ws[0], Words(ws[1..]) + AllRedirs(rs) + rest);
      ArgsBack(args + [ws[0]], ws[1..], rs, rest);
      assert args + ws == args + [ws[0]] + ws[1..];
    }
  }

  lemma FirstWord(ws: seq<string>, a: seq<Tok>, b: seq<Tok>)
    requires ws != []
    ensures var after := Words(ws[1..]) + a + b;
      && Words(ws) + a + b == [Word(ws[0])] + after
      && (if |ws| == 1 then after == a + b else after != [] && after[0] == Word(ws[1]))
  {
    var more := Words(ws[1..]);
    assert Words(ws) == [Word(ws[0])] + more;
    Shift(Word(ws[0]), more, a, b);
    if |ws| == 1 {
      assert more == [] && [] + a == a;
    } else {
      assert more[0] == Word(ws[1]) && (more + a + b)[0] == more[0];
    }
  }

  lemma Shift(x: Tok, a: seq<Tok>, b: seq<Tok>, c: seq<Tok>)
    ensures [x] + a + b + c == [x] + (a + b + c)
  {
  }

  lemma {:induction false} AmpsBack(c: Cmd<string>, k: nat, rest: seq<Tok>)
    requires !StartsWith(rest, "&")
    ensures PBacks(c, Amps(k) + rest) == Done(Backed(c, k), rest)
    decreases k
  {
    if k == 0 {
      assert Amps(0) + rest == rest;
    } else {
      AmpsFirst(k);
      assert (Amps(k) + rest)[0] == Sym('&') && (Amps(k) + rest)[1..] == Amps(k - 1) + rest;
      AmpsBack(Back(c), k - 1, rest);
      BackedFirst(c, k);
    }
  }

  lemma {:induction false} AmpsFirst(k: nat)
    requires k > 0
    ensures Amps(k) == [Sym('&')] + Amps(k - 1)
  {
    if k > 1 {
      AmpsFirst(k - 1);
    }
  }

  lemma {:induction false} BackedFirst(c: Cmd<string>, k: nat)
    requires k > 0
    ensures Backed(c, k) == Backed(Back(c), k - 1)
  {
    if k > 1 {
      BackedFirst(c, k - 1);
    }
  }

  lemma InParens(c: Cmd<string>)
    requires !c.Exec? && !c.Redir?
    ensures PrExec(c) == [Sym('(')] + PrLine(c) + [Sym(')')]
  {
    if !c.List? {
      assert PrLine(c) == PrBack(c);
    }
    if c.Pipe? {
      assert PrBack(c) == PrPipe(c);
    }
  }

  lemma ExecArgs(ts: seq<Tok>)
    requires !StartsWith(ts, "(") && PRedirs([], ts).RDone?
    ensures PExec(ts) == PArgs([], PRedirs([], ts).list, PRedirs([], ts).rest)
  {
  }

  lemma RedirsNone(ts: seq<Tok>)
    requires !StartsWith(ts, "<>")
    ensures PRedirs([], ts) == RDone([], ts)
  {
  }

  lemma NotOpening(rs: seq<Redirect<string>>, rest: seq<Tok>)
    requires AfterExec(rest)
    ensures !StartsWith(AllRedirs(rs) + rest, "(") && !StartsWith(rest, "<>")
  {
    assert rs != [] ==> (AllRedirs(rs) + rest)[0] == RedirToks(rs[0])[0];
    assert rs == [] ==> AllRedirs(rs) + rest == rest;
  }

  lemma SimpleBack(argv: seq<string>, rs: seq<Redirect<string>>, rest: seq<Tok>)
    requires AfterExec(rest) && |argv| < MAXARGS
    ensures PExec(Words(argv) + AllRedirs(rs) + rest) == Done(Wrap(Exec(argv), rs), rest)
  {
    hide PExec, PArgs, PRedirs, Wrap, AllRedirs, AfterExec;
    var ts := Words(argv) + AllRedirs(rs) + rest;
    if argv == [] {
      assert ts == AllRedirs(rs) + rest;
      NotOpening(rs, rest);
      RedirsBack([], rs, rest);
      assert [] + rs == rs;
      ExecArgs(ts);
      ArgsStop([], rs, rest);
    } else {
      assert ts[0] == Word(argv[0]);
      RedirsNone(ts);
      ExecArgs(ts);
      ArgsBack([], argv, rs, rest);
      assert [] + argv == argv;
    }
  }

  lemma BlockBack(c: Cmd<string>, line: seq<Tok>, rs: seq<Redirect<string>>, rest: seq<Tok>)
    requires
      && AfterExec(rest)
      && PLine(line + ([Sym(')')] + (AllRedirs(rs) + rest))) == Done(c, [Sym(')')] + (AllRedirs(rs) + rest))
    ensures PExec([Sym('(')] + line + [Sym(')')] + AllRedirs(rs) + rest) == Done(Wrap(c, rs), rest)
  {
    hide PLine, PArgs, PRedirs, Wrap, AllRedirs;
    var after := [Sym(')')] + (AllRedirs(rs) + rest);
    var ts := [Sym('(')] + line + [Sym(')')] + AllRedirs(rs) + rest;
    assert ts[0] == Sym('(') && ts[1..] == line + after;
    assert after[1..] == AllRedirs(rs) + rest;
    RedirsBack([], rs, rest);
    assert [] + rs == rs;
  }

  lemma {:induction false} ExecBack(c: Cmd<string>, rest: seq<Tok>)
    requires Printable(c) && AfterExec(rest)
    ensures PExec(PrExec(c) + rest) == Done(c, rest)
    decreases |PrExec(c)|, 0
  {
    Unwrap(c);
    var b, rs := Base(c), Redirects(c);
    if b.Exec? {
      SimpleBack(b.argv, rs, rest);
    } else {
      InParens(b);
      LineBack(b, [Sym(')')] + (AllRedirs(rs) + rest));
      BlockBack(b, PrLine(b), rs, rest);
    }
  }

  lemma PipeParts(c: Cmd<string>)
    requires c.Pipe? && Printable(c)
    ensures Printable(c.left) && Printable(c.right)
  {
  }

  lemma {:induction false} PipeBack(c: Cmd<string>, rest: seq<Tok>)
    requires Printable(c) && AfterExec(rest) && !StartsWith(rest, "|")
    ensures PPipe(PrPipe(c) + rest) == Done(c, rest)
    decreases |PrPipe(c)|, 1
  {
    hide PExec, Printable;
    if c.Pipe? {
      assert Printable(c.left) && Printable(c.right) by { PipeParts(c); }
      var after := [Sym('|')] + (PrPipe(c.right) + rest);
      assert PrPipe(c) + rest == PrExec(c.left) + after;
      ExecBack(c.left, after);
      assert after[1..] == PrPipe(c.right) + rest;
      PipeBack(c.right, rest);
    } else {
      ExecBack(c, rest);
    }
  }

  /** parseline() before it looks for `;`. */
  lemma {:induction false} BackBack(c: Cmd<string>, rest: seq<Tok>)
    requires Printable(c) && (AfterLine(rest) || StartsWith(rest, ";"))
    ensures var p := PPipe(PrBack(c) + rest); p.Done? && PBacks(p.cmd, p.rest) == Done(c, rest)
    decreases |PrBack(c)|, 2
  {
    Unback(c);
    var k := Depth(c);
    assert PrBack(c) + rest == PrPipe(Core(c)) + (Amps(k) + rest);
    if k > 0 { AmpsFirst(k); }
    PipeBack(Core(c), Amps(k) + rest);
    AmpsBack(Core(c), k, rest);
  }

  lemma {:induction false} LineBack(c: Cmd<string>, rest: seq<Tok>)
    requires Printable(c) && AfterLine(rest)
    ensures PLine(PrLine(c) + rest) == Done(c, rest)
    decreases |PrLine(c)|, 3
  {
    if c.List? {
      var after := [Sym(';')] + (PrLine(c.right) + rest);
      assert PrLine(c) + rest == PrBack(c.left) + after;
      BackBack(c.left, after);
      assert after[1..] == PrLine(c.right) + rest;
      LineBack(c.right, rest);
    } else {
      BackBack(c, rest);
    }
  }

  predicate TokOk(t: Tok) {
    match t case Sym(c) => IsSymbol(c) case Append => true case Word(w) => WordOk(w)
  }

  predicate TokensOk(ts: seq<Tok>) { forall i :: 0 <= i < |ts| ==> TokOk(ts[i]) }

  function TokText(t: Tok): string {
    match t case Sym(c) => [c] case Append => ">>" case Word(w) => w
  }

  function Render(ts: seq<Tok>): string {
    if ts == [] then "" else TokText(ts[0]) + " " + Render(ts[1..])
  }

  lemma {:induction false} WordLenOf(w: string, s: string)
    requires (forall i :: 0 <= i < |w| ==> IsWordChar(w[i])) && (s == [] || !IsWordChar(s[0]))
    ensures WordLen(w + s) == |w|
  {
    if w == [] {
      assert w + s == s;
    } else {
      assert (w + s)[0] == w[0] && (w + s)[1..] == w[1..] + s;
      WordLenOf(w[1..], s);
    }
  }

  lemma LexOne(t: Tok, s: string)
    requires TokOk(t)
    ensures Lex(TokText(t) + " " + s) == [t] + Lex(s)
  {
    var all := TokText(t) + " " + s;
    LexSpace(s);
    match t
    case Sym(c) =>
      assert all == [c] + (" " + s);
      LexSym(c, " " + s);
    case Append =>
      assert all == ">>" + (" " + s);
      LexAppend(" " + s);
    case Word(w) =>
      assert all == w + (" " + s);
      LexWord(w, " " + s);
  }

  lemma LexSpace(s: string)
    ensures Lex(" " + s) == Lex(s)
  {
    assert (" " + s)[1..] == s;
  }

  lemma LexSym(c: char, s: string)
    requires IsSymbol(c) && s != [] && s[0] != '>'
    ensures Lex([c] + s) == [Sym(c)] + Lex(s)
  {
    assert ([c] + s)[0] == c && ([c] + s)[1] == s[0] && ([c] + s)[1..] == s;
  }

  lemma LexAppend(s: string)
    ensures Lex(">>" + s) == [Append] + Lex(s)
  {
    assert (">>" + s)[0] == '>' && (">>" + s)[1] == '>' && (">>" + s)[2..] == s;
  }

  lemma LexWord(w: string, s: string)
    requires WordOk(w) && s != [] && !IsWordChar(s[0])
    ensures Lex(w + s) == [Word(w)] + Lex(s)
  {
    WordLenOf(w, s);
    assert (w + s)[0] == w[0] && IsWordChar(w[0]);
    assert (w + s)[..|w|] == w && (w + s)[|w|..] == s;
  }

  lemma {:induction false} LexBack(ts: seq<Tok>)
    requires TokensOk(ts)
    ensures Lex(Render(ts)) == ts
  {
    if ts != [] {
      LexOne(ts[0], Render(ts[1..]));
      LexBack(ts[1..]);
    }
  }

  lemma {:induction false} WordsOk(argv: seq<string>)
    requires forall i :: 0 <= i < |argv| ==> WordOk(argv[i])
    ensures TokensOk(Words(argv))
  {
    if argv != [] {
      WordsOk(argv[1..]);
    }
  }

  lemma OkJoin(a: seq<Tok>, t: Tok, b: seq<Tok>)
    requires TokensOk(a) && TokOk(t) && TokensOk(b)
    ensures TokensOk(a + [t] + b) && TokensOk(a + [t])
  {
  }

  lemma OkParens(a: seq<Tok>)
    requires TokensOk(a)
    ensures TokensOk([Sym('(')] + a + [Sym(')')])
  {
  }

  lemma OkRedir(a: seq<Tok>, r: Redirect<string>)
    requires TokensOk(a) && WordOk(r.file)
    ensures TokensOk(a + RedirToks(r))
  {
  }

  lemma {:induction false} ExecToksOk(c: Cmd<string>)
    requires Printable(c)
    ensures TokensOk(PrExec(c)) && TokensOk(PrLine(c)) && TokensOk(PrBack(c)) && TokensOk(PrPipe(c))
  {
    hide WordOk, TokensOk;
    match c
    case Exec(argv) =>
      WordsOk(argv);
      assert PrBack(c) == PrPipe(c);
    case Redir(d, r) =>
      ExecToksOk(d);
      OkRedir(PrExec(d), r);
      assert PrBack(c) == PrPipe(c);
    case Pipe(l, r) =>
      ExecToksOk(l);
      ExecToksOk(r);
      OkJoin(PrExec(l), Sym('|'), PrPipe(r));
      OkParens(PrExec(l) + [Sym('|')] + PrPipe(r));
      assert PrBack(c) == PrPipe(c);
    case List(l, r) =>
      ExecToksOk(l);
      ExecToksOk(r);
      OkJoin(PrBack(l), Sym(';'), PrLine(r));
      OkParens(PrBack(l) + [Sym(';')] + PrLine(r));
    case Back(d) =>
      ExecToksOk(d);
      OkJoin(PrBack(d), Sym('&'), PrBack(d));
      OkParens(PrBack(d) + [Sym('&')]);
  }

  /** Every tree has a line that parses to it. */
  lemma RoundTrip(c: Cmd<string>)
    requires Printable(c)
    ensures Parse(Render(PrLine(c))) == Done(c, [])
  {
    ExecToksOk(c);
    LexBack(PrLine(c));
    LineBack(c, []);
    assert PrLine(c) + [] == PrLine(c);
  }

  // ---------------------------------------------------------------- only such trees

  predicate RedirectsOk(rs: seq<Redirect<string>>) { forall i :: 0 <= i < |rs| ==> WordOk(rs[i].file) }

  /** An accepted parse is a tree of the kind RoundTrip covers, and leaves tokens for the next parser. */
  predicate Sound(r: Parsed) { r.Done? ==> Printable(r.cmd) && TokensOk(r.rest) }

  lemma {:induction false} LexOk(s: string)
    ensures TokensOk(Lex(s))
    decreases |s|
  {
    if s != [] && s[0] != '\0' {
      if IsSpace(s[0]) || !(s[0] == '>' && |s| >= 2 && s[1] == '>') { LexOk(s[1..]); } else { LexOk(s[2..]); }
      if IsWordChar(s[0]) { LexOk(s[WordLen(s)..]); }
    }
  }

  lemma {:induction false} WrapSound(c: Cmd<string>, rs: seq<Redirect<string>>)
    requires Printable(c) && RedirectsOk(rs)
    ensures Printable(Wrap(c, rs))
    decreases |rs|
  {
    if rs != [] {
      WrapSound(Redir(c, rs[0]), rs[1..]);
    }
  }

  lemma {:induction false} RedirsSound(rs: seq<Redirect<string>>, ts: seq<Tok>)
    requires TokensOk(ts) && RedirectsOk(rs)
    ensures var r := PRedirs(rs, ts); r.RDone? ==> RedirectsOk(r.list) && TokensOk(r.rest)
    decreases |ts|
  {
    if StartsWith(ts, "<>") && |ts| >= 2 && ts[1].Word? {
      assert TokOk(ts[1]);
      RedirsSound(rs + [Redirect(ts[1].text, ModeOf(ts[0]))], ts[2..]);
    }
  }

  lemma {:induction false} ArgsSound(args: seq<string>, rs: seq<Redirect<string>>, ts: seq<Tok>)
    requires TokensOk(ts) && RedirectsOk(rs) && Printable(Exec(args))
    ensures Sound(PArgs(args, rs, ts))
    decreases |ts|
  {
    if ts == [] || StartsWith(ts, "|)&;") {
      WrapSound(Exec(args), rs);
    } else if ts[0].Word? && |args| + 1 < MAXARGS {
      assert TokOk(ts[0]);
      RedirsSound(rs, ts[1..]);
      var r := PRedirs(rs, ts[1..]);
      if r.RDone? { ArgsSound(args + [ts[0].text], r.list, r.rest); }
    }
  }

  lemma {:induction false} ExecSound(ts: seq<Tok>)
    requires TokensOk(ts)
    ensures Sound(PExec(ts))
    decreases |ts|, 1
  {
    if StartsWith(ts, "(") {
      LineSound(ts[1..]);
      var p := PLine(ts[1..]);
      if p.Done? && StartsWith(p.rest, ")") {
        RedirsSound([], p.rest[1..]);
        var r := PRedirs([], p.rest[1..]);
        if r.RDone? { WrapSound(p.cmd, r.list); }
      }
    } else {
      RedirsSound([], ts);
      var r := PRedirs([], ts);
      if r.RDone? { ArgsSound([], r.list, r.rest); }
    }
  }

  lemma {:induction false} PipeSound(ts: seq<Tok>)
    requires TokensOk(ts)
    ensures Sound(PPipe(ts))
    decreases |ts|, 2
  {
    ExecSound(ts);
    var p := PExec(ts);
    if p.Done? && StartsWith(p.rest, "|") { PipeSound(p.rest[1..]); }
  }

  lemma {:induction false} BacksSound(c: Cmd<string>, ts: seq<Tok>)
    requires TokensOk(ts) && Printable(c)
    ensures Sound(PBacks(c, ts))
    decreases |ts|
  {
    if StartsWith(ts, "&") { BacksSound(Back(c), ts[1..]); }
  }

  lemma {:induction false} LineSound(ts: seq<Tok>)
    requires TokensOk(ts)
    ensures Sound(PLine(ts))
    decreases |ts|, 3
  {
    PipeSound(ts);
    var p := PPipe(ts);
    if p.Done? {
      BacksSound(p.cmd, p.rest);
      var b := PBacks(p.cmd, p.rest);
      if StartsWith(b.rest, ";") { LineSound(b.rest[1..]); }
    }
  }

  /** The trees that some line parses to are exactly the printable ones. */
  lemma ParsesExactly(c: Cmd<string>)
    ensures Printable(c) <==> exists line :: Parse(line) == Done(c, [])
  {
    if Printable(c) {
      RoundTrip(c);
    }
    if exists line :: Parse(line) == Done(c, []) {
      var line :| Parse(line) == Done(c, []);
      LexOk(line);
      LineSound(Lex(line));
    }
  }

  // ---------------------------------------------------------------- sh.c

  datatype Result<T> = Ok(value: T) | Err(error: Error)

  /** Where a word stands: its first character and the one after its last. */
  datatype Span = Span(q: nat, eq: nat)

  /** A longest run of word characters. */
  predicate SpanOk(line: string, w: Span) {
    && w.q < w.eq <= |line| && (forall i :: w.q <= i < w.eq ==> IsWordChar(line[i]))
    && (w.eq < |line| ==> !IsWordChar(line[w.eq]))
  }

  predicate NoNul(line: string) { forall i :: 0 <= i < |line| ==> line[i] != '\0' }

  function TextOf(line: string, w: Span): string { if w.q <= w.eq <= |line| then line[w.q..w.eq] else "" }

  function RedirectText(line: string, r: Redirect<Span>): Redirect<string> { Redirect(TextOf(line, r.file), r.mode) }

  function RedirectTexts(line: string, rs: seq<Redirect<Span>>): seq<Redirect<string>> {
    if rs == [] then [] else RedirectTexts(line, rs[..|rs| - 1]) + [RedirectText(line, rs[|rs| - 1])]
  }

  function ArgTexts(line: string, argv: seq<Span>): (r: seq<string>)
    ensures |r| == |argv|
  {
    if argv == [] then [] else ArgTexts(line, argv[..|argv| - 1]) + [TextOf(line, argv[|argv| - 1])]
  }

  /** The tree with each word replaced by its text. */
  function Texts(line: string, c: Cmd<Span>): Cmd<string> {
    match c
    case Exec(argv) => Exec(ArgTexts(line, argv))
    case Redir(d, r) => Redir(Texts(line, d), RedirectText(line, r))
    case Pipe(l, r) => Pipe(Texts(line, l), Texts(line, r))
    case List(l, r) => List(Texts(line, l), Texts(line, r))
    case Back(d) => Back(Texts(line, d))
  }

  /** The words of a tree. */
  ghost function SpansOf(c: Cmd<Span>): set<Span> {
    match c
    case Exec(argv) => set w | w in argv
    case Redir(d, r) => SpansOf(d) + {r.file}
    case Pipe(l, r) => SpansOf(l) + SpansOf(r)
    case List(l, r) => SpansOf(l) + SpansOf(r)
    case Back(d) => SpansOf(d)
  }

  ghost predicate SpansOk(line: string, c: Cmd<Span>) { forall w :: w in SpansOf(c) ==> SpanOk(line, w) }

  lemma {:induction false} WrapTexts(line: string, c: Cmd<Span>, rs: seq<Redirect<Span>>)
    requires SpansOk(line, c) && FilesOk(line, rs)
    ensures Texts(line, Wrap(c, rs)) == Wrap(Texts(line, c), RedirectTexts(line, rs)) && SpansOk(line, Wrap(c, rs))
    decreases |rs|
  {
    hide SpanOk, TextOf;
    if rs != [] {
      var k := |rs| - 1;
      WrapTexts(line, c, rs[..k]);
      WrapLast(c, rs[..k], rs[k]);
      assert rs[..k] + [rs[k]] == rs;
      WrapLast(Texts(line, c), RedirectTexts(line, rs[..k]), RedirectText(line, rs[k]));
    }
  }

  /** What gettoken() returns for a token. */
  function TokOf(ret: char, line: string, w: Span): Tok {
    if ret == 'a' then Word(TextOf(line, w)) else if ret == '+' then Append else Sym(ret)
  }

  method SkipSpace(line: string, pos: nat) returns (s: nat)
    requires pos <= |line|
    ensures pos <= s <= |line| && (s < |line| ==> !IsSpace(line[s])) && Lex(line[s..]) == Lex(line[pos..])
  {
    s := pos;
    while s < |line| && IsSpace(line[s])
      invariant pos <= s <= |line| && Lex(line[s..]) == Lex(line[pos..])
    {
      assert line[s..][1..] == line[s + 1..];
      s := s + 1;
    }
  }

  /** The default branch of gettoken()'s switch. */
  method SkipWord(line: string, pos: nat) returns (s: nat)
    requires pos < |line| && NoNul(line) && IsWordChar(line[pos])
    ensures pos < s <= |line| && SpanOk(line, Span(pos, s)) && Lex(line[pos..]) == [Word(line[pos..s])] + Lex(line[s..])
  {
    s := pos;
    while s < |line| && !IsSpace(line[s]) && !IsSymbol(line[s])
      invariant pos <= s <= |line| && forall i :: pos <= i < s ==> IsWordChar(line[i])
    {
      s := s + 1;
    }
    LexWordAt(line, pos, s);
  }

  lemma LexWordAt(line: string, pos: nat, s: nat)
    requires pos < s <= |line| && NoNul(line) && (forall i :: pos <= i < s ==> IsWordChar(line[i]))
    requires s < |line| ==> !IsWordChar(line[s])
    ensures SpanOk(line, Span(pos, s)) && Lex(line[pos..]) == [Word(line[pos..s])] + Lex(line[s..])
  {
    var w := line[pos..s];
    assert line[pos..] == w + line[s..];
    if s < |line| {
      assert line[s..][0] == line[s];
    }
    WordLenOf(w, line[s..]);
    assert (w + line[s..])[..|w|] == w && (w + line[s..])[|w|..] == line[s..];
    assert line[pos..][0] == line[pos];
  }

  lemma LexSymAt(line: string, s: nat)
    requires s < |line| && IsSymbol(line[s]) && NoNul(line)
    ensures Lex(line[s..]) ==
      if line[s] == '>' && s + 1 < |line| && line[s + 1] == '>' then [Append] + Lex(line[s + 2..])
      else [Sym(line[s])] + Lex(line[s + 1..])
  {
    var t := line[s..];
    assert t[0] == line[s] && t[1..] == line[s + 1..];
    if s + 1 < |line| {
      assert t[1] == line[s + 1] && t[2..] == line[s + 2..];
    }
  }

  lemma LexEnd(line: string, s: nat)
    requires s == |line|
    ensures Lex(line[s..]) == []
  {
  }

  method GetToken(line: string, pos: nat) returns (ret: char, w: Span, s: nat)
    requires pos <= |line| && NoNul(line)
    ensures pos <= s <= |line|
    ensures ret == '\0' || ret == 'a' || ret == '+' || IsSymbol(ret)
    ensures ret == '\0' ==> Lex(line[pos..]) == [] && Lex(line[s..]) == []
    ensures ret != '\0' ==> Lex(line[pos..]) == [TokOf(ret, line, w)] + Lex(line[s..])
    ensures ret == 'a' ==> SpanOk(line, w)
  {
    hide Lex;
    s := SkipSpace(line, pos);
    var q := s;
    if s == |line| {
      LexEnd(line, s);
      ret := '\0';
    } else if IsSymbol(line[s]) {
      LexSymAt(line, s);
      ret := line[s];
      s := s + 1;
      if ret == '>' && s < |line| && line[s] == '>' {
        ret := '+';
        s := s + 1;
      }
    } else {
      ret := 'a';
      s := SkipWord(line, s);
    }
    w := Span(q, s);
    s := SkipSpace(line, s);
  }

  method Peek(line: string, pos: nat, toks: string) returns (found: bool, s: nat)
    requires pos <= |line| && NoNul(line) && forall c :: c in toks ==> IsSymbol(c)
    ensures pos <= s <= |line| && Lex(line[s..]) == Lex(line[pos..])
    ensures found <==> StartsWith(Lex(line[pos..]), toks)
    ensures toks == "" ==> (s == |line| <==> Lex(line[pos..]) == [])
  {
    s := SkipSpace(line, pos);
    found := s < |line| && line[s] in toks;
    assert s < |line| ==> line[s..][0] == line[s];
  }

  /** A parser's outcome is the grammar's, word for word, with the cursor where the grammar's rest begins. */
  ghost predicate Agrees(line: string, r: Result<Cmd<Span>>, s: nat, p: Parsed) {
    match r
    case Err(e) => p == Fail(e)
    case Ok(c) => s <= |line| && p == Done(Texts(line, c), Lex(line[s..])) && SpansOk(line, c)
  }

  ghost predicate FilesOk(line: string, rs: seq<Redirect<Span>>) {
    forall i :: 0 <= i < |rs| ==> SpanOk(line, rs[i].file)
  }

  /** parseredirs(): the redirections rs0 found so far and those that follow. */
  method ParseRedirs(line: string, pos: nat, rs0: seq<Redirect<Span>>) returns (r: Result<seq<Redirect<Span>>>, s: nat)
    requires pos <= |line| && NoNul(line) && FilesOk(line, rs0)
    ensures s <= |line|
    ensures match r
      case Err(e) => PRedirs(RedirectTexts(line, rs0), Lex(line[pos..])) == RFail(e)
      case Ok(rs) =>
        && PRedirs(RedirectTexts(line, rs0), Lex(line[pos..])) == RDone(RedirectTexts(line, rs), Lex(line[s..]))
        && FilesOk(line, rs)
  {
    hide Lex, SpanOk, TextOf, PRedirs, RedirectTexts, FilesOk;
    var rs := rs0;
    var found;
    found, s := Peek(line, pos, "<>");
    while found
      invariant s <= |line| && found == StartsWith(Lex(line[s..]), "<>")
      invariant PRedirs(RedirectTexts(line, rs0), Lex(line[pos..])) == PRedirs(RedirectTexts(line, rs), Lex(line[s..]))
      invariant FilesOk(line, rs)
      decreases |Lex(line[s..])|
    {
      ghost var ts := Lex(line[s..]);
      RedirStep(RedirectTexts(line, rs), ts);
      var tok, ret, w;
      tok, w, s := GetToken(line, s);
      assert ts[1..] == Lex(line[s..]);
      ret, w, s := GetToken(line, s);
      if ret != 'a' {
        return Err(MissingFile), s;
      }
      assert ts[2..] == Lex(line[s..]);
      var r1 := Redirect(w, if tok == '<' then In else Out);
      OneMoreFile(line, rs, r1);
      rs := rs + [r1];
      found, s := Peek(line, s, "<>");
    }
    RedirsStop(RedirectTexts(line, rs), Lex(line[s..]));
    return Ok(rs), s;
  }

  /** One turn of the loop: a redirection sign wants a word after it. */
  lemma RedirStep(rs: seq<Redirect<string>>, ts: seq<Tok>)
    requires StartsWith(ts, "<>")
    ensures ts != []
    ensures PRedirs(rs, ts) ==
      if |ts| < 2 || !ts[1].Word? then RFail(MissingFile)
      else PRedirs(rs + [Redirect(ts[1].text, ModeOf(ts[0]))], ts[2..])
  {
  }

  lemma RedirsStop(rs: seq<Redirect<string>>, ts: seq<Tok>)
    requires !StartsWith(ts, "<>")
    ensures PRedirs(rs, ts) == RDone(rs, ts)
  {
  }

  lemma OneMoreFile(line: string, rs: seq<Redirect<Span>>, r: Redirect<Span>)
    requires FilesOk(line, rs) && SpanOk(line, r.file)
    ensures FilesOk(line, rs + [r])
    ensures RedirectTexts(line, rs + [r]) == RedirectTexts(line, rs) + [Redirect(TextOf(line, r.file), r.mode)]
  {
    assert (rs + [r])[..|rs|] == rs;
  }

  lemma EmptyFiles(line: string)
    ensures FilesOk(line, []) && RedirectTexts(line, []) == []
  {
  }

  /** parseexec() on an argument list. */
  method ParseArgs(line: string, pos: nat) returns (r: Result<Cmd<Span>>, s: nat)
    requires pos <= |line| && NoNul(line) && !StartsWith(Lex(line[pos..]), "(")
    ensures Agrees(line, r, s, PExec(Lex(line[pos..])))
  {
    hide Lex, SpanOk, Wrap, RedirectTexts, FilesOk;
    var argv: seq<Span> := [];
    var first;
    EmptyFiles(line);
    first, s := ParseRedirs(line, pos, []);
    if first.Err? {
      return Err(first.error), s;
    }
    var rs, stop := first.value, false;
    stop, s := Peek(line, s, "|)&;");
    while !stop
      invariant s <= |line| && stop == StartsWith(Lex(line[s..]), "|)&;")
      invariant PExec(Lex(line[pos..])) == PArgs(ArgTexts(line, argv), RedirectTexts(line, rs), Lex(line[s..]))
      invariant FilesOk(line, rs) && |argv| < MAXARGS && forall i :: 0 <= i < |argv| ==> SpanOk(line, argv[i])
      decreases |Lex(line[s..])|
    {
      ghost var ts := Lex(line[s..]);
      var tok, w;
      ghost var s0 := s;
      tok, w, s := GetToken(line, s);
      if tok == '\0' {
        break;
      }
      if tok != 'a' {
        return Err(Syntax), s;
      }
      assert ts[1..] == Lex(line[s..]);
      var argv' := argv + [w];
      assert argv'[..|argv|] == argv;
      if |argv'| >= MAXARGS {
        return Err(TooManyArgs), s;
      }
      var more;
      more, s := ParseRedirs(line, s, rs);
      if more.Err? {
        return Err(more.error), s;
      }
      argv, rs := argv', more.value;
      stop, s := Peek(line, s, "|)&;");
    }
    WrapTexts(line, Exec(argv), rs);
    return Ok(Wrap(Exec(argv), rs)), s;
  }

  method ParseExec(line: string, pos: nat) returns (r: Result<Cmd<Span>>, s: nat)
    requires pos <= |line| && NoNul(line)
    ensures Agrees(line, r, s, PExec(Lex(line[pos..])))
    decreases |Lex(line[pos..])|, 1
  {
    var block;
    block, s := Peek(line, pos, "(");
    if block {
      r, s := ParseBlock(line, s);
    } else {
      r, s := ParseArgs(line, s);
    }
  }

  method ParseBlock(line: string, pos: nat) returns (r: Result<Cmd<Span>>, s: nat)
    requires pos <= |line| && NoNul(line) && StartsWith(Lex(line[pos..]), "(")
    ensures Agrees(line, r, s, PExec(Lex(line[pos..])))
    decreases |Lex(line[pos..])|, 0
  {
    ghost var ts := Lex(line[pos..]);
    var tok, w;
    tok, w, s := GetToken(line, pos);
    assert ts[1..] == Lex(line[s..]);
    r, s := ParseLine(line, s);
    if r.Err? {
      return;
    }
    ghost var rest := Lex(line[s..]);
    var closed;
    closed, s := Peek(line, s, ")");
    if !closed {
      return Err(MissingParen), s;
    }
    tok, w, s := GetToken(line, s);
    assert rest[1..] == Lex(line[s..]);
    var rs;
    rs, s := ParseRedirs(line, s, []);
    if rs.Err? {
      return Err(rs.error), s;
    }
    WrapTexts(line, r.value, rs.value);
    r := Ok(Wrap(r.value, rs.value));
  }

  method ParsePipe(line: string, pos: nat) returns (r: Result<Cmd<Span>>, s: nat)
    requires pos <= |line| && NoNul(line)
    ensures Agrees(line, r, s, PPipe(Lex(line[pos..])))
    decreases |Lex(line[pos..])|, 2
  {
    r, s := ParseExec(line, pos);
    if r.Err? {
      return;
    }
    ghost var rest := Lex(line[s..]);
    var more;
    more, s := Peek(line, s, "|");
    if more {
      var left, tok, w := r.value, '\0', Span(0, 0);
      tok, w, s := GetToken(line, s);
      assert rest[1..] == Lex(line[s..]);
      r, s := ParsePipe(line, s);
      if r.Ok? {
        r := Ok(Pipe(left, r.value));
      }
    }
  }

  method ParseLine(line: string, pos: nat) returns (r: Result<Cmd<Span>>, s: nat)
    requires pos <= |line| && NoNul(line)
    ensures Agrees(line, r, s, PLine(Lex(line[pos..])))
    decreases |Lex(line[pos..])|, 3
  {
    hide Lex, SpanOk;
    r, s := ParsePipe(line, pos);
    if r.Err? {
      return;
    }
    ghost var p := PPipe(Lex(line[pos..]));
    var more, cmd, tok, w := false, r.value, '\0', Span(0, 0);
    more, s := Peek(line, s, "&");
    while more
      invariant s <= |line| && more == StartsWith(Lex(line[s..]), "&") && SpansOk(line, cmd)
      invariant PBacks(p.cmd, p.rest) == PBacks(Texts(line, cmd), Lex(line[s..])) && |Lex(line[s..])| <= |p.rest|
      decreases |Lex(line[s..])|
    {
      ghost var ts := Lex(line[s..]);
      tok, w, s := GetToken(line, s);
      assert ts[1..] == Lex(line[s..]);
      cmd := Back(cmd);
      more, s := Peek(line, s, "&");
    }
    ghost var rest := Lex(line[s..]);
    more, s := Peek(line, s, ";");
    if more {
      tok, w, s := GetToken(line, s);
      assert rest[1..] == Lex(line[s..]);
      r, s := ParseLine(line, s);
      if r.Ok? {
        r := Ok(List(cmd, r.value));
      }
    } else {
      r := Ok(cmd);
    }
  }

  // ---------------------------------------------------------------- nulterminate()

  /** The C string at q. */
  function CString(buf: seq<char>, q: nat): string
    decreases |buf| - q
  {
    if q >= |buf| || buf[q] == '\0' then "" else [buf[q]] + CString(buf, q + 1)
  }

  lemma {:induction false} CStringUpTo(buf: seq<char>, q: nat, e: nat)
    requires q <= e < |buf| && buf[e] == '\0' && forall i :: q <= i < e ==> buf[i] != '\0'
    ensures CString(buf, q) == buf[q..e]
    decreases e - q
  {
    if q < e {
      CStringUpTo(buf, q + 1, e);
      assert buf[q..e] == [buf[q]] + buf[q + 1..e];
    }
  }

  ghost predicate EndsAt(c: Cmd<Span>, i: nat) { exists w :: w in SpansOf(c) && w.eq == i }

  /** Every word end gets a NUL, no other character changes. */
  ghost predicate Terminated(before: seq<char>, after: seq<char>, c: Cmd<Span>) {
    |after| == |before| && forall i :: 0 <= i < |before| ==> after[i] == if EndsAt(c, i) then '\0' else before[i]
  }

  method NulExec(buf: array<char>, c: Cmd<Span>)
    requires c.Exec? && forall w :: w in SpansOf(c) ==> w.eq < buf.Length
    modifies buf
    ensures Terminated(old(buf[..]), buf[..], c)
  {
    for i := 0 to |c.argv|
      invariant forall k :: 0 <= k < buf.Length ==>
        buf[k] == if exists j :: 0 <= j < i && c.argv[j].eq == k then '\0' else old(buf[k])
    {
      assert c.argv[i] in SpansOf(c);
      buf[c.argv[i].eq] := '\0';
    }
    forall k | 0 <= k < buf.Length
      ensures EndsAt(c, k) <==> exists j :: 0 <= j < |c.argv| && c.argv[j].eq == k
    {
      if j :| 0 <= j < |c.argv| && c.argv[j].eq == k {
        assert c.argv[j] in SpansOf(c);
      }
    }
  }

  method Nulterminate(buf: array<char>, c: Cmd<Span>)
    requires forall w :: w in SpansOf(c) ==> w.eq < buf.Length
    modifies buf
    ensures Terminated(old(buf[..]), buf[..], c)
    decreases c
  {
    match c
    case Exec(_) => NulExec(buf, c);
    case Redir(d, r) =>
      Nulterminate(buf, d);
      buf[r.file.eq] := '\0';
      EndsUnion(c, d, Exec([r.file]));
    case Pipe(l, r) =>
      Nulterminate(buf, l);
      Nulterminate(buf, r);
      EndsUnion(c, l, r);
    case List(l, r) =>
      Nulterminate(buf, l);
      Nulterminate(buf, r);
      EndsUnion(c, l, r);
    case Back(d) =>
      Nulterminate(buf, d);
      EndsUnion(c, d, d);
  }

  lemma EndsUnion(c: Cmd<Span>, a: Cmd<Span>, b: Cmd<Span>)
    requires SpansOf(c) == SpansOf(a) + SpansOf(b)
    ensures forall i: nat :: EndsAt(c, i) <==> EndsAt(a, i) || EndsAt(b, i)
  {
    hide SpansOf;
  }

  /** No word ends inside a word. */
  lemma WordsStay(line: string, c: Cmd<Span>, i: nat)
    requires SpansOk(line, c) && i < |line| && IsWordChar(line[i])
    ensures !EndsAt(c, i)
  {
    forall w | w in SpansOf(c)
      ensures w.eq != i
    {
      assert SpanOk(line, w);
    }
  }

  /** After nulterminate() each word of the tree reads as its token. */
  lemma ReadsBack(line: string, after: seq<char>, c: Cmd<Span>, w: Span)
    requires NoNul(line) && SpansOk(line, c) && w in SpansOf(c) && Terminated(line + ['\0'], after, c)
    ensures CString(after, w.q) == TextOf(line, w)
  {
    assert SpanOk(line, w) && EndsAt(c, w.eq);
    forall i | w.q <= i < w.eq
      ensures after[i] == line[i] && after[i] != '\0'
    {
      WordsStay(line, c, i);
    }
    CStringUpTo(after, w.q, w.eq);
    assert after[w.q..w.eq] == line[w.q..w.eq];
  }

  /**
   parsecmd() on a NUL-terminated buffer: it accepts exactly the lines the grammar does, with the
   grammar's tree, and leaves the buffer so that every argument and file name is a C string of its own.
   */
  method ParseCmd(buf: array<char>) returns (r: Result<Cmd<Span>>)
    requires buf.Length >= 1 && buf[buf.Length - 1] == '\0' && NoNul(buf[..buf.Length - 1])
    modifies buf
    ensures var line := old(buf[..buf.Length - 1]);
      match r
      case Err(e) => Parse(line) == Fail(e) && buf[..] == old(buf[..])
      case Ok(c) =>
        && Parse(line) == Done(Texts(line, c), [])
        && forall w :: w in SpansOf(c) ==> CString(buf[..], w.q) == TextOf(line, w)
  {
    var line := buf[..buf.Length - 1];
    assert buf[..] == line + ['\0'];
    var s, found;
    r, s := ParseLine(line, 0);
    assert line[0..] == line;
    if r.Err? {
      return;
    }
    found, s := Peek(line, s, "");
    if s != |line| {
      return Err(Leftovers);
    }
    ghost var c := r.value;
    assert forall w :: w in SpansOf(c) ==> SpanOk(line, w);
    Nulterminate(buf, r.value);
    forall w | w in SpansOf(c)
      ensures CString(buf[..], w.q) == TextOf(line, w)
    {
      ReadsBack(line, buf[..], c, w);
    }
  }
}
