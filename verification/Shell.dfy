/** The shell's command parser. Positions index the command line; a word is kept as the span of
    the line it occupies until nulterminate cuts the line up. */
module Shell {

  const MAXARGS: nat := 10
  const NUL: char := '\0'

  predicate IsSpace(c: char) { c == ' ' || c == '\t' || c == '\r' || c == '\n' || c == '\U{0B}' }
  predicate IsSymbol(c: char) { c in "<|>&;()" }
  predicate IsWordChar(c: char) { !IsSpace(c) && !IsSymbol(c) && c != NUL }

  /** A command line: the C string without its terminator. */
  predicate NoNul(s: string) { forall k :: 0 <= k < |s| ==> s[k] != NUL }

  datatype Span = Span(q: nat, eq: nat)
  datatype Mode = In | Out | Append
  datatype Cmd =
    | Exec(args: seq<Span>)
    | Redir(cmd: Cmd, file: Span, mode: Mode)
    | Pipe(left: Cmd, right: Cmd)
    | List(left: Cmd, right: Cmd)
    | Back(cmd: Cmd)

  // ---------- tokens ----------

  /** Not in the middle of a word. */
  predicate Boundary(s: string, i: nat) { i == 0 || i >= |s| || !IsWordChar(s[i - 1]) || !IsWordChar(s[i]) }

  function SkipSpace(s: string, i: nat): (j: nat)
    requires i <= |s|
    ensures Boundary(s, i) ==> Boundary(s, j)
    ensures i <= j <= |s| && (j < |s| ==> !IsSpace(s[j])) && forall k :: i <= k < j ==> IsSpace(s[k])
    decreases |s| - i
  { if i < |s| && IsSpace(s[i]) then SkipSpace(s, i + 1) else i }

  function WordEnd(s: string, i: nat): (j: nat)
    requires i <= |s|
    ensures i <= j <= |s| && (j < |s| ==> IsSpace(s[j]) || IsSymbol(s[j]))
    ensures forall k :: i <= k < j ==> !IsSpace(s[k]) && !IsSymbol(s[k])
    decreases |s| - i
  { if i < |s| && !IsSpace(s[i]) && !IsSymbol(s[i]) then WordEnd(s, i + 1) else i }

  /** kind is NUL at the end of the line, 'a' for a word, '+' for ">>", else the symbol itself. */
  datatype Token = Token(kind: char, q: nat, eq: nat, next: nat)

  function GetToken(s: string, i: nat): (t: Token)
    requires i <= |s|
    ensures i <= t.q <= t.eq <= t.next <= |s| && (t.kind != NUL && NoNul(s) ==> i < t.next)
    ensures Boundary(s, i) ==> Boundary(s, t.next)
    ensures t.kind == 'a' && NoNul(s) && Boundary(s, i) ==> WordSpan(s, Span(t.q, t.eq))
  {
    var q := SkipSpace(s, i);
    if q == |s| then Token(NUL, q, q, q)
    else
      var c := s[q];
      if c == NUL then Token(NUL, q, q, SkipSpace(s, q))
      else if c == '|' || c == '(' || c == ')' || c == ';' || c == '&' || c == '<' then
        Token(c, q, q + 1, SkipSpace(s, q + 1))
      else if c == '>' then
        if q + 1 < |s| && s[q + 1] == '>' then Token('+', q, q + 2, SkipSpace(s, q + 2))
        else Token('>', q, q + 1, SkipSpace(s, q + 1))
      else Token('a', q, WordEnd(s, q), SkipSpace(s, WordEnd(s, q)))
  }

  /** The span is a whole word of the line: nonempty, all word characters, and between none. */
  ghost predicate WordSpan(s: string, w: Span) {
    && w.q < w.eq <= |s| && (forall k :: w.q <= k < w.eq ==> IsWordChar(s[k]))
    && (w.q > 0 ==> !IsWordChar(s[w.q - 1])) && (w.eq < |s| ==> !IsWordChar(s[w.eq]))
  }

  predicate Peek(s: string, i: nat, toks: string)
    requires i <= |s|
  { var j := SkipSpace(s, i); j < |s| && s[j] != NUL && s[j] in toks }

  // ---------- the grammar ----------

  datatype Redirection = Redirection(file: Span, mode: Mode)

  /** Redirections wrap what they follow, the first innermost. */
  function Wrap(c: Cmd, rs: seq<Redirection>): Cmd {
    if rs == [] then c else Redir(Wrap(c, rs[..|rs| - 1]), rs[|rs| - 1].file, rs[|rs| - 1].mode)
  }

  datatype Redirs = NoRedirs | Redirs(rs: seq<Redirection>, pos: nat)

  function ModeOf(kind: char): Mode { if kind == '<' then In else if kind == '>' then Out else Append }

  function ParseRedirs(s: string, i: nat, rs: seq<Redirection>): (r: Redirs)
    requires i <= |s| && NoNul(s)
    ensures r.Redirs? ==> i <= r.pos <= |s| && (Boundary(s, i) ==> Boundary(s, r.pos))
    decreases |s| - i
  {
    if Peek(s, i, "<>") then
      var t := GetToken(s, SkipSpace(s, i));
      var f := GetToken(s, t.next);
      if f.kind != 'a' then NoRedirs else ParseRedirs(s, f.next, rs + [Redirection(Span(f.q, f.eq), ModeOf(t.kind))])
    else Redirs(rs, SkipSpace(s, i))
  }

  datatype Args = NoArgs | Args(args: seq<Span>, rs: seq<Redirection>, pos: nat)

  function ParseArgs(s: string, i: nat, args: seq<Span>, rs: seq<Redirection>): (r: Args)
    requires i <= |s| && NoNul(s)
    ensures r.Args? ==> i <= r.pos <= |s| && (Boundary(s, i) ==> Boundary(s, r.pos))
    decreases |s| - i
  {
    var j := SkipSpace(s, i);
    if Peek(s, i, "|)&;") then Args(args, rs, j)
    else
      var t := GetToken(s, j);
      if t.kind == NUL then Args(args, rs, t.next)
      else if t.kind != 'a' then NoArgs
      else if |args| + 1 >= MAXARGS then NoArgs
      else
        var r := ParseRedirs(s, t.next, rs);
        if r.NoRedirs? then NoArgs else ParseArgs(s, r.pos, args + [Span(t.q, t.eq)], r.rs)
  }

  /** Fail is one of the parser's panics. */
  datatype Parse = Fail | Ok(cmd: Cmd, pos: nat)

  function ParseExec(s: string, i: nat): (r: Parse)
    requires i <= |s| && NoNul(s)
    ensures r.Ok? ==> i <= r.pos <= |s| && (Boundary(s, i) ==> Boundary(s, r.pos))
    decreases |s| - i, 1
  {
    if Peek(s, i, "(") then ParseBlock(s, SkipSpace(s, i))
    else
      var r := ParseRedirs(s, SkipSpace(s, i), []);
      if r.NoRedirs? then Fail
      else
        var a := ParseArgs(s, r.pos, [], r.rs);
        if a.NoArgs? then Fail else Ok(Wrap(Exec(a.args), a.rs), a.pos)
  }

  function ParseBlock(s: string, i: nat): (r: Parse)
    requires i <= |s| && NoNul(s)
    ensures r.Ok? ==> i <= r.pos <= |s| && (Boundary(s, i) ==> Boundary(s, r.pos))
    decreases |s| - i, 0
  {
    if !Peek(s, i, "(") then Fail
    else
      var c := ParseLine(s, GetToken(s, SkipSpace(s, i)).next);
      if c.Fail? || !Peek(s, c.pos, ")") then Fail
      else
        var r := ParseRedirs(s, GetToken(s, SkipSpace(s, c.pos)).next, []);
        if r.NoRedirs? then Fail else Ok(Wrap(c.cmd, r.rs), r.pos)
  }

  function ParsePipe(s: string, i: nat): (r: Parse)
    requires i <= |s| && NoNul(s)
    ensures r.Ok? ==> i <= r.pos <= |s| && (Boundary(s, i) ==> Boundary(s, r.pos))
    decreases |s| - i, 2
  {
    var c := ParseExec(s, i);
    if c.Fail? then Fail
    else if Peek(s, c.pos, "|") then
      var d := ParsePipe(s, GetToken(s, SkipSpace(s, c.pos)).next);
      if d.Fail? then Fail else Ok(Pipe(c.cmd, d.cmd), d.pos)
    else Ok(c.cmd, SkipSpace(s, c.pos))
  }

  function ParseBacks(s: string, i: nat, c: Cmd): (r: Parse)
    requires i <= |s| && NoNul(s)
    ensures r.Ok? && i <= r.pos <= |s| && (Boundary(s, i) ==> Boundary(s, r.pos))
    decreases |s| - i
  {
    if Peek(s, i, "&") then ParseBacks(s, GetToken(s, SkipSpace(s, i)).next, Back(c)) else Ok(c, SkipSpace(s, i))
  }

  function ParseLine(s: string, i: nat): (r: Parse)
    requires i <= |s| && NoNul(s)
    ensures r.Ok? ==> i <= r.pos <= |s| && (Boundary(s, i) ==> Boundary(s, r.pos))
    decreases |s| - i, 3
  {
    var c := ParsePipe(s, i);
    if c.Fail? then Fail
    else
      var b := ParseBacks(s, c.pos, c.cmd);
      if Peek(s, b.pos, ";") then
        var d := ParseLine(s, GetToken(s, SkipSpace(s, b.pos)).next);
        if d.Fail? then Fail else Ok(List(b.cmd, d.cmd), d.pos)
      else Ok(b.cmd, SkipSpace(s, b.pos))
  }

  /** parsecmd before it cuts the line up: the whole line or nothing. */
  function ParseCmd(s: string): (r: Parse)
    requires NoNul(s)
    ensures r.Ok? ==> r.pos == |s|
  {
    var c := ParseLine(s, 0);
    if c.Fail? || SkipSpace(s, c.pos) != |s| then Fail else Ok(c.cmd, |s|)
  }

  // ---------- the parser's code, cursor and loops ----------

  method Gettoken(s: string, ps: nat) returns (t: Token)
    requires ps <= |s|
    ensures t == GetToken(s, ps)
  {
    hide Boundary, WordSpan, NoNul, IsSpace, IsSymbol;
    var i := ps;
    while i < |s| && IsSpace(s[i])
      invariant ps <= i <= |s| && SkipSpace(s, ps) == SkipSpace(s, i)
    {
      i := i + 1;
    }
    var q := i;
    var ret := if i < |s| then s[i] else NUL;
    if ret == NUL {
    } else if ret == '|' || ret == '(' || ret == ')' || ret == ';' || ret == '&' || ret == '<' {
      i := i + 1;
    } else if ret == '>' {
      i := i + 1;
      if i < |s| && s[i] == '>' {
        ret := '+';
        i := i + 1;
      }
    } else {
      ret := 'a';
      while i < |s| && !IsSpace(s[i]) && !IsSymbol(s[i])
        invariant q <= i <= |s| && WordEnd(s, q) == WordEnd(s, i)
      {
        i := i + 1;
      }
    }
    var eq := i;
    while i < |s| && IsSpace(s[i])
      invariant eq <= i <= |s| && SkipSpace(s, eq) == SkipSpace(s, i)
    {
      i := i + 1;
    }
    t := Token(ret, q, eq, i);
  }

  method PeekAt(s: string, ps: nat, toks: string) returns (yes: bool, i: nat)
    requires ps <= |s|
    ensures yes == Peek(s, ps, toks) && i == SkipSpace(s, ps)
  {
    i := ps;
    while i < |s| && IsSpace(s[i])
      invariant ps <= i <= |s| && SkipSpace(s, ps) == SkipSpace(s, i)
    {
      i := i + 1;
    }
    yes := i < |s| && s[i] != NUL && s[i] in toks;
  }

  method Parseredirs(s: string, ps: nat, rs0: seq<Redirection>) returns (r: Redirs)
    requires ps <= |s| && NoNul(s)
    ensures r == ParseRedirs(s, ps, rs0)
  {
    var i, rs := ps, rs0;
    while true
      invariant i <= |s| && ParseRedirs(s, ps, rs0) == ParseRedirs(s, i, rs)
      decreases |s| - i
    {
      var yes, j := PeekAt(s, i, "<>");
      if !yes { return Redirs(rs, j); }
      var tok := Gettoken(s, j);
      var f := Gettoken(s, tok.next);
      if f.kind != 'a' { return NoRedirs; }
      rs := rs + [Redirection(Span(f.q, f.eq), ModeOf(tok.kind))];
      i := f.next;
    }
  }

  method Parseexec(s: string, ps: nat) returns (r: Parse)
    requires ps <= |s| && NoNul(s)
    ensures r == ParseExec(s, ps)
    decreases |s| - ps, 1
  {
    var yes, i := PeekAt(s, ps, "(");
    if yes {
      r := Parseblock(s, i);
      return;
    }
    var args: seq<Span> := [];
    var ret := Parseredirs(s, i, []);
    if ret.NoRedirs? { return Fail; }
    ghost var start := ret;
    while true
      invariant ret.Redirs? && start.Redirs? && start == ParseRedirs(s, i, []) && i <= start.pos <= ret.pos <= |s|
      invariant ParseArgs(s, start.pos, [], start.rs) == ParseArgs(s, ret.pos, args, ret.rs)
      decreases |s| - ret.pos
    {
      var stop, j := PeekAt(s, ret.pos, "|)&;");
      if stop { return Ok(Wrap(Exec(args), ret.rs), j); }
      var tok := Gettoken(s, j);
      if tok.kind == NUL { return Ok(Wrap(Exec(args), ret.rs), tok.next); }
      if tok.kind != 'a' { return Fail; }
      var rest := Parseredirs(s, tok.next, ret.rs);
      if |args| + 1 >= MAXARGS || rest.NoRedirs? { return Fail; }
      args := args + [Span(tok.q, tok.eq)];
      ret := rest;
    }
  }

  method Parseblock(s: string, ps: nat) returns (r: Parse)
    requires ps <= |s| && NoNul(s)
    ensures r == ParseBlock(s, ps)
    decreases |s| - ps, 0
  {
    var yes, i := PeekAt(s, ps, "(");
    if !yes { return Fail; }
    var t := Gettoken(s, i);
    var c := Parseline(s, t.next);
    if c.Fail? { return Fail; }
    yes, i := PeekAt(s, c.pos, ")");
    if !yes { return Fail; }
    t := Gettoken(s, i);
    var rs := Parseredirs(s, t.next, []);
    if rs.NoRedirs? { return Fail; }
    return Ok(Wrap(c.cmd, rs.rs), rs.pos);
  }

  method Parsepipe(s: string, ps: nat) returns (r: Parse)
    requires ps <= |s| && NoNul(s)
    ensures r == ParsePipe(s, ps)
    decreases |s| - ps, 2
  {
    var c := Parseexec(s, ps);
    if c.Fail? { return Fail; }
    var yes, i := PeekAt(s, c.pos, "|");
    if !yes { return Ok(c.cmd, i); }
    var t := Gettoken(s, i);
    var d := Parsepipe(s, t.next);
    if d.Fail? { return Fail; }
    return Ok(Pipe(c.cmd, d.cmd), d.pos);
  }

  method Parseline(s: string, ps: nat) returns (r: Parse)
    requires ps <= |s| && NoNul(s)
    ensures r == ParseLine(s, ps)
    decreases |s| - ps, 3
  {
    var c := Parsepipe(s, ps);
    if c.Fail? { return Fail; }
    var cmd, i := c.cmd, c.pos;
    var yes;
    while true
      invariant i <= |s| && c.pos <= i && ParseBacks(s, c.pos, c.cmd) == ParseBacks(s, i, cmd)
      decreases |s| - i
    {
      var j;
      yes, j := PeekAt(s, i, "&");
      if !yes { i := j; break; }
      var t := Gettoken(s, j);
      cmd := Back(cmd);
      i := t.next;
    }
    var k;
    yes, k := PeekAt(s, i, ";");
    if !yes { return Ok(cmd, k); }
    var t := Gettoken(s, k);
    var d := Parseline(s, t.next);
    if d.Fail? { return Fail; }
    return Ok(List(cmd, d.cmd), d.pos);
  }

  // ---------- every span is a whole word ----------

  function Spans(c: Cmd): seq<Span> {
    match c
    case Exec(args) => args
    case Redir(d, file, _) => Spans(d) + [file]
    case Pipe(l, r) => Spans(l) + Spans(r)
    case List(l, r) => Spans(l) + Spans(r)
    case Back(d) => Spans(d)
  }

  ghost predicate Words(s: string, ws: seq<Span>) { forall k :: 0 <= k < |ws| ==> WordSpan(s, ws[k]) }

  ghost predicate FileWords(s: string, rs: seq<Redirection>) { forall k :: 0 <= k < |rs| ==> WordSpan(s, rs[k].file) }

  lemma {:induction false} WrapWords(s: string, c: Cmd, rs: seq<Redirection>)
    requires Words(s, Spans(c)) && FileWords(s, rs)
    ensures Words(s, Spans(Wrap(c, rs)))
  {
    if rs != [] { WrapWords(s, c, rs[..|rs| - 1]); }
  }

  lemma {:induction false} RedirsWords(s: string, i: nat, rs: seq<Redirection>)
    requires i <= |s| && NoNul(s) && Boundary(s, i) && FileWords(s, rs)
    ensures ParseRedirs(s, i, rs).Redirs? ==> FileWords(s, ParseRedirs(s, i, rs).rs)
    decreases |s| - i
  {
    if Peek(s, i, "<>") {
      var t := GetToken(s, SkipSpace(s, i));
      var f := GetToken(s, t.next);
      if f.kind == 'a' { RedirsWords(s, f.next, rs + [Redirection(Span(f.q, f.eq), ModeOf(t.kind))]); }
    }
  }

  lemma {:induction false} ArgsWords(s: string, i: nat, args: seq<Span>, rs: seq<Redirection>)
    requires i <= |s| && NoNul(s) && Boundary(s, i) && Words(s, args) && FileWords(s, rs)
    ensures ParseArgs(s, i, args, rs).Args? ==> Words(s, ParseArgs(s, i, args, rs).args)
    ensures ParseArgs(s, i, args, rs).Args? ==> FileWords(s, ParseArgs(s, i, args, rs).rs)
    decreases |s| - i
  {
    var t := GetToken(s, SkipSpace(s, i));
    if !Peek(s, i, "|)&;") && t.kind == 'a' && |args| + 1 < MAXARGS {
      RedirsWords(s, t.next, rs);
      var r := ParseRedirs(s, t.next, rs);
      if r.Redirs? { ArgsWords(s, r.pos, args + [Span(t.q, t.eq)], r.rs); }
    }
  }

  lemma {:induction false} ExecWords(s: string, i: nat)
    requires i <= |s| && NoNul(s) && Boundary(s, i)
    ensures ParseExec(s, i).Ok? ==> Words(s, Spans(ParseExec(s, i).cmd))
    decreases |s| - i, 1
  {
    if Peek(s, i, "(") { BlockWords(s, SkipSpace(s, i)); }
    else {
      RedirsWords(s, SkipSpace(s, i), []);
      var r := ParseRedirs(s, SkipSpace(s, i), []);
      if r.Redirs? {
        ArgsWords(s, r.pos, [], r.rs);
        var a := ParseArgs(s, r.pos, [], r.rs);
        if a.Args? { WrapWords(s, Exec(a.args), a.rs); }
      }
    }
  }

  lemma {:induction false} BlockWords(s: string, i: nat)
    requires i <= |s| && NoNul(s) && Boundary(s, i)
    ensures ParseBlock(s, i).Ok? ==> Words(s, Spans(ParseBlock(s, i).cmd))
    decreases |s| - i, 0
  {
    if Peek(s, i, "(") {
      var j := GetToken(s, SkipSpace(s, i)).next;
      LineWords(s, j);
      var c := ParseLine(s, j);
      if c.Ok? && Peek(s, c.pos, ")") {
        var k := GetToken(s, SkipSpace(s, c.pos)).next;
        RedirsWords(s, k, []);
        var r := ParseRedirs(s, k, []);
        if r.Redirs? { WrapWords(s, c.cmd, r.rs); }
      }
    }
  }

  lemma {:induction false} PipeWords(s: string, i: nat)
    requires i <= |s| && NoNul(s) && Boundary(s, i)
    ensures ParsePipe(s, i).Ok? ==> Words(s, Spans(ParsePipe(s, i).cmd))
    decreases |s| - i, 2
  {
    ExecWords(s, i);
    var c := ParseExec(s, i);
    if c.Ok? && Peek(s, c.pos, "|") { PipeWords(s, GetToken(s, SkipSpace(s, c.pos)).next); }
  }

  lemma {:induction false} BacksWords(s: string, i: nat, c: Cmd)
    requires i <= |s| && NoNul(s) && Boundary(s, i) && Words(s, Spans(c))
    ensures Words(s, Spans(ParseBacks(s, i, c).cmd))
    decreases |s| - i
  {
    if Peek(s, i, "&") { BacksWords(s, GetToken(s, SkipSpace(s, i)).next, Back(c)); }
  }

  lemma {:induction false} LineWords(s: string, i: nat)
    requires i <= |s| && NoNul(s) && Boundary(s, i)
    ensures ParseLine(s, i).Ok? ==> Words(s, Spans(ParseLine(s, i).cmd))
    decreases |s| - i, 3
  {
    hide ParsePipe, ParseBacks, WordSpan, WordEnd;
    PipeWords(s, i);
    var c := ParsePipe(s, i);
    if c.Ok? {
      BacksWords(s, c.pos, c.cmd);
      var b := ParseBacks(s, c.pos, c.cmd);
      if Peek(s, b.pos, ";") { LineWords(s, GetToken(s, SkipSpace(s, b.pos)).next); }
    }
  }

  // ---------- nulterminate ----------

  ghost predicate EndsIn(ws: seq<Span>, n: nat) { forall k :: 0 <= k < |ws| ==> ws[k].eq < n }

  ghost predicate IsEnd(ws: seq<Span>, k: nat) { exists j :: 0 <= j < |ws| && ws[j].eq == k }

  /** The line with a NUL at the end of every word. */
  ghost predicate CutAt(before: seq<char>, ws: seq<Span>, after: seq<char>) {
    |after| == |before| && forall k: nat :: k < |before| ==> after[k] == if IsEnd(ws, k) then NUL else before[k]
  }

  lemma CutBoth(b0: seq<char>, ws: seq<Span>, b1: seq<char>, vs: seq<Span>, b2: seq<char>)
    requires CutAt(b0, ws, b1) && CutAt(b1, vs, b2)
    ensures CutAt(b0, ws + vs, b2)
  {
    forall k: nat | k < |b0| ensures b2[k] == if IsEnd(ws + vs, k) then NUL else b0[k] {
      if IsEnd(ws, k) { var j :| 0 <= j < |ws| && ws[j].eq == k; assert (ws + vs)[j].eq == k; }
      if IsEnd(vs, k) { var j :| 0 <= j < |vs| && vs[j].eq == k; assert (ws + vs)[|ws| + j].eq == k; }
    }
  }

  method Nulterminate(c: Cmd, buf: array<char>)
    requires EndsIn(Spans(c), buf.Length)
    modifies buf
    ensures CutAt(old(buf[..]), Spans(c), buf[..])
    decreases c
  {
    ghost var b0 := buf[..];
    match c
    case Exec(args) =>
      var i := 0;
      while i < |args|
        invariant 0 <= i <= |args| && CutAt(b0, args[..i], buf[..])
      {
        ghost var b1 := buf[..];
        buf[args[i].eq] := NUL;
        assert CutAt(b1, [args[i]], buf[..]) by { OneCut(b1, args[i], buf[..]); }
        CutBoth(b0, args[..i], b1, [args[i]], buf[..]);
        assert args[..i] + [args[i]] == args[..i + 1];
        i := i + 1;
      }
      assert args[..i] == args;
    case Redir(d, file, _) =>
      EndsSplit(Spans(d), [file], buf.Length);
      Nulterminate(d, buf);
      ghost var b1 := buf[..];
      assert [file][0].eq < buf.Length;
      buf[file.eq] := NUL;
      OneCut(b1, file, buf[..]);
      CutBoth(b0, Spans(d), b1, [file], buf[..]);
    case Pipe(l, r) =>
      EndsSplit(Spans(l), Spans(r), buf.Length);
      Nulterminate(l, buf);
      ghost var b1 := buf[..];
      Nulterminate(r, buf);
      CutBoth(b0, Spans(l), b1, Spans(r), buf[..]);
    case List(l, r) =>
      EndsSplit(Spans(l), Spans(r), buf.Length);
      Nulterminate(l, buf);
      ghost var b1 := buf[..];
      Nulterminate(r, buf);
      CutBoth(b0, Spans(l), b1, Spans(r), buf[..]);
    case Back(d) => Nulterminate(d, buf);
  }

  lemma OneCut(b: seq<char>, w: Span, b': seq<char>)
    requires w.eq < |b| && b' == b[w.eq := NUL]
    ensures CutAt(b, [w], b')
  {
    assert [w][0].eq == w.eq;
  }

  lemma EndsSplit(ws: seq<Span>, vs: seq<Span>, n: nat)
    requires EndsIn(ws + vs, n)
    ensures EndsIn(ws, n) && EndsIn(vs, n)
  {
    forall k | 0 <= k < |ws| ensures ws[k].eq < n { assert (ws + vs)[k].eq < n; }
    forall k | 0 <= k < |vs| ensures vs[k].eq < n { assert (ws + vs)[|ws| + k].eq < n; }
  }

  /** What C reads from position q on. */
  function CString(b: seq<char>, q: nat): string
    decreases |b| - q
  { if q >= |b| || b[q] == NUL then "" else [b[q]] + CString(b, q + 1) }

  lemma {:induction false} CStringIs(b: seq<char>, q: nat, e: nat)
    requires q <= e < |b| && b[e] == NUL && forall k :: q <= k < e ==> b[k] != NUL
    ensures CString(b, q) == b[q..e]
    decreases e - q
  {
    if q < e {
      CStringIs(b, q + 1, e);
      assert b[q..e] == [b[q]] + b[q + 1..e];
    }
  }

  lemma NotEnd(s: string, ws: seq<Span>, k: nat)
    requires Words(s, ws) && k < |s| && IsWordChar(s[k])
    ensures !IsEnd(ws, k)
  {
    forall i | 0 <= i < |ws| ensures ws[i].eq != k { assert WordSpan(s, ws[i]); }
  }

  /** After nulterminate every word, read as a C string, is exactly its token: the NULs fall just
      after words and so inside none. */
  lemma WordSurvives(s: string, ws: seq<Span>, after: seq<char>, j: nat)
    requires Words(s, ws) && j < |ws| && CutAt(s + [NUL], ws, after)
    ensures CString(after, ws[j].q) == s[ws[j].q..ws[j].eq]
  {
    var w := ws[j];
    var before := s + [NUL];
    assert WordSpan(s, w);
    assert after[w.eq] == NUL by { assert IsEnd(ws, w.eq); }
    forall k: nat | w.q <= k < w.eq ensures after[k] == s[k] && s[k] != NUL {
      NotEnd(s, ws, k);
    }
    CStringIs(after, w.q, w.eq);
    assert after[w.q..w.eq] == s[w.q..w.eq];
  }

  /** parsecmd. */
  method Parsecmd(buf: array<char>) returns (r: Parse)
    requires buf.Length > 0 && buf[buf.Length - 1] == NUL && NoNul(buf[..buf.Length - 1])
    modifies buf
    ensures r == old(ParseCmd(buf[..buf.Length - 1]))
    ensures r.Fail? ==> buf[..] == old(buf[..])
    ensures r.Ok? ==> forall j :: 0 <= j < |Spans(r.cmd)| ==>
      Spans(r.cmd)[j].q <= Spans(r.cmd)[j].eq < buf.Length &&
      CString(buf[..], Spans(r.cmd)[j].q) == old(buf[..])[Spans(r.cmd)[j].q..Spans(r.cmd)[j].eq]
  {
    hide ParseLine, SkipSpace, CString, Words, Spans, CutAt, EndsIn;
    var s := buf[..buf.Length - 1];
    assert buf[..] == s + [NUL];
    var c := Parseline(s, 0);
    if c.Fail? { return Fail; }
    var _, i := PeekAt(s, c.pos, "");
    if i != |s| { return Fail; }
    LineWords(s, 0);
    ghost var ws := Spans(c.cmd);
    WordEnds(s, ws);
    Nulterminate(c.cmd, buf);
    WordsSurvive(s, ws, buf[..]);
    return Ok(c.cmd, |s|);
  }

  lemma WordEnds(s: string, ws: seq<Span>)
    requires Words(s, ws)
    ensures EndsIn(ws, |s| + 1) && forall k :: 0 <= k < |ws| ==> ws[k].q <= ws[k].eq <= |s|
  {
    forall k | 0 <= k < |ws| ensures ws[k].q <= ws[k].eq <= |s| { assert WordSpan(s, ws[k]); }
  }

  lemma WordsSurvive(s: string, ws: seq<Span>, after: seq<char>)
    requires Words(s, ws) && CutAt(s + [NUL], ws, after) && forall k :: 0 <= k < |ws| ==> ws[k].q <= ws[k].eq <= |s|
    ensures forall j :: 0 <= j < |ws| ==> CString(after, ws[j].q) == (s + [NUL])[ws[j].q..ws[j].eq]
  {
    forall j: nat | j < |ws| ensures CString(after, ws[j].q) == (s + [NUL])[ws[j].q..ws[j].eq] {
      WordSurvives(s, ws, after, j);
      assert (s + [NUL])[ws[j].q..ws[j].eq] == s[ws[j].q..ws[j].eq];
    }
  }

  // ---------- printing and parsing back ----------

  /** A command with its words spelt out. */
  datatype Tree =
    | TExec(args: seq<string>)
    | TRedir(t: Tree, file: string, mode: Mode)
    | TPipe(left: Tree, right: Tree)
    | TList(left: Tree, right: Tree)
    | TBack(t: Tree)

  function Sub(s: string, w: Span): string { if w.q <= w.eq <= |s| then s[w.q..w.eq] else "" }

  function Subs(s: string, ws: seq<Span>): seq<string> { seq(|ws|, k requires 0 <= k < |ws| => Sub(s, ws[k])) }

  function Text(s: string, c: Cmd): Tree {
    match c
    case Exec(args) => TExec(Subs(s, args))
    case Redir(d, file, m) => TRedir(Text(s, d), Sub(s, file), m)
    case Pipe(l, r) => TPipe(Text(s, l), Text(s, r))
    case List(l, r) => TList(Text(s, l), Text(s, r))
    case Back(d) => TBack(Text(s, d))
  }

  predicate IsWord(w: string) { w != "" && forall k :: 0 <= k < |w| ==> IsWordChar(w[k]) }

  /** What the grammar can express: proper words, and fewer than ten of them to a command. */
  predicate Printable(t: Tree) {
    match t
    case TExec(args) => |args| < 10 && forall k :: 0 <= k < |args| ==> IsWord(args[k])
    case TRedir(u, f, _) => Printable(u) && IsWord(f)
    case TPipe(l, r) => Printable(l) && Printable(r)
    case TList(l, r) => Printable(l) && Printable(r)
    case TBack(u) => Printable(u)
  }

  function Join(args: seq<string>): string {
    if args == [] then "" else if |args| == 1 then args[0] else args[0] + (" " + Join(args[1..]))
  }

  function Sign(m: Mode): string { match m case In => "<" case Out => ">" case Append => ">>" }

  /** Every part of a command in parentheses of its own. */
  function Line(t: Tree): string
    decreases t, 0
  {
    match t
    case TExec(args) => Join(args)
    case TRedir(u, f, m) => Block(u) + (Sign(m) + f)
    case TPipe(l, r) => Block(l) + ("|" + Block(r))
    case TList(l, r) => Block(l) + (";" + Block(r))
    case TBack(u) => Block(u) + "&"
  }

  function Block(t: Tree): string
    decreases t, 1
  { "(" + (Line(t) + ")") }

  ghost predicate At(s: string, i: nat, x: string) { i + |x| <= |s| && s[i..i + |x|] == x }

  lemma AtSplit(s: string, i: nat, x: string, y: string)
    requires At(s, i, x + y)
    ensures At(s, i, x) && At(s, i + |x|, y)
  {
    assert s[i..i + |x|] == (x + y)[..|x|];
    assert s[i + |x|..i + |x| + |y|] == (x + y)[|x|..];
  }

  lemma AtChar(s: string, i: nat, x: string, k: nat)
    requires At(s, i, x) && k < |x|
    ensures i + k < |s| && s[i + k] == x[k]
  {
    assert s[i..i + |x|][k] == x[k];
  }

  /** Where a line ends. */
  predicate Stop(s: string, k: nat) { k == |s| || (k < |s| && s[k] == ')') }

  /** Where a block without redirections ends. */
  predicate AfterBlock(s: string, k: nat) { k == |s| || (k < |s| && s[k] in ")|;&") }

  /** A word at i that ends where a word must end. */
  lemma WordToken(s: string, i: nat, w: string)
    requires NoNul(s) && IsWord(w) && At(s, i, w) && (i + |w| < |s| ==> !IsWordChar(s[i + |w|]))
    ensures i <= |s| && SkipSpace(s, i) == i && GetToken(s, i) == Token('a', i, i + |w|, SkipSpace(s, i + |w|))
    ensures Sub(s, Span(i, i + |w|)) == w
    ensures s[i] !in "<>(|)&;"
  {
    AtChar(s, i, w, 0);
    forall k | i <= k < i + |w| ensures IsWordChar(s[k]) { AtChar(s, i, w, k - i); }
    WordEndIs(s, i, i + |w|);
  }

  lemma {:induction false} WordEndIs(s: string, i: nat, e: nat)
    requires i <= e <= |s| && (forall k :: i <= k < e ==> IsWordChar(s[k]))
    requires (e < |s| ==> IsSpace(s[e]) || IsSymbol(s[e]))
    ensures WordEnd(s, i) == e
    decreases e - i
  {
    if i < e { WordEndIs(s, i + 1, e); }
  }

  /** The cursor is at the end or at no space. */
  predicate Settled(s: string, i: nat) { i <= |s| && (i < |s| ==> !IsSpace(s[i])) }

  lemma SymbolToken(s: string, i: nat)
    requires i < |s| && Settled(s, i + 1) && s[i] in "|();&<"
    ensures SkipSpace(s, i) == i && GetToken(s, i) == Token(s[i], i, i + 1, i + 1)
  {
    assert s[i] != NUL && !IsSpace(s[i]);
  }

  lemma PeekIs(s: string, i: nat, toks: string)
    requires Settled(s, i) && NoNul(s)
    ensures SkipSpace(s, i) == i && (Peek(s, i, toks) <==> i < |s| && s[i] in toks)
  {}

  lemma NoRedirHere(s: string, i: nat, rs: seq<Redirection>)
    requires Settled(s, i) && NoNul(s) && (i < |s| ==> s[i] != '<' && s[i] != '>')
    ensures ParseRedirs(s, i, rs) == Redirs(rs, i)
  {
    hide GetToken, SkipSpace, Peek;
    PeekIs(s, i, "<>");
  }

  /** One more argument. */
  lemma MoreArgs(s: string, i: nat, e: nat, n: nat, args: seq<Span>)
    requires NoNul(s) && Settled(s, i) && i < |s| && s[i] !in "|)&;" && |args| + 1 < MAXARGS
    requires i <= e <= n && Settled(s, n) && GetToken(s, i) == Token('a', i, e, n)
    requires (n < |s| ==> s[n] != '<' && s[n] != '>')
    ensures ParseArgs(s, i, args, []) == ParseArgs(s, n, args + [Span(i, e)], [])
  {
    hide GetToken, SkipSpace, Peek, ParseRedirs;
    PeekIs(s, i, "|)&;");
    NoRedirHere(s, n, []);
  }

  lemma {:induction false} ArgsParse(s: string, i: nat, args: seq<Span>, ws: seq<string>) returns (a: seq<Span>)
    requires NoNul(s) && At(s, i, Join(ws)) && Stop(s, i + |Join(ws)|) && |args| + |ws| < MAXARGS
    requires forall k :: 0 <= k < |ws| ==> IsWord(ws[k])
    ensures i <= |s| && ParseArgs(s, i, args, []) == Args(args + a, [], i + |Join(ws)|) && Subs(s, a) == ws
    decreases |ws|
  {
    hide GetToken, SkipSpace, Peek, ParseRedirs, ParseArgs, WordEnd;
    if ws == [] {
      a := [];
      assert args + [] == args;
      LastArg(s, i, args);
    } else if |ws| == 1 {
      var e := i + |ws[0]|;
      WordToken(s, i, ws[0]);
      PeekIs(s, e, "");
      MoreArgs(s, i, e, e, args);
      a := [Span(i, e)];
      LastArg(s, e, args + a);
    } else {
      a := ManyArgs(s, i, args, ws);
    }
  }

  lemma {:induction false} ManyArgs(s: string, i: nat, args: seq<Span>, ws: seq<string>) returns (a: seq<Span>)
    requires NoNul(s) && At(s, i, Join(ws)) && Stop(s, i + |Join(ws)|) && |args| + |ws| < MAXARGS && |ws| > 1
    requires forall k :: 0 <= k < |ws| ==> IsWord(ws[k])
    ensures i <= |s| && ParseArgs(s, i, args, []) == Args(args + a, [], i + |Join(ws)|) && Subs(s, a) == ws
    decreases |ws|, 0
  {
    hide GetToken, SkipSpace, Peek, ParseRedirs, ParseArgs, WordEnd, At, Join, IsWord, Sub;
    var e := i + |ws[0]|;
    FirstArg(s, i, ws);
    MoreArgs(s, i, e, e + 1, args);
    var b := ArgsParse(s, e + 1, args + [Span(i, e)], ws[1..]);
    a := [Span(i, e)] + b;
    assert args + [Span(i, e)] + b == args + a;
    assert Subs(s, a) == [ws[0]] + Subs(s, b);
    assert ws == [ws[0]] + ws[1..];
  }

  lemma FirstArg(s: string, i: nat, ws: seq<string>)
    requires NoNul(s) && At(s, i, Join(ws)) && |ws| > 1 && forall k :: 0 <= k < |ws| ==> IsWord(ws[k])
    ensures var e := i + |ws[0]|;
            && i < e < e + 1 < |s| && Settled(s, i) && s[i] !in "|)&;" && GetToken(s, i) == Token('a', i, e, e + 1)
            && Sub(s, Span(i, e)) == ws[0]
            && Settled(s, e + 1) && s[e + 1] != '<' && s[e + 1] != '>' && At(s, e + 1, Join(ws[1..]))
            && |Join(ws)| == |ws[0]| + 1 + |Join(ws[1..])|
  {
    hide GetToken, SkipSpace, WordEnd, At, Sub, Join;
    var w := ws[0];
    var e := i + |w|;
    JoinMore(ws);
    AtSplit(s, i, w, " " + Join(ws[1..]));
    AtSplit(s, e, " ", Join(ws[1..]));
    AtChar(s, e, " ", 0);
    WordToken(s, i, w);
    JoinStarts(ws[1..]);
    AtChar(s, e + 1, Join(ws[1..]), 0);
    OneSpace(s, e);
    AtChar(s, i, w, 0);
  }

  lemma JoinMore(ws: seq<string>)
    requires |ws| > 1
    ensures Join(ws) == ws[0] + (" " + Join(ws[1..]))
  {}

  lemma OneSpace(s: string, e: nat)
    requires e + 1 < |s| && s[e] == ' ' && !IsSpace(s[e + 1])
    ensures SkipSpace(s, e) == e + 1
  {}

  lemma LastArg(s: string, e: nat, args: seq<Span>)
    requires e <= |s| && NoNul(s) && Stop(s, e)
    ensures ParseArgs(s, e, args, []) == Args(args, [], e)
  {}

  lemma JoinStarts(ws: seq<string>)
    requires ws != [] && forall k :: 0 <= k < |ws| ==> IsWord(ws[k])
    ensures Join(ws) != "" && IsWordChar(Join(ws)[0])
  {
    assert IsWord(ws[0]);
  }

  /** A line's first character, if it has one, is no space. */
  lemma LineStarts(t: Tree)
    requires Printable(t)
    ensures Line(t) != "" ==> !IsSpace(Line(t)[0])
  {
    if t.TExec? && t.args != [] { JoinStarts(t.args); }
  }

  // One step of each production, at settled positions.

  lemma BlockStep(s: string, i: nat, c: Cmd, j: nat)
    requires NoNul(s) && i < j < |s| && s[i] == '(' && Settled(s, i + 1) && ParseLine(s, i + 1) == Ok(c, j)
    requires s[j] == ')' && Settled(s, j + 1)
    ensures var r := ParseRedirs(s, j + 1, []);
            ParseExec(s, i) == if r.NoRedirs? then Fail else Ok(Wrap(c, r.rs), r.pos)
  {
    hide GetToken, SkipSpace, Peek, ParseRedirs, ParseLine, ParseArgs;
    SymbolToken(s, i);
    SymbolToken(s, j);
    PeekIs(s, i, "(");
    PeekIs(s, j, ")");
    assert ParseExec(s, i) == ParseBlock(s, i);
  }

  lemma PipeNone(s: string, i: nat, c: Cmd, k: nat)
    requires i <= |s| && NoNul(s) && ParseExec(s, i) == Ok(c, k) && Settled(s, k) && (k < |s| ==> s[k] != '|')
    ensures ParsePipe(s, i) == Ok(c, k)
  {
    hide GetToken, SkipSpace, Peek, ParseExec;
    PeekIs(s, k, "|");
  }

  lemma PipeSome(s: string, i: nat, c: Cmd, k: nat, d: Cmd, e: nat)
    requires i <= k < |s| && NoNul(s) && ParseExec(s, i) == Ok(c, k) && s[k] == '|' && Settled(s, k + 1)
    requires ParsePipe(s, k + 1) == Ok(d, e)
    ensures ParsePipe(s, i) == Ok(Pipe(c, d), e)
  {
    hide GetToken, SkipSpace, Peek, ParseExec;
    PeekIs(s, k, "|");
    SymbolToken(s, k);
  }

  lemma LinePlain(s: string, i: nat, c: Cmd, k: nat)
    requires i <= |s| && NoNul(s) && ParsePipe(s, i) == Ok(c, k) && Stop(s, k)
    ensures ParseLine(s, i) == Ok(c, k)
  {
    hide GetToken, SkipSpace, Peek, ParsePipe;
    PeekIs(s, k, "&");
    PeekIs(s, k, ";");
  }

  lemma LineList(s: string, i: nat, c: Cmd, k: nat, d: Cmd, e: nat)
    requires i <= k < |s| && NoNul(s) && ParsePipe(s, i) == Ok(c, k) && s[k] == ';' && Settled(s, k + 1)
    requires ParseLine(s, k + 1) == Ok(d, e)
    ensures ParseLine(s, i) == Ok(List(c, d), e)
  {
    hide GetToken, SkipSpace, Peek, ParsePipe;
    PeekIs(s, k, "&");
    PeekIs(s, k, ";");
    SymbolToken(s, k);
  }

  lemma LineBack(s: string, i: nat, c: Cmd, k: nat)
    requires i <= k < |s| && NoNul(s) && ParsePipe(s, i) == Ok(c, k) && s[k] == '&' && Stop(s, k + 1)
    ensures ParseLine(s, i) == Ok(Back(c), k + 1)
  {
    hide GetToken, SkipSpace, Peek, ParsePipe;
    PeekIs(s, k, "&");
    SymbolToken(s, k);
    PeekIs(s, k + 1, "&");
    PeekIs(s, k + 1, ";");
    assert ParseBacks(s, k + 1, Back(c)) == Ok(Back(c), k + 1);
    assert ParseBacks(s, k, c) == ParseBacks(s, k + 1, Back(c));
  }

  lemma AtBlock(s: string, i: nat, t: Tree)
    requires Printable(t) && At(s, i, Block(t))
    ensures var k := i + |Line(t)| + 1;
            && k == i + |Block(t)| - 1 && i < k < |s| && s[i] == '(' && At(s, i + 1, Line(t)) && s[k] == ')'
            && Settled(s, i + 1)
  {
    AtSplit(s, i, "(", Line(t) + ")");
    AtSplit(s, i + 1, Line(t), ")");
    AtChar(s, i, "(", 0);
    AtChar(s, i + 1 + |Line(t)|, ")", 0);
    LineStarts(t);
    if Line(t) != "" { AtChar(s, i + 1, Line(t), 0); }
  }

  /** A command in parentheses and what follows it. */
  lemma {:induction false} BlockInner(s: string, i: nat, t: Tree) returns (c: Cmd)
    requires NoNul(s) && Printable(t) && At(s, i, Block(t)) && Settled(s, i + |Block(t)|)
    ensures i <= |s| && Text(s, c) == t
    ensures var r := ParseRedirs(s, i + |Block(t)|, []);
            ParseExec(s, i) == if r.NoRedirs? then Fail else Ok(Wrap(c, r.rs), r.pos)
    decreases t, 3
  {
    hide ParseExec, ParseLine, ParseRedirs, Line, Block, At;
    AtBlock(s, i, t);
    c := LineParses(s, i + 1, t);
    BlockStep(s, i, c, i + |Line(t)| + 1);
  }

  lemma {:induction false} BlockParses(s: string, i: nat, t: Tree) returns (c: Cmd)
    requires NoNul(s) && Printable(t) && At(s, i, Block(t)) && AfterBlock(s, i + |Block(t)|)
    ensures i <= |s| && ParseExec(s, i) == Ok(c, i + |Block(t)|) && Text(s, c) == t
    decreases t, 4
  {
    hide ParseExec, ParseLine, ParseRedirs, Line, Block, At;
    c := BlockInner(s, i, t);
    NoRedirHere(s, i + |Block(t)|, []);
    assert Wrap(c, []) == c;
  }

  /** The printing of a tree, anywhere a line may stand, parses to that tree and no further. */
  lemma {:induction false} LineParses(s: string, i: nat, t: Tree) returns (c: Cmd)
    requires NoNul(s) && Printable(t) && At(s, i, Line(t)) && Stop(s, i + |Line(t)|)
    ensures i <= |s| && ParseLine(s, i) == Ok(c, i + |Line(t)|) && Text(s, c) == t
    decreases t, 2
  {
    hide ParseExec, ParseLine, ParsePipe, ParseRedirs, Block, At;
    match t
    case TExec(args) => c := ExecLine(s, i, args);
    case TRedir(u, f, m) => c := RedirLine(s, i, t);
    case TPipe(l, r) => c := PipeLine(s, i, t);
    case TList(l, r) => c := ListLine(s, i, t);
    case TBack(u) => c := BackLine(s, i, t);
  }

  lemma {:induction false} RedirLine(s: string, i: nat, t: Tree) returns (c: Cmd)
    requires NoNul(s) && t.TRedir? && Printable(t) && At(s, i, Line(t)) && Stop(s, i + |Line(t)|)
    ensures i <= |s| && ParseLine(s, i) == Ok(c, i + |Line(t)|) && Text(s, c) == t
    decreases t, 1
  {
    hide ParseExec, ParseLine, ParsePipe, ParseRedirs, Block, At, Line, Sign, Wrap;
    var TRedir(u, f, m) := t;
    var k := i + |Block(u)|;
    RedirAt(s, i, u, f, m);
    RedirAfter(s, k, f, m);
    var d := BlockInner(s, i, u);
    var q := k + |Sign(m)|;
    c := OneWrap(s, d, Redirection(Span(q, q + |f|), m));
    PipeNone(s, i, c, q + |f|);
    LinePlain(s, i, c, q + |f|);
  }

  lemma {:induction false} PipeLine(s: string, i: nat, t: Tree) returns (c: Cmd)
    requires NoNul(s) && t.TPipe? && Printable(t) && At(s, i, Line(t)) && Stop(s, i + |Line(t)|)
    ensures i <= |s| && ParseLine(s, i) == Ok(c, i + |Line(t)|) && Text(s, c) == t
    decreases t, 1
  {
    hide ParseExec, ParseLine, ParsePipe, Block, At;
    var c1, c2 := BlockPair(s, i, t, t.left, "|", t.right);
    var k := i + |Block(t.left)|;
    c := Pipe(c1, c2);
    PipeSome(s, i, c1, k, c2, k + 1 + |Block(t.right)|);
    LinePlain(s, i, c, k + 1 + |Block(t.right)|);
  }

  lemma {:induction false} ListLine(s: string, i: nat, t: Tree) returns (c: Cmd)
    requires NoNul(s) && t.TList? && Printable(t) && At(s, i, Line(t)) && Stop(s, i + |Line(t)|)
    ensures i <= |s| && ParseLine(s, i) == Ok(c, i + |Line(t)|) && Text(s, c) == t
    decreases t, 1
  {
    hide ParseExec, ParseLine, ParsePipe, Block, At;
    var c1, c2 := BlockPair(s, i, t, t.left, ";", t.right);
    var k := i + |Block(t.left)|;
    c := List(c1, c2);
    PipeNone(s, i, c1, k);
    LinePlain(s, k + 1, c2, k + 1 + |Block(t.right)|);
    LineList(s, i, c1, k, c2, k + 1 + |Block(t.right)|);
  }

  lemma {:induction false} BackLine(s: string, i: nat, t: Tree) returns (c: Cmd)
    requires NoNul(s) && t.TBack? && Printable(t) && At(s, i, Line(t)) && Stop(s, i + |Line(t)|)
    ensures i <= |s| && ParseLine(s, i) == Ok(c, i + |Line(t)|) && Text(s, c) == t
    decreases t, 1
  {
    hide ParseExec, ParseLine, ParsePipe, Block, At, Line;
    var u := t.t;
    var k := i + |Block(u)|;
    BackAt(s, i, u);
    var c1 := BlockParses(s, i, u);
    c := Back(c1);
    PipeNone(s, i, c1, k);
    LineBack(s, i, c1, k);
  }

  /** Two blocks with a symbol between them. */
  lemma {:induction false} BlockPair(s: string, i: nat, t: Tree, l: Tree, sym: string, r: Tree) returns (c: Cmd, d: Cmd)
    requires t == TPipe(l, r) || t == TList(l, r)
    requires NoNul(s) && Printable(l) && Printable(r) && (sym == "|" || sym == ";")
    requires At(s, i, Block(l) + (sym + Block(r))) && Stop(s, i + |Block(l)| + 1 + |Block(r)|)
    ensures var k := i + |Block(l)|;
            && i <= k < |s| && s[k] == sym[0] && Settled(s, k + 1) && ParseExec(s, i) == Ok(c, k) && Text(s, c) == l
            && ParsePipe(s, k + 1) == Ok(d, k + 1 + |Block(r)|) && Text(s, d) == r
    decreases t, 0
  {
    hide ParseExec, ParsePipe, Block, At, Printable, Text;
    PairAt(s, i, l, sym, r);
    var k := i + |Block(l)|;
    c := BlockParses(s, i, l);
    d := BlockParses(s, k + 1, r);
    PipeNone(s, k + 1, d, k + 1 + |Block(r)|);
  }

  lemma PairAt(s: string, i: nat, l: Tree, sym: string, r: Tree)
    requires Printable(r) && |sym| == 1 && At(s, i, Block(l) + (sym + Block(r)))
    ensures var k := i + |Block(l)|;
            At(s, i, Block(l)) && k < |s| && s[k] == sym[0] && At(s, k + 1, Block(r)) && Settled(s, k + 1)
  {
    hide At, Block, Line, Printable;
    var k := i + |Block(l)|;
    AtSplit(s, i, Block(l), sym + Block(r));
    AtSplit(s, k, sym, Block(r));
    AtChar(s, k, sym, 0);
    AtBlock(s, k + 1, r);
  }

  lemma RedirAt(s: string, i: nat, u: Tree, f: string, m: Mode)
    requires Printable(u) && At(s, i, Line(TRedir(u, f, m)))
    ensures At(s, i, Block(u)) && At(s, i + |Block(u)|, Sign(m) + f)
    ensures |Line(TRedir(u, f, m))| == |Block(u)| + |Sign(m)| + |f|
  {
    AtSplit(s, i, Block(u), Sign(m) + f);
  }

  lemma BackAt(s: string, i: nat, u: Tree)
    requires Printable(u) && At(s, i, Line(TBack(u)))
    ensures At(s, i, Block(u)) && i + |Block(u)| < |s| && s[i + |Block(u)|] == '&' && |Line(TBack(u))| == |Block(u)| + 1
  {
    AtSplit(s, i, Block(u), "&");
    AtChar(s, i + |Block(u)|, "&", 0);
  }

  lemma OneWrap(s: string, c: Cmd, r: Redirection) returns (d: Cmd)
    ensures d == Wrap(c, [r]) && Text(s, d) == TRedir(Text(s, c), Sub(s, r.file), r.mode)
  {
    assert [r][..0] == [];
    assert Wrap(c, []) == c;
    d := Wrap(c, [r]);
  }

  lemma ExecLine(s: string, i: nat, args: seq<string>) returns (c: Cmd)
    requires NoNul(s) && Printable(TExec(args)) && At(s, i, Join(args)) && Stop(s, i + |Join(args)|)
    ensures i <= |s| && ParseLine(s, i) == Ok(c, i + |Join(args)|) && Text(s, c) == TExec(args)
  {
    hide ParseLine, ParsePipe, ParseRedirs, ParseArgs, ParseBlock, SkipSpace, Peek, GetToken, Join;
    if args != [] {
      JoinStarts(args);
      AtChar(s, i, Join(args), 0);
    } else {
      assert Join(args) == "" by { JoinNone(); }
    }
    NoRedirHere(s, i, []);
    PeekIs(s, i, "(");
    var a := ArgsParse(s, i, [], args);
    assert [] + a == a;
    c := Exec(a);
    assert Wrap(c, []) == c;
    assert ParseExec(s, i) == Ok(c, i + |Join(args)|);
    PipeNone(s, i, c, i + |Join(args)|);
    LinePlain(s, i, c, i + |Join(args)|);
  }

  lemma JoinNone() ensures Join([]) == "" {}

  lemma RedirAfter(s: string, k: nat, f: string, m: Mode)
    requires NoNul(s) && IsWord(f) && At(s, k, Sign(m) + f) && Stop(s, k + |Sign(m)| + |f|)
    ensures Settled(s, k)
    ensures var q := k + |Sign(m)|;
            && ParseRedirs(s, k, []) == Redirs([Redirection(Span(q, q + |f|), m)], q + |f|)
            && Sub(s, Span(q, q + |f|)) == f
  {
    hide ParseRedirs, WordEnd, SkipSpace, Peek, GetToken;
    var q := k + |Sign(m)|;
    SignToken(s, k, f, m);
    WordToken(s, q, f);
    PeekIs(s, k, "<>");
    PeekIs(s, q + |f|, "");
    NoRedirHere(s, q + |f|, [Redirection(Span(q, q + |f|), m)]);
    RedirStep(s, k, q, q + |f|, m);
  }

  lemma RedirStep(s: string, k: nat, q: nat, e: nat, m: Mode)
    requires NoNul(s) && k < q <= e <= |s| && SkipSpace(s, k) == k && Peek(s, k, "<>") && GetToken(s, k).next == q
    requires ModeOf(GetToken(s, k).kind) == m && GetToken(s, q) == Token('a', q, e, e)
    ensures ParseRedirs(s, k, []) == ParseRedirs(s, e, [Redirection(Span(q, e), m)])
  {
    hide GetToken, SkipSpace, Peek;
    assert [] + [Redirection(Span(q, e), m)] == [Redirection(Span(q, e), m)];
  }

  lemma SignToken(s: string, k: nat, f: string, m: Mode)
    requires NoNul(s) && IsWord(f) && At(s, k, Sign(m) + f)
    ensures var q := k + |Sign(m)|;
            && At(s, q, f) && k < q < |s| && Settled(s, k) && s[k] in "<>" && GetToken(s, k).next == q
            && ModeOf(GetToken(s, k).kind) == m
  {
    AtSplit(s, k, Sign(m), f);
    var q := k + |Sign(m)|;
    AtChar(s, k, Sign(m), 0);
    if m.Append? { AtChar(s, k, Sign(m), 1); }
    AtChar(s, q, f, 0);
    assert Settled(s, q) && s[q] != '>';
    hide WordEnd;
  }

  /** Round trip: parsing the printing of a command gives the command back. */
  lemma RoundTrip(t: Tree)
    requires Printable(t)
    ensures NoNul(Line(t)) && ParseCmd(Line(t)).Ok? && Text(Line(t), ParseCmd(Line(t)).cmd) == t
  {
    hide ParseLine, Line, Block, SkipSpace, Text, Printable;
    var s := Line(t);
    LineNoNul(t);
    assert s[0..|s|] == s;
    var c := LineParses(s, 0, t);
    PeekIs(s, |s|, "");
  }

  lemma {:induction false} LineNoNul(t: Tree)
    requires Printable(t)
    ensures NoNul(Line(t)) && NoNul(Block(t))
  {
    match t
    case TExec(args) => JoinNoNul(args);
    case TRedir(u, f, m) => LineNoNul(u);
    case TPipe(l, r) => LineNoNul(l); LineNoNul(r);
    case TList(l, r) => LineNoNul(l); LineNoNul(r);
    case TBack(u) => LineNoNul(u);
  }

  lemma {:induction false} JoinNoNul(args: seq<string>)
    requires forall k :: 0 <= k < |args| ==> IsWord(args[k])
    ensures NoNul(Join(args))
  {
    if args != [] {
      assert IsWord(args[0]);
      if |args| > 1 { JoinNoNul(args[1..]); }
    }
  }
}
