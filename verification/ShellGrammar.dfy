/** The shell's grammar, stated over the words and symbols of a line without reference to the
    parser, and the proof that the parser accepts exactly what the grammar derives.

      line   ::= backs | backs ';' line
      backs  ::= pipe | backs '&'
      pipe   ::= exec | exec '|' pipe
      exec   ::= simple | '(' line ')' redir*
      simple ::= (word | redir)*           with fewer than ten words
      redir  ::= ('<' | '>' | '>>') word   */
module ShellGrammar {
  import opened Shell

  /** kind is '+' for ">>", else the symbol itself. */
  datatype Tok = Word(text: string) | Sym(kind: char)

  function TokOf(s: string, t: Token): Tok
    requires t.q <= t.eq <= |s|
  { if t.kind == 'a' then Word(s[t.q..t.eq]) else Sym(t.kind) }

  /** The words and symbols of the line from i on. */
  function Lex(s: string, i: nat): seq<Tok>
    requires i <= |s| && NoNul(s)
    decreases |s| - i
  {
    var t := GetToken(s, i);
    if t.kind == NUL then [] else [TokOf(s, t)] + Lex(s, t.next)
  }

  predicate Head(u: seq<Tok>, kinds: string) { u != [] && u[0].Sym? && u[0].kind in kinds }

  // ---------- the grammar ----------

  datatype File = File(name: string, mode: Mode)

  /** Words and redirections, in any order. */
  predicate IsSimple(u: seq<Tok>) {
    if u == [] then true
    else if u[0].Word? then IsSimple(u[1..])
    else Head(u, "<>+") && |u| >= 2 && u[1].Word? && IsSimple(u[2..])
  }

  function ArgsOf(u: seq<Tok>): seq<string>
    requires IsSimple(u)
  {
    if u == [] then [] else if u[0].Word? then [u[0].text] + ArgsOf(u[1..]) else ArgsOf(u[2..])
  }

  function FilesOf(u: seq<Tok>): seq<File>
    requires IsSimple(u)
  {
    if u == [] then []
    else if u[0].Word? then FilesOf(u[1..]) else [File(u[1].text, ModeOf(u[0].kind))] + FilesOf(u[2..])
  }

  /** Redirections around a command, the first innermost. */
  function WrapTree(t: Tree, fs: seq<File>): Tree
    decreases fs
  {
    if fs == [] then t else WrapTree(TRedir(t, fs[0].name, fs[0].mode), fs[1..])
  }

  ghost predicate DSimple(u: seq<Tok>, t: Tree) {
    IsSimple(u) && |ArgsOf(u)| < 10 && t == WrapTree(TExec(ArgsOf(u)), FilesOf(u))
  }

  ghost predicate OnlyFiles(u: seq<Tok>) { IsSimple(u) && ArgsOf(u) == [] }

  ghost predicate DBlock(u: seq<Tok>, t: Tree)
    decreases |u|, 1
  {
    exists k: nat, t0: Tree :: DBlockAt(u, t, k, t0)
  }

  ghost predicate DBlockAt(u: seq<Tok>, t: Tree, k: nat, t0: Tree)
    decreases |u|, 0
  {
    && 0 < k < |u| && u[0] == Sym('(') && u[k] == Sym(')') && DLine(u[1..k], t0)
    && OnlyFiles(u[k + 1..]) && t == WrapTree(t0, FilesOf(u[k + 1..]))
  }

  ghost predicate DExec(u: seq<Tok>, t: Tree)
    decreases |u|, 2
  { DSimple(u, t) || DBlock(u, t) }

  ghost predicate DPipe(u: seq<Tok>, t: Tree)
    decreases |u|, 3
  {
    DExec(u, t) || (t.TPipe? && exists k: nat :: DPipeAt(u, t, k))
  }

  ghost predicate DPipeAt(u: seq<Tok>, t: Tree, k: nat)
    requires t.TPipe?
    decreases |u|, 0
  { k < |u| && u[k] == Sym('|') && DExec(u[..k], t.left) && DPipe(u[k + 1..], t.right) }

  ghost predicate DBacks(u: seq<Tok>, t: Tree)
    decreases |u|, 4
  {
    DPipe(u, t) || (t.TBack? && u != [] && u[|u| - 1] == Sym('&') && DBacks(u[..|u| - 1], t.t))
  }

  ghost predicate DLine(u: seq<Tok>, t: Tree)
    decreases |u|, 5
  {
    DBacks(u, t) || (t.TList? && exists k: nat :: DLineAt(u, t, k))
  }

  ghost predicate DLineAt(u: seq<Tok>, t: Tree, k: nat)
    requires t.TList?
    decreases |u|, 0
  { k < |u| && u[k] == Sym(';') && DBacks(u[..k], t.left) && DLine(u[k + 1..], t.right) }

  // ---------- the line as words and symbols ----------

  lemma TokenSkip(s: string, i: nat)
    requires i <= |s| && NoNul(s)
    ensures SkipSpace(s, SkipSpace(s, i)) == SkipSpace(s, i)
    ensures GetToken(s, SkipSpace(s, i)) == GetToken(s, i) && Lex(s, SkipSpace(s, i)) == Lex(s, i)
  {
    hide WordEnd;
  }

  lemma LexStep(s: string, i: nat)
    requires i <= |s| && NoNul(s) && GetToken(s, i).kind != NUL
    ensures Lex(s, i) == [TokOf(s, GetToken(s, i))] + Lex(s, GetToken(s, i).next)
  {
    hide GetToken;
  }

  lemma LexEnd(s: string, i: nat)
    requires i <= |s| && NoNul(s)
    ensures Lex(s, i) == [] <==> SkipSpace(s, i) == |s|
    ensures Lex(s, i) == [] <==> GetToken(s, i).kind == NUL
    ensures GetToken(s, i).kind == NUL ==> GetToken(s, i).next == |s| && Lex(s, |s|) == []
  {
    hide WordEnd;
  }

  /** peek looks at the first symbol. */
  lemma PeekHead(s: string, i: nat, toks: string)
    requires i <= |s| && NoNul(s) && forall c :: c in toks ==> c in "(|)&;"
    ensures Peek(s, i, toks) <==> Head(Lex(s, i), toks)
    ensures Peek(s, i, toks) ==>
              var j := GetToken(s, SkipSpace(s, i)).next;
              i < j <= |s| && Lex(s, i) == [Sym(Lex(s, i)[0].kind)] + Lex(s, j)
  {
    TokenSkip(s, i);
    LexEnd(s, i);
    HeadToken(s, i);
    hide WordEnd, SkipSpace, GetToken, Peek;
    if GetToken(s, i).kind != NUL { LexStep(s, i); }
  }

  lemma HeadToken(s: string, i: nat)
    requires i <= |s| && NoNul(s)
    ensures forall toks: string :: Peek(s, i, toks) ==> GetToken(s, i).kind != NUL
    ensures forall toks: string | (forall c :: c in toks ==> c in "(|)&;") ::
              Peek(s, i, toks) <==> GetToken(s, i).kind in toks
    ensures Peek(s, i, "<>") <==> GetToken(s, i).kind in "<>+"
    ensures GetToken(s, i).kind == 'a' ==> SkipSpace(s, i) < |s| && !Peek(s, i, "<>") && !Peek(s, i, "(")
    ensures GetToken(s, i).kind == 'a' ==> !Peek(s, i, "|)&;")
  {
    hide WordEnd;
  }

  lemma FileHead(s: string, i: nat)
    requires i <= |s| && NoNul(s)
    ensures Peek(s, i, "<>") <==> Head(Lex(s, i), "<>+")
    ensures Peek(s, i, "<>") ==>
              var t := GetToken(s, SkipSpace(s, i));
              i < t.next <= |s| && t.kind in "<>+" && Lex(s, i) == [Sym(t.kind)] + Lex(s, t.next)
  {
    TokenSkip(s, i);
    LexEnd(s, i);
    HeadToken(s, i);
    hide WordEnd, SkipSpace, GetToken, Peek;
    if GetToken(s, i).kind != NUL { LexStep(s, i); }
  }

  lemma WordHead(s: string, i: nat)
    requires i <= |s| && NoNul(s)
    ensures var t := GetToken(s, i);
            && (t.kind == 'a' <==> Lex(s, i) != [] && Lex(s, i)[0].Word?)
            && (t.kind == 'a' ==> i < t.next <= |s| && Lex(s, i) == [Word(Sub(s, Span(t.q, t.eq)))] + Lex(s, t.next))
  {
    LexEnd(s, i);
    hide GetToken;
    if GetToken(s, i).kind != NUL { LexStep(s, i); }
  }

  // ---------- words and redirections ----------

  lemma SimpleTail(u: seq<Tok>)
    requires IsSimple(u)
    ensures u == [] ==> ArgsOf(u) == [] && FilesOf(u) == []
    ensures u != [] && u[0].Word? ==> IsSimple(u[1..])
    ensures u != [] && !u[0].Word? ==> |u| >= 2 && u[0].kind in "<>+" && u[1].Word? && IsSimple(u[2..])
  {}

  lemma Assoc(a: seq<Tok>, b: seq<Tok>, c: seq<Tok>)
    ensures a + b + c == a + (b + c)
  {}

  lemma Cancel(x: Tok, a: seq<Tok>, y: Tok, b: seq<Tok>)
    requires [x] + a == [y] + b
    ensures x == y && a == b
  {
    assert ([x] + a)[1..] == a && ([y] + b)[1..] == b && ([x] + a)[0] == x && ([y] + b)[0] == y;
  }

  lemma Front(u: seq<Tok>, v: seq<Tok>, x: Tok, rest: seq<Tok>)
    requires u != [] && u + v == [x] + rest
    ensures x == u[0] && rest == u[1..] + v
  {
    assert u + v == [u[0]] + (u[1..] + v);
    Cancel(u[0], u[1..] + v, x, rest);
  }

  lemma {:induction false} SimpleConcat(u: seq<Tok>, v: seq<Tok>)
    requires IsSimple(u) && IsSimple(v)
    ensures IsSimple(u + v) && ArgsOf(u + v) == ArgsOf(u) + ArgsOf(v) && FilesOf(u + v) == FilesOf(u) + FilesOf(v)
  {
    hide IsSimple, ArgsOf, FilesOf;
    SimpleTail(u);
    if u == [] {
      assert u + v == v;
    } else if u[0].Word? {
      SimpleConcat(u[1..], v);
      OneWord(u[0], u[1..]);
      OneWord(u[0], u[1..] + v);
      assert u == [u[0]] + u[1..];
      Assoc([u[0]], u[1..], v);
    } else {
      SimpleConcat(u[2..], v);
      OneFile(u[0], u[1], u[2..]);
      OneFile(u[0], u[1], u[2..] + v);
      assert u == [u[0], u[1]] + u[2..];
      Assoc([u[0], u[1]], u[2..], v);
    }
  }

  function Names(s: string, rs: seq<Redirection>): seq<File> {
    seq(|rs|, k requires 0 <= k < |rs| => File(Sub(s, rs[k].file), rs[k].mode))
  }

  lemma {:induction false} WrapLast(t: Tree, fs: seq<File>, f: File)
    ensures WrapTree(t, fs + [f]) == TRedir(WrapTree(t, fs), f.name, f.mode)
    decreases fs
  {
    if fs == [] {
      assert fs + [f] == [f];
    } else {
      assert (fs + [f])[1..] == fs[1..] + [f];
      WrapLast(TRedir(t, fs[0].name, fs[0].mode), fs[1..], f);
    }
  }

  lemma {:induction false} WrapText(s: string, c: Cmd, rs: seq<Redirection>)
    ensures Text(s, Wrap(c, rs)) == WrapTree(Text(s, c), Names(s, rs))
  {
    if rs != [] {
      var n := |rs| - 1;
      WrapText(s, c, rs[..n]);
      WrapLast(Text(s, c), Names(s, rs[..n]), Names(s, rs)[n]);
      assert Names(s, rs) == Names(s, rs[..n]) + [Names(s, rs)[n]];
    }
  }

  lemma NamesMore(s: string, rs: seq<Redirection>, r: Redirection)
    ensures Names(s, rs + [r]) == Names(s, rs) + [File(Sub(s, r.file), r.mode)]
  {}

  lemma SubsMore(s: string, ws: seq<Span>, w: Span)
    ensures Subs(s, ws + [w]) == Subs(s, ws) + [Sub(s, w)]
  {}

  lemma OneFile(x: Tok, w: Tok, u: seq<Tok>)
    requires x.Sym? && x.kind in "<>+" && w.Word? && IsSimple(u)
    ensures IsSimple([x, w] + u) && ArgsOf([x, w] + u) == ArgsOf(u)
    ensures FilesOf([x, w] + u) == [File(w.text, ModeOf(x.kind))] + FilesOf(u)
  {
    assert ([x, w] + u)[2..] == u;
  }

  lemma OneWord(w: Tok, u: seq<Tok>)
    requires w.Word? && IsSimple(u)
    ensures IsSimple([w] + u) && ArgsOf([w] + u) == [w.text] + ArgsOf(u) && FilesOf([w] + u) == FilesOf(u)
  {
    assert ([w] + u)[1..] == u;
  }

  // ---------- what the parser accepts, the grammar derives ----------

  lemma {:induction false} RedirsSound(s: string, i: nat, rs: seq<Redirection>) returns (u: seq<Tok>)
    requires i <= |s| && NoNul(s) && ParseRedirs(s, i, rs).Redirs?
    ensures var r := ParseRedirs(s, i, rs);
            Lex(s, i) == u + Lex(s, r.pos) && OnlyFiles(u) && Names(s, r.rs) == Names(s, rs) + FilesOf(u)
    decreases |s| - i
  {
    hide GetToken, SkipSpace, Peek, Lex, Names, ModeOf, IsSimple, ArgsOf, FilesOf, Sub, NoNul, Boundary;
    FileHead(s, i);
    TokenSkip(s, i);
    if Peek(s, i, "<>") {
      var t := GetToken(s, SkipSpace(s, i));
      var f := GetToken(s, t.next);
      WordHead(s, t.next);
      var r := Redirection(Span(f.q, f.eq), ModeOf(t.kind));
      var v := RedirsSound(s, f.next, rs + [r]);
      NamesMore(s, rs, r);
      OneFile(Sym(t.kind), Word(Sub(s, r.file)), v);
      u := [Sym(t.kind), Word(Sub(s, r.file))] + v;
      assert Lex(s, i) == u + Lex(s, ParseRedirs(s, i, rs).pos);
    } else {
      u := [];
      NoTokens();
    }
  }

  lemma NoTokens() ensures IsSimple([]) && ArgsOf([]) == [] && FilesOf([]) == [] {}

  lemma {:induction false} ArgsSound(s: string, i: nat, args: seq<Span>, rs: seq<Redirection>) returns (u: seq<Tok>)
    requires i <= |s| && NoNul(s) && |args| < MAXARGS && ParseArgs(s, i, args, rs).Args?
    ensures var r := ParseArgs(s, i, args, rs);
            && Lex(s, i) == u + Lex(s, r.pos) && IsSimple(u) && |r.args| < MAXARGS
            && Subs(s, r.args) == Subs(s, args) + ArgsOf(u) && Names(s, r.rs) == Names(s, rs) + FilesOf(u)
    decreases |s| - i
  {
    hide GetToken, SkipSpace, Peek, Lex, Names, Subs, Sub, IsSimple, ArgsOf, FilesOf, ParseRedirs, NoNul, Boundary;
    TokenSkip(s, i);
    LexEnd(s, i);
    WordHead(s, i);
    NoTokens();
    var t := GetToken(s, SkipSpace(s, i));
    if Peek(s, i, "|)&;") || t.kind == NUL {
      u := [];
    } else {
      var w := Span(t.q, t.eq);
      var r := ParseRedirs(s, t.next, rs);
      var v := RedirsSound(s, t.next, rs);
      var x := ArgsSound(s, r.pos, args + [w], r.rs);
      var end := Lex(s, ParseArgs(s, i, args, rs).pos);
      SubsMore(s, args, w);
      SimpleConcat(v, x);
      OneWord(Word(Sub(s, w)), v + x);
      u := [Word(Sub(s, w))] + (v + x);
      Assoc(v, x, end);
      Assoc([Word(Sub(s, w))], v + x, end);
    }
  }

  lemma {:induction false} ExecSound(s: string, i: nat) returns (u: seq<Tok>)
    requires i <= |s| && NoNul(s) && ParseExec(s, i).Ok?
    ensures var r := ParseExec(s, i); Lex(s, i) == u + Lex(s, r.pos) && DExec(u, Text(s, r.cmd))
    decreases |s| - i, 1
  {
    hide GetToken, SkipSpace, Peek, Lex, Names, Subs, Sub, IsSimple, ArgsOf, FilesOf, ParseRedirs, ParseArgs,
        ParseBlock, DBlock, Wrap, WrapTree, NoNul, Boundary;
    TokenSkip(s, i);
    if Peek(s, i, "(") {
      u := BlockSound(s, SkipSpace(s, i));
    } else {
      var r := ParseRedirs(s, SkipSpace(s, i), []);
      var a := ParseArgs(s, r.pos, [], r.rs);
      var v := RedirsSound(s, SkipSpace(s, i), []);
      var w := ArgsSound(s, r.pos, [], r.rs);
      SimpleConcat(v, w);
      Assoc(v, w, Lex(s, a.pos));
      u := v + w;
      NoneYet(s);
      WrapText(s, Exec(a.args), a.rs);
      assert Subs(s, a.args) == ArgsOf(u) && Names(s, a.rs) == FilesOf(u);
      SubsLength(s, a.args);
    }
  }

  lemma SubsLength(s: string, ws: seq<Span>) ensures |Subs(s, ws)| == |ws| {}

  lemma NoneYet(s: string) ensures Names(s, []) == [] && Subs(s, []) == [] {}

  lemma {:induction false} BlockSound(s: string, i: nat) returns (u: seq<Tok>)
    requires i <= |s| && NoNul(s) && ParseBlock(s, i).Ok?
    ensures var r := ParseBlock(s, i); Lex(s, i) == u + Lex(s, r.pos) && DBlock(u, Text(s, r.cmd))
    decreases |s| - i, 0
  {
    hide GetToken, SkipSpace, Peek, Lex, Names, IsSimple, ArgsOf, FilesOf, ParseRedirs, ParseLine, DLine, Wrap,
        WrapTree, Text, NoNul, Boundary, DBlock;
    PeekHead(s, i, "(");
    var j := GetToken(s, SkipSpace(s, i)).next;
    var c := ParseLine(s, j);
    PeekHead(s, c.pos, ")");
    var k := GetToken(s, SkipSpace(s, c.pos)).next;
    var l := LineSound(s, j);
    var r := ParseRedirs(s, k, []);
    var f := RedirsSound(s, k, []);
    NoneYet(s);
    WrapText(s, c.cmd, r.rs);
    assert Names(s, r.rs) == FilesOf(f);
    u := [Sym('(')] + (l + ([Sym(')')] + f));
    BlockDerives(l, Text(s, c.cmd), f);
    var end := Lex(s, r.pos);
    Assoc([Sym(')')], f, end);
    Assoc(l, [Sym(')')] + f, end);
    Assoc([Sym('(')], l + ([Sym(')')] + f), end);
  }

  lemma BlockDerives(l: seq<Tok>, t: Tree, f: seq<Tok>)
    requires DLine(l, t) && OnlyFiles(f)
    ensures DBlock([Sym('(')] + (l + ([Sym(')')] + f)), WrapTree(t, FilesOf(f)))
  {
    hide DLine, IsSimple, FilesOf, ArgsOf, WrapTree;
    var u := [Sym('(')] + (l + ([Sym(')')] + f));
    assert u[1..|l| + 1] == l && u[|l| + 1] == Sym(')') && u[|l| + 2..] == f;
    assert DBlockAt(u, WrapTree(t, FilesOf(f)), |l| + 1, t);
  }

  lemma {:induction false} PipeSound(s: string, i: nat) returns (u: seq<Tok>)
    requires i <= |s| && NoNul(s) && ParsePipe(s, i).Ok?
    ensures var r := ParsePipe(s, i); Lex(s, i) == u + Lex(s, r.pos) && DPipe(u, Text(s, r.cmd))
    decreases |s| - i, 2
  {
    hide GetToken, SkipSpace, Peek, Lex, ParseExec, DExec, NoNul, Boundary, DPipe;
    var c := ParseExec(s, i);
    PeekHead(s, c.pos, "|");
    TokenSkip(s, c.pos);
    var l := ExecSound(s, i);
    if Peek(s, c.pos, "|") {
      var j := GetToken(s, SkipSpace(s, c.pos)).next;
      var d := ParsePipe(s, j);
      var r := PipeSound(s, j);
      u := l + ([Sym('|')] + r);
      PipeDerives(l, Text(s, c.cmd), r, Text(s, d.cmd));
      Assoc([Sym('|')], r, Lex(s, d.pos));
      Assoc(l, [Sym('|')] + r, Lex(s, d.pos));
    } else {
      u := l;
      PipeOne(l, Text(s, c.cmd));
    }
  }

  lemma PipeOne(l: seq<Tok>, t: Tree)
    requires DExec(l, t)
    ensures DPipe(l, t)
  {}

  lemma PipeDerives(l: seq<Tok>, tl: Tree, r: seq<Tok>, tr: Tree)
    requires DExec(l, tl) && DPipe(r, tr)
    ensures DPipe(l + ([Sym('|')] + r), TPipe(tl, tr))
  {
    var u := l + ([Sym('|')] + r);
    assert u[..|l|] == l && u[|l| + 1..] == r;
    assert DPipeAt(u, TPipe(tl, tr), |l|);
  }

  lemma {:induction false} BacksSound(s: string, i: nat, c: Cmd, v: seq<Tok>) returns (u: seq<Tok>)
    requires i <= |s| && NoNul(s) && DBacks(v, Text(s, c))
    ensures var r := ParseBacks(s, i, c); v + Lex(s, i) == u + Lex(s, r.pos) && DBacks(u, Text(s, r.cmd))
    decreases |s| - i
  {
    hide GetToken, SkipSpace, Peek, Lex, DBacks, NoNul, Boundary;
    PeekHead(s, i, "&");
    TokenSkip(s, i);
    if Peek(s, i, "&") {
      BacksMore(v, Text(s, c));
      var j := GetToken(s, SkipSpace(s, i)).next;
      u := BacksSound(s, j, Back(c), v + [Sym('&')]);
      Assoc(v, [Sym('&')], Lex(s, j));
    } else {
      u := v;
    }
  }

  lemma BacksMore(v: seq<Tok>, t: Tree)
    requires DBacks(v, t)
    ensures DBacks(v + [Sym('&')], TBack(t))
  {
    var v' := v + [Sym('&')];
    assert v'[..|v'| - 1] == v;
  }

  lemma BacksOne(u: seq<Tok>, t: Tree)
    requires DPipe(u, t)
    ensures DBacks(u, t)
  {}

  lemma {:induction false} LineSound(s: string, i: nat) returns (u: seq<Tok>)
    requires i <= |s| && NoNul(s) && ParseLine(s, i).Ok?
    ensures var r := ParseLine(s, i); Lex(s, i) == u + Lex(s, r.pos) && DLine(u, Text(s, r.cmd))
    decreases |s| - i, 3
  {
    hide GetToken, SkipSpace, Peek, Lex, ParsePipe, ParseBacks, DPipe, DBacks, DLine, NoNul, Boundary;
    var c := ParsePipe(s, i);
    var b := ParseBacks(s, c.pos, c.cmd);
    PeekHead(s, b.pos, ";");
    TokenSkip(s, b.pos);
    var p := PipeSound(s, i);
    BacksOne(p, Text(s, c.cmd));
    var l := BacksSound(s, c.pos, c.cmd, p);
    if Peek(s, b.pos, ";") {
      var j := GetToken(s, SkipSpace(s, b.pos)).next;
      var d := ParseLine(s, j);
      var r := LineSound(s, j);
      u := l + ([Sym(';')] + r);
      LineDerives(l, Text(s, b.cmd), r, Text(s, d.cmd));
      Assoc([Sym(';')], r, Lex(s, d.pos));
      Assoc(l, [Sym(';')] + r, Lex(s, d.pos));
    } else {
      u := l;
      LineOne(l, Text(s, b.cmd));
    }
  }

  lemma LineOne(l: seq<Tok>, t: Tree)
    requires DBacks(l, t)
    ensures DLine(l, t)
  {}

  lemma LineDerives(l: seq<Tok>, tl: Tree, r: seq<Tok>, tr: Tree)
    requires DBacks(l, tl) && DLine(r, tr)
    ensures DLine(l + ([Sym(';')] + r), TList(tl, tr))
  {
    hide DBacks;
    var u := l + ([Sym(';')] + r);
    assert u[..|l|] == l && u[|l| + 1..] == r;
    assert DLineAt(u, TList(tl, tr), |l|);
  }

  // ---------- what the grammar derives, the parser accepts ----------

  /** What may come after a part of the line for the parser to stop there. */
  predicate Follow(v: seq<Tok>, kinds: string) { v == [] || Head(v, kinds) }

  /** The redirections in front. */
  lemma {:induction false} Lead(u: seq<Tok>) returns (k: nat)
    requires IsSimple(u)
    ensures k <= |u| && OnlyFiles(u[..k]) && IsSimple(u[k..]) && (k < |u| ==> u[k].Word?)
    ensures ArgsOf(u) == ArgsOf(u[k..]) && FilesOf(u) == FilesOf(u[..k]) + FilesOf(u[k..])
  {
    hide IsSimple, ArgsOf, FilesOf;
    SimpleTail(u);
    NoTokens();
    if u == [] || u[0].Word? {
      k := 0;
      assert u[..0] == [] && u[0..] == u;
    } else {
      var j := Lead(u[2..]);
      k := j + 2;
      OneFile(u[0], u[1], u[2..][..j]);
      OneFile(u[0], u[1], u[2..]);
      assert u[..k] == [u[0], u[1]] + u[2..][..j] && u[k..] == u[2..][j..] && u == [u[0], u[1]] + u[2..];
    }
  }

  lemma {:induction false} RedirsComplete(s: string, i: nat, rs: seq<Redirection>, u: seq<Tok>, v: seq<Tok>)
    returns (j: nat)
    requires i <= |s| && NoNul(s) && Lex(s, i) == u + v && OnlyFiles(u) && !Head(v, "<>+")
    ensures var r := ParseRedirs(s, i, rs);
            r.Redirs? && r.pos == j && Lex(s, j) == v && Names(s, r.rs) == Names(s, rs) + FilesOf(u)
    decreases |u|
  {
    hide GetToken, SkipSpace, Peek, Lex, Names, ModeOf, IsSimple, ArgsOf, FilesOf, Sub, NoNul, Boundary;
    FileHead(s, i);
    TokenSkip(s, i);
    SimpleTail(u);
    if u == [] {
      j := SkipSpace(s, i);
    } else {
      FilesFirst(u);
      var t := GetToken(s, SkipSpace(s, i));
      Front(u, v, Sym(t.kind), Lex(s, t.next));
      WordHead(s, t.next);
      var f := GetToken(s, t.next);
      Front(u[1..], v, Word(Sub(s, Span(f.q, f.eq))), Lex(s, f.next));
      assert u[1..][1..] == u[2..];
      var r := Redirection(Span(f.q, f.eq), ModeOf(t.kind));
      j := RedirsComplete(s, f.next, rs + [r], u[2..], v);
      NamesMore(s, rs, r);
    }
  }

  lemma FilesFirst(u: seq<Tok>)
    requires OnlyFiles(u) && u != []
    ensures |u| >= 2 && Head(u, "<>+") && u[1].Word? && OnlyFiles(u[2..])
    ensures FilesOf(u) == [File(u[1].text, ModeOf(u[0].kind))] + FilesOf(u[2..])
  {}

  lemma {:induction false} ArgsComplete(s: string, i: nat, args: seq<Span>, rs: seq<Redirection>, u: seq<Tok>,
                                        v: seq<Tok>)
    returns (j: nat)
    requires i <= |s| && NoNul(s) && Lex(s, i) == u + v && IsSimple(u) && (u != [] ==> u[0].Word?) && Follow(v, "|)&;")
    requires |args| + |ArgsOf(u)| < MAXARGS
    ensures var r := ParseArgs(s, i, args, rs);
            && r.Args? && r.pos == j && Lex(s, j) == v
            && Subs(s, r.args) == Subs(s, args) + ArgsOf(u) && Names(s, r.rs) == Names(s, rs) + FilesOf(u)
    decreases |u|
  {
    hide GetToken, SkipSpace, Peek, Lex, Names, Subs, Sub, IsSimple, ArgsOf, FilesOf, ParseRedirs, NoNul, Boundary;
    TokenSkip(s, i);
    LexEnd(s, i);
    WordHead(s, i);
    PeekHead(s, i, "|)&;");
    SimpleTail(u);
    if u == [] {
      j := if v == [] then GetToken(s, i).next else SkipSpace(s, i);
      ArgsStop(s, i, args, rs);
    } else {
      WordFirst(u);
      var t := GetToken(s, i);
      Front(u, v, Word(Sub(s, Span(t.q, t.eq))), Lex(s, t.next));
      var k := Lead(u[1..]);
      var f, x := u[1..][..k], u[1..][k..];
      assert u[1..] + v == f + (x + v);
      var m := RedirsComplete(s, t.next, rs, f, x + v);
      var r := ParseRedirs(s, t.next, rs);
      var w := Span(t.q, t.eq);
      j := ArgsComplete(s, m, args + [w], r.rs, x, v);
      SubsMore(s, args, w);
    }
  }

  lemma ArgsStop(s: string, i: nat, args: seq<Span>, rs: seq<Redirection>)
    requires i <= |s| && NoNul(s) && (Peek(s, i, "|)&;") || GetToken(s, SkipSpace(s, i)).kind == NUL)
    ensures ParseArgs(s, i, args, rs) ==
              Args(args, rs, if Peek(s, i, "|)&;") then SkipSpace(s, i) else GetToken(s, SkipSpace(s, i)).next)
  {
    hide GetToken, SkipSpace, Peek;
  }

  lemma WordFirst(u: seq<Tok>)
    requires IsSimple(u) && u != [] && u[0].Word?
    ensures IsSimple(u[1..]) && ArgsOf(u) == [u[0].text] + ArgsOf(u[1..]) && FilesOf(u) == FilesOf(u[1..])
  {}

  lemma {:induction false} SimpleComplete(s: string, i: nat, u: seq<Tok>, v: seq<Tok>, t: Tree) returns (c: Cmd, j: nat)
    requires i <= |s| && NoNul(s) && Lex(s, i) == u + v && DSimple(u, t) && Follow(v, "|)&;")
    ensures ParseExec(s, i) == Ok(c, j) && j <= |s| && Lex(s, j) == v && Text(s, c) == t
  {
    hide GetToken, SkipSpace, Peek, Lex, Names, Subs, Sub, IsSimple, ArgsOf, FilesOf, ParseRedirs, ParseArgs,
        ParseBlock, Wrap, WrapTree, NoNul, Boundary;
    TokenSkip(s, i);
    PeekHead(s, i, "(");
    SimpleTail(u);
    var k := Lead(u);
    assert u + v == u[..k] + (u[k..] + v);
    var m := RedirsComplete(s, SkipSpace(s, i), [], u[..k], u[k..] + v);
    var r := ParseRedirs(s, SkipSpace(s, i), []);
    j := ArgsComplete(s, m, [], r.rs, u[k..], v);
    var a := ParseArgs(s, m, [], r.rs);
    NoneYet(s);
    c := Wrap(Exec(a.args), a.rs);
    WrapText(s, Exec(a.args), a.rs);
    assert Subs(s, a.args) == ArgsOf(u) && Names(s, a.rs) == FilesOf(u);
  }

  lemma {:induction false} ExecComplete(s: string, i: nat, u: seq<Tok>, v: seq<Tok>, t: Tree) returns (c: Cmd, j: nat)
    requires i <= |s| && NoNul(s) && Lex(s, i) == u + v && DExec(u, t) && Follow(v, "|)&;")
    ensures ParseExec(s, i) == Ok(c, j) && j <= |s| && Lex(s, j) == v && Text(s, c) == t
    decreases |u|, 1
  {
    hide GetToken, SkipSpace, Peek, Lex, DSimple, DBlock, ParseBlock, ParseRedirs, ParseArgs, NoNul, Boundary;
    if DSimple(u, t) {
      c, j := SimpleComplete(s, i, u, v, t);
    } else {
      TokenSkip(s, i);
      PeekHead(s, i, "(");
      BlockStarts(u, t);
      c, j := BlockComplete(s, SkipSpace(s, i), u, v, t);
    }
  }

  lemma BlockStarts(u: seq<Tok>, t: Tree)
    requires DBlock(u, t)
    ensures u != [] && u[0] == Sym('(')
  {
    hide DLine;
  }

  lemma {:induction false} BlockComplete(s: string, i: nat, u: seq<Tok>, v: seq<Tok>, t: Tree) returns (c: Cmd, j: nat)
    requires i <= |s| && NoNul(s) && Lex(s, i) == u + v && DBlock(u, t) && Follow(v, "|)&;")
    ensures ParseBlock(s, i) == Ok(c, j) && j <= |s| && Lex(s, j) == v && Text(s, c) == t
    decreases |u|, 0
  {
    hide GetToken, SkipSpace, Peek, Lex, Names, IsSimple, ArgsOf, FilesOf, ParseRedirs, ParseLine, DLine, Wrap,
        WrapTree, Text, NoNul, Boundary;
    var k: nat, t0: Tree :| DBlockAt(u, t, k, t0);
    PeekHead(s, i, "(");
    var a := GetToken(s, SkipSpace(s, i)).next;
    var l, f := u[1..k], u[k + 1..];
    assert u + v == [Sym('(')] + (l + ([Sym(')')] + (f + v)));
    Cancel(Sym('('), l + ([Sym(')')] + (f + v)), Sym(Lex(s, i)[0].kind), Lex(s, a));
    var d, m := LineComplete(s, a, l, [Sym(')')] + (f + v), t0);
    PeekHead(s, m, ")");
    var b := GetToken(s, SkipSpace(s, m)).next;
    Cancel(Sym(')'), f + v, Sym(Lex(s, m)[0].kind), Lex(s, b));
    j := RedirsComplete(s, b, [], f, v);
    var r := ParseRedirs(s, b, []);
    NoneYet(s);
    assert Names(s, r.rs) == FilesOf(f);
    c := Wrap(d, r.rs);
    WrapText(s, d, r.rs);
  }

  lemma {:induction false} PipeComplete(s: string, i: nat, u: seq<Tok>, v: seq<Tok>, t: Tree) returns (c: Cmd, j: nat)
    requires i <= |s| && NoNul(s) && Lex(s, i) == u + v && DPipe(u, t) && Follow(v, ")&;")
    ensures ParsePipe(s, i) == Ok(c, j) && j <= |s| && Lex(s, j) == v && Text(s, c) == t
    decreases |u|, 2
  {
    hide GetToken, SkipSpace, Peek, Lex, DExec, ParseExec, NoNul, Boundary;
    if DExec(u, t) {
      c, j := ExecComplete(s, i, u, v, t);
      PeekHead(s, j, "|");
      TokenSkip(s, j);
      j := SkipSpace(s, j);
    } else {
      var k: nat :| DPipeAt(u, t, k);
      var l, r := u[..k], u[k + 1..];
      assert u + v == l + ([Sym('|')] + (r + v));
      var d, m := ExecComplete(s, i, l, [Sym('|')] + (r + v), t.left);
      PeekHead(s, m, "|");
      var b := GetToken(s, SkipSpace(s, m)).next;
      Cancel(Sym('|'), r + v, Sym(Lex(s, m)[0].kind), Lex(s, b));
      var e;
      e, j := PipeComplete(s, b, r, v, t.right);
      c := Pipe(d, e);
    }
  }

  lemma {:induction false} BacksComplete(s: string, i: nat, u: seq<Tok>, v: seq<Tok>, t: Tree)
    returns (c0: Cmd, j0: nat, c: Cmd, j: nat)
    requires i <= |s| && NoNul(s) && Lex(s, i) == u + v && DBacks(u, t) && Follow(v, ")&;")
    ensures ParsePipe(s, i) == Ok(c0, j0) && j0 <= |s| && j <= |s|
    ensures ParseBacks(s, j0, c0) == ParseBacks(s, j, c) && Lex(s, j) == v && Text(s, c) == t
    decreases |u|, 3
  {
    hide GetToken, SkipSpace, Peek, Lex, DPipe, ParsePipe, NoNul, Boundary;
    if DPipe(u, t) {
      c, j := PipeComplete(s, i, u, v, t);
      c0, j0 := c, j;
    } else {
      var w := u[..|u| - 1];
      assert u + v == w + ([Sym('&')] + v);
      var d, m;
      c0, j0, d, m := BacksComplete(s, i, w, [Sym('&')] + v, t.t);
      PeekHead(s, m, "&");
      c, j := Back(d), GetToken(s, SkipSpace(s, m)).next;
      Cancel(Sym('&'), v, Sym(Lex(s, m)[0].kind), Lex(s, j));
    }
  }

  lemma {:induction false} LineComplete(s: string, i: nat, u: seq<Tok>, v: seq<Tok>, t: Tree) returns (c: Cmd, j: nat)
    requires i <= |s| && NoNul(s) && Lex(s, i) == u + v && DLine(u, t) && Follow(v, ")")
    ensures ParseLine(s, i) == Ok(c, j) && j <= |s| && Lex(s, j) == v && Text(s, c) == t
    decreases |u|, 4
  {
    hide GetToken, SkipSpace, Peek, Lex, DBacks, ParsePipe, NoNul, Boundary;
    if DBacks(u, t) {
      var c0, j0, d, m := BacksComplete(s, i, u, v, t);
      c, j := BacksEnd(s, m, d);
      PeekHead(s, j, ";");
      TokenSkip(s, j);
      j := SkipSpace(s, j);
    } else {
      var k: nat :| DLineAt(u, t, k);
      var l, r := u[..k], u[k + 1..];
      assert u + v == l + ([Sym(';')] + (r + v));
      var c0, j0, d, m := BacksComplete(s, i, l, [Sym(';')] + (r + v), t.left);
      var e, n := BacksEnd(s, m, d);
      PeekHead(s, n, ";");
      var b := GetToken(s, SkipSpace(s, n)).next;
      Cancel(Sym(';'), r + v, Sym(Lex(s, n)[0].kind), Lex(s, b));
      var x;
      x, j := LineComplete(s, b, r, v, t.right);
      c := List(e, x);
    }
  }

  lemma BacksEnd(s: string, i: nat, c: Cmd) returns (d: Cmd, j: nat)
    requires i <= |s| && NoNul(s) && Follow(Lex(s, i), ");")
    ensures ParseBacks(s, i, c) == Ok(d, j) && j <= |s| && Lex(s, j) == Lex(s, i) && d == c
  {
    hide GetToken, SkipSpace, Peek, Lex, NoNul, Boundary;
    PeekHead(s, i, "&");
    TokenSkip(s, i);
    d, j := c, SkipSpace(s, i);
  }

  /** The parser accepts exactly the lines that the grammar derives, and returns what it derives. */
  lemma Grammar(s: string, t: Tree)
    requires NoNul(s)
    ensures ParseCmd(s).Ok? && Text(s, ParseCmd(s).cmd) == t <==> DLine(Lex(s, 0), t)
  {
    hide GetToken, SkipSpace, Lex, ParseLine, DLine, NoNul, Boundary;
    if ParseCmd(s).Ok? {
      var u := LineSound(s, 0);
      LexEnd(s, ParseLine(s, 0).pos);
      assert Lex(s, 0) == u;
    }
    if DLine(Lex(s, 0), t) {
      assert Lex(s, 0) == Lex(s, 0) + [];
      var c, j := LineComplete(s, 0, Lex(s, 0), [], t);
      LexEnd(s, j);
    }
  }

  /** The grammar is unambiguous on lines. */
  lemma Unambiguous(s: string, t: Tree, t': Tree)
    requires NoNul(s) && DLine(Lex(s, 0), t) && DLine(Lex(s, 0), t')
    ensures t == t'
  {
    hide Lex, DLine, ParseCmd, Text;
    Grammar(s, t);
    Grammar(s, t');
  }

  // ---------- no word is lost ----------

  function WordsOf(u: seq<Tok>): multiset<string> {
    if u == [] then multiset{} else (if u[0].Word? then multiset{u[0].text} else multiset{}) + WordsOf(u[1..])
  }

  function TreeWords(t: Tree): multiset<string> {
    match t
    case TExec(args) => multiset(args)
    case TRedir(u, f, _) => TreeWords(u) + multiset{f}
    case TPipe(l, r) => TreeWords(l) + TreeWords(r)
    case TList(l, r) => TreeWords(l) + TreeWords(r)
    case TBack(u) => TreeWords(u)
  }

  lemma {:induction false} WordsConcat(u: seq<Tok>, v: seq<Tok>)
    ensures WordsOf(u + v) == WordsOf(u) + WordsOf(v)
  {
    if u == [] { assert u + v == v; }
    else {
      hide WordsOf;
      WordsConcat(u[1..], v);
      WordsFirst(u[0], u[1..] + v);
      WordsFirst(u[0], u[1..]);
      assert u == [u[0]] + u[1..];
      Assoc([u[0]], u[1..], v);
    }
  }

  lemma WordsFirst(x: Tok, u: seq<Tok>)
    ensures WordsOf([x] + u) == (if x.Word? then multiset{x.text} else multiset{}) + WordsOf(u)
  {
    assert ([x] + u)[1..] == u;
  }

  lemma WordsAround(u: seq<Tok>, k: nat)
    requires k < |u| && u[k].Sym?
    ensures WordsOf(u) == WordsOf(u[..k]) + WordsOf(u[k + 1..])
  {
    assert u == u[..k] + ([u[k]] + u[k + 1..]);
    WordsConcat(u[..k], [u[k]] + u[k + 1..]);
    assert ([u[k]] + u[k + 1..])[1..] == u[k + 1..];
  }

  function FileNames(fs: seq<File>): multiset<string> {
    if fs == [] then multiset{} else multiset{fs[0].name} + FileNames(fs[1..])
  }

  lemma {:induction false} WrapTreeWords(t: Tree, fs: seq<File>)
    ensures TreeWords(WrapTree(t, fs)) == TreeWords(t) + FileNames(fs)
    decreases fs
  {
    if fs != [] { WrapTreeWords(TRedir(t, fs[0].name, fs[0].mode), fs[1..]); }
  }

  lemma {:induction false} SimpleWords(u: seq<Tok>)
    requires IsSimple(u)
    ensures WordsOf(u) == multiset(ArgsOf(u)) + FileNames(FilesOf(u))
  {
    if u != [] {
      if u[0].Word? {
        SimpleWords(u[1..]);
        assert ArgsOf(u) == [u[0].text] + ArgsOf(u[1..]);
      } else {
        SimpleWords(u[2..]);
        assert u[1..][1..] == u[2..];
        assert FilesOf(u)[1..] == FilesOf(u[2..]);
      }
    }
  }

  lemma {:induction false} BlockKeeps(u: seq<Tok>, t: Tree)
    requires DBlock(u, t)
    ensures WordsOf(u) == TreeWords(t)
    decreases |u|, 0
  {
    var k: nat, t0: Tree :| DBlockAt(u, t, k, t0);
    hide DLine, DBlock;
    LineKeeps(u[1..k], t0);
    WordsAround(u, k);
    WordsAround(u[..k], 0);
    assert u[..k][1..] == u[1..k] && u[..k][..0] == [];
    SimpleWords(u[k + 1..]);
    WrapTreeWords(t0, FilesOf(u[k + 1..]));
  }

  lemma {:induction false} ExecKeeps(u: seq<Tok>, t: Tree)
    requires DExec(u, t)
    ensures WordsOf(u) == TreeWords(t)
    decreases |u|, 1
  {
    hide DBlock;
    if DSimple(u, t) {
      SimpleWords(u);
      WrapTreeWords(TExec(ArgsOf(u)), FilesOf(u));
    } else {
      BlockKeeps(u, t);
    }
  }

  lemma {:induction false} PipeKeeps(u: seq<Tok>, t: Tree)
    requires DPipe(u, t)
    ensures WordsOf(u) == TreeWords(t)
    decreases |u|, 2
  {
    hide DExec;
    if DExec(u, t) { ExecKeeps(u, t); }
    else {
      var k: nat :| DPipeAt(u, t, k);
      ExecKeeps(u[..k], t.left);
      PipeKeeps(u[k + 1..], t.right);
      WordsAround(u, k);
    }
  }

  lemma {:induction false} BacksKeeps(u: seq<Tok>, t: Tree)
    requires DBacks(u, t)
    ensures WordsOf(u) == TreeWords(t)
    decreases |u|, 3
  {
    hide DPipe;
    if DPipe(u, t) { PipeKeeps(u, t); }
    else {
      BacksKeeps(u[..|u| - 1], t.t);
      WordsAround(u, |u| - 1);
      assert u[|u|..] == [];
    }
  }

  lemma {:induction false} LineKeeps(u: seq<Tok>, t: Tree)
    requires DLine(u, t)
    ensures WordsOf(u) == TreeWords(t)
    decreases |u|, 4
  {
    hide DBacks;
    if DBacks(u, t) { BacksKeeps(u, t); }
    else {
      var k: nat :| DLineAt(u, t, k);
      BacksKeeps(u[..k], t.left);
      LineKeeps(u[k + 1..], t.right);
      WordsAround(u, k);
    }
  }

  /** A parsed command has exactly the words of the line, each as often. */
  lemma NoWordLost(s: string)
    requires NoNul(s) && ParseCmd(s).Ok?
    ensures TreeWords(Text(s, ParseCmd(s).cmd)) == WordsOf(Lex(s, 0))
  {
    hide Lex, DLine, ParseCmd, Text, TreeWords, WordsOf;
    Grammar(s, Text(s, ParseCmd(s).cmd));
    LineKeeps(Lex(s, 0), Text(s, ParseCmd(s).cmd));
  }

  // ---------- the words and symbols, character by character ----------

  /** s is the line y without its first n characters. */
  ghost predicate After(y: string, n: nat, s: string) {
    |y| == n + |s| && NoNul(y) && NoNul(s) && forall k :: 0 <= k < |s| ==> y[n + k] == s[k]
  }

  lemma {:induction false} SkipShift(y: string, n: nat, s: string, i: nat)
    requires i <= |s| && After(y, n, s)
    ensures SkipSpace(y, n + i) == n + SkipSpace(s, i)
    decreases |s| - i
  {
    if i < |s| {
      assert y[n + i] == s[i];
      SkipShift(y, n, s, i + 1);
    }
  }

  lemma {:induction false} WordShift(y: string, n: nat, s: string, i: nat)
    requires i <= |s| && After(y, n, s)
    ensures WordEnd(y, n + i) == n + WordEnd(s, i)
    decreases |s| - i
  {
    if i < |s| {
      assert y[n + i] == s[i];
      WordShift(y, n, s, i + 1);
    }
  }

  /** The token that begins at q. */
  function TokenAt(s: string, q: nat): Token
    requires q < |s| && s[q] != NUL
  {
    if s[q] == '>' && q + 1 < |s| && s[q + 1] == '>' then Token('+', q, q + 2, SkipSpace(s, q + 2))
    else if IsSymbol(s[q]) then Token(s[q], q, q + 1, SkipSpace(s, q + 1))
    else Token('a', q, WordEnd(s, q), SkipSpace(s, WordEnd(s, q)))
  }

  lemma TokenIs(s: string, i: nat)
    requires i <= |s| && NoNul(s)
    ensures var q := SkipSpace(s, i); GetToken(s, i) == if q < |s| then TokenAt(s, q) else Token(NUL, q, q, q)
  {
    hide SkipSpace, WordEnd;
  }

  lemma TokenAtShift(y: string, n: nat, s: string, q: nat)
    requires q < |s| && After(y, n, s)
    ensures var t := TokenAt(s, q); TokenAt(y, n + q) == Token(t.kind, n + t.q, n + t.eq, n + t.next)
  {
    hide SkipSpace, WordEnd, IsSpace, Boundary;
    assert y[n + q] == s[q];
    assert q + 1 < |s| ==> y[n + (q + 1)] == s[q + 1];
    if s[q] == '>' && q + 1 < |s| && s[q + 1] == '>' {
      SkipShift(y, n, s, q + 2);
    } else if IsSymbol(s[q]) {
      SkipShift(y, n, s, q + 1);
    } else {
      WordShift(y, n, s, q);
      SkipShift(y, n, s, WordEnd(s, q));
    }
  }

  lemma TokenShift(y: string, n: nat, s: string, i: nat)
    requires i <= |s| && After(y, n, s)
    ensures var t := GetToken(s, i); GetToken(y, n + i) == Token(t.kind, n + t.q, n + t.eq, n + t.next)
  {
    hide SkipSpace, GetToken, TokenAt;
    TokenIs(s, i);
    TokenIs(y, n + i);
    SkipShift(y, n, s, i);
    if SkipSpace(s, i) < |s| { TokenAtShift(y, n, s, SkipSpace(s, i)); }
  }

  lemma TextShift(y: string, n: nat, s: string, q: nat, e: nat)
    requires After(y, n, s) && q <= e <= |s|
    ensures y[n + q..n + e] == s[q..e]
  {}

  lemma {:induction false} LexShift(y: string, n: nat, s: string, i: nat)
    requires i <= |s| && After(y, n, s)
    ensures NoNul(y) && NoNul(s) && Lex(y, n + i) == Lex(s, i)
    decreases |s| - i
  {
    hide Lex, GetToken, NoNul, Boundary, WordSpan, SkipSpace;
    TokenShift(y, n, s, i);
    LexEnd(s, i);
    LexEnd(y, n + i);
    var t := GetToken(s, i);
    if t.kind != NUL {
      LexStep(s, i);
      LexStep(y, n + i);
      LexShift(y, n, s, t.next);
      TextShift(y, n, s, t.q, t.eq);
    }
  }

  /** Lex from a line's first token. */
  lemma LexFirst(x: string, s: string, kind: char)
    requires x != [] && NoNul(x) && NoNul(s) && kind != NUL
    requires var t := GetToken(x + s, 0); t.kind == kind && t.q == 0 && t.eq == |x| && t.next == SkipSpace(x + s, |x|)
    ensures NoNul(x + s) && Lex(x + s, 0) == [if kind == 'a' then Word(x) else Sym(kind)] + Lex(s, 0)
  {
    assert After(x + s, |x|, s);
    assert (x + s)[0..|x|] == x;
    hide Lex, GetToken, NoNul, Boundary, WordSpan, SkipSpace, After;
    LexShift(x + s, |x|, s, 0);
    TokenSkip(x + s, |x|);
    LexStep(x + s, 0);
  }

  /** A blank before a line changes nothing. */
  lemma LexBlank(c: char, s: string)
    requires c in " \t\r\n\U{0B}" && NoNul(s)
    ensures NoNul([c] + s) && Lex([c] + s, 0) == Lex(s, 0)
  {
    assert After([c] + s, 1, s);
    LexShift([c] + s, 1, s, 0);
    TokenSkip([c] + s, 0);
    TokenSkip([c] + s, 1);
    assert SkipSpace([c] + s, 0) == SkipSpace([c] + s, 1);
  }

  /** A symbol stands for itself, and ">>" is one symbol. */
  lemma LexSymbol(c: char, s: string)
    requires NoNul(s) && (c in "<|&;()" || (c == '>' && (s == [] || s[0] != '>')))
    ensures NoNul([c] + s) && Lex([c] + s, 0) == [Sym(c)] + Lex(s, 0)
  {
    var y := [c] + s;
    assert NoNul(y) && y[0] == c && (s != [] ==> y[1] == s[0]);
    assert SkipSpace(y, 0) == 0;
    hide GetToken, SkipSpace, WordEnd, Lex;
    TokenIs(y, 0);
    LexFirst([c], s, c);
  }

  lemma LexAppend(s: string)
    requires NoNul(s)
    ensures NoNul(">>" + s) && Lex(">>" + s, 0) == [Sym('+')] + Lex(s, 0)
  {
    assert NoNul(">>" + s) && (">>" + s)[0] == '>' && (">>" + s)[1] == '>';
    assert SkipSpace(">>" + s, 0) == 0;
    LexFirst(">>", s, '+');
  }

  /** A word is a run of other characters, as long as it can be. */
  lemma LexWord(w: string, s: string)
    requires w != [] && forall k :: 0 <= k < |w| ==> w[k] !in " \t\r\n\U{0B}<|>&;()" && w[k] != NUL
    requires NoNul(s) && (s == [] || s[0] in " \t\r\n\U{0B}<|>&;()")
    ensures NoNul(w + s) && Lex(w + s, 0) == [Word(w)] + Lex(s, 0)
  {
    var x := w + s;
    assert forall k :: 0 <= k < |w| ==> x[k] == w[k] && !IsSpace(w[k]) && !IsSymbol(w[k]);
    assert s != [] ==> x[|w|] == s[0];
    WordEndIs(x, 0, |w|);
    assert SkipSpace(x, 0) == 0;
    LexFirst(w, s, 'a');
  }

  lemma LexNone()
    ensures Lex("", 0) == []
  {}

  // ---------- what does not matter to a command ----------

  /** The command depends on the line's words and symbols alone. */
  lemma SameTokens(s: string, s': string)
    requires NoNul(s) && NoNul(s') && Lex(s, 0) == Lex(s', 0)
    ensures ParseCmd(s).Ok? <==> ParseCmd(s').Ok?
    ensures ParseCmd(s).Ok? ==> Text(s, ParseCmd(s).cmd) == Text(s', ParseCmd(s').cmd)
  {
    hide Lex, DLine, ParseCmd, Text;
    if ParseCmd(s).Ok? {
      Grammar(s, Text(s, ParseCmd(s).cmd));
      Grammar(s', Text(s, ParseCmd(s).cmd));
    }
    if ParseCmd(s').Ok? {
      Grammar(s', Text(s', ParseCmd(s').cmd));
      Grammar(s, Text(s', ParseCmd(s').cmd));
    }
  }

  /** y is the line s with one more blank. */
  ghost predicate OneMore(y: string, s: string) {
    |y| == |s| + 1 && NoNul(y) && NoNul(s) && IsSpace(y[|s|]) && forall k :: 0 <= k < |s| ==> y[k] == s[k]
  }

  lemma {:induction false} SkipEnd(y: string, s: string, i: nat)
    requires i <= |s| && OneMore(y, s)
    ensures SkipSpace(y, i) == if SkipSpace(s, i) == |s| then |s| + 1 else SkipSpace(s, i)
    decreases |s| - i
  {
    if i < |s| { SkipEnd(y, s, i + 1); }
  }

  lemma {:induction false} WordStops(y: string, s: string, i: nat)
    requires i <= |s| && OneMore(y, s)
    ensures WordEnd(y, i) == WordEnd(s, i)
    decreases |s| - i
  {
    if i < |s| { WordStops(y, s, i + 1); }
  }

  lemma TokenAtEnd(y: string, s: string, q: nat)
    requires q < |s| && OneMore(y, s)
    ensures var t := TokenAt(s, q); TokenAt(y, q) == t.(next := if t.next == |s| then |s| + 1 else t.next)
  {
    hide SkipSpace, WordEnd, Boundary;
    WordStops(y, s, q);
    SkipEnd(y, s, WordEnd(s, q));
    SkipEnd(y, s, q + 1);
    if q + 1 < |s| { SkipEnd(y, s, q + 2); }
  }

  lemma TokenEnd(y: string, s: string, i: nat)
    requires i <= |s| && OneMore(y, s)
    ensures var t, t' := GetToken(s, i), GetToken(y, i);
            && t'.kind == t.kind && (t.kind != NUL ==> t'.q == t.q && t'.eq == t.eq)
            && t'.next == if t.next == |s| then |s| + 1 else t.next
  {
    hide SkipSpace, GetToken, TokenAt;
    TokenIs(s, i);
    TokenIs(y, i);
    SkipEnd(y, s, i);
    if SkipSpace(s, i) < |s| { TokenAtEnd(y, s, SkipSpace(s, i)); }
  }

  lemma {:induction false} LexTrailing(y: string, s: string, i: nat)
    requires i <= |s| && OneMore(y, s)
    ensures Lex(y, i) == Lex(s, i)
    decreases |s| - i
  {
    TokenEnd(y, s, i);
    LexEnd(s, |s|);
    LexEnd(y, |s| + 1);
    hide GetToken, SkipSpace, NoNul;
    var t := GetToken(s, i);
    if t.kind != NUL {
      if t.next < |s| { LexTrailing(y, s, t.next); }
      assert y[t.q..t.eq] == s[t.q..t.eq];
    }
  }

  /** The newline that getcmd leaves at the end of the line, or any blank there, does not matter. */
  lemma TrailingBlank(s: string, c: char)
    requires NoNul(s) && c in " \t\r\n\U{0B}"
    ensures NoNul(s + [c]) && (ParseCmd(s + [c]).Ok? <==> ParseCmd(s).Ok?)
    ensures ParseCmd(s).Ok? ==> Text(s + [c], ParseCmd(s + [c]).cmd) == Text(s, ParseCmd(s).cmd)
  {
    assert OneMore(s + [c], s);
    hide ParseCmd, Text, Lex;
    LexTrailing(s + [c], s, 0);
    SameTokens(s, s + [c]);
  }

  /** The lines differ only in which blanks they use. */
  ghost predicate SameButBlanks(s: string, s': string) {
    |s| == |s'| && forall k :: 0 <= k < |s| ==> s[k] == s'[k] || (IsSpace(s[k]) && IsSpace(s'[k]))
  }

  lemma {:induction false} SkipSame(s: string, s': string, i: nat)
    requires i <= |s| && SameButBlanks(s, s')
    ensures SkipSpace(s', i) == SkipSpace(s, i)
    decreases |s| - i
  {
    if i < |s| { SkipSame(s, s', i + 1); }
  }

  lemma {:induction false} WordSame(s: string, s': string, i: nat)
    requires i <= |s| && SameButBlanks(s, s')
    ensures WordEnd(s', i) == WordEnd(s, i) && s'[i..WordEnd(s, i)] == s[i..WordEnd(s, i)]
    decreases |s| - i
  {
    if i < |s| { WordSame(s, s', i + 1); }
  }

  lemma TokenAtSame(s: string, s': string, q: nat)
    requires q < |s| && NoNul(s) && NoNul(s') && SameButBlanks(s, s') && !IsSpace(s[q])
    ensures TokenAt(s', q) == TokenAt(s, q) && TokOf(s', TokenAt(s, q)) == TokOf(s, TokenAt(s, q))
  {
    WordSame(s, s', q);
    SkipSame(s, s', WordEnd(s, q));
    SkipSame(s, s', q + 1);
    if q + 1 < |s| { SkipSame(s, s', q + 2); }
    hide SkipSpace, WordEnd;
  }

  lemma TokenSame(s: string, s': string, i: nat)
    requires i <= |s| && NoNul(s) && NoNul(s') && SameButBlanks(s, s')
    ensures GetToken(s', i) == GetToken(s, i) && TokOf(s', GetToken(s, i)) == TokOf(s, GetToken(s, i))
  {
    hide SkipSpace, GetToken, TokenAt;
    TokenIs(s, i);
    TokenIs(s', i);
    SkipSame(s, s', i);
    if SkipSpace(s, i) < |s| { TokenAtSame(s, s', SkipSpace(s, i)); }
  }

  lemma {:induction false} LexSame(s: string, s': string, i: nat)
    requires i <= |s| && NoNul(s) && NoNul(s') && SameButBlanks(s, s')
    ensures Lex(s', i) == Lex(s, i)
    decreases |s| - i
  {
    TokenSame(s, s', i);
    hide GetToken;
    var t := GetToken(s, i);
    if t.kind != NUL { LexSame(s, s', t.next); }
  }

  /** Any blank may stand for any other. */
  lemma BlanksAlike(s: string, s': string)
    requires NoNul(s) && NoNul(s') && |s| == |s'|
    requires forall k :: 0 <= k < |s| ==>
               s[k] == s'[k] || (s[k] in " \t\r\n\U{0B}" && s'[k] in " \t\r\n\U{0B}")
    ensures ParseCmd(s').Ok? <==> ParseCmd(s).Ok?
    ensures ParseCmd(s).Ok? ==> Text(s', ParseCmd(s').cmd) == Text(s, ParseCmd(s).cmd)
  {
    assert SameButBlanks(s, s');
    hide ParseCmd, Text, Lex;
    LexSame(s, s', 0);
    SameTokens(s, s');
  }
}
