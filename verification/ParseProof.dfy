/**
 * The printer writes what the grammar allows, and so parsing is its inverse, for
 * every expression, statement and program.
 */
module ParseProof {
  import opened Word32
  import opened IR
  import opened Ast
  import opened Parse
  import opened Grammar

  /** The tokens from pos on begin with `seg`, and something comes behind it. */
  ghost predicate Starts(toks: seq<Token>, pos: nat, seg: seq<Token>) {
    Ends(toks) && pos + |seg| < |toks| && toks[pos..pos + |seg|] == seg
  }

  lemma StartsSplit(toks: seq<Token>, pos: nat, xs: seq<Token>, ys: seq<Token>)
    requires Starts(toks, pos, xs + ys)
    ensures Starts(toks, pos, xs) && Starts(toks, pos + |xs|, ys)
  {
    var all := toks[pos..pos + |xs + ys|];
    assert all[..|xs|] == xs && all[|xs|..] == ys;
    assert toks[pos..pos + |xs|] == all[..|xs|];
    assert toks[pos + |xs|..pos + |xs| + |ys|] == all[|xs|..];
  }

  lemma StartsAt(toks: seq<Token>, pos: nat, seg: seq<Token>, k: nat)
    requires Starts(toks, pos, seg) && k < |seg|
    ensures toks[pos + k] == seg[k]
  {
    assert toks[pos..pos + |seg|][k] == seg[k];
  }

  lemma StartsOne(toks: seq<Token>, pos: nat, t: Token)
    requires Starts(toks, pos, [t])
    ensures toks[pos] == t
  {
    StartsAt(toks, pos, [t], 0);
  }

  lemma StartsThree(toks: seq<Token>, pos: nat, xs: seq<Token>, ys: seq<Token>, zs: seq<Token>)
    requires Starts(toks, pos, xs + ys + zs)
    ensures Starts(toks, pos, xs) && Starts(toks, pos + |xs|, ys) && Starts(toks, pos + |xs| + |ys|, zs)
  {
    StartsSplit(toks, pos, xs + ys, zs);
    StartsSplit(toks, pos, xs, ys);
  }

  /** A segment between two tokens. */
  lemma StartsBetween(toks: seq<Token>, pos: nat, a: Token, xs: seq<Token>, b: Token)
    requires Starts(toks, pos, [a] + xs + [b])
    ensures pos + 1 + |xs| < |toks| && toks[pos] == a && toks[pos + 1 + |xs|] == b && Starts(toks, pos + 1, xs)
  {
    StartsThree(toks, pos, [a], xs, [b]);
    StartsOne(toks, pos, a);
    StartsOne(toks, pos + 1 + |xs|, b);
  }

  lemma Size(toks: seq<Token>, pos: nat, seg: seq<Token>)
    requires Starts(toks, pos, seg)
    ensures pos + |seg| < |toks| && Ends(toks)
  {
  }

  // ---- expressions ------------------------------------------------------------------------------

  /** The print of an expression, in parentheses where the level asks for them. */
  lemma {:induction false} PrintIs(e: Expr, level: nat, toks: seq<Token>, pos: nat)
    requires level <= 6 && Starts(toks, pos, Print(e, level))
    ensures IsExpr(toks, pos, pos + |Print(e, level)|, level, e)
    decreases e, 2
  {
    hide Starts, PrintBare, IsExpr;
    if Prec(e) < level {
      StartsBetween(toks, pos, LParen, PrintBare(e), RParen);
      BareIs(e, toks, pos + 1);
      Lowered(toks, pos + 1, pos + 1 + |PrintBare(e)|, Prec(e), 0, e);
      Parenthesized(toks, pos, pos + 1 + |PrintBare(e)|, level, e);
    } else {
      BareIs(e, toks, pos);
      Lowered(toks, pos, pos + |PrintBare(e)|, Prec(e), level, e);
    }
  }

  /** The token between the operands. */
  function OpToken(e: Expr): Token
    requires e.Logical? || e.Binary?
  {
    if e.Logical? then (if e.isOr then OrOr else AndAnd) else BinToken(e.op)
  }

  lemma OpTokenIs(e: Expr)
    requires e.Logical? || e.Binary?
    ensures Joins(Prec(e), OpToken(e), e) && Prec(e) <= 5
    ensures PrintBare(e) == Print(e.lhs, Prec(e)) + [OpToken(e)] + Print(e.rhs, Prec(e) + 1)
  {
    hide Print;
  }

  lemma {:induction false} BareIs(e: Expr, toks: seq<Token>, pos: nat)
    requires Starts(toks, pos, PrintBare(e))
    ensures IsExpr(toks, pos, pos + |PrintBare(e)|, Prec(e), e)
    decreases e, 1
  {
    if e.Logical? || e.Binary? {
      JoinedIs(e, toks, pos);
    } else if e.CallExpr? {
      CallIs(e, toks, pos);
    } else if e.Unary? {
      UnaryIs(e, toks, pos);
    } else {
      AtomIs(e, toks, pos);
    }
  }

  lemma AtomIs(e: Expr, toks: seq<Token>, pos: nat)
    requires (e.Number? || e.Var?) && Starts(toks, pos, PrintBare(e))
    ensures IsExpr(toks, pos, pos + |PrintBare(e)|, Prec(e), e)
  {
    hide Starts;
    Size(toks, pos, PrintBare(e));
    StartsOne(toks, pos, if e.Number? then TNum(U(e.value)) else TIdent(e.name));
  }

  lemma {:induction false} UnaryIs(e: Expr, toks: seq<Token>, pos: nat)
    requires e.Unary? && Starts(toks, pos, PrintBare(e))
    ensures IsExpr(toks, pos, pos + |PrintBare(e)|, 6, e)
    decreases e, 0
  {
    hide Starts, Print;
    Size(toks, pos, PrintBare(e));
    StartsSplit(toks, pos, [UnaryToken(e.uop)], Print(e.operand, 6));
    StartsOne(toks, pos, UnaryToken(e.uop));
    PrintIs(e.operand, 6, toks, pos + 1);
  }

  lemma {:induction false} JoinedIs(e: Expr, toks: seq<Token>, pos: nat)
    requires (e.Logical? || e.Binary?) && Starts(toks, pos, PrintBare(e))
    ensures IsExpr(toks, pos, pos + |PrintBare(e)|, Prec(e), e)
    decreases e, 0
  {
    hide Starts, Print, PrintBare, Joins, OpToken, IsExpr, Prec;
    OpTokenIs(e);
    Size(toks, pos, PrintBare(e));
    var p, k := Prec(e), pos + |Print(e.lhs, Prec(e))|;
    StartsThree(toks, pos, Print(e.lhs, p), [OpToken(e)], Print(e.rhs, p + 1));
    StartsOne(toks, k, OpToken(e));
    PrintIs(e.lhs, p, toks, pos);
    PrintIs(e.rhs, p + 1, toks, k + 1);
    Joined(toks, pos, k, pos + |PrintBare(e)|, p, e);
  }

  lemma {:induction false} CallIs(e: Expr, toks: seq<Token>, pos: nat)
    requires e.CallExpr? && Starts(toks, pos, PrintBare(e))
    ensures IsExpr(toks, pos, pos + |PrintBare(e)|, 7, e)
    decreases e, 0
  {
    hide Starts, PrintArgs, IsArgs;
    Size(toks, pos, PrintBare(e));
    var head, args := [TIdent(e.callee), LParen], PrintArgs(e.args);
    StartsThree(toks, pos, head, args, [RParen]);
    StartsAt(toks, pos, head, 0);
    StartsAt(toks, pos, head, 1);
    StartsOne(toks, pos + 2 + |args|, RParen);
    ArgsAre(e.args, toks, pos + 2);
  }

  lemma {:induction false} ArgsAre(es: List<Expr>, toks: seq<Token>, pos: nat)
    requires Starts(toks, pos, PrintArgs(es))
    ensures IsArgs(toks, pos, pos + |PrintArgs(es)|, es)
    decreases es
  {
    hide Starts, Print, PrintArgs, PrintTail, IsExpr, IsArgs;
    Size(toks, pos, PrintArgs(es));
    if es.Nil? {
      NoArgs(toks, pos);
    } else {
      var k := pos + |Print(es.head, 0)|;
      ArgsPrint(es);
      StartsSplit(toks, pos, Print(es.head, 0), PrintTail(es.tail));
      PrintIs(es.head, 0, toks, pos);
      if es.tail.Cons? {
        TailIs(es.tail, toks, k);
        ArgsAre(es.tail, toks, k + 1);
      }
      ArgsMade(es, toks, pos, k);
    }
  }

  /** The arguments behind the first one */
  function PrintTail(es: List<Expr>): seq<Token> {
    if es.Nil? then [] else [Comma] + PrintArgs(es)
  }

  lemma NoArgs(toks: seq<Token>, pos: nat)
    requires pos <= |toks|
    ensures PrintArgs(Nil) == [] && IsArgs(toks, pos, pos, Nil)
  {
  }

  lemma ArgsPrint(es: List<Expr>)
    requires es.Cons?
    ensures PrintArgs(es) == Print(es.head, 0) + PrintTail(es.tail)
  {
    hide Print;
  }

  lemma TailIs(es: List<Expr>, toks: seq<Token>, k: nat)
    requires es.Cons? && Starts(toks, k, PrintTail(es))
    ensures k < |toks| && toks[k] == Comma && Starts(toks, k + 1, PrintArgs(es))
  {
    hide Starts, PrintArgs;
    Size(toks, k, PrintTail(es));
    StartsSplit(toks, k, [Comma], PrintArgs(es));
    StartsOne(toks, k, Comma);
  }

  lemma ArgsMade(es: List<Expr>, toks: seq<Token>, pos: nat, k: nat)
    requires es.Cons? && IsExpr(toks, pos, k, 0, es.head) && pos <= k
    requires es.tail.Nil? ==> k <= |toks|
    requires es.tail.Cons? ==> k < |toks| && toks[k] == Comma && IsArgs(toks, k + 1, k + 1 + |PrintArgs(es.tail)|, es.tail)
    ensures IsArgs(toks, pos, k + |PrintTail(es.tail)|, es)
  {
    hide Print, IsExpr;
  }

  /**
   * Parsing the print of an expression gives it back and stops just behind it,
   * whatever comes behind, as long as it cannot continue the expression.
   */
  lemma ExprRoundTrip(e: Expr, level: nat, toks: seq<Token>, pos: nat)
    requires level <= 6 && Starts(toks, pos, Print(e, level)) && !Continues(toks[pos + |Print(e, level)|], level)
    ensures ParseLevel(toks, pos, level) == Got(e, pos + |Print(e, level)|)
  {
    hide Starts, Print, IsExpr;
    Size(toks, pos, Print(e, level));
    PrintIs(e, level, toks, pos);
    ExprParsed(toks, pos, pos + |Print(e, level)|, level, e);
  }

  // ---- statements -------------------------------------------------------------------------------

  lemma ValueIs(e: Expr, toks: seq<Token>, pos: nat)
    requires Starts(toks, pos, Print(e, 0) + [Semi])
    ensures IsValue(toks, pos, pos + |Print(e, 0)| + 1, e)
  {
    hide Starts, Print, IsExpr;
    Size(toks, pos, Print(e, 0) + [Semi]);
    StartsSplit(toks, pos, Print(e, 0), [Semi]);
    StartsOne(toks, pos + |Print(e, 0)|, Semi);
    PrintIs(e, 0, toks, pos);
  }

  lemma DeclPrint(name: string, e: Expr)
    ensures PrintDecl(name, e) == [KwInt, TIdent(name), AssignTok] + (Print(e, 0) + [Semi])
  {
    hide Print;
  }

  lemma VarIs(name: string, e: Expr, toks: seq<Token>, pos: nat)
    requires Starts(toks, pos, PrintDecl(name, e))
    ensures IsDecl(toks, pos, pos + |PrintDecl(name, e)|, false, name, e)
  {
    hide Starts, Print, PrintDecl, IsValue;
    var head := [KwInt, TIdent(name), AssignTok];
    DeclPrint(name, e);
    StartsSplit(toks, pos, head, Print(e, 0) + [Semi]);
    StartsAt(toks, pos, head, 0);
    StartsAt(toks, pos, head, 1);
    StartsAt(toks, pos, head, 2);
    ValueIs(e, toks, pos + 3);
  }

  lemma DeclIs(isConst: bool, name: string, e: Expr, toks: seq<Token>, pos: nat)
    requires Starts(toks, pos, (if isConst then [KwConst] else []) + PrintDecl(name, e))
    ensures IsDecl(toks, pos, pos + (if isConst then 1 else 0) + |PrintDecl(name, e)|, isConst, name, e)
  {
    hide Starts, PrintDecl;
    StartsSplit(toks, pos, if isConst then [KwConst] else [], PrintDecl(name, e));
    if isConst { StartsOne(toks, pos, KwConst); }
    VarIs(name, e, toks, if isConst then pos + 1 else pos);
  }

  lemma HeadIs(word: Token, c: Expr, rest: seq<Token>, toks: seq<Token>, pos: nat)
    requires Starts(toks, pos, [word, LParen] + Print(c, 0) + [RParen] + rest)
    ensures var k := pos + 3 + |Print(c, 0)|; IsHead(toks, pos, k, word, c) && Starts(toks, k, rest)
  {
    hide Starts, Print, IsExpr;
    Size(toks, pos, [word, LParen] + Print(c, 0) + [RParen] + rest);
    var head := [word, LParen];
    StartsSplit(toks, pos, head + Print(c, 0) + [RParen], rest);
    StartsThree(toks, pos, head, Print(c, 0), [RParen]);
    StartsAt(toks, pos, head, 0);
    StartsAt(toks, pos, head, 1);
    StartsOne(toks, pos + 2 + |Print(c, 0)|, RParen);
    PrintIs(c, 0, toks, pos + 2);
  }

  lemma {:induction false} StmtIs(s: Stmt, toks: seq<Token>, pos: nat)
    requires NoDangling(s) && Starts(toks, pos, PrintStmt(s))
    ensures IsStmt(toks, pos, pos + |PrintStmt(s)|, s)
    decreases s, 1
  {
    if s.Compound? {
      CompoundIs(s.stmts, toks, pos);
    } else if s.If? {
      IfIs(s, toks, pos);
    } else if s.While? {
      WhileIs(s, toks, pos);
    } else {
      FlatIs(s, toks, pos);
    }
  }

  lemma {:induction false} CompoundIs(ss: List<Stmt>, toks: seq<Token>, pos: nat)
    requires NoDanglingIn(ss) && Starts(toks, pos, PrintStmt(Compound(ss)))
    ensures IsStmt(toks, pos, pos + |PrintStmt(Compound(ss))|, Compound(ss))
    decreases ss, 1
  {
    hide Starts, PrintStmts, IsStmts;
    StartsBetween(toks, pos, LBrace, PrintStmts(ss), RBrace);
    StmtsAre(ss, toks, pos + 1);
  }

  lemma NoDanglingParts(s: Stmt)
    requires NoDangling(s)
    ensures s.While? ==> NoDangling(s.body)
    ensures s.If? ==> NoDangling(s.then_) && (s.else_.Some? ==> NoDangling(s.else_.value))
  {
  }

  lemma {:induction false} WhileIs(s: Stmt, toks: seq<Token>, pos: nat)
    requires s.While? && NoDangling(s) && Starts(toks, pos, PrintStmt(s))
    ensures IsStmt(toks, pos, pos + |PrintStmt(s)|, s)
    decreases s, 0
  {
    hide Starts, Print, PrintStmt, IsHead, NoDangling;
    WhilePrint(s);
    NoDanglingParts(s);
    HeadIs(KwWhile, s.cond, PrintStmt(s.body), toks, pos);
    StmtIs(s.body, toks, pos + 3 + |Print(s.cond, 0)|);
    assert IsWhile(toks, pos, pos + 3 + |Print(s.cond, 0)|, pos + |PrintStmt(s)|, s);
  }

  /** `else` and what stands behind it */
  function PrintElse(e: Option<Stmt>): seq<Token> {
    if e.Some? then [KwElse] + PrintStmt(e.value) else []
  }

  /** The condition, the `then` part up to l, and what stands behind it. */
  lemma IfSplit(s: Stmt, toks: seq<Token>, pos: nat) returns (k: nat, l: nat)
    requires s.If? && Starts(toks, pos, PrintStmt(s))
    ensures IsHead(toks, pos, k, KwIf, s.cond) && Starts(toks, k, PrintStmt(s.then_))
    ensures l == k + |PrintStmt(s.then_)| && l + |PrintElse(s.else_)| == pos + |PrintStmt(s)| && Starts(toks, l, PrintElse(s.else_))
  {
    hide Starts, Print, PrintStmt, PrintElse, IsHead;
    IfPrint(s);
    k, l := pos + 3 + |Print(s.cond, 0)|, pos + 3 + |Print(s.cond, 0)| + |PrintStmt(s.then_)|;
    HeadIs(KwIf, s.cond, PrintStmt(s.then_) + PrintElse(s.else_), toks, pos);
    StartsSplit(toks, k, PrintStmt(s.then_), PrintElse(s.else_));
  }

  lemma {:induction false} IfIs(s: Stmt, toks: seq<Token>, pos: nat)
    requires s.If? && NoDangling(s) && Starts(toks, pos, PrintStmt(s))
    ensures IsStmt(toks, pos, pos + |PrintStmt(s)|, s)
    decreases s, 0
  {
    hide Starts, PrintStmt, PrintElse, IsHead, IsStmt, NoDangling, OpenIf;
    NoDanglingParts(s);
    var k, l := IfSplit(s, toks, pos);
    StmtIs(s.then_, toks, k);
    if s.else_.Some? {
      ElseIs(s.else_.value, toks, l);
      StmtIs(s.else_.value, toks, l + 1);
    }
    IfMade(toks, pos, k, l, s);
  }

  lemma IfMade(toks: seq<Token>, i: nat, k: nat, l: nat, s: Stmt)
    requires s.If? && NoDangling(s) && IsHead(toks, i, k, KwIf, s.cond) && IsStmt(toks, k, l, s.then_)
    requires s.else_.Some? ==> l < |toks| && toks[l] == KwElse && IsStmt(toks, l + 1, l + 1 + |PrintStmt(s.else_.value)|, s.else_.value)
    ensures IsStmt(toks, i, l + |PrintElse(s.else_)|, s)
  {
    hide IsExpr, PrintStmt;
    StmtRange(toks, k, l, s.then_);
    if s.else_.Some? {
      var j := l + 1 + |PrintStmt(s.else_.value)|;
      StmtRange(toks, l + 1, j, s.else_.value);
      assert IsIfElse(toks, i, k, l, j, s);
    } else {
      assert IsIf(toks, i, k, l, s);
    }
  }

  lemma StmtRange(toks: seq<Token>, i: nat, j: nat, s: Stmt)
    requires IsStmt(toks, i, j, s)
    ensures i <= j <= |toks|
  {
  }

  lemma ElseIs(e: Stmt, toks: seq<Token>, l: nat)
    requires Starts(toks, l, PrintElse(Some(e)))
    ensures l < |toks| && toks[l] == KwElse && Starts(toks, l + 1, PrintStmt(e)) && |PrintElse(Some(e))| == 1 + |PrintStmt(e)|
  {
    hide PrintStmt;
    StartsSplit(toks, l, [KwElse], PrintStmt(e));
    StartsOne(toks, l, KwElse);
  }

  lemma IfPrint(s: Stmt)
    requires s.If?
    ensures PrintStmt(s) == [KwIf, LParen] + Print(s.cond, 0) + [RParen]
                            + (PrintStmt(s.then_) + PrintElse(s.else_))
  {
    hide Print;
  }

  lemma WhilePrint(s: Stmt)
    requires s.While?
    ensures PrintStmt(s) == [KwWhile, LParen] + Print(s.cond, 0) + [RParen] + PrintStmt(s.body)
  {
    hide Print;
  }

  /** Statements without parts. */
  lemma FlatIs(s: Stmt, toks: seq<Token>, pos: nat)
    requires !s.Compound? && !s.If? && !s.While? && Starts(toks, pos, PrintStmt(s))
    ensures IsStmt(toks, pos, pos + |PrintStmt(s)|, s)
  {
    hide Starts, Print, PrintDecl, IsValue, IsDecl;
    Size(toks, pos, PrintStmt(s));
    if s.VarDecl? {
      DeclIs(s.isConst, s.name, s.init, toks, pos);
    } else if s.ExprStmt? {
      ValueIs(s.expr, toks, pos);
    } else if s.Assign? {
      AssignIs(s.name, s.value, toks, pos);
    } else if s.Return? && s.result.Some? {
      ReturnIs(s.result.value, toks, pos);
    } else {
      WordIs(s, toks, pos);
    }
  }

  lemma AssignIs(name: string, e: Expr, toks: seq<Token>, pos: nat)
    requires Starts(toks, pos, PrintStmt(Assign(name, e)))
    ensures IsStmt(toks, pos, pos + |PrintStmt(Assign(name, e))|, Assign(name, e))
  {
    hide Starts, Print, IsValue;
    var head := [TIdent(name), AssignTok];
    assert PrintStmt(Assign(name, e)) == head + (Print(e, 0) + [Semi]);
    StartsSplit(toks, pos, head, Print(e, 0) + [Semi]);
    StartsAt(toks, pos, head, 0);
    StartsAt(toks, pos, head, 1);
    ValueIs(e, toks, pos + 2);
  }

  lemma ReturnIs(e: Expr, toks: seq<Token>, pos: nat)
    requires Starts(toks, pos, PrintStmt(Return(Some(e))))
    ensures IsStmt(toks, pos, pos + |PrintStmt(Return(Some(e)))|, Return(Some(e)))
  {
    hide Starts, Print, IsValue;
    assert PrintStmt(Return(Some(e))) == [KwReturn] + (Print(e, 0) + [Semi]);
    StartsSplit(toks, pos, [KwReturn], Print(e, 0) + [Semi]);
    StartsOne(toks, pos, KwReturn);
    ValueIs(e, toks, pos + 1);
  }

  lemma WordIs(s: Stmt, toks: seq<Token>, pos: nat)
    requires s == Empty || s == Break || s == Continue || s == Return(None)
    requires Starts(toks, pos, PrintStmt(s))
    ensures IsStmt(toks, pos, pos + |PrintStmt(s)|, s)
  {
    hide Starts;
    Size(toks, pos, PrintStmt(s));
    StartsAt(toks, pos, PrintStmt(s), 0);
    if s != Empty { StartsAt(toks, pos, PrintStmt(s), 1); }
  }

  lemma {:induction false} StmtsAre(ss: List<Stmt>, toks: seq<Token>, pos: nat)
    requires NoDanglingIn(ss) && Starts(toks, pos, PrintStmts(ss))
    ensures IsStmts(toks, pos, pos + |PrintStmts(ss)|, ss)
    decreases ss, 0
  {
    hide Starts, PrintStmt, IsStmt, NoDangling;
    Size(toks, pos, PrintStmts(ss));
    if ss.Cons? {
      StartsSplit(toks, pos, PrintStmt(ss.head), PrintStmts(ss.tail));
      StmtIs(ss.head, toks, pos);
      StmtsAre(ss.tail, toks, pos + |PrintStmt(ss.head)|);
      StmtRange(toks, pos, pos + |PrintStmt(ss.head)|, ss.head);
    }
  }

  /** Parsing the print of a statement gives it back, if every `else` belongs to the nearest `if`. */
  lemma StmtRoundTrip(s: Stmt, toks: seq<Token>, pos: nat)
    requires NoDangling(s) && Starts(toks, pos, PrintStmt(s))
    requires OpenIf(s) ==> !toks[pos + |PrintStmt(s)|].KwElse?
    ensures ParseStmt(toks, pos) == Got(s, pos + |PrintStmt(s)|)
  {
    hide Starts, PrintStmt, IsStmt, NoDangling;
    Size(toks, pos, PrintStmt(s));
    StmtIs(s, toks, pos);
    StmtComplete(toks, pos, pos + |PrintStmt(s)|, s);
  }

  // ---- programs -----------------------------------------------------------------------------------

  lemma {:induction false} ParamsAre(ps: seq<string>, toks: seq<Token>, pos: nat)
    requires Starts(toks, pos, PrintParams(ps))
    ensures IsParams(toks, pos, pos + |PrintParams(ps)|, ps)
    decreases |ps|
  {
    hide Starts, PrintParams, IsParams;
    Size(toks, pos, PrintParams(ps));
    if ps == [] {
      NoParams(toks, pos);
    } else {
      var head, tail := [KwInt, TIdent(ps[0])], if |ps| == 1 then [] else [Comma] + PrintParams(ps[1..]);
      ParamsPrint(ps);
      StartsSplit(toks, pos, head, tail);
      StartsAt(toks, pos, head, 0);
      StartsAt(toks, pos, head, 1);
      if |ps| > 1 {
        StartsSplit(toks, pos + 2, [Comma], PrintParams(ps[1..]));
        StartsOne(toks, pos + 2, Comma);
        ParamsAre(ps[1..], toks, pos + 3);
      }
      ParamsMade(ps, toks, pos, pos + |PrintParams(ps)|);
    }
  }

  lemma NoParams(toks: seq<Token>, pos: nat)
    requires pos <= |toks|
    ensures PrintParams([]) == [] && IsParams(toks, pos, pos, [])
  {
  }

  lemma ParamsPrint(ps: seq<string>)
    requires ps != []
    ensures PrintParams(ps) == [KwInt, TIdent(ps[0])] + if |ps| == 1 then [] else [Comma] + PrintParams(ps[1..])
  {
  }

  lemma ParamsMade(ps: seq<string>, toks: seq<Token>, i: nat, j: nat)
    requires ps != [] && i + 2 <= j <= |toks| && toks[i] == KwInt && toks[i + 1] == TIdent(ps[0])
    requires if |ps| == 1 then j == i + 2 else i + 3 <= j && toks[i + 2] == Comma && IsParams(toks, i + 3, j, ps[1..])
    ensures IsParams(toks, i, j, ps)
  {
  }

  ghost predicate ItemNoDangling(item: Item) {
    item.FuncItem? ==> NoDanglingIn(item.def.body)
  }

  /** `type name (` */
  function FuncHead(f: FuncDef): seq<Token> {
    [if f.returnsVoid then KwVoid else KwInt, TIdent(f.name), LParen]
  }

  lemma FuncHeadSize(f: FuncDef)
    ensures |FuncHead(f)| == 3
  {
  }

  lemma FuncPrint(f: FuncDef)
    ensures PrintItem(FuncItem(f)) == FuncHead(f) + PrintParams(f.params) + [RParen] + ([LBrace] + PrintStmts(f.body) + [RBrace])
  {
    hide PrintParams, PrintStmts;
  }

  lemma SignatureIs(f: FuncDef, toks: seq<Token>, pos: nat)
    requires Starts(toks, pos, FuncHead(f) + PrintParams(f.params) + [RParen])
    ensures var k := pos + 4 + |PrintParams(f.params)|; IsSignature(toks, pos, k, f)
  {
    hide Starts, PrintParams, IsParams;
    Size(toks, pos, FuncHead(f) + PrintParams(f.params) + [RParen]);
    StartsThree(toks, pos, FuncHead(f), PrintParams(f.params), [RParen]);
    StartsAt(toks, pos, FuncHead(f), 0);
    StartsAt(toks, pos, FuncHead(f), 1);
    StartsAt(toks, pos, FuncHead(f), 2);
    StartsOne(toks, pos + 3 + |PrintParams(f.params)|, RParen);
    ParamsAre(f.params, toks, pos + 3);
  }

  lemma FuncIs(f: FuncDef, toks: seq<Token>, pos: nat)
    requires NoDanglingIn(f.body) && Starts(toks, pos, PrintItem(FuncItem(f)))
    ensures IsFunc(toks, pos, pos + |PrintItem(FuncItem(f))|, f)
  {
    hide Starts, PrintItem, PrintParams, PrintStmts, IsSignature, IsStmts, NoDanglingIn, FuncHead;
    FuncPrint(f);
    Size(toks, pos, PrintItem(FuncItem(f)));
    var k := pos + 4 + |PrintParams(f.params)|;
    assert |FuncHead(f)| == 3 by { FuncHeadSize(f); }
    StartsSplit(toks, pos, FuncHead(f) + PrintParams(f.params) + [RParen], [LBrace] + PrintStmts(f.body) + [RBrace]);
    SignatureIs(f, toks, pos);
    StartsBetween(toks, k, LBrace, PrintStmts(f.body), RBrace);
    StmtsAre(f.body, toks, k + 1);
    assert IsSignature(toks, pos, k, f) && IsBody(toks, k, pos + |PrintItem(FuncItem(f))|, f.body);
  }

  lemma ItemIs(item: Item, toks: seq<Token>, pos: nat)
    requires ItemNoDangling(item) && Starts(toks, pos, PrintItem(item))
    ensures IsItem(toks, pos, pos + |PrintItem(item)|, item)
  {
    hide Starts, IsFunc, IsDecl, PrintItem, NoDanglingIn;
    Size(toks, pos, PrintItem(item));
    if item.FuncItem? { FuncIs(item.def, toks, pos); } else { GlobalIs(item, toks, pos); }
  }

  lemma GlobalIs(item: Item, toks: seq<Token>, pos: nat)
    requires item.GlobalItem? && Starts(toks, pos, PrintItem(item))
    ensures IsDecl(toks, pos, pos + |PrintItem(item)|, item.isConst, item.name, item.init)
  {
    hide Starts, IsDecl, PrintDecl;
    DeclIs(item.isConst, item.name, item.init, toks, pos);
  }

  ghost predicate ItemsNoDangling(items: seq<Item>) {
    forall i | 0 <= i < |items| :: ItemNoDangling(items[i])
  }

  lemma ItemsTail(items: seq<Item>)
    requires items != [] && ItemsNoDangling(items)
    ensures ItemNoDangling(items[0]) && ItemsNoDangling(items[1..])
  {
  }

  lemma ModulePrint(items: seq<Item>)
    requires items != []
    ensures PrintModule(items) == PrintItem(items[0]) + PrintModule(items[1..])
  {
    hide PrintItem;
  }

  lemma ModuleMade(toks: seq<Token>, i: nat, k: nat, j: nat, items: seq<Item>)
    requires items != [] && i <= k <= j && IsItem(toks, i, k, items[0]) && IsModule(toks, k, j, items[1..])
    ensures IsModule(toks, i, j, items)
  {
    hide IsItem;
  }

  lemma NoItems(toks: seq<Token>, pos: nat)
    requires pos <= |toks|
    ensures PrintModule([]) == [] && IsModule(toks, pos, pos, [])
  {
  }

  lemma {:induction false} ModuleIs(items: seq<Item>, toks: seq<Token>, pos: nat)
    requires ItemsNoDangling(items) && Starts(toks, pos, PrintModule(items))
    ensures IsModule(toks, pos, pos + |PrintModule(items)|, items)
    decreases |items|
  {
    hide Starts, PrintItem, IsItem, PrintModule, IsModule, ItemNoDangling, ItemsNoDangling;
    Size(toks, pos, PrintModule(items));
    if items == [] {
      NoItems(toks, pos);
    } else {
      var k := pos + |PrintItem(items[0])|;
      ModulePrint(items);
      ItemsTail(items);
      StartsSplit(toks, pos, PrintItem(items[0]), PrintModule(items[1..]));
      ItemIs(items[0], toks, pos);
      ModuleIs(items[1..], toks, k);
      ModuleMade(toks, pos, k, pos + |PrintModule(items)|, items);
    }
  }

  /** Parsing the print of a program gives the program, and reads it to the end. */
  lemma ModuleRoundTrip(items: seq<Item>)
    requires ItemsNoDangling(items)
    ensures ParseModule(PrintModule(items) + [Eof], 0) == Got(items, |PrintModule(items)|)
  {
    hide PrintModule, IsModule;
    var toks := PrintModule(items) + [Eof];
    assert Starts(toks, 0, PrintModule(items));
    ModuleIs(items, toks, 0);
    ModuleParsed(toks, 0, |PrintModule(items)|, items);
  }

  // ---- parsed trees ----------------------------------------------------------------------------------

  /** In the grammar, every `else` belongs to the nearest `if`. */
  lemma {:induction false} IsNoDangling(toks: seq<Token>, i: nat, j: nat, s: Stmt)
    requires IsStmt(toks, i, j, s)
    ensures NoDangling(s)
    decreases s
  {
    hide IsExpr, IsHead;
    match s
    case Compound(ss) => IsNoDanglingIn(toks, i + 1, j - 1, ss);
    case If(_, t, None) =>
      var k: nat :| IsIf(toks, i, k, j, s);
      IsNoDangling(toks, k, j, t);
    case If(_, t, Some(e)) =>
      var k: nat, l: nat :| IsIfElse(toks, i, k, l, j, s);
      IsNoDangling(toks, k, l, t);
      IsNoDangling(toks, l + 1, j, e);
    case While(_, b) =>
      var k: nat :| IsWhile(toks, i, k, j, s);
      IsNoDangling(toks, k, j, b);
    case _ =>
  }

  lemma {:induction false} IsNoDanglingIn(toks: seq<Token>, i: nat, j: nat, ss: List<Stmt>)
    requires IsStmts(toks, i, j, ss)
    ensures NoDanglingIn(ss)
    decreases ss
  {
    hide IsStmt;
    if ss.Cons? {
      var k :| i <= k <= j && IsStmt(toks, i, k, ss.head) && IsStmts(toks, k, j, ss.tail);
      IsNoDangling(toks, i, k, ss.head);
      IsNoDanglingIn(toks, k, j, ss.tail);
    }
  }

  /** The parser gives every `else` to the nearest `if`. */
  lemma ParsedNoDangling(toks: seq<Token>, pos: nat)
    requires Ends(toks) && pos < |toks| && ParseStmt(toks, pos).Got?
    ensures var r := ParseStmt(toks, pos);
            NoDangling(r.value) && (OpenIf(r.value) ==> !toks[r.next].KwElse?)
  {
    hide ParseStmt, IsStmt;
    StmtSound(toks, pos);
    IsNoDangling(toks, pos, ParseStmt(toks, pos).next, ParseStmt(toks, pos).value);
  }

  lemma {:induction false} IsItemsNoDangling(toks: seq<Token>, i: nat, j: nat, items: seq<Item>)
    requires IsModule(toks, i, j, items)
    ensures ItemsNoDangling(items)
    decreases |items|
  {
    hide IsStmts, IsDecl, IsSignature;
    if items != [] {
      var k :| i <= k <= j && IsItem(toks, i, k, items[0]) && IsModule(toks, k, j, items[1..]);
      if items[0].FuncItem? {
        var l: nat :| IsSignature(toks, i, l, items[0].def) && IsBody(toks, l, k, items[0].def.body);
        IsNoDanglingIn(toks, l + 1, k - 1, items[0].def.body);
      }
      IsItemsNoDangling(toks, k, j, items[1..]);
    }
  }

  /** Every program the parser accepts comes back from its own print. */
  lemma ReparseSame(toks: seq<Token>)
    requires Ends(toks) && ParseModule(toks, 0).Got?
    ensures var items := ParseModule(toks, 0).value;
            ParseModule(PrintModule(items) + [Eof], 0) == Got(items, |PrintModule(items)|)
  {
    hide ParseModule, PrintModule, IsModule;
    var r := ParseModule(toks, 0);
    ModuleSound(toks, 0);
    IsItemsNoDangling(toks, 0, r.next, r.value);
    ModuleRoundTrip(r.value);
  }
}
