/**
 * The grammar of ToyC: which tokens make which tree.  Expressions have a level each,
 * 0 for `||` down to 5 for products, 6 for unary operators and 7 for the operands.
 */
module Grammar {
  import opened Word32
  import opened IR
  import opened Ast
  import opened Parse

  // ---- expressions ------------------------------------------------------------------------------

  /** The token is the operator of the expression, which belongs to the level. */
  predicate Joins(level: nat, t: Token, e: Expr) {
    match e
    case Logical(isOr, _, _) => if isOr then level == 0 && t == OrOr else level == 1 && t == AndAnd
    case Binary(op, _, _) => (
      match op
      case Eq => level == 2 && t == EqTok
      case Ne => level == 2 && t == NeTok
      case Lt => level == 3 && t == LtTok
      case Gt => level == 3 && t == GtTok
      case Le => level == 3 && t == LeTok
      case Ge => level == 3 && t == GeTok
      case Add => level == 4 && t == PlusTok
      case Sub => level == 4 && t == MinusTok
      case Mul => level == 5 && t == Star
      case Div => level == 5 && t == Slash
      case Mod => level == 5 && t == Percent)
    case _ => false
  }

  predicate Leads(t: Token, e: Expr) {
    e.Unary? &&
    match e.uop
    case Plus => t == PlusTok
    case Minus => t == MinusTok
    case LogNot => t == NotTok
  }

  /** The tokens from i up to j are an expression of the level, with this tree. */
  ghost predicate IsExpr(toks: seq<Token>, i: nat, j: nat, level: nat, e: Expr)
    decreases j - i, 8 - level
  {
    i <= j <= |toks| && level <= 7 &&
    if level < 6 then
      || IsExpr(toks, i, j, level + 1, e)
      || exists k: nat :: IsJoined(toks, i, k, j, level, e)
    else if level == 6 then
      IsExpr(toks, i, j, 7, e) || (i < j && Leads(toks[i], e) && IsExpr(toks, i + 1, j, 6, e.operand))
    else
      || (j == i + 1 && toks[i].TNum? && e == Number(Wrap(toks[i].value)))
      || (j == i + 1 && toks[i].TIdent? && e == Var(toks[i].text))
      || (j >= i + 2 && toks[i] == LParen && toks[j - 1] == RParen && IsExpr(toks, i + 1, j - 1, 0, e))
      || (j >= i + 3 && toks[i].TIdent? && toks[i + 1] == LParen && toks[j - 1] == RParen
          && e.CallExpr? && e.callee == toks[i].text && IsArgs(toks, i + 2, j - 1, e.args))
  }

  /** The operator of the expression is token k. */
  ghost predicate IsJoined(toks: seq<Token>, i: nat, k: nat, j: nat, level: nat, e: Expr)
    decreases j - i, 0
  {
    && i <= k < j <= |toks| && level <= 5 && (e.Logical? || e.Binary?) && Joins(level, toks[k], e)
    && IsExpr(toks, i, k, level, e.lhs) && IsExpr(toks, k + 1, j, level + 1, e.rhs)
  }

  /** No argument, or expressions between commas. */
  ghost predicate IsArgs(toks: seq<Token>, i: nat, j: nat, es: List<Expr>)
    decreases j - i, 10
  {
    i <= j <= |toks| &&
    if es.Nil? then i == j else IsSome(toks, i, j, es)
  }

  ghost predicate IsSome(toks: seq<Token>, i: nat, j: nat, es: List<Expr>)
    decreases j - i, 9
  {
    i <= j <= |toks| && es.Cons? &&
    if es.tail.Nil? then IsExpr(toks, i, j, 0, es.head)
    else exists k :: i <= k < j && toks[k] == Comma && IsExpr(toks, i, k, 0, es.head) && IsSome(toks, k + 1, j, es.tail)
  }

  // ---- statements -------------------------------------------------------------------------------

  /** `expr ;` */
  ghost predicate IsValue(toks: seq<Token>, i: nat, j: nat, e: Expr) {
    i < j <= |toks| && toks[j - 1] == Semi && IsExpr(toks, i, j - 1, 0, e)
  }

  /** `int name = expr ;`, behind `const` for a constant */
  ghost predicate IsDecl(toks: seq<Token>, i: nat, j: nat, isConst: bool, name: string, e: Expr)
    decreases j - i
  {
    i <= j <= |toks| &&
    if isConst then i < j && toks[i] == KwConst && IsDecl(toks, i + 1, j, false, name, e)
    else i + 3 <= j && toks[i] == KwInt && toks[i + 1] == TIdent(name) && toks[i + 2] == AssignTok && IsValue(toks, i + 3, j, e)
  }

  /** A keyword and `( expr )` up to k */
  ghost predicate IsHead(toks: seq<Token>, i: nat, k: nat, word: Token, c: Expr) {
    i + 3 <= k <= |toks| && toks[i] == word && toks[i + 1] == LParen && toks[k - 1] == RParen && IsExpr(toks, i + 2, k - 1, 0, c)
  }

  /** The tokens are this statement; an `else` belongs to the nearest `if`. */
  ghost predicate IsStmt(toks: seq<Token>, i: nat, j: nat, s: Stmt)
    decreases s, 1
  {
    i <= j <= |toks| &&
    match s
    case Compound(ss) => i + 2 <= j && toks[i] == LBrace && toks[j - 1] == RBrace && IsStmts(toks, i + 1, j - 1, ss)
    case Empty => j == i + 1 && toks[i] == Semi
    case ExprStmt(e) => IsValue(toks, i, j, e)
    case Assign(name, e) => i + 2 <= j && toks[i] == TIdent(name) && toks[i + 1] == AssignTok && IsValue(toks, i + 2, j, e)
    case VarDecl(isConst, name, e) => IsDecl(toks, i, j, isConst, name, e)
    case If(_, _, None) => exists k: nat :: IsIf(toks, i, k, j, s)
    case If(_, _, Some(_)) => exists k: nat, l: nat :: IsIfElse(toks, i, k, l, j, s)
    case While(_, _) => exists k: nat :: IsWhile(toks, i, k, j, s)
    case Break => j == i + 2 && toks[i] == KwBreak && toks[i + 1] == Semi
    case Continue => j == i + 2 && toks[i] == KwContinue && toks[i + 1] == Semi
    case Return(None) => j == i + 2 && toks[i] == KwReturn && toks[i + 1] == Semi
    case Return(Some(e)) => i < j && toks[i] == KwReturn && IsValue(toks, i + 1, j, e)
  }

  /** The condition ends at k. */
  ghost predicate IsIf(toks: seq<Token>, i: nat, k: nat, j: nat, s: Stmt)
    decreases s, 0
  {
    s.If? && i <= k <= j <= |toks| && IsHead(toks, i, k, KwIf, s.cond) && IsStmt(toks, k, j, s.then_)
  }

  /** The condition ends at k, and the `else` is token l. */
  ghost predicate IsIfElse(toks: seq<Token>, i: nat, k: nat, l: nat, j: nat, s: Stmt)
    decreases s, 0
  {
    && s.If? && s.else_.Some? && i <= k <= l < j <= |toks| && IsHead(toks, i, k, KwIf, s.cond) && IsStmt(toks, k, l, s.then_)
    && !OpenIf(s.then_) && toks[l] == KwElse && IsStmt(toks, l + 1, j, s.else_.value)
  }

  ghost predicate IsWhile(toks: seq<Token>, i: nat, k: nat, j: nat, s: Stmt)
    decreases s, 0
  {
    s.While? && i <= k <= j <= |toks| && IsHead(toks, i, k, KwWhile, s.cond) && IsStmt(toks, k, j, s.body)
  }

  ghost predicate IsStmts(toks: seq<Token>, i: nat, j: nat, ss: List<Stmt>)
    decreases ss
  {
    i <= j <= |toks| &&
    if ss.Nil? then i == j
    else exists k :: i <= k <= j && IsStmt(toks, i, k, ss.head) && IsStmts(toks, k, j, ss.tail)
  }

  // ---- programs ---------------------------------------------------------------------------------

  /** `int name` between commas, or nothing */
  ghost predicate IsParams(toks: seq<Token>, i: nat, j: nat, ps: seq<string>)
    decreases |ps|
  {
    i <= j <= |toks| &&
    if ps == [] then i == j
    else
      && i + 2 <= j && toks[i] == KwInt && toks[i + 1] == TIdent(ps[0])
      && if |ps| == 1 then j == i + 2 else i + 3 <= j && toks[i + 2] == Comma && IsParams(toks, i + 3, j, ps[1..])
  }

  ghost predicate IsFunc(toks: seq<Token>, i: nat, j: nat, f: FuncDef) {
    i <= j <= |toks| &&
    exists k: nat :: IsSignature(toks, i, k, f) && IsBody(toks, k, j, f.body)
  }

  /** `type name ( params )` up to k */
  ghost predicate IsSignature(toks: seq<Token>, i: nat, k: nat, f: FuncDef) {
    && i + 4 <= k <= |toks| && toks[i] == (if f.returnsVoid then KwVoid else KwInt) && toks[i + 1] == TIdent(f.name)
    && toks[i + 2] == LParen && toks[k - 1] == RParen && IsParams(toks, i + 3, k - 1, f.params)
  }

  ghost predicate IsBody(toks: seq<Token>, k: nat, j: nat, ss: List<Stmt>) {
    k + 2 <= j <= |toks| && toks[k] == LBrace && toks[j - 1] == RBrace && IsStmts(toks, k + 1, j - 1, ss)
  }

  ghost predicate IsItem(toks: seq<Token>, i: nat, j: nat, item: Item) {
    i <= j <= |toks| &&
    match item
    case GlobalItem(isConst, name, e) => IsDecl(toks, i, j, isConst, name, e)
    case FuncItem(f) => IsFunc(toks, i, j, f)
  }

  ghost predicate IsModule(toks: seq<Token>, i: nat, j: nat, items: seq<Item>)
    decreases |items|
  {
    i <= j <= |toks| &&
    if items == [] then i == j
    else exists k :: i <= k <= j && IsItem(toks, i, k, items[0]) && IsModule(toks, k, j, items[1..])
  }

  /** The tokens up to an end of the file are the program. */
  ghost predicate IsProgram(toks: seq<Token>, i: nat, items: seq<Item>) {
    exists n: nat :: n < |toks| && toks[n].Eof? && IsModule(toks, i, n, items)
  }

  // ---- levels -----------------------------------------------------------------------------------

  /** An expression of a level is one of every lower level. */
  lemma {:induction false} Lowered(toks: seq<Token>, i: nat, j: nat, from: nat, level: nat, e: Expr)
    requires level <= from && IsExpr(toks, i, j, from, e)
    ensures IsExpr(toks, i, j, level, e)
    decreases from - level
  {
    if level < from { Lowered(toks, i, j, from, level + 1, e); }
  }

  /** Parentheses around an expression make one of every level, with the same tree. */
  lemma Parenthesized(toks: seq<Token>, i: nat, j: nat, level: nat, e: Expr)
    requires i + 1 <= j < |toks| && level <= 7 && toks[i] == LParen && toks[j] == RParen && IsExpr(toks, i + 1, j, 0, e)
    ensures IsExpr(toks, i, j + 1, level, e)
  {
    assert IsExpr(toks, i, j + 1, 7, e);
    Lowered(toks, i, j + 1, 7, level, e);
  }

  // ---- what is parsed follows the grammar -------------------------------------------------------------

  /** The operator tables of parser and grammar agree. */
  lemma OpJoins(level: nat, t: Token, l: Expr, r: Expr)
    requires level <= 5
    ensures OpAt(level, t).Some? ==> Joins(level, t, Combine(OpAt(level, t).value, l, r))
  {
    match level
    case 2 =>
    case 3 =>
    case 4 =>
    case 5 =>
    case _ =>
  }

  lemma {:induction false} LevelSound(toks: seq<Token>, pos: nat, level: nat)
    requires Ends(toks) && pos < |toks| && level <= 6 && ParseLevel(toks, pos, level).Got?
    ensures var r := ParseLevel(toks, pos, level); IsExpr(toks, pos, r.next, level, r.value)
    decreases |toks| - pos, 20 - level
  {
    if level == 6 {
      UnarySound(toks, pos);
    } else {
      LevelSound(toks, pos, level + 1);
      var l := ParseLevel(toks, pos, level + 1);
      RestSound(toks, pos, l.next, level, l.value);
    }
  }

  lemma {:induction false} RestSound(toks: seq<Token>, start: nat, pos: nat, level: nat, lhs: Expr)
    requires Ends(toks) && start <= pos < |toks| && level <= 5 && ParseRest(toks, pos, level, lhs).Got?
    requires IsExpr(toks, start, pos, level, lhs)
    ensures var r := ParseRest(toks, pos, level, lhs); IsExpr(toks, start, r.next, level, r.value)
    decreases |toks| - pos, 0
  {
    var op := OpAt(level, toks[pos]);
    if op.Some? {
      LevelSound(toks, pos + 1, level + 1);
      var r := ParseLevel(toks, pos + 1, level + 1);
      OpJoins(level, toks[pos], lhs, r.value);
      Joined(toks, start, pos, r.next, level, Combine(op.value, lhs, r.value));
      RestSound(toks, start, r.next, level, Combine(op.value, lhs, r.value));
    }
  }

  lemma Joined(toks: seq<Token>, i: nat, k: nat, j: nat, level: nat, e: Expr)
    requires i <= k < j <= |toks| && level <= 5 && Joins(level, toks[k], e)
    requires IsExpr(toks, i, k, level, e.lhs) && IsExpr(toks, k + 1, j, level + 1, e.rhs)
    ensures IsExpr(toks, i, j, level, e)
  {
    assert IsJoined(toks, i, k, j, level, e);
  }

  lemma {:induction false} UnarySound(toks: seq<Token>, pos: nat)
    requires Ends(toks) && pos < |toks| && ParseUnary(toks, pos).Got?
    ensures var r := ParseUnary(toks, pos); IsExpr(toks, pos, r.next, 6, r.value)
    decreases |toks| - pos, 2
  {
    if UnaryAt(toks[pos]).None? {
      PrimarySound(toks, pos);
    } else {
      UnarySound(toks, pos + 1);
    }
  }

  lemma {:induction false} PrimarySound(toks: seq<Token>, pos: nat)
    requires Ends(toks) && pos < |toks| && ParsePrimary(toks, pos).Got?
    ensures var r := ParsePrimary(toks, pos); IsExpr(toks, pos, r.next, 7, r.value)
    decreases |toks| - pos, 1
  {
    hide ParseLevel, ParseArgs;
    match toks[pos]
    case TNum(_) =>
    case LParen => LevelSound(toks, pos + 1, 0);
    case TIdent(_) =>
      if toks[pos + 1].LParen? && !toks[pos + 2].RParen? {
        ArgsSound(toks, pos + 2);
      } else if toks[pos + 1].LParen? {
        assert IsArgs(toks, pos + 2, pos + 2, Nil);
      }
  }

  lemma {:induction false} ArgsSound(toks: seq<Token>, pos: nat)
    requires Ends(toks) && pos < |toks| && ParseArgs(toks, pos).Got?
    ensures var r := ParseArgs(toks, pos); IsSome(toks, pos, r.next, r.value)
    decreases |toks| - pos, 30
  {
    hide ParseLevel;
    LevelSound(toks, pos, 0);
    var e := ParseLevel(toks, pos, 0);
    if toks[e.next].Comma? { ArgsSound(toks, e.next + 1); }
  }

  lemma DeclSound(toks: seq<Token>, pos: nat)
    requires Ends(toks) && pos < |toks| && ParseDecl(toks, pos).Got?
    ensures var r := ParseDecl(toks, pos); IsDecl(toks, pos, r.next, false, r.value.0, r.value.1)
  {
    hide ParseLevel;
    LevelSound(toks, pos + 3, 0);
  }

  lemma ExprSemiSound(toks: seq<Token>, pos: nat)
    requires Ends(toks) && pos < |toks| && ParseExprSemi(toks, pos).Got?
    ensures var r := ParseExprSemi(toks, pos); IsValue(toks, pos, r.next, r.value)
  {
    hide ParseLevel;
    LevelSound(toks, pos, 0);
  }

  lemma CondSound(toks: seq<Token>, pos: nat, word: Token)
    requires Ends(toks) && pos + 1 < |toks| && toks[pos] == word && ParseCond(toks, pos + 1).Got?
    ensures var r := ParseCond(toks, pos + 1); IsHead(toks, pos, r.next, word, r.value)
  {
    hide ParseLevel;
    LevelSound(toks, pos + 2, 0);
  }

  lemma SimpleSound(toks: seq<Token>, pos: nat)
    requires Ends(toks) && pos < |toks| && ParseSimple(toks, pos).Got?
    ensures var r := ParseSimple(toks, pos); IsStmt(toks, pos, r.next, r.value) && !OpenIf(r.value)
  {
    hide ParseExprSemi;
    if toks[pos].TIdent? && toks[pos + 1].AssignTok? {
      ExprSemiSound(toks, pos + 2);
    } else {
      ExprSemiSound(toks, pos);
    }
  }

  /** A parsed statement follows the grammar, and no `else` stands behind an open `if`. */
  lemma {:induction false} StmtSound(toks: seq<Token>, pos: nat)
    requires Ends(toks) && pos < |toks| && ParseStmt(toks, pos).Got?
    ensures var r := ParseStmt(toks, pos); IsStmt(toks, pos, r.next, r.value) && (OpenIf(r.value) ==> !toks[r.next].KwElse?)
    decreases |toks| - pos, 1
  {
    hide ParseExprSemi, ParseDecl, ParseCond, ParseSimple, IsValue, IsHead, ParseBlock, ParseLevel;
    match toks[pos]
    case LBrace => BlockSound(toks, pos);
    case KwConst => DeclSound(toks, pos + 1);
    case KwInt => DeclSound(toks, pos);
    case KwIf =>
      CondSound(toks, pos, KwIf);
      var c := ParseCond(toks, pos + 1);
      StmtSound(toks, c.next);
      IfSound(toks, pos);
    case KwWhile =>
      CondSound(toks, pos, KwWhile);
      var c := ParseCond(toks, pos + 1);
      StmtSound(toks, c.next);
      var r := ParseStmt(toks, pos);
      assert IsWhile(toks, pos, c.next, r.next, r.value);
    case KwReturn =>
      if !toks[pos + 1].Semi? { ExprSemiSound(toks, pos + 1); }
    case Semi =>
    case KwBreak =>
    case KwContinue =>
    case _ => SimpleSound(toks, pos);
  }

  lemma {:induction false} IfSound(toks: seq<Token>, pos: nat)
    requires Ends(toks) && pos < |toks| && toks[pos].KwIf? && ParseStmt(toks, pos).Got?
    requires var c := ParseCond(toks, pos + 1); c.Got? && IsHead(toks, pos, c.next, KwIf, c.value)
    requires var t := ParseStmt(toks, ParseCond(toks, pos + 1).next);
             t.Got? && IsStmt(toks, ParseCond(toks, pos + 1).next, t.next, t.value) && (OpenIf(t.value) ==> !toks[t.next].KwElse?)
    ensures var r := ParseStmt(toks, pos); IsStmt(toks, pos, r.next, r.value) && (OpenIf(r.value) ==> !toks[r.next].KwElse?)
    decreases |toks| - pos, 0
  {
    hide ParseCond, IsHead;
    var c := ParseCond(toks, pos + 1);
    var t := ParseStmt(toks, c.next);
    var r := ParseStmt(toks, pos);
    if toks[t.next].KwElse? {
      StmtSound(toks, t.next + 1);
      var e := ParseStmt(toks, t.next + 1);
      assert r.value == If(c.value, t.value, Some(e.value)) && r.next == e.next;
      assert IsIfElse(toks, pos, c.next, t.next, r.next, r.value);
    } else {
      assert r.value == If(c.value, t.value, None) && r.next == t.next;
      assert IsIf(toks, pos, c.next, r.next, r.value);
    }
  }

  lemma {:induction false} BlockSound(toks: seq<Token>, pos: nat)
    requires Ends(toks) && pos < |toks| && ParseBlock(toks, pos).Got?
    ensures var r := ParseBlock(toks, pos); IsBody(toks, pos, r.next, r.value)
    decreases |toks| - pos, 0
  {
    hide ParseStmts;
    StmtsSound(toks, pos + 1);
  }

  lemma {:induction false} StmtsSound(toks: seq<Token>, pos: nat)
    requires Ends(toks) && pos < |toks| && ParseStmts(toks, pos).Got?
    ensures var r := ParseStmts(toks, pos); IsStmts(toks, pos, r.next, r.value)
    decreases |toks| - pos, 2
  {
    hide ParseStmt;
    if !toks[pos].RBrace? && !toks[pos].Eof? {
      StmtSound(toks, pos);
      StmtsSound(toks, ParseStmt(toks, pos).next);
    }
  }

  lemma {:induction false} ParamsSound(toks: seq<Token>, pos: nat)
    requires Ends(toks) && pos < |toks| && ParseParams(toks, pos).Got?
    ensures var r := ParseParams(toks, pos); r.value != [] && IsParams(toks, pos, r.next, r.value)
    decreases |toks| - pos
  {
    if toks[pos + 2].Comma? {
      ParamsSound(toks, pos + 3);
      var r := ParseParams(toks, pos);
      assert r.value[1..] == ParseParams(toks, pos + 3).value;
    }
  }

  lemma FuncSound(toks: seq<Token>, pos: nat, returnsVoid: bool)
    requires Ends(toks) && pos + 1 < |toks| && toks[pos] == (if returnsVoid then KwVoid else KwInt)
    requires ParseFuncDef(toks, pos + 1, returnsVoid).Got?
    ensures var r := ParseFuncDef(toks, pos + 1, returnsVoid); IsFunc(toks, pos, r.next, r.value)
  {
    hide ParseBlock, ParseParams, IsBody;
    var k := pos + 3;
    if !toks[pos + 3].RParen? {
      ParamsSound(toks, pos + 3);
      k := ParseParams(toks, pos + 3).next;
    }
    BlockSound(toks, k + 1);
    var r := ParseFuncDef(toks, pos + 1, returnsVoid);
    assert IsParams(toks, pos + 3, k, r.value.params);
    assert IsSignature(toks, pos, k + 1, r.value) && IsBody(toks, k + 1, r.next, r.value.body);
  }

  lemma ItemSound(toks: seq<Token>, pos: nat)
    requires Ends(toks) && pos < |toks| && ParseItem(toks, pos).Got?
    ensures var r := ParseItem(toks, pos); IsItem(toks, pos, r.next, r.value)
  {
    hide ParseDecl, ParseFuncDef, IsFunc;
    match toks[pos]
    case KwConst => DeclSound(toks, pos + 1);
    case KwVoid => FuncSound(toks, pos, true);
    case KwInt =>
      if toks[pos + 2].LParen? { FuncSound(toks, pos, false); } else { DeclSound(toks, pos); }
  }

  lemma {:induction false} ModuleSound(toks: seq<Token>, pos: nat)
    requires Ends(toks) && pos < |toks| && ParseModule(toks, pos).Got?
    ensures var r := ParseModule(toks, pos); IsModule(toks, pos, r.next, r.value)
    decreases |toks| - pos
  {
    hide ParseItem, IsItem;
    if !toks[pos].Eof? {
      ItemSound(toks, pos);
      var item := ParseItem(toks, pos);
      ModuleSound(toks, item.next);
      var r := ParseModule(toks, pos);
      assert r.value[0] == item.value && r.value[1..] == ParseModule(toks, item.next).value;
    }
  }

  // ---- what follows the grammar is parsed -------------------------------------------------------------

  /** The token can continue an expression of the level or a higher one. */
  predicate Continues(t: Token, level: nat) {
    || t == LParen || (level == 0 && t == OrOr) || (level <= 1 && t == AndAnd) || (level <= 2 && t in {EqTok, NeTok})
    || (level <= 3 && t in {LtTok, GtTok, LeTok, GeTok}) || (level <= 4 && t in {PlusTok, MinusTok})
    || (level <= 5 && t in {Star, Slash, Percent})
  }

  lemma NoOp(t: Token, level: nat)
    requires !Continues(t, level)
    ensures OpAt(level, t).None?
  {
  }

  /** An operator of a level continues no higher one. */
  lemma OpStops(level: nat, t: Token, e: Expr)
    requires Joins(level, t, e)
    ensures level <= 5 && !Continues(t, level + 1) && OpAt(level, t).Some? && Combine(OpAt(level, t).value, e.lhs, e.rhs) == e
  {
    match e
    case Logical(_, _, _) =>
    case Binary(op, _, _) =>
      match op
      case Eq =>
      case Ne =>
      case Lt =>
      case Gt =>
      case Le =>
      case Ge =>
      case Add =>
      case Sub =>
      case Mul =>
      case Div =>
      case Mod =>
  }

  lemma StopsAbove(t: Token, level: nat)
    requires !Continues(t, level)
    ensures !Continues(t, level + 1) && t != LParen
  {
  }

  lemma {:induction false} LevelComplete(toks: seq<Token>, i: nat, j: nat, level: nat, e: Expr)
    requires Ends(toks) && i <= j < |toks| && level <= 6 && IsExpr(toks, i, j, level, e) && !Continues(toks[j], level + 1)
    ensures i < j
    ensures ParseLevel(toks, i, level) == if level == 6 then Got(e, j) else ParseRest(toks, j, level, e)
    decreases j - i, 8 - level
  {
    hide Joins, OpAt, Continues, Combine, ParseUnary;
    StopsAbove(toks[j], level + 1);
    if level == 6 {
      UnaryComplete(toks, i, j, e);
    } else if IsExpr(toks, i, j, level + 1, e) {
      LevelComplete(toks, i, j, level + 1, e);
      if level < 5 { NoOp(toks[j], level + 1); }
    } else {
      var k: nat :| IsJoined(toks, i, k, j, level, e);
      OpStops(level, toks[k], e);
      LevelComplete(toks, i, k, level, e.lhs);
      LevelComplete(toks, k + 1, j, level + 1, e.rhs);
      if level < 5 { NoOp(toks[j], level + 1); }
      RestStep(toks, k, j, level, e);
    }
  }

  /** One turn of a layer's loop. */
  lemma RestStep(toks: seq<Token>, k: nat, j: nat, level: nat, e: Expr)
    requires Ends(toks) && k + 1 < j < |toks| && level <= 5 && (e.Logical? || e.Binary?) && Joins(level, toks[k], e)
    requires ParseLevel(toks, k + 1, level + 1) == Got(e.rhs, j)
    ensures ParseRest(toks, k, level, e.lhs) == ParseRest(toks, j, level, e)
  {
    OpStops(level, toks[k], e);
    hide ParseLevel, OpAt, Joins, Combine, Continues;
  }

  lemma {:induction false} UnaryComplete(toks: seq<Token>, i: nat, j: nat, e: Expr)
    requires Ends(toks) && i <= j < |toks| && IsExpr(toks, i, j, 6, e) && toks[j] != LParen
    ensures i < j && ParseUnary(toks, i) == Got(e, j)
    decreases j - i, 1
  {
    if IsExpr(toks, i, j, 7, e) {
      PrimaryComplete(toks, i, j, e);
    } else {
      UnaryComplete(toks, i + 1, j, e.operand);
    }
  }

  lemma {:induction false} PrimaryComplete(toks: seq<Token>, i: nat, j: nat, e: Expr)
    requires Ends(toks) && i <= j < |toks| && IsExpr(toks, i, j, 7, e) && toks[j] != LParen
    ensures i < j && UnaryAt(toks[i]).None? && ParsePrimary(toks, i) == Got(e, j)
    decreases j - i, 0
  {
    hide ParseLevel, ParseArgs;
    if toks[i] == LParen {
      LevelComplete(toks, i + 1, j - 1, 0, e);
      RestStops(toks, j - 1, e);
    } else if toks[i].TIdent? && j > i + 1 {
      if e.args.Cons? {
        SomeComplete(toks, i + 2, j - 1, e.args);
        FirstOfSome(toks, i + 2, j - 1, e.args);
      }
    }
  }

  lemma RestStops(toks: seq<Token>, pos: nat, e: Expr)
    requires Ends(toks) && pos < |toks| && OpAt(0, toks[pos]).None?
    ensures ParseRest(toks, pos, 0, e) == Got(e, pos)
  {
    hide ParseLevel;
  }

  lemma CommasStop()
    ensures forall t | t == Comma || t == RParen || t == Semi :: !Continues(t, 0) && !Continues(t, 1) && OpAt(0, t).None?
  {
  }

  lemma {:induction false} SomeComplete(toks: seq<Token>, i: nat, j: nat, es: List<Expr>)
    requires Ends(toks) && i <= j < |toks| && IsSome(toks, i, j, es) && toks[j] == RParen
    ensures i < j && ParseArgs(toks, i) == Got(es, j)
    decreases j - i, 20
  {
    CommasStop();
    hide ParseLevel, Continues, OpAt;
    if es.tail.Nil? {
      LevelComplete(toks, i, j, 0, es.head);
      RestStops(toks, j, es.head);
    } else {
      var k :| i <= k < j && toks[k] == Comma && IsExpr(toks, i, k, 0, es.head) && IsSome(toks, k + 1, j, es.tail);
      LevelComplete(toks, i, k, 0, es.head);
      RestStops(toks, k, es.head);
      SomeComplete(toks, k + 1, j, es.tail);
    }
  }

  /** The tokens that expressions begin with. */
  predicate BeginsExpr(t: Token) {
    t.TNum? || t.TIdent? || t.LParen? || t.PlusTok? || t.MinusTok? || t.NotTok?
  }

  lemma {:induction false} FirstOfExpr(toks: seq<Token>, i: nat, j: nat, level: nat, e: Expr)
    requires IsExpr(toks, i, j, level, e)
    ensures i < j && BeginsExpr(toks[i])
    decreases j - i, 8 - level
  {
    if level < 6 {
      if IsExpr(toks, i, j, level + 1, e) {
        FirstOfExpr(toks, i, j, level + 1, e);
      } else {
        var k: nat :| IsJoined(toks, i, k, j, level, e);
        FirstOfExpr(toks, i, k, level, e.lhs);
      }
    } else if level == 6 && IsExpr(toks, i, j, 7, e) {
      FirstOfExpr(toks, i, j, 7, e);
    }
  }

  lemma FirstOfSome(toks: seq<Token>, i: nat, j: nat, es: List<Expr>)
    requires IsSome(toks, i, j, es)
    ensures i < j && BeginsExpr(toks[i])
  {
    if es.tail.Nil? {
      FirstOfExpr(toks, i, j, 0, es.head);
    } else {
      var k :| i <= k < j && toks[k] == Comma && IsExpr(toks, i, k, 0, es.head) && IsSome(toks, k + 1, j, es.tail);
      FirstOfExpr(toks, i, k, 0, es.head);
    }
  }

  /** No expression contains the token of an assignment. */
  lemma {:induction false} NoAssign(toks: seq<Token>, i: nat, j: nat, level: nat, e: Expr, x: nat)
    requires i <= x < j && IsExpr(toks, i, j, level, e)
    ensures toks[x] != AssignTok
    decreases j - i, 8 - level
  {
    if level < 6 {
      if IsExpr(toks, i, j, level + 1, e) {
        NoAssign(toks, i, j, level + 1, e, x);
      } else {
        var k: nat :| IsJoined(toks, i, k, j, level, e);
        if x < k { NoAssign(toks, i, k, level, e.lhs, x); }
        if x > k { NoAssign(toks, k + 1, j, level + 1, e.rhs, x); }
      }
    } else if level == 6 {
      if IsExpr(toks, i, j, 7, e) {
        NoAssign(toks, i, j, 7, e, x);
      } else if x > i {
        NoAssign(toks, i + 1, j, 6, e.operand, x);
      }
    } else if toks[i] == LParen {
      if i < x < j - 1 { NoAssign(toks, i + 1, j - 1, 0, e, x); }
    } else if e.CallExpr? && i + 1 < x < j - 1 {
      NoAssignIn(toks, i + 2, j - 1, e.args, x);
    }
  }

  lemma {:induction false} NoAssignIn(toks: seq<Token>, i: nat, j: nat, es: List<Expr>, x: nat)
    requires i <= x < j && IsSome(toks, i, j, es)
    ensures toks[x] != AssignTok
    decreases j - i, 9
  {
    if es.tail.Nil? {
      NoAssign(toks, i, j, 0, es.head, x);
    } else {
      var k :| i <= k < j && toks[k] == Comma && IsExpr(toks, i, k, 0, es.head) && IsSome(toks, k + 1, j, es.tail);
      if x < k { NoAssign(toks, i, k, 0, es.head, x); }
      if x > k { NoAssignIn(toks, k + 1, j, es.tail, x); }
    }
  }

  /** Tokens from i up to j are parsed as the expression exactly if they are it. */
  lemma ExprParsed(toks: seq<Token>, i: nat, j: nat, level: nat, e: Expr)
    requires Ends(toks) && i <= j < |toks| && level <= 6 && !Continues(toks[j], level)
    ensures IsExpr(toks, i, j, level, e) <==> ParseLevel(toks, i, level) == Got(e, j)
  {
    if IsExpr(toks, i, j, level, e) {
      LevelComplete(toks, i, j, level, e);
      if level < 6 {
        NoOp(toks[j], level);
        assert ParseRest(toks, j, level, e) == Got(e, j);
      }
    }
    if ParseLevel(toks, i, level) == Got(e, j) { LevelSound(toks, i, level); }
  }

  lemma ValueParsed(toks: seq<Token>, i: nat, j: nat, e: Expr)
    requires Ends(toks) && i <= j < |toks| && IsValue(toks, i, j, e)
    ensures i + 1 < j && ParseExprSemi(toks, i) == Got(e, j)
    ensures BeginsExpr(toks[i]) && !toks[i + 1].AssignTok?
  {
    ExprParsed(toks, i, j - 1, 0, e);
    FirstOfExpr(toks, i, j - 1, 0, e);
    if i + 1 < j - 1 { NoAssign(toks, i, j - 1, 0, e, i + 1); }
    hide ParseLevel;
  }

  lemma DeclParsed(toks: seq<Token>, i: nat, j: nat, name: string, e: Expr)
    requires Ends(toks) && i <= j < |toks| && IsDecl(toks, i, j, false, name, e)
    ensures i + 3 < j && ParseDecl(toks, i) == Got((name, e), j)
  {
    ExprParsed(toks, i + 3, j - 1, 0, e);
    hide ParseLevel;
  }

  lemma HeadParsed(toks: seq<Token>, i: nat, k: nat, word: Token, c: Expr)
    requires Ends(toks) && i <= k < |toks| && IsHead(toks, i, k, word, c)
    ensures i + 1 < k && toks[i] == word && ParseCond(toks, i + 1) == Got(c, k)
  {
    ExprParsed(toks, i + 2, k - 1, 0, c);
    hide ParseLevel;
  }

  /** No statement begins with `else`, `}` or the end of the file. */
  lemma FirstOfStmt(toks: seq<Token>, i: nat, j: nat, s: Stmt)
    requires IsStmt(toks, i, j, s)
    ensures i < j && !toks[i].KwElse? && !toks[i].RBrace? && !toks[i].Eof?
  {
    hide IsExpr;
    if s.ExprStmt? { FirstOfExpr(toks, i, j - 1, 0, s.expr); }
  }

  lemma {:induction false} StmtComplete(toks: seq<Token>, i: nat, j: nat, s: Stmt)
    requires Ends(toks) && i <= j < |toks| && IsStmt(toks, i, j, s) && (OpenIf(s) ==> !toks[j].KwElse?)
    ensures i < j && ParseStmt(toks, i) == Got(s, j)
    decreases s, 1
  {
    if s.Compound? {
      StmtsComplete(toks, i + 1, j - 1, s.stmts);
      hide ParseStmts, IsStmts;
    } else if s.If? {
      IfComplete(toks, i, j, s);
    } else if s.While? {
      var k: nat :| IsWhile(toks, i, k, j, s);
      hide ParseStmt, ParseCond, IsHead;
      FirstOfStmt(toks, k, j, s.body);
      HeadParsed(toks, i, k, KwWhile, s.cond);
      StmtComplete(toks, k, j, s.body);
      WhileParses(toks, i, k, j, s);
    } else {
      FlatParsed(toks, i, j, s);
    }
  }

  /** Statements without parts. */
  lemma FlatParsed(toks: seq<Token>, i: nat, j: nat, s: Stmt)
    requires Ends(toks) && i <= j < |toks| && IsStmt(toks, i, j, s) && !s.Compound? && !s.If? && !s.While?
    ensures i < j && ParseStmt(toks, i) == Got(s, j)
  {
    hide ParseExprSemi, ParseDecl, IsValue, ParseBlock, ParseCond, ParseLevel, IsExpr;
    match s
    case ExprStmt(e) => ValueParsed(toks, i, j, e);
    case Assign(_, e) => ValueParsed(toks, i + 2, j, e);
    case VarDecl(isConst, name, e) => DeclParsed(toks, if isConst then i + 1 else i, j, name, e);
    case Return(e) => if e.Some? { ValueParsed(toks, i + 1, j, e.value); }
    case Empty =>
    case Break =>
    case Continue =>
  }

  lemma {:induction false} IfComplete(toks: seq<Token>, i: nat, j: nat, s: Stmt)
    requires Ends(toks) && i <= j < |toks| && s.If? && IsStmt(toks, i, j, s) && (OpenIf(s) ==> !toks[j].KwElse?)
    ensures i < j && ParseStmt(toks, i) == Got(s, j)
    decreases s, 0
  {
    hide ParseCond, IsHead, ParseStmt;
    if s.else_.None? {
      var k: nat :| IsIf(toks, i, k, j, s);
      FirstOfStmt(toks, k, j, s.then_);
      HeadParsed(toks, i, k, KwIf, s.cond);
      StmtComplete(toks, k, j, s.then_);
      IfParses(toks, i, k, j, s);
    } else {
      var k: nat, l: nat :| IsIfElse(toks, i, k, l, j, s);
      FirstOfStmt(toks, k, l, s.then_);
      HeadParsed(toks, i, k, KwIf, s.cond);
      StmtComplete(toks, k, l, s.then_);
      StmtComplete(toks, l + 1, j, s.else_.value);
      IfElseParses(toks, i, k, l, j, s);
    }
  }

  lemma IfParses(toks: seq<Token>, i: nat, k: nat, j: nat, s: Stmt)
    requires Ends(toks) && i + 1 < k < j < |toks| && toks[i] == KwIf && s.If? && s.else_.None? && !toks[j].KwElse?
    requires ParseCond(toks, i + 1) == Got(s.cond, k) && ParseStmt(toks, k) == Got(s.then_, j)
    ensures ParseStmt(toks, i) == Got(s, j)
  {
    hide ParseCond;
  }

  lemma IfElseParses(toks: seq<Token>, i: nat, k: nat, l: nat, j: nat, s: Stmt)
    requires Ends(toks) && i + 1 < k < l && l + 1 < j < |toks| && toks[i] == KwIf && s.If? && s.else_.Some? && toks[l] == KwElse
    requires ParseCond(toks, i + 1) == Got(s.cond, k) && ParseStmt(toks, k) == Got(s.then_, l)
    requires ParseStmt(toks, l + 1) == Got(s.else_.value, j)
    ensures ParseStmt(toks, i) == Got(s, j)
  {
    hide ParseCond;
  }

  lemma WhileParses(toks: seq<Token>, i: nat, k: nat, j: nat, s: Stmt)
    requires Ends(toks) && i + 1 < k < j < |toks| && toks[i] == KwWhile && s.While?
    requires ParseCond(toks, i + 1) == Got(s.cond, k) && ParseStmt(toks, k) == Got(s.body, j)
    ensures ParseStmt(toks, i) == Got(s, j)
  {
    hide ParseCond;
  }

  lemma FirstOfStmts(toks: seq<Token>, i: nat, j: nat, ss: List<Stmt>)
    requires ss.Cons? && IsStmts(toks, i, j, ss)
    ensures i < j && !toks[i].KwElse?
  {
    hide IsStmt;
    var k :| i <= k <= j && IsStmt(toks, i, k, ss.head) && IsStmts(toks, k, j, ss.tail);
    FirstOfStmt(toks, i, k, ss.head);
  }

  lemma {:induction false} StmtsComplete(toks: seq<Token>, i: nat, j: nat, ss: List<Stmt>)
    requires Ends(toks) && i <= j < |toks| && IsStmts(toks, i, j, ss) && (toks[j].RBrace? || toks[j].Eof?)
    ensures ParseStmts(toks, i) == Got(ss, j)
    decreases ss
  {
    hide IsStmt, ParseStmt;
    if ss.Cons? {
      var k :| i <= k <= j && IsStmt(toks, i, k, ss.head) && IsStmts(toks, k, j, ss.tail);
      FirstOfStmt(toks, i, k, ss.head);
      if ss.tail.Cons? { FirstOfStmts(toks, k, j, ss.tail); }
      StmtComplete(toks, i, k, ss.head);
      StmtsComplete(toks, k, j, ss.tail);
    }
  }

  /** Tokens are parsed as the statement exactly if they are it. */
  lemma StmtParsed(toks: seq<Token>, i: nat, j: nat, s: Stmt)
    requires Ends(toks) && i <= j < |toks| && !toks[j].KwElse?
    ensures IsStmt(toks, i, j, s) <==> ParseStmt(toks, i) == Got(s, j)
  {
    hide IsStmt, ParseStmt;
    if IsStmt(toks, i, j, s) { StmtComplete(toks, i, j, s); }
    if ParseStmt(toks, i) == Got(s, j) { StmtSound(toks, i); }
  }

  /** Parentheses change nothing, at any level. */
  lemma ParenthesesParsed(toks: seq<Token>, i: nat, j: nat, level: nat, e: Expr)
    requires Ends(toks) && i + 1 <= j && j + 1 < |toks| && level <= 6
    requires toks[i] == LParen && toks[j] == RParen && !Continues(toks[j + 1], level)
    requires ParseLevel(toks, i + 1, 0) == Got(e, j)
    ensures ParseLevel(toks, i, level) == Got(e, j + 1)
  {
    LevelSound(toks, i + 1, 0);
    Parenthesized(toks, i, j, level, e);
    ExprParsed(toks, i, j + 1, level, e);
  }

  // ---- whole programs -----------------------------------------------------------------------------

  lemma {:induction false} ParamsComplete(toks: seq<Token>, i: nat, j: nat, ps: seq<string>)
    requires Ends(toks) && i <= j < |toks| && ps != [] && IsParams(toks, i, j, ps) && toks[j].RParen?
    ensures i < j && toks[i] == KwInt && ParseParams(toks, i) == Got(ps, j)
    decreases |ps|
  {
    if |ps| > 1 {
      ParamsComplete(toks, i + 3, j, ps[1..]);
      assert [ps[0]] + ps[1..] == ps;
    } else {
      assert [ps[0]] == ps;
    }
  }

  lemma FuncComplete(toks: seq<Token>, i: nat, j: nat, f: FuncDef)
    requires Ends(toks) && i <= j < |toks| && IsFunc(toks, i, j, f)
    ensures i + 3 < j && toks[i] == (if f.returnsVoid then KwVoid else KwInt) && toks[i + 1].TIdent? && toks[i + 2] == LParen
    ensures ParseFuncDef(toks, i + 1, f.returnsVoid) == Got(f, j)
  {
    hide ParseParams, ParseStmts, IsStmts, IsSignature;
    var k: nat :| IsSignature(toks, i, k, f) && IsBody(toks, k, j, f.body);
    SignatureStarts(toks, i, k, f);
    StmtsComplete(toks, k + 1, j - 1, f.body);
    SignatureParsed(toks, i, k, f);
  }

  lemma SignatureStarts(toks: seq<Token>, i: nat, k: nat, f: FuncDef)
    requires IsSignature(toks, i, k, f)
    ensures i + 4 <= k
  {
  }

  lemma SignatureParsed(toks: seq<Token>, i: nat, k: nat, f: FuncDef)
    requires Ends(toks) && i <= k < |toks| && IsSignature(toks, i, k, f)
    ensures i + 3 < k && toks[i] == (if f.returnsVoid then KwVoid else KwInt) && toks[i + 1] == TIdent(f.name)
    ensures toks[i + 2] == LParen && toks[k - 1] == RParen
    ensures toks[i + 3].RParen? <==> f.params == []
    ensures if f.params == [] then k == i + 4 else ParseParams(toks, i + 3) == Got(f.params, k - 1)
  {
    hide ParseParams;
    if f.params != [] { ParamsComplete(toks, i + 3, k - 1, f.params); }
  }

  lemma ItemComplete(toks: seq<Token>, i: nat, j: nat, item: Item)
    requires Ends(toks) && i <= j < |toks| && IsItem(toks, i, j, item)
    ensures i < j && !toks[i].Eof? && ParseItem(toks, i) == Got(item, j)
  {
    hide ParseDecl, ParseFuncDef, IsFunc;
    match item
    case FuncItem(f) => FuncComplete(toks, i, j, f);
    case GlobalItem(isConst, name, e) => DeclParsed(toks, if isConst then i + 1 else i, j, name, e);
  }

  lemma {:induction false} ModuleComplete(toks: seq<Token>, i: nat, j: nat, items: seq<Item>)
    requires Ends(toks) && i <= j < |toks| && IsModule(toks, i, j, items) && toks[j].Eof?
    ensures ParseModule(toks, i) == Got(items, j)
    decreases |items|
  {
    hide IsItem, ParseItem;
    if items != [] {
      var k :| i <= k <= j && IsItem(toks, i, k, items[0]) && IsModule(toks, k, j, items[1..]);
      ItemComplete(toks, i, k, items[0]);
      ModuleComplete(toks, k, j, items[1..]);
      assert [items[0]] + items[1..] == items;
    }
  }

  /** The tokens up to an end of the file are parsed as the program exactly if they are it. */
  lemma ModuleParsed(toks: seq<Token>, i: nat, j: nat, items: seq<Item>)
    requires Ends(toks) && i <= j < |toks| && toks[j].Eof?
    ensures IsModule(toks, i, j, items) <==> ParseModule(toks, i) == Got(items, j)
  {
    hide IsModule, ParseModule;
    if IsModule(toks, i, j, items) { ModuleComplete(toks, i, j, items); }
    if ParseModule(toks, i) == Got(items, j) { ModuleSound(toks, i); }
  }

  /** Parsing fails exactly on what is no program; a program has one tree. */
  lemma ProgramParsed(toks: seq<Token>, i: nat)
    requires Ends(toks) && i < |toks|
    ensures var r := ParseModule(toks, i);
            && (r.Got? ==> IsProgram(toks, i, r.value))
            && forall items | IsProgram(toks, i, items) :: r.Got? && r.value == items
  {
    hide IsModule, ParseModule;
    var r := ParseModule(toks, i);
    if r.Got? {
      ParseStops(toks, i);
      ModuleSound(toks, i);
    }
    forall items | IsProgram(toks, i, items) ensures r.Got? && r.value == items {
      var n: nat :| n < |toks| && toks[n].Eof? && IsModule(toks, i, n, items);
      ModuleRange(toks, i, n, items);
      ModuleComplete(toks, i, n, items);
    }
  }

  lemma ParseStops(toks: seq<Token>, i: nat)
    requires Ends(toks) && i < |toks| && ParseModule(toks, i).Got?
    ensures var n := ParseModule(toks, i).next; n < |toks| && toks[n].Eof?
  {
  }

  lemma ModuleRange(toks: seq<Token>, i: nat, j: nat, items: seq<Item>)
    requires IsModule(toks, i, j, items)
    ensures i <= j <= |toks|
  {
  }
}
