/**
 * Tokens, the recursive-descent grammar with one layer per precedence level, and
 * the printer it inverts.  The cursor stays in front of the final `Eof`.
 */
module Parse {
  import opened Word32
  import opened IR
  import opened Ast

  datatype Token =
    | TIdent(text: string) | TNum(value: int)
    | KwInt | KwVoid | KwConst | KwIf | KwElse | KwWhile | KwBreak | KwContinue | KwReturn
    | LParen | RParen | LBrace | RBrace | Semi | Comma | AssignTok
    | PlusTok | MinusTok | Star | Slash | Percent | NotTok
    | LtTok | GtTok | LeTok | GeTok | EqTok | NeTok | AndAnd | OrOr
    | Eof

  /** What the lexer delivers: the last token is the end of the file. */
  predicate Ends(toks: seq<Token>) {
    |toks| > 0 && toks[|toks| - 1] == Eof
  }

  /** A value and the position behind it, or the position of a syntax error. */
  datatype Parsed<+T> = Got(value: T, next: nat) | Failed(at: nat)

  /** A result of parsing from pos: something was consumed, and never the end. */
  predicate Inside<T>(r: Parsed<T>, toks: seq<Token>, pos: nat) {
    r.Got? ==> pos < r.next < |toks|
  }

  // ---- expressions -------------------------------------------------------------------------

  /** Binary operators by layer: 0 `||`, 1 `&&`, 2 equality, 3 relations, 4 sums, 5 products. */
  datatype Op = Or | And | Arith(op: BinOp)

  function OpAt(level: nat, t: Token): Option<Op> {
    match level
    case 0 => if t.OrOr? then Some(Or) else None
    case 1 => if t.AndAnd? then Some(And) else None
    case 2 => if t.EqTok? then Some(Arith(Eq)) else if t.NeTok? then Some(Arith(Ne)) else None
    case 3 =>
      if t.LtTok? then Some(Arith(Lt)) else if t.GtTok? then Some(Arith(Gt))
      else if t.LeTok? then Some(Arith(Le)) else if t.GeTok? then Some(Arith(Ge)) else None
    case 4 => if t.PlusTok? then Some(Arith(Add)) else if t.MinusTok? then Some(Arith(Sub)) else None
    case 5 =>
      if t.Star? then Some(Arith(Mul)) else if t.Slash? then Some(Arith(Div))
      else if t.Percent? then Some(Arith(Mod)) else None
    case _ => None
  }

  function Combine(op: Op, l: Expr, r: Expr): Expr {
    match op
    case Or => Logical(true, l, r)
    case And => Logical(false, l, r)
    case Arith(o) => Binary(o, l, r)
  }

  function UnaryAt(t: Token): Option<UnaryOp> {
    match t
    case PlusTok => Some(Plus)
    case MinusTok => Some(Minus)
    case NotTok => Some(LogNot)
    case _ => None
  }

  /** `parseLOr` (level 0) down to `parseMul` (level 5). */
  function ParseLevel(toks: seq<Token>, pos: nat, level: nat): (r: Parsed<Expr>)
    requires Ends(toks) && pos < |toks| && level <= 6
    ensures Inside(r, toks, pos)
    decreases |toks| - pos, 20 - level
  {
    if level == 6 then ParseUnary(toks, pos)
    else
      match ParseLevel(toks, pos, level + 1)
      case Failed(at) => Failed(at)
      case Got(lhs, p) => ParseRest(toks, p, level, lhs)
  }

  /** The loop of a layer, which collects operands to the left. */
  function ParseRest(toks: seq<Token>, pos: nat, level: nat, lhs: Expr): (r: Parsed<Expr>)
    requires Ends(toks) && pos < |toks| && level <= 5
    ensures r.Got? ==> pos <= r.next < |toks|
    decreases |toks| - pos, 0
  {
    var op := OpAt(level, toks[pos]);
    if op.None? then Got(lhs, pos)
    else
      match ParseLevel(toks, pos + 1, level + 1)
      case Failed(at) => Failed(at)
      case Got(rhs, p) => ParseRest(toks, p, level, Combine(op.value, lhs, rhs))
  }

  function ParseUnary(toks: seq<Token>, pos: nat): (r: Parsed<Expr>)
    requires Ends(toks) && pos < |toks|
    ensures Inside(r, toks, pos)
    decreases |toks| - pos, 2
  {
    var op := UnaryAt(toks[pos]);
    if op.None? then ParsePrimary(toks, pos)
    else
      match ParseUnary(toks, pos + 1)
      case Failed(at) => Failed(at)
      case Got(e, p) => Got(Unary(op.value, e), p)
  }

  function ParsePrimary(toks: seq<Token>, pos: nat): (r: Parsed<Expr>)
    requires Ends(toks) && pos < |toks|
    ensures Inside(r, toks, pos)
    decreases |toks| - pos, 1
  {
    match toks[pos]
    case TNum(v) => Got(Number(Wrap(v)), pos + 1)
    case LParen =>
      (match ParseLevel(toks, pos + 1, 0)
       case Failed(at) => Failed(at)
       case Got(e, p) => if toks[p].RParen? then Got(e, p + 1) else Failed(p))
    case TIdent(name) =>
      if toks[pos + 1].LParen? then
        if toks[pos + 2].RParen? then Got(CallExpr(name, Nil), pos + 3)
        else
          match ParseArgs(toks, pos + 2)
          case Failed(at) => Failed(at)
          case Got(args, p) => if toks[p].RParen? then Got(CallExpr(name, args), p + 1) else Failed(p)
      else Got(Var(name), pos + 1)
    case _ => Failed(pos)
  }

  function ParseArgs(toks: seq<Token>, pos: nat): (r: Parsed<List<Expr>>)
    requires Ends(toks) && pos < |toks|
    ensures Inside(r, toks, pos)
    decreases |toks| - pos, 30
  {
    match ParseLevel(toks, pos, 0)
    case Failed(at) => Failed(at)
    case Got(e, p) =>
      if !toks[p].Comma? then Got(Cons(e, Nil), p)
      else
        match ParseArgs(toks, p + 1)
        case Failed(at) => Failed(at)
        case Got(es, q) => Got(Cons(e, es), q)
  }

  // ---- statements ---------------------------------------------------------------------------

  /** `[const] int name = expr ;` with the cursor behind `const`. */
  function ParseDecl(toks: seq<Token>, pos: nat): (r: Parsed<(string, Expr)>)
    requires Ends(toks) && pos < |toks|
    ensures Inside(r, toks, pos)
  {
    if !toks[pos].KwInt? then Failed(pos)
    else if !toks[pos + 1].TIdent? then Failed(pos + 1)
    else if !toks[pos + 2].AssignTok? then Failed(pos + 2)
    else
      match ParseLevel(toks, pos + 3, 0)
      case Failed(at) => Failed(at)
      case Got(e, p) => if toks[p].Semi? then Got((toks[pos + 1].text, e), p + 1) else Failed(p)
  }

  /** `( expr )` */
  function ParseCond(toks: seq<Token>, pos: nat): (r: Parsed<Expr>)
    requires Ends(toks) && pos < |toks|
    ensures Inside(r, toks, pos)
  {
    if !toks[pos].LParen? then Failed(pos)
    else
      match ParseLevel(toks, pos + 1, 0)
      case Failed(at) => Failed(at)
      case Got(e, p) => if toks[p].RParen? then Got(e, p + 1) else Failed(p)
  }

  /** `expr ;` */
  function ParseExprSemi(toks: seq<Token>, pos: nat): (r: Parsed<Expr>)
    requires Ends(toks) && pos < |toks|
    ensures Inside(r, toks, pos)
  {
    match ParseLevel(toks, pos, 0)
    case Failed(at) => Failed(at)
    case Got(e, p) => if toks[p].Semi? then Got(e, p + 1) else Failed(p)
  }

  /** An assignment, told by the token behind its name, or an expression statement. */
  function ParseSimple(toks: seq<Token>, pos: nat): (r: Parsed<Stmt>)
    requires Ends(toks) && pos < |toks|
    ensures Inside(r, toks, pos)
  {
    if toks[pos].TIdent? && toks[pos + 1].AssignTok? then
      match ParseExprSemi(toks, pos + 2)
      case Failed(at) => Failed(at)
      case Got(e, p) => Got(Assign(toks[pos].text, e), p)
    else
      match ParseExprSemi(toks, pos)
      case Failed(at) => Failed(at)
      case Got(e, p) => Got(ExprStmt(e), p)
  }

  function ParseStmt(toks: seq<Token>, pos: nat): (r: Parsed<Stmt>)
    requires Ends(toks) && pos < |toks|
    ensures Inside(r, toks, pos)
    decreases |toks| - pos, 1
  {
    match toks[pos]
    case LBrace =>
      (match ParseBlock(toks, pos)
       case Failed(at) => Failed(at)
       case Got(ss, p) => Got(Compound(ss), p))
    case Semi => Got(Empty, pos + 1)
    case KwConst =>
      (match ParseDecl(toks, pos + 1)
       case Failed(at) => Failed(at)
       case Got((name, e), p) => Got(VarDecl(true, name, e), p))
    case KwInt =>
      (match ParseDecl(toks, pos)
       case Failed(at) => Failed(at)
       case Got((name, e), p) => Got(VarDecl(false, name, e), p))
    case KwIf =>
      (match ParseCond(toks, pos + 1)
       case Failed(at) => Failed(at)
       case Got(c, p) =>
         match ParseStmt(toks, p)
         case Failed(at) => Failed(at)
         case Got(t, q) =>
           if !toks[q].KwElse? then Got(If(c, t, None), q)
           else
             match ParseStmt(toks, q + 1)
             case Failed(at) => Failed(at)
             case Got(e, z) => Got(If(c, t, Some(e)), z))
    case KwWhile =>
      (match ParseCond(toks, pos + 1)
       case Failed(at) => Failed(at)
       case Got(c, p) =>
         match ParseStmt(toks, p)
         case Failed(at) => Failed(at)
         case Got(b, q) => Got(While(c, b), q))
    case KwBreak => if toks[pos + 1].Semi? then Got(Break, pos + 2) else Failed(pos + 1)
    case KwContinue => if toks[pos + 1].Semi? then Got(Continue, pos + 2) else Failed(pos + 1)
    case KwReturn =>
      if toks[pos + 1].Semi? then Got(Return(None), pos + 2)
      else
        (match ParseExprSemi(toks, pos + 1)
         case Failed(at) => Failed(at)
         case Got(e, p) => Got(Return(Some(e)), p))
    case _ => ParseSimple(toks, pos)
  }

  function ParseBlock(toks: seq<Token>, pos: nat): (r: Parsed<List<Stmt>>)
    requires Ends(toks) && pos < |toks|
    ensures Inside(r, toks, pos)
    decreases |toks| - pos, 0
  {
    if !toks[pos].LBrace? then Failed(pos)
    else
      match ParseStmts(toks, pos + 1)
      case Failed(at) => Failed(at)
      case Got(ss, p) => if toks[p].RBrace? then Got(ss, p + 1) else Failed(p)
  }

  /** Statements up to the closing brace or the end of the file. */
  function ParseStmts(toks: seq<Token>, pos: nat): (r: Parsed<List<Stmt>>)
    requires Ends(toks) && pos < |toks|
    ensures r.Got? ==> pos <= r.next < |toks|
    decreases |toks| - pos, 2
  {
    if toks[pos].RBrace? || toks[pos].Eof? then Got(Nil, pos)
    else
      match ParseStmt(toks, pos)
      case Failed(at) => Failed(at)
      case Got(s, p) =>
        match ParseStmts(toks, p)
        case Failed(at) => Failed(at)
        case Got(ss, q) => Got(Cons(s, ss), q)
  }

  // ---- top level ---------------------------------------------------------------------------------

  function ParseParams(toks: seq<Token>, pos: nat): (r: Parsed<seq<string>>)
    requires Ends(toks) && pos < |toks|
    ensures Inside(r, toks, pos)
    decreases |toks| - pos
  {
    if !toks[pos].KwInt? then Failed(pos)
    else if !toks[pos + 1].TIdent? then Failed(pos + 1)
    else if !toks[pos + 2].Comma? then Got([toks[pos + 1].text], pos + 2)
    else
      match ParseParams(toks, pos + 3)
      case Failed(at) => Failed(at)
      case Got(ps, p) => Got([toks[pos + 1].text] + ps, p)
  }

  /** A function with the cursor at its name. */
  function ParseFuncDef(toks: seq<Token>, pos: nat, returnsVoid: bool): (r: Parsed<FuncDef>)
    requires Ends(toks) && pos < |toks|
    ensures Inside(r, toks, pos)
  {
    if !toks[pos].TIdent? then Failed(pos)
    else if !toks[pos + 1].LParen? then Failed(pos + 1)
    else
      match if toks[pos + 2].RParen? then Got([], pos + 2) else ParseParams(toks, pos + 2)
      case Failed(at) => Failed(at)
      case Got(params, p) =>
        if !toks[p].RParen? then Failed(p)
        else
          match ParseBlock(toks, p + 1)
          case Failed(at) => Failed(at)
          case Got(body, q) => Got(FuncDef(returnsVoid, toks[pos].text, params, body), q)
  }

  function ParseItem(toks: seq<Token>, pos: nat): (r: Parsed<Item>)
    requires Ends(toks) && pos < |toks|
    ensures Inside(r, toks, pos)
  {
    match toks[pos]
    case KwConst =>
      (match ParseDecl(toks, pos + 1)
       case Failed(at) => Failed(at)
       case Got((name, e), p) => Got(GlobalItem(true, name, e), p))
    case KwVoid =>
      (match ParseFuncDef(toks, pos + 1, true)
       case Failed(at) => Failed(at)
       case Got(f, p) => Got(FuncItem(f), p))
    case KwInt =>
      if !toks[pos + 1].TIdent? then Failed(pos)
      else if toks[pos + 2].LParen? then
        (match ParseFuncDef(toks, pos + 1, false)
         case Failed(at) => Failed(at)
         case Got(f, p) => Got(FuncItem(f), p))
      else
        (match ParseDecl(toks, pos)
         case Failed(at) => Failed(at)
         case Got((name, e), p) => Got(GlobalItem(false, name, e), p))
    case _ => Failed(pos)
  }

  function ParseModule(toks: seq<Token>, pos: nat): (r: Parsed<seq<Item>>)
    requires Ends(toks) && pos < |toks|
    ensures r.Got? ==> pos <= r.next < |toks| && toks[r.next].Eof?
    decreases |toks| - pos
  {
    if toks[pos].Eof? then Got([], pos)
    else
      match ParseItem(toks, pos)
      case Failed(at) => Failed(at)
      case Got(item, p) =>
        match ParseModule(toks, p)
        case Failed(at) => Failed(at)
        case Got(items, q) => Got([item] + items, q)
  }

  // ---- the printer --------------------------------------------------------------------------------

  function BinLevel(op: BinOp): nat {
    match op
    case Eq => 2
    case Ne => 2
    case Lt => 3
    case Gt => 3
    case Le => 3
    case Ge => 3
    case Add => 4
    case Sub => 4
    case _ => 5
  }

  function BinToken(op: BinOp): Token {
    match op
    case Add => PlusTok
    case Sub => MinusTok
    case Mul => Star
    case Div => Slash
    case Mod => Percent
    case Lt => LtTok
    case Gt => GtTok
    case Le => LeTok
    case Ge => GeTok
    case Eq => EqTok
    case Ne => NeTok
  }

  function UnaryToken(op: UnaryOp): Token {
    match op
    case Plus => PlusTok
    case Minus => MinusTok
    case LogNot => NotTok
  }

  /** The C precedence of an expression. */
  function Prec(e: Expr): nat {
    match e
    case Logical(isOr, _, _) => if isOr then 0 else 1
    case Binary(op, _, _) => BinLevel(op)
    case Unary(_, _) => 6
    case _ => 7
  }

  /** The tokens of an expression where one of the given precedence may stand. */
  function Print(e: Expr, level: nat): seq<Token>
    decreases e, 1
  {
    if Prec(e) < level then [LParen] + PrintBare(e) + [RParen] else PrintBare(e)
  }

  /** All binary operators associate to the left. */
  function PrintBare(e: Expr): seq<Token>
    decreases e, 0
  {
    match e
    case Number(n) => [TNum(U(n))]
    case Var(name) => [TIdent(name)]
    case Logical(isOr, l, r) => Print(l, Prec(e)) + [if isOr then OrOr else AndAnd] + Print(r, Prec(e) + 1)
    case Binary(op, l, r) => Print(l, Prec(e)) + [BinToken(op)] + Print(r, Prec(e) + 1)
    case Unary(op, a) => [UnaryToken(op)] + Print(a, 6)
    case CallExpr(name, args) => [TIdent(name), LParen] + PrintArgs(args) + [RParen]
  }

  function PrintArgs(es: List<Expr>): seq<Token>
    decreases es, 0
  {
    match es
    case Nil => []
    case Cons(e, rest) => Print(e, 0) + if rest.Nil? then [] else [Comma] + PrintArgs(rest)
  }

  function PrintDecl(name: string, e: Expr): seq<Token> {
    [KwInt, TIdent(name), AssignTok] + Print(e, 0) + [Semi]
  }

  function PrintStmt(s: Stmt): seq<Token>
    decreases s
  {
    match s
    case Compound(ss) => [LBrace] + PrintStmts(ss) + [RBrace]
    case Empty => [Semi]
    case ExprStmt(e) => Print(e, 0) + [Semi]
    case Assign(name, e) => [TIdent(name), AssignTok] + Print(e, 0) + [Semi]
    case VarDecl(isConst, name, e) => (if isConst then [KwConst] else []) + PrintDecl(name, e)
    case If(c, t, None) => [KwIf, LParen] + Print(c, 0) + [RParen] + PrintStmt(t)
    case If(c, t, Some(e)) => [KwIf, LParen] + Print(c, 0) + [RParen] + PrintStmt(t) + [KwElse] + PrintStmt(e)
    case While(c, b) => [KwWhile, LParen] + Print(c, 0) + [RParen] + PrintStmt(b)
    case Break => [KwBreak, Semi]
    case Continue => [KwContinue, Semi]
    case Return(None) => [KwReturn, Semi]
    case Return(Some(e)) => [KwReturn] + Print(e, 0) + [Semi]
  }

  function PrintStmts(ss: List<Stmt>): seq<Token>
    decreases ss
  {
    if ss.Nil? then [] else PrintStmt(ss.head) + PrintStmts(ss.tail)
  }

  function PrintParams(ps: seq<string>): seq<Token> {
    if ps == [] then []
    else [KwInt, TIdent(ps[0])] + if |ps| == 1 then [] else [Comma] + PrintParams(ps[1..])
  }

  function PrintItem(item: Item): seq<Token> {
    match item
    case GlobalItem(isConst, name, e) => (if isConst then [KwConst] else []) + PrintDecl(name, e)
    case FuncItem(f) =>
      [if f.returnsVoid then KwVoid else KwInt, TIdent(f.name), LParen] + PrintParams(f.params) + [RParen, LBrace]
      + PrintStmts(f.body) + [RBrace]
  }

  function PrintModule(items: seq<Item>): seq<Token> {
    if items == [] then [] else PrintItem(items[0]) + PrintModule(items[1..])
  }

  /** A statement whose last part is an `if` without `else`. */
  predicate OpenIf(s: Stmt) {
    match s
    case If(_, t, e) => e.None? || OpenIf(e.value)
    case While(_, b) => OpenIf(b)
    case _ => false
  }

  /** Every `else` belongs to the nearest `if`. */
  predicate NoDangling(s: Stmt) {
    match s
    case Compound(ss) => NoDanglingIn(ss)
    case If(_, t, e) => NoDangling(t) && (e.Some? ==> NoDangling(e.value) && !OpenIf(t))
    case While(_, b) => NoDangling(b)
    case _ => true
  }

  predicate NoDanglingIn(ss: List<Stmt>) {
    ss.Nil? || (NoDangling(ss.head) && NoDanglingIn(ss.tail))
  }
}
