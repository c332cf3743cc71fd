/**
 * The recursive-descent parser as it runs: a cursor over the tokens that every
 * method advances, with a loop in each layer of binary operators.
 */
module ParserClass {
  import opened Word32
  import opened IR
  import opened Ast
  import opened Parse
  import G = Grammar

  /** A list that begins with the collected elements. */
  function Prepend<T>(xs: seq<T>, tail: List<T>): List<T> {
    if xs == [] then tail else Cons(xs[0], Prepend(xs[1..], tail))
  }

  lemma {:induction false} PrependSnoc<T>(xs: seq<T>, x: T, tail: List<T>)
    ensures Prepend(xs + [x], tail) == Prepend(xs, Cons(x, tail))
  {
    if xs != [] {
      assert (xs + [x])[1..] == xs[1..] + [x];
      PrependSnoc(xs[1..], x, tail);
    } else {
      assert (xs + [x])[1..] == [];
    }
  }

  /** `p` is what `q` becomes when the collected elements are put in front. */
  ghost predicate Collected<T>(p: Parsed<List<T>>, xs: seq<T>, q: Parsed<List<T>>) {
    match q
    case Failed(at) => p == Failed(at)
    case Got(tail, n) => p == Got(Prepend(xs, tail), n)
  }

  class Parser {
    const toks: seq<Token>
    var pos: nat

    constructor (toks: seq<Token>)
      requires Ends(toks)
      ensures this.toks == toks && pos == 0 && Valid()
    {
      this.toks := toks;
      pos := 0;
    }

    /** The cursor has not passed the end of the file. */
    predicate Valid()
      reads this
    {
      Ends(toks) && pos < |toks|
    }

    /** The method did what the grammar says, or stopped where it fails. */
    ghost predicate Did<T>(r: Option<T>, spec: Parsed<T>)
      reads this
    {
      match spec
      case Got(v, n) => r == Some(v) && pos == n
      case Failed(at) => r.None? && pos == at
    }

    function Cur(): Token
      requires Valid()
      reads this
    {
      toks[pos]
    }

    function Peek(off: nat): Token
      requires Valid()
      reads this
    {
      if pos + off < |toks| then toks[pos + off] else toks[|toks| - 1]
    }

    method Accept(t: Token) returns (ok: bool)
      requires Valid() && !t.Eof?
      modifies this
      ensures Valid() && ok == (toks[old(pos)] == t) && pos == old(pos) + if ok then 1 else 0
    {
      ok := Cur() == t;
      if ok { pos := pos + 1; }
    }

    method Advance() returns (t: Token)
      requires Valid() && !Cur().Eof?
      modifies this
      ensures Valid() && t == toks[old(pos)] && pos == old(pos) + 1
    {
      t := Cur();
      pos := pos + 1;
    }

    // ---- expressions ----

    method ParseExpr() returns (r: Option<Expr>)
      requires Valid()
      modifies this
      ensures Did(r, ParseLevel(toks, old(pos), 0)) && (r.Some? ==> Valid() && pos > old(pos))
      decreases |toks| - pos, 20
    {
      r := ParseLOr();
    }

    method ParseLOr() returns (r: Option<Expr>)
      requires Valid()
      modifies this
      ensures Did(r, ParseLevel(toks, old(pos), 0)) && (r.Some? ==> Valid() && pos > old(pos))
      decreases |toks| - pos, 19
    {
      ghost var start := pos;
      r := ParseLAnd();
      while r.Some? && Cur().OrOr?
        invariant r.Some? ==> Valid() && pos > start && ParseRest(toks, pos, 0, r.value) == ParseLevel(toks, start, 0)
        invariant r.None? ==> Did(r, ParseLevel(toks, start, 0))
        decreases if r.Some? then |toks| - pos + 1 else 0
      {
        var t := Advance();
        var rhs := ParseLAnd();
        r := if rhs.Some? then Some(Logical(true, r.value, rhs.value)) else None;
      }
    }

    method ParseLAnd() returns (r: Option<Expr>)
      requires Valid()
      modifies this
      ensures Did(r, ParseLevel(toks, old(pos), 1)) && (r.Some? ==> Valid() && pos > old(pos))
      decreases |toks| - pos, 18
    {
      ghost var start := pos;
      r := ParseEq();
      while r.Some? && Cur().AndAnd?
        invariant r.Some? ==> Valid() && pos > start && ParseRest(toks, pos, 1, r.value) == ParseLevel(toks, start, 1)
        invariant r.None? ==> Did(r, ParseLevel(toks, start, 1))
        decreases if r.Some? then |toks| - pos + 1 else 0
      {
        var t := Advance();
        var rhs := ParseEq();
        r := if rhs.Some? then Some(Logical(false, r.value, rhs.value)) else None;
      }
    }

    method ParseEq() returns (r: Option<Expr>)
      requires Valid()
      modifies this
      ensures Did(r, ParseLevel(toks, old(pos), 2)) && (r.Some? ==> Valid() && pos > old(pos))
      decreases |toks| - pos, 17
    {
      ghost var start := pos;
      r := ParseRel();
      while r.Some?
        invariant r.Some? ==> Valid() && pos > start && ParseRest(toks, pos, 2, r.value) == ParseLevel(toks, start, 2)
        invariant r.None? ==> Did(r, ParseLevel(toks, start, 2))
        decreases if r.Some? then |toks| - pos + 1 else 0
      {
        var op;
        match Cur() {
          case EqTok => op := Eq;
          case NeTok => op := Ne;
          case _ => return;
        }
        var t := Advance();
        var rhs := ParseRel();
        r := if rhs.Some? then Some(Binary(op, r.value, rhs.value)) else None;
      }
    }

    method ParseRel() returns (r: Option<Expr>)
      requires Valid()
      modifies this
      ensures Did(r, ParseLevel(toks, old(pos), 3)) && (r.Some? ==> Valid() && pos > old(pos))
      decreases |toks| - pos, 16
    {
      ghost var start := pos;
      r := ParseAdd();
      while r.Some?
        invariant r.Some? ==> Valid() && pos > start && ParseRest(toks, pos, 3, r.value) == ParseLevel(toks, start, 3)
        invariant r.None? ==> Did(r, ParseLevel(toks, start, 3))
        decreases if r.Some? then |toks| - pos + 1 else 0
      {
        var op;
        match Cur() {
          case LtTok => op := Lt;
          case GtTok => op := Gt;
          case LeTok => op := Le;
          case GeTok => op := Ge;
          case _ => return;
        }
        var t := Advance();
        var rhs := ParseAdd();
        r := if rhs.Some? then Some(Binary(op, r.value, rhs.value)) else None;
      }
    }

    method ParseAdd() returns (r: Option<Expr>)
      requires Valid()
      modifies this
      ensures Did(r, ParseLevel(toks, old(pos), 4)) && (r.Some? ==> Valid() && pos > old(pos))
      decreases |toks| - pos, 15
    {
      ghost var start := pos;
      r := ParseMul();
      while r.Some?
        invariant r.Some? ==> Valid() && pos > start && ParseRest(toks, pos, 4, r.value) == ParseLevel(toks, start, 4)
        invariant r.None? ==> Did(r, ParseLevel(toks, start, 4))
        decreases if r.Some? then |toks| - pos + 1 else 0
      {
        var op;
        match Cur() {
          case PlusTok => op := Add;
          case MinusTok => op := Sub;
          case _ => return;
        }
        var t := Advance();
        var rhs := ParseMul();
        r := if rhs.Some? then Some(Binary(op, r.value, rhs.value)) else None;
      }
    }

    method ParseMul() returns (r: Option<Expr>)
      requires Valid()
      modifies this
      ensures Did(r, ParseLevel(toks, old(pos), 5)) && (r.Some? ==> Valid() && pos > old(pos))
      decreases |toks| - pos, 14
    {
      ghost var start := pos;
      r := ParseUnaryExpr();
      while r.Some?
        invariant r.Some? ==> Valid() && pos > start && ParseRest(toks, pos, 5, r.value) == ParseLevel(toks, start, 5)
        invariant r.None? ==> Did(r, ParseLevel(toks, start, 5))
        decreases if r.Some? then |toks| - pos + 1 else 0
      {
        var op;
        match Cur() {
          case Star => op := Mul;
          case Slash => op := Div;
          case Percent => op := Mod;
          case _ => return;
        }
        var t := Advance();
        var rhs := ParseUnaryExpr();
        r := if rhs.Some? then Some(Binary(op, r.value, rhs.value)) else None;
      }
    }

    method ParseUnaryExpr() returns (r: Option<Expr>)
      requires Valid()
      modifies this
      ensures Did(r, ParseLevel(toks, old(pos), 6)) && (r.Some? ==> Valid() && pos > old(pos))
      decreases |toks| - pos, 13
    {
      hide ParsePrimary;
      LevelSix(pos);
      var op := Plus;
      match Cur() {
        case PlusTok =>
        case MinusTok => op := Minus;
        case NotTok => op := LogNot;
        case _ =>
          r := ParsePrimaryExpr();
          return;
      }
      LevelSix(pos + 1);
      hide ParseLevel;
      var t := Advance();
      var a := ParseUnaryExpr();
      r := if a.Some? then Some(Unary(op, a.value)) else None;
    }

    /** The layer below the products is that of the unary operators. */
    lemma LevelSix(p: nat)
      requires Ends(toks) && p < |toks|
      ensures ParseLevel(toks, p, 6) == ParseUnary(toks, p)
    {
    }

    method ParsePrimaryExpr() returns (r: Option<Expr>)
      requires Valid()
      modifies this
      ensures Did(r, ParsePrimary(toks, old(pos))) && (r.Some? ==> Valid() && pos > old(pos))
      decreases |toks| - pos, 12
    {
      hide ParseLevel, ParseArgs;
      match Cur() {
        case TNum(v) =>
          var t := Advance();
          r := Some(Number(Wrap(v)));
        case LParen =>
          var t := Advance();
          var e := ParseExpr();
          if e.None? { return None; }
          var ok := Accept(RParen);
          r := if ok then e else None;
        case TIdent(name) =>
          var t := Advance();
          var call := Accept(LParen);
          if !call { return Some(Var(name)); }
          var args: List<Expr> := Nil;
          if !Cur().RParen? {
            var es := ParseArgList();
            if es.None? { return None; }
            args := es.value;
          }
          var ok := Accept(RParen);
          r := if ok then Some(CallExpr(name, args)) else None;
        case _ => r := None;
      }
    }

    method ParseArgList() returns (r: Option<List<Expr>>)
      requires Valid()
      modifies this
      ensures Did(r, ParseArgs(toks, old(pos))) && (r.Some? ==> Valid() && pos > old(pos))
      decreases |toks| - pos, 21
    {
      hide ParseLevel;
      ghost var start := pos;
      var args: seq<Expr> := [];
      var more := true;
      while more
        invariant Valid() && pos >= start && (!more ==> pos > start)
        invariant more ==> Collected(ParseArgs(toks, start), args, ParseArgs(toks, pos))
        invariant !more ==> ParseArgs(toks, start) == Got(Prepend(args, Nil), pos)
        decreases |toks| - pos, more
      {
        var e := ParseExpr();
        if e.None? { return None; }
        PrependSnoc(args, e.value, Nil);
        ghost var rest := if Cur().Comma? && pos + 1 < |toks| then ParseArgs(toks, pos + 1) else Failed(0);
        if rest.Got? { PrependSnoc(args, e.value, rest.value); }
        args := args + [e.value];
        more := Accept(Comma);
      }
      r := Some(Prepend(args, Nil));
    }

    // ---- statements ----

    /** `[const] int name = expr ;` from `int` on. */
    method ParseDeclRest() returns (r: Option<(string, Expr)>)
      requires Valid()
      modifies this
      ensures Did(r, ParseDecl(toks, old(pos))) && (r.Some? ==> Valid() && pos > old(pos))
      decreases |toks| - pos, 21
    {
      hide ParseLevel;
      var ok := Accept(KwInt);
      if !ok || !Cur().TIdent? { return None; }
      var name := Advance();
      ok := Accept(AssignTok);
      if !ok { return None; }
      var e := ParseExpr();
      if e.None? { return None; }
      ok := Accept(Semi);
      r := if ok then Some((name.text, e.value)) else None;
    }

    method ParseCondition() returns (r: Option<Expr>)
      requires Valid()
      modifies this
      ensures Did(r, ParseCond(toks, old(pos))) && (r.Some? ==> Valid() && pos > old(pos))
      decreases |toks| - pos, 21
    {
      hide ParseLevel;
      var ok := Accept(LParen);
      if !ok { return None; }
      r := ParseExpr();
      if r.None? { return; }
      ok := Accept(RParen);
      if !ok { r := None; }
    }

    method ParseExprSemicolon() returns (r: Option<Expr>)
      requires Valid()
      modifies this
      ensures Did(r, ParseExprSemi(toks, old(pos))) && (r.Some? ==> Valid() && pos > old(pos))
      decreases |toks| - pos, 21
    {
      hide ParseLevel;
      r := ParseExpr();
      if r.None? { return; }
      var ok := Accept(Semi);
      if !ok { r := None; }
    }

    /** Assignment lookahead: a name and `=`. */
    method ParseSimpleStmt() returns (r: Option<Stmt>)
      requires Valid()
      modifies this
      ensures Did(r, ParseSimple(toks, old(pos))) && (r.Some? ==> Valid() && pos > old(pos))
      decreases |toks| - pos, 22
    {
      hide ParseExprSemi;
      if Cur().TIdent? && Peek(1).AssignTok? {
        var name := Advance();
        var eq := Advance();
        var v := ParseExprSemicolon();
        r := if v.Some? then Some(Assign(name.text, v.value)) else None;
      } else {
        var e := ParseExprSemicolon();
        r := if e.Some? then Some(ExprStmt(e.value)) else None;
      }
    }

    method ParseJump(s: Stmt) returns (r: Option<Stmt>)
      requires Valid() && !Cur().Eof?
      modifies this
      ensures Did(r, if toks[old(pos) + 1].Semi? then Got(s, old(pos) + 2) else Failed(old(pos) + 1))
      ensures r.Some? ==> Valid() && pos > old(pos)
    {
      var t := Advance();
      var ok := Accept(Semi);
      r := if ok then Some(s) else None;
    }

    method ParseStatement() returns (r: Option<Stmt>)
      requires Valid()
      modifies this
      ensures Did(r, ParseStmt(toks, old(pos))) && (r.Some? ==> Valid() && pos > old(pos))
      decreases |toks| - pos, 24
    {
      hide ParseDecl, ParseCond, ParseExprSemi, ParseSimple, ParseBlock;
      match Cur() {
        case LBrace =>
          var ss := ParseBraces();
          r := if ss.Some? then Some(Compound(ss.value)) else None;
        case Semi =>
          var t := Advance();
          r := Some(Empty);
        case KwConst =>
          var t := Advance();
          var d := ParseDeclRest();
          r := if d.Some? then Some(VarDecl(true, d.value.0, d.value.1)) else None;
        case KwInt =>
          var d := ParseDeclRest();
          r := if d.Some? then Some(VarDecl(false, d.value.0, d.value.1)) else None;
        case KwIf => r := ParseIf();
        case KwWhile => r := ParseWhile();
        case KwBreak => r := ParseJump(Break);
        case KwContinue => r := ParseJump(Continue);
        case KwReturn => r := ParseReturn();
        case _ => r := ParseSimpleStmt();
      }
    }

    method ParseReturn() returns (r: Option<Stmt>)
      requires Valid() && Cur().KwReturn?
      modifies this
      ensures Did(r, ParseStmt(toks, old(pos))) && (r.Some? ==> Valid() && pos > old(pos))
      decreases |toks| - pos, 23
    {
      hide ParseExprSemi;
      var t := Advance();
      var done := Accept(Semi);
      if done { return Some(Return(None)); }
      var e := ParseExprSemicolon();
      r := if e.Some? then Some(Return(e)) else None;
    }

    method ParseIf() returns (r: Option<Stmt>)
      requires Valid() && Cur().KwIf?
      modifies this
      ensures Did(r, ParseStmt(toks, old(pos))) && (r.Some? ==> Valid() && pos > old(pos))
      decreases |toks| - pos, 23
    {
      hide ParseCond;
      var t := Advance();
      var c := ParseCondition();
      if c.None? { return None; }
      var then_ := ParseStatement();
      if then_.None? { return None; }
      var more := Accept(KwElse);
      if !more { return Some(If(c.value, then_.value, None)); }
      var else_ := ParseStatement();
      r := if else_.Some? then Some(If(c.value, then_.value, else_)) else None;
    }

    method ParseWhile() returns (r: Option<Stmt>)
      requires Valid() && Cur().KwWhile?
      modifies this
      ensures Did(r, ParseStmt(toks, old(pos))) && (r.Some? ==> Valid() && pos > old(pos))
      decreases |toks| - pos, 23
    {
      hide ParseCond;
      var t := Advance();
      var c := ParseCondition();
      if c.None? { return None; }
      var b := ParseStatement();
      r := if b.Some? then Some(While(c.value, b.value)) else None;
    }

    method ParseBraces() returns (r: Option<List<Stmt>>)
      requires Valid()
      modifies this
      ensures Did(r, ParseBlock(toks, old(pos))) && (r.Some? ==> Valid() && pos > old(pos))
      decreases |toks| - pos, 23
    {
      var ok := Accept(LBrace);
      if !ok { return None; }
      ghost var start := pos;
      var stmts: seq<Stmt> := [];
      while !Cur().RBrace? && !Cur().Eof?
        invariant Valid() && pos >= start > old(pos)
        invariant Collected(ParseStmts(toks, start), stmts, ParseStmts(toks, pos))
        decreases |toks| - pos
      {
        hide ParseStmt;
        var s := ParseStatement();
        if s.None? { return None; }
        ghost var rest := ParseStmts(toks, pos);
        if rest.Got? { PrependSnoc(stmts, s.value, rest.value); }
        stmts := stmts + [s.value];
      }
      ok := Accept(RBrace);
      r := if ok then Some(Prepend(stmts, Nil)) else None;
    }

    // ---- top level ----

    /** One parameter, and what is left of the list. */
    lemma ParamStep(p: nat, params: seq<string>)
      requires Ends(toks) && p < |toks|
      ensures !toks[p].KwInt? ==> ParseParams(toks, p) == Failed(p)
      ensures toks[p].KwInt? && !toks[p + 1].TIdent? ==> ParseParams(toks, p) == Failed(p + 1)
      ensures toks[p].KwInt? && toks[p + 1].TIdent? && !toks[p + 2].Comma? ==>
                ParseParams(toks, p) == Got([toks[p + 1].text], p + 2)
      ensures toks[p].KwInt? && toks[p + 1].TIdent? && toks[p + 2].Comma? ==>
                match ParseParams(toks, p + 3)
                case Failed(at) => ParseParams(toks, p) == Failed(at)
                case Got(ps, n) => ParseParams(toks, p) == Got([toks[p + 1].text] + ps, n)
                                   && params + ([toks[p + 1].text] + ps) == params + [toks[p + 1].text] + ps
    {
    }

    /** `int name` separated by commas. */
    method ParseParamList() returns (r: Option<seq<string>>)
      requires Valid()
      modifies this
      ensures Did(r, ParseParams(toks, old(pos))) && (r.Some? ==> Valid() && pos > old(pos))
    {
      ghost var start := pos;
      var params: seq<string> := [];
      var more := true;
      ghost var all := ParseParams(toks, pos);
      if all.Got? { assert [] + all.value == all.value; }
      while more
        invariant Valid() && pos >= start && (!more ==> pos > start)
        invariant more ==> match ParseParams(toks, pos)
                           case Failed(at) => ParseParams(toks, start) == Failed(at)
                           case Got(ps, n) => ParseParams(toks, start) == Got(params + ps, n)
        invariant !more ==> ParseParams(toks, start) == Got(params, pos)
        decreases |toks| - pos, more
      {
        ParamStep(pos, params);
        hide ParseParams;
        var ok := Accept(KwInt);
        if !ok || !Cur().TIdent? { return None; }
        var name := Advance();
        params := params + [name.text];
        more := Accept(Comma);
      }
      r := Some(params);
    }

    method ParseFunction(returnsVoid: bool) returns (r: Option<FuncDef>)
      requires Valid()
      modifies this
      ensures Did(r, ParseFuncDef(toks, old(pos), returnsVoid)) && (r.Some? ==> Valid() && pos > old(pos))
    {
      hide ParseParams, ParseBlock;
      if !Cur().TIdent? { return None; }
      var name := Advance();
      var ok := Accept(LParen);
      if !ok { return None; }
      var params: seq<string> := [];
      if !Cur().RParen? {
        var ps := ParseParamList();
        if ps.None? { return None; }
        params := ps.value;
      }
      ok := Accept(RParen);
      if !ok { return None; }
      var body := ParseBraces();
      r := if body.Some? then Some(FuncDef(returnsVoid, name.text, params, body.value)) else None;
    }

    method ParseTopLevel() returns (r: Option<Item>)
      requires Valid()
      modifies this
      ensures Did(r, ParseItem(toks, old(pos))) && (r.Some? ==> Valid() && pos > old(pos))
    {
      hide ParseDecl, ParseFuncDef;
      match Cur() {
        case KwConst =>
          var t := Advance();
          var d := ParseDeclRest();
          r := if d.Some? then Some(GlobalItem(true, d.value.0, d.value.1)) else None;
        case KwVoid =>
          var t := Advance();
          var f := ParseFunction(true);
          r := if f.Some? then Some(FuncItem(f.value)) else None;
        case KwInt =>
          if !Peek(1).TIdent? { return None; }
          if Peek(2).LParen? {
            var t := Advance();
            var f := ParseFunction(false);
            r := if f.Some? then Some(FuncItem(f.value)) else None;
          } else {
            var d := ParseDeclRest();
            r := if d.Some? then Some(GlobalItem(false, d.value.0, d.value.1)) else None;
          }
        case _ => r := None;
      }
    }

    /** `parseModule`: the program that the tokens are, if they are one. */
    method ParseProgram() returns (r: Option<seq<Item>>)
      requires Valid()
      modifies this
      ensures Did(r, ParseModule(toks, old(pos)))
      ensures r.Some? ==> G.IsProgram(toks, old(pos), r.value)
      ensures r.None? ==> !exists items :: G.IsProgram(toks, old(pos), items)
    {
      hide ParseItem, G.IsProgram;
      G.ProgramParsed(toks, pos);
      ghost var start := pos;
      var items: seq<Item> := [];
      ghost var all := ParseModule(toks, pos);
      if all.Got? { assert [] + all.value == all.value; }
      while !Cur().Eof?
        invariant Valid()
        invariant match ParseModule(toks, pos)
                  case Failed(at) => ParseModule(toks, start) == Failed(at)
                  case Got(rest, n) => ParseModule(toks, start) == Got(items + rest, n)
        decreases |toks| - pos
      {
        var item := ParseTopLevel();
        if item.None? { return None; }
        ghost var rest := ParseModule(toks, pos);
        if rest.Got? { assert items + ([item.value] + rest.value) == items + [item.value] + rest.value; }
        items := items + [item.value];
      }
      assert items + [] == items;
      r := Some(items);
    }
  }
}
