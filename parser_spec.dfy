/** The grammar src/parser.rs accepts, as pure functions over the token
    array and a cursor position.

    Each `Parse...` function takes the tokens and the position `i` where the
    corresponding `Parser` method starts, and returns what the method returns
    together with the position it leaves the cursor at. Reading past the end
    of the tokens (the Rust slice index in `next`, `peek` and
    `unexpected_token`) is a panic and appears as `Abort`. The lexer and the
    AST module are not part of this model; the datatypes follow the cases the
    parser builds. */
module Grammar {

  datatype Option<T> = None | Some(value: T)

  datatype TokenKind =
    | Ident | Integer | True | False
    | Plus | Minus | Asterisk | ForwardSlash | Ampersand
    | OpenBrace | CloseBrace | OpenCurlyBrace | CloseCurlyBrace | OpenAngleBrace | CloseAngleBrace
    | Comma | Colon | Semicolon | Equals
    | If | Else | While | Var | Return | Extern | Func

  /** A token: its kind and the source text it covers. */
  datatype Token = Token(kind: TokenKind, text: string)

  datatype PrefixOp = Deref | Ref
  datatype InfixOp = Add | Subtract | Multiply | Divide | LessThan | GreaterThan

  datatype Expr =
    | Name(name: string)
    | IntLit(literal: string)
    | BoolLit(b: bool)
    | Call(call: FnCall)
    | Prefix(pop: PrefixOp, operand: Expr)
    | Infix(left: Expr, right: Expr, iop: InfixOp)
  datatype FnCall = FnCall(callee: string, args: seq<Expr>)

  datatype Assign = AssignDeref(inner: Assign) | AssignName(target: string)
  datatype Ty = TyName(tyName: string) | TyRef(pointee: Ty)

  datatype Stmt =
    | IfS(ifStmt: If)
    | WhileS(whileCond: Expr, body: Block)
    | Let(ident: string, init: Option<Expr>, declTy: Option<Ty>)
    | ReturnS(result: Option<Expr>)
    | CallS(fnCall: FnCall)
    | AssignS(assign: Assign, value: Expr)
  datatype If = IfThen(cond: Expr, ifBlock: Block, elseBlock: Else)
  datatype Else = ElseIf(elseIf: If) | ElseBlock(block: Block) | NoElse
  datatype Block = Block(stmts: seq<Stmt>)

  datatype Param = Param(paramName: string, paramTy: Ty)
  datatype Func = FuncDecl(fnBody: Option<Block>, params: seq<Param>, returnTy: Option<Ty>, fnName: string, isExtern: bool)

  /** What a parse step gives: a value and the cursor after it, a parse
      error carrying the offending token, or a panic. */
  datatype Parsed<T> = Ok(value: T, next: nat) | Err(token: Token) | Abort

  /** A failed step, passed on at another result type. */
  function Fail<A, B>(r: Parsed<A>): (s: Parsed<B>)
    requires !r.Ok?
    ensures s.Err? <==> r.Err?
    ensures r.Err? ==> s.token == r.token
  {
    if r.Err? then Err(r.token) else Abort
  }

  // ---------------------------------------------------------- cursor

  /** `eat_or_err`: take the current token if it has the given kind. */
  function EatOrErr(toks: seq<Token>, i: nat, kind: TokenKind): (r: Parsed<Token>)
    ensures r.Ok? <==> i < |toks| && toks[i].kind == kind
    ensures r.Ok? ==> r.value == toks[i] && r.next == i + 1
    ensures r.Err? <==> i < |toks| && toks[i].kind != kind
    ensures r.Err? ==> r.token == toks[i]
  {
    if i >= |toks| then Abort
    else if toks[i].kind == kind then Ok(toks[i], i + 1)
    else Err(toks[i])
  }

  // ------------------------------------------------------ precedence

  /** `Prec`, ordered as declared. */
  datatype Prec = RefPrec | Product | Sum | Compare | Bracket

  function Level(p: Prec): nat
  {
    match p
    case RefPrec => 0
    case Product => 1
    case Sum => 2
    case Compare => 3
    case Bracket => 4
  }

  /** The operator a token starts and the level it is parsed at, when the
      current level admits it. */
  function InfixOf(kind: TokenKind, prec: Prec): (r: Option<(InfixOp, Prec)>)
  {
    match kind
    case Plus => if Level(prec) >= Level(Sum) then Some((Add, Sum)) else None
    case Minus => if Level(prec) >= Level(Sum) then Some((Subtract, Sum)) else None
    case Asterisk => if Level(prec) >= Level(Product) then Some((Multiply, Product)) else None
    case ForwardSlash => if Level(prec) >= Level(Product) then Some((Divide, Product)) else None
    case OpenAngleBrace => if Level(prec) >= Level(Compare) then Some((LessThan, Compare)) else None
    case CloseAngleBrace => if Level(prec) >= Level(Compare) then Some((GreaterThan, Compare)) else None
    case _ => None
  }

  /** The level of an operator token, whatever the current level. */
  function OperatorLevel(kind: TokenKind): Option<Prec>
  {
    match kind
    case Plus => Some(Sum)
    case Minus => Some(Sum)
    case Asterisk => Some(Product)
    case ForwardSlash => Some(Product)
    case OpenAngleBrace => Some(Compare)
    case CloseAngleBrace => Some(Compare)
    case _ => None
  }

  /** An operator is taken exactly when the current level is at least its
      own, and its right operand is parsed at its own level: so `*` and `/`
      bind tighter than `+` and `-`, which bind tighter than `<` and `>`, and
      nothing is taken at the level of a prefix operand. */
  lemma InfixOfLevels(kind: TokenKind, prec: Prec)
    ensures InfixOf(kind, prec).Some? <==> OperatorLevel(kind).Some? && Level(OperatorLevel(kind).value) <= Level(prec)
    ensures InfixOf(kind, prec).Some? ==> InfixOf(kind, prec).value.1 == OperatorLevel(kind).value
    ensures InfixOf(kind, RefPrec).None?
    ensures Level(RefPrec) < Level(Product) < Level(Sum) < Level(Compare) < Level(Bracket)
  {
  }

  // ------------------------------------------------------ expressions

  /** `parse_expr`: an operand, then operators while the level admits them. */
  function ParseExpr(toks: seq<Token>, i: nat, prec: Prec): (r: Parsed<Expr>)
    ensures r.Ok? ==> i < r.next <= |toks|
    ensures r.Ok? ==> r.next < |toks| && InfixOf(toks[r.next].kind, prec).None?
    decreases |toks| - i, 2
  {
    var atom := ExprAtom(toks, i);
    if !atom.Ok? then Fail(atom)
    else InfixLoop(toks, atom.value, atom.next, prec)
  }

  /** The operand that starts `parse_expr`. */
  function ExprAtom(toks: seq<Token>, i: nat): (r: Parsed<Expr>)
    ensures r.Ok? ==> i < r.next <= |toks|
    decreases |toks| - i, 1
  {
    if i >= |toks| then Abort
    else match toks[i].kind
      case Asterisk => ParsePrefix(toks, i, Deref, RefPrec)
      case Ampersand => ParsePrefix(toks, i, Ref, RefPrec)
      case Ident => NameOrCall(toks, i)
      case Integer => Ok(IntLit(toks[i].text), i + 1)
      case True => Ok(BoolLit(true), i + 1)
      case False => Ok(BoolLit(false), i + 1)
      case OpenBrace => ParenExpr(toks, i)
      case _ => Err(toks[i])
  }

  /** An identifier: a call when `(` follows, a name otherwise. */
  function NameOrCall(toks: seq<Token>, i: nat): (r: Parsed<Expr>)
    requires i < |toks|
    ensures r.Ok? ==> i < r.next <= |toks|
    decreases |toks| - i, 0
  {
    if i + 1 >= |toks| then Abort
    else if toks[i + 1].kind == OpenBrace then
      var args := ParseArgs(toks, i + 2);
      if !args.Ok? then Fail(args)
      else Ok(Call(FnCall(toks[i].text, args.value)), args.next)
    else Ok(Name(toks[i].text), i + 1)
  }

  /** `(`, an expression, `)` and then one more token, which is dropped. */
  function ParenExpr(toks: seq<Token>, i: nat): (r: Parsed<Expr>)
    requires i < |toks|
    ensures r.Ok? ==> i < r.next <= |toks|
    decreases |toks| - i, 0
  {
    var inner := ParseExpr(toks, i + 1, Bracket);
    if !inner.Ok? then Fail(inner)
    else
      var close := EatOrErr(toks, inner.next, CloseBrace);
      if !close.Ok? then Fail(close)
      else if close.next >= |toks| then Abort
      else Ok(inner.value, close.next + 1)
  }

  /** `parse_prefix`: skip the operator, parse the operand at `prec`. */
  function ParsePrefix(toks: seq<Token>, i: nat, op: PrefixOp, prec: Prec): (r: Parsed<Expr>)
    requires i < |toks|
    ensures r.Ok? ==> i < r.next <= |toks| && r.value.Prefix? && r.value.pop == op
    decreases |toks| - i, 0
  {
    var operand := ParseExpr(toks, i + 1, prec);
    if !operand.Ok? then Fail(operand)
    else Ok(Prefix(op, operand.value), operand.next)
  }

  /** The `loop` of `parse_expr`, from cursor `j` with `left` parsed so far. */
  function InfixLoop(toks: seq<Token>, left: Expr, j: nat, prec: Prec): (r: Parsed<Expr>)
    ensures r.Ok? ==> j <= r.next <= |toks|
    ensures r.Ok? ==> r.next < |toks| && InfixOf(toks[r.next].kind, prec).None?
    decreases |toks| - j, 1
  {
    if j >= |toks| then Abort
    else match InfixOf(toks[j].kind, prec)
      case None => Ok(left, j)
      case Some((op, opPrec)) =>
        var e := ParseInfix(toks, left, j, op, opPrec);
        if !e.Ok? then Fail(e)
        else InfixLoop(toks, e.value, e.next, prec)
  }

  /** `parse_infix`: skip the operator, parse the right operand at `prec`. */
  function ParseInfix(toks: seq<Token>, left: Expr, j: nat, op: InfixOp, prec: Prec): (r: Parsed<Expr>)
    requires j < |toks|
    ensures r.Ok? ==> j < r.next <= |toks| && r.value.Infix? && r.value.left == left && r.value.iop == op
    decreases |toks| - j, 0
  {
    var right := ParseExpr(toks, j + 1, prec);
    if !right.Ok? then Fail(right)
    else Ok(Infix(left, right.value, op), right.next)
  }

  /** `parse_list(Comma, CloseBrace, parse_expr(Bracket))`: call arguments. */
  function ParseArgs(toks: seq<Token>, i: nat): (r: Parsed<seq<Expr>>)
    ensures r.Ok? ==> i < r.next <= |toks|
    decreases |toks| - i, 3
  {
    if i >= |toks| then Abort
    else if toks[i].kind != CloseBrace then
      var first := ParseExpr(toks, i, Bracket);
      if !first.Ok? then Fail(first)
      else ArgsRest(toks, [first.value], first.next)
    else
      var close := EatOrErr(toks, i, CloseBrace);
      Ok([], close.next)
  }

  /** The `while` loop of `parse_list` for arguments, then the terminator. */
  function ArgsRest(toks: seq<Token>, items: seq<Expr>, j: nat): (r: Parsed<seq<Expr>>)
    ensures r.Ok? ==> j < r.next <= |toks| && |items| <= |r.value| && r.value[..|items|] == items
    ensures r.Ok? ==> toks[r.next - 1].kind == CloseBrace
    decreases |toks| - j, 0
  {
    if j >= |toks| then Abort
    else if toks[j].kind == Comma then
      var item := ParseExpr(toks, j + 1, Bracket);
      if !item.Ok? then Fail(item)
      else
        var r := ArgsRest(toks, items + [item.value], item.next);
        if r.Ok? then PrefixKept(items, item.value, r.value); r else r
    else
      var close := EatOrErr(toks, j, CloseBrace);
      if !close.Ok? then Fail(close)
      else Ok(items, close.next)
  }

  // ---------------------------------------------------------- types

  /** `parse_ty`: `&`* then a name. */
  function ParseTy(toks: seq<Token>, i: nat): (r: Parsed<Ty>)
    ensures r.Ok? ==> i < r.next <= |toks|
    decreases |toks| - i
  {
    if i >= |toks| then Abort
    else match toks[i].kind
      case Ampersand =>
        var t := ParseTy(toks, i + 1);
        if !t.Ok? then Fail(t)
        else Ok(TyRef(t.value), t.next)
      case Ident => Ok(TyName(toks[i].text), i + 1)
      case _ => Err(toks[i])
  }

  /** `parse_assign`: `*`* then a name. */
  function ParseAssign(toks: seq<Token>, i: nat): (r: Parsed<Assign>)
    ensures r.Ok? ==> i < r.next <= |toks|
    decreases |toks| - i
  {
    if i >= |toks| then Abort
    else match toks[i].kind
      case Asterisk =>
        var a := ParseAssign(toks, i + 1);
        if !a.Ok? then Fail(a)
        else Ok(AssignDeref(a.value), a.next)
      case Ident => Ok(AssignName(toks[i].text), i + 1)
      case _ => Err(toks[i])
  }

  // ------------------------------------------------------ statements

  /** `parse_stmt`. */
  function ParseStmt(toks: seq<Token>, i: nat): (r: Parsed<Stmt>)
    ensures r.Ok? ==> i < r.next <= |toks|
    decreases |toks| - i, 1
  {
    if i >= |toks| then Abort
    else match toks[i].kind
      case If =>
        var f := ParseIf(toks, i + 1);
        if !f.Ok? then Fail(f)
        else Ok(IfS(f.value), f.next)
      case While => ParseWhile(toks, i)
      case Var => ParseVar(toks, i)
      case Return => ParseReturn(toks, i)
      case Ident => ParseIdentStmt(toks, i)
      case Asterisk => ParseDerefAssign(toks, i)
      case _ => Err(toks[i])
  }

  /** The `while` arm of `parse_stmt`. */
  function ParseWhile(toks: seq<Token>, i: nat): (r: Parsed<Stmt>)
    requires i < |toks|
    ensures r.Ok? ==> i < r.next <= |toks|
    decreases |toks| - i, 0
  {
    var cond := ParseExpr(toks, i + 1, Bracket);
    if !cond.Ok? then Fail(cond)
    else
      var body := ParseBlock(toks, cond.next);
      if !body.Ok? then Fail(body)
      else Ok(WhileS(cond.value, body.value), body.next)
  }

  /** The `var` arm of `parse_stmt`. */
  function ParseVar(toks: seq<Token>, i: nat): (r: Parsed<Stmt>)
    requires i < |toks|
    ensures r.Ok? ==> i < r.next <= |toks|
  {
    var ident := EatOrErr(toks, i + 1, Ident);
    if !ident.Ok? then Fail(ident)
    else
      var ty := OptionalTy(toks, ident.next);
      if !ty.Ok? then Fail(ty)
      else
        var init := OptionalInit(toks, ty.next);
        if !init.Ok? then Fail(init)
        else
          var semi := EatOrErr(toks, init.next, Semicolon);
          if !semi.Ok? then Fail(semi)
          else Ok(Let(ident.value.text, init.value, ty.value), semi.next)
  }

  /** `: ty`, when the current token is a colon. */
  function OptionalTy(toks: seq<Token>, j: nat): (r: Parsed<Option<Ty>>)
    ensures r.Ok? ==> j <= r.next <= |toks|
  {
    if j >= |toks| then Abort
    else if toks[j].kind == Colon then
      var t := ParseTy(toks, j + 1);
      if !t.Ok? then Fail(t) else Ok(Some(t.value), t.next)
    else Ok(None, j)
  }

  /** `= expr`, when the current token is an equals sign. */
  function OptionalInit(toks: seq<Token>, j: nat): (r: Parsed<Option<Expr>>)
    ensures r.Ok? ==> j <= r.next <= |toks|
  {
    if j >= |toks| then Abort
    else if toks[j].kind == Equals then
      var e := ParseExpr(toks, j + 1, Bracket);
      if !e.Ok? then Fail(e) else Ok(Some(e.value), e.next)
    else Ok(None, j)
  }

  /** The `return` arm of `parse_stmt`. */
  function ParseReturn(toks: seq<Token>, i: nat): (r: Parsed<Stmt>)
    requires i < |toks|
    ensures r.Ok? ==> i < r.next <= |toks|
  {
    if i + 1 >= |toks| then Abort
    else
      var e: Parsed<Option<Expr>> :=
        if toks[i + 1].kind == Semicolon then Ok(None, i + 1)
        else
          var x := ParseExpr(toks, i + 1, Bracket);
          if !x.Ok? then Fail(x) else Ok(Some(x.value), x.next);
      if !e.Ok? then Fail(e)
      else
        var semi := EatOrErr(toks, e.next, Semicolon);
        if !semi.Ok? then Fail(semi)
        else Ok(ReturnS(e.value), semi.next)
  }

  /** The identifier arm of `parse_stmt`: a call or an assignment to a
      name, then `;`. */
  function ParseIdentStmt(toks: seq<Token>, i: nat): (r: Parsed<Stmt>)
    requires i < |toks|
    ensures r.Ok? ==> i < r.next <= |toks|
  {
    var name := toks[i].text;
    if i + 1 >= |toks| then Abort
    else
      var s: Parsed<Stmt> :=
        if toks[i + 1].kind == OpenBrace then
          var args := ParseArgs(toks, i + 2);
          if !args.Ok? then Fail(args) else Ok(CallS(FnCall(name, args.value)), args.next)
        else
          var eq := EatOrErr(toks, i + 1, Equals);
          if !eq.Ok? then Fail(eq)
          else
            var e := ParseExpr(toks, eq.next, Bracket);
            if !e.Ok? then Fail(e) else Ok(AssignS(AssignName(name), e.value), e.next);
      if !s.Ok? then s
      else
        var semi := EatOrErr(toks, s.next, Semicolon);
        if !semi.Ok? then Fail(semi)
        else Ok(s.value, semi.next)
  }

  /** The `*` arm of `parse_stmt`: an assignment through a pointer. */
  function ParseDerefAssign(toks: seq<Token>, i: nat): (r: Parsed<Stmt>)
    ensures r.Ok? ==> i < r.next <= |toks|
  {
    var a := ParseAssign(toks, i);
    if !a.Ok? then Fail(a)
    else
      var eq := EatOrErr(toks, a.next, Equals);
      if !eq.Ok? then Fail(eq)
      else
        var e := ParseExpr(toks, eq.next, Bracket);
        if !e.Ok? then Fail(e)
        else
          var semi := EatOrErr(toks, e.next, Semicolon);
          if !semi.Ok? then Fail(semi)
          else Ok(AssignS(a.value, e.value), semi.next)
  }

  /** `parse_if`, entered with the cursor on the condition. */
  function ParseIf(toks: seq<Token>, i: nat): (r: Parsed<If>)
    ensures r.Ok? ==> i < r.next <= |toks|
    decreases |toks| - i, 0
  {
    var cond := ParseExpr(toks, i, Bracket);
    if !cond.Ok? then Fail(cond)
    else
      var ifBlock := ParseBlock(toks, cond.next);
      if !ifBlock.Ok? then Fail(ifBlock)
      else
        var els := ElsePart(toks, ifBlock.next);
        if !els.Ok? then Fail(els)
        else Ok(IfThen(cond.value, ifBlock.value, els.value), els.next)
  }

  /** What follows the block of an `if`: `else if`, `else` and a block, or
      nothing. */
  function ElsePart(toks: seq<Token>, k: nat): (r: Parsed<Else>)
    ensures r.Ok? ==> k <= r.next <= |toks|
    ensures r.Ok? && r.value.NoElse? ==> r.next == k
    decreases |toks| - k, 0
  {
    if k >= |toks| then Abort
    else if toks[k].kind == Else then
      if k + 1 >= |toks| then Abort
      else if toks[k + 1].kind == TokenKind.If then
        var elseIf := ParseIf(toks, k + 1);
        if !elseIf.Ok? then Fail(elseIf)
        else Ok(ElseIf(elseIf.value), elseIf.next)
      else
        var elseBlock := ParseBlock(toks, k + 1);
        if !elseBlock.Ok? then Fail(elseBlock)
        else Ok(ElseBlock(elseBlock.value), elseBlock.next)
    else Ok(NoElse, k)
  }

  /** `parse_block`: `{`, statements up to `}`, and the `}`. */
  function ParseBlock(toks: seq<Token>, i: nat): (r: Parsed<Block>)
    ensures r.Ok? ==> i < r.next <= |toks|
    decreases |toks| - i, 0
  {
    var open := EatOrErr(toks, i, OpenCurlyBrace);
    if !open.Ok? then Fail(open)
    else BlockStmts(toks, [], open.next)
  }

  /** The `while` loop of `parse_block`, from cursor `j`. */
  function BlockStmts(toks: seq<Token>, stmts: seq<Stmt>, j: nat): (r: Parsed<Block>)
    ensures r.Ok? ==> j < r.next <= |toks| && toks[r.next - 1].kind == CloseCurlyBrace
    decreases |toks| - j, 2
  {
    if j >= |toks| then Abort
    else if toks[j].kind != CloseCurlyBrace then
      var s := ParseStmt(toks, j);
      if !s.Ok? then Fail(s)
      else BlockStmts(toks, stmts + [s.value], s.next)
    else Ok(Block(stmts), j + 1)
  }

  // ------------------------------------------------------- functions

  /** The item parser `parse_fn` passes to `parse_list`: `name : ty`. */
  function ParseParam(toks: seq<Token>, i: nat): (r: Parsed<Param>)
    ensures r.Ok? ==> i < r.next <= |toks|
  {
    var name := EatOrErr(toks, i, Ident);
    if !name.Ok? then Fail(name)
    else
      var colon := EatOrErr(toks, name.next, Colon);
      if !colon.Ok? then Fail(colon)
      else
        var ty := ParseTy(toks, colon.next);
        if !ty.Ok? then Fail(ty)
        else Ok(Param(name.value.text, ty.value), ty.next)
  }

  /** `parse_list(Comma, CloseBrace, ...)` over parameters. */
  function ParseParams(toks: seq<Token>, i: nat): (r: Parsed<seq<Param>>)
    ensures r.Ok? ==> i < r.next <= |toks|
  {
    if i >= |toks| then Abort
    else if toks[i].kind != CloseBrace then
      var first := ParseParam(toks, i);
      if !first.Ok? then Fail(first)
      else ParamsRest(toks, [first.value], first.next)
    else
      var close := EatOrErr(toks, i, CloseBrace);
      Ok([], close.next)
  }

  /** The `while` loop of `parse_list` for parameters, then the terminator. */
  function ParamsRest(toks: seq<Token>, items: seq<Param>, j: nat): (r: Parsed<seq<Param>>)
    ensures r.Ok? ==> j < r.next <= |toks| && |items| <= |r.value| && r.value[..|items|] == items
    ensures r.Ok? ==> toks[r.next - 1].kind == CloseBrace
    decreases |toks| - j
  {
    if j >= |toks| then Abort
    else if toks[j].kind == Comma then
      var item := ParseParam(toks, j + 1);
      if !item.Ok? then Fail(item)
      else
        var r := ParamsRest(toks, items + [item.value], item.next);
        if r.Ok? then PrefixKept(items, item.value, r.value); r else r
    else
      var close := EatOrErr(toks, j, CloseBrace);
      if !close.Ok? then Fail(close)
      else Ok(items, close.next)
  }

  /** `parse_fn`. */
  function ParseFn(toks: seq<Token>, i: nat): (r: Parsed<Func>)
    ensures r.Ok? ==> i < r.next <= |toks|
  {
    if i >= |toks| then Abort
    else
      var isExtern := toks[i].kind == Extern;
      FnDecl(toks, if isExtern then i + 1 else i, isExtern)
  }

  /** A function after its optional `extern`: `fn`, the name, `(`, then the
      rest. */
  function FnDecl(toks: seq<Token>, j: nat, isExtern: bool): (r: Parsed<Func>)
    ensures r.Ok? ==> j < r.next <= |toks|
  {
    var fn := EatOrErr(toks, j, TokenKind.Func);
    if !fn.Ok? then Fail(fn)
    else
      var name := EatOrErr(toks, fn.next, Ident);
      if !name.Ok? then Fail(name)
      else
        var open := EatOrErr(toks, name.next, OpenBrace);
        if !open.Ok? then Fail(open)
        else FnTail(toks, open.next, name.value.text, isExtern)
  }

  /** The rest of a function after its `(`: parameters, return type, body. */
  function FnTail(toks: seq<Token>, j: nat, name: string, isExtern: bool): (r: Parsed<Func>)
    ensures r.Ok? ==> j < r.next <= |toks|
    ensures r.Ok? ==> r.value.fnName == name && r.value.isExtern == isExtern
  {
    var params := ParseParams(toks, j);
    if !params.Ok? then Fail(params)
    else
      var ret := OptionalTy(toks, params.next);
      if !ret.Ok? then Fail(ret)
      else
        var body := OptionalBody(toks, ret.next);
        if !body.Ok? then Fail(body)
        else Ok(FuncDecl(body.value, params.value, ret.value, name, isExtern), body.next)
  }

  /** A block, when the current token opens one. */
  function OptionalBody(toks: seq<Token>, j: nat): (r: Parsed<Option<Block>>)
    ensures r.Ok? ==> j <= r.next <= |toks|
    ensures r.Ok? && r.value.None? ==> r.next == j < |toks|
  {
    if j >= |toks| then Abort
    else if toks[j].kind == OpenCurlyBrace then
      var b := ParseBlock(toks, j);
      if !b.Ok? then Fail(b) else Ok(Some(b.value), b.next)
    else Ok(None, j)
  }

  /** `parse`: functions until the tokens run out, from cursor `i` with
      `fns` parsed so far. */
  function ParseFns(toks: seq<Token>, fns: seq<Func>, i: nat): (r: Parsed<seq<Func>>)
    ensures r.Ok? ==> r.next == if i < |toks| then |toks| else i
    ensures r.Ok? ==> |fns| <= |r.value| && r.value[..|fns|] == fns
    decreases |toks| - i
  {
    if i >= |toks| then Ok(fns, i)
    else
      var f := ParseFn(toks, i);
      if !f.Ok? then Fail(f)
      else
        var r := ParseFns(toks, fns + [f.value], f.next);
        if r.Ok? then PrefixKept(fns, f.value, r.value); r else r
  }

  /** A sequence that starts with `items + [x]` starts with `items`. */
  lemma PrefixKept<T>(items: seq<T>, x: T, r: seq<T>)
    requires |items| + 1 <= |r| && r[..|items| + 1] == items + [x]
    ensures |items| <= |r| && r[..|items|] == items
  {
    assert r[..|items|] == r[..|items| + 1][..|items|];
  }

  // ------------------------------------------------------ properties

  /** `parse_list` over arguments: the list is empty exactly when the first
      token is the terminator; the terminator is always consumed; after an
      item, a token that is neither separator nor terminator is an error. */
  lemma ArgsListShape(toks: seq<Token>, i: nat)
    requires ParseArgs(toks, i).Ok?
    ensures var r := ParseArgs(toks, i);
      && toks[r.next - 1].kind == CloseBrace
      && (r.value == [] <==> toks[i].kind == CloseBrace)
      && (r.value == [] ==> r.next == i + 1)
  {
  }

  lemma ArgsMissingTerminator(toks: seq<Token>, items: seq<Expr>, j: nat)
    requires j < |toks| && toks[j].kind != Comma && toks[j].kind != CloseBrace
    ensures ArgsRest(toks, items, j) == Err(toks[j])
  {
  }

  /** `parse_list` over parameters: the same three promises as for
      arguments. */
  lemma ParamsListShape(toks: seq<Token>, i: nat)
    requires ParseParams(toks, i).Ok?
    ensures var r := ParseParams(toks, i);
      && toks[r.next - 1].kind == CloseBrace
      && (r.value == [] <==> toks[i].kind == CloseBrace)
      && (r.value == [] ==> r.next == i + 1)
  {
  }

  lemma ParamsMissingTerminator(toks: seq<Token>, items: seq<Param>, j: nat)
    requires j < |toks| && toks[j].kind != Comma && toks[j].kind != CloseBrace
    ensures ParamsRest(toks, items, j) == Err(toks[j])
  {
  }

  /** A same-level chain nests to the right: once an operator of the
      current level is taken, its right operand, parsed at that same level,
      takes the rest of the chain and the loop ends. */
  lemma {:induction false} SameLevelNestsRight(toks: seq<Token>, i: nat, prec: Prec)
    requires ExprAtom(toks, i).Ok?
    requires var j := ExprAtom(toks, i).next;
      j < |toks| && InfixOf(toks[j].kind, prec).Some? && InfixOf(toks[j].kind, prec).value.1 == prec
      && ParseExpr(toks, j + 1, prec).Ok?
    ensures var j := ExprAtom(toks, i).next;
      var rhs := ParseExpr(toks, j + 1, prec);
      ParseExpr(toks, i, prec) == Ok(Infix(ExprAtom(toks, i).value, rhs.value, InfixOf(toks[j].kind, prec).value.0), rhs.next)
  {
    var atom := ExprAtom(toks, i);
    var j := atom.next;
    var op := InfixOf(toks[j].kind, prec).value.0;
    var rhs := ParseExpr(toks, j + 1, prec);
    assert ParseInfix(toks, atom.value, j, op, prec) == Ok(Infix(atom.value, rhs.value, op), rhs.next);
    assert InfixLoop(toks, Infix(atom.value, rhs.value, op), rhs.next, prec) == Ok(Infix(atom.value, rhs.value, op), rhs.next);
  }

  /** The operand of a prefix `*` or `&` is parsed at the level no operator
      is admitted at: it is exactly the operand `parse_expr` starts with. */
  lemma PrefixOperandIsAtom(toks: seq<Token>, i: nat, op: PrefixOp)
    requires i < |toks|
    requires ExprAtom(toks, i + 1).Ok? && ExprAtom(toks, i + 1).next < |toks|
    ensures ParsePrefix(toks, i, op, RefPrec) == Ok(Prefix(op, ExprAtom(toks, i + 1).value), ExprAtom(toks, i + 1).next)
  {
    var atom := ExprAtom(toks, i + 1);
    assert InfixLoop(toks, atom.value, atom.next, RefPrec) == Ok(atom.value, atom.next);
  }

  function Tok(kind: TokenKind, text: string): Token
  {
    Token(kind, text)
  }

  /** A name not followed by `(` is an operand on its own. */
  lemma NameOperand(toks: seq<Token>, i: nat, prec: Prec)
    requires i + 1 < |toks| && toks[i].kind == Ident && toks[i + 1].kind != OpenBrace
    ensures ParseExpr(toks, i, prec) == InfixLoop(toks, Name(toks[i].text), i + 1, prec)
  {
    assert ExprAtom(toks, i) == NameOrCall(toks, i) == Ok(Name(toks[i].text), i + 1);
  }

  /** The operator loop stops at a token not admitted at `prec`. */
  lemma LoopStops(toks: seq<Token>, left: Expr, j: nat, prec: Prec)
    requires j < |toks| && InfixOf(toks[j].kind, prec).None?
    ensures InfixLoop(toks, left, j, prec) == Ok(left, j)
  {
  }

  /** The operator loop takes an admitted operator and its right operand. */
  lemma LoopTakes(toks: seq<Token>, left: Expr, j: nat, prec: Prec, op: InfixOp, opPrec: Prec)
    requires j < |toks| && InfixOf(toks[j].kind, prec) == Some((op, opPrec))
    requires ParseExpr(toks, j + 1, opPrec).Ok?
    ensures var rhs := ParseExpr(toks, j + 1, opPrec);
      InfixLoop(toks, left, j, prec) == InfixLoop(toks, Infix(left, rhs.value, op), rhs.next, prec)
  {
  }

  /** Names `a`, `b`, `c` at `i`, `i + 2`, `i + 4` of `toks`, followed by a
      token that neither calls nor continues the expression. */
  predicate ThreeNames(toks: seq<Token>, i: nat)
  {
    && i + 5 < |toks|
    && toks[i].kind == Ident && toks[i + 2].kind == Ident && toks[i + 4].kind == Ident
    && toks[i + 5].kind != OpenBrace && OperatorLevel(toks[i + 5].kind).None?
  }

  /** `a - b - c` parses as `a - (b - c)`. */
  lemma SubtractionNestsRight(toks: seq<Token>, i: nat)
    requires ThreeNames(toks, i) && toks[i + 1].kind == Minus && toks[i + 3].kind == Minus
    ensures var a, b, c := Name(toks[i].text), Name(toks[i + 2].text), Name(toks[i + 4].text);
      ParseExpr(toks, i, Bracket) == Ok(Infix(a, Infix(b, c, Subtract), Subtract), i + 5)
  {
    var a, b, c := Name(toks[i].text), Name(toks[i + 2].text), Name(toks[i + 4].text);
    NameOperand(toks, i + 4, Sum);
    LoopStops(toks, c, i + 5, Sum);
    NameOperand(toks, i + 2, Sum);
    LoopTakes(toks, b, i + 3, Sum, Subtract, Sum);
    LoopStops(toks, Infix(b, c, Subtract), i + 5, Sum);
    NameOperand(toks, i, Bracket);
    LoopTakes(toks, a, i + 1, Bracket, Subtract, Sum);
    LoopStops(toks, Infix(a, Infix(b, c, Subtract), Subtract), i + 5, Bracket);
  }

  /** `a + b * c` parses as `a + (b * c)`. */
  lemma ProductBindsTighter(toks: seq<Token>, i: nat)
    requires ThreeNames(toks, i) && toks[i + 1].kind == Plus && toks[i + 3].kind == Asterisk
    ensures var a, b, c := Name(toks[i].text), Name(toks[i + 2].text), Name(toks[i + 4].text);
      ParseExpr(toks, i, Bracket) == Ok(Infix(a, Infix(b, c, Multiply), Add), i + 5)
  {
    var a, b, c := Name(toks[i].text), Name(toks[i + 2].text), Name(toks[i + 4].text);
    NameOperand(toks, i + 4, Product);
    LoopStops(toks, c, i + 5, Product);
    NameOperand(toks, i + 2, Sum);
    LoopTakes(toks, b, i + 3, Sum, Multiply, Product);
    LoopStops(toks, Infix(b, c, Multiply), i + 5, Sum);
    NameOperand(toks, i, Bracket);
    LoopTakes(toks, a, i + 1, Bracket, Add, Sum);
    LoopStops(toks, Infix(a, Infix(b, c, Multiply), Add), i + 5, Bracket);
  }

  /** `a * b + c` parses as `(a * b) + c`. */
  lemma ProductBindsTighterLeft(toks: seq<Token>, i: nat)
    requires ThreeNames(toks, i) && toks[i + 1].kind == Asterisk && toks[i + 3].kind == Plus
    ensures var a, b, c := Name(toks[i].text), Name(toks[i + 2].text), Name(toks[i + 4].text);
      ParseExpr(toks, i, Bracket) == Ok(Infix(Infix(a, b, Multiply), c, Add), i + 5)
  {
    var a, b, c := Name(toks[i].text), Name(toks[i + 2].text), Name(toks[i + 4].text);
    NameOperand(toks, i + 2, Product);
    LoopStops(toks, b, i + 3, Product);
    NameOperand(toks, i + 4, Sum);
    LoopStops(toks, c, i + 5, Sum);
    NameOperand(toks, i, Bracket);
    LoopTakes(toks, a, i + 1, Bracket, Multiply, Product);
    LoopTakes(toks, Infix(a, b, Multiply), i + 3, Bracket, Add, Sum);
    LoopStops(toks, Infix(Infix(a, b, Multiply), c, Add), i + 5, Bracket);
  }

  /** As written, a parenthesised expression consumes `(`, the expression,
      `)` and then one more token, whatever that token is. */
  lemma ParenSkipsNextToken(toks: seq<Token>, i: nat)
    requires i < |toks| && toks[i].kind == OpenBrace
    requires ParseExpr(toks, i + 1, Bracket).Ok?
    requires var j := ParseExpr(toks, i + 1, Bracket).next;
      toks[j].kind == CloseBrace && j + 1 < |toks|
    ensures ExprAtom(toks, i) == Ok(ParseExpr(toks, i + 1, Bracket).value, ParseExpr(toks, i + 1, Bracket).next + 2)
  {
  }

  /** So `(a) + b` parses as `a` alone: the `+` is skipped and the
      expression ends before `b`. */
  lemma ParenthesisedOperandDropsOperator()
    ensures var toks := [Tok(OpenBrace, "("), Tok(Ident, "a"), Tok(CloseBrace, ")"), Tok(Plus, "+"), Tok(Ident, "b"), Tok(Semicolon, ";")];
      ParseExpr(toks, 0, Bracket) == Ok(Name("a"), 4)
  {
    var toks := [Tok(OpenBrace, "("), Tok(Ident, "a"), Tok(CloseBrace, ")"), Tok(Plus, "+"), Tok(Ident, "b"), Tok(Semicolon, ";")];
    assert ParseExpr(toks, 1, Bracket) == Ok(Name("a"), 2);
    assert ExprAtom(toks, 0) == Ok(Name("a"), 4);
  }

  /** The number of `&` around a type name. */
  function RefDepth(t: Ty): nat
  {
    match t
    case TyName(_) => 0
    case TyRef(p) => 1 + RefDepth(p)
  }

  function BaseName(t: Ty): string
  {
    match t
    case TyName(n) => n
    case TyRef(p) => BaseName(p)
  }

  /** `parse_ty` accepts exactly `&`* followed by a name: the `&` count is the
      `Ref` depth, and the first token that is neither is the error. */
  lemma {:induction false} ParseTyShape(toks: seq<Token>, i: nat, n: nat)
    requires i + n < |toks| && forall m :: i <= m < i + n ==> toks[m].kind == Ampersand
    requires toks[i + n].kind != Ampersand
    ensures toks[i + n].kind == Ident ==>
      && ParseTy(toks, i).Ok? && ParseTy(toks, i).next == i + n + 1
      && RefDepth(ParseTy(toks, i).value) == n && BaseName(ParseTy(toks, i).value) == toks[i + n].text
    ensures toks[i + n].kind != Ident ==> ParseTy(toks, i) == Err(toks[i + n])
    decreases n
  {
    if n > 0 {
      ParseTyShape(toks, i + 1, n - 1);
    }
  }

  /** How many `*` an assignment target dereferences. */
  function DerefDepth(a: Assign): nat
  {
    match a
    case AssignName(_) => 0
    case AssignDeref(inner) => 1 + DerefDepth(inner)
  }

  /** The name an assignment target ends in. */
  function TargetName(a: Assign): string
  {
    match a
    case AssignName(n) => n
    case AssignDeref(inner) => TargetName(inner)
  }

  /** `parse_assign` accepts exactly `*`* followed by a name: the `*` count
      is the `Deref` depth, and the first token that is neither is the
      error. */
  lemma {:induction false} ParseAssignShape(toks: seq<Token>, i: nat, n: nat)
    requires i + n < |toks| && forall m :: i <= m < i + n ==> toks[m].kind == Asterisk
    requires toks[i + n].kind != Asterisk
    ensures toks[i + n].kind == Ident ==>
      && ParseAssign(toks, i).Ok? && ParseAssign(toks, i).next == i + n + 1
      && DerefDepth(ParseAssign(toks, i).value) == n && TargetName(ParseAssign(toks, i).value) == toks[i + n].text
    ensures toks[i + n].kind != Ident ==> ParseAssign(toks, i) == Err(toks[i + n])
    decreases n
  {
    if n > 0 {
      ParseAssignShape(toks, i + 1, n - 1);
    }
  }

  /** A `var` statement is `var`, a name, an optional `: ty`, an optional
      `= expr`, and `;`. */
  lemma VarStmtShape(toks: seq<Token>, i: nat)
    requires i < |toks| && toks[i].kind == Var && ParseStmt(toks, i).Ok?
    ensures var r, t := ParseStmt(toks, i), OptionalTy(toks, i + 2);
            var n := OptionalInit(toks, t.next).next;
      && r.value.Let?
      && i + 2 < |toks| && toks[i + 1].kind == Ident && r.value.ident == toks[i + 1].text
      && (r.value.declTy.Some? <==> toks[i + 2].kind == Colon)
      && (r.value.declTy.Some? ==> r.value.declTy == Some(ParseTy(toks, i + 3).value) && t.next == ParseTy(toks, i + 3).next)
      && t.Ok? && t.next < |toks|
      && (r.value.init.Some? <==> toks[t.next].kind == Equals)
      && (r.value.init.Some? ==> r.value.init == Some(ParseExpr(toks, t.next + 1, Bracket).value)
                                 && n == ParseExpr(toks, t.next + 1, Bracket).next)
      && n < |toks| && toks[n].kind == Semicolon && r.next == n + 1
      && (r.value.declTy.None? && r.value.init.None? ==> r.next == i + 3)
  {
  }

  /** A `return` statement is `return`, an optional expression, and `;`. */
  lemma ReturnStmtShape(toks: seq<Token>, i: nat)
    requires i < |toks| && toks[i].kind == Return && ParseStmt(toks, i).Ok?
    ensures var r := ParseStmt(toks, i);
      && r.value.ReturnS?
      && toks[r.next - 1].kind == Semicolon
      && (r.value.result.None? <==> toks[i + 1].kind == Semicolon)
      && (r.value.result.None? ==> r.next == i + 2)
  {
    var r := ParseStmt(toks, i);
    if toks[i + 1].kind != Semicolon {
      assert ParseExpr(toks, i + 1, Bracket).Ok?;
    }
  }

  /** As written, `else if` is never accepted: `parse_if` is entered with the
      cursor still on the `if`, which no expression starts with. */
  lemma ElseIfRejected(toks: seq<Token>, i: nat)
    requires ParseExpr(toks, i, Bracket).Ok? && ParseBlock(toks, ParseExpr(toks, i, Bracket).next).Ok?
    requires var k := ParseBlock(toks, ParseExpr(toks, i, Bracket).next).next;
      k + 1 < |toks| && toks[k].kind == Else && toks[k + 1].kind == TokenKind.If
    ensures var k := ParseBlock(toks, ParseExpr(toks, i, Bracket).next).next;
      ParseIf(toks, i) == Err(toks[k + 1])
  {
    var k := ParseBlock(toks, ParseExpr(toks, i, Bracket).next).next;
    assert ExprAtom(toks, k + 1) == Err(toks[k + 1]);
    assert ParseIf(toks, k + 1) == Err(toks[k + 1]);
  }

  /** A function without a body parses only when another token follows it:
      at the end of the input, looking for the body reads past the end. */
  lemma BodilessFnNeedsFollower(toks: seq<Token>, i: nat)
    requires ParseFn(toks, i).Ok? && ParseFn(toks, i).value.fnBody.None?
    ensures ParseFn(toks, i).next < |toks|
  {
  }
}
