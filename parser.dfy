/** The parser of src/parser.rs: a cursor over a token array, advanced by
    the parse methods. Every method is proved to return what the matching
    function of `Grammar` gives from the cursor it starts at, and to leave
    the cursor where that function says. */
module Parsing {
  import opened Grammar

  /** What a parse method returns: the parsed value, a parse error with
      the offending token, or a panic (a token read past the end). */
  datatype Result<T> = Success(value: T) | Failure(token: Token) | Panic

  function Forget<T>(p: Parsed<T>): (r: Result<T>)
    ensures r.Success? <==> p.Ok?
    ensures p.Ok? ==> r.value == p.value
    ensures r.Failure? <==> p.Err?
    ensures p.Err? ==> r.token == p.token
  {
    match p
    case Ok(v, _) => Success(v)
    case Err(t) => Failure(t)
    case Abort => Panic
  }

  function Lift<A, B>(r: Result<A>): (s: Result<B>)
    requires !r.Success?
    ensures s.Failure? <==> r.Failure?
    ensures r.Failure? ==> s.token == r.token
  {
    if r.Failure? then Failure(r.token) else Panic
  }

  class Parser {
    const tokens: seq<Token>
    var index: nat

    constructor (tokens: seq<Token>)
      ensures this.tokens == tokens && index == 0
    {
      this.tokens := tokens;
      index := 0;
    }

    /** `r` is what `p` gives, and the cursor is where `p` leaves it. */
    ghost predicate Agrees<T>(r: Result<T>, p: Parsed<T>)
      reads this
    {
      r == Forget(p) && (p.Ok? ==> index == p.next)
    }

    method Next() returns (r: Result<Token>)
      requires index <= |tokens|
      modifies this
      ensures index <= |tokens|
      ensures old(index) < |tokens| ==> r == Success(tokens[old(index)]) && index == old(index) + 1
      ensures old(index) >= |tokens| ==> r == Panic
    {
      if index >= |tokens| {
        return Panic;
      }
      r := Success(tokens[index]);
      index := index + 1;
    }

    method Peek() returns (r: Result<TokenKind>)
      ensures index < |tokens| ==> r == Success(tokens[index].kind)
      ensures index >= |tokens| ==> r == Panic
    {
      if index >= |tokens| {
        return Panic;
      }
      r := Success(tokens[index].kind);
    }

    method UnexpectedToken<T>() returns (r: Result<T>)
      ensures index < |tokens| ==> r == Failure(tokens[index])
      ensures index >= |tokens| ==> r == Panic
    {
      if index >= |tokens| {
        return Panic;
      }
      r := Failure(tokens[index]);
    }

    /** Takes the current token if it has kind `kind`, and moves past it;
        otherwise the cursor stays where it is. */
    method EatOrErr(kind: TokenKind) returns (r: Result<Token>)
      requires index <= |tokens|
      modifies this
      ensures index <= |tokens|
      ensures Agrees(r, Grammar.EatOrErr(tokens, old(index), kind))
      ensures !r.Success? ==> index == old(index)
    {
      var k := Peek();
      if k == Success(kind) {
        r := Next();
      } else {
        r := UnexpectedToken();
      }
    }

    // ---------------------------------------------------- expressions

    method ParseExpr(prec: Prec) returns (r: Result<Expr>)
      requires index <= |tokens|
      modifies this
      ensures index <= |tokens|
      ensures Agrees(r, Grammar.ParseExpr(tokens, old(index), prec))
      decreases |tokens| - index, 2
    {
      var left := ParseOperand();
      if !left.Success? {
        return Lift(left);
      }
      var e := left.value;
      while true
        invariant index <= |tokens|
        invariant InfixLoop(tokens, e, index, prec) == Grammar.ParseExpr(tokens, old(index), prec)
        decreases |tokens| - index
      {
        var k := Peek();
        if k.Panic? {
          return Panic;
        }
        match InfixOf(k.value, prec) {
          case None =>
            return Success(e);
          case Some((op, opPrec)) =>
            var next := ParseInfix(e, op, opPrec);
            if !next.Success? {
              return Lift(next);
            }
            e := next.value;
        }
      }
    }

    /** The `match` that starts `parse_expr`: an operand. */
    method ParseOperand() returns (r: Result<Expr>)
      requires index <= |tokens|
      modifies this
      ensures index <= |tokens|
      ensures Agrees(r, ExprAtom(tokens, old(index)))
      decreases |tokens| - index, 1
    {
      var k := Peek();
      if k.Panic? {
        return Panic;
      }
      match k.value {
        case Asterisk =>
          r := ParsePrefix(Deref, RefPrec);
        case Ampersand =>
          r := ParsePrefix(Ref, RefPrec);
        case Ident =>
          r := ParseNameOrCall();
        case Integer =>
          var t := Next();
          r := Success(IntLit(t.value.text));
        case True =>
          var _ := Next();
          r := Success(BoolLit(true));
        case False =>
          var _ := Next();
          r := Success(BoolLit(false));
        case OpenBrace =>
          r := ParseParen();
        case _ =>
          r := UnexpectedToken();
      }
    }

    /** The identifier arm of the operand `match`. */
    method ParseNameOrCall() returns (r: Result<Expr>)
      requires index < |tokens|
      modifies this
      ensures index <= |tokens|
      ensures Agrees(r, NameOrCall(tokens, old(index)))
      decreases |tokens| - index, 0
    {
      var ident := Next();
      var k := Peek();
      if k.Panic? {
        return Panic;
      }
      if k.value == OpenBrace {
        var _ := Next();
        var args := ParseArgs();
        if !args.Success? {
          return Lift(args);
        }
        r := Success(Call(FnCall(ident.value.text, args.value)));
      } else {
        r := Success(Name(ident.value.text));
      }
    }

    /** The parenthesis arm of the operand `match`, with its extra `next`. */
    method ParseParen() returns (r: Result<Expr>)
      requires index < |tokens|
      modifies this
      ensures index <= |tokens|
      ensures Agrees(r, ParenExpr(tokens, old(index)))
      decreases |tokens| - index, 0
    {
      var _ := Next();
      var inner := ParseExpr(Bracket);
      if !inner.Success? {
        return Lift(inner);
      }
      var close := EatOrErr(CloseBrace);
      if !close.Success? {
        return Lift(close);
      }
      var extra := Next();
      if extra.Panic? {
        return Panic;
      }
      r := Success(inner.value);
    }

    method ParsePrefix(op: PrefixOp, prec: Prec) returns (r: Result<Expr>)
      requires index < |tokens|
      modifies this
      ensures index <= |tokens|
      ensures Agrees(r, Grammar.ParsePrefix(tokens, old(index), op, prec))
      decreases |tokens| - index, 0
    {
      var _ := Next();
      var operand := ParseExpr(prec);
      if !operand.Success? {
        return Lift(operand);
      }
      r := Success(Prefix(op, operand.value));
    }

    method ParseInfix(left: Expr, op: InfixOp, prec: Prec) returns (r: Result<Expr>)
      requires index < |tokens|
      modifies this
      ensures index <= |tokens|
      ensures Agrees(r, Grammar.ParseInfix(tokens, left, old(index), op, prec))
      decreases |tokens| - index, 0
    {
      var _ := Next();
      var right := ParseExpr(prec);
      if !right.Success? {
        return Lift(right);
      }
      r := Success(Infix(left, right.value, op));
    }

    /** `parse_list` with `parse_expr(Bracket)` items: call arguments. */
    method ParseArgs() returns (r: Result<seq<Expr>>)
      requires index <= |tokens|
      modifies this
      ensures index <= |tokens|
      ensures Agrees(r, Grammar.ParseArgs(tokens, old(index)))
      decreases |tokens| - index, 3
    {
      var k := Peek();
      if k.Panic? {
        return Panic;
      }
      if k.value != CloseBrace {
        var first := ParseExpr(Bracket);
        if !first.Success? {
          return Lift(first);
        }
        r := ParseArgsRest([first.value]);
      } else {
        var _ := Next();
        r := Success([]);
      }
    }

    /** The `sep`-separated tail of `parse_list` with expression items,
        and its terminator. */
    method ParseArgsRest(items: seq<Expr>) returns (r: Result<seq<Expr>>)
      requires index <= |tokens|
      modifies this
      ensures index <= |tokens|
      ensures Agrees(r, ArgsRest(tokens, items, old(index)))
      decreases |tokens| - index, 0
    {
      var parsed := items;
      while true
        invariant index <= |tokens|
        invariant ArgsRest(tokens, parsed, index) == ArgsRest(tokens, items, old(index))
        decreases |tokens| - index
      {
        var sep := Peek();
        if sep != Success(Comma) {
          break;
        }
        var _ := Next();
        var item := ParseExpr(Bracket);
        if !item.Success? {
          return Lift(item);
        }
        parsed := parsed + [item.value];
      }
      var close := EatOrErr(CloseBrace);
      if !close.Success? {
        return Lift(close);
      }
      r := Success(parsed);
    }

    // ------------------------------------------------- types, targets

    method ParseTy() returns (r: Result<Ty>)
      requires index <= |tokens|
      modifies this
      ensures index <= |tokens|
      ensures Agrees(r, Grammar.ParseTy(tokens, old(index)))
      decreases |tokens| - index
    {
      var k := Peek();
      if k.Panic? {
        return Panic;
      }
      match k.value {
        case Ampersand =>
          var _ := Next();
          var t := ParseTy();
          if !t.Success? {
            return Lift(t);
          }
          r := Success(TyRef(t.value));
        case Ident =>
          var t := Next();
          r := Success(TyName(t.value.text));
        case _ =>
          r := UnexpectedToken();
      }
    }

    method ParseAssign() returns (r: Result<Assign>)
      requires index <= |tokens|
      modifies this
      ensures index <= |tokens|
      ensures Agrees(r, Grammar.ParseAssign(tokens, old(index)))
      decreases |tokens| - index
    {
      var k := Peek();
      if k.Panic? {
        return Panic;
      }
      match k.value {
        case Asterisk =>
          var _ := Next();
          var a := ParseAssign();
          if !a.Success? {
            return Lift(a);
          }
          r := Success(AssignDeref(a.value));
        case Ident =>
          var t := Next();
          r := Success(AssignName(t.value.text));
        case _ =>
          r := UnexpectedToken();
      }
    }

    // ----------------------------------------------------- statements

    method ParseStmt() returns (r: Result<Stmt>)
      requires index <= |tokens|
      modifies this
      ensures index <= |tokens|
      ensures Agrees(r, Grammar.ParseStmt(tokens, old(index)))
      decreases |tokens| - index, 1
    {
      var k := Peek();
      if k.Panic? {
        return Panic;
      }
      match k.value {
        case If =>
          var _ := Next();
          var f := ParseIf();
          if !f.Success? {
            return Lift(f);
          }
          r := Success(IfS(f.value));
        case While =>
          r := ParseWhile();
        case Var =>
          r := ParseVar();
        case Return =>
          r := ParseReturn();
        case Ident =>
          r := ParseIdentStmt();
        case Asterisk =>
          r := ParseDerefAssign();
        case _ =>
          r := UnexpectedToken();
      }
    }

    /** The `while` arm of `parse_stmt`. */
    method ParseWhile() returns (r: Result<Stmt>)
      requires index < |tokens|
      modifies this
      ensures index <= |tokens|
      ensures Agrees(r, Grammar.ParseWhile(tokens, old(index)))
      decreases |tokens| - index, 0
    {
      var _ := Next();
      var cond := ParseExpr(Bracket);
      if !cond.Success? {
        return Lift(cond);
      }
      var body := ParseBlock();
      if !body.Success? {
        return Lift(body);
      }
      r := Success(WhileS(cond.value, body.value));
    }

    /** The `var` arm of `parse_stmt`. */
    method ParseVar() returns (r: Result<Stmt>)
      requires index < |tokens|
      modifies this
      ensures index <= |tokens|
      ensures Agrees(r, Grammar.ParseVar(tokens, old(index)))
    {
      var _ := Next();
      var ident := EatOrErr(Ident);
      if !ident.Success? {
        return Lift(ident);
      }
      var ty := ParseOptionalTy();
      if !ty.Success? {
        return Lift(ty);
      }
      var init := ParseOptionalInit();
      if !init.Success? {
        return Lift(init);
      }
      var semi := EatOrErr(Semicolon);
      if !semi.Success? {
        return Lift(semi);
      }
      r := Success(Let(ident.value.text, init.value, ty.value));
    }

    /** `= expr` after a declared name, when present. */
    method ParseOptionalInit() returns (r: Result<Option<Expr>>)
      requires index <= |tokens|
      modifies this
      ensures index <= |tokens|
      ensures Agrees(r, OptionalInit(tokens, old(index)))
    {
      var k := Peek();
      if k.Panic? {
        return Panic;
      }
      if k.value == Equals {
        var _ := Next();
        var e := ParseExpr(Bracket);
        if !e.Success? {
          return Lift(e);
        }
        r := Success(Some(e.value));
      } else {
        r := Success(None);
      }
    }

    /** The `return` arm of `parse_stmt`. */
    method ParseReturn() returns (r: Result<Stmt>)
      requires index < |tokens|
      modifies this
      ensures index <= |tokens|
      ensures Agrees(r, Grammar.ParseReturn(tokens, old(index)))
    {
      var _ := Next();
      var k := Peek();
      if k.Panic? {
        return Panic;
      }
      var result: Option<Expr> := None;
      if k.value != Semicolon {
        var e := ParseExpr(Bracket);
        if !e.Success? {
          return Lift(e);
        }
        result := Some(e.value);
      }
      var semi := EatOrErr(Semicolon);
      if !semi.Success? {
        return Lift(semi);
      }
      r := Success(ReturnS(result));
    }

    /** The identifier arm of `parse_stmt`: a call or an assignment. */
    method ParseIdentStmt() returns (r: Result<Stmt>)
      requires index < |tokens|
      modifies this
      ensures index <= |tokens|
      ensures Agrees(r, Grammar.ParseIdentStmt(tokens, old(index)))
    {
      var name := Next();
      var k := Peek();
      if k.Panic? {
        return Panic;
      }
      var stmt: Stmt;
      if k.value == OpenBrace {
        var _ := Next();
        var args := ParseArgs();
        if !args.Success? {
          return Lift(args);
        }
        stmt := CallS(FnCall(name.value.text, args.value));
      } else {
        var eq := EatOrErr(Equals);
        if !eq.Success? {
          return Lift(eq);
        }
        var e := ParseExpr(Bracket);
        if !e.Success? {
          return Lift(e);
        }
        stmt := AssignS(AssignName(name.value.text), e.value);
      }
      var semi := EatOrErr(Semicolon);
      if !semi.Success? {
        return Lift(semi);
      }
      r := Success(stmt);
    }

    /** The `*` arm of `parse_stmt`: an assignment through a pointer. */
    method ParseDerefAssign() returns (r: Result<Stmt>)
      requires index <= |tokens|
      modifies this
      ensures index <= |tokens|
      ensures Agrees(r, Grammar.ParseDerefAssign(tokens, old(index)))
    {
      var a := ParseAssign();
      if !a.Success? {
        return Lift(a);
      }
      var eq := EatOrErr(Equals);
      if !eq.Success? {
        return Lift(eq);
      }
      var e := ParseExpr(Bracket);
      if !e.Success? {
        return Lift(e);
      }
      var semi := EatOrErr(Semicolon);
      if !semi.Success? {
        return Lift(semi);
      }
      r := Success(AssignS(a.value, e.value));
    }

    method ParseIf() returns (r: Result<If>)
      requires index <= |tokens|
      modifies this
      ensures index <= |tokens|
      ensures Agrees(r, Grammar.ParseIf(tokens, old(index)))
      decreases |tokens| - index, 0
    {
      var cond := ParseExpr(Bracket);
      if !cond.Success? {
        return Lift(cond);
      }
      var ifBlock := ParseBlock();
      if !ifBlock.Success? {
        return Lift(ifBlock);
      }
      var els := ParseElse();
      if !els.Success? {
        return Lift(els);
      }
      r := Success(IfThen(cond.value, ifBlock.value, els.value));
    }

    /** The `else` part of `parse_if`. */
    method ParseElse() returns (r: Result<Else>)
      requires index <= |tokens|
      modifies this
      ensures index <= |tokens|
      ensures Agrees(r, ElsePart(tokens, old(index)))
      decreases |tokens| - index, 0
    {
      var k := Peek();
      if k.Panic? {
        return Panic;
      }
      if k.value == Else {
        var _ := Next();
        var k2 := Peek();
        if k2.Panic? {
          return Panic;
        }
        if k2.value == TokenKind.If {
          var elseIf := ParseIf();
          if !elseIf.Success? {
            return Lift(elseIf);
          }
          r := Success(ElseIf(elseIf.value));
        } else {
          var b := ParseBlock();
          if !b.Success? {
            return Lift(b);
          }
          r := Success(ElseBlock(b.value));
        }
      } else {
        r := Success(NoElse);
      }
    }

    method ParseBlock() returns (r: Result<Block>)
      requires index <= |tokens|
      modifies this
      ensures index <= |tokens|
      ensures Agrees(r, Grammar.ParseBlock(tokens, old(index)))
      decreases |tokens| - index, 0
    {
      var open := EatOrErr(OpenCurlyBrace);
      if !open.Success? {
        return Lift(open);
      }
      var stmts: seq<Stmt> := [];
      while true
        invariant index <= |tokens|
        invariant BlockStmts(tokens, stmts, index) == Grammar.ParseBlock(tokens, old(index))
        decreases |tokens| - index
      {
        var k := Peek();
        if k.Panic? {
          return Panic;
        }
        if k.value == CloseCurlyBrace {
          break;
        }
        var s := ParseStmt();
        if !s.Success? {
          return Lift(s);
        }
        stmts := stmts + [s.value];
      }
      var _ := Next();
      r := Success(Block(stmts));
    }

    // ------------------------------------------------------ functions

    /** The item parser `parse_fn` hands to `parse_list`. */
    method ParseParam() returns (r: Result<Param>)
      requires index <= |tokens|
      modifies this
      ensures index <= |tokens|
      ensures Agrees(r, Grammar.ParseParam(tokens, old(index)))
    {
      var name := EatOrErr(Ident);
      if !name.Success? {
        return Lift(name);
      }
      var colon := EatOrErr(Colon);
      if !colon.Success? {
        return Lift(colon);
      }
      var ty := ParseTy();
      if !ty.Success? {
        return Lift(ty);
      }
      r := Success(Param(name.value.text, ty.value));
    }

    /** `parse_list` with parameter items. */
    method ParseParams() returns (r: Result<seq<Param>>)
      requires index <= |tokens|
      modifies this
      ensures index <= |tokens|
      ensures Agrees(r, Grammar.ParseParams(tokens, old(index)))
    {
      var k := Peek();
      if k.Panic? {
        return Panic;
      }
      if k.value != CloseBrace {
        var first := ParseParam();
        if !first.Success? {
          return Lift(first);
        }
        r := ParseParamsRest([first.value]);
      } else {
        var _ := Next();
        r := Success([]);
      }
    }

    /** The `sep`-separated tail of `parse_list` with parameter items, and
        its terminator. */
    method ParseParamsRest(items: seq<Param>) returns (r: Result<seq<Param>>)
      requires index <= |tokens|
      modifies this
      ensures index <= |tokens|
      ensures Agrees(r, ParamsRest(tokens, items, old(index)))
    {
      var parsed := items;
      while true
        invariant index <= |tokens|
        invariant ParamsRest(tokens, parsed, index) == ParamsRest(tokens, items, old(index))
        decreases |tokens| - index
      {
        var sep := Peek();
        if sep != Success(Comma) {
          break;
        }
        var _ := Next();
        var item := ParseParam();
        if !item.Success? {
          return Lift(item);
        }
        parsed := parsed + [item.value];
      }
      var close := EatOrErr(CloseBrace);
      if !close.Success? {
        return Lift(close);
      }
      r := Success(parsed);
    }

    method ParseFn() returns (r: Result<Func>)
      requires index <= |tokens|
      modifies this
      ensures index <= |tokens|
      ensures Agrees(r, Grammar.ParseFn(tokens, old(index)))
    {
      var k := Peek();
      if k.Panic? {
        return Panic;
      }
      var isExtern := false;
      if k.value == Extern {
        var _ := Next();
        isExtern := true;
      }
      r := ParseFnDecl(isExtern);
    }

    /** `fn`, the name and `(`, then the rest of the function. */
    method ParseFnDecl(isExtern: bool) returns (r: Result<Func>)
      requires index <= |tokens|
      modifies this
      ensures index <= |tokens|
      ensures Agrees(r, FnDecl(tokens, old(index), isExtern))
    {
      var fn := EatOrErr(TokenKind.Func);
      if !fn.Success? {
        return Lift(fn);
      }
      var name := EatOrErr(Ident);
      if !name.Success? {
        return Lift(name);
      }
      var open := EatOrErr(OpenBrace);
      if !open.Success? {
        return Lift(open);
      }
      r := ParseFnTail(name.value.text, isExtern);
    }

    /** Parameters, return type and body, after the `(`. */
    method ParseFnTail(name: string, isExtern: bool) returns (r: Result<Func>)
      requires index <= |tokens|
      modifies this
      ensures index <= |tokens|
      ensures Agrees(r, FnTail(tokens, old(index), name, isExtern))
    {
      var params := ParseParams();
      if !params.Success? {
        return Lift(params);
      }
      var ret := ParseOptionalTy();
      if !ret.Success? {
        return Lift(ret);
      }
      var body := ParseOptionalBody();
      if !body.Success? {
        return Lift(body);
      }
      r := Success(FuncDecl(body.value, params.value, ret.value, name, isExtern));
    }

    /** `: ty` after the parameters, when present. */
    method ParseOptionalTy() returns (r: Result<Option<Ty>>)
      requires index <= |tokens|
      modifies this
      ensures index <= |tokens|
      ensures Agrees(r, OptionalTy(tokens, old(index)))
    {
      var k := Peek();
      if k.Panic? {
        return Panic;
      }
      if k.value == Colon {
        var _ := Next();
        var t := ParseTy();
        if !t.Success? {
          return Lift(t);
        }
        r := Success(Some(t.value));
      } else {
        r := Success(None);
      }
    }

    /** The body of a function, when a block follows. */
    method ParseOptionalBody() returns (r: Result<Option<Block>>)
      requires index <= |tokens|
      modifies this
      ensures index <= |tokens|
      ensures Agrees(r, OptionalBody(tokens, old(index)))
    {
      var k := Peek();
      if k.Panic? {
        return Panic;
      }
      if k.value == OpenCurlyBrace {
        var b := ParseBlock();
        if !b.Success? {
          return Lift(b);
        }
        r := Success(Some(b.value));
      } else {
        r := Success(None);
      }
    }
  }

  /** `parse`: functions until the tokens run out. */
  method Parse(tokens: seq<Token>) returns (r: Result<seq<Func>>)
    ensures r == Forget(ParseFns(tokens, [], 0))
  {
    var parser := new Parser(tokens);
    var fns: seq<Func> := [];
    while parser.index < |parser.tokens|
      invariant parser.index <= |parser.tokens| && parser.tokens == tokens
      invariant ParseFns(tokens, fns, parser.index) == ParseFns(tokens, [], 0)
      decreases |parser.tokens| - parser.index
    {
      var f := parser.ParseFn();
      if !f.Success? {
        return Lift(f);
      }
      fns := fns + [f.value];
    }
    r := Success(fns);
  }
}
