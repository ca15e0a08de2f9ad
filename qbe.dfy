/** Instruction selection for the QBE backend (src/qbe.rs).

    The emitted program is a sequence of instruction records; how each is
    printed is not part of the model. The backend sees every type already
    concretized (`BackendTy`). Each pure `...Code` function below says what a
    compile step emits and how many temps it uses, given the stack slots and
    the temp counter before it; the methods of `Compiler` do the same step on
    mutable state and are proved to agree with these functions. */
module Qbe {
  import Types

  /** A concretized type as qbe.rs matches on it. */
  datatype BackendTy = BoolTy | NoneTy | IntTy(intTy: Types.Int) | PointerTy

  datatype Temp = Temp(n: nat)

  datatype Value = IntVal(temp: Temp, ty: Types.Int) | Pointer(temp: Temp) | BoolVal(temp: Temp) | NoValue

  datatype Instr =
    | Alloc(dest: Temp, align: nat, size: nat)
    | Load(dest: Temp, op: string, addr: Temp)
    | Store(op: string, src: Temp, addr: Temp)
    | Binary(dest: Temp, op: string, left: Temp, right: Temp)
    | IntConst(dest: Temp, literal: string)
    | BoolConst(dest: Temp, bit: nat)
    | FunHeader(params: seq<(string, Temp)>)
    | StartLabel
    | BlockLabel(id: nat)
    | Ret(result: Types.Option<Temp>)
    | Jmp(target: nat)
    | Jnz(cond: Temp, ifTrue: nat, ifFalse: nat)
    | FunEnd

  /** A compile step either finishes or panics. */
  datatype Lowered<T> = Done(value: T) | Panic

  // The mid-level IR that is compiled (the mir module is not part of this
  // model; these datatypes follow the cases qbe.rs handles).
  datatype BinaryOp = Add | Subtract | Multiply | Divide | LessThan | GreaterThan
  datatype Expr =
    | IntLit(literal: string, ty: Types.Int)
    | BoolLit(b: bool)
    | BinaryE(left: Expr, right: Expr, op: BinaryOp)
    | LoadSlot(slot: nat, loadTy: BackendTy)
    | RefSlot(slot: nat)
    | DerefE(inner: Expr, derefTy: BackendTy)
  datatype Assign = Deref(assign: Assign) | Stack(slot: nat)
  datatype Stmt = AllocS(allocTy: BackendTy) | AssignS(target: Assign, expr: Expr)
  datatype Branch = Return(result: Types.Option<Expr>) | Static(target: nat) | Condition(cond: Expr, ifTrue: nat, ifFalse: nat)
  datatype Block = Block(stmts: seq<Stmt>, branch: Branch)
  datatype Fun = Fun(params: seq<BackendTy>, blocks: seq<Block>)

  // ------------------------------------------------------------- tables

  function SizeBytes(t: BackendTy): (r: nat)
    ensures r <= 8
  {
    match t
    case BoolTy => 1
    case NoneTy => 0
    case IntTy(i) => (match i.size case B8 => 1 case B16 => 2 case B32 => 4)
    case PointerTy => 8
  }

  function AlignBytes(t: BackendTy): (r: nat)
  {
    match t
    case BoolTy => 1
    case NoneTy => 0
    case IntTy(i) => (match i.size case B8 => 1 case B16 => 2 case B32 => 4)
    case PointerTy => 8
  }

  /** Every type is aligned to its own size, and to at most 8 bytes. */
  lemma AlignIsSize(t: BackendTy)
    ensures AlignBytes(t) == SizeBytes(t) <= 8
  {
  }

  /** The `alloc` variant chosen for an alignment; `None` is the panic arm. */
  function AllocAlign(align: nat): (r: Types.Option<nat>)
    ensures align <= 4 ==> r == Types.Some(4)
    ensures 4 < align <= 8 ==> r == Types.Some(8)
    ensures 8 < align <= 16 ==> r == Types.Some(16)
    ensures r.None? <==> 16 < align
  {
    if align <= 4 then Types.Some(4)
    else if align <= 8 then Types.Some(8)
    else if align <= 16 then Types.Some(16)
    else Types.None
  }

  /** For the alignments types actually have, only `alloc4` and `alloc8`
      are chosen: the `alloc16` and panic arms are unreachable. */
  lemma AllocAlignReachable(t: BackendTy)
    ensures AllocAlign(AlignBytes(t)) == Types.Some(if AlignBytes(t) <= 4 then 4 else 8)
  {
  }

  /** The width letter QBE uses for a size. */
  function SizeLetter(s: Types.Size): char
  {
    match s
    case B8 => 'b'
    case B16 => 'h'
    case B32 => 'w'
  }

  function BinaryOpcode(op: BinaryOp, s: Types.Signedness): (r: string)
    ensures |r| >= 3
  {
    match op
    case Add => "add"
    case Subtract => "sub"
    case Multiply => "mul"
    case Divide => if s.Signed? then "div" else "udiv"
    case LessThan => if s.Signed? then "csltw" else "cultw"
    case GreaterThan => if s.Signed? then "csgtw" else "cugtw"
  }

  /** Signedness changes the opcode exactly for division and comparison,
      and no two operations share an opcode. */
  lemma BinaryOpcodeSelection(op: BinaryOp, op': BinaryOp, s: Types.Signedness, s': Types.Signedness)
    ensures (BinaryOpcode(op, Types.Signed) != BinaryOpcode(op, Types.Unsigned)) <==> (op.Divide? || op.LessThan? || op.GreaterThan?)
    ensures op != op' ==> BinaryOpcode(op, s) != BinaryOpcode(op', s')
  {
  }

  function LoadOpcode(i: Types.Int): (r: string)
    ensures |r| == 6 && r[..4] == "load"
    ensures r[4] == (if i.signedness.Signed? then 's' else 'u') && r[5] == SizeLetter(i.size)
  {
    match (i.signedness, i.size)
    case (Signed, B8) => "loadsb"
    case (Signed, B16) => "loadsh"
    case (Signed, B32) => "loadsw"
    case (Unsigned, B8) => "loadub"
    case (Unsigned, B16) => "loaduh"
    case (Unsigned, B32) => "loaduw"
  }

  /** Distinct integer types are loaded with distinct opcodes. */
  lemma LoadOpcodeInjective(i: Types.Int, j: Types.Int)
    requires LoadOpcode(i) == LoadOpcode(j)
    ensures i == j
  {
    assert LoadOpcode(i)[4] == LoadOpcode(j)[4] && LoadOpcode(i)[5] == LoadOpcode(j)[5];
  }

  function StoreIntOpcode(s: Types.Size): (r: string)
    ensures |r| == 6 && r[..5] == "store" && r[5] == SizeLetter(s)
  {
    match s
    case B8 => "storeb"
    case B16 => "storeh"
    case B32 => "storew"
  }

  /** An integer is stored and loaded with the same width. */
  lemma IntStoreLoadAgree(i: Types.Int)
    ensures StoreIntOpcode(i.size)[5] == LoadOpcode(i)[5]
  {
  }

  // ------------------------------------------------------- code of steps

  /** `load`: one fresh temp and one load, except for `None`, which uses
      neither. */
  function LoadCode(count: nat, ty: BackendTy, addr: Temp): (r: (Value, seq<Instr>, nat))
    ensures ty.NoneTy? ==> r == (NoValue, [], count)
    ensures !ty.NoneTy? ==> r.2 == count + 1 && |r.1| == 1 && r.1[0].Load? && r.1[0].dest == Temp(count) && r.1[0].addr == addr
    ensures ty.BoolTy? ==> r.0 == BoolVal(Temp(count)) && r.1[0].op == "loadb"
    ensures ty.IntTy? ==> r.0 == IntVal(Temp(count), ty.intTy) && r.1[0].op == LoadOpcode(ty.intTy)
    ensures ty.PointerTy? ==> r.0 == Pointer(Temp(count)) && r.1[0].op == "loadl"
  {
    match ty
    case BoolTy => (BoolVal(Temp(count)), [Load(Temp(count), "loadb", addr)], count + 1)
    case IntTy(i) => (IntVal(Temp(count), i), [Load(Temp(count), LoadOpcode(i), addr)], count + 1)
    case PointerTy => (Pointer(Temp(count)), [Load(Temp(count), "loadl", addr)], count + 1)
    case NoneTy => (NoValue, [], count)
  }

  /** `store`: one store whose width follows the value; storing no value panics. */
  function StoreCode(v: Value, addr: Temp): (r: Lowered<seq<Instr>>)
    ensures r.Panic? <==> v.NoValue?
    ensures r.Done? ==> |r.value| == 1 && r.value[0].Store? && r.value[0].src == v.temp && r.value[0].addr == addr
    ensures v.BoolVal? ==> r.value[0].op == "storeb"
    ensures v.IntVal? ==> r.value[0].op == StoreIntOpcode(v.ty.size)
    ensures v.Pointer? ==> r.value[0].op == "storew"
  {
    match v
    case BoolVal(t) => Done([Store("storeb", t, addr)])
    case IntVal(t, i) => Done([Store(StoreIntOpcode(i.size), t, addr)])
    case Pointer(t) => Done([Store("storew", t, addr)])
    case NoValue => Panic
  }

  /** As written, a pointer is stored 4 bytes wide into an 8-byte slot and
      loaded back 8 bytes wide. */
  lemma PointerStoreNarrowerThanLoad(t: Temp, addr: Temp, count: nat)
    ensures StoreCode(Pointer(t), addr).value[0].op[5] == 'w'
    ensures LoadCode(count, PointerTy, addr).1[0].op[4] == 'l'
    ensures SizeBytes(PointerTy) == 8
  {
  }

  /** `alloc_ty`: one fresh temp, appended to the stack slots, and one
      `alloc4`/`alloc8` of the type's size. */
  function AllocCode(slots: seq<Temp>, count: nat, ty: BackendTy): (r: (Temp, seq<Instr>, nat, seq<Temp>))
    ensures r.0 == Temp(count) && r.2 == count + 1 && r.3 == slots + [Temp(count)]
    ensures r.1 == [Alloc(Temp(count), if AlignBytes(ty) <= 4 then 4 else 8, SizeBytes(ty))]
  {
    AllocAlignReachable(ty);
    var align := AllocAlign(AlignBytes(ty)).value;
    (Temp(count), [Alloc(Temp(count), align, SizeBytes(ty))], count + 1, slots + [Temp(count)])
  }

  predicate IsArith(op: BinaryOp)
  {
    op.Add? || op.Subtract? || op.Multiply? || op.Divide?
  }

  /** The rest of a binary expression once its left operand `l` is
      compiled: the right operand's code `r`, which must give an int of the
      same type, then the operation into the next temp. */
  function BinaryTail(l: Value, r: Lowered<(Value, seq<Instr>, nat)>, op: BinaryOp): Lowered<(Value, seq<Instr>, nat)>
    requires l.IntVal?
  {
    if r.Panic? || !r.value.0.IntVal? || r.value.0.ty != l.ty then Panic
    else
      var t := Temp(r.value.2);
      var v := if IsArith(op) then IntVal(t, l.ty) else BoolVal(t);
      Done((v, r.value.1 + [Binary(t, BinaryOpcode(op, l.ty.signedness), l.temp, r.value.0.temp)], r.value.2 + 1))
  }

  /** `compile_expr`, given the stack slots and the temp counter before it. */
  function ExprCode(slots: seq<Temp>, count: nat, e: Expr): (r: Lowered<(Value, seq<Instr>, nat)>)
    ensures r.Done? ==> count <= r.value.2
    decreases e
  {
    match e
    case IntLit(literal, ty) => Done((IntVal(Temp(count), ty), [IntConst(Temp(count), literal)], count + 1))
    case BoolLit(b) => Done((BoolVal(Temp(count)), [BoolConst(Temp(count), if b then 1 else 0)], count + 1))
    case BinaryE(left, right, op) =>
      var l := ExprCode(slots, count, left);
      if l.Panic? || !l.value.0.IntVal? then Panic
      else
        var t := BinaryTail(l.value.0, ExprCode(slots, l.value.2, right), op);
        if t.Panic? then Panic
        else Done((t.value.0, l.value.1 + t.value.1, t.value.2))
    case LoadSlot(slot, ty) =>
      if slot < |slots| then Done(LoadCode(count, ty, slots[slot])) else Panic
    case RefSlot(slot) =>
      if slot < |slots| then Done((Pointer(slots[slot]), [], count)) else Panic
    case DerefE(inner, ty) =>
      var p := ExprCode(slots, count, inner);
      if p.Panic? || !p.value.0.Pointer? then Panic
      else
        var ld := LoadCode(p.value.2, ty, p.value.0.temp);
        Done((ld.0, p.value.1 + ld.1, ld.2))
  }

  /** The temps an instruction defines. */
  function Defs(code: seq<Instr>): (r: seq<nat>)
    ensures |r| <= |code|
  {
    if code == [] then []
    else
      var rest := Defs(code[1..]);
      match code[0]
      case Alloc(d, _, _) => [d.n] + rest
      case Load(d, _, _) => [d.n] + rest
      case Binary(d, _, _, _) => [d.n] + rest
      case IntConst(d, _) => [d.n] + rest
      case BoolConst(d, _) => [d.n] + rest
      case _ => rest
  }

  lemma {:induction false} DefsAppend(a: seq<Instr>, b: seq<Instr>)
    ensures Defs(a + b) == Defs(a) + Defs(b)
  {
    if a == [] {
      assert a + b == b;
    } else {
      assert (a + b)[1..] == a[1..] + b;
      DefsAppend(a[1..], b);
    }
  }

  /** The counter values `lo, lo + 1, ..., hi - 1`. */
  function Range(lo: nat, hi: nat): (r: seq<nat>)
    requires lo <= hi
    ensures |r| == hi - lo && forall k :: 0 <= k < |r| ==> r[k] == lo + k
  {
    seq(hi - lo, k => lo + k)
  }

  lemma RangeSplit(lo: nat, mid: nat, hi: nat)
    requires lo <= mid <= hi
    ensures Range(lo, mid) + Range(mid, hi) == Range(lo, hi)
  {
  }

  /** The temps an expression's code defines are exactly the counter values
      it used, in order: `count, count + 1, ...` up to the new counter. */
  lemma {:induction false} ExprTempsFresh(slots: seq<Temp>, count: nat, e: Expr)
    requires ExprCode(slots, count, e).Done?
    ensures var r := ExprCode(slots, count, e).value;
      count <= r.2 && Defs(r.1) == Range(count, r.2)
    decreases e
  {
    match e
    case BinaryE(left, right, op) =>
      var l := ExprCode(slots, count, left).value;
      ExprTempsFresh(slots, count, left);
      ExprTempsFresh(slots, l.2, right);
      BinaryTempsFresh(slots, count, left, right, op);
    case DerefE(inner, ty) =>
      ExprTempsFresh(slots, count, inner);
      DerefTempsFresh(slots, count, inner, ty);
    case IntLit(_, _) =>
      assert Defs(ExprCode(slots, count, e).value.1) == [count];
    case BoolLit(_) =>
      assert Defs(ExprCode(slots, count, e).value.1) == [count];
    case LoadSlot(slot, ty) =>
      LoadFresh(count, ty, slots[slot]);
    case RefSlot(_) =>
  }

  /** Two runs of code numbering `lo..mid` and `mid..hi` make one
      numbering `lo..hi`. */
  lemma FreshAppend(a: seq<Instr>, b: seq<Instr>, lo: nat, mid: nat, hi: nat)
    requires lo <= mid <= hi && Defs(a) == Range(lo, mid) && Defs(b) == Range(mid, hi)
    ensures Defs(a + b) == Range(lo, hi)
  {
    DefsAppend(a, b);
    RangeSplit(lo, mid, hi);
  }

  lemma LoadFresh(count: nat, ty: BackendTy, addr: Temp)
    ensures Defs(LoadCode(count, ty, addr).1) == Range(count, LoadCode(count, ty, addr).2)
  {
    var ld := LoadCode(count, ty, addr);
    if !ty.NoneTy? {
      assert ld.1 == [ld.1[0]];
    }
  }

  /** The step of `ExprTempsFresh` for a binary expression. */
  lemma BinaryTempsFresh(slots: seq<Temp>, count: nat, left: Expr, right: Expr, op: BinaryOp)
    requires ExprCode(slots, count, BinaryE(left, right, op)).Done?
    requires var l := ExprCode(slots, count, left).value;
      && count <= l.2 && Defs(l.1) == Range(count, l.2)
      && var r := ExprCode(slots, l.2, right).value;
      && l.2 <= r.2 && Defs(r.1) == Range(l.2, r.2)
    ensures var r := ExprCode(slots, count, BinaryE(left, right, op)).value;
      count <= r.2 && Defs(r.1) == Range(count, r.2)
  {
    var l := ExprCode(slots, count, left).value;
    var r := ExprCode(slots, l.2, right).value;
    var bin := BinaryCodeSplit(slots, count, left, right, op);
    BinaryFresh(l.1, r.1, bin, count, l.2, r.2);
  }

  /** Operand code numbering `lo..mid` and `mid..hi`, then one instruction
      defining `hi`, number `lo..hi + 1`. */
  lemma BinaryFresh(a: seq<Instr>, b: seq<Instr>, bin: Instr, lo: nat, mid: nat, hi: nat)
    requires lo <= mid <= hi && Defs(a) == Range(lo, mid) && Defs(b) == Range(mid, hi)
    requires bin.Binary? && bin.dest == Temp(hi)
    ensures Defs(a + b + [bin]) == Range(lo, hi + 1)
  {
    FreshAppend(a, b, lo, mid, hi);
    assert Defs([bin]) == Range(hi, hi + 1);
    FreshAppend(a + b, [bin], lo, hi, hi + 1);
  }

  /** The code of a binary expression is its operands' code followed by
      one binary instruction defining the next temp. */
  lemma BinaryCodeSplit(slots: seq<Temp>, count: nat, left: Expr, right: Expr, op: BinaryOp) returns (bin: Instr)
    requires ExprCode(slots, count, BinaryE(left, right, op)).Done?
    ensures var l := ExprCode(slots, count, left).value;
      var r := ExprCode(slots, l.2, right).value;
      && bin.Binary? && bin.dest == Temp(r.2)
      && ExprCode(slots, count, BinaryE(left, right, op)).value == (ExprCode(slots, count, BinaryE(left, right, op)).value.0, l.1 + r.1 + [bin], r.2 + 1)
  {
    var l := ExprCode(slots, count, left).value;
    var r := ExprCode(slots, l.2, right).value;
    bin := Binary(Temp(r.2), BinaryOpcode(op, l.0.ty.signedness), l.0.temp, r.0.temp);
    assert BinaryTail(l.0, ExprCode(slots, l.2, right), op).value.1 == r.1 + [bin];
    assert l.1 + (r.1 + [bin]) == l.1 + r.1 + [bin];
  }

  lemma DerefTempsFresh(slots: seq<Temp>, count: nat, inner: Expr, ty: BackendTy)
    requires ExprCode(slots, count, DerefE(inner, ty)).Done?
    requires var p := ExprCode(slots, count, inner).value;
      count <= p.2 && Defs(p.1) == Range(count, p.2)
    ensures var r := ExprCode(slots, count, DerefE(inner, ty)).value;
      count <= r.2 && Defs(r.1) == Range(count, r.2)
  {
    var p := ExprCode(slots, count, inner).value;
    var ld := LoadCode(p.2, ty, p.0.temp);
    assert ExprCode(slots, count, DerefE(inner, ty)).value == (ld.0, p.1 + ld.1, ld.2);
    LoadFresh(p.2, ty, p.0.temp);
    FreshAppend(p.1, ld.1, count, p.2, ld.2);
  }

  /** A binary expression needs two integer operands of one type; its
      result is an integer of that type for arithmetic and a boolean for a
      comparison, held in the last temp it allocates. */
  lemma BinaryResult(slots: seq<Temp>, count: nat, left: Expr, right: Expr, op: BinaryOp)
    requires ExprCode(slots, count, BinaryE(left, right, op)).Done?
    ensures var l := ExprCode(slots, count, left);
      && l.Done? && l.value.0.IntVal?
      && var r := ExprCode(slots, l.value.2, right);
      && r.Done? && r.value.0.IntVal? && r.value.0.ty == l.value.0.ty
      && var res := ExprCode(slots, count, BinaryE(left, right, op)).value;
      && res.0 == (if IsArith(op) then IntVal(Temp(r.value.2), l.value.0.ty) else BoolVal(Temp(r.value.2)))
      && res.1[|res.1| - 1] == Binary(Temp(r.value.2), BinaryOpcode(op, l.value.0.ty.signedness), l.value.0.temp, r.value.0.temp)
  {
  }

  /** The stack slot an assignment target starts from. */
  function BaseSlot(a: Assign): nat
  {
    match a
    case Deref(inner) => BaseSlot(inner)
    case Stack(slot) => slot
  }

  /** How many pointers an assignment target goes through. */
  function DerefDepth(a: Assign): nat
  {
    match a
    case Deref(inner) => DerefDepth(inner) + 1
    case Stack(_) => 0
  }

  /** `compile_assign`: the address an assignment writes to. */
  function AssignCode(slots: seq<Temp>, count: nat, a: Assign): (r: Lowered<(Temp, seq<Instr>, nat)>)
    ensures r.Done? ==> count <= r.value.2 && |r.value.1| == r.value.2 - count
  {
    match a
    case Deref(inner) =>
      var p := AssignCode(slots, count, inner);
      if p.Panic? then Panic
      else
        var t := Temp(p.value.2);
        Done((t, p.value.1 + [Load(t, "loadl", p.value.0)], p.value.2 + 1))
    case Stack(slot) =>
      if slot < |slots| then Done((slots[slot], [], count)) else Panic
  }

  /** An assignment target panics exactly when its stack slot does not
      exist; otherwise it loads one pointer per dereference, each into a
      fresh temp, and its address is the slot itself or the last load. */
  lemma {:induction false} AssignShape(slots: seq<Temp>, count: nat, a: Assign)
    ensures var r := AssignCode(slots, count, a);
      && (r.Panic? <==> BaseSlot(a) >= |slots|)
      && (r.Done? ==> r.value.2 == count + DerefDepth(a) && |r.value.1| == DerefDepth(a))
      && (r.Done? ==> forall k :: 0 <= k < |r.value.1| ==> r.value.1[k].Load? && r.value.1[k].op == "loadl")
      && (r.Done? && a.Stack? ==> r.value.0 == slots[a.slot])
      && (r.Done? && a.Deref? ==> r.value.0 == Temp(r.value.2 - 1))
    decreases a
  {
    if a.Deref? {
      AssignShape(slots, count, a.assign);
    }
  }

  /** `compile_stmt`: code, new counter and new stack slots. */
  function StmtCode(slots: seq<Temp>, count: nat, s: Stmt): Lowered<(seq<Instr>, nat, seq<Temp>)>
  {
    match s
    case AllocS(ty) =>
      var a := AllocCode(slots, count, ty);
      Done((a.1, a.2, a.3))
    case AssignS(target, expr) =>
      var v := ExprCode(slots, count, expr);
      if v.Panic? then Panic
      else
        var a := AssignCode(slots, v.value.2, target);
        if a.Panic? then Panic
        else
          var st := StoreCode(v.value.0, a.value.0);
          if st.Panic? then Panic
          else Done((v.value.1 + a.value.1 + st.value, a.value.2, slots))
  }

  /** A statement never moves the temp counter back and only adds stack
      slots: an allocation adds exactly one, the next temp; an assignment
      adds none and ends with a store of the expression's value to the
      address the target computes; storing a value-less expression panics. */
  lemma StmtShape(slots: seq<Temp>, count: nat, s: Stmt)
    ensures var r := StmtCode(slots, count, s);
      && (r.Done? ==> count <= r.value.1 && slots <= r.value.2)
      && (s.AllocS? ==> r.Done? && r.value.2 == slots + [Temp(count)])
      && (s.AssignS? && r.Done? ==> r.value.2 == slots && |r.value.0| > 0 && r.value.0[|r.value.0| - 1].Store?)
      && (s.AssignS? && r.Done? ==>
            && ExprCode(slots, count, s.expr).Done?
            && AssignCode(slots, ExprCode(slots, count, s.expr).value.2, s.target).Done?
            && r.value.0[|r.value.0| - 1].src == ExprCode(slots, count, s.expr).value.0.temp
            && r.value.0[|r.value.0| - 1].addr == AssignCode(slots, ExprCode(slots, count, s.expr).value.2, s.target).value.0)
      && (s.AssignS? && ExprCode(slots, count, s.expr).Done? && ExprCode(slots, count, s.expr).value.0.NoValue? ==> r.Panic?)
  {
  }

  /** The statements of a block, compiled in order. */
  function StmtsCode(slots: seq<Temp>, count: nat, stmts: seq<Stmt>): Lowered<(seq<Instr>, nat, seq<Temp>)>
    decreases |stmts|
  {
    if stmts == [] then Done(([], count, slots))
    else
      var p := StmtsCode(slots, count, stmts[..|stmts| - 1]);
      if p.Panic? then Panic
      else
        var s := StmtCode(p.value.2, p.value.1, stmts[|stmts| - 1]);
        if s.Panic? then Panic
        else Done((p.value.0 + s.value.0, s.value.1, s.value.2))
  }

  /** Compiling statements never moves the temp counter back and only
      adds stack slots. */
  lemma {:induction false} StmtsGrow(slots: seq<Temp>, count: nat, stmts: seq<Stmt>)
    requires StmtsCode(slots, count, stmts).Done?
    ensures var r := StmtsCode(slots, count, stmts).value;
      count <= r.1 && slots <= r.2
    decreases |stmts|
  {
    if stmts != [] {
      var init := stmts[..|stmts| - 1];
      StmtsGrow(slots, count, init);
      var p := StmtsCode(slots, count, init).value;
      StmtShape(p.2, p.1, stmts[|stmts| - 1]);
    }
  }

  /** The statement loop's step on compiler states: from the state after
      the first `k` statements (`s0`, `t0`, `o0`), compiling statement `k`
      to `r` and the state `ss`, `t`, `o` either panics the whole list or
      gives the state after the first `k + 1`. */
  lemma StmtsAdvance(slots: seq<Temp>, count: nat, out: seq<Instr>, stmts: seq<Stmt>, k: nat,
                     s0: seq<Temp>, t0: nat, o0: seq<Instr>, r: Lowered<()>, ss: seq<Temp>, t: nat, o: seq<Instr>)
    requires k < |stmts|
    requires var p := StmtsCode(slots, count, stmts[..k]);
      p.Done? && o0 == out + p.value.0 && t0 == p.value.1 && s0 == p.value.2
    requires var c := StmtCode(s0, t0, stmts[k]);
      (r.Panic? <==> c.Panic?) && (c.Done? ==> o == o0 + c.value.0 && t == c.value.1 && ss == c.value.2)
    ensures r.Done? ==> var n := StmtsCode(slots, count, stmts[..k + 1]);
      n.Done? && o == out + n.value.0 && t == n.value.1 && ss == n.value.2
    ensures r.Panic? ==> StmtsCode(slots, count, stmts).Panic?
  {
    var p := StmtsCode(slots, count, stmts[..k]).value;
    var c := StmtCode(s0, t0, stmts[k]);
    StmtsStep(slots, count, stmts, k);
    if r.Done? {
      AppendAfter(out, p.0, c.value.0, o0, o);
    }
  }

  /** Output `o0 = out + a` extended by `b` is `out` extended by `a + b`. */
  lemma AppendAfter(out: seq<Instr>, a: seq<Instr>, b: seq<Instr>, o0: seq<Instr>, o: seq<Instr>)
    requires o0 == out + a && o == o0 + b
    ensures o == out + (a + b)
  {
  }

  /** Compiling statement `k` after the first `k`: if it panics the whole
      list panics, otherwise its code is appended to theirs. */
  lemma StmtsStep(slots: seq<Temp>, count: nat, stmts: seq<Stmt>, k: nat)
    requires k < |stmts| && StmtsCode(slots, count, stmts[..k]).Done?
    ensures var p := StmtsCode(slots, count, stmts[..k]).value;
      var st := StmtCode(p.2, p.1, stmts[k]);
      && (st.Panic? ==> StmtsCode(slots, count, stmts).Panic?)
      && (st.Done? ==> StmtsCode(slots, count, stmts[..k + 1]) == Done((p.0 + st.value.0, st.value.1, st.value.2)))
  {
    assert stmts[..k + 1][..k] == stmts[..k];
    var p := StmtsCode(slots, count, stmts[..k]).value;
    if StmtCode(p.2, p.1, stmts[k]).Panic? {
      StmtsPanicExtends(slots, count, stmts, k + 1);
    }
  }

  /** Once a prefix of the statements panics, so do all of them. */
  lemma {:induction false} StmtsPanicExtends(slots: seq<Temp>, count: nat, stmts: seq<Stmt>, n: nat)
    requires n <= |stmts| && StmtsCode(slots, count, stmts[..n]).Panic?
    ensures StmtsCode(slots, count, stmts).Panic?
    decreases |stmts| - n
  {
    if n < |stmts| {
      assert stmts[..n + 1][..n] == stmts[..n];
      StmtsPanicExtends(slots, count, stmts, n + 1);
    } else {
      assert stmts[..n] == stmts;
    }
  }

  /** The block loop's step on compiler states, as `StmtsAdvance` is for
      statements. */
  lemma BlocksAdvance(slots: seq<Temp>, count: nat, out: seq<Instr>, blocks: seq<Block>, k: nat,
                      s0: seq<Temp>, t0: nat, o0: seq<Instr>, r: Lowered<()>, ss: seq<Temp>, t: nat, o: seq<Instr>)
    requires k < |blocks|
    requires var p := BlocksCode(slots, count, blocks, k);
      p.Done? && o0 == out + p.value.0 && t0 == p.value.1 && s0 == p.value.2
    requires var c := BlockCode(s0, t0, k, blocks[k]);
      (r.Panic? <==> c.Panic?) && (c.Done? ==> o == o0 + c.value.0 && t == c.value.1 && ss == c.value.2)
    ensures r.Done? ==> var n := BlocksCode(slots, count, blocks, k + 1);
      n.Done? && o == out + n.value.0 && t == n.value.1 && ss == n.value.2
    ensures r.Panic? ==> BlocksCode(slots, count, blocks, |blocks|).Panic?
  {
    var p := BlocksCode(slots, count, blocks, k).value;
    var c := BlockCode(s0, t0, k, blocks[k]);
    BlocksStep(slots, count, blocks, k);
    if r.Done? {
      AppendAfter(out, p.0, c.value.0, o0, o);
    }
  }

  /** Compiling block `k` after the first `k`: if it panics the whole
      list panics, otherwise its code is appended to theirs. */
  lemma BlocksStep(slots: seq<Temp>, count: nat, blocks: seq<Block>, k: nat)
    requires k < |blocks| && BlocksCode(slots, count, blocks, k).Done?
    ensures var p := BlocksCode(slots, count, blocks, k).value;
      var b := BlockCode(p.2, p.1, k, blocks[k]);
      && (b.Panic? ==> BlocksCode(slots, count, blocks, |blocks|).Panic?)
      && (b.Done? ==> BlocksCode(slots, count, blocks, k + 1) == Done((p.0 + b.value.0, b.value.1, b.value.2)))
  {
    var p := BlocksCode(slots, count, blocks, k).value;
    if BlockCode(p.2, p.1, k, blocks[k]).Panic? {
      BlocksPanicExtends(slots, count, blocks, k + 1);
    }
  }

  /** Once a prefix of the blocks panics, so do all of them. */
  lemma {:induction false} BlocksPanicExtends(slots: seq<Temp>, count: nat, blocks: seq<Block>, n: nat)
    requires n <= |blocks| && BlocksCode(slots, count, blocks, n).Panic?
    ensures BlocksCode(slots, count, blocks, |blocks|).Panic?
    decreases |blocks| - n
  {
    if n < |blocks| {
      BlocksPanicExtends(slots, count, blocks, n + 1);
    }
  }

  /** The branch that ends a block. */
  function BranchCode(slots: seq<Temp>, count: nat, br: Branch): Lowered<(seq<Instr>, nat)>
  {
    match br
    case Return(None) => Done(([Ret(Types.None)], count))
    case Return(Some(e)) =>
      var v := ExprCode(slots, count, e);
      if v.Panic? then Panic
      else if v.value.0.NoValue? then Done((v.value.1 + [Ret(Types.None)], v.value.2))
      else Done((v.value.1 + [Ret(Types.Some(v.value.0.temp))], v.value.2))
    case Static(target) => Done(([Jmp(target)], count))
    case Condition(cond, ifTrue, ifFalse) =>
      var v := ExprCode(slots, count, cond);
      if v.Panic? || !v.value.0.BoolVal? then Panic
      else Done((v.value.1 + [Jnz(v.value.0.temp, ifTrue, ifFalse)], v.value.2))
  }

  /** A branch ends in a terminator (return, jump or conditional jump) and
      never moves the temp counter back; a condition that is not a bool
      panics; a static branch is a single jump. */
  lemma BranchShape(slots: seq<Temp>, count: nat, br: Branch)
    ensures var r := BranchCode(slots, count, br);
      && (r.Done? ==> count <= r.value.1 && |r.value.0| > 0 && IsTerminator(r.value.0[|r.value.0| - 1]))
      && (br.Condition? && ExprCode(slots, count, br.cond).Done? && !ExprCode(slots, count, br.cond).value.0.BoolVal? ==> r.Panic?)
      && (br.Static? ==> r == Done(([Jmp(br.target)], count)))
  {
  }

  predicate IsTerminator(i: Instr)
  {
    i.Ret? || i.Jmp? || i.Jnz?
  }

  /** `compile_block`: the block's label, its statements, its branch. */
  function BlockCode(slots: seq<Temp>, count: nat, id: nat, b: Block): (r: Lowered<(seq<Instr>, nat, seq<Temp>)>)
  {
    var s := StmtsCode(slots, count, b.stmts);
    if s.Panic? then Panic
    else
      var br := BranchCode(s.value.2, s.value.1, b.branch);
      if br.Panic? then Panic
      else Done(([BlockLabel(id)] + s.value.0 + br.value.0, br.value.1, s.value.2))
  }

  /** A compiled block starts with its label and ends with a branch
      instruction (a return, a jump or a conditional jump); it only adds
      stack slots and never moves the temp counter back. */
  lemma BlockShape(slots: seq<Temp>, count: nat, id: nat, b: Block)
    requires BlockCode(slots, count, id, b).Done?
    ensures var r := BlockCode(slots, count, id, b).value;
      && |r.0| > 1 && r.0[0] == BlockLabel(id) && IsTerminator(r.0[|r.0| - 1])
      && count <= r.1 && slots <= r.2
  {
    StmtsGrow(slots, count, b.stmts);
    var st := StmtsCode(slots, count, b.stmts).value;
    BranchShape(st.2, st.1, b.branch);
  }

  // ---------------------------------------------------- whole functions

  /** A parameter that is passed in a temp: its QBE class letter, the temp
      and its type. */
  datatype Param = Param(letter: string, temp: Temp, ty: BackendTy)

  /** The first loop of `compile_fun`: a fresh temp for every parameter
      whose type is not `None`, in order. */
  function ParamList(params: seq<BackendTy>, count: nat): (r: (seq<Param>, nat))
    ensures count <= r.1 && |r.0| == r.1 - count <= |params|
    ensures forall k :: 0 <= k < |r.0| ==> r.0[k].temp == Temp(count + k) && !r.0[k].ty.NoneTy?
    ensures forall k :: 0 <= k < |r.0| ==> r.0[k].letter == (if r.0[k].ty.PointerTy? then "l" else "w")
    decreases |params|
  {
    if params == [] then ([], count)
    else
      var p := ParamList(params[..|params| - 1], count);
      match params[|params| - 1]
      case BoolTy => (p.0 + [Param("w", Temp(p.1), BoolTy)], p.1 + 1)
      case NoneTy => p
      case PointerTy => (p.0 + [Param("l", Temp(p.1), PointerTy)], p.1 + 1)
      case IntTy(i) => (p.0 + [Param("w", Temp(p.1), IntTy(i))], p.1 + 1)
  }

  /** The parameters kept are exactly those of a type other than `None`. */
  lemma {:induction false} ParamListKeepsNonNone(params: seq<BackendTy>, count: nat)
    ensures |ParamList(params, count).0| == |NonNone(params)|
    ensures forall k :: 0 <= k < |NonNone(params)| ==> ParamList(params, count).0[k].ty == NonNone(params)[k]
    decreases |params|
  {
    if params != [] {
      var init := params[..|params| - 1];
      ParamListKeepsNonNone(init, count);
      assert NonNone(params) == NonNone(init) + (if params[|params| - 1].NoneTy? then [] else [params[|params| - 1]]);
    }
  }

  /** The parameter types other than `None`, in order. */
  function NonNone(params: seq<BackendTy>): seq<BackendTy>
    decreases |params|
  {
    if params == [] then []
    else NonNone(params[..|params| - 1]) + (if params[|params| - 1].NoneTy? then [] else [params[|params| - 1]])
  }

  /** The value a parameter's temp holds. */
  function ParamValue(p: Param): (v: Value)
    ensures v.NoValue? <==> p.ty.NoneTy?
    ensures !v.NoValue? ==> v.temp == p.temp
  {
    match p.ty
    case BoolTy => BoolVal(p.temp)
    case NoneTy => NoValue
    case PointerTy => Pointer(p.temp)
    case IntTy(i) => IntVal(p.temp, i)
  }

  /** The second loop of `compile_fun`: a stack slot for every parameter,
      and the store of the parameter's temp into it. */
  function PrologueCode(slots: seq<Temp>, count: nat, ps: seq<Param>): (r: Lowered<(seq<Instr>, nat, seq<Temp>)>)
    decreases |ps|
  {
    if ps == [] then Done(([], count, slots))
    else
      var p := PrologueCode(slots, count, ps[..|ps| - 1]);
      if p.Panic? then Panic
      else
        var last := ps[|ps| - 1];
        var a := AllocCode(p.value.2, p.value.1, last.ty);
        if last.ty.NoneTy? then Done((p.value.0 + a.1, a.2, a.3))
        else
          var st := StoreCode(ParamValue(last), a.0);
          if st.Panic? then Panic
          else Done((p.value.0 + a.1 + st.value, a.2, a.3))
  }

  /** The prologue never panics: one slot per parameter, allocated with
      consecutive temps, and two instructions (alloc, store) per
      parameter. */
  lemma {:induction false} PrologueDone(slots: seq<Temp>, count: nat, ps: seq<Param>)
    requires forall k :: 0 <= k < |ps| ==> !ps[k].ty.NoneTy?
    ensures var r := PrologueCode(slots, count, ps);
      && r.Done?
      && r.value.1 == count + |ps|
      && r.value.2 == slots + Temps(count, |ps|)
      && |r.value.0| == 2 * |ps|
    decreases |ps|
  {
    if ps != [] {
      PrologueDone(slots, count, ps[..|ps| - 1]);
      var p := PrologueCode(slots, count, ps[..|ps| - 1]);
      assert p.value.2 + [Temp(p.value.1)] == slots + Temps(count, |ps|);
    }
  }

  /** What the prologue emits for parameter `k`: instruction `2k` allocates
      its slot, with the next temp and the type's size, and instruction
      `2k + 1` stores the parameter's temp into that slot. */
  lemma {:induction false} PrologueStores(slots: seq<Temp>, count: nat, ps: seq<Param>)
    requires forall k :: 0 <= k < |ps| ==> !ps[k].ty.NoneTy?
    ensures PrologueCode(slots, count, ps).Done? && |PrologueCode(slots, count, ps).value.0| == 2 * |ps|
    ensures var code := PrologueCode(slots, count, ps).value.0;
      forall k | 0 <= k < |ps| ::
        && code[2 * k] == Alloc(Temp(count + k), if AlignBytes(ps[k].ty) <= 4 then 4 else 8, SizeBytes(ps[k].ty))
        && code[2 * k + 1].Store? && code[2 * k + 1].src == ps[k].temp && code[2 * k + 1].addr == Temp(count + k)
    decreases |ps|
  {
    PrologueDone(slots, count, ps);
    if ps != [] {
      var init := ps[..|ps| - 1];
      PrologueDone(slots, count, init);
      PrologueStores(slots, count, init);
      var p := PrologueCode(slots, count, init).value;
      var last := ps[|ps| - 1];
      var al := AllocCode(p.2, p.1, last.ty).1;
      var st := StoreCode(ParamValue(last), Temp(p.1)).value;
      var code := PrologueCode(slots, count, ps).value.0;
      assert code == p.0 + al + st;
      PairAppended(p.0, al[0], st[0], |init|);
      forall k | 0 <= k < |ps|
        ensures && code[2 * k] == Alloc(Temp(count + k), if AlignBytes(ps[k].ty) <= 4 then 4 else 8, SizeBytes(ps[k].ty))
                && code[2 * k + 1].Store? && code[2 * k + 1].src == ps[k].temp && code[2 * k + 1].addr == Temp(count + k)
      {
        if k < |init| {
          assert ps[k] == init[k];
        }
      }
    }
  }

  /** Two instructions appended after `2n` keep the earlier ones in place. */
  lemma PairAppended(pre: seq<Instr>, x: Instr, y: Instr, n: nat)
    requires |pre| == 2 * n
    ensures var code := pre + [x] + [y];
      && |code| == 2 * n + 2 && code[2 * n] == x && code[2 * n + 1] == y
      && forall k | 0 <= k < n :: code[2 * k] == pre[2 * k] && code[2 * k + 1] == pre[2 * k + 1]
  {
  }

  /** The temps `lo, lo + 1, ..., lo + n - 1`. */
  function Temps(lo: nat, n: nat): (r: seq<Temp>)
    ensures |r| == n && forall k :: 0 <= k < n ==> r[k] == Temp(lo + k)
  {
    if n == 0 then [] else Temps(lo, n - 1) + [Temp(lo + n - 1)]
  }

  /** Blocks `0 .. n - 1` of a function, compiled in order. */
  function BlocksCode(slots: seq<Temp>, count: nat, blocks: seq<Block>, n: nat): (r: Lowered<(seq<Instr>, nat, seq<Temp>)>)
    requires n <= |blocks|
    ensures n == 0 ==> r == Done(([], count, slots))
  {
    if n == 0 then Done(([], count, slots))
    else
      var p := BlocksCode(slots, count, blocks, n - 1);
      if p.Panic? then Panic
      else
        var b := BlockCode(p.value.2, p.value.1, n - 1, blocks[n - 1]);
        if b.Panic? then Panic
        else Done((p.value.0 + b.value.0, b.value.1, b.value.2))
  }

  /** The header's parameter list: class letter and temp of each. */
  function HeaderOf(ps: seq<Param>): (r: Instr)
    ensures r.FunHeader? && |r.params| == |ps|
    ensures forall k :: 0 <= k < |ps| ==> r.params[k] == (ps[k].letter, ps[k].temp)
  {
    FunHeader(seq(|ps|, k requires 0 <= k < |ps| => (ps[k].letter, ps[k].temp)))
  }

  /** `compile_fun`: header, start label, parameter prologue, every block,
      closing brace. */
  function FunCode(f: Fun): (r: Lowered<seq<Instr>>)
    ensures r.Done? ==> |r.value| >= 3 && r.value[0] == HeaderOf(ParamList(f.params, 0).0) && r.value[1] == StartLabel && r.value[|r.value| - 1] == FunEnd
  {
    var ps := ParamList(f.params, 0);
    var header := HeaderOf(ps.0);
    var pro := PrologueCode([], ps.1, ps.0);
    if pro.Panic? then Panic
    else
      var bs := BlocksCode(pro.value.2, pro.value.1, f.blocks, |f.blocks|);
      if bs.Panic? then Panic
      else Done([header, StartLabel] + pro.value.0 + bs.value.0 + [FunEnd])
  }

  /** The header names one temp per parameter not of type `None`, numbered
      from 0; the prologue then gives each of them a stack slot and never
      panics, so a function panics exactly when one of its blocks does. */
  lemma FunHeaderParams(f: Fun)
    ensures var ps := ParamList(f.params, 0).0;
      && PrologueCode([], |ps|, ps).Done?
      && PrologueCode([], |ps|, ps).value.2 == Temps(|ps|, |ps|)
      && (forall k :: 0 <= k < |ps| ==> ps[k].temp == Temp(k))
      && (FunCode(f).Done? <==> BlocksCode(PrologueCode([], |ps|, ps).value.2, 2 * |ps|, f.blocks, |f.blocks|).Done?)
  {
    var ps := ParamList(f.params, 0);
    PrologueDone([], ps.1, ps.0);
    assert ps.1 == |ps.0|;
    var pro := PrologueCode([], ps.1, ps.0);
    assert pro.value.1 == 2 * |ps.0|;
  }

  // ------------------------------------------- temp numbering, end to end

  /** An assignment target's loads define exactly the temps it used. */
  lemma {:induction false} AssignTempsFresh(slots: seq<Temp>, count: nat, a: Assign)
    requires AssignCode(slots, count, a).Done?
    ensures var r := AssignCode(slots, count, a).value;
      Defs(r.1) == Range(count, r.2)
    decreases a
  {
    if a.Deref? {
      AssignTempsFresh(slots, count, a.assign);
      var p := AssignCode(slots, count, a.assign).value;
      var ld := Load(Temp(p.2), "loadl", p.0);
      assert Defs([ld]) == Range(p.2, p.2 + 1);
      FreshAppend(p.1, [ld], count, p.2, p.2 + 1);
    }
  }

  /** Code that defines no temp leaves the numbering of the code before it
      as it was. */
  lemma AppendNoDefs(a: seq<Instr>, b: seq<Instr>, lo: nat, hi: nat)
    requires lo <= hi && Defs(a) == Range(lo, hi) && Defs(b) == []
    ensures Defs(a + b) == Range(lo, hi)
  {
    DefsAppend(a, b);
    assert Range(lo, hi) + [] == Range(lo, hi);
  }

  /** A statement's code defines exactly the temps it used, in order. */
  lemma StmtTempsFresh(slots: seq<Temp>, count: nat, s: Stmt)
    requires StmtCode(slots, count, s).Done?
    ensures var r := StmtCode(slots, count, s).value;
      count <= r.1 && Defs(r.0) == Range(count, r.1)
  {
    StmtShape(slots, count, s);
    match s
    case AllocS(ty) =>
      assert Defs(AllocCode(slots, count, ty).1) == Range(count, count + 1);
    case AssignS(target, expr) =>
      var v := ExprCode(slots, count, expr).value;
      ExprTempsFresh(slots, count, expr);
      var a := AssignCode(slots, v.2, target).value;
      AssignTempsFresh(slots, v.2, target);
      var st := StoreCode(v.0, a.0).value;
      assert st == [st[0]] && Defs(st) == [];
      FreshAppend(v.1, a.1, count, v.2, a.2);
      AppendNoDefs(v.1 + a.1, st, count, a.2);
  }

  /** A run of statements defines exactly the temps it used, in order. */
  lemma {:induction false} StmtsTempsFresh(slots: seq<Temp>, count: nat, stmts: seq<Stmt>)
    requires StmtsCode(slots, count, stmts).Done?
    ensures var r := StmtsCode(slots, count, stmts).value;
      count <= r.1 && Defs(r.0) == Range(count, r.1)
    decreases |stmts|
  {
    if stmts == [] {
      assert Defs([]) == Range(count, count);
    } else {
      var init := stmts[..|stmts| - 1];
      StmtsTempsFresh(slots, count, init);
      var p := StmtsCode(slots, count, init).value;
      StmtTempsFresh(p.2, p.1, stmts[|stmts| - 1]);
      var c := StmtCode(p.2, p.1, stmts[|stmts| - 1]).value;
      FreshAppend(p.0, c.0, count, p.1, c.1);
    }
  }

  /** A branch defines exactly the temps its expression used. */
  lemma BranchTempsFresh(slots: seq<Temp>, count: nat, br: Branch)
    requires BranchCode(slots, count, br).Done?
    ensures var r := BranchCode(slots, count, br).value;
      count <= r.1 && Defs(r.0) == Range(count, r.1)
  {
    var r := BranchCode(slots, count, br).value;
    match br
    case Return(None) =>
      assert Defs(r.0) == [] == Range(count, count);
    case Static(_) =>
      assert Defs(r.0) == [] == Range(count, count);
    case Return(Some(e)) =>
      ExprTempsFresh(slots, count, e);
      var v := ExprCode(slots, count, e).value;
      assert r.0 == v.1 + [r.0[|r.0| - 1]] && Defs([r.0[|r.0| - 1]]) == [];
      AppendNoDefs(v.1, [r.0[|r.0| - 1]], count, v.2);
    case Condition(cond, _, _) =>
      ExprTempsFresh(slots, count, cond);
      var v := ExprCode(slots, count, cond).value;
      assert r.0 == v.1 + [r.0[|r.0| - 1]] && Defs([r.0[|r.0| - 1]]) == [];
      AppendNoDefs(v.1, [r.0[|r.0| - 1]], count, v.2);
  }

  /** A block defines exactly the temps it used, in order: its label
      defines none. */
  lemma BlockTempsFresh(slots: seq<Temp>, count: nat, id: nat, b: Block)
    requires BlockCode(slots, count, id, b).Done?
    ensures var r := BlockCode(slots, count, id, b).value;
      count <= r.1 && Defs(r.0) == Range(count, r.1)
  {
    StmtsTempsFresh(slots, count, b.stmts);
    var st := StmtsCode(slots, count, b.stmts).value;
    BranchTempsFresh(st.2, st.1, b.branch);
    var br := BranchCode(st.2, st.1, b.branch).value;
    FreshAppend(st.0, br.0, count, st.1, br.1);
    DefsAppend([BlockLabel(id)], st.0 + br.0);
    assert [BlockLabel(id)] + st.0 + br.0 == [BlockLabel(id)] + (st.0 + br.0);
  }

  /** The first `n` blocks define exactly the temps they used, in order. */
  lemma {:induction false} BlocksTempsFresh(slots: seq<Temp>, count: nat, blocks: seq<Block>, n: nat)
    requires n <= |blocks| && BlocksCode(slots, count, blocks, n).Done?
    ensures var r := BlocksCode(slots, count, blocks, n).value;
      count <= r.1 && Defs(r.0) == Range(count, r.1)
    decreases n
  {
    if n == 0 {
      assert Defs([]) == Range(count, count);
    } else {
      BlocksTempsFresh(slots, count, blocks, n - 1);
      var p := BlocksCode(slots, count, blocks, n - 1).value;
      BlockTempsFresh(p.2, p.1, n - 1, blocks[n - 1]);
      var b := BlockCode(p.2, p.1, n - 1, blocks[n - 1]).value;
      FreshAppend(p.0, b.0, count, p.1, b.1);
    }
  }

  /** The prologue's allocs define exactly the temps it used, in order. */
  lemma {:induction false} PrologueTempsFresh(slots: seq<Temp>, count: nat, ps: seq<Param>)
    requires PrologueCode(slots, count, ps).Done?
    ensures var r := PrologueCode(slots, count, ps).value;
      count <= r.1 && Defs(r.0) == Range(count, r.1)
    decreases |ps|
  {
    if ps == [] {
      assert Defs([]) == Range(count, count);
    } else {
      PrologueTempsFresh(slots, count, ps[..|ps| - 1]);
      var p := PrologueCode(slots, count, ps[..|ps| - 1]).value;
      var last := ps[|ps| - 1];
      var a := AllocCode(p.2, p.1, last.ty);
      assert Defs(a.1) == Range(p.1, p.1 + 1);
      FreshAppend(p.0, a.1, count, p.1, a.2);
      if !last.ty.NoneTy? {
        var st := StoreCode(ParamValue(last), a.0).value;
        assert st == [st[0]] && Defs(st) == [];
        AppendNoDefs(p.0 + a.1, st, count, a.2);
      }
    }
  }

  /** Two runs of code numbering `lo..mid` and `mid..hi`, framed by
      instructions that define no temp, number `lo..hi`. */
  lemma FramedDefs(head: seq<Instr>, a: seq<Instr>, b: seq<Instr>, tail: seq<Instr>, lo: nat, mid: nat, hi: nat)
    requires lo <= mid <= hi && Defs(head) == [] && Defs(a) == Range(lo, mid) && Defs(b) == Range(mid, hi) && Defs(tail) == []
    ensures Defs(head + a + b + tail) == Range(lo, hi)
  {
    FreshAppend(a, b, lo, mid, hi);
    DefsAppend(head, a + b);
    assert head + a + b == head + (a + b);
    assert [] + Range(lo, hi) == Range(lo, hi);
    AppendNoDefs(head + a + b, tail, lo, hi);
  }

  /** A compiled function is its header, the start label, the prologue's
      code, every block's code and the closing brace. */
  lemma FunCodeParts(f: Fun)
    requires FunCode(f).Done?
    ensures var ps := ParamList(f.params, 0);
      && PrologueCode([], ps.1, ps.0).Done?
      && var pro := PrologueCode([], ps.1, ps.0).value;
      && BlocksCode(pro.2, pro.1, f.blocks, |f.blocks|).Done?
      && FunCode(f).value == [HeaderOf(ps.0), StartLabel] + pro.0 + BlocksCode(pro.2, pro.1, f.blocks, |f.blocks|).value.0 + [FunEnd]
  {
  }

  /** The header, the start label and the closing brace define no temp. */
  lemma FrameNoDefs(h: Instr)
    requires h.FunHeader?
    ensures Defs([h, StartLabel]) == [] && Defs([FunEnd]) == []
  {
    assert [FunEnd][1..] == [] && [h, StartLabel][1..] == [StartLabel] && [StartLabel][1..] == [];
  }

  /** The temps a compiled function defines are the counter values from
      the first one after the parameters' temps onwards. */
  lemma FunDefs(f: Fun)
    requires FunCode(f).Done?
    ensures var ps := ParamList(f.params, 0);
      Defs(FunCode(f).value) == Range(ps.1, ps.1 + |Defs(FunCode(f).value)|)
  {
    FunCodeParts(f);
    var ps := ParamList(f.params, 0);
    var pro := PrologueCode([], ps.1, ps.0).value;
    PrologueTempsFresh([], ps.1, ps.0);
    var bs := BlocksCode(pro.2, pro.1, f.blocks, |f.blocks|).value;
    BlocksTempsFresh(pro.2, pro.1, f.blocks, |f.blocks|);
    FrameNoDefs(HeaderOf(ps.0));
    var code := [HeaderOf(ps.0), StartLabel] + pro.0 + bs.0 + [FunEnd];
    FramedDefs([HeaderOf(ps.0), StartLabel], pro.0, bs.0, [FunEnd], ps.1, pro.1, bs.1);
    assert FunCode(f).value == code;
    assert ps.1 + |Defs(code)| == bs.1;
  }

  /** Every temp a compiled function defines is fresh: numbered after the
      parameters' temps, and all of them distinct and strictly increasing
      through the code, so no temp is defined twice. */
  lemma FunTempsFresh(f: Fun)
    requires FunCode(f).Done?
    ensures var d, np := Defs(FunCode(f).value), |ParamList(f.params, 0).0|;
      && d == Range(np, np + |d|)
      && (forall i, j | 0 <= i < j < |d| :: d[i] < d[j])
      && (forall k | 0 <= k < np :: ParamList(f.params, 0).0[k].temp.n < np)
  {
    FunDefs(f);
    var d, ps := Defs(FunCode(f).value), ParamList(f.params, 0);
    assert ps.1 == |ps.0|;
    forall i, j | 0 <= i < j < |d|
      ensures d[i] < d[j]
    {
      assert d[i] == ps.1 + i && d[j] == ps.1 + j;
    }
  }

  // ------------------------------------------------------ the compiler

  /** The compiler's state: stack slots, temp counter, output so far. */
  class Compiler {
    var stackSlots: seq<Temp>
    var tempCount: nat
    var output: seq<Instr>
    const fun: Fun

    constructor (fun: Fun)
      ensures stackSlots == [] && tempCount == 0 && output == [] && this.fun == fun
    {
      stackSlots := [];
      tempCount := 0;
      output := [];
      this.fun := fun;
    }

    method NewTemp() returns (t: Temp)
      modifies this
      ensures t == Temp(old(tempCount)) && tempCount == old(tempCount) + 1
      ensures stackSlots == old(stackSlots) && output == old(output)
    {
      t := Temp(tempCount);
      tempCount := tempCount + 1;
    }

    method AllocTy(ty: BackendTy) returns (t: Temp)
      modifies this
      ensures var c := AllocCode(old(stackSlots), old(tempCount), ty);
        t == c.0 && output == old(output) + c.1 && tempCount == c.2 && stackSlots == c.3
    {
      var align := AllocAlign(AlignBytes(ty));
      if align.None? {
        assert false;
      }
      t := NewTemp();
      stackSlots := stackSlots + [t];
      output := output + [Alloc(t, align.value, SizeBytes(ty))];
    }

    method Load(ty: BackendTy, addr: Temp) returns (v: Value)
      modifies this
      ensures var c := LoadCode(old(tempCount), ty, addr);
        v == c.0 && output == old(output) + c.1 && tempCount == c.2 && stackSlots == old(stackSlots)
    {
      match ty
      case BoolTy =>
        var t := NewTemp();
        output := output + [Instr.Load(t, "loadb", addr)];
        v := BoolVal(t);
      case IntTy(i) =>
        var t := NewTemp();
        output := output + [Instr.Load(t, LoadOpcode(i), addr)];
        v := IntVal(t, i);
      case PointerTy =>
        var t := NewTemp();
        output := output + [Instr.Load(t, "loadl", addr)];
        v := Pointer(t);
      case NoneTy =>
        v := NoValue;
    }

    method Store(v: Value, addr: Temp) returns (r: Lowered<()>)
      modifies this
      ensures var c := StoreCode(v, addr);
        && (r.Panic? <==> c.Panic?)
        && (c.Done? ==> output == old(output) + c.value)
        && tempCount == old(tempCount) && stackSlots == old(stackSlots)
    {
      match v
      case BoolVal(t) =>
        output := output + [Instr.Store("storeb", t, addr)];
        r := Done(());
      case IntVal(t, i) =>
        var op := match i.size case B8 => "storeb" case B16 => "storeh" case B32 => "storew";
        output := output + [Instr.Store(op, t, addr)];
        r := Done(());
      case Pointer(t) =>
        output := output + [Instr.Store("storew", t, addr)];
        r := Done(());
      case NoValue =>
        r := Panic;
    }

    method CompileAssign(a: Assign) returns (r: Lowered<Temp>)
      modifies this
      ensures var c := AssignCode(old(stackSlots), old(tempCount), a);
        && (r.Panic? <==> c.Panic?)
        && (c.Done? ==> r.value == c.value.0 && output == old(output) + c.value.1 && tempCount == c.value.2 && stackSlots == old(stackSlots))
      decreases a
    {
      match a
      case Deref(inner) =>
        var addr := CompileAssign(inner);
        if addr.Panic? {
          return Panic;
        }
        var t := NewTemp();
        output := output + [Instr.Load(t, "loadl", addr.value)];
        r := Done(t);
      case Stack(slot) =>
        if slot >= |stackSlots| {
          return Panic;
        }
        r := Done(stackSlots[slot]);
    }

    method CompileExpr(e: Expr) returns (r: Lowered<Value>)
      modifies this
      ensures var c := ExprCode(old(stackSlots), old(tempCount), e);
        && (r.Panic? <==> c.Panic?)
        && (c.Done? ==> r.value == c.value.0 && output == old(output) + c.value.1 && tempCount == c.value.2 && stackSlots == old(stackSlots))
      decreases e, 1
    {
      match e
      case IntLit(literal, ty) =>
        var t := NewTemp();
        output := output + [IntConst(t, literal)];
        r := Done(IntVal(t, ty));
      case BoolLit(b) =>
        var t := NewTemp();
        output := output + [BoolConst(t, if b then 1 else 0)];
        r := Done(BoolVal(t));
      case BinaryE(left, right, op) =>
        r := CompileBinary(left, right, op);
      case LoadSlot(slot, ty) =>
        if slot >= |stackSlots| {
          return Panic;
        }
        var v := Load(ty, stackSlots[slot]);
        r := Done(v);
      case RefSlot(slot) =>
        if slot >= |stackSlots| {
          return Panic;
        }
        r := Done(Pointer(stackSlots[slot]));
      case DerefE(inner, ty) =>
        var p := CompileExpr(inner);
        if p.Panic? || !p.value.Pointer? {
          return Panic;
        }
        var v := Load(ty, p.value.temp);
        r := Done(v);
    }

    /** The binary arm of `compile_expr`. */
    method CompileBinary(left: Expr, right: Expr, op: BinaryOp) returns (r: Lowered<Value>)
      modifies this
      ensures var c := ExprCode(old(stackSlots), old(tempCount), BinaryE(left, right, op));
        && (r.Panic? <==> c.Panic?)
        && (c.Done? ==> r.value == c.value.0 && output == old(output) + c.value.1 && tempCount == c.value.2 && stackSlots == old(stackSlots))
      decreases BinaryE(left, right, op), 0
    {
      ghost var slots, count, before := stackSlots, tempCount, output;
      var l := CompileExpr(left);
      if l.Panic? || !l.value.IntVal? {
        return Panic;
      }
      ghost var lc := ExprCode(slots, count, left).value;
      ghost var mid := output;
      r := CompileBinaryRight(l.value, right, op);
      ghost var tail := BinaryTail(l.value, ExprCode(slots, lc.2, right), op);
      if r.Done? {
        AppendAfter(before, lc.1, tail.value.1, mid, output);
      }
    }

    /** The binary arm after its left operand `l`: the right operand, then
        the operation. */
    method CompileBinaryRight(l: Value, right: Expr, op: BinaryOp) returns (r: Lowered<Value>)
      requires l.IntVal?
      modifies this
      ensures var c := BinaryTail(l, ExprCode(old(stackSlots), old(tempCount), right), op);
        && (r.Panic? <==> c.Panic?)
        && (c.Done? ==> r.value == c.value.0 && output == old(output) + c.value.1 && tempCount == c.value.2 && stackSlots == old(stackSlots))
      decreases right, 2
    {
      var rr := CompileExpr(right);
      if rr.Panic? || !rr.value.IntVal? || rr.value.ty != l.ty {
        return Panic;
      }
      r := EmitBinary(l, rr.value, op);
    }

    /** Emits the instruction of a binary expression whose operands are
        two ints of one type. */
    method EmitBinary(l: Value, right: Value, op: BinaryOp) returns (r: Lowered<Value>)
      requires l.IntVal? && right.IntVal? && l.ty == right.ty
      modifies this
      ensures tempCount == old(tempCount) + 1 && stackSlots == old(stackSlots)
      ensures var t := Temp(old(tempCount));
        && output == old(output) + [Binary(t, BinaryOpcode(op, l.ty.signedness), l.temp, right.temp)]
        && r == Done(if IsArith(op) then IntVal(t, l.ty) else BoolVal(t))
    {
      var opcode := BinaryOpcode(op, l.ty.signedness);
      var t := NewTemp();
      output := output + [Binary(t, opcode, l.temp, right.temp)];
      if IsArith(op) {
        r := Done(IntVal(t, l.ty));
      } else {
        r := Done(BoolVal(t));
      }
    }

    method CompileStmt(st: Stmt) returns (r: Lowered<()>)
      modifies this
      ensures var c := StmtCode(old(stackSlots), old(tempCount), st);
        && (r.Panic? <==> c.Panic?)
        && (c.Done? ==> output == old(output) + c.value.0 && tempCount == c.value.1 && stackSlots == c.value.2)
    {
      match st
      case AllocS(ty) =>
        var _ := AllocTy(ty);
        r := Done(());
      case AssignS(target, expr) =>
        var v := CompileExpr(expr);
        if v.Panic? {
          return Panic;
        }
        var addr := CompileAssign(target);
        if addr.Panic? {
          return Panic;
        }
        r := Store(v.value, addr.value);
    }

    /** The branch arm of `compile_block`. */
    method CompileBranch(br: Branch) returns (r: Lowered<()>)
      modifies this
      ensures var c := BranchCode(old(stackSlots), old(tempCount), br);
        && (r.Panic? <==> c.Panic?)
        && (c.Done? ==> output == old(output) + c.value.0 && tempCount == c.value.1 && stackSlots == old(stackSlots))
    {
      r := Done(());
      match br {
      case Return(None) =>
        output := output + [Ret(Types.None)];
      case Return(Some(e)) =>
        var v := CompileExpr(e);
        if v.Panic? {
          return Panic;
        }
        if v.value.NoValue? {
          output := output + [Ret(Types.None)];
        } else {
          output := output + [Ret(Types.Some(v.value.temp))];
        }
      case Static(target) =>
        output := output + [Jmp(target)];
      case Condition(cond, ifTrue, ifFalse) =>
        var v := CompileExpr(cond);
        if v.Panic? || !v.value.BoolVal? {
          return Panic;
        }
        output := output + [Jnz(v.value.temp, ifTrue, ifFalse)];
      }
    }

    /** The state after `stmts` were compiled from the given starting
        state. */
    ghost predicate CompiledStmts(slots: seq<Temp>, count: nat, out: seq<Instr>, stmts: seq<Stmt>)
      reads this
    {
      var c := StmtsCode(slots, count, stmts);
      c.Done? && output == out + c.value.0 && tempCount == c.value.1 && stackSlots == c.value.2
    }

    /** One iteration of the statement loop. */
    method CompileNextStmt(ghost slots: seq<Temp>, ghost count: nat, ghost out: seq<Instr>, stmts: seq<Stmt>, k: nat)
      returns (r: Lowered<()>)
      requires k < |stmts| && CompiledStmts(slots, count, out, stmts[..k])
      modifies this
      ensures r.Done? ==> CompiledStmts(slots, count, out, stmts[..k + 1])
      ensures r.Panic? ==> StmtsCode(slots, count, stmts).Panic?
    {
      ghost var s0, t0, o0 := stackSlots, tempCount, output;
      r := CompileStmt(stmts[k]);
      StmtsAdvance(slots, count, out, stmts, k, s0, t0, o0, r, stackSlots, tempCount, output);
    }

    /** The statement loop of `compile_block`. */
    method CompileStmts(stmts: seq<Stmt>) returns (r: Lowered<()>)
      modifies this
      ensures var c := StmtsCode(old(stackSlots), old(tempCount), stmts);
        && (r.Panic? <==> c.Panic?)
        && (c.Done? ==> output == old(output) + c.value.0 && tempCount == c.value.1 && stackSlots == c.value.2)
    {
      ghost var slots, count, out := stackSlots, tempCount, output;
      var i := 0;
      while i < |stmts|
        invariant 0 <= i <= |stmts|
        invariant CompiledStmts(slots, count, out, stmts[..i])
      {
        var st := CompileNextStmt(slots, count, out, stmts, i);
        if st.Panic? {
          return Panic;
        }
        i := i + 1;
      }
      assert stmts[..i] == stmts;
      r := Done(());
    }

    method CompileBlock(id: nat) returns (r: Lowered<()>)
      requires id < |fun.blocks|
      modifies this
      ensures var c := BlockCode(old(stackSlots), old(tempCount), id, fun.blocks[id]);
        && (r.Panic? <==> c.Panic?)
        && (c.Done? ==> output == old(output) + c.value.0 && tempCount == c.value.1 && stackSlots == c.value.2)
    {
      var block := fun.blocks[id];
      ghost var before := output;
      output := output + [BlockLabel(id)];
      ghost var labelled := output;
      ghost var sc := StmtsCode(stackSlots, tempCount, block.stmts);
      r := CompileStmts(block.stmts);
      if r.Panic? {
        return;
      }
      AppendAfter(before, [BlockLabel(id)], sc.value.0, labelled, output);
      ghost var mid := output;
      ghost var bc := BranchCode(stackSlots, tempCount, block.branch);
      r := CompileBranch(block.branch);
      if r.Done? {
        AppendAfter(before, [BlockLabel(id)] + sc.value.0, bc.value.0, mid, output);
      }
    }

    /** The first loop of `compile_fun`. */
    method CollectParams() returns (params: seq<Param>)
      modifies this
      ensures (params, tempCount) == ParamList(fun.params, old(tempCount))
      ensures stackSlots == old(stackSlots) && output == old(output)
    {
      params := [];
      var i := 0;
      while i < |fun.params|
        invariant 0 <= i <= |fun.params|
        invariant (params, tempCount) == ParamList(fun.params[..i], old(tempCount))
        invariant stackSlots == old(stackSlots) && output == old(output)
      {
        assert fun.params[..i + 1][..i] == fun.params[..i];
        match fun.params[i] {
        case BoolTy =>
          var t := NewTemp();
          params := params + [Param("w", t, BoolTy)];
        case NoneTy =>
        case PointerTy =>
          var t := NewTemp();
          params := params + [Param("l", t, PointerTy)];
        case IntTy(i) =>
          var t := NewTemp();
          params := params + [Param("w", t, IntTy(i))];
        }
        i := i + 1;
      }
      assert fun.params[..i] == fun.params;
    }

    /** The second loop of `compile_fun`. */
    method CompilePrologue(params: seq<Param>) returns (r: Lowered<()>)
      modifies this
      ensures var c := PrologueCode(old(stackSlots), old(tempCount), params);
        && (r.Panic? <==> c.Panic?)
        && (c.Done? ==> output == old(output) + c.value.0 && tempCount == c.value.1 && stackSlots == c.value.2)
    {
      var j := 0;
      while j < |params|
        invariant 0 <= j <= |params|
        invariant var c := PrologueCode(old(stackSlots), old(tempCount), params[..j]);
          c.Done? && output == old(output) + c.value.0 && tempCount == c.value.1 && stackSlots == c.value.2
      {
        assert params[..j + 1][..j] == params[..j];
        var p := params[j];
        var addr := AllocTy(p.ty);
        if !p.ty.NoneTy? {
          var st := Store(ParamValue(p), addr);
          if st.Panic? {
            assert false;
          }
        }
        j := j + 1;
      }
      assert params[..j] == params;
      r := Done(());
    }

    /** The block loop of `compile_fun`. */
    method CompileBlocks() returns (r: Lowered<()>)
      modifies this
      ensures var c := BlocksCode(old(stackSlots), old(tempCount), fun.blocks, |fun.blocks|);
        && (r.Panic? <==> c.Panic?)
        && (c.Done? ==> output == old(output) + c.value.0 && tempCount == c.value.1 && stackSlots == c.value.2)
    {
      var k := 0;
      ghost var slots, count, out := stackSlots, tempCount, output;
      while k < |fun.blocks|
        invariant 0 <= k <= |fun.blocks|
        invariant CompiledBlocks(slots, count, out, k)
      {
        var b := CompileNextBlock(slots, count, out, k);
        if b.Panic? {
          return Panic;
        }
        k := k + 1;
      }
      r := Done(());
    }

    /** The state after the first `k` blocks of `fun` were compiled from
        the given starting state. */
    ghost predicate CompiledBlocks(slots: seq<Temp>, count: nat, out: seq<Instr>, k: nat)
      reads this
    {
      && k <= |fun.blocks|
      && var c := BlocksCode(slots, count, fun.blocks, k);
      && c.Done? && output == out + c.value.0 && tempCount == c.value.1 && stackSlots == c.value.2
    }

    /** One iteration of the block loop. */
    method CompileNextBlock(ghost slots: seq<Temp>, ghost count: nat, ghost out: seq<Instr>, k: nat) returns (r: Lowered<()>)
      requires k < |fun.blocks| && CompiledBlocks(slots, count, out, k)
      modifies this
      ensures r.Done? ==> CompiledBlocks(slots, count, out, k + 1)
      ensures r.Panic? ==> BlocksCode(slots, count, fun.blocks, |fun.blocks|).Panic?
    {
      ghost var s0, t0, o0 := stackSlots, tempCount, output;
      r := CompileBlock(k);
      BlocksAdvance(slots, count, out, fun.blocks, k, s0, t0, o0, r, stackSlots, tempCount, output);
    }
  }

  /** `compile_fun`: compile a whole function into a fresh compiler's
      output. */
  method CompileFun(f: Fun) returns (r: Lowered<seq<Instr>>)
    ensures r == FunCode(f)
  {
    var c := new Compiler(f);
    var params := c.CollectParams();
    c.output := [HeaderOf(params), StartLabel];
    var pro := c.CompilePrologue(params);
    if pro.Panic? {
      return Panic;
    }
    var blocks := c.CompileBlocks();
    if blocks.Panic? {
      return Panic;
    }
    r := Done(c.output + [FunEnd]);
  }
}
