/** The type payloads of src/ty.rs and their merge (`unify`) and `concrete`
    rules.

    A payload holds handles into the engine's arenas: `TyRef`, `IntTyRef`
    and `StructTyRef` are cells of three separate arenas. Where a merge rule
    calls the engine's `unify` on two child handles, the outcome of that call
    is given by the `Engine` parameter, and where a `concrete` rule resolves a
    child handle, the `Resolver` parameter gives the result. */
module Types {
  import opened Infer

  /** An interned identifier (the symbols module is not part of this model). */
  type Symbol = nat
  type TyRef = nat
  type IntTyRef = nat
  type StructTyRef = nat

  datatype Option<T> = None | Some(value: T)

  datatype Signedness = Signed | Unsigned
  datatype Size = B8 | B16 | B32
  datatype Int = Int(signedness: Signedness, size: Size)

  /** `IntTy`: a fixed integer type, or not yet known. */
  datatype IntTy = Fixed(fixed: Int) | IntAny

  datatype Field<T> = Field(name: Symbol, ty: T)
  datatype KnownStruct<T> = KnownStruct(name: Symbol, fields: seq<Field<T>>)

  /** `StructTy`: a declared struct, or only a set of fields it must have. */
  datatype StructTy = Nominal(s: KnownStruct<TyRef>) | WithFields(fields: map<Symbol, TyRef>)

  datatype Ty = Bool | Ref(pointee: TyRef) | IntOf(intRef: IntTyRef) | StructOf(st: StructTyRef) | TyAny

  datatype ConcreteTy = CBool | CRef(pointee: ConcreteTy) | CInt(fixed: Int) | CStruct(s: KnownStruct<ConcreteTy>)

  /** The outcome of the engine's `unify` on two handles of each arena. */
  datatype Engine = Engine(
    unifyTy: (TyRef, TyRef) -> Outcome<()>,
    unifyInt: (IntTyRef, IntTyRef) -> Outcome<()>,
    unifyStruct: (StructTyRef, StructTyRef) -> Outcome<()>)

  /** What `concrete` gives for a handle of each arena; `None` is a panic. */
  datatype Resolver = Resolver(
    ty: TyRef -> Option<ConcreteTy>,
    intTy: IntTyRef -> Option<Int>,
    st: StructTyRef -> Option<KnownStruct<ConcreteTy>>)

  // ---------------------------------------------------------------- IntTy

  /** `x` carries at least the information of `y`. */
  predicate RefinesInt(x: IntTy, y: IntTy)
  {
    y.IntAny? || x == y
  }

  /** `IntTy::unify`. */
  function UnifyInt(a: IntTy, b: IntTy): (r: Outcome<IntTy>)
    ensures r != Abort
    ensures r.Ok? <==> (a.IntAny? || b.IntAny? || a == b)
    ensures a.IntAny? ==> r == Ok(b)
    ensures b.IntAny? ==> r == Ok(a)
  {
    match (a, b)
    case (IntAny, IntAny) => Ok(IntAny)
    case (ty, IntAny) => Ok(ty)
    case (IntAny, ty) => Ok(ty)
    case (Fixed(x), Fixed(y)) => if x == y then Ok(Fixed(x)) else Err
  }

  /** A merge is the most general payload refining both sides. */
  lemma UnifyIntIsMeet(a: IntTy, b: IntTy)
    ensures UnifyInt(a, b).Ok? ==>
      && RefinesInt(UnifyInt(a, b).value, a) && RefinesInt(UnifyInt(a, b).value, b)
      && forall d :: RefinesInt(d, a) && RefinesInt(d, b) ==> RefinesInt(d, UnifyInt(a, b).value)
    ensures !UnifyInt(a, b).Ok? ==> forall d :: !(RefinesInt(d, a) && RefinesInt(d, b))
  {
  }

  lemma UnifyIntCommutes(a: IntTy, b: IntTy)
    ensures UnifyInt(a, b) == UnifyInt(b, a)
  {
  }

  /** `IntTy::concrete`: an unknown integer defaults to a signed 32-bit one. */
  function ConcreteInt(t: IntTy): (r: Int)
    ensures t.Fixed? ==> r == t.fixed
    ensures t.IntAny? ==> r == Int(Signed, B32)
  {
    match t
    case Fixed(x) => x
    case IntAny => Int(Signed, B32)
  }

  /** Once a fixed integer type has taken part in a merge, the merged payload
      concretizes to it. */
  lemma ConcreteIntAfterUnify(a: IntTy, b: IntTy)
    requires a.Fixed? && UnifyInt(a, b).Ok?
    ensures ConcreteInt(UnifyInt(a, b).value) == a.fixed
    ensures b.Fixed? ==> ConcreteInt(UnifyInt(a, b).value) == b.fixed
  {
  }

  // ------------------------------------------------------------------- Ty

  predicate SameKind(a: Ty, b: Ty)
  {
    (a.Bool? && b.Bool?) || (a.Ref? && b.Ref?) || (a.IntOf? && b.IntOf?) ||
    (a.StructOf? && b.StructOf?) || (a.TyAny? && b.TyAny?)
  }

  /** `Ty::unify`. `Any` is a two-sided identity; `Ref`, `Int` and `Struct`
      pairs delegate to the engine on their children and keep the left
      handle, which the engine has overwritten with the unified contents;
      any other pairing is an error. */
  function UnifyTy(a: Ty, b: Ty, e: Engine): (r: Outcome<Ty>)
    ensures a.TyAny? ==> r == Ok(b)
    ensures b.TyAny? ==> r == Ok(a)
    ensures !a.TyAny? && !b.TyAny? && !SameKind(a, b) ==> r == Err
    ensures a.Bool? && b.Bool? ==> r == Ok(Bool)
    ensures a.Ref? && b.Ref? ==> Status(r) == e.unifyTy(a.pointee, b.pointee)
    ensures a.IntOf? && b.IntOf? ==> Status(r) == e.unifyInt(a.intRef, b.intRef)
    ensures a.StructOf? && b.StructOf? ==> Status(r) == e.unifyStruct(a.st, b.st)
    ensures r.Ok? ==> (r.value == a || r.value == b) && (a.TyAny? || SameKind(r.value, a))
  {
    match (a, b)
    case (TyAny, TyAny) => Ok(TyAny)
    case (TyAny, ty) => Ok(ty)
    case (ty, TyAny) => Ok(ty)
    case (Bool, Bool) => Ok(Bool)
    case (Ref(x), Ref(y)) => Keep(e.unifyTy(x, y), a)
    case (IntOf(x), IntOf(y)) => Keep(e.unifyInt(x, y), a)
    case (StructOf(x), StructOf(y)) => Keep(e.unifyStruct(x, y), a)
    case _ => Err
  }

  /** The `?` after an engine call: its failure, or `t`. */
  function Keep<R>(o: Outcome<()>, t: R): (r: Outcome<R>)
    ensures Status(r) == o && (r.Ok? ==> r.value == t)
  {
    match o
    case Ok(u) =>
      assert u == ();
      Ok(t)
    case Err => Err
    case Abort => Abort
  }

  lemma UnifyTyAnyIdentity(t: Ty, e: Engine)
    ensures UnifyTy(TyAny, t, e) == Ok(t) && UnifyTy(t, TyAny, e) == Ok(t)
  {
  }

  /** `Ty::concrete`; `Any` is a `todo!()` and panics. */
  function ConcreteOf(t: Ty, res: Resolver): (r: Option<ConcreteTy>)
    ensures t.TyAny? ==> r == None
    ensures t.Bool? ==> r == Some(CBool)
    ensures t.Ref? ==> (r.Some? <==> res.ty(t.pointee).Some?) && (r.Some? ==> r.value == CRef(res.ty(t.pointee).value))
    ensures t.IntOf? ==> (r.Some? <==> res.intTy(t.intRef).Some?) && (r.Some? ==> r.value == CInt(res.intTy(t.intRef).value))
    ensures t.StructOf? ==> (r.Some? <==> res.st(t.st).Some?) && (r.Some? ==> r.value == CStruct(res.st(t.st).value))
  {
    match t
    case Bool => Some(CBool)
    case Ref(x) => if res.ty(x).Some? then Some(CRef(res.ty(x).value)) else None
    case IntOf(x) => if res.intTy(x).Some? then Some(CInt(res.intTy(x).value)) else None
    case StructOf(x) => if res.st(x).Some? then Some(CStruct(res.st(x).value)) else None
    case TyAny => None
  }

  /** Both sides of a successful merge of two known kinds concretize alike
      once the engine has made their children agree. */
  lemma ConcreteAfterUnifyTy(a: Ty, b: Ty, e: Engine, res: Resolver)
    requires !a.TyAny? && UnifyTy(a, b, e).Ok?
    requires a.Ref? && b.Ref? ==> res.ty(a.pointee) == res.ty(b.pointee)
    requires a.IntOf? && b.IntOf? ==> res.intTy(a.intRef) == res.intTy(b.intRef)
    requires a.StructOf? && b.StructOf? ==> res.st(a.st) == res.st(b.st)
    ensures ConcreteOf(UnifyTy(a, b, e).value, res) == ConcreteOf(a, res)
    ensures !b.TyAny? ==> ConcreteOf(a, res) == ConcreteOf(b, res)
  {
  }

  // ------------------------------------------------------------- StructTy

  /** Where the first declared field called `name` is (`fields.iter().find`). */
  function FindField(fields: seq<Field<TyRef>>, name: Symbol): (r: Option<nat>)
    ensures r.None? <==> forall k | 0 <= k < |fields| :: fields[k].name != name
    ensures r.Some? ==> r.value < |fields| && fields[r.value].name == name
    ensures r.Some? ==> forall j | 0 <= j < r.value :: fields[j].name != name
  {
    if |fields| == 0 then None
    else if fields[0].name == name then Some(0)
    else
      var r := FindField(fields[1..], name);
      if r.Some? then Some(r.value + 1) else None
  }

  /** What checking one required field against a declared struct gives: a
      panic when the struct has no such field (the `unwrap`), otherwise the
      engine's unification of the declared type with the required one. */
  function FieldStatus(s: KnownStruct<TyRef>, name: Symbol, required: TyRef, e: Engine): Outcome<()>
  {
    match FindField(s.fields, name)
    case None => Abort
    case Some(k) => e.unifyTy(s.fields[k].ty, required)
  }

  /** `Known` x `WithFields`, either order (ty.rs:122-129): every required
      field is checked, the first failure ends the loop, and the declared
      struct is the result. Iteration order over the required fields is
      unspecified, so the failure reported is that of some failing field. */
  method UnifyNominalWithFields(s: KnownStruct<TyRef>, required: map<Symbol, TyRef>, e: Engine)
    returns (r: Outcome<StructTy>)
    ensures r.Ok? <==> forall k | k in required :: FieldStatus(s, k, required[k], e).Ok?
    ensures r.Ok? ==> r.value == Nominal(s)
    ensures !r.Ok? ==> exists k | k in required :: FieldStatus(s, k, required[k], e) == Status(r)
  {
    var pending := required.Keys;
    while pending != {}
      invariant pending <= required.Keys
      invariant forall k | k in required && k !in pending :: FieldStatus(s, k, required[k], e).Ok?
      decreases pending
    {
      var name :| name in pending;
      var found := FindField(s.fields, name);
      if found.None? {
        return Abort;
      }
      var o := e.unifyTy(s.fields[found.value].ty, required[name]);
      if !o.Ok? {
        return if o.Err? then Err else Abort;
      }
      pending := pending - {name};
    }
    r := Ok(Nominal(s));
  }

  /** `WithFields` x `WithFields` (ty.rs:130-137): the key sets are joined; a
      shared key keeps `a`'s handle after the engine has unified it with
      `b`'s, and a key only in `b` is inserted with `b`'s handle. */
  method UnifyFieldMaps(a: map<Symbol, TyRef>, b: map<Symbol, TyRef>, e: Engine)
    returns (r: Outcome<StructTy>)
    ensures r.Ok? <==> forall k | k in a && k in b :: e.unifyTy(a[k], b[k]).Ok?
    ensures r.Ok? ==> r.value == WithFields(b + a) && r.value.fields.Keys == a.Keys + b.Keys
    ensures !r.Ok? ==> exists k | k in a && k in b :: e.unifyTy(a[k], b[k]) == Status(r)
  {
    var merged := a;
    var pending := b.Keys;
    while pending != {}
      invariant pending <= b.Keys
      invariant merged == (b - pending) + a
      invariant forall k | k in a && k in b && k !in pending :: e.unifyTy(a[k], b[k]).Ok?
      decreases pending
    {
      var name :| name in pending;
      if name in merged {
        var o := e.unifyTy(merged[name], b[name]);
        if !o.Ok? {
          return if o.Err? then Err else Abort;
        }
      } else {
        merged := merged[name := b[name]];
      }
      pending := pending - {name};
    }
    assert b - {} == b;
    r := Ok(WithFields(merged));
  }

  /** `StructTy::unify`. */
  method UnifyStruct(a: StructTy, b: StructTy, e: Engine) returns (r: Outcome<StructTy>)
    ensures a.Nominal? && b.Nominal? ==> r == if a.s.name == b.s.name then Ok(a) else Err
    ensures a.Nominal? && b.WithFields? ==>
      && (r.Ok? <==> forall k | k in b.fields :: FieldStatus(a.s, k, b.fields[k], e).Ok?)
      && (r.Ok? ==> r.value == a)
    ensures a.WithFields? && b.Nominal? ==>
      && (r.Ok? <==> forall k | k in a.fields :: FieldStatus(b.s, k, a.fields[k], e).Ok?)
      && (r.Ok? ==> r.value == b)
    ensures a.WithFields? && b.WithFields? ==>
      && (r.Ok? <==> forall k | k in a.fields && k in b.fields :: e.unifyTy(a.fields[k], b.fields[k]).Ok?)
      && (r.Ok? ==> r.value == WithFields(b.fields + a.fields))
  {
    match (a, b)
    case (Nominal(x), Nominal(y)) =>
      r := if x.name == y.name then Ok(a) else Err;
    case (Nominal(s), WithFields(required)) =>
      r := UnifyNominalWithFields(s, required, e);
    case (WithFields(required), Nominal(s)) =>
      r := UnifyNominalWithFields(s, required, e);
    case (WithFields(x), WithFields(y)) =>
      r := UnifyFieldMaps(x, y, e);
  }

  /** The fields of a declared struct with each type concretized, in order. */
  function ConcreteFields(fields: seq<Field<TyRef>>, res: Resolver): (r: Option<seq<Field<ConcreteTy>>>)
    ensures r.Some? <==> forall k | 0 <= k < |fields| :: res.ty(fields[k].ty).Some?
    ensures r.Some? ==> (&& |r.value| == |fields|
                         && forall k | 0 <= k < |fields| :: r.value[k] == Field(fields[k].name, res.ty(fields[k].ty).value))
  {
    if |fields| == 0 then Some([])
    else
      var head := res.ty(fields[0].ty);
      var tail := ConcreteFields(fields[1..], res);
      if head.Some? && tail.Some? then
        Some([Field(fields[0].name, head.value)] + tail.value)
      else
        assert head.None? ==> !res.ty(fields[0].ty).Some?;
        assert tail.None? ==> exists k | 0 <= k < |fields[1..]| :: !res.ty(fields[1..][k].ty).Some?;
        None
  }

  /** `StructTy::concrete`: a declared struct keeps its name and its fields
      in order, each field's type concretized; a struct known only by its
      fields panics. */
  function ConcreteStruct(t: StructTy, res: Resolver): (r: Option<KnownStruct<ConcreteTy>>)
    ensures t.WithFields? ==> r == None
    ensures t.Nominal? ==> (r.Some? <==> forall k | 0 <= k < |t.s.fields| :: res.ty(t.s.fields[k].ty).Some?)
    ensures r.Some? ==> (&& r.value.name == t.s.name && |r.value.fields| == |t.s.fields|
                         && forall k | 0 <= k < |t.s.fields| ::
                              r.value.fields[k] == Field(t.s.fields[k].name, res.ty(t.s.fields[k].ty).value))
  {
    match t
    case Nominal(s) =>
      var fs := ConcreteFields(s.fields, res);
      if fs.Some? then Some(KnownStruct(s.name, fs.value)) else None
    case WithFields(_) => None
  }

  // ------------------------------------------- the engine over IntTy cells

  /** Two fixed integer cells of different signedness: the payload check
      rejects them and the engine panics instead of returning an error. */
  method IntMismatch() returns (r: Outcome<Cell<IntTy>>)
    ensures r == Abort
  {
    var arena := new Arena((x, y) => UnifyInt(x, y).Ok?);
    var s8 := arena.NewKnownLeaf(Fixed(Int(Signed, B8)));
    var u8 := arena.NewKnownLeaf(Fixed(Int(Unsigned, B8)));
    r := arena.Unify(s8, u8, 1);
  }

  /** Two equal fixed integer cells unify, and both concretize to that type. */
  method IntMatch() returns (r: Outcome<Cell<IntTy>>, c: Outcome<IntTy>)
    ensures r == Ok(Known(Fixed(Int(Signed, B8)), []))
    ensures c == Ok(Fixed(Int(Signed, B8)))
  {
    var arena := new Arena((x, y) => UnifyInt(x, y).Ok?);
    var a := arena.NewKnownLeaf(Fixed(Int(Signed, B8)));
    var b := arena.NewKnownLeaf(Fixed(Int(Signed, B8)));
    r := arena.Unify(a, b, 1);
    c := arena.Concrete(b);
  }

  /** The engine keeps the left payload instead of the merged one: after
      `Known(IntAny)` x `Known(Fixed(i8))` both cells hold `IntAny`, so the
      fixed type is lost and the cell concretizes to the default i32. */
  method PayloadKeptFromLeft() returns (r: Outcome<Cell<IntTy>>, c: Outcome<IntTy>)
    ensures r == Ok(Known(IntAny, []))
    ensures c == Ok(IntAny) && ConcreteInt(c.value) == Int(Signed, B32)
  {
    var arena := new Arena((x, y) => UnifyInt(x, y).Ok?);
    var a := arena.NewKnownLeaf(IntAny);
    var b := arena.NewKnownLeaf(Fixed(Int(Signed, B8)));
    r := arena.Unify(a, b, 1);
    c := arena.Concrete(b);
  }

  /** Two unknown cells unified with each other stay unresolved:
      `concrete` on either panics. */
  method UnresolvedAfterAliasing() returns (r: Outcome<Cell<IntTy>>, ca: Outcome<IntTy>, cb: Outcome<IntTy>)
    ensures r.Ok? && r.value.Equal?
    ensures ca == Abort && cb == Abort
  {
    var arena := new Arena((x, y) => UnifyInt(x, y).Ok?);
    var a := arena.NewAny();
    var b := arena.NewAny();
    r := arena.Unify(a, b, 1);
    ca := arena.Concrete(a);
    cb := arena.Concrete(b);
  }

  /** Two unknown cells unified with each other alias one shared cell, so a
      later refinement through either handle is seen through the other:
      unifying `a` with a known `i8` cell makes `concrete` on `b` give `i8`. */
  method RefinementSeenThroughAlias() returns (c: Outcome<IntTy>)
    ensures c == Ok(Fixed(Int(Signed, B8)))
  {
    var arena := new Arena((x, y) => UnifyInt(x, y).Ok?);
    var a := arena.NewAny();
    var b := arena.NewAny();
    AliasThenRefine(arena.check, Fixed(Int(Signed, B8)));
    var r := arena.Unify(a, b, 1);
    assert arena.cells == [Equal(2), Equal(2), Any];
    var k := arena.NewKnownLeaf(Fixed(Int(Signed, B8)));
    r := arena.Unify(a, k, 2);
    assert arena.cells[b] == Equal(2) && arena.cells[2] == Known(Fixed(Int(Signed, B8)), []);
    c := arena.Concrete(b);
  }
}
