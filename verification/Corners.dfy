/**
  What the generator does with what the theorems on meaning leave out: boolean
  operators, integers stored as pointers, and types other than INT.
 */
module Corners {
  import opened Wrappers
  import opened Ast
  import opened Ir
  import opened Lowering
  import opened Analysis

  predicate Boolean(u: Unit) { u.operation == Some(Or) || u.operation == Some(And) }

  // Behind `or` and `and` operands are evaluated for their effects only.
  lemma {:induction false} BooleansDropped(F: Signatures, g: Gen, total: Value, units: seq<Unit>)
    requires WF(g) && forall u :: u in units ==> Boolean(u)
    ensures var r := LowerUnits(F, g, Some(total), units); r.Some? ==> r.value.value == total
    decreases |units|
  {
    if units != [] {
      assert units[0] in units;
      var first := LowerUnit(F, g, Some(total), units[0]);
      if first.Some? {
        BooleansDropped(F, first.value.gen, total, units[1..]);
      }
    }
  }

  // The last instruction at the insertion point.
  function LastOf(g: Gen): Option<Instruction>
    requires WF(g)
  {
    if g.blocks[g.cur] == [] then None else Some(g.blocks[g.cur][|g.blocks[g.cur]| - 1])
  }

  // Through a marked assignment only pointers are stored: an integer is made
  // into one.
  lemma {:induction false} PointerStored(F: Signatures, g: Gen, target: string, steps: nat, e: Expression)
    requires WF(g) && e.evaluatedType.isPointer && LowerAssignment(F, g, target, steps, e).Some?
    ensures var last := LastOf(LowerAssignment(F, g, target, steps, e).value); last.Some? && last.value.Store? && last.value.value.Type() == Ptr
  {}

  // Bits of a value in memory.
  function Bits(ty: Ty): Option<nat> {
    match ty
    case I1 => Some(1)
    case I8 => Some(8)
    case I32 => Some(32)
    case Ptr => None
    case Struct => None
  }

  // The cell of a variable: a pointer, or as wide as its type.
  lemma {:induction false} CellWidth(g: Gen, v: Variable)
    requires WF(g)
    ensures var g' := LowerDeclaration(g, v); v.typ.dataType != NoType <==> g'.Some?
    ensures v.typ.dataType != NoType ==>
              var last := LastOf(LowerDeclaration(g, v).value);
              && last.Some? && last.value.Alloca?
              && (last.value.typ == Ptr <==> v.typ.isPointer)
              && (!v.typ.isPointer && v.typ.dataType in {Int, SInt32, UInt32} ==> Bits(last.value.typ) == Some(32))
              && (!v.typ.isPointer && v.typ.dataType == Char ==> Bits(last.value.typ) == Some(8))
              && (!v.typ.isPointer && v.typ.dataType == Bool ==> Bits(last.value.typ) == Some(1))
              && (!v.typ.isPointer && v.typ.dataType == Str ==> last.value.typ == Struct)
  {}

  // The address of a variable of any type is a pointer to INT, so a pointer to
  // INT may take it; what is read through all pointers of a variable has the
  // data type of the variable.
  lemma {:induction false} AddressOfAny(F: Signatures, T: Types, x: string, p: string, t: Type)
    requires LookupIn<Type>(T, x) == Some(t) && LookupIn<Type>(T, p) == Some(Type(Int, true, 1))
    ensures AnnotateAssignment(F, T, p, 0, Expression([Unit(None, Identifier(x, GetAddress, 1))], NO_TYPE)).Some?
    ensures t.isPointer && t.pointerDepth > 0 ==>
              var e := AnnotateExpression(F, T, Expression([Unit(None, Identifier(x, GetValue, t.pointerDepth))], NO_TYPE));
              e.Some? && e.value.evaluatedType == Type(t.dataType, false, 0)
  {
    var address, value := Unit(None, Identifier(x, GetAddress, 1)), Unit(None, Identifier(x, GetValue, t.pointerDepth));
    OneUnit(F, T, address);
    OneUnit(F, T, value);
  }

  lemma {:induction false} OneUnit(F: Signatures, T: Types, u: Unit)
    requires u.operand.Identifier?
    ensures var t := UnitType(F, T, None, u);
            AnnotateExpression(F, T, Expression([u], NO_TYPE)) == if t.None? then None else Some(Expression([u], t.value))
  {
    assert [u][1..] == [] && AnnotateOperand(F, T, u.operand) == Some(u.operand) && AnnotateUnit(F, T, u) == Some(u);
    assert AnnotateUnits(F, T, []) == Some([]) && AnnotateUnits(F, T, [u]) == Some([u] + []) && [u] + [] == [u];
    var t := UnitType(F, T, None, u);
    if t.Some? {
      assert UnitsType(F, T, t, []) == t;
    }
    assert UnitsType(F, T, None, [u]) == t;
  }
}
