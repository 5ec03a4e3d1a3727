/** Worked examples of the lint on small concrete trees. */
module Scenarios {
  import opened Wrappers
  import opened Hir
  import opened Host
  import opened AnyLet
  import opened NeedlessIf

  /** A leaf expression (a path, a literal) with no sub-expressions. */
  function Leaf(id: HirId, sp: Span): Expr {
    Expr(id, sp, Other([]))
  }

  /** The empty block `{}` as an expression. */
  function EmptyBlock(id: HirId, sp: Span): Expr {
    Expr(id, sp, BlockExpr(Block([], None)))
  }

  /** A host for a body in which every node has no parent, nothing comes from
      a macro, and extraction recovers `text` exactly. */
  function PlainHost(effects: bool, text: string): Host {
    Host(
      _ => None,
      _ => None,
      _ => false,
      _ => false,
      _ => effects,
      (sp, dflt, a) => Snippet(text, a))
  }

  /** `if x > 0 {}`: reported, and the whole statement is removed. */
  lemma PureCondition()
    ensures
      var cond := Expr(1, Span(3, 8), Other([Leaf(2, Span(3, 4)), Leaf(3, Span(7, 8))]));
      var e := Expr(0, Span(0, 11), If(cond, EmptyBlock(4, Span(9, 11)), None));
      CheckExpr(PlainHost(false, "x > 0"), e)
        == Emit(Diagnostic(LintName, Span(0, 11), Message, Help, "", MachineApplicable))
  {
  }

  /** `if expensive_call(&mut state) {}`: reported, and the call is kept as a
      statement. */
  lemma EffectfulCondition()
    ensures
      var arg := Expr(3, Span(18, 28), Other([Leaf(4, Span(23, 28))]));
      var cond := Expr(1, Span(3, 29), Other([Leaf(2, Span(3, 17)), arg]));
      var e := Expr(0, Span(0, 32), If(cond, EmptyBlock(5, Span(30, 32)), None));
      CheckExpr(PlainHost(true, "expensive_call(&mut state)"), e)
        == Emit(Diagnostic(LintName, Span(0, 32), Message, Help,
                           "expensive_call(&mut state);", MachineApplicable))
  {
  }

  /** `if f(g({ if let Some(y) = x { true } else { false } })) {}`: a `let`
      four levels down (call, call, block, `if`) still suppresses the report. */
  lemma DeepLetSuppresses()
    ensures
      var l := Expr(6, Span(13, 29), Let(Leaf(7, Span(28, 29))));
      var yes := Expr(8, Span(30, 38), BlockExpr(Block([], Some(Leaf(9, Span(32, 36))))));
      var no := Expr(10, Span(44, 53), BlockExpr(Block([], Some(Leaf(11, Span(46, 51))))));
      var iflet := Expr(5, Span(10, 53), If(l, yes, Some(no)));
      var blk := Expr(4, Span(8, 55), BlockExpr(Block([], Some(iflet))));
      var g := Expr(2, Span(5, 56), Other([Leaf(3, Span(5, 6)), blk]));
      var f := Expr(1, Span(3, 57), Other([Leaf(12, Span(3, 4)), g]));
      var e := Expr(0, Span(0, 60), If(f, EmptyBlock(13, Span(58, 60)), None));
      CheckExpr(PlainHost(false, ""), e) == Suppressed
  {
    var l := Expr(6, Span(13, 29), Let(Leaf(7, Span(28, 29))));
    var yes := Expr(8, Span(30, 38), BlockExpr(Block([], Some(Leaf(9, Span(32, 36))))));
    var no := Expr(10, Span(44, 53), BlockExpr(Block([], Some(Leaf(11, Span(46, 51))))));
    var iflet := Expr(5, Span(10, 53), If(l, yes, Some(no)));
    var blk := Expr(4, Span(8, 55), BlockExpr(Block([], Some(iflet))));
    var g := Expr(2, Span(5, 56), Other([Leaf(3, Span(5, 6)), blk]));
    var f := Expr(1, Span(3, 57), Other([Leaf(12, Span(3, 4)), g]));
    var a := Leaf(3, Span(5, 6));
    var b := Leaf(12, Span(3, 4));
    assert [a, blk][1..] == [blk] && [b, g][1..] == [g];
    assert [blk][1..] == [] && [g][1..] == [];
    assert Visit(false, iflet);
    assert Visit(false, blk);
    assert !Visit(false, a) && VisitSeq(false, [blk]);
    assert Visit(false, g);
    assert !Visit(false, b) && VisitSeq(false, [g]);
    assert Visit(false, f);
    assert IsAnyLet(f);
  }

  /** `if a {} else if b {}`, with the parent index of that tree: neither the
      outer `if` nor the inner one is reported. */
  lemma ElseIfChain()
    ensures
      var inner := Expr(3, Span(13, 20), If(Leaf(4, Span(16, 17)), EmptyBlock(5, Span(18, 20)), None));
      var outer := Expr(0, Span(0, 20), If(Leaf(1, Span(3, 4)), EmptyBlock(2, Span(5, 7)), Some(inner)));
      var host := Host(
        id => if id == 3 then Some(0) else None,
        id => if id == 0 then Some(NodeExpr(outer)) else None,
        _ => false,
        _ => false,
        _ => false,
        (sp, dflt, a) => Snippet("", a));
      && CheckExpr(host, outer) == NotCandidate
      && CheckExpr(host, inner) == NotCandidate
  {
  }

  /** The same inner `if` seen with no parent (as if written on its own) is
      reported: the skip comes from the parent lookup, not from its shape. */
  lemma DetachedElseArmReported()
    ensures
      var inner := Expr(3, Span(13, 20), If(Leaf(4, Span(16, 17)), EmptyBlock(5, Span(18, 20)), None));
      CheckExpr(PlainHost(false, "b"), inner).Emit?
  {
  }

  /** `if x > 0 {} else { do_thing(); }`: an `else` makes it no candidate. */
  lemma ElsePresent()
    ensures
      var call := Expr(5, Span(19, 29), Other([Leaf(6, Span(19, 27))]));
      var els := Expr(4, Span(17, 33), BlockExpr(Block([Semi(call)], None)));
      var e := Expr(0, Span(0, 33), If(Leaf(1, Span(3, 8)), EmptyBlock(2, Span(9, 11)), Some(els)));
      CheckExpr(PlainHost(false, "x > 0"), e) == NotCandidate
  {
  }
}
