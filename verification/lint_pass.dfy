/** The lint as the host drives it: called once per expression the host's
    walker visits, with nothing carried from one call to the next. */
module LintPass {
  import opened Wrappers
  import opened Hir
  import opened Host
  import opened NeedlessIf

  /** The visited expressions the lint should report, in visiting order. */
  ghost function Reported(host: Host, nodes: seq<Expr>): seq<Expr>
    decreases |nodes|
  {
    if |nodes| == 0 then []
    else
      var last := nodes[|nodes| - 1];
      Reported(host, nodes[..|nodes| - 1]) + (if ShouldEmit(host, last) then [last] else [])
  }

  /** Run the lint on every visited expression and collect what it emits. The
      result holds one diagnostic per reportable expression, in the order the
      expressions were visited, each on its expression's span. */
  method RunPass(host: Host, nodes: seq<Expr>) returns (diags: seq<Diagnostic>)
    ensures |diags| == |Reported(host, nodes)|
    ensures forall k :: 0 <= k < |diags| ==>
      && diags[k].span == Reported(host, nodes)[k].span
      && diags[k].lint == LintName
      && diags[k].msg == Message
  {
    diags := [];
    for i := 0 to |nodes|
      invariant |diags| == |Reported(host, nodes[..i])|
      invariant forall k :: 0 <= k < |diags| ==>
        && diags[k].span == Reported(host, nodes[..i])[k].span
        && diags[k].lint == LintName
        && diags[k].msg == Message
    {
      assert nodes[..i + 1][..i] == nodes[..i];
      diags := diags + Emitted(CheckExpr(host, nodes[i]));
    }
    assert nodes[..|nodes|] == nodes;
  }

  /** The host's parent index agrees with the tree under `root` for every
      `else` arm: the parent of an `if`'s `else` expression is that `if`. */
  ghost predicate ElseParentsIndexed(host: Host, root: Expr) {
    forall p :: p in Subexprs(root) && p.kind.If? && p.kind.elseExpr.Some? ==>
      && host.parentId(p.kind.elseExpr.value.id).Some?
      && host.find(host.parentId(p.kind.elseExpr.value.id).value) == Some(NodeExpr(p))
  }

  /** In an `if a {} else if b {}` chain neither link is reported on its own:
      the outer `if` has an `else`, and the inner one is that `else`. */
  lemma ElseIfChainSilent(host: Host, root: Expr, p: Expr)
    requires ElseParentsIndexed(host, root)
    requires p in Subexprs(root) && p.kind.If? && p.kind.elseExpr.Some?
    ensures CheckExpr(host, p) == NotCandidate
    ensures CheckExpr(host, p.kind.elseExpr.value) == NotCandidate
  {
    var x := p.kind.elseExpr.value;
    assert IsElseArm(host, x);
  }
}
