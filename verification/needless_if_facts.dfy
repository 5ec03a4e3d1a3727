/** What the lint promises about a single expression, for every host. */
module NeedlessIfFacts {
  import opened Wrappers
  import opened Hir
  import opened Host
  import opened AnyLet
  import opened NeedlessIf

  // ---------------------------------------------------------------------------
  // Structural matcher.
  // ---------------------------------------------------------------------------

  /** Only `if cond {}` with no `else` can be reported: an expression of any
      other kind, an `if` whose then-branch has a statement or a tail, and an
      `if` with an `else` are all not candidates. */
  lemma ShapeRequired(host: Host, e: Expr)
    requires !e.kind.If?
          || !e.kind.thenExpr.kind.BlockExpr?
          || |e.kind.thenExpr.kind.block.stmts| > 0
          || e.kind.thenExpr.kind.block.expr.Some?
          || e.kind.elseExpr.Some?
    ensures CheckExpr(host, e) == NotCandidate
  {
  }

  /** An expression whose span lies in an external macro is never reported,
      whatever its shape. */
  lemma ExternalMacroNeverReported(host: Host, e: Expr)
    requires host.inExternalMacro(e.span)
    ensures CheckExpr(host, e) == NotCandidate
  {
  }

  /** The `else if` guard: when the parent of `e` is an `if` whose `else` slot
      holds a node with `e`'s id, `e` is skipped, however that node looks. */
  lemma ElseArmSkipped(host: Host, e: Expr, pid: HirId, p: Expr)
    requires host.parentId(e.id) == Some(pid)
    requires host.find(pid) == Some(NodeExpr(p))
    requires p.kind.If? && p.kind.elseExpr.Some? && p.kind.elseExpr.value.id == e.id
    ensures CheckExpr(host, e) == NotCandidate
  {
  }

  /** The guard never skips a node without a parent (the root of a body). */
  lemma RootNotSkipped(host: Host, e: Expr)
    requires host.parentId(e.id).None?
    requires IsEmptyIf(e) && !host.inExternalMacro(e.span)
    ensures CheckExpr(host, e) != NotCandidate
  {
  }

  /** Nor a node whose parent is an `if` but which sits in another slot (the
      condition, the then-branch) or whose parent has no `else`. The test is by
      id: an `else` arm with a different id does not skip `e`, even when it is
      structurally identical to `e`. */
  lemma OtherSlotNotSkipped(host: Host, e: Expr, pid: HirId, p: Expr)
    requires host.parentId(e.id) == Some(pid)
    requires host.find(pid) == Some(NodeExpr(p))
    requires p.kind.If?
    requires p.kind.elseExpr.None? || p.kind.elseExpr.value.id != e.id
    requires IsEmptyIf(e) && !host.inExternalMacro(e.span)
    ensures CheckExpr(host, e) != NotCandidate
  {
  }

  /** A parent lookup that finds something other than an expression never
      skips `e`. */
  lemma NonExprParentNotSkipped(host: Host, e: Expr, pid: HirId)
    requires host.parentId(e.id) == Some(pid)
    requires host.find(pid) == None || host.find(pid) == Some(NodeOther)
    requires IsEmptyIf(e) && !host.inExternalMacro(e.span)
    ensures CheckExpr(host, e) != NotCandidate
  {
  }

  // ---------------------------------------------------------------------------
  // Suppression filter.
  // ---------------------------------------------------------------------------

  /** A `let` anywhere in the condition, at any depth, is enough on its own
      to keep a candidate from being reported. */
  lemma NestedLetSuppresses(host: Host, e: Expr, l: Expr)
    requires IsCandidate(host, e)
    requires l in Subexprs(e.kind.cond) && l.kind.Let?
    ensures CheckExpr(host, e) == Suppressed
  {
    assert AnyLetIn(Subexprs(e.kind.cond)) by {
      assert l in Subexprs(e.kind.cond) && l.kind.Let?;
    }
  }

  /** Coming from a procedural macro is enough on its own, too. */
  lemma ProcMacroSuppresses(host: Host, e: Expr)
    requires IsCandidate(host, e)
    requires host.isFromProcMacro(e)
    ensures CheckExpr(host, e) == Suppressed
  {
  }

  /** Conversely a candidate with neither a `let` in its condition nor
      procedural-macro provenance is reported. */
  lemma UnsuppressedCandidateReported(host: Host, e: Expr)
    requires IsCandidate(host, e)
    requires forall l :: l in Subexprs(e.kind.cond) ==> !l.kind.Let?
    requires !host.isFromProcMacro(e)
    ensures CheckExpr(host, e).Emit?
  {
  }

  // ---------------------------------------------------------------------------
  // Suggestion builder.
  // ---------------------------------------------------------------------------

  /** A condition that cannot have side effects is removed with the `if`:
      the replacement is empty. */
  lemma PureConditionRemoved(host: Host, e: Expr)
    requires CheckExpr(host, e).Emit?
    requires !host.canHaveSideEffects(e.kind.cond)
    ensures CheckExpr(host, e).diag.sugg == ""
  {
  }

  /** A condition that may have side effects is kept as a statement: its
      source text, as extracted, followed by `;` and nothing else. */
  lemma EffectfulConditionKept(host: Host, e: Expr)
    requires CheckExpr(host, e).Emit?
    requires host.canHaveSideEffects(e.kind.cond)
    ensures var text := host.snippet(e.kind.cond.span, Placeholder, MachineApplicable).text;
            CheckExpr(host, e).diag.sugg == text + ";"
  {
  }

  /** The fix is offered as machine-applicable exactly when snippet
      extraction, started at machine-applicable, hands it back unchanged:
      nothing but extraction can change it. */
  lemma ApplicabilityOnlyLoweredBySnippet(host: Host, e: Expr)
    requires CheckExpr(host, e).Emit?
    ensures var snip := host.snippet(e.kind.cond.span, Placeholder, MachineApplicable);
            CheckExpr(host, e).diag.app == MachineApplicable <==> snip.app == MachineApplicable
  {
  }

  /** A reported expression yields exactly one diagnostic, on the whole `if`,
      with the lint's fixed message and help text. */
  lemma OneDiagnosticPerReport(host: Host, e: Expr)
    requires ShouldEmit(host, e)
    ensures var ds := Emitted(CheckExpr(host, e));
            && |ds| == 1
            && ds[0].span == e.span
            && ds[0].lint == LintName
            && ds[0].msg == "this `if` branch is empty"
            && ds[0].help == "you can remove it"
  {
  }
}
