/** The compiler-side services the lint queries, abstracted as pure functions
    supplied by the caller, and the diagnostic the lint hands to the
    diagnostic renderer. */
module Host {
  import opened Wrappers
  import opened Hir

  /** How confidently a suggested fix may be applied, most confident first. */
  datatype Applicability = MachineApplicable | MaybeIncorrect | HasPlaceholders | Unspecified

  /** What snippet extraction hands back: the text, and the applicability as
      it left it. */
  datatype Snippet = Snippet(text: string, app: Applicability)

  /** The lint context. Each field stands for one query the lint makes:
      - `parentId`: the HIR map's parent-id lookup (`opt_parent_id`);
      - `find`: the HIR map's lookup of a node by id;
      - `inExternalMacro`: whether a span comes from a macro defined outside
        the crate being linted;
      - `isFromProcMacro`: whether an expression was produced by a
        procedural macro;
      - `canHaveSideEffects`: whether evaluating an expression may have an
        observable effect;
      - `snippet`: `snippet_with_applicability`, given the span, the text to
        use when the source cannot be recovered, and the applicability so far. */
  datatype Host = Host(
    parentId: HirId -> Option<HirId>,
    find: HirId -> Option<Node>,
    inExternalMacro: Span -> bool,
    isFromProcMacro: Expr -> bool,
    canHaveSideEffects: Expr -> bool,
    snippet: (Span, string, Applicability) -> Snippet
  )

  /** One lint emission with a suggestion (`span_lint_and_sugg`). */
  datatype Diagnostic = Diagnostic(
    lint: string,
    span: Span,
    msg: string,
    help: string,
    sugg: string,
    app: Applicability
  )
}

/** The `NEEDLESS_IF` lint: an `if` whose then-branch is `{}` and which has no
    `else` can be removed, keeping the condition as a statement when it may
    have side effects. */
module NeedlessIf {
  import opened Wrappers
  import opened Hir
  import opened Host
  import opened AnyLet

  const LintName: string := "needless_if"
  const Message: string := "this `if` branch is empty"
  const Help: string := "you can remove it"
  /** The text snippet extraction substitutes when it cannot recover the source. */
  const Placeholder: string := "{ ... }"

  /** What one call of the lint on one expression does. */
  datatype Outcome =
      /** The expression is not an empty, else-less `if` written in this crate,
          or it is the `else if` arm of an enclosing `if`. */
    | NotCandidate
      /** A candidate, but its condition binds a pattern or it comes from a
          procedural macro. */
    | Suppressed
      /** Exactly one diagnostic is emitted. */
    | Emit(diag: Diagnostic)

  // ---------------------------------------------------------------------------
  // The decision, stated on its own terms.
  // ---------------------------------------------------------------------------

  /** `if cond {}` with no `else`: the then-branch is a block with no
      statements and no tail expression. */
  predicate IsEmptyIf(e: Expr) {
    && e.kind.If?
    && e.kind.thenExpr.kind.BlockExpr?
    && IsEmptyBlock(e.kind.thenExpr.kind.block)
    && e.kind.elseExpr.None?
  }

  /** `e` is the `else` arm of its parent: the parent lookup succeeds, the
      parent is an `if` with an `else`, and that `else` is the very node `e`
      (same id). */
  predicate IsElseArm(host: Host, e: Expr) {
    match host.parentId(e.id)
    case None => false
    case Some(pid) =>
      match host.find(pid)
      case Some(NodeExpr(p)) =>
        p.kind.If? && p.kind.elseExpr.Some? && p.kind.elseExpr.value.id == e.id
      case _ => false
  }

  /** Accepted by the structural matcher. */
  predicate IsCandidate(host: Host, e: Expr) {
    IsEmptyIf(e) && !host.inExternalMacro(e.span) && !IsElseArm(host, e)
  }

  /** A candidate the lint stays silent about. */
  ghost predicate IsSuppressed(host: Host, e: Expr)
    requires e.kind.If?
  {
    ContainsLet(e.kind.cond) || host.isFromProcMacro(e)
  }

  /** The lint reports `e`. */
  ghost predicate ShouldEmit(host: Host, e: Expr) {
    IsCandidate(host, e) && !IsSuppressed(host, e)
  }

  /** The suggested replacement: nothing when the condition is free of side
      effects, otherwise the condition's text as a statement. */
  function Replacement(host: Host, cond: Expr, snippet: string): string {
    if host.canHaveSideEffects(cond) then snippet + ";" else ""
  }

  // ---------------------------------------------------------------------------
  // The lint.
  // ---------------------------------------------------------------------------

  /** `NeedlessIf::check_expr`. */
  function CheckExpr(host: Host, e: Expr): (r: Outcome)
    ensures r.NotCandidate? <==> !IsCandidate(host, e)
    ensures r.Suppressed? <==> IsCandidate(host, e) && IsSuppressed(host, e)
    ensures r.Emit? <==> ShouldEmit(host, e)
    ensures r.Emit? ==>
      var cond := e.kind.cond;
      var snip := host.snippet(cond.span, Placeholder, MachineApplicable);
      && r.diag.lint == LintName
      && r.diag.span == e.span
      && r.diag.msg == Message
      && r.diag.help == Help
      && r.diag.sugg == (if host.canHaveSideEffects(cond) then snip.text + [';'] else [])
      && r.diag.app == snip.app
  {
    if e.kind.If? && e.kind.thenExpr.kind.BlockExpr?
       && |e.kind.thenExpr.kind.block.stmts| == 0
       && e.kind.thenExpr.kind.block.expr.None?
       && e.kind.elseExpr.None?
       && !host.inExternalMacro(e.span)
    then
      if IsElseArm(host, e) then
        NotCandidate
      else if IsAnyLet(e.kind.cond) || host.isFromProcMacro(e) then
        Suppressed
      else
        var app := MachineApplicable;
        var snip := host.snippet(e.kind.cond.span, Placeholder, app);
        Emit(Diagnostic(LintName, e.span, Message, Help,
                        Replacement(host, e.kind.cond, snip.text), snip.app))
    else
      NotCandidate
  }

  /** The diagnostics one call emits. */
  function Emitted(o: Outcome): (ds: seq<Diagnostic>)
    ensures |ds| <= 1
    ensures |ds| == 1 <==> o.Emit?
    ensures o.Emit? ==> ds == [o.diag]
  {
    if o.Emit? then [o.diag] else []
  }
}
