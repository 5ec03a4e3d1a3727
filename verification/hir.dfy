/** The small optional-value type used throughout the model. */
module Wrappers {

  datatype Option<+T> = None | Some(value: T)
}

/** A read-only view of the part of the compiler's high-level IR (HIR) that the
    needless-if lint looks at: expressions carrying an id and a span, blocks,
    statements, and the nodes a parent lookup can return.

    Kinds the lint does not inspect are collapsed into `Other`, which carries
    exactly the sub-expressions the compiler's `walk_expr` would visit for it
    (the operands of a binary operator, the callee and arguments of a call,
    the guards and bodies of match arms, nothing for a closure because
    nested bodies are not entered). An `if let` guard of a match arm is not
    a `Let` expression: the walk reaches only its initializer, so such a
    guard contributes its initializer to `subs` and never a `Let` node. */
module Hir {
  import opened Wrappers

  /** A node's identity in the HIR: two nodes are "the same node" exactly when
      their ids agree, whatever their shape. */
  type HirId = nat

  /** A half-open range of the source text. */
  datatype Span = Span(lo: nat, hi: nat)

  datatype Expr = Expr(id: HirId, span: Span, kind: ExprKind)

  datatype ExprKind =
    | If(cond: Expr, thenExpr: Expr, elseExpr: Option<Expr>)
    | BlockExpr(block: Block)
      /** A pattern-binding test `let PAT = init`, as it appears in `if let`
          and let-chains; the pattern itself holds no expressions of interest. */
    | Let(init: Expr)
    | Other(subs: seq<Expr>)

  /** `{ stmts; expr }`: a block with its statements and optional tail. */
  datatype Block = Block(stmts: seq<Stmt>, expr: Option<Expr>)

  datatype Stmt =
      /** `let PAT = init else { els };` with both parts optional. */
    | Local(init: Option<Expr>, els: Option<Block>)
      /** A nested item; its body is a separate owner and is never walked. */
    | Item
      /** An expression statement without a trailing semicolon. */
    | Expression(e: Expr)
      /** An expression statement with a trailing semicolon. */
    | Semi(e: Expr)

  /** What a lookup by id returns: an expression, or any other kind of node
      (a statement, a block, an item, a local, ...). */
  datatype Node = NodeExpr(expr: Expr) | NodeOther

  /** A block with no statements and no tail expression: `{}`. */
  predicate IsEmptyBlock(b: Block) {
    |b.stmts| == 0 && b.expr.None?
  }

  // ---------------------------------------------------------------------------
  // Reachability: every expression `walk_expr` can reach from a node.
  // ---------------------------------------------------------------------------

  /** The expression itself together with every expression below it. */
  function Subexprs(e: Expr): set<Expr>
    decreases e, 1
  {
    {e} + Inner(e)
  }

  /** Every expression strictly below `e`. */
  function Inner(e: Expr): set<Expr>
    decreases e, 0
  {
    match e.kind
    case If(c, t, els) => Subexprs(c) + Subexprs(t) + OptSubexprs(els)
    case BlockExpr(b) => BlockSubexprs(b)
    case Let(init) => Subexprs(init)
    case Other(subs) => SeqSubexprs(subs)
  }

  function OptSubexprs(o: Option<Expr>): set<Expr>
    decreases o
  {
    match o
    case None => {}
    case Some(x) => Subexprs(x)
  }

  function SeqSubexprs(es: seq<Expr>): set<Expr>
    decreases es
  {
    if |es| == 0 then {} else Subexprs(es[0]) + SeqSubexprs(es[1..])
  }

  function BlockSubexprs(b: Block): set<Expr>
    decreases b
  {
    StmtsSubexprs(b.stmts) + OptSubexprs(b.expr)
  }

  function OptBlockSubexprs(o: Option<Block>): set<Expr>
    decreases o
  {
    match o
    case None => {}
    case Some(b) => BlockSubexprs(b)
  }

  function StmtsSubexprs(ss: seq<Stmt>): set<Expr>
    decreases ss
  {
    if |ss| == 0 then {} else StmtSubexprs(ss[0]) + StmtsSubexprs(ss[1..])
  }

  function StmtSubexprs(s: Stmt): set<Expr>
    decreases s
  {
    match s
    case Local(init, els) => OptSubexprs(init) + OptBlockSubexprs(els)
    case Item => {}
    case Expression(x) => Subexprs(x)
    case Semi(x) => Subexprs(x)
  }

  /** Some expression of the set is a pattern-binding `Let`. */
  ghost predicate AnyLetIn(s: set<Expr>) {
    exists x :: x in s && x.kind.Let?
  }

  /** The reference meaning of "the condition contains a `let`": `e` itself or
      some expression reachable from it is a `Let`. */
  ghost predicate ContainsLet(e: Expr) {
    AnyLetIn(Subexprs(e))
  }

  lemma AnyLetInUnion(a: set<Expr>, b: set<Expr>)
    ensures AnyLetIn(a + b) == (AnyLetIn(a) || AnyLetIn(b))
  {
    if AnyLetIn(a + b) {
      var x :| x in a + b && x.kind.Let?;
      assert x in a || x in b;
    }
  }

  // ---------------------------------------------------------------------------
  // Reachability is transitive: whatever is reachable from a reachable
  // expression is reachable from the root.
  // ---------------------------------------------------------------------------

  /** A set of expressions that contains everything reachable from its members. */
  ghost predicate Closed(s: set<Expr>) {
    forall x :: x in s ==> Subexprs(x) <= s
  }

  lemma {:induction false} SubexprsClosed(e: Expr)
    ensures Closed(Subexprs(e))
    decreases e, 1
  {
    InnerClosed(e);
  }

  lemma {:induction false} InnerClosed(e: Expr)
    ensures Closed(Inner(e))
    decreases e, 0
  {
    match e.kind
    case If(c, t, els) =>
      SubexprsClosed(c);
      SubexprsClosed(t);
      OptClosed(els);
    case BlockExpr(b) => BlockClosed(b);
    case Let(init) => SubexprsClosed(init);
    case Other(subs) => SeqClosed(subs);
  }

  lemma {:induction false} OptClosed(o: Option<Expr>)
    ensures Closed(OptSubexprs(o))
    decreases o
  {
    match o
    case None =>
    case Some(x) => SubexprsClosed(x);
  }

  lemma {:induction false} SeqClosed(es: seq<Expr>)
    ensures Closed(SeqSubexprs(es))
    decreases es
  {
    if |es| > 0 {
      SubexprsClosed(es[0]);
      SeqClosed(es[1..]);
    }
  }

  lemma {:induction false} BlockClosed(b: Block)
    ensures Closed(BlockSubexprs(b))
    decreases b
  {
    StmtsClosed(b.stmts);
    OptClosed(b.expr);
  }

  lemma {:induction false} OptBlockClosed(o: Option<Block>)
    ensures Closed(OptBlockSubexprs(o))
    decreases o
  {
    match o
    case None =>
    case Some(b) => BlockClosed(b);
  }

  lemma {:induction false} StmtsClosed(ss: seq<Stmt>)
    ensures Closed(StmtsSubexprs(ss))
    decreases ss
  {
    if |ss| > 0 {
      StmtClosed(ss[0]);
      StmtsClosed(ss[1..]);
    }
  }

  lemma {:induction false} StmtClosed(s: Stmt)
    ensures Closed(StmtSubexprs(s))
    decreases s
  {
    match s
    case Local(init, els) =>
      OptClosed(init);
      OptBlockClosed(els);
    case Item =>
    case Expression(x) => SubexprsClosed(x);
    case Semi(x) => SubexprsClosed(x);
  }

  /** Monotonicity of "contains a `let`": if anything reachable from `e`
      contains a `Let`, so does `e`. */
  lemma ContainsLetMonotone(e: Expr, c: Expr)
    requires c in Subexprs(e)
    ensures ContainsLet(c) ==> ContainsLet(e)
  {
    SubexprsClosed(e);
  }
}
