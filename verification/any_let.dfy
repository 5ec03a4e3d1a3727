/** `is_any_if_let` and its `IsAnyLetVisitor`: a walk over an expression that
    raises a flag when it meets a `Let`.

    The visitor's only state is its boolean flag, so the walk is modelled as a
    fold that threads the flag through the same visiting order as the
    compiler's `walk_expr`: `Visit` is the visitor's `visit_expr` override
    (raise the flag at a `Let`, otherwise walk on), `Walk` is `walk_expr`, and
    the remaining functions are the `walk_*` helpers it uses for blocks,
    statements and optional parts. */
module AnyLet {
  import opened Wrappers
  import opened Hir

  /** `IsAnyLetVisitor::visit_expr`: at a `Let` the flag is set and the walk
      does not descend; any other expression is walked. The flag, once set,
      is never cleared. */
  function Visit(found: bool, e: Expr): (r: bool)
    ensures found ==> r
    decreases e, 1
  {
    if e.kind.Let? then true else Walk(found, e)
  }

  /** `walk_expr`: visit every sub-expression of `e` in order. */
  function Walk(found: bool, e: Expr): (r: bool)
    ensures found ==> r
    decreases e, 0
  {
    match e.kind
    case If(c, t, els) => VisitOpt(Visit(Visit(found, c), t), els)
    case BlockExpr(b) => VisitBlock(found, b)
    case Let(init) => Visit(found, init)
    case Other(subs) => VisitSeq(found, subs)
  }

  function VisitOpt(found: bool, o: Option<Expr>): (r: bool)
    ensures found ==> r
    decreases o
  {
    match o
    case None => found
    case Some(x) => Visit(found, x)
  }

  function VisitSeq(found: bool, es: seq<Expr>): (r: bool)
    ensures found ==> r
    decreases es
  {
    if |es| == 0 then found else VisitSeq(Visit(found, es[0]), es[1..])
  }

  /** `walk_block`: the statements in order, then the tail expression. */
  function VisitBlock(found: bool, b: Block): (r: bool)
    ensures found ==> r
    decreases b
  {
    VisitOpt(VisitStmts(found, b.stmts), b.expr)
  }

  function VisitOptBlock(found: bool, o: Option<Block>): (r: bool)
    ensures found ==> r
    decreases o
  {
    match o
    case None => found
    case Some(b) => VisitBlock(found, b)
  }

  function VisitStmts(found: bool, ss: seq<Stmt>): (r: bool)
    ensures found ==> r
    decreases ss
  {
    if |ss| == 0 then found else VisitStmts(VisitStmt(found, ss[0]), ss[1..])
  }

  /** `walk_stmt`: a local's initializer and `else` block, an expression
      statement's expression; nested items are not entered. */
  function VisitStmt(found: bool, s: Stmt): (r: bool)
    ensures found ==> r
    decreases s
  {
    match s
    case Local(init, els) => VisitOptBlock(VisitOpt(found, init), els)
    case Item => found
    case Expression(x) => Visit(found, x)
    case Semi(x) => Visit(found, x)
  }

  /** `is_any_if_let`: start the visitor with a cleared flag, visit the
      expression, read the flag. It answers exactly whether the expression or
      anything reachable from it is a `Let`. */
  function IsAnyLet(e: Expr): (r: bool)
    ensures r == ContainsLet(e)
  {
    VisitSound(false, e);
    Visit(false, e)
  }

  // ---------------------------------------------------------------------------
  // The visitor computes "the flag was already set, or a `Let` is reachable".
  // ---------------------------------------------------------------------------

  lemma {:induction false} VisitSound(found: bool, e: Expr)
    ensures Visit(found, e) == (found || ContainsLet(e))
    decreases e, 1
  {
    AnyLetInUnion({e}, Inner(e));
    if !e.kind.Let? {
      WalkSound(found, e);
    }
  }

  lemma {:induction false} WalkSound(found: bool, e: Expr)
    ensures Walk(found, e) == (found || AnyLetIn(Inner(e)))
    decreases e, 0
  {
    match e.kind
    case If(c, t, els) =>
      VisitSound(found, c);
      VisitSound(Visit(found, c), t);
      OptSound(Visit(Visit(found, c), t), els);
      AnyLetInUnion(Subexprs(c), Subexprs(t));
      AnyLetInUnion(Subexprs(c) + Subexprs(t), OptSubexprs(els));
    case BlockExpr(b) => BlockSound(found, b);
    case Let(init) => VisitSound(found, init);
    case Other(subs) => SeqSound(found, subs);
  }

  lemma {:induction false} OptSound(found: bool, o: Option<Expr>)
    ensures VisitOpt(found, o) == (found || AnyLetIn(OptSubexprs(o)))
    decreases o
  {
    match o
    case None =>
    case Some(x) => VisitSound(found, x);
  }

  lemma {:induction false} SeqSound(found: bool, es: seq<Expr>)
    ensures VisitSeq(found, es) == (found || AnyLetIn(SeqSubexprs(es)))
    decreases es
  {
    if |es| > 0 {
      VisitSound(found, es[0]);
      SeqSound(Visit(found, es[0]), es[1..]);
      AnyLetInUnion(Subexprs(es[0]), SeqSubexprs(es[1..]));
    }
  }

  lemma {:induction false} BlockSound(found: bool, b: Block)
    ensures VisitBlock(found, b) == (found || AnyLetIn(BlockSubexprs(b)))
    decreases b
  {
    StmtsSound(found, b.stmts);
    OptSound(VisitStmts(found, b.stmts), b.expr);
    AnyLetInUnion(StmtsSubexprs(b.stmts), OptSubexprs(b.expr));
  }

  lemma {:induction false} OptBlockSound(found: bool, o: Option<Block>)
    ensures VisitOptBlock(found, o) == (found || AnyLetIn(OptBlockSubexprs(o)))
    decreases o
  {
    match o
    case None =>
    case Some(b) => BlockSound(found, b);
  }

  lemma {:induction false} StmtsSound(found: bool, ss: seq<Stmt>)
    ensures VisitStmts(found, ss) == (found || AnyLetIn(StmtsSubexprs(ss)))
    decreases ss
  {
    if |ss| > 0 {
      StmtSound(found, ss[0]);
      StmtsSound(VisitStmt(found, ss[0]), ss[1..]);
      AnyLetInUnion(StmtSubexprs(ss[0]), StmtsSubexprs(ss[1..]));
    }
  }

  lemma {:induction false} StmtSound(found: bool, s: Stmt)
    ensures VisitStmt(found, s) == (found || AnyLetIn(StmtSubexprs(s)))
    decreases s
  {
    match s
    case Local(init, els) =>
      OptSound(found, init);
      OptBlockSound(VisitOpt(found, init), els);
      AnyLetInUnion(OptSubexprs(init), OptBlockSubexprs(els));
    case Item =>
    case Expression(x) => VisitSound(found, x);
    case Semi(x) => VisitSound(found, x);
  }

  // ---------------------------------------------------------------------------
  // Consequences.
  // ---------------------------------------------------------------------------

  /** The answer is an "any" over the traversal: the flag is set once, never
      cleared, so visiting more expressions after a hit changes nothing, and
      before a hit the flag is exactly "a `Let` was seen so far". */
  lemma {:induction false} VisitSeqIsAny(found: bool, es: seq<Expr>)
    ensures VisitSeq(found, es) == (found || exists i :: 0 <= i < |es| && ContainsLet(es[i]))
    decreases es
  {
    if |es| > 0 {
      VisitSound(found, es[0]);
      VisitSeqIsAny(Visit(found, es[0]), es[1..]);
      if exists i :: 0 <= i < |es| && ContainsLet(es[i]) {
        var i :| 0 <= i < |es| && ContainsLet(es[i]);
        if i > 0 {
          assert es[1..][i - 1] == es[i];
        }
      }
      if exists j :: 0 <= j < |es[1..]| && ContainsLet(es[1..][j]) {
        var j :| 0 <= j < |es[1..]| && ContainsLet(es[1..][j]);
        assert es[j + 1] == es[1..][j];
      }
    }
  }

  /** If any expression reachable from `e` contains a `Let`, `is_any_if_let`
      reports one for `e`: a `let` nested at any depth suppresses. */
  lemma IsAnyLetMonotone(e: Expr, c: Expr)
    requires c in Subexprs(e)
    requires IsAnyLet(c)
    ensures IsAnyLet(e)
  {
    ContainsLetMonotone(e, c);
  }
}
