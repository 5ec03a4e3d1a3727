# needless_if, modelled in Dafny

This project models Clippy's `NEEDLESS_IF` lint. The lint looks at each
expression of a Rust body. It reports an `if` whose then-branch is an empty
block `{}` and which has no `else`. Its suggestion is to remove the `if`,
keeping the condition as a statement when the condition may have side effects.

The lint decides in three steps, run once per expression. The model follows
each step:

- **Structural matcher.** The expression must be an `If`. Its then-branch
  must be a `Block` with no statements and no tail. It must have no `else`.
  Its span must not lie in an external macro. It must not be the `else` arm
  of its parent `if`. The last test compares HIR ids, not shapes.
- **Suppression.** The candidate is dropped when its condition contains a
  `Let` at any depth (`is_any_if_let` and its visitor), or when it comes from
  a procedural macro.
- **Suggestion.** The replacement is empty when the condition cannot have side
  effects. Otherwise it is the condition's snippet followed by `;`. The
  applicability starts as machine-applicable, and only snippet extraction can
  change it.

Files:

- `hir.dfy`: `Wrappers.Option`, and module `Hir`. `Hir` holds the IR view
  (`Expr`, `ExprKind`, `Block`, `Stmt`, `Node`), the reachability set
  `Subexprs`, the reference predicate `ContainsLet`, and the proof that
  reachability is transitive.
- `any_let.dfy`: module `AnyLet`. The visitor is a fold that threads the
  visitor's flag through `walk_expr`'s visiting order. It is proved equal to
  `ContainsLet`.
- `needless_if.dfy`: module `Host` holds the compiler queries, the
  applicability and the diagnostic. Module `NeedlessIf` holds `CheckExpr`
  (`check_expr`) and the predicates it is specified by.
- `needless_if_facts.dfy`: per-expression properties that hold for every host.
- `lint_pass.dfy`: the lint as the host's walker drives it, once per node with
  no state in between, plus the `else if` chain property.
- `scenarios.dfy`: worked examples on small concrete trees.

The compiler queries are fields of the `Host` record, which every operation
takes as a parameter:

- `parentId` and `find` stand for the HIR map's `opt_parent_id` and `find`;
- `inExternalMacro` stands for `in_external_macro`;
- `isFromProcMacro` stands for `is_from_proc_macro`;
- `canHaveSideEffects` stands for `Expr::can_have_side_effects`;
- `snippet` stands for `snippet_with_applicability`.

Their internals are not part of this model.

Facts of the code the model keeps:

- The message is "this `if` branch is empty" (`needless_if.rs:70`).
- The visitor has no early exit (`needless_if.rs:96-101`). After it sets its
  flag it keeps walking the remaining siblings; it only declines to descend
  into a `Let`. The result is an "any" over the reachable expressions, as
  `AnyLet.VisitSound` states.
- The external-macro test is part of the structural matcher
  (`needless_if.rs:46`), so a node in an external macro is `NotCandidate`.
  So is the `else if` arm.

## Model

| member | source | states |
|---|---|---|
| `AnyLet.Visit` | clippy_lints/src/needless_if.rs:96-101 | the visitor's flag is never reset: if it was already set on entry, it is still set after visiting any expression |
| `AnyLet.Walk` | clippy_lints/src/needless_if.rs:100-100 | walking on from a non-`Let` expression never clears a flag that is already set |
| `AnyLet.VisitSound` | clippy_lints/src/needless_if.rs:93-101 | visiting an expression leaves the flag equal to "it was already set, or the expression or something reachable from it is a `Let`", although the walk does not descend into a `Let` |
| `AnyLet.VisitSeqIsAny` | clippy_lints/src/needless_if.rs:93-101 | over a list of sibling expressions the flag ends up as "set before, or some sibling contains a `Let`": an existential "any" over the traversal |
| `AnyLet.IsAnyLet` | clippy_lints/src/needless_if.rs:83-91 | `is_any_if_let(e)` is true exactly when `e` or some expression reachable from it is a `Let` |
| `AnyLet.IsAnyLetMonotone` | clippy_lints/src/needless_if.rs:83-91 | if any expression reachable from `e` contains a `Let`, `is_any_if_let(e)` is true |
| `Hir.ContainsLetMonotone` | clippy_lints/src/needless_if.rs:83-102 | containing a `Let` is monotone along reachability: whatever contains a node that contains a `Let` contains one too |
| `NeedlessIf.CheckExpr` | clippy_lints/src/needless_if.rs:40-80 | not a candidate exactly when the shape, external-macro or `else`-arm test fails; suppressed exactly when a candidate's condition contains a `Let` or it comes from a procedural macro; otherwise one diagnostic on the whole `if` span, with the fixed lint, message and help, the replacement `snippet;` or empty according to side effects, and the applicability that extraction returned from machine-applicable |
| `NeedlessIf.Emitted` | clippy_lints/src/needless_if.rs:66-78 | one call emits at most one diagnostic; a report emits exactly its own diagnostic and nothing else |
| `NeedlessIfFacts.ShapeRequired` | clippy_lints/src/needless_if.rs:41-45 | a non-`If`, a then-branch that is not a block, a block with a statement or a tail, or an `else` each make the node not a candidate, for every host |
| `NeedlessIfFacts.ExternalMacroNeverReported` | clippy_lints/src/needless_if.rs:46-46 | a node whose span is in an external macro is never reported, whatever its shape |
| `NeedlessIfFacts.ElseArmSkipped` | clippy_lints/src/needless_if.rs:48-57 | when the parent is an `If` whose `else` has this node's id, the node is skipped, whatever that `else` node looks like |
| `NeedlessIfFacts.RootNotSkipped` | clippy_lints/src/needless_if.rs:49-49 | an empty else-less `if` outside external macros with no parent is not skipped by the `else if` guard |
| `NeedlessIfFacts.OtherSlotNotSkipped` | clippy_lints/src/needless_if.rs:50-54 | a node whose parent is an `If` with no `else`, or whose `else` has a different id, is not skipped, even when that `else` is structurally equal to the node |
| `NeedlessIfFacts.NonExprParentNotSkipped` | clippy_lints/src/needless_if.rs:50-53 | a parent that is not an expression, or that the lookup does not find, never skips the node |
| `NeedlessIfFacts.NestedLetSuppresses` | clippy_lints/src/needless_if.rs:59-61 | a candidate whose condition reaches a `Let` at any depth is suppressed, on that ground alone |
| `NeedlessIfFacts.ProcMacroSuppresses` | clippy_lints/src/needless_if.rs:59-61 | a candidate from a procedural macro is suppressed, on that ground alone |
| `NeedlessIfFacts.UnsuppressedCandidateReported` | clippy_lints/src/needless_if.rs:59-78 | a candidate with no `Let` in its condition and no procedural-macro provenance is reported |
| `NeedlessIfFacts.PureConditionRemoved` | clippy_lints/src/needless_if.rs:72-76 | the replacement is the empty string when the condition cannot have side effects |
| `NeedlessIfFacts.EffectfulConditionKept` | clippy_lints/src/needless_if.rs:64-73 | the replacement is exactly the condition's extracted snippet followed by `;` when the condition may have side effects |
| `NeedlessIfFacts.ApplicabilityOnlyLoweredBySnippet` | clippy_lints/src/needless_if.rs:63-77 | the fix is machine-applicable exactly when snippet extraction, started at machine-applicable, hands it back unchanged |
| `NeedlessIfFacts.OneDiagnosticPerReport` | clippy_lints/src/needless_if.rs:66-71 | a reported node yields exactly one diagnostic, on the whole `if` span, with message "this `if` branch is empty" and help "you can remove it" |
| `LintPass.RunPass` | clippy_lints/src/needless_if.rs:40-80 | calling the lint on every visited node gives one diagnostic per reportable node, in visiting order, each on its node's span |
| `LintPass.ElseIfChainSilent` | clippy_lints/src/needless_if.rs:45-57 | with a parent index that matches the tree, neither link of `if a {} else if b {}` is reported on its own |
| `Scenarios.PureCondition` | clippy_lints/src/needless_if.rs:72-76 | `if x > 0 {}` is reported with an empty, machine-applicable replacement |
| `Scenarios.EffectfulCondition` | clippy_lints/src/needless_if.rs:63-77 | `if expensive_call(&mut state) {}` is reported with replacement `expensive_call(&mut state);` |
| `Scenarios.DeepLetSuppresses` | clippy_lints/src/needless_if.rs:59-61 | a `let` nested inside an `if let` in a block passed through two calls in the condition suppresses the report |
| `Scenarios.ElseIfChain` | clippy_lints/src/needless_if.rs:48-57 | in `if a {} else if b {}` neither the outer nor the inner `if` is reported |
| `Scenarios.DetachedElseArmReported` | clippy_lints/src/needless_if.rs:48-57 | the inner `if` of that chain is reported when it has no parent, so the skip comes from the parent lookup |
| `Scenarios.ElsePresent` | clippy_lints/src/needless_if.rs:45-45 | `if x > 0 {} else { do_thing(); }` is not a candidate |

## Left out

- The lint's declaration and registration (`declare_clippy_lint!`,
  `declare_lint_pass!`). They are metadata for the lint registry and have no
  behaviour.
- The internals of the compiler queries. The parent lookup,
  `in_external_macro`, `is_from_proc_macro`, `can_have_side_effects` and
  `snippet_with_applicability` are foreign calls, so they are uninterpreted
  fields of `Host`. Rendering by `span_lint_and_sugg` is reduced to the
  `Diagnostic` value it receives.
- Which children `walk_expr` visits for each expression kind. The model keeps
  `If`, `Block`, `Let` and statements explicitly. Every other kind is `Other`,
  whose `subs` are the children the walk visits. So whether closures or nested
  items are entered is decided by how a tree is built, not by the model.
- Patterns, types and block labels. The walk also visits these, but they hold
  no `Let` expressions, so they cannot change the answer.
- The idempotence of applying the suggestion. Re-running the lint on the
  rewritten code needs a model of applying the textual fix and of re-parsing,
  and both belong to the host.
