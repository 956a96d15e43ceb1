/** The assignment rewriter: `$x op= e` as a statement becomes a call of the
    updater `$x[1]`. */
module Assignments {
  import opened Ast

  /** The compound operators the rewriter folds. */
  predicate IsFoldedOperator(op: string) {
    op == "+=" || op == "-=" || op == "*=" || op == "/="
  }

  /** The bare binary operator of a folded compound operator. */
  function BareOperator(op: string): (r: string)
    requires IsFoldedOperator(op)
    ensures r + "=" == op
  {
    if op == "+=" then "+" else if op == "-=" then "-" else if op == "*=" then "*" else "/"
  }

  /** The arguments of the updater call, by operator (the `switch`). */
  function UpdaterArgs(op: string, name: string, right: Expr): seq<Expr> {
    if op == "=" then [right]
    else if IsFoldedOperator(op) then [Binary(BareOperator(op), Accessor(name), right, Synthetic)]
    else []
  }

  /** The assignment is one the rewriter owns: its left side is an identifier
      in the reactive list. */
  predicate IsReactiveAssignment(e: Expr, toMod: seq<string>) {
    e.Assign? && e.left.Ident? && e.left.name in toMod
  }

  /** `transformAssignmentExpression` on the expression of a statement. */
  function RewriteAssignment(e: Expr, toMod: seq<string>): (r: Expr)
    ensures r == e || (e.Assign? && e.left.Ident? && r.Call? && r.callee == Updater(e.left.name))
  {
    if !IsReactiveAssignment(e, toMod) then e
    else Call(Updater(e.left.name), UpdaterArgs(e.op, e.left.name, e.right), Synthetic)
  }

  /** The statement is left alone exactly when the expression is not an
      assignment, its left side is not an identifier, or the identifier is not
      reactive. */
  lemma RewriteAssignmentUnchanged(e: Expr, toMod: seq<string>)
    ensures RewriteAssignment(e, toMod) == e <==> !IsReactiveAssignment(e, toMod)
  {
  }

  /** A reactive assignment becomes a call of that name's updater `name[1]`:
      with the right side for `=`, with one binary expression `name[0] op right`
      for `+=`, `-=`, `*=` and `/=`, and with no argument otherwise. */
  lemma RewriteAssignmentMeaning(e: Expr, toMod: seq<string>)
    requires IsReactiveAssignment(e, toMod)
    ensures var r := RewriteAssignment(e, toMod);
      && r.Call? && r.callee == Updater(e.left.name)
      && (e.op == "=" ==> r.args == [e.right])
      && (IsFoldedOperator(e.op) ==>
            |r.args| == 1 && r.args[0].Binary? && r.args[0].op + "=" == e.op
            && r.args[0].left == Accessor(e.left.name) && r.args[0].right == e.right)
      && (e.op != "=" && !IsFoldedOperator(e.op) ==> r.args == [])
  {
  }

  // A small numeric meaning for the expressions involved, to state that the
  // folded argument is the value the original assignment would have stored.

  /** A binary operator on numbers; division by zero is left undefined. */
  function Arith(op: string, a: real, b: real): Option<real> {
    if op == "+" then Some(a + b)
    else if op == "-" then Some(a - b)
    else if op == "*" then Some(a * b)
    else if op == "/" then (if b == 0.0 then None else Some(a / b))
    else None
  }

  /** The value of a numeric expression: `locals` gives plain variables and
      `hooks` the current value held by each state-hook handle, which the
      accessor `name[0]` reads. */
  function Eval(e: Expr, locals: map<string, real>, hooks: map<string, real>): Option<real> {
    match e
    case NumLit(v, _) => Some(v)
    case Ident(n, _) => if n in locals then Some(locals[n]) else None
    case Member(obj, prop, computed, _) =>
      if computed && obj.Ident? && prop.NumLit? && prop.value == 0.0 && obj.name in hooks
      then Some(hooks[obj.name]) else None
    case Binary(op, l, r, _) =>
      var a := Eval(l, locals, hooks);
      var b := Eval(r, locals, hooks);
      if a.Some? && b.Some? then Arith(op, a.value, b.value) else None
    case _ => None
  }

  /** The value `x op= v` stores in `x` when `x` holds `held`. */
  function AssignedValue(op: string, held: real, v: real): Option<real> {
    match op
    case "=" => Some(v)
    case "+=" => Some(held + v)
    case "-=" => Some(held - v)
    case "*=" => Some(held * v)
    case "/=" => if v == 0.0 then None else Some(held / v)
    case _ => None
  }

  /** Operator folding is correct: when the hook of `x` holds `held` and the
      right side evaluates to `v`, the single argument passed to the updater
      evaluates to what `x op= right` would have stored, for each of `=`, `+=`,
      `-=`, `*=` and `/=`. */
  lemma {:induction false} UpdaterArgumentAgrees(e: Expr, toMod: seq<string>, locals: map<string, real>, hooks: map<string, real>)
    requires IsReactiveAssignment(e, toMod) && e.left.name in hooks
    requires e.op == "=" || IsFoldedOperator(e.op)
    requires Eval(e.right, locals, hooks).Some?
    ensures var r := RewriteAssignment(e, toMod);
      r.Call? && |r.args| == 1 &&
      Eval(r.args[0], locals, hooks) == AssignedValue(e.op, hooks[e.left.name], Eval(e.right, locals, hooks).value)
  {
    var n := e.left.name;
    assert Eval(Accessor(n), locals, hooks) == Some(hooks[n]);
  }
}
