/** The declaration rewriter, as functions of one declarator and of the whole
    declaration list. */
module Declarations {
  import opened Ast
  import opened MarkerResolution
  import opened SiteMemory

  /** The declarator binds a plain identifier that is in the reactive list. */
  predicate IsReactiveDeclarator(d: Declarator, toMod: seq<string>) {
    d.id.Ident? && d.id.name in toMod
  }

  /** The first argument of the escape-hatch call; no initializer at all when
      the call has no argument. */
  function FirstArgument(call: Expr): Option<Expr>
    requires call.Call?
  {
    if |call.args| > 0 then Some(call.args[0]) else None
  }

  /** The arguments of the generated `React.useState` call: the old
      initializer when there is one, and none otherwise. */
  function InitArgs(init: Option<Expr>): seq<Expr> {
    if init.Some? then [init.value] else []
  }

  /** One iteration of the loop in `transformReactiveDeclarations`. */
  function RewriteDeclarator(d: Declarator, toMod: seq<string>, m: Marker): (r: Declarator)
    ensures r.id.Ident? == d.id.Ident? && (d.id.Ident? ==> r.id.name == d.id.name)
    ensures IsReactiveDeclarator(r, toMod) == IsReactiveDeclarator(d, toMod)
  {
    if !IsReactiveDeclarator(d, toMod) then d
    else if d.init.Some? && IsMutCall(d.init.value, m) then d.(init := FirstArgument(d.init.value))
    else Declarator(Ident(d.id.name, Synthetic), Some(UseStateCall(InitArgs(d.init))), Synthetic)
  }

  /** The declarator list after the loop: each declarator rewritten in turn.
      The list keeps its length and every position is rewritten on its own. */
  function RewriteDeclarators(ds: seq<Declarator>, toMod: seq<string>, m: Marker): (r: seq<Declarator>)
    ensures |r| == |ds|
    ensures forall k :: 0 <= k < |ds| ==> r[k] == RewriteDeclarator(ds[k], toMod, m)
  {
    if ds == [] then []
    else [RewriteDeclarator(ds[0], toMod, m)] + RewriteDeclarators(ds[1..], toMod, m)
  }

  /** The verdict memo after the loop: the lookup is made, in order, for every
      declarator that binds a plain identifier. */
  ghost function MemoAfterDeclarators(memo: map<string, bool>, ds: seq<Declarator>, toMod: seq<string>): (r: map<string, bool>)
    requires MemoSound(memo, toMod)
    ensures MemoSound(r, toMod)
    ensures forall n :: n in r <==> n in memo || (n in toMod && exists k :: 0 <= k < |ds| && ds[k].id == Ident(n, ds[k].id.span))
    decreases |ds|
  {
    if ds == [] then memo
    else
      var before := MemoAfterDeclarators(memo, ds[..|ds| - 1], toMod);
      var d := ds[|ds| - 1];
      assert forall k :: 0 <= k < |ds| - 1 ==> ds[..|ds| - 1][k] == ds[k];
      if d.id.Ident? then CachedVerdict(before, toMod, d.id.name).1 else before
  }

  predicate HasReactiveDeclarator(ds: seq<Declarator>, toMod: seq<string>) {
    exists k :: 0 <= k < |ds| && IsReactiveDeclarator(ds[k], toMod)
  }

  /** The declaration kind after the loop: forced to `const` once any
      declarator is reactive. */
  function DeclarationKind(kind: string, ds: seq<Declarator>, toMod: seq<string>): string {
    if HasReactiveDeclarator(ds, toMod) then "const" else kind
  }

  /** What the rewrite does to one declarator: a non-reactive one is left as
      it is; a reactive one keeps its bound name, and its initializer becomes
      the escape-hatch call's first argument, or else a `React.useState` call
      whose arguments are the old initializer, if there was one. */
  lemma RewriteDeclaratorMeaning(d: Declarator, toMod: seq<string>, m: Marker)
    ensures var r := RewriteDeclarator(d, toMod, m);
      && (!IsReactiveDeclarator(d, toMod) ==> r == d)
      && (IsReactiveDeclarator(d, toMod) ==>
            && r.id.Ident? && r.id.name == d.id.name
            && IsReactiveDeclarator(r, toMod)
            && (d.init.Some? && IsMutCall(d.init.value, m) ==>
                  r.init == (if |d.init.value.args| > 0 then Some(d.init.value.args[0]) else None) && r.id == d.id)
            && (!(d.init.Some? && IsMutCall(d.init.value, m)) ==>
                  && r.init.Some? && r.init.value.Call?
                  && r.init.value.callee == Member(Ident("React", Synthetic), Ident("useState", Synthetic), false, Synthetic)
                  && r.init.value.args == (if d.init.Some? then [d.init.value] else [])))
  {
  }

  /** The generated initializer is never an escape-hatch call (its callee is
      a member access), so it is not stripped if the rewriter meets it again. */
  lemma UseStateIsNotMutCall(args: seq<Expr>, m: Marker)
    ensures !IsMutCall(UseStateCall(args), m)
  {
  }

  /** The rewrite is not idempotent: applied a second time, as happens to a
      declaration nested in an inner function whose name the enclosing
      function already lists, it wraps the `React.useState` call once more. */
  lemma {:induction false} RewriteAgainWrapsAgain(d: Declarator, toMod: seq<string>, m: Marker)
    requires IsReactiveDeclarator(d, toMod) && !(d.init.Some? && IsMutCall(d.init.value, m))
    ensures var once := RewriteDeclarator(d, toMod, m);
            var twice := RewriteDeclarator(once, toMod, m);
            twice != once && twice.init == Some(UseStateCall([once.init.value]))
  {
    var once := RewriteDeclarator(d, toMod, m);
    UseStateIsNotMutCall(InitArgs(d.init), m);
    var twice := RewriteDeclarator(once, toMod, m);
    // once's initializer sits inside twice's, so the two cannot be equal
    assert twice.init.value.args[0] == once.init.value;
  }

  /** The list keeps its length, and each position is rewritten on its own:
      declarators other than the reactive ones are untouched. */
  lemma RewriteDeclaratorsKeepsOthers(ds: seq<Declarator>, toMod: seq<string>, m: Marker, k: int)
    requires 0 <= k < |ds| && !IsReactiveDeclarator(ds[k], toMod)
    ensures |RewriteDeclarators(ds, toMod, m)| == |ds| && RewriteDeclarators(ds, toMod, m)[k] == ds[k]
  {
  }

  /** `const` is forced exactly when some declarator binds a reactive name. */
  lemma DeclarationKindConst(kind: string, ds: seq<Declarator>, toMod: seq<string>)
    ensures DeclarationKind(kind, ds, toMod) == "const" <==> kind == "const" || HasReactiveDeclarator(ds, toMod)
  {
  }
}
