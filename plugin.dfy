/** The plugin's state and visitors. Babel's traversal is not modelled: each
    visitor is a method that the driver calls with the node it visits and, for
    identifiers, the parent and the grandparent's type. */
module Plugin {
  import opened Ast
  import opened MarkerResolution
  import opened BindingScan
  import opened SiteMemory
  import opened Declarations
  import opened Assignments
  import opened Identifiers

  /** A `let`/`var`/`const` statement, updated in place by the declaration
      rewriter. */
  class VariableDeclaration {
    var kind: string
    var declarations: array<Declarator>

    constructor (kind: string, ds: seq<Declarator>)
      ensures this.kind == kind && declarations[..] == ds && fresh(declarations)
    {
      this.kind := kind;
      declarations := new Declarator[|ds|](i requires 0 <= i < |ds| => ds[i]);
    }
  }

  /** An expression statement, whose expression the assignment rewriter
      overwrites. */
  class ExpressionStatement {
    var expression: Expr

    constructor (e: Expr)
      ensures expression == e
    {
      expression := e;
    }
  }

  /** Everything the plugin keeps: the reactive list `toMod` of the plugin
      instance, the three module-level memo maps, and the per-unit
      `state.ignoreList` and `state.compileFunc`. */
  class MuteState {
    var toMod: seq<string>
    var reactiveMemo: map<string, bool>
    var getterMemo: map<string, Expr>
    var setterMemo: map<string, Expr>
    var ignoreList: seq<IgnoreNode>
    var compileFunc: Marker

    /** The memo tables agree with what they cache: each cached verdict is
        positive and for a listed name, and each cached accessor or updater is
        the node the builder makes for that name. */
    ghost predicate Valid()
      reads this
    {
      && MemoSound(reactiveMemo, toMod)
      && (forall n :: n in getterMemo ==> getterMemo[n] == Accessor(n))
      && (forall n :: n in setterMemo ==> setterMemo[n] == Updater(n))
    }

    /** The plugin factory: an empty `toMod`, fresh memo maps, and the unit
        state as `Program.enter` leaves it. */
    constructor ()
      ensures Valid()
      ensures toMod == [] && reactiveMemo == map[] && getterMemo == map[] && setterMemo == map[]
      ensures ignoreList == [] && compileFunc == InitialMarker
    {
      toMod := [];
      reactiveMemo, getterMemo, setterMemo := map[], map[], map[];
      ignoreList := [];
      compileFunc := InitialMarker;
    }

    /** `Program.enter`: resets the three memos, empties the ignore list and
        sets the marker to `{using: false, name: ''}`. The reactive list is
        not part of the reset. */
    method ProgramEnter()
      requires Valid()
      modifies this
      ensures Valid()
      ensures reactiveMemo == map[] && getterMemo == map[] && setterMemo == map[]
      ensures ignoreList == [] && compileFunc == InitialMarker
      ensures toMod == old(toMod)
    {
      reactiveMemo, getterMemo, setterMemo := map[], map[], map[];
      ignoreList := [];
      compileFunc := InitialMarker;
    }

    /** The `ImportDeclaration` visitor: when `isUsingMute` reports `using`,
        the marker is set and the import is to be removed. */
    method VisitImportDeclaration(decl: ImportDeclaration) returns (remove: bool)
      modifies this`compileFunc
      ensures remove == FromMute(decl)
      ensures compileFunc == MarkerAfterImport(old(compileFunc), decl)
    {
      var u := IsUsingMute(decl);
      remove := false;
      if !u.using {
        return;
      }
      compileFunc := Marker(true, u.name);
      remove := true;
    }

    /** The `FunctionDeclaration` and `ArrowFunctionExpression` visitors,
        before their nested traversal: the scope's reactive names are appended
        to `toMod`, which only grows. */
    method VisitFunction(bindings: seq<string>)
      requires Valid()
      modifies this`toMod
      ensures Valid()
      ensures toMod == old(toMod) + ReactiveNames(bindings, compileFunc)
      ensures old(toMod) <= toMod
    {
      var names := GetReactiveVariablesFromScope(bindings, compileFunc);
      MemoSoundUnderGrowth(reactiveMemo, toMod, names);
      toMod := toMod + names;
    }

    /** `isReactiveIdentifier`, with the verdict cache corrected to keep only
        positive verdicts: the answer is membership in the current list. */
    method IsReactiveIdentifier(idName: string) returns (result: bool)
      requires Valid()
      modifies this`reactiveMemo
      ensures Valid()
      ensures result == (idName in toMod)
      ensures (result, reactiveMemo) == CachedVerdict(old(reactiveMemo), toMod, idName)
    {
      if idName in reactiveMemo {
        return reactiveMemo[idName];
      }
      result := idName in toMod;
      if result {
        reactiveMemo := reactiveMemo[idName := true];
      }
    }

    /** `getGetterExpressionForReactive`: the memoized accessor `name[0]`. */
    method GetGetterExpressionForReactive(identifierName: string) returns (memExp: Expr)
      requires Valid()
      modifies this`getterMemo
      ensures Valid()
      ensures memExp == Accessor(identifierName)
      ensures getterMemo == old(getterMemo)[identifierName := memExp]
    {
      if identifierName in getterMemo {
        return getterMemo[identifierName];
      }
      memExp := Accessor(identifierName);
      getterMemo := getterMemo[identifierName := memExp];
    }

    /** `getSetterExpressionForReactive`: the memoized updater `name[1]`. */
    method GetSetterExpressionForReactive(identifierName: string) returns (memExp: Expr)
      requires Valid()
      modifies this`setterMemo
      ensures Valid()
      ensures memExp == Updater(identifierName)
      ensures setterMemo == old(setterMemo)[identifierName := memExp]
    {
      if identifierName in setterMemo {
        return setterMemo[identifierName];
      }
      memExp := Updater(identifierName);
      setterMemo := setterMemo[identifierName := memExp];
    }

    /** `transformReactiveDeclarations`: the indexed loop over the declarator
        array, rewriting each reactive declarator in place. */
    method TransformReactiveDeclarations(node: VariableDeclaration)
      requires Valid()
      modifies node, node.declarations, this`reactiveMemo
      ensures Valid()
      ensures node.declarations == old(node.declarations)
      ensures node.declarations[..] == RewriteDeclarators(old(node.declarations[..]), toMod, compileFunc)
      ensures node.kind == DeclarationKind(old(node.kind), old(node.declarations[..]), toMod)
      ensures reactiveMemo == MemoAfterDeclarators(old(reactiveMemo), old(node.declarations[..]), toMod)
    {
      var ds := node.declarations;
      ghost var original := ds[..];
      ghost var kind0 := node.kind;
      ghost var memo0 := reactiveMemo;
      var i := 0;
      while i < ds.Length
        invariant node.declarations == ds
        invariant 0 <= i <= ds.Length
        invariant Valid()
        invariant forall k :: 0 <= k < i ==> ds[k] == RewriteDeclarator(original[k], toMod, compileFunc)
        invariant forall k :: i <= k < ds.Length ==> ds[k] == original[k]
        invariant node.kind == DeclarationKind(kind0, original[..i], toMod)
        invariant reactiveMemo == MemoAfterDeclarators(memo0, original[..i], toMod)
      {
        var declaration := ds[i];
        var reactive := false;
        if declaration.id.Ident? {
          reactive := IsReactiveIdentifier(declaration.id.name);
        }
        if reactive {
          node.kind := "const";
          if declaration.init.Some? && IsMutCall(declaration.init.value, compileFunc) {
            ds[i] := declaration.(init := FirstArgument(declaration.init.value));
          } else {
            ds[i] := Declarator(Ident(declaration.id.name, Synthetic), Some(UseStateCall(InitArgs(declaration.init))), Synthetic);
          }
        }
        assert IsReactiveDeclarator(original[i], toMod) == reactive;
        assert original[..i + 1] == original[..i] + [original[i]];
        assert original[..i + 1][..i] == original[..i];
        i := i + 1;
      }
      assert original[..i] == original;
    }

    /** `transformAssignmentExpression`: overwrites the statement's expression
        with the updater call when it owns the assignment. */
    method TransformAssignmentExpression(node: ExpressionStatement)
      requires Valid()
      modifies node, this`reactiveMemo, this`getterMemo, this`setterMemo
      ensures Valid()
      ensures node.expression == RewriteAssignment(old(node.expression), toMod)
      ensures var e := old(node.expression);
        && (e.Assign? && e.left.Ident? ==> reactiveMemo == CachedVerdict(old(reactiveMemo), toMod, e.left.name).1)
        && (!(e.Assign? && e.left.Ident?) ==> reactiveMemo == old(reactiveMemo))
        && (IsReactiveAssignment(e, toMod) ==>
              getterMemo == old(getterMemo)[e.left.name := Accessor(e.left.name)]
              && setterMemo == old(setterMemo)[e.left.name := Updater(e.left.name)])
        && (!IsReactiveAssignment(e, toMod) ==> getterMemo == old(getterMemo) && setterMemo == old(setterMemo))
    {
      var expression := node.expression;
      if !expression.Assign? {
        return;
      }
      if !expression.left.Ident? {
        return;
      }
      var reactive := IsReactiveIdentifier(expression.left.name);
      if !reactive {
        return;
      }
      var getterName := GetGetterExpressionForReactive(expression.left.name);
      var setterName := GetSetterExpressionForReactive(expression.left.name);
      var callArgs: seq<Expr>;
      match expression.op {
        case "=" => callArgs := [expression.right];
        case "+=" => callArgs := [Binary("+", getterName, expression.right, Synthetic)];
        case "-=" => callArgs := [Binary("-", getterName, expression.right, Synthetic)];
        case "/=" => callArgs := [Binary("/", getterName, expression.right, Synthetic)];
        case "*=" => callArgs := [Binary("*", getterName, expression.right, Synthetic)];
        case _ => callArgs := [];
      }
      node.expression := Call(setterName, callArgs, Synthetic);
    }

    /** The `Identifier` visitor of the nested traversal, for identifier `name`
        at `span` under `parent`, whose own parent has type `grandparentType`.
        Returns the edit to make to the tree. */
    method VisitIdentifier(name: string, span: Span, parent: Parent, grandparentType: string) returns (edit: IdentEdit)
      requires Valid()
      modifies this`ignoreList, this`reactiveMemo, this`getterMemo
      ensures Valid()
      ensures (edit, ignoreList) == IdentifierStep(old(ignoreList), compileFunc, toMod, name, span, parent, grandparentType)
      ensures ReachesReactiveCheck(old(ignoreList), compileFunc, name, span, parent) ==>
                reactiveMemo == CachedVerdict(old(reactiveMemo), toMod, name).1
      ensures !ReachesReactiveCheck(old(ignoreList), compileFunc, name, span, parent) ==> reactiveMemo == old(reactiveMemo)
      ensures edit.ReplaceSelf? ==> getterMemo == old(getterMemo)[name := Accessor(name)]
      ensures !edit.ReplaceSelf? ==> getterMemo == old(getterMemo)
    {
      var self := Ident(name, span);
      if Key(self) in ignoreList {
        return Keep;
      }

      if compileFunc.using && compileFunc.name == Some(name) {
        return Keep;
      }

      if parent.ExprParent? && IsMutCall(parent.node, compileFunc) {
        ignoreList := ignoreList + [Key(self)];
        return ReplaceParent(self);
      }

      var reactive := IsReactiveIdentifier(name);
      var parentType := ParentType(parent);
      if reactive && parentType != "VariableDeclarator" && parentType != "AssignmentExpression"
         && parentType != "ObjectProperty" && grandparentType != "JSXAttribute" {
        if IsCompiledSetterGetter(parent) {
          return Keep;
        }
        var getter := GetGetterExpressionForReactive(name);
        return ReplaceSelf(getter);
      }
      edit := Keep;
    }
  }
}
