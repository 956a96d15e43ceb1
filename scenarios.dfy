/** What the rules give for the component of the plugin's first test case,
    driven through the visitor methods, and the read/write round trip for one
    reactive variable. */
module Scenarios {
  import opened Ast
  import opened MarkerResolution
  import opened BindingScan
  import opened Declarations
  import opened Assignments
  import opened Identifiers
  import opened Plugin

  /** For a reactive `$x`: its declaration becomes `const $x = React.useState(v)`,
      a plain read (one whose parent is not a declarator, an assignment, an
      object property, an escape-hatch call or an `x[0]`/`x[1]` access, and
      whose grandparent is not a JSX attribute) becomes
      `$x[0]`, and the statement `$x = e` becomes the call
      `$x[1](e)`. */
  lemma ReadWriteRoundTrip(toMod: seq<string>, m: Marker, ledger: seq<IgnoreNode>, x: string,
                                              v: Expr, e: Expr, sp: Span, readSpan: Span, parent: Parent, grandparentType: string)
    requires x in toMod && !IsAlias(m, x) && !IsMutCall(v, m)
    requires IgnoreNode("Identifier", readSpan) !in ledger
    requires WellFormedParent(parent)
    requires !IsProtected(parent, grandparentType) && !ParentIsMutCall(parent, m) && !IsCompiledSetterGetter(parent)
    ensures RewriteDeclarator(Declarator(Ident(x, sp), Some(v), sp), toMod, m)
              == Declarator(Ident(x, Synthetic), Some(UseStateCall([v])), Synthetic)
    ensures IdentifierStep(ledger, m, toMod, x, readSpan, parent, grandparentType).0 == ReplaceSelf(Accessor(x))
    ensures RewriteAssignment(Assign("=", Ident(x, sp), e, sp), toMod) == Call(Updater(x), [e], Synthetic)
  {
  }

  /** `import {$mut} from "mute"` sets the marker to the alias `$mut` and is
      removed; the scope of `Component` then lists `$a` and `$b`. */
  method SimpleTransformSetup() returns (s: MuteState, removed: bool)
    ensures fresh(s) && s.Valid()
    ensures removed
    ensures s.compileFunc == Marker(true, Some("$mut")) && s.toMod == ["$a", "$b"] && s.ignoreList == []
  {
    s := new MuteState();
    s.ProgramEnter();
    var specs := [NamedSpecifier(ExportIdent("$mut"), "$mut")];
    assert FirstMut(specs, 0);
    removed := s.VisitImportDeclaration(ImportDeclaration(StrLit("mute", At(0, 6)), specs));
    var m := s.compileFunc;
    assert m == Marker(true, Some("$mut"));
    assert ReactiveNames(["onPress"], m) == [] by {
      assert ["onPress"][1..] == [];
    }
    assert ReactiveNames(["$b", "onPress"], m) == ["$b"] by {
      assert ["$b", "onPress"][1..] == ["onPress"];
    }
    assert ReactiveNames(["$a", "$b", "onPress"], m) == ["$a", "$b"] by {
      assert ["$a", "$b", "onPress"][1..] == ["$b", "onPress"];
    }
    s.VisitFunction(["$a", "$b", "onPress"]);
  }

  /** In `Component`, the two statements `let $a = {...}` and
      `let $b = $mut(React.useState(1))` both become `const`: `$a` is wrapped
      in `React.useState`, and `$b` keeps the argument of the escape-hatch
      call. */
  method SimpleTransformDeclarations() returns (kindA: string, declsA: seq<Declarator>, kindB: string, declsB: seq<Declarator>)
    ensures kindA == "const" && kindB == "const"
    ensures declsA == [Declarator(Ident("$a", Synthetic), Some(UseStateCall([OtherExpr("ObjectExpression", At(20, 35))])), Synthetic)]
    ensures declsB == [Declarator(Ident("$b", At(45, 47)), Some(Call(Member(Ident("React", At(55, 60)), Ident("useState", At(61, 69)), false, At(55, 69)),
                                                                 [NumLit(1.0, At(70, 71))], At(55, 72))), At(45, 73))]
  {
    var s, _ := SimpleTransformSetup();
    var first := new VariableDeclaration("let", [
      Declarator(Ident("$a", At(14, 16)), Some(OtherExpr("ObjectExpression", At(20, 35))), At(14, 35))
    ]);
    ghost var beforeA := first.declarations[..];
    s.TransformReactiveDeclarations(first);
    assert IsReactiveDeclarator(beforeA[0], s.toMod);
    kindA := first.kind;
    declsA := first.declarations[..];

    var useState := Call(Member(Ident("React", At(55, 60)), Ident("useState", At(61, 69)), false, At(55, 69)),
                         [NumLit(1.0, At(70, 71))], At(55, 72));
    var second := new VariableDeclaration("let", [
      Declarator(Ident("$b", At(45, 47)), Some(Call(Ident("$mut", At(50, 54)), [useState], At(50, 73))), At(45, 73))
    ]);
    ghost var beforeB := second.declarations[..];
    s.TransformReactiveDeclarations(second);
    assert IsReactiveDeclarator(beforeB[0], s.toMod);
    kindB := second.kind;
    declsB := second.declarations[..];
  }

  /** The read `$a` in `{$a.name}` becomes `$a[0]`, and in `onPress` the
      statement `$b += 1` becomes `$b[1]($b[0] + 1)`. */
  method SimpleTransformReadWrite() returns (read: IdentEdit, write: Expr)
    ensures read == ReplaceSelf(Accessor("$a"))
    ensures write == Call(Updater("$b"), [Binary("+", Accessor("$b"), NumLit(1.0, At(130, 131)), Synthetic)], Synthetic)
  {
    var s, _ := SimpleTransformSetup();
    read := s.VisitIdentifier("$a", At(90, 92),
                              ExprParent(Member(Ident("$a", At(90, 92)), Ident("name", At(93, 97)), false, At(90, 97))),
                              "JSXExpressionContainer");
    var stmt := new ExpressionStatement(Assign("+=", Ident("$b", At(123, 125)), NumLit(1.0, At(130, 131)), At(123, 131)));
    s.TransformAssignmentExpression(stmt);
    write := stmt.expression;
  }
}
