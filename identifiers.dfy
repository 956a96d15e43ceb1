/** The identifier rewrite step: what the `Identifier` visitor of the nested
    traversal does to one identifier, given its parent and the type of its
    grandparent. */
module Identifiers {
  import opened Ast
  import opened MarkerResolution

  /** The edit the visitor makes to the tree. */
  datatype IdentEdit =
    | Keep                               // no change
    | ReplaceParent(replacement: Expr)   // `path.parentPath.replaceWith(...)`
    | ReplaceSelf(replacement: Expr)     // `path.replaceWith(...)`

  /** `isCompiledSetterGetter`: the parent is a member access whose property
      is the numeric literal 0 or 1. */
  predicate IsCompiledSetterGetter(parent: Parent)
    ensures IsCompiledSetterGetter(parent) ==>
              ParentType(parent) == "MemberExpression" && parent.ExprParent? && parent.node.Member? && TypeOf(parent.node.property) == "NumericLiteral"
  {
    parent.ExprParent? && parent.node.Member? && parent.node.property.NumLit?
    && (parent.node.property.value == 0.0 || parent.node.property.value == 1.0)
  }

  /** Positions the visitor never turns into an accessor read: any child of a
      variable declarator, of an assignment or of an object property, and any
      node whose grandparent is a JSX attribute. Only the node types are
      tested, so every encoding of a parent of one of those types is protected. */
  predicate IsProtected(parent: Parent, grandparentType: string) {
    var t := ParentType(parent);
    t == "VariableDeclarator" || t == "AssignmentExpression" || t == "ObjectProperty"
    || grandparentType == "JSXAttribute"
  }

  predicate InLedger(ledger: seq<IgnoreNode>, entry: IgnoreNode) {
    exists i :: 0 <= i < |ledger| && ledger[i] == entry
  }

  /** The parent is an active escape-hatch call. */
  predicate ParentIsMutCall(parent: Parent, m: Marker) {
    parent.ExprParent? && IsMutCall(parent.node, m)
  }

  /** The checks the visitor makes before it asks whether the name is reactive. */
  predicate ReachesReactiveCheck(ledger: seq<IgnoreNode>, m: Marker, name: string, span: Span, parent: Parent) {
    !InLedger(ledger, Key(Ident(name, span))) && !IsAlias(m, name) && !ParentIsMutCall(parent, m)
  }

  /** One visit of identifier `name` at `span`: the edit, and the ignore list
      afterwards. In the unwrap case the source records the node that stands
      at the parent's position once the replacement is made, which is the
      identifier itself. */
  function IdentifierStep(ledger: seq<IgnoreNode>, m: Marker, toMod: seq<string>, name: string, span: Span,
                          parent: Parent, grandparentType: string): (r: (IdentEdit, seq<IgnoreNode>))
    ensures |r.1| >= |ledger| && r.1[..|ledger|] == ledger
    ensures r.0.ReplaceParent? ==> ParentIsMutCall(parent, m) && r.0.replacement == Ident(name, span)
    ensures r.0.ReplaceSelf? ==> name in toMod && r.0.replacement == Accessor(name)
  {
    var self := Ident(name, span);
    if InLedger(ledger, Key(self)) then (Keep, ledger)
    else if IsAlias(m, name) then (Keep, ledger)
    else if ParentIsMutCall(parent, m) then (ReplaceParent(self), ledger + [Key(self)])
    else if name in toMod && !IsProtected(parent, grandparentType) && !IsCompiledSetterGetter(parent)
    then (ReplaceSelf(Accessor(name)), ledger)
    else (Keep, ledger)
  }

  /** The ignore list only grows, by one entry exactly when the visit unwraps
      an escape-hatch call. */
  lemma IdentifierStepLedgerGrows(ledger: seq<IgnoreNode>, m: Marker, toMod: seq<string>, name: string, span: Span,
                                   parent: Parent, grandparentType: string)
    ensures var (edit, after) := IdentifierStep(ledger, m, toMod, name, span, parent, grandparentType);
      && after[..|ledger|] == ledger
      && (edit.ReplaceParent? ==> after == ledger + [IgnoreNode("Identifier", span)])
      && (!edit.ReplaceParent? ==> after == ledger)
  {
  }

  /** A visit of an identifier whose record is in the ignore list, or of the
      active alias, changes nothing. */
  lemma IgnoredOrAliasKeeps(ledger: seq<IgnoreNode>, m: Marker, toMod: seq<string>, name: string, span: Span,
                                                parent: Parent, grandparentType: string)
    requires IgnoreNode("Identifier", span) in ledger || IsAlias(m, name)
    ensures IdentifierStep(ledger, m, toMod, name, span, parent, grandparentType) == (Keep, ledger)
  {
  }

  /** Unwrapping `$mut(id)`: the call is replaced by the bare identifier and
      the identifier's record joins the ignore list, so when the replaced node
      is visited again, wherever it now stands, it is left alone. */
  lemma {:induction false} UnwrapThenRevisitKeeps(ledger: seq<IgnoreNode>, m: Marker, toMod: seq<string>, name: string, span: Span,
                                                   parent: Parent, grandparentType: string,
                                                   toMod': seq<string>, parent': Parent, grandparentType': string)
    requires !InLedger(ledger, Key(Ident(name, span))) && !IsAlias(m, name) && ParentIsMutCall(parent, m)
    ensures var (edit, after) := IdentifierStep(ledger, m, toMod, name, span, parent, grandparentType);
      && edit == ReplaceParent(Ident(name, span))
      && IdentifierStep(after, m, toMod', name, span, parent', grandparentType') == (Keep, after)
  {
    var after := ledger + [Key(Ident(name, span))];
    assert after[|ledger|] == Key(Ident(name, span));
  }

  /** A visit turns the identifier into its accessor `name[0]` exactly when it
      is not ignored, not the alias, not inside an escape-hatch call, reactive,
      outside every protected position and not already under `x[0]` or `x[1]`. */
  lemma IdentifierStepRewritesIff(ledger: seq<IgnoreNode>, m: Marker, toMod: seq<string>, name: string, span: Span,
                                  parent: Parent, grandparentType: string)
    ensures var (edit, _) := IdentifierStep(ledger, m, toMod, name, span, parent, grandparentType);
      && (edit.ReplaceSelf? <==>
            ReachesReactiveCheck(ledger, m, name, span, parent) && name in toMod
            && !IsProtected(parent, grandparentType) && !IsCompiledSetterGetter(parent))
      && (edit.ReplaceSelf? ==> edit.replacement == Accessor(name))
  {
  }

  /** A name outside the reactive list is never rewritten to an accessor; at
      most an escape-hatch call around it is unwrapped. */
  lemma NonReactiveNotRead(ledger: seq<IgnoreNode>, m: Marker, toMod: seq<string>, name: string, span: Span,
                           parent: Parent, grandparentType: string)
    requires name !in toMod
    ensures var (edit, _) := IdentifierStep(ledger, m, toMod, name, span, parent, grandparentType);
      edit == Keep || edit == ReplaceParent(Ident(name, span))
  {
  }

  /** Protected positions are never rewritten unless the parent is an
      escape-hatch call being unwrapped. */
  lemma ProtectedPositionsKept(ledger: seq<IgnoreNode>, m: Marker, toMod: seq<string>, name: string, span: Span,
                               parent: Parent, grandparentType: string)
    requires IsProtected(parent, grandparentType) && !ParentIsMutCall(parent, m)
    ensures IdentifierStep(ledger, m, toMod, name, span, parent, grandparentType) == (Keep, ledger)
  {
  }

  /** The generated accessor and updater are recognised as already compiled. */
  lemma GeneratedAccessRecognised(name: string)
    ensures IsCompiledSetterGetter(ExprParent(Accessor(name)))
    ensures IsCompiledSetterGetter(ExprParent(Updater(name)))
  {
  }

  /** A read rewritten to `name[0]` is not rewritten again: the identifier
      inside the generated accessor (or updater) is left alone when visited. */
  lemma AccessorNotRewrittenAgain(ledger: seq<IgnoreNode>, m: Marker, toMod: seq<string>, name: string,
                                                     grandparentType: string)
    ensures IdentifierStep(ledger, m, toMod, name, Synthetic, ExprParent(Accessor(name)), grandparentType) == (Keep, ledger)
    ensures IdentifierStep(ledger, m, toMod, name, Synthetic, ExprParent(Updater(name)), grandparentType) == (Keep, ledger)
  {
  }
}
