/** Marker resolution: recognising `import {$mut as m} from 'mute'` and the
    calls `m(...)` it makes special. */
module MarkerResolution {
  import opened Ast

  const PackageName := "mute"
  const CompileTimeFuncName := "$mut"

  /** `state.compileFunc`: whether the marker was imported and under which
      local alias. The alias is `None` when the source recorded `null`. */
  datatype Marker = Marker(using: bool, name: Option<string>)

  /** The marker as `Program.enter` sets it: `{using: false, name: ''}`. */
  const InitialMarker := Marker(false, Some(""))

  /** What `isUsingMute` reports for one import declaration. */
  datatype MuteImport = MuteImport(using: bool, name: Option<string>)

  predicate FromMute(decl: ImportDeclaration) {
    decl.source.StrLit? && decl.source.text == PackageName
  }

  /** A `{$mut as local}` specifier whose imported name is an identifier. */
  predicate ImportsMut(s: ImportSpecifier) {
    s.NamedSpecifier? && s.imported.ExportIdent? && s.imported.name == CompileTimeFuncName
  }

  /** `i` is the first `$mut` specifier of `specs`. */
  ghost predicate FirstMut(specs: seq<ImportSpecifier>, i: int) {
    0 <= i < |specs| && ImportsMut(specs[i]) && forall j :: 0 <= j < i ==> !ImportsMut(specs[j])
  }

  /** The search over the import's specifiers: the first `$mut` specifier, if
      any. */
  function FindMutSpecifier(specs: seq<ImportSpecifier>): (r: Option<ImportSpecifier>)
    ensures r.None? <==> forall i :: 0 <= i < |specs| ==> !ImportsMut(specs[i])
    ensures r.Some? ==> exists i :: FirstMut(specs, i) && specs[i] == r.value
  {
    if specs == [] then None
    else if ImportsMut(specs[0]) then
      assert FirstMut(specs, 0);
      Some(specs[0])
    else
      var r := FindMutSpecifier(specs[1..]);
      assert forall i :: 1 <= i < |specs| ==> specs[i] == specs[1..][i - 1];
      assert forall k :: FirstMut(specs[1..], k) ==> FirstMut(specs, k + 1);
      r
  }

  /** `isUsingMute`. */
  function IsUsingMute(decl: ImportDeclaration): (r: MuteImport)
    ensures !FromMute(decl) ==> r == MuteImport(false, None)
    ensures (FromMute(decl) && forall i :: 0 <= i < |decl.specifiers| ==> !ImportsMut(decl.specifiers[i]))
              ==> r == MuteImport(true, None)
    ensures forall i :: FirstMut(decl.specifiers, i) && FromMute(decl) ==>
              r == MuteImport(true, if decl.specifiers[i].local == "" then None else Some(decl.specifiers[i].local))
  {
    if !FromMute(decl) then MuteImport(false, None)
    else
      var found := FindMutSpecifier(decl.specifiers);
      FirstMutUnique(decl.specifiers);
      var name := if found.Some? && found.value.local != "" then Some(found.value.local) else None;
      MuteImport(true, name)
  }

  lemma FirstMutUnique(specs: seq<ImportSpecifier>)
    ensures forall i, j :: FirstMut(specs, i) && FirstMut(specs, j) ==> i == j
  {
  }

  /** The `ImportDeclaration` visitor's effect on the marker: set only when
      `isUsingMute` reports `using`. */
  function MarkerAfterImport(m: Marker, decl: ImportDeclaration): (r: Marker)
    ensures !FromMute(decl) ==> r == m
    ensures FromMute(decl) ==> r.using && r.name == IsUsingMute(decl).name
  {
    var u := IsUsingMute(decl);
    if u.using then Marker(true, u.name) else m
  }

  /** `name` is the active escape-hatch alias. */
  predicate IsAlias(m: Marker, name: string) {
    m.using && m.name == Some(name)
  }

  /** `is$mutCall`: a call whose callee is an identifier naming the active alias. */
  predicate IsMutCall(node: Expr, m: Marker)
    ensures IsMutCall(node, m) ==> m.using && m.name.Some? && node.Call? && node.callee == Ident(m.name.value, node.callee.span)
  {
    node.Call? && node.callee.Ident? && IsAlias(m, node.callee.name)
  }

  /** After `import {$mut as local} from 'mute'`, exactly the calls `local(...)`
      are escape-hatch calls, whatever marker was in force before. */
  lemma AliasCallRecognised(m: Marker, decl: ImportDeclaration, i: int, callee: string, args: seq<Expr>, sp: Span, sp': Span)
    requires FromMute(decl) && FirstMut(decl.specifiers, i) && decl.specifiers[i].local != ""
    ensures IsMutCall(Call(Ident(callee, sp), args, sp'), MarkerAfterImport(m, decl)) <==> callee == decl.specifiers[i].local
  {
  }
}
