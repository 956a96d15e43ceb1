# mute: the Babel plugin's rewrite rules, in Dafny

`mute` is a Babel plugin for React components. Inside component functions it
turns local variables whose names start with `$` into state-hook handles:

- `let $a = v` becomes `const $a = React.useState(v)`;
- a read of `$a` becomes `$a[0]`;
- the statement `$a op= e` becomes `$a[1](...)`.

An import `import {$mut as m} from 'mute'` supplies an escape hatch. A
declaration `let $b = m(h)` takes `h` as an existing hook handle. A
reference `m($b)` passes the raw handle on.

This project models the plugin's rules (`src/react/babel.ts`) and proves
properties of them.

- `ast.dfy` (module `Ast`): the node kinds the rules tell apart, and spans as
  opaque offsets. Nodes the plugin builds have no offsets (`Synthetic`). The
  file also has the builders for `name[0]`, `name[1]` and
  `React.useState(...)`.
- `marker.dfy` (`MarkerResolution`): `isUsingMute`, `is$mutCall`, and the
  `ImportDeclaration` visitor's effect on the marker `{using, name}`.
- `scan.dfy` (`BindingScan`): `getReactiveVariablesFromScope`, as a loop
  proved against the filter `ReactiveNames`.
- `memo.dfy` (`SiteMemory`): the reactivity-verdict cache, both as written
  and corrected (see Findings).
- `declarations.dfy`, `assignments.dfy`, `identifiers.dfy`: the declaration
  rewriter, the assignment rewriter and the `Identifier` visitor. Each is a
  function of the node, the reactive list and the marker.
  - `identifiers.dfy` models the traversal as a single step. The visited
    identifier's parent and its grandparent's node type are parameters.
  - `assignments.dfy` also has a small numeric evaluator. It is used to prove
    that operator folding stores what the original compound assignment would
    have stored.
- `plugin.dfy` (`Plugin`): the state as a class `MuteState`. Its fields are
  the plugin instance's `toMod`, the three module-level memo maps, and the
  per-unit `state.ignoreList` and `state.compileFunc`.
  - `Program.enter`, the visitors, the memo helpers and the two in-place
    rewriters are methods.
  - Each method is proved against the functions above.
  - `Valid()` says every memo entry is what a fresh computation would give.
  - `VariableDeclaration` (a `kind` and a declarator array) and
    `ExpressionStatement` are the nodes those rewriters update in place.
- `scenarios.dfy`: the component of the first test case, driven through the
  methods, and the read/write round trip for one variable. Its offsets are
  illustrative.

Four behaviours a reader may not expect; the model follows the code:

- **The ignore-list entry.** After `$mut(id)` is unwrapped, the entry pushed
  onto the ignore list is built from `path.parentPath.node`. This happens
  after `replaceWith`, and Babel's `replaceWith` stores the replacement in
  that path. So the recorded triple is the identifier's
  `("Identifier", start, end)`, not the call's. That is why the requeued
  identifier is skipped when it is visited again
  (`Identifiers.UnwrapThenRevisitKeeps`).
- **Protected positions are tested by the parent's node type only.** A
  reactive name is left alone when its parent is a variable declarator
  (whether it is the id or the initializer), an assignment (either side) or
  an object property (key or value). It is also left alone when its
  grandparent is a JSX attribute, which covers `attr={$a}`. Object-property
  values and `attr={$a}` attribute values are therefore not rewritten. The
  test is on the parent's node type (`Ast.ParentType`), so every encoding of
  a parent of a protected type is treated alike.
- **Declaration rewriting is not idempotent.** Re-applying it wraps
  `React.useState` a second time (`Declarations.RewriteAgainWrapsAgain`).
- **`toMod` is never reset.** It is created once per plugin instance and is
  not cleared by `Program.enter`.

## Model

| member | source | states |
|---|---|---|
| `MarkerResolution.FindMutSpecifier` | src/react/babel.ts:290-295 | None exactly when no specifier imports `$mut` under an identifier name; otherwise the first such specifier |
| `MarkerResolution.IsUsingMute` | src/react/babel.ts:280-304 | source other than the string `'mute'`: `{false, null}`; `'mute'` with no `$mut` specifier: `{true, null}`; otherwise `{true, local}` of the first `$mut` specifier, `null` when that local name is empty |
| `MarkerResolution.MarkerAfterImport` | src/react/babel.ts:45-54 | the marker is unchanged unless the import is from `'mute'`; then `using` is true and the name is what `isUsingMute` reported |
| `MarkerResolution.IsMutCall` | src/react/babel.ts:332-344 | a node is an escape-hatch call only while the marker is active with a name, and then it is a call whose callee is the identifier of that name |
| `MarkerResolution.AliasCallRecognised` | src/react/babel.ts:332-344 | after `import {$mut as m} from 'mute'`, a call with an identifier callee is an escape-hatch call exactly when the callee is `m` |
| `BindingScan.ReactiveNames` | src/react/babel.ts:263-278 | the scan has at most one entry per binding, and every entry is `$`-prefixed and not the active alias |
| `BindingScan.ReactiveNamesMembers` | src/react/babel.ts:263-278 | a name is in the scan exactly when it is a binding, starts with `$` and is not the active alias |
| `BindingScan.ReactiveNamesConcat` | src/react/babel.ts:265-276 | the scan keeps binding order: scanning `a + b` gives the scan of `a` followed by the scan of `b` |
| `BindingScan.GetReactiveVariablesFromScope` | src/react/babel.ts:263-278 | the `forEach`/`push` loop returns exactly the order-preserving filter of the bindings |
| `SiteMemory.CachedVerdictAsWritten` | src/react/babel.ts:229-236 | the answer is what the cache holds for the name afterwards; the cache gains exactly that name, keeps every earlier entry, and a first lookup answers membership in the list |
| `SiteMemory.AsWrittenFirstVerdictSticks` | src/react/babel.ts:229-236 | as written, the first verdict for a name is returned at every later lookup, whatever the list holds then |
| `SiteMemory.AsWrittenGoesStale` | src/react/babel.ts:229-236 | as written: `$y` looked up before any scope lists it, then listed, still reads as not reactive |
| `SiteMemory.AsWrittenStaleAfterGrowth` | src/react/babel.ts:229-236 | as written: any name looked up before the list grows to include it stays not reactive |
| `SiteMemory.CachedVerdict` | src/react/babel.ts:229-236 | corrected cache: the verdict is always membership in the current list, and the cache stays sound |
| `SiteMemory.MemoSoundUnderGrowth` | src/react/babel.ts:55-62 | appending a scope's names to the list keeps the corrected cache sound |
| `Declarations.RewriteDeclarator` | src/react/babel.ts:136-165 | one declarator's rewrite keeps whether the id is a plain identifier, keeps its name, and keeps whether the declarator is reactive |
| `Declarations.RewriteDeclarators` | src/react/babel.ts:135-169 | the declarators, rewritten one after another, keep the list's length, and each position is the one-declarator rewrite of the same position |
| `Declarations.MemoAfterDeclarators` | src/react/babel.ts:138-146 | after the loop's lookups the verdict memo is still sound, and its keys are the old keys plus the reactive names bound by plain-identifier declarators |
| `Declarations.RewriteDeclaratorMeaning` | src/react/babel.ts:138-165 | non-reactive declarators are unchanged; a reactive one keeps its name; with a `$mut` initializer it takes that call's first argument (none if the call has none); otherwise it becomes `name = React.useState(init)`, with no argument when there was no initializer |
| `Declarations.UseStateIsNotMutCall` | src/react/babel.ts:150-165 | the generated `React.useState(...)` initializer is never an escape-hatch call |
| `Declarations.RewriteAgainWrapsAgain` | src/react/babel.ts:158-165 | applying the rewrite to its own output wraps `React.useState` again |
| `Declarations.RewriteDeclaratorsKeepsOthers` | src/react/babel.ts:138-145 | a non-reactive declarator is untouched in the rewritten list |
| `Declarations.DeclarationKindConst` | src/react/babel.ts:147-148 | the kind is `const` afterwards exactly when it was `const` or some declarator binds a reactive identifier |
| `Assignments.BareOperator` | src/react/babel.ts:202-220 | the folded operator is the compound operator without its `=` |
| `Assignments.RewriteAssignment` | src/react/babel.ts:172-227 | the expression is either unchanged or, for an assignment to an identifier, a call whose callee is that identifier's updater `name[1]` |
| `Assignments.RewriteAssignmentUnchanged` | src/react/babel.ts:176-189 | the expression is unchanged exactly when it is not an assignment, its left side is not an identifier, or the identifier is not reactive |
| `Assignments.RewriteAssignmentMeaning` | src/react/babel.ts:191-226 | otherwise it is a call of `name[1]`: argument `right` for `=`; one binary `name[0] op right` for `+=`, `-=`, `*=`, `/=`; no argument for any other operator |
| `Assignments.UpdaterArgumentAgrees` | src/react/babel.ts:196-226 | for `=`, `+=`, `-=`, `*=`, `/=` the updater's argument evaluates to the value the original assignment stores, given the hook's current value |
| `Identifiers.IsCompiledSetterGetter` | src/react/babel.ts:346-362 | a parent recognised as compiled is a member expression whose property is a numeric literal |
| `Identifiers.IdentifierStep` | src/react/babel.ts:75-119 | one visit only extends the ignore list; an unwrap happens only under an escape-hatch call and yields the identifier itself; a replacement happens only for a reactive name and yields `name[0]` |
| `Identifiers.IdentifierStepLedgerGrows` | src/react/babel.ts:95-103 | the ignore list only grows, by the identifier's `("Identifier", start, end)` exactly when the visit unwraps an escape-hatch call |
| `Identifiers.IgnoredOrAliasKeeps` | src/react/babel.ts:76-93 | an identifier whose triple is in the ignore list, or which is the active alias, is not changed |
| `Identifiers.UnwrapThenRevisitKeeps` | src/react/babel.ts:95-103 | a parent `$mut(...)` call is replaced by the identifier, and a later visit of that identifier anywhere changes nothing |
| `Identifiers.IdentifierStepRewritesIff` | src/react/babel.ts:105-118 | the identifier becomes `name[0]` exactly when it is not ignored, not the alias, not under an escape-hatch call, reactive, not protected and not already under `x[0]`/`x[1]` |
| `Identifiers.NonReactiveNotRead` | src/react/babel.ts:105-118 | a name outside the reactive list is never replaced by an accessor |
| `Identifiers.ProtectedPositionsKept` | src/react/babel.ts:105-114 | with a parent of type `VariableDeclarator`, `AssignmentExpression` or `ObjectProperty`, however that parent is encoded, or with a JSX-attribute grandparent, the identifier is kept unless its parent is an escape-hatch call |
| `Identifiers.GeneratedAccessRecognised` | src/react/babel.ts:346-362 | the generated `name[0]` and `name[1]` satisfy `isCompiledSetterGetter` |
| `Identifiers.AccessorNotRewrittenAgain` | src/react/babel.ts:112-114 | the identifier inside a generated accessor or updater is not rewritten again |
| `Plugin.MuteState.constructor` | src/react/babel.ts:16-21 | empty `toMod`, empty memos, unit state as after `Program.enter` |
| `Plugin.MuteState.ProgramEnter` | src/react/babel.ts:25-43 | the three memos are emptied, the ignore list is emptied, the marker is `{false, ''}`, and `toMod` is kept |
| `Plugin.MuteState.VisitImportDeclaration` | src/react/babel.ts:45-54 | the import is removed exactly when it is from `'mute'`, and the marker is then set from `isUsingMute` |
| `Plugin.MuteState.VisitFunction` | src/react/babel.ts:55-62 | `toMod` becomes the old list followed by the scope's reactive names, so it only grows |
| `Plugin.MuteState.IsReactiveIdentifier` | src/react/babel.ts:229-236 | the verdict is membership of the name in `toMod` (corrected cache; see Findings) |
| `Plugin.MuteState.GetGetterExpressionForReactive` | src/react/babel.ts:319-330 | returns `name[0]`, memoized under the name |
| `Plugin.MuteState.GetSetterExpressionForReactive` | src/react/babel.ts:306-317 | returns `name[1]`, memoized under the name |
| `Plugin.MuteState.TransformReactiveDeclarations` | src/react/babel.ts:129-170 | the array, rewritten in place, is the declarator-wise rewrite of the old array, the kind is `const` if any declarator was reactive, and the verdict memo is the one the loop's lookups leave |
| `Plugin.MuteState.TransformAssignmentExpression` | src/react/babel.ts:172-227 | the statement's expression becomes the assignment rewrite of the old one; the getter and setter memos gain the name exactly when it is rewritten |
| `Plugin.MuteState.VisitIdentifier` | src/react/babel.ts:75-119 | the edit and the new ignore list are the identifier step's; the verdict memo is consulted only after the ledger, alias and unwrap checks; the getter memo gains the name exactly when the identifier is replaced |
| `Scenarios.ReadWriteRoundTrip` | src/react/babel.ts:75-227 | for reactive `$x`: the declaration becomes `const $x = React.useState(v)`, a read whose parent is well formed, is not a declarator, assignment or object property, and is neither an escape-hatch call nor an `x[0]`/`x[1]` access, and whose grandparent is not a JSX attribute, becomes `$x[0]`, and `$x = e` becomes `$x[1](e)` |
| `Scenarios.SimpleTransformSetup` | test/react/babel.ts:13-18 | `import {$mut} from "mute"` is removed and sets the alias `$mut`; the scope of `Component` yields `["$a", "$b"]` |
| `Scenarios.SimpleTransformDeclarations` | test/react/babel.ts:17-18 | the two statements are rewritten separately: `let $a = {...}` becomes `const $a = React.useState({...})`, and `let $b = $mut(React.useState(1))` becomes `const $b = React.useState(1)` |
| `Scenarios.SimpleTransformReadWrite` | test/react/babel.ts:26-30 | the read `$a` in `{$a.name}` becomes `$a[0]`, and `$b += 1` becomes `$b[1]($b[0] + 1)` |

## Findings

| source | as written | input that shows it | evidently intended | confidence | as-written member | corrected member |
|---|---|---|---|---|---|---|
| src/react/babel.ts:229-236 | `isReactiveIdentifier` caches negative verdicts too, while `toMod` (lines 55-62) keeps growing as later function scopes are scanned | `function C() { const f = () => { let $y = 1; return $y } }`: the nested traversal of `C` visits `let $y = 1` before the arrow's scope has been scanned, so the verdict false is cached; when the arrow is visited, `$y` is in `toMod` but the cached false is returned, and `$y` never becomes state | the cached verdict always equals membership in the current list (a cache, not the source of truth) | not executed | `SiteMemory.AsWrittenStaleAfterGrowth` | `SiteMemory.CachedVerdict` |

The corrected cache keeps positive verdicts only. `Plugin.MuteState.IsReactiveIdentifier`
uses it, so the rewriters in `Plugin` always see membership in the current
list.

## Left out

- Babel's traversal is not modelled. This covers `transformToStateByScope`'s
  nested `path.traverse`, visit order and requeueing after `replaceWith`.
  - Each visitor is a method that takes the visited node, and for identifiers
    the parent and the grandparent's node type.
  - `path.remove()` in the `ImportDeclaration` visitor is a returned flag.
  - `replaceWith` in the `Identifier` visitor is a returned edit
    (`IdentEdit`).
- `Scope.bindings` is not modelled: a function's binding names are given as
  a sequence in key order.
- Nodes are values, not objects. The identity of the memoized accessor and
  updater nodes is not captured. Nor is the aliasing that reusing one node at
  several tree positions, or mutating a declarator object in place, would
  give. The memos guarantee structural equality only.
- Parsing, printing, `@babel/preset-react` and the React runtime targeted by
  `React.useState` are not modelled.
- Numbers are reals: JavaScript's floating point is not modelled. In
  `Assignments.UpdaterArgumentAgrees`, division by zero (Infinity in
  JavaScript) is left undefined.
- The helpers `getSetterName`, `normalizeName` and `isReadingReactiveValue`
  are not modelled: nothing calls them.
- The skipped test scenarios are not modelled: module-scope `$b`, `useEffect`
  dependencies, object and array mutation, and `$x = $x + 1`. They are
  unimplemented in the source. The two active tests compare against
  snapshots that are not available. `Scenarios` therefore derives the first
  test's expected rewrites from the rules rather than from a recorded output.
- Source offsets are opaque integers, and the node spans in `Scenarios` are
  made up.
