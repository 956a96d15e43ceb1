/** The reactive binding scan: which names of a function scope become state. */
module BindingScan {
  import opened MarkerResolution

  /** The name matches `/^\$/`. */
  predicate HasSigil(name: string) {
    |name| > 0 && name[0] == '$'
  }

  /** A binding kept by the scan: `$`-prefixed and not the active alias. */
  predicate IsReactiveBinding(name: string, m: Marker) {
    !IsAlias(m, name) && HasSigil(name)
  }

  /** The reactive names of a scope, in binding order. */
  function ReactiveNames(bindings: seq<string>, m: Marker): (r: seq<string>)
    ensures |r| <= |bindings|
    ensures forall i :: 0 <= i < |r| ==> IsReactiveBinding(r[i], m)
  {
    if bindings == [] then []
    else (if IsReactiveBinding(bindings[0], m) then [bindings[0]] else []) + ReactiveNames(bindings[1..], m)
  }

  /** A name is listed exactly when it is a binding of the scope, starts with
      `$` and is not the active alias. */
  lemma {:induction false} ReactiveNamesMembers(bindings: seq<string>, m: Marker)
    ensures forall n :: n in ReactiveNames(bindings, m) <==> n in bindings && HasSigil(n) && !IsAlias(m, n)
  {
    if bindings != [] {
      ReactiveNamesMembers(bindings[1..], m);
      assert bindings == [bindings[0]] + bindings[1..];
    }
  }

  /** The scan keeps binding order: scanning two runs of bindings one after the
      other gives the two results one after the other. */
  lemma {:induction false} ReactiveNamesConcat(a: seq<string>, b: seq<string>, m: Marker)
    ensures ReactiveNames(a + b, m) == ReactiveNames(a, m) + ReactiveNames(b, m)
  {
    if a == [] {
      assert a + b == b;
    } else {
      assert (a + b)[1..] == a[1..] + b;
      ReactiveNamesConcat(a[1..], b, m);
    }
  }

  /** `getReactiveVariablesFromScope`: the `forEach`/`push` loop over the
      scope's binding names. */
  method GetReactiveVariablesFromScope(bindings: seq<string>, m: Marker) returns (toMod: seq<string>)
    ensures toMod == ReactiveNames(bindings, m)
  {
    toMod := [];
    var i := 0;
    while i < |bindings|
      invariant 0 <= i <= |bindings|
      invariant toMod == ReactiveNames(bindings[..i], m)
    {
      var binding := bindings[i];
      ReactiveNamesConcat(bindings[..i], [binding], m);
      assert bindings[..i + 1] == bindings[..i] + [binding];
      if IsAlias(m, binding) {
        // skipped: the alias of the escape hatch
      } else if HasSigil(binding) {
        toMod := toMod + [binding];
      }
      i := i + 1;
    }
    assert bindings[..i] == bindings;
  }
}
