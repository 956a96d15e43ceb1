/** Site memory: the reactivity-verdict cache kept beside the reactive list. */
module SiteMemory {

  /** `isReactiveIdentifier` as written: a cached verdict is returned as is;
      otherwise the verdict is membership in the list, and it is cached
      whether true or false. */
  function CachedVerdictAsWritten(memo: map<string, bool>, toMod: seq<string>, name: string): (r: (bool, map<string, bool>))
    ensures name in r.1 && r.0 == r.1[name]
    ensures r.1.Keys == memo.Keys + {name}
    ensures forall n :: n in memo ==> r.1[n] == memo[n]
    ensures name !in memo ==> r.0 == (name in toMod)
  {
    if name in memo then (memo[name], memo)
    else
      var verdict := name in toMod;
      (verdict, memo[name := verdict])
  }

  /** The as-written cache keeps its first verdict for good: whatever the list
      holds at a later lookup, the answer is the one computed first. */
  lemma {:induction false} AsWrittenFirstVerdictSticks(memo: map<string, bool>, toMod: seq<string>, later: seq<string>, name: string)
    requires name !in memo
    ensures CachedVerdictAsWritten(CachedVerdictAsWritten(memo, toMod, name).1, later, name).0 == (name in toMod)
  {
  }

  /** The discrepancy: `$y` is looked up before any scope has listed it (as
      happens when the body of an enclosing function is traversed before the
      nested arrow function that declares `$y`), then the list grows by `$y`;
      the cache still answers false. */
  lemma AsWrittenGoesStale()
    ensures var memo := CachedVerdictAsWritten(map[], [], "$y").1;
            var later := ["$y"];
            "$y" in later && !CachedVerdictAsWritten(memo, later, "$y").0
  {
  }

  /** The invariant the corrected cache keeps: only positive verdicts, each
      for a name that is in the list. */
  ghost predicate MemoSound(memo: map<string, bool>, toMod: seq<string>) {
    forall n :: n in memo ==> memo[n] && n in toMod
  }

  /** The corrected lookup: only a positive verdict is cached, because the list
      only grows and a negative verdict may be overturned by a later scope. */
  function CachedVerdict(memo: map<string, bool>, toMod: seq<string>, name: string): (r: (bool, map<string, bool>))
    requires MemoSound(memo, toMod)
    ensures r.0 == (name in toMod)
    ensures MemoSound(r.1, toMod)
    ensures name in toMod ==> r.1 == memo[name := true]
    ensures name !in toMod ==> r.1 == memo
  {
    if name in memo then (memo[name], memo)
    else if name in toMod then (true, memo[name := true])
    else (false, memo)
  }

  /** Growing the list keeps the corrected cache sound, so every later lookup
      agrees with a fresh membership test. */
  lemma MemoSoundUnderGrowth(memo: map<string, bool>, toMod: seq<string>, more: seq<string>)
    requires MemoSound(memo, toMod)
    ensures MemoSound(memo, toMod + more)
  {
  }

  /** The same growth breaks the as-written cache in general: a name looked up
      before the scope that lists it answers false ever after. */
  lemma AsWrittenStaleAfterGrowth(memo: map<string, bool>, toMod: seq<string>, more: seq<string>, name: string)
    requires name !in memo && name !in toMod && name in more
    ensures var cached := CachedVerdictAsWritten(memo, toMod, name).1;
            name in toMod + more && !CachedVerdictAsWritten(cached, toMod + more, name).0
  {
  }
}
