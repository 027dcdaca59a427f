/** Laying declared key-value pairs over live ones, one key at a time. */
module Overlay {
  import opened Text

  type Vars = map<string, string>

  predicate Differs(have: Vars, want: Vars, k: string) {
    k in want && (k !in have || have[k] != want[k])
  }

  /** The keys whose wanted value is new or another. */
  function Differing(have: Vars, want: Vars, keys: seq<string>): seq<string> {
    if keys == [] then [] else
      var before, k := Differing(have, want, keys[..|keys| - 1]), keys[|keys| - 1];
      if Differs(have, want, k) then before + [k] else before
  }

  /** The keys that are there and not wanted. */
  function Unwanted(want: Vars, keys: seq<string>): seq<string> {
    if keys == [] then [] else
      var before, k := Unwanted(want, keys[..|keys| - 1]), keys[|keys| - 1];
      if k !in want then before + [k] else before
  }

  /** have with the wanted values of the keys. */
  function SetEach(have: Vars, want: Vars, keys: seq<string>): Vars {
    if keys == [] then have else
      var before, k := SetEach(have, want, keys[..|keys| - 1]), keys[|keys| - 1];
      if k in want then before[k := want[k]] else before
  }

  function DropEach(have: Vars, keys: seq<string>): Vars {
    if keys == [] then have else DropEach(have, keys[..|keys| - 1]) - {keys[|keys| - 1]}
  }

  lemma {:induction false} DifferingEmpty(have: Vars, want: Vars, keys: seq<string>)
    ensures Differing(have, want, keys) == [] <==> forall k :: k in keys ==> !Differs(have, want, k)
  {
    if keys != [] {
      assert keys == keys[..|keys| - 1] + [keys[|keys| - 1]];
      DifferingEmpty(have, want, keys[..|keys| - 1]);
    }
  }

  lemma {:induction false} UnwantedEmpty(want: Vars, keys: seq<string>)
    ensures Unwanted(want, keys) == [] <==> forall k :: k in keys ==> k in want
    ensures forall k :: k in Unwanted(want, keys) <==> k in keys && k !in want
  {
    if keys != [] {
      assert keys == keys[..|keys| - 1] + [keys[|keys| - 1]];
      UnwantedEmpty(want, keys[..|keys| - 1]);
    }
  }

  lemma {:induction false} SetEachAt(have: Vars, want: Vars, keys: seq<string>, k: string)
    ensures k in SetEach(have, want, keys) <==> k in have || (k in want && k in keys)
    ensures k in SetEach(have, want, keys) ==>
      SetEach(have, want, keys)[k] == if k in want && k in keys then want[k] else have[k]
  {
    if keys != [] {
      assert keys == keys[..|keys| - 1] + [keys[|keys| - 1]];
      SetEachAt(have, want, keys[..|keys| - 1], k);
    }
  }

  lemma {:induction false} DropEachAt(have: Vars, keys: seq<string>, k: string)
    ensures k in DropEach(have, keys) <==> k in have && k !in keys
    ensures k in DropEach(have, keys) ==> DropEach(have, keys)[k] == have[k]
  {
    if keys != [] {
      assert keys == keys[..|keys| - 1] + [keys[|keys| - 1]];
      DropEachAt(have, keys[..|keys| - 1], k);
    }
  }

  lemma SetEachIs(have: Vars, want: Vars, keys: seq<string>)
    requires forall k :: k in want ==> k in keys
    ensures SetEach(have, want, keys) == have + want
  {
    var r, all := SetEach(have, want, keys), have + want;
    forall k ensures k in r <==> k in all {
      SetEachAt(have, want, keys, k);
    }
    forall k | k in all ensures r[k] == all[k] {
      SetEachAt(have, want, keys, k);
    }
  }

  /** Setting every wanted key overlays; it does nothing exactly when no key differs. */
  lemma SetAll(have: Vars, want: Vars)
    ensures SetEach(have, want, SortedKeys(want.Keys)) == have + want
    ensures Differing(have, want, SortedKeys(want.Keys)) == [] <==> have + want == have
  {
    SetEachIs(have, want, SortedKeys(want.Keys));
    DifferingEmpty(have, want, SortedKeys(want.Keys));
  }

  /** Dropping from what holds everything wanted the keys that are not leaves exactly what is wanted. */
  lemma DropUnwanted(all: Vars, want: Vars, keys: seq<string>)
    requires forall k :: k in want ==> k in all && all[k] == want[k]
    requires forall k :: k in all && k !in want ==> k in keys
    ensures DropEach(all, Unwanted(want, keys)) == want
  {
    UnwantedEmpty(want, keys);
    var r := DropEach(all, Unwanted(want, keys));
    forall k ensures k in r <==> k in want {
      DropEachAt(all, Unwanted(want, keys), k);
    }
    forall k | k in want ensures r[k] == want[k] {
      DropEachAt(all, Unwanted(want, keys), k);
    }
  }

  /** Nothing differs and nothing is unwanted exactly when both are the same. */
  lemma NothingToSetOrDrop(have: Vars, want: Vars)
    ensures have == want <==>
      Differing(have, want, SortedKeys(want.Keys)) == [] && Unwanted(want, SortedKeys(have.Keys)) == []
  {
    DifferingEmpty(have, want, SortedKeys(want.Keys));
    UnwantedEmpty(want, SortedKeys(have.Keys));
  }

}
