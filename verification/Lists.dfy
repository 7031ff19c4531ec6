/** Removing repetitions with a set of what has been seen. */
module Lists {

  /** The first occurrences that have not been seen before. */
  function Unseen<T(==)>(seen: set<T>, keys: seq<T>, n: nat): seq<T>
    requires n <= |keys|
  {
    if n == 0 then []
    else
      var rest := Unseen(seen, keys, n - 1);
      if keys[n - 1] in seen || keys[n - 1] in rest then rest else rest + [keys[n - 1]]
  }

  lemma {:induction false} UnseenIsExact<T>(seen: set<T>, keys: seq<T>, n: nat)
    requires n <= |keys|
    ensures var r := Unseen(seen, keys, n);
      (forall i :: 0 <= i < |r| ==> r[i] !in seen && r[i] in keys) &&
      (forall i, j :: 0 <= i < j < |r| ==> r[i] != r[j]) &&
      (forall i :: 0 <= i < n ==> keys[i] in seen || keys[i] in r)
  {
    if n > 0 {
      UnseenIsExact(seen, keys, n - 1);
    }
  }

  lemma {:induction false} AllSeen<T>(seen: set<T>, keys: seq<T>, n: nat)
    requires n <= |keys| && forall i :: 0 <= i < n ==> keys[i] in seen
    ensures Unseen(seen, keys, n) == []
  {
    if n > 0 {
      AllSeen(seen, keys, n - 1);
    }
  }

  function Elements<T(==)>(xs: seq<T>): set<T> {
    set x | x in xs
  }

  method CollectElements<T(==)>(xs: seq<T>) returns (seen: set<T>)
    ensures seen == Elements(xs)
  {
    seen := {};
    for i := 0 to |xs|
      invariant seen == Elements(xs[..i])
    {
      seen := seen + {xs[i]};
    }
    assert xs[..|xs|] == xs;
  }

  method Deduplicate<T(==)>(existing: set<T>, keys: seq<T>) returns (added: seq<T>)
    ensures added == Unseen(existing, keys, |keys|)
  {
    var seen := existing;
    added := [];
    for i := 0 to |keys|
      invariant added == Unseen(existing, keys, i)
      invariant forall k :: k in seen <==> k in existing || k in added
    {
      if keys[i] !in seen {
        seen := seen + {keys[i]};
        added := added + [keys[i]];
      }
    }
  }
}
