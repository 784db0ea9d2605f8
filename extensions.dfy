/** Dictionary helpers of the notification library: the reverse lookup `TryGetKey`
    and `BidirectionalDictionary`, the registry that pairs native toasts with notifications. */
module Extensions {
  import opened Wrappers

  // ---------------------------------------------------------------------------
  // TryGetKey: reverse lookup over a dictionary's enumeration
  // ---------------------------------------------------------------------------

  /** A dictionary's enumeration: its entries in enumeration order. */
  type Entries<K, V> = seq<(K, V)>

  /** Enumerated keys are pairwise distinct, as in every dictionary. */
  ghost predicate DistinctKeys<K, V>(entries: Entries<K, V>) {
    forall i, j :: 0 <= i < j < |entries| ==> entries[i].0 != entries[j].0
  }

  /** Some entry has the value `value`. */
  ghost predicate HasValue<K, V>(entries: Entries<K, V>, value: V) {
    exists i :: 0 <= i < |entries| && entries[i].1 == value
  }

  /** Entry `i` is the first one, in enumeration order, whose value is `value`. */
  ghost predicate IsFirstMatch<K, V>(entries: Entries<K, V>, value: V, i: int) {
    && 0 <= i < |entries|
    && entries[i].1 == value
    && forall j :: 0 <= j < i ==> entries[j].1 != value
  }

  /** The dictionary an enumeration came from. */
  function AsDictionary<K, V>(entries: Entries<K, V>): map<K, V> {
    if |entries| == 0 then map[]
    else AsDictionary(entries[1..])[entries[0].0 := entries[0].1]
  }

  /** Every enumerated entry is a key/value binding of the dictionary. */
  lemma {:induction false} AsDictionaryAt<K, V>(entries: Entries<K, V>, i: int)
    requires DistinctKeys(entries)
    requires 0 <= i < |entries|
    ensures entries[i].0 in AsDictionary(entries)
    ensures AsDictionary(entries)[entries[i].0] == entries[i].1
  {
    if i > 0 {
      AsDictionaryAt(entries[1..], i - 1);
      assert entries[1..][i - 1] == entries[i];
      assert entries[0].0 != entries[i].0;
    }
  }

  /** Position of the first entry whose value equals `value` (the predicate of the
      LINQ `FirstOrDefault` call and of the `foreach` loop). */
  function FirstMatchIndex<K, V(==)>(entries: Entries<K, V>, value: V): (r: Option<nat>)
    ensures r.Some? ==> IsFirstMatch(entries, value, r.value)
    ensures r.None? ==> !HasValue(entries, value)
  {
    if |entries| == 0 then None
    else if entries[0].1 == value then Some(0)
    else
      match FirstMatchIndex(entries[1..], value)
      case None =>
        assert forall i :: 1 <= i < |entries| ==> entries[i] == entries[1..][i - 1];
        None
      case Some(i) =>
        assert forall j :: 1 <= j <= i ==> entries[j] == entries[1..][j - 1];
        Some(i + 1)
  }

  /** LINQ `FirstOrDefault(kvp => kvp.Value == value)`: the first matching entry, or the
      default pair when no entry matches. */
  function FirstOrDefault<K, V(==)>(entries: Entries<K, V>, value: V, default: (K, V)): (K, V) {
    match FirstMatchIndex(entries, value)
    case Some(i) => entries[i]
    case None => default
  }

  /** What `TryGetKey` returns: whether it found a key, and the key (`default` otherwise).
      `None` stands for a null dictionary. With more than 10 entries the code decides
      "not found" by comparing the LINQ result with the default pair, so a genuine match
      equal to that pair is reported as absent. */
  function TryGetKeyResult<K(==), V(==)>(dict: Option<Entries<K, V>>, value: V, defaultKey: K, defaultValue: V): (bool, K) {
    match dict
    case None => (false, defaultKey)
    case Some(entries) =>
      if |entries| <= 10 then
        match FirstMatchIndex(entries, value)
        case Some(i) => (true, entries[i].0)
        case None => (false, defaultKey)
      else
        var kvp := FirstOrDefault(entries, value, (defaultKey, defaultValue));
        if kvp != (defaultKey, defaultValue) then (true, kvp.0) else (false, defaultKey)
  }

  /** Reverse lookup: a `foreach` with early return for small dictionaries, the LINQ
      expression for larger ones. */
  method TryGetKey<K(==), V(==)>(dict: Option<Entries<K, V>>, value: V, defaultKey: K, defaultValue: V)
    returns (found: bool, key: K)
    ensures (found, key) == TryGetKeyResult(dict, value, defaultKey, defaultValue)
  {
    if dict.None? {
      return false, defaultKey;
    }
    var entries := dict.value;
    if |entries| <= 10 {
      var i := 0;
      while i < |entries|
        invariant 0 <= i <= |entries|
        invariant forall j :: 0 <= j < i ==> entries[j].1 != value
      {
        if entries[i].1 == value {
          assert IsFirstMatch(entries, value, i);
          return true, entries[i].0;
        }
        i := i + 1;
      }
    } else {
      var kvp := FirstOrDefault(entries, value, (defaultKey, defaultValue));
      if kvp != (defaultKey, defaultValue) {
        return true, kvp.0;
      }
    }
    return false, defaultKey;
  }

  /** A null dictionary, or one where no entry has the value, gives `false` and the default key. */
  lemma TryGetKeyAbsent<K, V>(dict: Option<Entries<K, V>>, value: V, defaultKey: K, defaultValue: V)
    requires dict.None? || !HasValue(dict.value, value)
    ensures TryGetKeyResult(dict, value, defaultKey, defaultValue) == (false, defaultKey)
  {
  }

  /** Whatever the size, a key reported as found is bound to `value` in the dictionary. */
  lemma TryGetKeyFoundIsBound<K, V>(dict: Option<Entries<K, V>>, value: V, defaultKey: K, defaultValue: V)
    requires dict.Some? ==> DistinctKeys(dict.value)
    ensures var (found, key) := TryGetKeyResult(dict, value, defaultKey, defaultValue);
      && (!found ==> key == defaultKey)
      && (found ==> dict.Some? && key in AsDictionary(dict.value) && AsDictionary(dict.value)[key] == value)
  {
    if dict.Some? {
      var entries := dict.value;
      match FirstMatchIndex(entries, value)
      case Some(i) => AsDictionaryAt(entries, i);
      case None =>
    }
  }

  /** With at most 10 entries the key of the first matching entry is returned. */
  lemma TryGetKeySmall<K, V>(entries: Entries<K, V>, value: V, defaultKey: K, defaultValue: V, i: int)
    requires |entries| <= 10
    requires IsFirstMatch(entries, value, i)
    ensures TryGetKeyResult(Some(entries), value, defaultKey, defaultValue) == (true, entries[i].0)
  {
  }

  /** With more than 10 entries the first match is returned unless it equals the default pair. */
  lemma TryGetKeyLarge<K, V>(entries: Entries<K, V>, value: V, defaultKey: K, defaultValue: V, i: int)
    requires |entries| > 10
    requires IsFirstMatch(entries, value, i)
    ensures TryGetKeyResult(Some(entries), value, defaultKey, defaultValue)
      == if entries[i] == (defaultKey, defaultValue) then (false, defaultKey) else (true, entries[i].0)
  {
  }

  /** The quirk of the large-dictionary path, on a concrete input: eleven entries whose first
      entry is the default pair (0, 0); looking up the value 0 reports "not found" although
      key 0 is bound to 0. */
  lemma TryGetKeyMissesDefaultPair()
    ensures var entries := [(0, 0), (1, 1), (2, 2), (3, 3), (4, 4), (5, 5), (6, 6), (7, 7), (8, 8), (9, 9), (10, 10)];
      && AsDictionary(entries)[0] == 0
      && TryGetKeyResult(Some(entries), 0, 0, 0) == (false, 0)
  {
  }

  // ---------------------------------------------------------------------------
  // BidirectionalDictionary
  // ---------------------------------------------------------------------------

  /** `m` and `n` are mutual inverses: `m[a] == b` exactly when `n[b] == a`. */
  ghost predicate MutualInverse<A, B>(m: map<A, B>, n: map<B, A>) {
    && (forall a :: a in m ==> m[a] in n && n[m[a]] == a)
    && (forall b :: b in n ==> n[b] in m && m[n[b]] == b)
  }

  /** A bijection has as many first keys as second keys. */
  lemma {:induction false} MutualInverseSameSize<A, B>(m: map<A, B>, n: map<B, A>)
    requires MutualInverse(m, n)
    ensures |m| == |n|
    decreases |m|
  {
    if |m| == 0 {
      assert m.Keys == {};
      assert n.Keys == {};
    } else {
      var a :| a in m;
      var b := m[a];
      var m', n' := m - {a}, n - {b};
      assert m'.Keys == m.Keys - {a};
      assert n'.Keys == n.Keys - {b};
      MutualInverseSameSize(m', n');
    }
  }

  /** Two dictionaries kept in lock-step so that either side can be looked up in O(1). */
  class BidirectionalDictionary<TFirst(==), TSecond(==)> {
    var firstToSecond: map<TFirst, TSecond>
    var secondToFirst: map<TSecond, TFirst>

    /** The bijection invariant. */
    ghost predicate Valid()
      reads this
    {
      MutualInverse(firstToSecond, secondToFirst)
    }

    constructor ()
      ensures Valid()
      ensures firstToSecond == map[] && secondToFirst == map[]
    {
      firstToSecond := map[];
      secondToFirst := map[];
    }

    /** The capacity is only a sizing hint for the two dictionaries; .NET rejects a
        negative one. */
    constructor WithCapacity(capacity: int)
      requires capacity >= 0
      ensures Valid()
      ensures firstToSecond == map[] && secondToFirst == map[]
    {
      firstToSecond := map[];
      secondToFirst := map[];
    }

    /** Number of pairs; the same whichever side is counted. */
    function Count(): (n: nat)
      reads this
      requires Valid()
      ensures n == |firstToSecond| && n == |secondToFirst|
    {
      MutualInverseSameSize(firstToSecond, secondToFirst);
      |firstToSecond|
    }

    /** The first keys: `Count()` of them, each accepted by `ContainsFirst` (so all of them). */
    function FirstKeys(): (keys: set<TFirst>)
      reads this
      requires Valid()
      ensures |keys| == Count()
      ensures forall a :: a in keys ==> ContainsFirst(a)
    {
      firstToSecond.Keys
    }

    /** The second keys: `Count()` of them, each accepted by `ContainsSecond` (so all of them). */
    function SecondKeys(): (keys: set<TSecond>)
      reads this
      requires Valid()
      ensures |keys| == Count()
      ensures forall b :: b in keys ==> ContainsSecond(b)
    {
      secondToFirst.Keys
    }

    /** A first key is present exactly when it is the partner of some second key. */
    predicate ContainsFirst(first: TFirst)
      reads this
      requires Valid()
      ensures ContainsFirst(first) <==> exists b :: b in secondToFirst && secondToFirst[b] == first
    {
      first in firstToSecond
    }

    /** A second key is present exactly when it is the partner of some first key. */
    predicate ContainsSecond(second: TSecond)
      reads this
      requires Valid()
      ensures ContainsSecond(second) <==> exists a :: a in firstToSecond && firstToSecond[a] == second
    {
      second in secondToFirst
    }

    /** Indexer lookup by first key; throws KeyNotFoundException when absent. The value found
        leads back to `first`. */
    function GetByFirst(first: TFirst): (r: Result<TSecond, Error>)
      reads this
      requires Valid()
      ensures r.Failure? ==> r.error == KeyNotFound && !ContainsFirst(first)
      ensures r.Success? ==> r.value in secondToFirst && secondToFirst[r.value] == first
    {
      if first in firstToSecond then Success(firstToSecond[first]) else Failure(KeyNotFound)
    }

    /** Indexer lookup by second key; throws KeyNotFoundException when absent. The value found
        leads back to `second`. */
    function GetBySecond(second: TSecond): (r: Result<TFirst, Error>)
      reads this
      requires Valid()
      ensures r.Failure? ==> r.error == KeyNotFound && !ContainsSecond(second)
      ensures r.Success? ==> r.value in firstToSecond && firstToSecond[r.value] == second
    {
      if second in secondToFirst then Success(secondToFirst[second]) else Failure(KeyNotFound)
    }

    /** Non-throwing lookup by first key; agrees with `GetByFirst`. */
    function TryGetByFirst(first: TFirst): (r: Option<TSecond>)
      reads this
      requires Valid()
      ensures r.Some? <==> GetByFirst(first).Success?
      ensures r.Some? ==> r.value == GetByFirst(first).value
    {
      if first in firstToSecond then Some(firstToSecond[first]) else None
    }

    /** Non-throwing lookup by second key; agrees with `GetBySecond`. */
    function TryGetBySecond(second: TSecond): (r: Option<TFirst>)
      reads this
      requires Valid()
      ensures r.Some? <==> GetBySecond(second).Success?
      ensures r.Some? ==> r.value == GetBySecond(second).value
    {
      if second in secondToFirst then Some(secondToFirst[second]) else None
    }

    /** Adds a pair; a present `first` is rejected before a present `second`, and a rejected
        call changes nothing. */
    method Add(first: TFirst, second: TSecond) returns (r: Outcome<Error>)
      requires Valid()
      modifies this
      ensures Valid()
      ensures first in old(firstToSecond) ==> r == Fail(Argument("first")) && unchanged(this)
      ensures first !in old(firstToSecond) && second in old(secondToFirst) ==>
        r == Fail(Argument("second")) && unchanged(this)
      ensures first !in old(firstToSecond) && second !in old(secondToFirst) ==>
        && r == Pass
        && firstToSecond == old(firstToSecond)[first := second]
        && secondToFirst == old(secondToFirst)[second := first]
        && Count() == old(Count()) + 1
    {
      if first in firstToSecond {
        return Fail(Argument("first"));
      }
      if second in secondToFirst {
        return Fail(Argument("second"));
      }
      firstToSecond := firstToSecond[first := second];
      secondToFirst := secondToFirst[second := first];
      r := Pass;
    }

    /** Adds a pair unless either side is already present; a refused pair changes nothing. */
    method TryAdd(first: TFirst, second: TSecond) returns (added: bool)
      requires Valid()
      modifies this
      ensures Valid()
      ensures added <==> first !in old(firstToSecond) && second !in old(secondToFirst)
      ensures !added ==> unchanged(this)
      ensures added ==>
        && firstToSecond == old(firstToSecond)[first := second]
        && secondToFirst == old(secondToFirst)[second := first]
        && Count() == old(Count()) + 1
    {
      if first in firstToSecond || second in secondToFirst {
        return false;
      }
      firstToSecond := firstToSecond[first := second];
      secondToFirst := secondToFirst[second := first];
      added := true;
    }

    /** Removes the pair whose first key is `first`, from both directions. */
    method RemoveByFirst(first: TFirst) returns (removed: bool)
      requires Valid()
      modifies this
      ensures Valid()
      ensures removed <==> first in old(firstToSecond)
      ensures !removed ==> unchanged(this)
      ensures removed ==>
        && firstToSecond == old(firstToSecond) - {first}
        && secondToFirst == old(secondToFirst) - {old(firstToSecond)[first]}
        && Count() == old(Count()) - 1
    {
      if first in firstToSecond {
        var second := firstToSecond[first];
        firstToSecond := firstToSecond - {first};
        secondToFirst := secondToFirst - {second};
        return true;
      }
      return false;
    }

    /** Removes the pair whose second key is `second`, from both directions. */
    method RemoveBySecond(second: TSecond) returns (removed: bool)
      requires Valid()
      modifies this
      ensures Valid()
      ensures removed <==> second in old(secondToFirst)
      ensures !removed ==> unchanged(this)
      ensures removed ==>
        && firstToSecond == old(firstToSecond) - {old(secondToFirst)[second]}
        && secondToFirst == old(secondToFirst) - {second}
        && Count() == old(Count()) - 1
    {
      if second in secondToFirst {
        var first := secondToFirst[second];
        firstToSecond := firstToSecond - {first};
        secondToFirst := secondToFirst - {second};
        return true;
      }
      return false;
    }

    /** Empties both directions. */
    method Clear()
      requires Valid()
      modifies this
      ensures Valid()
      ensures firstToSecond == map[] && secondToFirst == map[] && Count() == 0
    {
      firstToSecond := map[];
      secondToFirst := map[];
    }
  }
}
