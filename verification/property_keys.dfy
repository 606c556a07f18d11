/**
 * Property keys of a JavaScript object and the order in which `for…in` and
 * `Object.values` visit them.  The cart object is keyed by catalog ids such
 * as "1" … "9".  Keys of that shape (array indices: canonical decimal strings
 * whose value is below 2^32 - 1) are visited in ascending numeric order,
 * whatever order they were inserted in.
 */
module PropertyKeys {

  import opened Seqs

  predicate IsDigit(c: char) {
    '0' <= c <= '9'
  }

  predicate AllDigits(s: string) {
    forall i :: 0 <= i < |s| ==> IsDigit(s[i])
  }

  function Pow10(n: nat): (p: nat)
    ensures p >= 1
  {
    if n == 0 then 1 else 10 * Pow10(n - 1)
  }

  /** The number a string of decimal digits spells, most significant digit first. */
  function DecimalValue(s: string): (v: nat)
    requires AllDigits(s)
  {
    if s == [] then 0
    else 10 * DecimalValue(s[..|s| - 1]) + (s[|s| - 1] as int - '0' as int)
  }

  /** 2^32 - 2, the largest array index. */
  const MaxArrayIndex: nat := 4294967294

  /** An array-index key: digits only, no leading zero, value at most 2^32 - 2. */
  predicate IsIndexKey(s: string) {
    |s| >= 1 && AllDigits(s) && (s[0] == '0' ==> |s| == 1) && DecimalValue(s) <= MaxArrayIndex
  }

  function KeyValue(s: string): nat
    requires IsIndexKey(s)
  {
    DecimalValue(s)
  }

  lemma {:induction false} Pow10Monotonic(a: nat, b: nat)
    requires a <= b
    ensures Pow10(a) <= Pow10(b)
    decreases b
  {
    if a < b {
      Pow10Monotonic(a, b - 1);
    }
  }

  /** A string of |s| decimal digits spells a number below 10^|s|. */
  lemma {:induction false} DecimalUpperBound(s: string)
    requires AllDigits(s)
    ensures DecimalValue(s) < Pow10(|s|)
  {
    if s != [] {
      DecimalUpperBound(s[..|s| - 1]);
    }
  }

  /** A digit string without a leading zero is at least 10^(|s|-1). */
  lemma {:induction false} DecimalLowerBound(s: string)
    requires AllDigits(s) && |s| >= 1 && s[0] != '0'
    ensures DecimalValue(s) >= Pow10(|s| - 1)
  {
    if |s| > 1 {
      var p := s[..|s| - 1];
      assert p[0] == s[0];
      DecimalLowerBound(p);
    }
  }

  /** Two digit strings of one length spelling the same number are the same string. */
  lemma {:induction false} DecimalInjective(s: string, t: string)
    requires AllDigits(s) && AllDigits(t) && |s| == |t|
    requires DecimalValue(s) == DecimalValue(t)
    ensures s == t
  {
    if s != [] {
      var n := |s| - 1;
      DecimalInjective(s[..n], t[..n]);
      assert s[n] == t[n];
      assert s == s[..n] + [s[n]] && t == t[..n] + [t[n]];
    }
  }

  /** Distinct array-index keys have distinct numeric values. */
  lemma IndexKeyInjective(s: string, t: string)
    requires IsIndexKey(s) && IsIndexKey(t) && KeyValue(s) == KeyValue(t)
    ensures s == t
  {
    DecimalUpperBound(s);
    DecimalUpperBound(t);
    if |s| < |t| {
      DecimalLowerBound(t);
      Pow10Monotonic(|s|, |t| - 1);
    } else if |t| < |s| {
      DecimalLowerBound(s);
      Pow10Monotonic(|t|, |s| - 1);
    } else {
      DecimalInjective(s, t);
    }
  }

  predicate AllIndexKeys(keys: set<string>) {
    forall k :: k in keys ==> IsIndexKey(k)
  }

  predicate IsSmallest(k: string, keys: set<string>)
    requires AllIndexKeys(keys)
  {
    k in keys && forall j :: j in keys ==> KeyValue(k) <= KeyValue(j)
  }

  /** Every non-empty finite set of index keys has a numerically smallest key. */
  lemma {:induction false} SmallestExists(keys: set<string>)
    requires keys != {} && AllIndexKeys(keys)
    ensures exists k :: IsSmallest(k, keys)
    decreases |keys|
  {
    var x :| x in keys;
    var rest := keys - {x};
    if rest == {} {
      assert keys == {x};
      assert IsSmallest(x, keys);
    } else {
      SmallestExists(rest);
      var m :| IsSmallest(m, rest);
      if KeyValue(x) <= KeyValue(m) {
        assert IsSmallest(x, keys);
      } else {
        assert IsSmallest(m, keys);
      }
    }
  }

  /** The smallest key of a set is unique. */
  lemma SmallestUnique(k: string, j: string, keys: set<string>)
    requires AllIndexKeys(keys) && IsSmallest(k, keys) && IsSmallest(j, keys)
    ensures k == j
  {
    IndexKeyInjective(k, j);
  }

  ghost function Smallest(keys: set<string>): (k: string)
    requires keys != {} && AllIndexKeys(keys)
    ensures IsSmallest(k, keys)
  {
    SmallestExists(keys);
    var k :| IsSmallest(k, keys);
    k
  }

  /** Every key is an index key and the values strictly increase along the sequence. */
  predicate StrictlyAscending(ks: seq<string>) {
    (forall i :: 0 <= i < |ks| ==> IsIndexKey(ks[i])) &&
    forall i, j :: 0 <= i < j < |ks| ==> KeyValue(ks[i]) < KeyValue(ks[j])
  }

  /**
   * The order in which `for…in` visits an object whose keys are `keys`: every
   * key exactly once, in strictly ascending numeric order.
   */
  ghost function SortedKeys(keys: set<string>): (ks: seq<string>)
    requires AllIndexKeys(keys)
    ensures |ks| == |keys|
    ensures forall k :: k in ks <==> k in keys
    decreases |keys|
  {
    if keys == {} then []
    else
      var k := Smallest(keys);
      [k] + SortedKeys(keys - {k})
  }

  /** The first key visited is below every other key visited. */
  lemma SmallestBelowRest(keys: set<string>)
    requires AllIndexKeys(keys) && keys != {}
    ensures forall j :: j in SortedKeys(keys - {Smallest(keys)}) ==> KeyValue(Smallest(keys)) < KeyValue(j)
  {
    var k := Smallest(keys);
    forall j | j in SortedKeys(keys - {k}) ensures KeyValue(k) < KeyValue(j) {
      if KeyValue(k) == KeyValue(j) {
        IndexKeyInjective(k, j);
      }
    }
  }

  /** A key below every key of an ascending listing can be put in front of it. */
  lemma AscendingCons(k: string, rest: seq<string>)
    requires IsIndexKey(k) && StrictlyAscending(rest)
    requires forall j :: j in rest ==> KeyValue(k) < KeyValue(j)
    ensures StrictlyAscending([k] + rest)
  {
    var ks := [k] + rest;
    forall i, j | 0 <= i < j < |ks| ensures KeyValue(ks[i]) < KeyValue(ks[j]) {
      assert ks[j] == rest[j - 1];
      if i > 0 {
        assert ks[i] == rest[i - 1];
      } else {
        assert ks[j] in rest;
      }
    }
  }

  /** `for…in` visits the keys in strictly ascending numeric order. */
  lemma {:induction false} SortedKeysAscending(keys: set<string>)
    requires AllIndexKeys(keys)
    ensures StrictlyAscending(SortedKeys(keys))
    decreases |keys|
  {
    if keys != {} {
      var k := Smallest(keys);
      SortedKeysAscending(keys - {k});
      SmallestBelowRest(keys);
      AscendingCons(k, SortedKeys(keys - {k}));
    }
  }

  /** Visiting starts at the smallest key and goes on with the others. */
  lemma SortedKeysUnfold(keys: set<string>, k: string)
    requires AllIndexKeys(keys) && IsSmallest(k, keys)
    ensures SortedKeys(keys) == [k] + SortedKeys(keys - {k})
  {
    SmallestUnique(k, Smallest(keys), keys);
  }

  /**
   * The key list `for…in` walks: repeatedly take the smallest key not yet
   * listed.
   */
  method KeysInOrder(keys: set<string>) returns (ks: seq<string>)
    requires AllIndexKeys(keys)
    ensures ks == SortedKeys(keys)
  {
    var todo := keys;
    ks := [];
    while todo != {}
      invariant todo <= keys
      invariant ks + SortedKeys(todo) == SortedKeys(keys)
      decreases |todo|
    {
      SmallestExists(todo);
      var id :| IsSmallest(id, todo);
      SortedKeysUnfold(todo, id);
      AppendAssociative(ks, [id], SortedKeys(todo - {id}));
      ks := ks + [id];
      todo := todo - {id};
    }
    assert SortedKeys(todo) == [];
    assert ks + [] == ks;
  }

  /** Dropping the first key of an ascending listing leaves an ascending listing. */
  lemma AscendingTail(ks: seq<string>)
    requires StrictlyAscending(ks) && ks != []
    ensures StrictlyAscending(ks[1..])
  {
    var tail := ks[1..];
    forall i, j | 0 <= i < j < |tail| ensures KeyValue(tail[i]) < KeyValue(tail[j]) {
      assert tail[i] == ks[i + 1] && tail[j] == ks[j + 1];
    }
  }

  /** The first key of an ascending listing of `keys` is the smallest of them. */
  lemma AscendingHead(ks: seq<string>, keys: set<string>)
    requires AllIndexKeys(keys) && StrictlyAscending(ks) && ks != []
    requires forall k :: k in ks <==> k in keys
    ensures IsSmallest(ks[0], keys)
    ensures forall j :: j in ks[1..] <==> j in keys - {ks[0]}
  {
    forall j | j in keys ensures KeyValue(ks[0]) <= KeyValue(j) {
      var i :| 0 <= i < |ks| && ks[i] == j;
    }
    forall j ensures j in ks[1..] <==> j in keys - {ks[0]} {
      if j in ks[1..] {
        var i :| 0 <= i < |ks[1..]| && ks[1..][i] == j;
        assert ks[i + 1] == j;
      }
      if j in keys - {ks[0]} {
        var i :| 0 <= i < |ks| && ks[i] == j;
        assert ks[1..][i - 1] == j;
      }
    }
  }

  /** One step of `AscendingListingIsSortedKeys`: the first key, then the rest in order. */
  lemma AscendingListingStep(ks: seq<string>, keys: set<string>)
    requires AllIndexKeys(keys) && ks != [] && IsSmallest(ks[0], keys)
    requires ks[1..] == SortedKeys(keys - {ks[0]})
    ensures ks == SortedKeys(keys)
  {
    SortedKeysUnfold(keys, ks[0]);
    HeadTail(ks);
  }

  /** Any strictly ascending listing of exactly the keys is the `for…in` order. */
  lemma {:induction false} AscendingListingIsSortedKeys(ks: seq<string>, keys: set<string>)
    requires AllIndexKeys(keys) && StrictlyAscending(ks)
    requires forall k :: k in ks <==> k in keys
    ensures ks == SortedKeys(keys)
    decreases |keys|
  {
    if keys != {} {
      var x :| x in keys;
      assert x in ks;
      AscendingHead(ks, keys);
      AscendingTail(ks);
      AscendingListingIsSortedKeys(ks[1..], keys - {ks[0]});
      AscendingListingStep(ks, keys);
    }
  }
}
