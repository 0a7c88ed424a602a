/**
  The parameter multimap an IO is configured with (QMultiMap<QString, QVariant>): entries sorted by
  key, and under one key the newest first.
*/
module Parameters {

  datatype Variant = Null | Text(text: string) | Number(n: nat) | Truth(b: bool)

  datatype Entry = Entry(key: string, value: Variant)

  type Params = seq<Entry>

  /** Lexicographic order of strings. */
  predicate Less(a: string, b: string)
    decreases |a|
  {
    b != [] && (a == [] || a[0] < b[0] || (a[0] == b[0] && Less(a[1..], b[1..])))
  }

  function Insert(m: Params, key: string, value: Variant): (r: Params)
    ensures r != [] && |r| == |m| + 1
    decreases |m|
  {
    if m == [] || !Less(m[0].key, key) then [Entry(key, value)] + m
    else [m[0]] + Insert(m[1..], key, value)
  }

  /** The values under `key`, newest first. */
  function Values(m: Params, key: string): seq<Variant>
    decreases |m|
  {
    if m == [] then []
    else (if m[0].key == key then [m[0].value] else []) + Values(m[1..], key)
  }

  /** Inserts entries one after another. */
  function InsertAll(m: Params, es: seq<Entry>): (r: Params)
    ensures |r| == |m| + |es|
    decreases |es|
  {
    if es == [] then m else InsertAll(Insert(m, es[0].key, es[0].value), es[1..])
  }

  ghost predicate Sorted(m: Params)
  {
    forall i :: 0 < i < |m| ==> !Less(m[i].key, m[i - 1].key)
  }

  lemma {:induction false} LessAsymmetric(a: string, b: string)
    requires Less(a, b)
    ensures !Less(b, a)
    decreases |a|
  {
    if a != [] && a[0] == b[0] { LessAsymmetric(a[1..], b[1..]); }
  }

  /** An insertion puts the value in front of the older ones of its key and touches no other key. */
  lemma {:induction false} InsertIsNewest(m: Params, key: string, value: Variant, k: string)
    ensures Values(Insert(m, key, value), k) == (if k == key then [value] else []) + Values(m, k)
    decreases |m|
  {
    var r := Insert(m, key, value);
    if m == [] || !Less(m[0].key, key) {
      assert r[0] == Entry(key, value) && r[1..] == m;
    } else {
      if m[0].key == key { LessAsymmetric(key, key); }
      InsertIsNewest(m[1..], key, value, k);
      assert r[0] == m[0] && r[1..] == Insert(m[1..], key, value);
    }
  }

  lemma {:induction false} InsertKeepsSorted(m: Params, key: string, value: Variant)
    requires Sorted(m)
    ensures Sorted(Insert(m, key, value))
    ensures Insert(m, key, value)[0].key == if m == [] || !Less(m[0].key, key) then key else m[0].key
    decreases |m|
  {
    if m != [] && Less(m[0].key, key) {
      InsertKeepsSorted(m[1..], key, value);
      LessAsymmetric(m[0].key, key);
    }
  }

  function Reversed<T>(s: seq<T>): (r: seq<T>)
    decreases |s|
  {
    if s == [] then [] else [s[|s| - 1]] + Reversed(s[..|s| - 1])
  }

  lemma {:induction false} ReversedCons<T>(x: T, s: seq<T>)
    ensures Reversed([x] + s) == Reversed(s) + [x]
    decreases |s|
  {
    if s != [] {
      ReversedCons(x, s[..|s| - 1]);
      assert ([x] + s)[..|s|] == [x] + s[..|s| - 1];
    }
  }

  /** The values of `key` among `es`, in the order given. */
  function Given(es: seq<Entry>, key: string): seq<Variant>
    decreases |es|
  {
    if es == [] then []
    else (if es[0].key == key then [es[0].value] else []) + Given(es[1..], key)
  }

  /** The multimap returns the values of a key in reverse order of insertion. */
  lemma {:induction false} ValuesNewestFirst(m: Params, es: seq<Entry>, key: string)
    ensures Values(InsertAll(m, es), key) == Reversed(Given(es, key)) + Values(m, key)
    decreases |es|
  {
    if es != [] {
      var e, rest := es[0], Given(es[1..], key);
      InsertIsNewest(m, e.key, e.value, key);
      ValuesNewestFirst(Insert(m, e.key, e.value), es[1..], key);
      if e.key == key {
        ReversedCons(e.value, rest);
        assert Reversed(rest) + ([e.value] + Values(m, key)) == Reversed(rest) + [e.value] + Values(m, key);
      } else {
        assert Given(es, key) == rest && Values(Insert(m, e.key, e.value), key) == Values(m, key);
      }
    } else {
      assert Reversed(Given(es, key)) + Values(m, key) == Values(m, key);
    }
  }
}
