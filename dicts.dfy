/** Python dictionaries with string keys: insertion-ordered keys over a map. */
module OrderedDicts {

  /** No element occurs twice. */
  ghost predicate Distinct<T>(s: seq<T>)
  {
    forall i, j :: 0 <= i < j < |s| ==> s[i] != s[j]
  }

  /** `r` is `s` with some elements left out: what is kept keeps its order. */
  ghost predicate Subsequence<T>(r: seq<T>, s: seq<T>)
    decreases |s|
  {
    r == [] || (|s| > 0 && ((r[0] == s[0] && Subsequence(r[1..], s[1..])) || Subsequence(r, s[1..])))
  }

  lemma {:induction false} SubsequenceTransitive<T>(a: seq<T>, b: seq<T>, c: seq<T>)
    requires Subsequence(a, b) && Subsequence(b, c)
    ensures Subsequence(a, c)
    decreases |c|
  {
    if a != [] {
      assert b != [] && |c| > 0;
      if Subsequence(b, c[1..]) {
        SubsequenceTransitive(a, b, c[1..]);
      } else {
        assert b[0] == c[0] && Subsequence(b[1..], c[1..]);
        if a[0] == b[0] && Subsequence(a[1..], b[1..]) {
          SubsequenceTransitive(a[1..], b[1..], c[1..]);
        } else {
          SubsequenceTransitive(a, b[1..], c[1..]);
        }
      }
    }
  }

  /** `s` with every occurrence of `k` removed, order kept. */
  function Without(s: seq<string>, k: string): (r: seq<string>)
    ensures forall x :: x in r <==> x in s && x != k
    ensures Distinct(s) ==> Distinct(r)
    ensures k !in s ==> r == s
    ensures Subsequence(r, s)
    decreases |s|
  {
    if s == [] then []
    else if s[0] == k then Without(s[1..], k)
    else
      DistinctTail(s);
      [s[0]] + Without(s[1..], k)
  }

  lemma DistinctTail<T>(s: seq<T>)
    requires |s| > 0
    ensures Distinct(s) ==> Distinct(s[1..]) && s[0] !in s[1..]
  {
  }

  /** The keys of a dictionary in insertion order and the values they map to. */
  datatype Dict<V> = Dict(keys: seq<string>, entries: map<string, V>)
  {
    ghost predicate Valid()
    {
      Distinct(keys) && (forall k :: k in entries <==> k in keys)
    }
  }

  /** A dictionary as Python has them: every key once, in insertion order. */
  type PyDict<V> = d: Dict<V> | d.Valid() witness Dict([], map[])

  function Empty<V>(): PyDict<V>
  {
    Dict([], map[])
  }

  /** `d[k] = v`: a new key goes to the end, an existing key keeps its place. */
  function Put<V>(d: PyDict<V>, k: string, v: V): (r: PyDict<V>)
    ensures r.entries == d.entries[k := v]
    ensures r.keys == if k in d.entries then d.keys else d.keys + [k]
  {
    if k in d.entries then Dict(d.keys, d.entries[k := v])
    else Dict(d.keys + [k], d.entries[k := v])
  }

  /** `d.pop(k, None)` with the popped value discarded: the key is gone, the
      others keep their order. */
  function Pop<V>(d: PyDict<V>, k: string): (r: PyDict<V>)
    ensures r.entries == d.entries - {k}
    ensures forall x :: x in r.keys <==> x in d.keys && x != k
    ensures Subsequence(r.keys, d.keys)
    ensures k !in d.entries ==> r == d
  {
    Dict(Without(d.keys, k), d.entries - {k})
  }
}
