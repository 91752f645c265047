/**
 * Plain JavaScript objects as ordered association lists: the entries are kept
 * in insertion order, which is the order `Object.keys` reports.
 */
module JsObject {
  import opened JsValue

  type Entries = seq<(string, Value)>

  /** The keys, in order. */
  function Keys(r: Entries): (ks: seq<string>)
    ensures |ks| == |r| && forall i :: 0 <= i < |r| ==> ks[i] == r[i].0
  {
    if r == [] then [] else [r[0].0] + Keys(r[1..])
  }

  /** No key occurs twice: each key is absent from the entries after it. */
  ghost predicate UniqueKeys(r: Entries)
    decreases |r|
  {
    r == [] || (r[0].0 !in Keys(r[1..]) && UniqueKeys(r[1..]))
  }

  /** An object: no key occurs twice. */
  type Record = r: Entries | UniqueKeys(r) witness []

  /** Property lookup in a table of keyed values: the first entry under `k`, if any. */
  function Find<V>(table: seq<(string, V)>, k: string): Option<V> {
    if table == [] then None
    else if table[0].0 == k then Some(table[0].1)
    else Find(table[1..], k)
  }

  /** `r[k]`: the value under `k`, or undefined when there is none. */
  function Get(r: Entries, k: string): Value {
    var found := Find(r, k);
    if found.Some? then found.value else Undefined
  }

  /** `r[k] = v`: an existing key keeps its place, a new key goes last. */
  function Set(r: Record, k: string, v: Value): (r': Record)
    ensures Get(r', k) == v
    ensures forall k' :: k' != k ==> Get(r', k') == Get(r, k')
    ensures Keys(r') == if k in Keys(r) then Keys(r) else Keys(r) + [k]
    decreases |r|
  {
    if r == [] then
      ConsFacts((k, v), []);
      [(k, v)]
    else if r[0].0 == k then
      ReplaceHead(r, v);
      [(k, v)] + r[1..]
    else
      var rest := Set(r[1..], k, v);
      KeepHead(r, k, rest);
      [r[0]] + rest
  }

  /** Lookups and keys of an entry put in front of a list of entries. */
  lemma ConsFacts(e: (string, Value), r: Entries)
    ensures Keys([e] + r) == [e.0] + Keys(r)
    ensures forall k :: Get([e] + r, k) == if e.0 == k then e.1 else Get(r, k)
    ensures UniqueKeys([e] + r) <==> e.0 !in Keys(r) && UniqueKeys(r)
  {
    assert ([e] + r)[1..] == r;
  }

  /** Assigning to the first key replaces its value in place. */
  lemma ReplaceHead(r: Record, v: Value)
    requires r != []
    ensures UniqueKeys([(r[0].0, v)] + r[1..])
    ensures Keys([(r[0].0, v)] + r[1..]) == Keys(r)
    ensures forall k :: Get([(r[0].0, v)] + r[1..], k) == if k == r[0].0 then v else Get(r, k)
  {
    assert r == [r[0]] + r[1..];
    ConsFacts(r[0], r[1..]);
    ConsFacts((r[0].0, v), r[1..]);
  }

  /** Assigning to a later key keeps the first entry in front of the updated rest. */
  lemma KeepHead(r: Record, k: string, rest: Entries)
    requires r != [] && r[0].0 != k && UniqueKeys(rest)
    requires Keys(rest) == if k in Keys(r[1..]) then Keys(r[1..]) else Keys(r[1..]) + [k]
    ensures UniqueKeys([r[0]] + rest)
    ensures Keys([r[0]] + rest) == if k in Keys(r) then Keys(r) else Keys(r) + [k]
    ensures forall k' :: Get([r[0]] + rest, k') == if k' == r[0].0 then r[0].1 else Get(rest, k')
    ensures forall k' :: k' != r[0].0 ==> Get(r, k') == Get(r[1..], k')
  {
    var tail := r[1..];
    assert r == [r[0]] + tail;
    ConsFacts(r[0], tail);
    ConsFacts(r[0], rest);
    if k in Keys(tail) {
      assert k in Keys(r);
    } else {
      assert k !in Keys(r);
      AppendAssociates([r[0].0], Keys(tail), [k]);
    }
  }

  lemma SplitAt<T>(s: seq<T>, i: nat)
    requires i < |s|
    ensures s == (s[..i] + [s[i]]) + s[i + 1..]
  {
  }

  lemma TakeDrop<T>(s: seq<T>, k: nat)
    requires k <= |s|
    ensures s == s[..k] + s[k..]
  {
  }

  lemma AppendAssociates<T>(a: seq<T>, b: seq<T>, c: seq<T>)
    ensures a + (b + c) == (a + b) + c
  {
  }

  /** Two different entries of an object have different keys. */
  lemma {:induction false} DistinctKeys(r: Record, i: nat, j: nat)
    requires i < j < |r|
    ensures r[i].0 != r[j].0
  {
    var tail: Record := r[1..];
    if i == 0 {
      assert Keys(tail)[j - 1] == r[j].0;
    } else {
      DistinctKeys(tail, i - 1, j - 1);
    }
  }

  /** In an object, looking up an entry's key gives that entry's value. */
  lemma {:induction false} GetEntry(r: Record, i: nat)
    requires i < |r|
    ensures Get(r, r[i].0) == r[i].1
  {
    if i > 0 {
      DistinctKeys(r, 0, i);
      var tail: Record := r[1..];
      GetEntry(tail, i - 1);
    }
  }
}
