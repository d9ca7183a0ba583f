/**
 * Values shared by every pipeline module: an Option type, the dynamically typed
 * values that the pipeline's dictionaries hold, and insertion-ordered
 * dictionaries with Python's assignment semantics.
 */
module Common {

  datatype Option<T> = None | Some(value: T)

  /** The keys of an association list, in insertion order. */
  function KeysOf<V>(d: seq<(string, V)>): (ks: seq<string>)
    ensures |ks| == |d|
    ensures forall i :: 0 <= i < |d| ==> ks[i] == d[i].0
  {
    if d == [] then [] else [d[0].0] + KeysOf(d[1..])
  }

  /** The key set of an association list. */
  function Keys<V>(d: seq<(string, V)>): set<string>
  {
    set i | 0 <= i < |d| :: d[i].0
  }

  ghost predicate DistinctKeys<V>(d: seq<(string, V)>)
  {
    forall i, j :: 0 <= i < j < |d| ==> d[i].0 != d[j].0
  }

  /**
   * A Python dictionary: entries in insertion order, each key at most once.
   */
  type Dict<V> = d: seq<(string, V)> | DistinctKeys(d) witness []

  /** The keys of a non-empty association list: its first key and the keys after it. */
  lemma KeysCons<V>(d: seq<(string, V)>)
    requires d != []
    ensures Keys(d) == {d[0].0} + Keys(d[1..])
  {
    forall x | x in Keys(d) ensures x in {d[0].0} + Keys(d[1..]) {
      var i :| 0 <= i < |d| && d[i].0 == x;
      if i > 0 { assert d[1..][i - 1].0 == x; }
    }
    forall x | x in Keys(d[1..]) ensures x in Keys(d) {
      var i :| 0 <= i < |d[1..]| && d[1..][i].0 == x;
      assert d[i + 1].0 == x;
    }
  }

  /** `d.get(k)`: the value of the first entry whose key is `k`, if any. */
  function Get<V>(d: seq<(string, V)>, k: string): Option<V>
  {
    if d == [] then None
    else if d[0].0 == k then Some(d[0].1)
    else Get(d[1..], k)
  }

  /** A lookup fails exactly for keys that are absent, and succeeds with a stored value. */
  lemma {:induction false} GetPresent<V>(d: seq<(string, V)>, k: string)
    ensures Get(d, k).None? <==> k !in Keys(d)
    ensures Get(d, k).Some? ==> (k, Get(d, k).value) in d
  {
    if d != [] {
      KeysCons(d);
      GetPresent(d[1..], k);
    }
  }

  /** `d.get(k, default)`. */
  function GetOr<V>(d: seq<(string, V)>, k: string, default: V): (r: V)
    ensures Get(d, k).None? ==> r == default
    ensures Get(d, k).Some? ==> r == Get(d, k).value
  {
    match Get(d, k)
    case Some(v) => v
    case None => default
  }

  /** A lookup finds the first entry stored under its key. */
  lemma {:induction false} GetAt<V>(d: seq<(string, V)>, i: nat)
    requires i < |d|
    requires forall j :: 0 <= j < i ==> d[j].0 != d[i].0
    ensures Get(d, d[i].0) == Some(d[i].1)
  {
    if i > 0 {
      GetAt(d[1..], i - 1);
    }
  }

  /** A four-entry association list with distinct keys is a dictionary whose lookups find each entry. */
  lemma Fields4<V>(d: seq<(string, V)>)
    requires |d| == 4
    requires d[0].0 != d[1].0 && d[0].0 != d[2].0 && d[0].0 != d[3].0
    requires d[1].0 != d[2].0 && d[1].0 != d[3].0 && d[2].0 != d[3].0
    ensures DistinctKeys(d)
    ensures KeysOf(d) == [d[0].0, d[1].0, d[2].0, d[3].0]
    ensures Get(d, d[0].0) == Some(d[0].1) && Get(d, d[1].0) == Some(d[1].1)
    ensures Get(d, d[2].0) == Some(d[2].1) && Get(d, d[3].0) == Some(d[3].1)
  {
    GetAt(d, 0); GetAt(d, 1); GetAt(d, 2); GetAt(d, 3);
  }

  /** An eight-entry association list with distinct keys is a dictionary whose lookups find each entry. */
  lemma Fields8<V>(d: seq<(string, V)>)
    requires |d| == 8
    requires forall i, j :: 0 <= i < j < 8 ==> d[i].0 != d[j].0
    ensures DistinctKeys(d)
    ensures KeysOf(d) == [d[0].0, d[1].0, d[2].0, d[3].0, d[4].0, d[5].0, d[6].0, d[7].0]
    ensures Get(d, d[0].0) == Some(d[0].1) && Get(d, d[1].0) == Some(d[1].1)
    ensures Get(d, d[2].0) == Some(d[2].1) && Get(d, d[3].0) == Some(d[3].1)
    ensures Get(d, d[4].0) == Some(d[4].1) && Get(d, d[5].0) == Some(d[5].1)
    ensures Get(d, d[6].0) == Some(d[6].1) && Get(d, d[7].0) == Some(d[7].1)
  {
    assert Get(d, d[0].0) == Some(d[0].1) by { GetAt(d, 0); }
    assert Get(d, d[1].0) == Some(d[1].1) by { GetAt(d, 1); }
    assert Get(d, d[2].0) == Some(d[2].1) by { GetAt(d, 2); }
    assert Get(d, d[3].0) == Some(d[3].1) by { GetAt(d, 3); }
    assert Get(d, d[4].0) == Some(d[4].1) by { GetAt(d, 4); }
    assert Get(d, d[5].0) == Some(d[5].1) by { GetAt(d, 5); }
    assert Get(d, d[6].0) == Some(d[6].1) by { GetAt(d, 6); }
    assert Get(d, d[7].0) == Some(d[7].1) by { GetAt(d, 7); }
  }

  /** In a dictionary, a lookup finds the one entry stored under its key. */
  lemma GetEntry<V>(d: Dict<V>, i: nat)
    requires i < |d|
    ensures Get(d, d[i].0) == Some(d[i].1)
  {
    GetAt(d, i);
  }

  /** A dictionary has exactly as many keys as entries. */
  lemma {:induction false} KeyCount<V>(d: Dict<V>)
    ensures |Keys(d)| == |d|
  {
    if d != [] {
      var tail: Dict<V> := d[1..];
      KeyCount(tail);
      KeysCons(d);
      FirstKeyNotInTail(d);
    }
  }

  /** The first key of a dictionary does not occur again after it. */
  lemma FirstKeyNotInTail<V>(d: Dict<V>)
    requires d != []
    ensures d[0].0 !in Keys(d[1..])
  {
    forall i | 0 <= i < |d[1..]| ensures d[1..][i].0 != d[0].0 {
      assert d[1..][i] == d[i + 1];
    }
  }

  /** Replacing the value of a dictionary's first entry. */
  lemma ReplaceFirst<V>(d: Dict<V>, v: V)
    requires d != []
    ensures DistinctKeys([(d[0].0, v)] + d[1..])
    ensures Keys([(d[0].0, v)] + d[1..]) == Keys(d)
    ensures KeysOf([(d[0].0, v)] + d[1..]) == KeysOf(d)
  {
    var r := [(d[0].0, v)] + d[1..];
    KeysCons(d);
    KeysCons(r);
    assert r[1..] == d[1..];
  }

  /** Putting a dictionary's first entry in front of a dictionary of other keys. */
  lemma ConsDistinct<V>(e: (string, V), rest: Dict<V>)
    requires e.0 !in Keys(rest)
    ensures DistinctKeys([e] + rest)
    ensures Keys([e] + rest) == {e.0} + Keys(rest)
  {
    var r := [e] + rest;
    forall i, j | 0 <= i < j < |r| ensures r[i].0 != r[j].0 {
      assert r[j] == rest[j - 1];
      if i > 0 { assert r[i] == rest[i - 1]; }
    }
    KeysCons(r);
    assert r[1..] == rest;
  }

  /**
   * `d[k] = v`: an existing key keeps its position and takes the new value;
   * a new key is appended at the end.
   */
  function Put<V>(d: Dict<V>, k: string, v: V): (r: Dict<V>)
    ensures Keys(r) == Keys(d) + {k}
    ensures k !in Keys(d) ==> r == d + [(k, v)]
  {
    if d == [] then
      assert [(k, v)][0].0 == k;
      [(k, v)]
    else if d[0].0 == k then
      ReplaceFirst(d, v);
      [(k, v)] + d[1..]
    else
      var tail: Dict<V> := d[1..];
      KeysCons(d);
      FirstKeyNotInTail(d);
      var rest := Put(tail, k, v);
      ConsDistinct(d[0], rest);
      assert k !in Keys(d) ==> [d[0]] + rest == d + [(k, v)] by {
        if k !in Keys(d) {
          assert d == [d[0]] + tail;
        }
      }
      [d[0]] + rest
  }

  /** After `d[k] = v`, `k` holds `v` and every other key holds what it held before. */
  lemma {:induction false} PutGet<V>(d: Dict<V>, k: string, v: V, k': string)
    ensures Get(Put(d, k, v), k') == if k' == k then Some(v) else Get(d, k')
  {
    if d != [] && d[0].0 != k {
      var tail: Dict<V> := d[1..];
      PutGet(tail, k, v, k');
      assert Put(d, k, v)[1..] == Put(tail, k, v);
    }
  }

  /** Assigning to a key that is already present keeps the order of the keys. */
  lemma {:induction false} PutKeepsOrder<V>(d: Dict<V>, k: string, v: V)
    requires k in Keys(d)
    ensures KeysOf(Put(d, k, v)) == KeysOf(d)
  {
    KeysCons(d);
    if d[0].0 != k {
      var tail: Dict<V> := d[1..];
      PutKeepsOrder(tail, k, v);
      assert Put(d, k, v)[1..] == Put(tail, k, v);
    }
  }

  /**
   * A dynamically typed value as the pipeline's dictionaries and lists hold
   * it. Floats (similarity thresholds, temperatures) are only stored and
   * compared for equality, so a `real` stands in for the float's value.
   */
  datatype Value =
    | Null
    | Bool(b: bool)
    | Int(i: int)
    | Float(x: real)
    | Str(s: string)
    | List(items: seq<Value>)
    | Obj(fields: Dict<Value>)

  /** The value stored under `k` in a dictionary value. */
  function Field(v: Value, k: string): (r: Option<Value>)
    ensures !v.Obj? ==> r.None?
  {
    if v.Obj? then Get(v.fields, k) else None
  }

  /** An optional string as a value: `None` becomes `null`. */
  function OptionalStr(o: Option<string>): (v: Value)
    ensures o.None? <==> v.Null?
    ensures o.Some? ==> v == Str(o.value)
  {
    match o
    case None => Null
    case Some(s) => Str(s)
  }

  /** The inverse of `OptionalStr`; fails on values that are neither null nor a string. */
  function AsOptionalStr(v: Value): (r: Option<Option<string>>)
    ensures r.Some? ==> OptionalStr(r.value) == v
    ensures v.Null? || v.Str? <==> r.Some?
  {
    match v
    case Null => Some(None)
    case Str(s) => Some(Some(s))
    case _ => None
  }

  /** The string stored under `k` in a dictionary value, if it is one. */
  function StrField(v: Value, k: string): (r: Option<string>)
    ensures r.Some? <==> Field(v, k).Some? && Field(v, k).value.Str?
    ensures r.Some? ==> Field(v, k) == Some(Str(r.value))
  {
    match Field(v, k)
    case Some(Str(s)) => Some(s)
    case _ => None
  }

  /** The optional string stored under `k` in a dictionary value, if it is a string or null. */
  function OptionalStrField(v: Value, k: string): (r: Option<Option<string>>)
    ensures r.Some? ==> Field(v, k) == Some(OptionalStr(r.value))
    ensures Field(v, k).Some? && (Field(v, k).value.Str? || Field(v, k).value.Null?) ==> r.Some?
  {
    match Field(v, k)
    case Some(x) => AsOptionalStr(x)
    case None => None
  }

  /** A list of strings as a list value. */
  function StrList(ss: seq<string>): (v: Value)
    ensures v.List? && |v.items| == |ss|
    ensures forall i :: 0 <= i < |ss| ==> v.items[i] == Str(ss[i])
  {
    List(seq(|ss|, i requires 0 <= i < |ss| => Str(ss[i])))
  }

  /** The inverse of `StrList`; fails unless every item is a string. */
  function AsStrList(v: Value): (r: Option<seq<string>>)
    ensures r.Some? ==> StrList(r.value) == v
    ensures r.Some? ==> |r.value| == |v.items| && forall i :: 0 <= i < |r.value| ==> v.items[i] == Str(r.value[i])
    ensures v.List? && (forall i :: 0 <= i < |v.items| ==> v.items[i].Str?) ==> r.Some?
  {
    if v.List? && forall i :: 0 <= i < |v.items| ==> v.items[i].Str? then
      Some(seq(|v.items|, i requires 0 <= i < |v.items| => v.items[i].s))
    else
      None
  }

  /** A list of strings is read back unchanged from its list value. */
  lemma StrListRoundTrip(ss: seq<string>)
    ensures AsStrList(StrList(ss)) == Some(ss)
  {
    var r := AsStrList(StrList(ss));
    assert r.Some?;
    assert r.value == ss;
  }

  /** The list stored under `k` in a dictionary value, if it is one. */
  function ListField(v: Value, k: string): (r: Option<seq<Value>>)
    ensures r.Some? <==> Field(v, k).Some? && Field(v, k).value.List?
    ensures r.Some? ==> Field(v, k) == Some(List(r.value))
  {
    match Field(v, k)
    case Some(List(items)) => Some(items)
    case _ => None
  }

  /** Python's `sub in s` on strings: `sub` occurs in `s` at some position. */
  predicate Contains(s: string, sub: string)
  {
    exists i :: 0 <= i <= |s| && sub <= s[i..]
  }

  /** Sequence concatenation is associative. */
  lemma ConcatAssoc<T>(a: seq<T>, b: seq<T>, c: seq<T>)
    ensures a + (b + c) == (a + b) + c
  {
  }

  /** A string contains whatever sits in its middle. */
  lemma ContainsInfix(a: string, b: string, c: string)
    ensures Contains(a + b + c, b)
  {
    assert b <= (a + b + c)[|a|..];
  }

  /** A text that contains a string contains each of its prefixes. */
  lemma ContainsPrefix(s: string, sub: string, prefix: string)
    requires Contains(s, sub) && prefix <= sub
    ensures Contains(s, prefix)
  {
    var i :| 0 <= i <= |s| && sub <= s[i..];
    assert prefix <= s[i..];
  }

  /** A text contains each of its prefixes. */
  lemma ContainsAtStart(s: string, prefix: string)
    requires prefix <= s
    ensures Contains(s, prefix)
  {
    assert s[0..] == s;
  }

  /** A text contains whatever a suffix of it contains. */
  lemma ContainsInSuffix(s: string, i: nat, sub: string)
    requires i <= |s| && Contains(s[i..], sub)
    ensures Contains(s, sub)
  {
    var p :| 0 <= p <= |s[i..]| && sub <= s[i..][p..];
    assert s[i..][p..] == s[i + p..];
  }
}
