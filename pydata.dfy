/**
 * The values the Python variants build: `None`, `bool`, `int`, `float`,
 * `str`, `list` and `dict`. A `dict` keeps its insertion order (as Python's
 * does, and as the JSON output shows), so it is an association list with
 * distinct keys; `Put` is Python's `d[k] = v`.
 */
module PyData {
  import opened Text
  import opened Base

  datatype PyValue =
    | PNone
    | PBool(b: bool)
    | PInt(i: int)
    | PFloat(text: string)     // a float, kept as the literal text it came from
    | PStr(s: string)
    | PList(elems: seq<PyValue>)
    | PDict(entries: Dict)

  type Dict = seq<(string, PyValue)>

  /** A scalar: what `isinstance(v, (bool, int, float, str, type(None)))` accepts. */
  predicate IsScalar(v: PyValue) {
    !v.PList? && !v.PDict?
  }

  function Keys(d: Dict): (ks: set<string>)
  {
    set i | 0 <= i < |d| :: d[i].0
  }

  /** The key order of a dict. */
  function KeyList(d: Dict): (ks: seq<string>)
    ensures |ks| == |d|
    ensures forall i :: 0 <= i < |d| ==> ks[i] == d[i].0
  {
    if d == [] then [] else [d[0].0] + KeyList(d[1..])
  }

  predicate DistinctKeys(d: Dict) {
    forall i, j :: 0 <= i < j < |d| ==> d[i].0 != d[j].0
  }

  lemma KeysCons(d: Dict)
    requires d != []
    ensures Keys(d) == {d[0].0} + Keys(d[1..])
  {
    forall x | x in Keys(d) ensures x in {d[0].0} + Keys(d[1..]) {
      var i :| 0 <= i < |d| && d[i].0 == x;
      if i > 0 { assert d[1..][i - 1] == d[i]; }
    }
    forall x | x in Keys(d[1..]) ensures x in Keys(d) {
      var i :| 0 <= i < |d[1..]| && d[1..][i].0 == x;
      assert d[i + 1].0 == x;
    }
  }

  /** `d.get(k)`: the value stored under the first entry with key `k`. */
  function Get(d: Dict, k: string): (r: Option<PyValue>)
    ensures r.Some? <==> k in Keys(d)
  {
    if d == [] then None
    else
      KeysCons(d);
      if d[0].0 == k then Some(d[0].1) else Get(d[1..], k)
  }

  /** `d[k] = v`: an existing key keeps its place and takes the new value, a new key goes last. */
  function Put(d: Dict, k: string, v: PyValue): (r: Dict)
    ensures Keys(r) == Keys(d) + {k}
    ensures Get(r, k) == Some(v)
    ensures forall k' :: k' != k ==> Get(r, k') == Get(d, k')
    ensures k !in Keys(d) ==> r == d + [(k, v)]
  {
    if d == [] then assert Keys([(k, v)]) == {k} by { KeysCons([(k, v)]); } [(k, v)]
    else if d[0].0 == k then
      KeysCons([(k, v)] + d[1..]);
      assert ([(k, v)] + d[1..])[1..] == d[1..];
      KeysCons(d);
      [(k, v)] + d[1..]
    else
      var rest := Put(d[1..], k, v);
      KeysCons(d);
      KeysCons([d[0]] + rest);
      assert ([d[0]] + rest)[1..] == rest;
      assert d == [d[0]] + d[1..];
      [d[0]] + rest
  }

  lemma {:induction false} PutKeepsDistinct(d: Dict, k: string, v: PyValue)
    requires DistinctKeys(d)
    ensures DistinctKeys(Put(d, k, v))
  {
    if d != [] && d[0].0 != k {
      assert DistinctKeys(d[1..]) by {
        forall i, j | 0 <= i < j < |d[1..]| ensures d[1..][i].0 != d[1..][j].0 {
          assert d[1..][i] == d[i + 1] && d[1..][j] == d[j + 1];
        }
      }
      PutKeepsDistinct(d[1..], k, v);
      var rest := Put(d[1..], k, v);
      assert d[0].0 !in Keys(rest) by {
        forall i | 0 <= i < |d[1..]| ensures d[1..][i].0 != d[0].0 {
          assert d[1..][i] == d[i + 1];
        }
      }
      var r := Put(d, k, v);
      forall i, j | 0 <= i < j < |r| ensures r[i].0 != r[j].0 {
        if i == 0 {
          assert r[j] == rest[j - 1];
        } else {
          assert r[i] == rest[i - 1] && r[j] == rest[j - 1];
        }
      }
    } else if d != [] {
      var r := Put(d, k, v);
      forall i, j | 0 <= i < j < |r| ensures r[i].0 != r[j].0 {
        assert r[j] == d[j];
        if i > 0 { assert r[i] == d[i]; }
      }
    }
  }

  /** `t.replace('_', '').isalnum()`: non-empty once underscores are gone, and all letters and digits. */
  predicate IdentifierShaped(t: string) {
    IsAlnumStr(Remove(t, '_'))
  }

  /**
   * Python's `int(t)` and `float(t)` on the texts that pass the source's
   * number test `t.replace('.', '').replace('-', '').isdigit()`.
   */
  predicate NumberShaped(t: string) {
    IsDigits(Remove(Remove(t, '.'), '-'))
  }

  /** `int(t)` accepts an optional leading minus followed by digits. */
  predicate IsIntText(t: string) {
    IsDigits(t) || (|t| > 1 && t[0] == '-' && IsDigits(t[1..]))
  }

  function IntValue(t: string): int
    requires IsIntText(t)
  {
    if IsDigits(t) then DigitsValue(t) as int else -(DigitsValue(t[1..]) as int)
  }

  /** `float(t)` on digits, '.' and '-': an optional leading minus, one point, at least one digit. */
  predicate IsFloatText(t: string) {
    var u := if |t| > 0 && t[0] == '-' then t[1..] else t;
    Count(u, '.') == 1 && '-' !in u && exists k :: 0 <= k < |u| && IsDigit(u[k])
  }

  /**
   * The number branch shared by the Python variants: a float when the text
   * holds a '.', an int otherwise, and a `ValueError` when Python's
   * conversion refuses the text (as for `1-2` or `1.2.3`).
   */
  function PyNumber(t: string): (r: Result<PyValue>)
    ensures r.Ok? ==> (r.value.PFloat? <==> '.' in t)
    ensures r.Ok? && r.value.PInt? ==> IsIntText(t) && r.value.i == IntValue(t)
    ensures r.Ok? && r.value.PFloat? ==> r.value.text == t
    ensures r.Ok? ==> r.value.PInt? || r.value.PFloat?
    ensures r.Err? <==> (if '.' in t then !IsFloatText(t) else !IsIntText(t))
  {
    if '.' in t then
      if IsFloatText(t) then Ok(PFloat(t)) else Err(BadNumber(t))
    else
      if IsIntText(t) then Ok(PInt(IntValue(t))) else Err(BadNumber(t))
  }

  /** `1-2` passes the number test but `int('1-2')` raises. */
  lemma MinusInsideIsRejected()
    ensures NumberShaped("1-2") && PyNumber("1-2").Err?
  {
    assert Remove("1-2", '.') == "1-2";
    assert Remove("1-2", '-') == "12";
    assert !IsDigits("1-2") by { assert !IsDigit("1-2"[1]); }
  }
}
