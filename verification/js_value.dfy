/** JSON-like JavaScript values as the application handles them: the parsed
    OpenAPI document, schema trees, webhook replies and evaluated results.
    Objects keep their keys in insertion order as an association list, and a
    property that is absent reads as `None` (JavaScript's `undefined`). */
module JsValues {

  datatype Option<+T> = None | Some(value: T)

  datatype JsValue =
    | JNull
    | JBool(b: bool)
    | JNum(n: int)
    | JStr(s: string)
    | JArr(items: seq<JsValue>)
    | JObj(fields: seq<(string, JsValue)>)

  const EmptyObject: JsValue := JObj([])

  /** JavaScript truthiness: `null`, `false`, `0` and `""` are falsy; every
      array and object is truthy. */
  predicate Truthy(v: JsValue) {
    match v
    case JNull => false
    case JBool(b) => b
    case JNum(n) => n != 0
    case JStr(s) => |s| > 0
    case JArr(_) => true
    case JObj(_) => true
  }

  /** `!!x.f` where the read may give `undefined`. */
  predicate IsSet(o: Option<JsValue>) {
    o.Some? && Truthy(o.value)
  }

  /** `a || b` for a property read `a` that may be `undefined`. */
  function OrElse(o: Option<JsValue>, fallback: JsValue): (r: JsValue)
    ensures IsSet(o) ==> r == o.value
    ensures !IsSet(o) ==> r == fallback
  {
    if o.Some? && Truthy(o.value) then o.value else fallback
  }

  function Keys(fs: seq<(string, JsValue)>): (ks: seq<string>)
    ensures |ks| == |fs|
  {
    if fs == [] then [] else [fs[0].0] + Keys(fs[1..])
  }

  lemma {:induction false} KeysAt(fs: seq<(string, JsValue)>)
    ensures forall i :: 0 <= i < |fs| ==> Keys(fs)[i] == fs[i].0
  {
    if fs != [] {
      KeysAt(fs[1..]);
    }
  }

  predicate UniqueKeys(fs: seq<(string, JsValue)>) {
    forall i, j :: 0 <= i < j < |fs| ==> fs[i].0 != fs[j].0
  }

  /** The value of the first field named `k`, as a property read does. */
  function Lookup(fs: seq<(string, JsValue)>, k: string): Option<JsValue> {
    if fs == [] then None
    else if fs[0].0 == k then Some(fs[0].1)
    else Lookup(fs[1..], k)
  }

  /** A key reads as `undefined` exactly when no field carries it, and a
      value read is the value of one of the fields. */
  lemma {:induction false} LookupFound(fs: seq<(string, JsValue)>, k: string)
    ensures Lookup(fs, k).None? <==> k !in Keys(fs)
    ensures Lookup(fs, k).Some? ==> exists i :: 0 <= i < |fs| && fs[i] == (k, Lookup(fs, k).value)
  {
    if fs != [] && fs[0].0 != k {
      LookupFound(fs[1..], k);
      var r := Lookup(fs[1..], k);
      if r.Some? {
        var i :| 0 <= i < |fs[1..]| && fs[1..][i] == (k, r.value);
        assert fs[i + 1] == (k, r.value);
      }
    }
  }

  /** `v[k]` for a key that is not an array index. Only objects carry such
      own properties: every name the application reads by hand (`type`,
      `example`, `paths`, `status`, ...) is absent from arrays, strings,
      numbers and booleans, so the read gives `undefined` for them. */
  function Get(v: JsValue, k: string): Option<JsValue> {
    match v
    case JObj(fs) => Lookup(fs, k)
    case _ => None
  }

  /** A value read from `v` is one of its fields' values, so it is a
      strictly smaller tree. */
  lemma GetChild(v: JsValue, k: string)
    requires Get(v, k).Some?
    ensures v.JObj? && exists i :: 0 <= i < |v.fields| && v.fields[i] == (k, Get(v, k).value)
  {
    LookupFound(v.fields, k);
  }

  /** `obj[k] = v` on an object: an existing key keeps its position and
      takes the new value; a new key is appended at the end. */
  function SetField(fs: seq<(string, JsValue)>, k: string, v: JsValue): (r: seq<(string, JsValue)>)
    ensures Lookup(r, k) == Some(v)
    ensures forall k' :: k' != k ==> Lookup(r, k') == Lookup(fs, k')
  {
    if fs == [] then [(k, v)]
    else if fs[0].0 == k then [(k, v)] + fs[1..]
    else [fs[0]] + SetField(fs[1..], k, v)
  }

  /** Setting a key never reorders the existing keys. */
  lemma {:induction false} SetFieldKeys(fs: seq<(string, JsValue)>, k: string, v: JsValue)
    ensures k in Keys(fs) ==> Keys(SetField(fs, k, v)) == Keys(fs)
    ensures k !in Keys(fs) ==> Keys(SetField(fs, k, v)) == Keys(fs) + [k]
  {
    if fs == [] {
    } else if fs[0].0 == k {
      assert ([(k, v)] + fs[1..])[1..] == fs[1..];
    } else {
      SetFieldKeys(fs[1..], k, v);
      var rest := SetField(fs[1..], k, v);
      assert ([fs[0]] + rest)[1..] == rest;
    }
  }

  lemma {:induction false} SetFieldKeepsUnique(fs: seq<(string, JsValue)>, k: string, v: JsValue)
    ensures UniqueKeys(fs) ==> UniqueKeys(SetField(fs, k, v))
  {
    var r := SetField(fs, k, v);
    SetFieldKeys(fs, k, v);
    KeysAt(fs);
    KeysAt(r);
    if UniqueKeys(fs) {
      forall i, j | 0 <= i < j < |r|
        ensures r[i].0 != r[j].0
      {
        if k !in Keys(fs) && j == |fs| {
          assert Keys(r)[j] == k;
        }
      }
    }
  }

  /** With distinct keys, each key reads back its own value. */
  lemma {:induction false} LookupUnique(fs: seq<(string, JsValue)>, i: int)
    requires UniqueKeys(fs)
    requires 0 <= i < |fs|
    ensures Lookup(fs, fs[i].0) == Some(fs[i].1)
  {
    if i > 0 {
      assert fs[0].0 != fs[i].0;
      assert UniqueKeys(fs[1..]) by {
        forall a, b | 0 <= a < b < |fs[1..]|
          ensures fs[1..][a].0 != fs[1..][b].0
        {
          assert fs[1..][a] == fs[a + 1] && fs[1..][b] == fs[b + 1];
        }
      }
      LookupUnique(fs[1..], i - 1);
    }
  }

  /** What JSON.parse and a YAML parser produce: no object in the tree
      repeats a key. */
  predicate WellFormed(v: JsValue)
    decreases v
  {
    match v
    case JArr(xs) => forall i :: 0 <= i < |xs| ==> WellFormed(xs[i])
    case JObj(fs) => UniqueKeys(fs) && forall i :: 0 <= i < |fs| ==> WellFormed(fs[i].1)
    case _ => true
  }

  /** `Object.fromEntries(entries)`, or a loop doing `obj[k] = v` on a fresh
      object: entries are assigned left to right. */
  function FromEntries(es: seq<(string, JsValue)>): (r: seq<(string, JsValue)>)
    ensures UniqueKeys(r)
  {
    if es == [] then []
    else
      var prefix := FromEntries(es[..|es| - 1]);
      SetFieldKeepsUnique(prefix, es[|es| - 1].0, es[|es| - 1].1);
      SetField(prefix, es[|es| - 1].0, es[|es| - 1].1)
  }

  /** Reference reading of a list of entries: the value of the LAST entry
      named `k`, scanning from the right. */
  function LastValue(es: seq<(string, JsValue)>, k: string): Option<JsValue> {
    if es == [] then None
    else if es[|es| - 1].0 == k then Some(es[|es| - 1].1)
    else LastValue(es[..|es| - 1], k)
  }

  /** `v` is the value of the last entry named `k`. */
  predicate IsLastEntry(es: seq<(string, JsValue)>, k: string, v: JsValue) {
    exists i :: 0 <= i < |es| && es[i] == (k, v) && forall j :: i < j < |es| ==> es[j].0 != k
  }

  /** `LastValue` read without recursion: `None` when no entry has the key,
      otherwise the value of the last entry that has it. */
  lemma {:induction false} LastValueIsLastEntry(es: seq<(string, JsValue)>, k: string)
    ensures LastValue(es, k).None? ==> forall i :: 0 <= i < |es| ==> es[i].0 != k
    ensures LastValue(es, k).Some? ==> IsLastEntry(es, k, LastValue(es, k).value)
  {
    if es != [] {
      var init := es[..|es| - 1];
      var n := |es| - 1;
      LastValueIsLastEntry(init, k);
      if es[n].0 == k {
        assert es[n] == (k, es[n].1);
        assert IsLastEntry(es, k, es[n].1);
      } else {
        var r := LastValue(init, k);
        if r.None? {
          forall i | 0 <= i < |es|
            ensures es[i].0 != k
          {
            if i < n {
              assert es[i] == init[i];
            }
          }
        } else {
          var i :| 0 <= i < |init| && init[i] == (k, r.value) && forall j :: i < j < |init| ==> init[j].0 != k;
          assert es[i] == init[i];
          forall j | i < j < |es|
            ensures es[j].0 != k
          {
            if j < n {
              assert es[j] == init[j];
            }
          }
          assert IsLastEntry(es, k, r.value);
        }
      }
    }
  }

  /** Reading a key of a built object gives the last value assigned to it. */
  lemma {:induction false} FromEntriesLastWins(es: seq<(string, JsValue)>, k: string)
    ensures Lookup(FromEntries(es), k) == LastValue(es, k)
  {
    if es != [] {
      FromEntriesLastWins(es[..|es| - 1], k);
    }
  }

  /** With distinct keys, building an object keeps every entry in order. */
  lemma {:induction false} FromEntriesUnique(es: seq<(string, JsValue)>)
    requires UniqueKeys(es)
    ensures FromEntries(es) == es
  {
    if es != [] {
      var init := es[..|es| - 1];
      FromEntriesUnique(init);
      var k := es[|es| - 1].0;
      KeysAt(init);
      forall i | 0 <= i < |init|
        ensures Keys(init)[i] != k
      {
        assert es[i].0 != es[|es| - 1].0;
      }
      assert k !in Keys(init);
      LookupFound(init, k);
      SetFieldKeys(init, k, es[|es| - 1].1);
      SetFieldAppends(init, k, es[|es| - 1].1);
      assert init + [es[|es| - 1]] == es;
    }
  }

  lemma {:induction false} SetFieldAppends(fs: seq<(string, JsValue)>, k: string, v: JsValue)
    requires k !in Keys(fs)
    ensures SetField(fs, k, v) == fs + [(k, v)]
  {
    if fs != [] {
      SetFieldAppends(fs[1..], k, v);
      assert [fs[0]] + (fs[1..] + [(k, v)]) == fs + [(k, v)];
    }
  }

  function DigitChar(d: nat): char
    requires d < 10
  {
    "0123456789"[d]
  }

  /** Decimal spelling of a natural number, as `String(n)` gives it. */
  function NatToString(n: nat): (s: string)
    ensures |s| > 0
    ensures forall i :: 0 <= i < |s| ==> '0' <= s[i] <= '9'
    decreases n
  {
    if n < 10 then [DigitChar(n)] else NatToString(n / 10) + [DigitChar(n % 10)]
  }

  function IntToString(i: int): string {
    if i < 0 then "-" + NatToString(-i) else NatToString(i)
  }

  /** `Object.entries(v)` for a non-null value: an object's own fields, an
      array's or string's elements under their index names, and nothing for
      a number or boolean. (`Object.entries(null)` throws; callers handle
      that case before calling.) */
  function Entries(v: JsValue): (es: seq<(string, JsValue)>)
    ensures v.JObj? ==> es == v.fields
    ensures v.JArr? ==> |es| == |v.items| && forall i :: 0 <= i < |es| ==> es[i] == (NatToString(i), v.items[i])
    ensures v.JStr? ==> |es| == |v.s| && forall i :: 0 <= i < |es| ==> es[i] == (NatToString(i), JStr([v.s[i]]))
    ensures v.JNull? || v.JBool? || v.JNum? ==> es == []
  {
    match v
    case JObj(fs) => fs
    case JArr(xs) => seq(|xs|, i requires 0 <= i < |xs| => (NatToString(i), xs[i]))
    case JStr(s) => seq(|s|, i requires 0 <= i < |s| => (NatToString(i), JStr([s[i]])))
    case _ => []
  }

  /** `xs.join(",")` over already converted element strings. */
  function JoinComma(parts: seq<string>): string {
    if parts == [] then ""
    else if |parts| == 1 then parts[0]
    else JoinComma(parts[..|parts| - 1]) + "," + parts[|parts| - 1]
  }

  /** `String(v)`, as a template literal or `Headers.set` converts a value.
      Array elements that are `null` become empty strings. */
  function JsToString(v: JsValue): string
    decreases v
  {
    match v
    case JNull => "null"
    case JBool(b) => if b then "true" else "false"
    case JNum(n) => IntToString(n)
    case JStr(s) => s
    case JArr(xs) =>
      JoinComma(seq(|xs|, i requires 0 <= i < |xs| => if xs[i].JNull? then "" else JsToString(xs[i])))
    case JObj(_) => "[object Object]"
  }

  function UpperChar(c: char): char {
    if 'a' <= c <= 'z' then (c as int - 'a' as int + 'A' as int) as char else c
  }

  function LowerChar(c: char): char {
    if 'A' <= c <= 'Z' then (c as int - 'A' as int + 'a' as int) as char else c
  }

  /** `s.toUpperCase()` on the ASCII letters. */
  function AsciiUpper(s: string): (r: string)
    ensures |r| == |s|
    ensures forall i :: 0 <= i < |s| ==> r[i] == UpperChar(s[i])
  {
    seq(|s|, i requires 0 <= i < |s| => UpperChar(s[i]))
  }

  /** `s.toLowerCase()` on the ASCII letters, as header names are normalised. */
  function AsciiLower(s: string): (r: string)
    ensures |r| == |s|
    ensures forall i :: 0 <= i < |s| ==> r[i] == LowerChar(s[i])
  {
    seq(|s|, i requires 0 <= i < |s| => LowerChar(s[i]))
  }
}
