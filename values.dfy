/** The value tree every codec produces and consumes, the library behaviour the
    normalisers depend on, and Python's dict assignment over an ordered list of
    pairs. */
module Values {

  datatype Option<+T> = None | Some(value: T)

  /** A Python float, known by its `repr` (which Python guarantees to round-trip)
      and by `int(f)` when `f == int(f)` holds (None for fractions, inf and nan). */
  datatype FloatVal = FloatVal(repr: string, integral: Option<int>)

  /** Any other `numbers.Number` (Fraction, Decimal, complex, ...): `exact` is
      `int(x)` when `x == int(x)` holds, `asFloat` is `float(x)` when that
      conversion succeeds, `text` is `str(x)`. */
  datatype NumVal = NumVal(exact: Option<int>, asFloat: Option<FloatVal>, text: string)

  /** A decoded value. `List` is a Python list, `Iter` any other non-mapping
      iterable (set, tuple, generator) in its iteration order, `Map` a mapping's
      items in order, `Other` an object of no other kind together with `str(x)`.
      Dates and times carry their ISO renderings. */
  datatype Value =
    | Null
    | Bool(b: bool)
    | Int(i: int)
    | Float(f: FloatVal)
    | Str(s: string)
    | Date(dateIso: string)
    | Time(timeIso: string)
    | DateTime(datePart: string, timePart: string)
    | List(items: seq<Value>)
    | Iter(items: seq<Value>)
    | Map(entries: seq<(Value, Value)>)
    | Num(num: NumVal)
    | Other(text: string)
  {
    predicate IsTemporal() {
      Date? || Time? || DateTime?
    }
  }

  /** The parts of Python's standard library the normalisers call, as oracles. */
  datatype Builtins = Builtins(
    parseFloat: string -> Option<FloatVal>,            // float(s); None on ValueError
    timeFromIso: string -> Option<string>,             // time.fromisoformat(s).isoformat()
    dateFromIso: string -> Option<string>,             // date.fromisoformat(s).isoformat()
    dateTimeFromIso: string -> Option<(string, string)>, // datetime.fromisoformat(s), as (date part, time part)
    containerStr: Value -> string)                     // str(x) of a list, tuple, set or dict

  /** An instance of `numbers.Number`. */
  predicate IsNumber(v: Value) {
    v.Bool? || v.Int? || v.Float? || v.Num?
  }

  /** `int(x)` when `x == int(x)` holds, else `float(x)` when that succeeds. */
  function NumberCast(v: Value): (r: Option<Value>)
    requires IsNumber(v)
    ensures r.Some? ==> r.value.Int? || r.value.Float?
    ensures r.None? <==> v.Num? && v.num.exact.None? && v.num.asFloat.None?
    ensures v.Bool? ==> r == Some(Int(if v.b then 1 else 0))
    ensures v.Int? ==> r == Some(v)
    ensures v.Float? && v.f.integral.Some? ==> r == Some(Int(v.f.integral.value))
    ensures v.Float? && v.f.integral.None? ==> r == Some(v)
    ensures v.Num? && v.num.exact.Some? ==> r == Some(Int(v.num.exact.value))
    ensures v.Num? && v.num.exact.None? && v.num.asFloat.Some? ==> r == Some(Float(v.num.asFloat.value))
  {
    match v
    case Bool(b) => Some(Int(if b then 1 else 0))
    case Int(i) => Some(Int(i))
    case Float(f) => if f.integral.Some? then Some(Int(f.integral.value)) else Some(Float(f))
    case Num(n) =>
      if n.exact.Some? then Some(Int(n.exact.value))
      else if n.asFloat.Some? then Some(Float(n.asFloat.value))
      else None
  }

  /** A tree of None, bool, int, float, str, list and dict only. */
  predicate PlainTree(v: Value)
    decreases v, 2
  {
    match v
    case Null => true
    case Bool(_) => true
    case Int(_) => true
    case Float(_) => true
    case Str(_) => true
    case List(xs) => PlainItems(xs)
    case Map(es) => PlainEntries(es)
    case _ => false
  }

  predicate PlainItems(xs: seq<Value>)
    decreases xs, 1
  {
    forall k :: 0 <= k < |xs| ==> PlainTree(xs[k])
  }

  predicate PlainEntries(es: seq<(Value, Value)>)
    decreases es, 1
  {
    forall k :: 0 <= k < |es| ==> PlainEntry(es[k])
  }

  predicate PlainEntry(e: (Value, Value))
    decreases e, 0
  {
    PlainTree(e.0) && PlainTree(e.1)
  }

  /** `x.isoformat()` of a date, time or datetime. */
  function IsoFormat(v: Value): (r: string)
    requires v.IsTemporal()
    ensures v.DateTime? ==> r == v.datePart + "T" + v.timePart
  {
    match v
    case Date(d) => d
    case Time(t) => t
    case DateTime(d, t) => d + "T" + t
  }

  /** Python's `str(x)`. */
  function StrOf(lib: Builtins, v: Value): string {
    match v
    case Null => "None"
    case Bool(b) => if b then "True" else "False"
    case Int(i) => IntToString(i)
    case Float(f) => f.repr
    case Str(s) => s
    case Date(d) => d
    case Time(t) => t
    case DateTime(d, t) => d + " " + t
    case Num(n) => n.text
    case Other(t) => t
    case _ => lib.containerStr(v)
  }

  /** `str(n)` of an int: an optional minus sign and decimal digits without
      leading zeros. */
  function IntToString(i: int): (r: string)
    ensures |r| > 0
  {
    if i < 0 then "-" + NatToString(-i) else NatToString(i)
  }

  function NatToString(n: nat): (r: string)
    ensures |r| > 0
    ensures forall k :: 0 <= k < |r| ==> '0' <= r[k] <= '9'
    ensures n >= 10 ==> r[0] != '0'
    decreases n
  {
    if n < 10 then [Digit(n)] else NatToString(n / 10) + [Digit(n % 10)]
  }

  function Digit(d: nat): (c: char)
    requires d < 10
    ensures '0' <= c <= '9' && c as int - '0' as int == d
  {
    ('0' as int + d) as char
  }

  /** A size measure: every node counts one, a string one per character more. */
  function Size(v: Value): (n: nat)
    ensures n >= 1
  {
    match v
    case Str(s) => |s| + 1
    case List(xs) => 1 + SizeSeq(xs)
    case Iter(xs) => 1 + SizeSeq(xs)
    case Map(es) => 1 + SizeEntries(es)
    case _ => 1
  }

  function SizeSeq(xs: seq<Value>): nat
  {
    if xs == [] then 0 else Size(xs[0]) + SizeSeq(xs[1..])
  }

  function SizeEntries(es: seq<(Value, Value)>): nat
    decreases es, 0
  {
    if es == [] then 0 else SizeEntry(es[0]) + SizeEntries(es[1..])
  }

  function SizeEntry(e: (Value, Value)): nat
    decreases e, 1
  {
    Size(e.0) + Size(e.1)
  }

  lemma {:induction false} SizeEntriesSnoc(es: seq<(Value, Value)>)
    requires es != []
    ensures SizeEntries(es) == SizeEntries(es[..|es| - 1]) + Size(es[|es| - 1].0) + Size(es[|es| - 1].1)
  {
    if |es| > 1 {
      SizeEntriesSnoc(es[1..]);
      assert es[1..][..|es[1..]| - 1] == es[..|es| - 1][1..];
    }
  }

  // ---------------------------------------------------------------------------
  // Python dict assignment `d[k] = v` over the dict's items in order.

  ghost predicate HasKey<K, V>(es: seq<(K, V)>, k: K) {
    exists i :: 0 <= i < |es| && es[i].0 == k
  }

  function KeySet<K, V>(es: seq<(K, V)>): set<K> {
    set i | 0 <= i < |es| :: es[i].0
  }

  /** Every key occurs once, as in a Python dict. */
  ghost predicate UniqueKeys<K, V>(es: seq<(K, V)>) {
    forall i, j :: 0 <= i < j < |es| ==> es[i].0 != es[j].0
  }

  /** `d.get(k)`: the value of the first pair whose key is `k`. */
  function Lookup<K(==), V>(es: seq<(K, V)>, k: K): (r: Option<V>)
    ensures r.Some? <==> HasKey(es, k)
  {
    if es == [] then None
    else if es[0].0 == k then Some(es[0].1)
    else Lookup(es[1..], k)
  }

  /** `d[k] = v`: an existing key keeps its position and gets the new value, a new
      key is appended. */
  function Put<K(==), V>(es: seq<(K, V)>, k: K, v: V): (r: seq<(K, V)>)
    ensures !HasKey(es, k) ==> r == es + [(k, v)]
    ensures HasKey(es, k) ==> |r| == |es|
    ensures forall i :: 0 <= i < |es| && es[i].0 != k ==> r[i] == es[i]
    ensures forall i :: 0 <= i < |es| && es[i].0 == k ==> r[i].0 == k
  {
    if es == [] then [(k, v)]
    else if es[0].0 == k then [(k, v)] + es[1..]
    else [es[0]] + Put(es[1..], k, v)
  }

  lemma {:induction false} PutLookup<K, V>(es: seq<(K, V)>, k: K, v: V, x: K)
    ensures Lookup(Put(es, k, v), x) == if x == k then Some(v) else Lookup(es, x)
  {
    if es != [] && es[0].0 != k {
      PutLookup(es[1..], k, v, x);
      assert Put(es, k, v)[1..] == Put(es[1..], k, v);
    }
  }

  lemma {:induction false} PutKeySet<K, V>(es: seq<(K, V)>, k: K, v: V)
    ensures KeySet(Put(es, k, v)) == KeySet(es) + {k}
  {
    var r := Put(es, k, v);
    if !HasKey(es, k) {
      assert r == es + [(k, v)];
      assert r[|es|].0 == k;
      forall x | x in KeySet(r) ensures x in KeySet(es) + {k} {
        var i :| 0 <= i < |r| && r[i].0 == x;
        if i < |es| { assert r[i] == es[i]; }
      }
    } else {
      var j :| 0 <= j < |es| && es[j].0 == k;
      assert r[j].0 == k;
      forall x | x in KeySet(r) ensures x in KeySet(es) + {k} {
        var i :| 0 <= i < |r| && r[i].0 == x;
        if es[i].0 != k { assert r[i] == es[i]; }
      }
      forall x | x in KeySet(es) ensures x in KeySet(r) {
        var i :| 0 <= i < |es| && es[i].0 == x;
        if x != k { assert r[i] == es[i]; } else { assert r[j].0 == x; }
      }
    }
  }

  lemma PutUnique<K, V>(es: seq<(K, V)>, k: K, v: V)
    requires UniqueKeys(es)
    ensures UniqueKeys(Put(es, k, v))
  {
    var r := Put(es, k, v);
    if !HasKey(es, k) {
      forall i, j | 0 <= i < j < |r| ensures r[i].0 != r[j].0 {
        if j == |es| { assert r[i] == es[i]; }
      }
    } else {
      assert forall i :: 0 <= i < |es| ==> r[i].0 == es[i].0;
    }
  }

  /** Putting a fresh key, entry by entry, rebuilds a list with distinct keys. */
  lemma {:induction false} PutRebuilds<K, V>(es: seq<(K, V)>)
    requires UniqueKeys(es) && es != []
    ensures Put(es[..|es| - 1], es[|es| - 1].0, es[|es| - 1].1) == es
  {
    var n := |es| - 1;
    assert !HasKey(es[..n], es[n].0) by {
      forall i | 0 <= i < n ensures es[..n][i].0 != es[n].0 {
        assert es[..n][i] == es[i];
      }
    }
    assert es[..n] + [(es[n].0, es[n].1)] == es;
  }

  /** Every pair after `d[k] = v` was there before or is the new one. */
  lemma {:induction false} PutEntries<K, V>(es: seq<(K, V)>, k: K, v: V)
    ensures forall e :: e in Put(es, k, v) ==> e in es || e == (k, v)
  {
    if es != [] && es[0].0 != k {
      PutEntries(es[1..], k, v);
    }
  }

  lemma LookupHit<K, V>(es: seq<(K, V)>, i: nat)
    requires UniqueKeys(es) && i < |es|
    ensures Lookup(es, es[i].0) == Some(es[i].1)
  {
    if i > 0 {
      LookupHit(es[1..], i - 1);
    }
  }
}
