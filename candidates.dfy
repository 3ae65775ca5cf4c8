/** The "try each type in turn, return the first that works" searches of the
    normalisers: `fromisoformat` over the date and time types, and `int`/`float`
    accepted only when `str(cand) == s`. */
module Candidates {
  import opened Values
  import opened PyText

  datatype Parser = TimeParser | DateParser | DateTimeParser | IntParser | FloatParser
  {
    predicate IsDate() {
      TimeParser? || DateParser? || DateTimeParser?
    }
  }

  /** `for t in [int, float]`, the order both normalisers try numbers in. */
  const NumberOrder: seq<Parser> := [IntParser, FloatParser]

  /** One `try: return type_(...)` attempt on `text`; None where Python raises
      ValueError or the `str(cand) == s` test fails. */
  function Attempt(lib: Builtins, p: Parser, text: string): (r: Option<Value>)
    ensures p == IntParser ==> (r.Some? <==> ParseInt(text).Some?)
    ensures p == IntParser && r.Some? ==> r.value == Int(ParseInt(text).value)
    ensures p == FloatParser && r.Some? ==> r.value.Float? && r.value.f.repr == text
    ensures p.IsDate() && r.Some? ==> r.value.IsTemporal()
  {
    match p
    case TimeParser => (match lib.timeFromIso(text) case Some(t) => Some(Time(t)) case None => None)
    case DateParser => (match lib.dateFromIso(text) case Some(d) => Some(Date(d)) case None => None)
    case DateTimeParser =>
      (match lib.dateTimeFromIso(text) case Some(dt) => Some(DateTime(dt.0, dt.1)) case None => None)
    case IntParser =>
      (match ParseInt(text)
       case Some(i) => Some(Int(i))
       case None => None)
    case FloatParser =>
      (match lib.parseFloat(text)
       case Some(f) => if f.repr == text then Some(Float(f)) else None
       case None => None)
  }

  /** The result of the first attempt in `ps` that succeeds. */
  function FirstParse(lib: Builtins, ps: seq<Parser>, text: string): Option<Value> {
    if ps == [] then None
    else
      var a := Attempt(lib, ps[0], text);
      if a.Some? then a else FirstParse(lib, ps[1..], text)
  }

  /** Nothing is found exactly when every attempt fails; otherwise the result is
      that of an attempt all of whose predecessors failed. */
  lemma {:induction false} FirstParseSpec(lib: Builtins, ps: seq<Parser>, text: string)
    ensures FirstParse(lib, ps, text).None? <==> forall k :: 0 <= k < |ps| ==> Attempt(lib, ps[k], text).None?
    ensures FirstParse(lib, ps, text).Some? ==>
              exists k :: 0 <= k < |ps| && Attempt(lib, ps[k], text) == FirstParse(lib, ps, text)
                          && forall j :: 0 <= j < k ==> Attempt(lib, ps[j], text).None?
  {
    if ps != [] {
      FirstParseSpec(lib, ps[1..], text);
      assert forall k :: 1 <= k < |ps| ==> ps[1..][k - 1] == ps[k];
      if Attempt(lib, ps[0], text).None? && FirstParse(lib, ps, text).Some? {
        var k :| 0 <= k < |ps[1..]| && Attempt(lib, ps[1..][k], text) == FirstParse(lib, ps[1..], text)
                 && forall j :: 0 <= j < k ==> Attempt(lib, ps[1..][j], text).None?;
        assert Attempt(lib, ps[k + 1], text) == FirstParse(lib, ps, text);
      }
    }
  }

  /** A search over date and time parsers only finds a date, time or datetime. */
  lemma {:induction false} DateParse(lib: Builtins, ps: seq<Parser>, text: string)
    requires forall k :: 0 <= k < |ps| ==> ps[k].IsDate()
    ensures FirstParse(lib, ps, text).Some? ==> FirstParse(lib, ps, text).value.IsTemporal()
  {
    if ps != [] {
      assert ps[0].IsDate();
      DateParse(lib, ps[1..], text);
    }
  }

  /** The number search finds an int whose `str` is the text or a float whose
      repr is the text. */
  lemma NumberParse(lib: Builtins, text: string)
    ensures FirstParse(lib, NumberOrder, text).Some? ==>
              var v := FirstParse(lib, NumberOrder, text).value;
              (v.Int? && IntToString(v.i) == text) || (v.Float? && v.f.repr == text)
  {
    NumberOrderUnfolds(lib, text);
    if ParseInt(text).Some? {
      ParseIntSound(text);
    }
  }

  /** The text `str(i)` is found as the int `i`. */
  lemma IntTextFound(lib: Builtins, i: int)
    ensures FirstParse(lib, NumberOrder, IntToString(i)) == Some(Int(i))
  {
    ParseIntOfString(i);
    NumberOrderUnfolds(lib, IntToString(i));
  }

  /** The number search is the int attempt, and failing that the float one. */
  lemma NumberOrderUnfolds(lib: Builtins, text: string)
    ensures FirstParse(lib, NumberOrder, text) ==
              if Attempt(lib, IntParser, text).Some? then Attempt(lib, IntParser, text)
              else Attempt(lib, FloatParser, text)
  {
    var floats: seq<Parser> := [FloatParser];
    assert NumberOrder[0] == IntParser && NumberOrder[1..] == floats;
    assert floats[0] == FloatParser && floats[1..] == [];
    assert FirstParse(lib, floats, text) == Attempt(lib, FloatParser, text);
  }

  /** The number search fails when `int` refuses the text and `float` refuses
      it or renders it differently. */
  lemma NumberParseFails(lib: Builtins, text: string)
    requires ParseInt(text).None?
    requires lib.parseFloat(text).None? || lib.parseFloat(text).value.repr != text
    ensures FirstParse(lib, NumberOrder, text).None?
  {
    NumberOrderUnfolds(lib, text);
  }

  /** The search loop with its early return. */
  method FindFirst(lib: Builtins, ps: seq<Parser>, text: string) returns (r: Option<Value>)
    ensures r == FirstParse(lib, ps, text)
  {
    var i := 0;
    while i < |ps|
      invariant 0 <= i <= |ps|
      invariant FirstParse(lib, ps, text) == FirstParse(lib, ps[i..], text)
    {
      var cand := Attempt(lib, ps[i], text);
      if cand.Some? {
        return cand;
      }
      assert ps[i..][1..] == ps[i + 1..];
      i := i + 1;
    }
    return None;
  }
}
