/** The flag-driven normaliser that the JSON and TOML codecs run before
    encoding: `dumb_down` with its string helpers `str2simpletype` and
    `str2datetime`. */
module Base {
  import opened Values
  import opened PyText
  import opened Candidates

  /** `_SPECIAL`: the spellings of None and of the booleans. */
  const Special: map<string, Value> := map[
    "null" := Null, "none" := Null, "nil" := Null,
    "true" := Bool(true), "false" := Bool(false),
    "on" := Bool(true), "off" := Bool(false),
    "yes" := Bool(true), "no" := Bool(false)]

  lemma SpecialValues()
    ensures forall t :: t in Special ==> Special[t].Null? || Special[t].Bool?
  {
  }

  /** `str2datetime` tries date first, then time, then datetime. */
  const DateFirstOrder: seq<Parser> := [DateParser, TimeParser, DateTimeParser]

  /** `str2datetime(data)`: the first date, time or datetime the stripped text
      parses as, else the original text. */
  function Str2DateTime(lib: Builtins, data: string): (r: Value)
    ensures r.IsTemporal() || r == Str(data)
  {
    DateParse(lib, DateFirstOrder, Strip(data));
    match FirstParse(lib, DateFirstOrder, Strip(data))
    case Some(t) => t
    case None => Str(data)
  }

  /** The result is temporal exactly when some parser accepts the stripped
      text, and then it is the value of the first parser, in the order date,
      time, datetime, that accepts it. */
  lemma Str2DateTimeSpec(lib: Builtins, data: string)
    ensures Str2DateTime(lib, data).IsTemporal() <==>
              exists k :: 0 <= k < |DateFirstOrder| && Attempt(lib, DateFirstOrder[k], Strip(data)).Some?
    ensures Str2DateTime(lib, data).IsTemporal() ==>
              exists k :: 0 <= k < |DateFirstOrder| && Attempt(lib, DateFirstOrder[k], Strip(data)) == Some(Str2DateTime(lib, data))
                          && forall j :: 0 <= j < k ==> Attempt(lib, DateFirstOrder[j], Strip(data)).None?
  {
    FirstParseSpec(lib, DateFirstOrder, Strip(data));
    DateParse(lib, DateFirstOrder, Strip(data));
  }

  /** `str2simpletype(data, date_types)`. A token of `_SPECIAL` wins, then an int
      or float whose `str` is the casefolded, stripped text, then (only when
      `date_types`) a date; otherwise the original text. */
  function Str2SimpleType(lib: Builtins, data: string, dateTypes: bool): (r: Value)
    ensures (r.Null? || r.Bool?) <==> Strip(CaseFold(data)) in Special
    ensures r.Null? || r.Bool? ==> r == Special[Strip(CaseFold(data))]
    ensures r.Int? ==> IntToString(r.i) == Strip(CaseFold(data))
    ensures r.Float? ==> r.f.repr == Strip(CaseFold(data))
    ensures r.IsTemporal() ==> dateTypes
    ensures r.Str? ==> r.s == data
    ensures r.Null? || r.Bool? || r.Int? || r.Float? || r.Str? || r.IsTemporal()
  {
    var s := Strip(CaseFold(data));
    if s in Special then SpecialValues(); Special[s]
    else NotSpecial(lib, data, s, dateTypes)
  }

  /** The part of `str2simpletype` after the `_SPECIAL` lookup has missed: a
      number whose `str` is `s`, else a date when asked, else the text. */
  function NotSpecial(lib: Builtins, data: string, s: string, dateTypes: bool): (r: Value)
    ensures r.Int? ==> IntToString(r.i) == s
    ensures r.Float? ==> r.f.repr == s
    ensures r.IsTemporal() ==> dateTypes
    ensures r.Str? ==> r.s == data
    ensures r.Int? || r.Float? || r.Str? || r.IsTemporal()
  {
    NumberParse(lib, s);
    if FirstParse(lib, NumberOrder, s).Some? then FirstParse(lib, NumberOrder, s).value
    else if dateTypes then Str2DateTime(lib, data)
    else Str(data)
  }

  datatype Flags = Flags(allowDate: bool, parseDate: bool, parseStr: bool, skipNone: bool)

  /** The flags `dumb_down(x)` runs with; mapping keys always get these. */
  const DefaultFlags: Flags := Flags(allowDate := false, parseDate := false, parseStr := false, skipNone := false)

  /** The filter of the mapping comprehension. */
  predicate Kept(f: Flags, e: (Value, Value)) {
    (!e.0.Null? && !e.1.Null?) || !f.skipNone
  }

  /** `dumb_down(data, allow_date, parse_date, parse_str, skip_none)`. */
  function DumbDown(lib: Builtins, f: Flags, v: Value): Value
    decreases Size(v), 0
  {
    if v.Null? then Null
    else if f.allowDate && v.IsTemporal() then v
    else if v.Str? && f.parseStr then Str2SimpleType(lib, v.s, f.parseDate)
    else if v.Str? && f.parseDate then Str2DateTime(lib, v.s)
    else if v.Bool? || v.Int? || v.Float? || v.Str? then v
    else if IsNumber(v) && NumberCast(v).Some? then NumberCast(v).value
    else if v.Map? then Map(DumbEntries(lib, f, v.entries))
    else if v.List? || v.Iter? then List(DumbItems(lib, f, v.items))
    else Str(StrOf(lib, v))
  }

  function DumbItems(lib: Builtins, f: Flags, xs: seq<Value>): (r: seq<Value>)
    ensures |r| == |xs|
    decreases SizeSeq(xs), 1
  {
    if xs == [] then [] else [DumbDown(lib, f, xs[0])] + DumbItems(lib, f, xs[1..])
  }

  /** The dict comprehension over `es`: each kept entry assigns its value,
      converted with the caller's flags, to its key, converted with the default
      flags. */
  function DumbEntries(lib: Builtins, f: Flags, es: seq<(Value, Value)>): seq<(Value, Value)>
    decreases SizeEntries(es), 1
  {
    if es == [] then []
    else
      SizeEntriesSnoc(es);
      var acc := DumbEntries(lib, f, es[..|es| - 1]);
      var e := es[|es| - 1];
      if Kept(f, e) then Put(acc, DumbDown(lib, DefaultFlags, e.0), DumbDown(lib, f, e.1))
      else acc
  }
}
