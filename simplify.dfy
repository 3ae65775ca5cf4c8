/** `RecursiveAdapter`: an options record whose call walks a value tree and
    rewrites it into the kinds a target format can hold. */
module Simplify {
  import opened Values
  import opened PyText
  import opened Candidates

  /** The types that may appear in `simple_types`. */
  datatype SimpleType = BoolType | IntType | FloatType | StrType | NoneType

  datatype Options = Options(
    allowDate: bool,
    parseDate: bool,
    parseStr: bool,
    specialTokens: map<string, Value>,
    skipNullValues: bool,
    skipNullKeys: bool,
    forceStringKeys: bool,
    parseSimpleLists: bool,       // declared by the adapter, never consulted by it
    joinSimpleLists: bool,
    separator: char,
    finalSeparator: bool,
    simpleTypes: seq<SimpleType>,
    maxLevel: Option<int>,
    maxLevelFormat: string)

  const DefaultSpecialTokens: map<string, Value> := map[
    "null" := Null, "none" := Null, "nil" := Null,
    "true" := Bool(true), "false" := Bool(false),
    "on" := Bool(true), "off" := Bool(false),
    "yes" := Bool(true), "no" := Bool(false)]

  const DefaultSimpleTypes: seq<SimpleType> := [BoolType, IntType, FloatType, StrType, NoneType]

  /** `RecursiveAdapter()` with every field at its default. */
  const Defaults: Options := Options(
    allowDate := false, parseDate := false, parseStr := false,
    specialTokens := DefaultSpecialTokens,
    skipNullValues := false, skipNullKeys := false, forceStringKeys := false,
    parseSimpleLists := false, joinSimpleLists := false,
    separator := ';', finalSeparator := false,
    simpleTypes := DefaultSimpleTypes,
    maxLevel := None, maxLevelFormat := "json")

  /** What the adapter reaches outside itself: the standard library, and the
      registry format named by `max_level_format` as `serialize` (`to_str`) and
      `deepParse` (`from_str`, None where it raises). */
  datatype Env = Env(
    lib: Builtins,
    serialize: (string, Value) -> string,
    deepParse: (string, string) -> Option<Value>)

  /** Options the model covers: in final-separator mode the separator is not
      whitespace (else no text is split and `data.strip()[-1]` fails on
      whitespace alone), and a string is either upconverted or a simple type
      (else it is iterated into one-character strings, which ends only at
      `max_level`). */
  predicate WellFormed(opts: Options) {
    (opts.finalSeparator ==> !IsSpace(opts.separator))
    && (opts.parseStr || StrType in opts.simpleTypes)
  }

  /** The deep parser never builds a tree larger than its text; this holds for
      JSON, the default `max_level_format`, and bounds the recursion. */
  ghost predicate Shrinking(env: Env) {
    forall f, s :: env.deepParse(f, s).Some? ==> Size(env.deepParse(f, s).value) <= |s|
  }

  /** `isinstance(v, t)`; a bool is an int in Python. */
  predicate IsInstance(v: Value, t: SimpleType) {
    match t
    case BoolType => v.Bool?
    case IntType => v.Bool? || v.Int?
    case FloatType => v.Float?
    case StrType => v.Str?
    case NoneType => v.Null?
  }

  /** `type(v) is t`. */
  predicate HasExactType(v: Value, t: SimpleType) {
    match t
    case BoolType => v.Bool?
    case IntType => v.Int?
    case FloatType => v.Float?
    case StrType => v.Str?
    case NoneType => v.Null?
  }

  /** `_get_simple_type`: the first of `types` that `v` is an instance of. */
  function SimpleTypeOf(v: Value, types: seq<SimpleType>): (r: Option<SimpleType>)
    ensures r.None? <==> forall k :: 0 <= k < |types| ==> !IsInstance(v, types[k])
    ensures r.Some? ==> exists k :: 0 <= k < |types| && types[k] == r.value
                                    && IsInstance(v, types[k])
                                    && forall j :: 0 <= j < k ==> !IsInstance(v, types[j])
  {
    if types == [] then None
    else if IsInstance(v, types[0]) then Some(types[0])
    else SimpleTypeOf(v, types[1..])
  }

  /** `t(v)` for an instance `v` of `t`: the value itself, except that `int`
      turns a bool into 0 or 1. */
  function Cast(t: SimpleType, v: Value): (r: Value)
    requires IsInstance(v, t)
    ensures HasExactType(r, t)
    ensures HasExactType(v, t) ==> r == v
    ensures v.Bool? && t == IntType ==> r == Int(if v.b then 1 else 0)
  {
    if t == IntType && v.Bool? then Int(if v.b then 1 else 0) else v
  }

  const IsoOrder: seq<Parser> := [TimeParser, DateParser, DateTimeParser]

  /** The stripped pieces of `data.split(sep)`, the last one dropped in
      final-separator mode. */
  function SplitItems(sep: char, final: bool, data: string): (r: seq<string>)
    ensures |r| == Count(data, sep) + (if final then 0 else 1)
    ensures forall k :: 0 <= k < |r| ==> r[k] == Strip(SplitOn(data, sep)[k])
    ensures forall k :: 0 <= k < |r| ==> |r[k]| <= |data| && sep !in r[k]
  {
    var pieces := SplitOn(data, sep);
    var stripped := seq(|pieces|, k requires 0 <= k < |pieces| => Strip(pieces[k]));
    assert forall k :: 0 <= k < |stripped| ==> sep !in stripped[k] by {
      forall k | 0 <= k < |stripped| ensures sep !in stripped[k] {
        StripSub(pieces[k], sep);
      }
    }
    if final then stripped[..|stripped| - 1] else stripped
  }

  /** Stripping removes characters only. */
  lemma StripSub(s: string, c: char)
    requires c !in s
    ensures c !in Strip(s)
  {
    var l := LStrip(s);
    assert forall k :: 0 <= k < |l| ==> l[k] == s[|s| - |l| + k];
  }

  /** The separator test of `_split_simple_list`: at least two separators
      before the last character. */
  predicate EnoughSeparators(sep: char, data: string) {
    Count(DropLast(data), sep) >= 2
  }

  lemma SeparatorSurvivesStrip(data: string, sep: char)
    requires EnoughSeparators(sep, data) && !IsSpace(sep)
    ensures Strip(data) != []
  {
    CountPositive(DropLast(data), sep);
    var k :| 0 <= k < |DropLast(data)| && DropLast(data)[k] == sep;
    assert data[k] == sep;
    StripNonEmpty(data, sep);
  }

  /** `_split_simple_list` applies: enough separators and, in final-separator
      mode, the stripped text ends with the separator. */
  predicate SplitAccepts(opts: Options, data: string)
    requires WellFormed(opts)
  {
    EnoughSeparators(opts.separator, data)
    && (opts.finalSeparator ==>
          (SeparatorSurvivesStrip(data, opts.separator);
           Strip(data)[|Strip(data)| - 1] == opts.separator))
  }

  /** `_is_simple_list`: every item is an instance of a configured simple type. */
  predicate IsSimpleList(opts: Options, xs: seq<Value>) {
    forall k :: 0 <= k < |xs| ==> SimpleTypeOf(xs[k], opts.simpleTypes).Some?
  }

  /** `_join_simple_list`. */
  function JoinSimpleList(opts: Options, lib: Builtins, xs: seq<Value>): string {
    JoinWith(seq(|xs|, k requires 0 <= k < |xs| => StrOf(lib, xs[k])), opts.separator)
    + (if opts.finalSeparator then [opts.separator] else [])
  }

  /** A null key, or a null value, that the options say to skip. */
  predicate Skipped(opts: Options, e: (Value, Value)) {
    (e.0.Null? && opts.skipNullKeys) || (e.1.Null? && opts.skipNullValues)
  }

  // ---------------------------------------------------------------------------
  // The call, one function per helper of the adapter. The measure is the size
  // of the value or text at hand; split items and deep-parse results are no
  // larger than the text they come from.

  /** `adapter(v, level)`. */
  function Convert(opts: Options, env: Env, v: Value, level: int): Value
    requires WellFormed(opts) && Shrinking(env)
    decreases Size(v), 2
  {
    if v.Null? then Null
    else if opts.allowDate && v.IsTemporal() then v
    else if v.Str? && SplitAccepts(opts, v.s) then List(SplitSimpleList(opts, env, v.s))
    else if v.Str? && opts.parseStr then ConvertString(opts, env, v.s, level)
    else if SimpleTypeOf(v, opts.simpleTypes).Some? then Cast(SimpleTypeOf(v, opts.simpleTypes).value, v)
    else if IsNumber(v) && NumberCast(v).Some? then NumberCast(v).value
    else if v.IsTemporal() then Str(IsoFormat(v))
    else if v.Map? then
      if opts.maxLevel == Some(level) then Str(env.serialize(opts.maxLevelFormat, v))
      else Map(ConvertEntries(opts, env, v.entries, level))
    else if v.List? || v.Iter? then
      var data := if opts.joinSimpleLists then List(v.items) else v;
      if opts.joinSimpleLists && IsSimpleList(opts, v.items) then Str(JoinSimpleList(opts, env.lib, v.items))
      else if opts.maxLevel == Some(level) then Str(env.serialize(opts.maxLevelFormat, data))
      else List(ConvertItems(opts, env, v.items, level))
    else Str(StrOf(env.lib, v))
  }

  /** `_convert_string(data, level)`. */
  function ConvertString(opts: Options, env: Env, data: string, level: int): Value
    requires WellFormed(opts) && Shrinking(env)
    decreases |data| + 1, 0
  {
    var s := Strip(CaseFold(data));
    if s in opts.specialTokens then opts.specialTokens[s]
    else if opts.parseDate && FirstParse(env.lib, IsoOrder, data).Some? then
      FirstParse(env.lib, IsoOrder, data).value
    else if FirstParse(env.lib, NumberOrder, s).Some? then FirstParse(env.lib, NumberOrder, s).value
    else if opts.maxLevel == Some(level) && env.deepParse(opts.maxLevelFormat, data).Some? then
      Convert(opts, env, env.deepParse(opts.maxLevelFormat, data).value, level + 1)
    else Str(data)
  }

  /** `_split_simple_list(data)` where it does not raise; the items are
      upconverted at level 0 when `parse_str`. */
  function SplitSimpleList(opts: Options, env: Env, data: string): seq<Value>
    requires WellFormed(opts) && Shrinking(env)
    decreases |data| + 1, 1
  {
    var items := SplitItems(opts.separator, opts.finalSeparator, data);
    if opts.parseStr then seq(|items|, k requires 0 <= k < |items| => ConvertString(opts, env, items[k], 0))
    else seq(|items|, k requires 0 <= k < |items| => Str(items[k]))
  }

  /** `[self(item, level + 1) for item in data]`. */
  function ConvertItems(opts: Options, env: Env, xs: seq<Value>, level: int): (r: seq<Value>)
    requires WellFormed(opts) && Shrinking(env)
    ensures |r| == |xs|
    decreases SizeSeq(xs), 3
  {
    if xs == [] then []
    else [Convert(opts, env, xs[0], level + 1)] + ConvertItems(opts, env, xs[1..], level)
  }

  /** A mapping key at `level + 1`: `str(key)` when keys are forced to text. */
  function ConvertKey(opts: Options, env: Env, k: Value, level: int): Value
    requires WellFormed(opts) && Shrinking(env)
    decreases Size(k), 3
  {
    if opts.forceStringKeys then Str(StrOf(env.lib, k)) else Convert(opts, env, k, level + 1)
  }

  /** The result dict after the loop over `es`, the items of a mapping at
      `level`: skipped entries leave it alone, every other entry assigns its
      converted value to its converted key. */
  function ConvertEntries(opts: Options, env: Env, es: seq<(Value, Value)>, level: int): seq<(Value, Value)>
    requires WellFormed(opts) && Shrinking(env)
    decreases SizeEntries(es), 4
  {
    if es == [] then []
    else
      SizeEntriesSnoc(es);
      var acc := ConvertEntries(opts, env, es[..|es| - 1], level);
      var e := es[|es| - 1];
      if Skipped(opts, e) then acc
      else Put(acc, ConvertKey(opts, env, e.0, level), Convert(opts, env, e.1, level + 1))
  }

  // ---------------------------------------------------------------------------
  // The two loops of the adapter, proved against the functions above.

  /** `_convert_string` with its candidate loops. */
  method ConvertStringLoop(opts: Options, env: Env, data: string, level: int) returns (r: Value)
    requires WellFormed(opts) && Shrinking(env)
    ensures r == ConvertString(opts, env, data, level)
  {
    var s := Strip(CaseFold(data));
    if s in opts.specialTokens {
      return opts.specialTokens[s];
    }
    if opts.parseDate {
      var d := FindFirst(env.lib, IsoOrder, data);
      if d.Some? {
        return d.value;
      }
    }
    var n := FindFirst(env.lib, NumberOrder, s);
    if n.Some? {
      return n.value;
    }
    if opts.maxLevel == Some(level) {
      var parsed := env.deepParse(opts.maxLevelFormat, data);
      if parsed.Some? {
        return Convert(opts, env, parsed.value, level + 1);
      }
    }
    return Str(data);
  }

  /** The mapping branch's loop, filling `result` entry by entry. */
  method ConvertMapping(opts: Options, env: Env, es: seq<(Value, Value)>, level: int)
    returns (result: seq<(Value, Value)>)
    requires WellFormed(opts) && Shrinking(env)
    ensures result == ConvertEntries(opts, env, es, level)
  {
    result := [];
    var i := 0;
    while i < |es|
      invariant 0 <= i <= |es|
      invariant result == ConvertEntries(opts, env, es[..i], level)
    {
      var (key, value) := es[i];
      assert es[..i + 1][..i] == es[..i];
      i := i + 1;
      if key.Null? && opts.skipNullKeys {
        continue;
      }
      if value.Null? && opts.skipNullValues {
        continue;
      }
      var k := ConvertKey(opts, env, key, level);
      var v := Convert(opts, env, value, level + 1);
      result := Put(result, k, v);
    }
    assert es[..|es|] == es;
  }
}
