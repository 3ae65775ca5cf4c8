/** The three built-in formats: their names and suffixes, what each `dump`
    hands its encoder, the TOML top-level adaptation, and the JSON `pretty`
    switch. The encoders and decoders themselves are not part of this model. */
module Formats {
  import opened Values
  import Base
  import BaseProperties
  import opened BaseIO

  /** `DEFAULT_FORMAT`. */
  const DefaultFormat: string := "json"

  datatype Kind = Json | Toml | Yaml

  /** The class attributes of each format; none defines `highlight`. */
  function ClassOf(k: Kind): FormatClass {
    match k
    case Json => FormatClass("json", [".json"], "JSON", None)
    case Toml => FormatClass("toml", [".toml"], "TOML", None)
    case Yaml => FormatClass("yaml", [".yaml", ".yml"], "YAML", None)
  }

  /** No two formats share a name or a suffix. */
  lemma NamesAndSuffixesDistinct(k1: Kind, k2: Kind)
    requires k1 != k2
    ensures ClassOf(k1).name != ClassOf(k2).name
    ensures forall s :: s in ClassOf(k1).suffixes ==> s !in ClassOf(k2).suffixes
  {
  }

  /** Importing the formats module defines the three classes in source order,
      each of which registers itself. */
  method RegisterFormats(reg: Registry)
    modifies reg
    ensures Lookup(reg.classes, "json") == Some(WithHighlight(ClassOf(Json)))
    ensures Lookup(reg.classes, "toml") == Some(WithHighlight(ClassOf(Toml)))
    ensures Lookup(reg.classes, "yaml") == Some(WithHighlight(ClassOf(Yaml)))
    ensures forall n :: n != "json" && n != "toml" && n != "yaml" ==> Lookup(reg.classes, n) == Lookup(old(reg.classes), n)
    ensures KeySet(reg.classes) == KeySet(old(reg.classes)) + {"json", "toml", "yaml"}
  {
    assert "json"[0] != "toml"[0] && "json"[0] != "yaml"[0] && "toml"[0] != "yaml"[0];
    var json := reg.Register(ClassOf(Json));
    ghost var afterJson := reg.classes;
    var toml := reg.Register(ClassOf(Toml));
    assert Lookup(reg.classes, "json") == Lookup(afterJson, "json");
    ghost var afterToml := reg.classes;
    var yaml := reg.Register(ClassOf(Yaml));
    assert Lookup(reg.classes, "json") == Lookup(afterToml, "json");
    assert Lookup(reg.classes, "toml") == Lookup(afterToml, "toml");
  }

  /** After registration the default format is JSON, highlighted as "json". */
  method DefaultFormatRegistered() returns (cls: Option<FormatClass>)
    ensures cls == Some(FormatClass("json", [".json"], "JSON", Some("json")))
  {
    var reg := new Registry();
    RegisterFormats(reg);
    cls := Lookup(reg.classes, DefaultFormat);
    assert WithHighlight(ClassOf(Json)) == FormatClass("json", [".json"], "JSON", Some("json"));
  }

  // ---------------------------------------------------------------------------
  // JSON options.

  /** A keyword argument value passed to `json.dump`. */
  datatype Keyword = IntArg(i: int) | BoolArg(b: bool)

  /** The keyword arguments `JSON.dump` passes. */
  function JsonKeywords(pretty: bool): map<string, Keyword> {
    if pretty then map["indent" := IntArg(4), "ensure_ascii" := BoolArg(false)] else map[]
  }

  /** The settings `json.dump` ends up with: the indentation (None for the
      compact single line) and whether non-ASCII text is escaped. */
  datatype JsonSettings = JsonSettings(indent: Option<int>, ensureAscii: bool)

  /** How `json.dump` reads its keywords; absent ones take its defaults. */
  function Effective(kw: map<string, Keyword>): JsonSettings {
    JsonSettings(
      if "indent" in kw && kw["indent"].IntArg? then Some(kw["indent"].i) else None,
      if "ensure_ascii" in kw && kw["ensure_ascii"].BoolArg? then kw["ensure_ascii"].b else true)
  }

  /** Pretty output is indented by four and keeps non-ASCII text; otherwise
      `json.dump` runs with its defaults. */
  lemma JsonPretty(pretty: bool)
    ensures Effective(JsonKeywords(pretty)) ==
              if pretty then JsonSettings(Some(4), false) else JsonSettings(None, true)
  {
    if pretty {
      var kw := JsonKeywords(true);
      assert "indent" in kw && kw["indent"] == IntArg(4);
      assert "ensure_ascii" in kw && kw["ensure_ascii"] == BoolArg(false);
    }
  }

  // ---------------------------------------------------------------------------
  // What `dump` encodes, and what TOML `load` returns.

  /** A mapping wrapped on dump is one table, anything else goes under the
      key "DEFAULT". */
  function TomlWrap(v: Value): (r: seq<(Value, Value)>)
    ensures v.Map? ==> r == v.entries
    ensures !v.Map? ==> |r| == 1 && Lookup(r, Str("DEFAULT")) == Some(v)
  {
    if v.Map? then v.entries else [(Str("DEFAULT"), v)]
  }

  /** A loaded table with the single key "DEFAULT" is replaced by that key's
      value; any other table is returned as a mapping. */
  function TomlUnwrap(table: seq<(Value, Value)>): (r: Value)
    ensures |table| == 1 && table[0].0 == Str("DEFAULT") ==> r == table[0].1
    ensures !(|table| == 1 && table[0].0 == Str("DEFAULT")) ==> r == Map(table)
  {
    if |table| == 1 && Lookup(table, Str("DEFAULT")).Some? then Lookup(table, Str("DEFAULT")).value
    else Map(table)
  }

  /** A mapping whose only key is "DEFAULT". */
  predicate LoneDefault(v: Value) {
    v.Map? && |v.entries| == 1 && v.entries[0].0 == Str("DEFAULT")
  }

  /** Unwrapping undoes wrapping for every value except a lone "DEFAULT" table. */
  lemma TomlRoundTrip(v: Value)
    requires !LoneDefault(v)
    ensures TomlUnwrap(TomlWrap(v)) == v
  {
  }

  /** A lone "DEFAULT" table comes back as its value, which is a different,
      smaller value. */
  lemma TomlLoneDefaultLost(v: Value)
    requires LoneDefault(v)
    ensures TomlUnwrap(TomlWrap(v)) == v.entries[0].1
    ensures TomlUnwrap(TomlWrap(v)) != v
  {
    var inner := v.entries[0].1;
    assert Size(inner) < Size(v) by {
      assert SizeEntries(v.entries) == Size(v.entries[0].0) + Size(inner) + SizeEntries(v.entries[1..]);
    }
  }

  /** What `dump(data)` hands the encoder: JSON and TOML the default
      normalisation (TOML as a table), YAML the raw data. */
  datatype Payload = Document(v: Value) | Table(entries: seq<(Value, Value)>)

  function DumpPayload(lib: Builtins, k: Kind, data: Value): Payload {
    match k
    case Json => Document(Base.DumbDown(lib, Base.DefaultFlags, data))
    case Toml => Table(TomlWrap(Base.DumbDown(lib, Base.DefaultFlags, data)))
    case Yaml => Document(data)
  }

  /** JSON and TOML payloads are plain: no dates, sets or objects reach those
      encoders. */
  lemma PayloadIsPlain(lib: Builtins, k: Kind, data: Value)
    requires k != Yaml
    ensures DumpPayload(lib, k, data).Document? ==> PlainTree(DumpPayload(lib, k, data).v)
    ensures DumpPayload(lib, k, data).Table? ==> PlainEntries(DumpPayload(lib, k, data).entries)
  {
    var d := Base.DumbDown(lib, Base.DefaultFlags, data);
    BaseProperties.DumbDownPlain(lib, Base.DefaultFlags, data);
    if k == Toml && !d.Map? {
      assert PlainEntry((Str("DEFAULT"), d));
    }
  }

  /** A TOML table loaded back as it was dumped gives the normalised data,
      unless that is a lone "DEFAULT" table. */
  lemma TomlPayloadRoundTrip(lib: Builtins, data: Value)
    requires !LoneDefault(Base.DumbDown(lib, Base.DefaultFlags, data))
    ensures DumpPayload(lib, Toml, data).Table?
    ensures TomlUnwrap(DumpPayload(lib, Toml, data).entries) == Base.DumbDown(lib, Base.DefaultFlags, data)
  {
    TomlRoundTrip(Base.DumbDown(lib, Base.DefaultFlags, data));
  }
}
