/** What the adapter guarantees: which kinds come out, when it leaves a tree
    alone, how split and join invert each other, and what the mapping branch
    keeps. */
module SimplifyProperties {
  import opened Values
  import opened PyText
  import opened Candidates
  import opened Simplify

  // ---------------------------------------------------------------------------
  // Output kinds.

  /** Options that neither keep nor produce dates, and whose tokens are plain. */
  predicate PlainPolicy(opts: Options) {
    !opts.allowDate && !opts.parseDate
    && forall t :: t in opts.specialTokens ==> PlainTree(opts.specialTokens[t])
  }

  lemma ConvertIsPlain(opts: Options, env: Env, v: Value, level: int)
    requires WellFormed(opts) && Shrinking(env) && PlainPolicy(opts)
    ensures PlainTree(Convert(opts, env, v, level))
    decreases Size(v), 2
  {
    if v.Null? {
    } else if v.Str? && SplitAccepts(opts, v.s) {
      SplitIsPlain(opts, env, v.s);
    } else if v.Str? && opts.parseStr {
      StringIsPlain(opts, env, v.s, level);
    } else if SimpleTypeOf(v, opts.simpleTypes).Some? {
    } else if IsNumber(v) && NumberCast(v).Some? {
    } else if v.IsTemporal() {
    } else if v.Map? {
      if opts.maxLevel != Some(level) {
        EntriesArePlain(opts, env, v.entries, level);
      }
    } else if v.List? || v.Iter? {
      if !(opts.joinSimpleLists && IsSimpleList(opts, v.items)) && opts.maxLevel != Some(level) {
        ItemsArePlain(opts, env, v.items, level);
      }
    }
  }

  lemma StringIsPlain(opts: Options, env: Env, data: string, level: int)
    requires WellFormed(opts) && Shrinking(env) && PlainPolicy(opts)
    ensures PlainTree(ConvertString(opts, env, data, level))
    decreases |data| + 1, 0
  {
    var s := Strip(CaseFold(data));
    NumberParse(env.lib, s);
    if s in opts.specialTokens {
    } else if FirstParse(env.lib, NumberOrder, s).Some? {
    } else if opts.maxLevel == Some(level) && env.deepParse(opts.maxLevelFormat, data).Some? {
      ConvertIsPlain(opts, env, env.deepParse(opts.maxLevelFormat, data).value, level + 1);
    }
  }

  lemma SplitIsPlain(opts: Options, env: Env, data: string)
    requires WellFormed(opts) && Shrinking(env) && PlainPolicy(opts)
    ensures PlainItems(SplitSimpleList(opts, env, data))
    decreases |data| + 1, 1
  {
    var items := SplitItems(opts.separator, opts.finalSeparator, data);
    if opts.parseStr {
      forall k | 0 <= k < |items|
        ensures PlainTree(ConvertString(opts, env, items[k], 0))
      {
        StringIsPlain(opts, env, items[k], 0);
      }
    }
  }

  lemma {:induction false} ItemsArePlain(opts: Options, env: Env, xs: seq<Value>, level: int)
    requires WellFormed(opts) && Shrinking(env) && PlainPolicy(opts)
    ensures PlainItems(ConvertItems(opts, env, xs, level))
    decreases SizeSeq(xs), 3
  {
    if xs != [] {
      ConvertIsPlain(opts, env, xs[0], level + 1);
      ItemsArePlain(opts, env, xs[1..], level);
    }
  }

  lemma {:induction false} EntriesArePlain(opts: Options, env: Env, es: seq<(Value, Value)>, level: int)
    requires WellFormed(opts) && Shrinking(env) && PlainPolicy(opts)
    ensures PlainEntries(ConvertEntries(opts, env, es, level))
    decreases SizeEntries(es), 4
  {
    if es != [] {
      SizeEntriesSnoc(es);
      var acc := ConvertEntries(opts, env, es[..|es| - 1], level);
      EntriesArePlain(opts, env, es[..|es| - 1], level);
      var e := es[|es| - 1];
      if !Skipped(opts, e) {
        var k := ConvertKey(opts, env, e.0, level);
        var v := Convert(opts, env, e.1, level + 1);
        if !opts.forceStringKeys {
          ConvertIsPlain(opts, env, e.0, level + 1);
        }
        ConvertIsPlain(opts, env, e.1, level + 1);
        PutEntries(acc, k, v);
        var r := Put(acc, k, v);
        forall i | 0 <= i < |r| ensures PlainEntry(r[i]) {
          assert r[i] in r;
        }
      }
    }
  }

  /** The default adapter's output holds no dates, sets, numbers of other types
      or arbitrary objects. */
  lemma DefaultOutputIsPlain(env: Env, v: Value, level: int)
    requires Shrinking(env)
    ensures PlainTree(Convert(Defaults, env, v, level))
  {
    ConvertIsPlain(Defaults, env, v, level);
  }

  /** None stays None under every option set; with `allow_date` a date, time or
      datetime is kept, without it it becomes its ISO text. */
  lemma NoneAndDates(opts: Options, env: Env, v: Value, level: int)
    requires WellFormed(opts) && Shrinking(env)
    ensures v.Null? ==> Convert(opts, env, v, level) == Null
    ensures v.IsTemporal() && opts.allowDate ==> Convert(opts, env, v, level) == v
    ensures v.IsTemporal() && !opts.allowDate ==> Convert(opts, env, v, level) == Str(IsoFormat(v))
  {
    if v.IsTemporal() {
      assert SimpleTypeOf(v, opts.simpleTypes).None?;
    }
  }

  // ---------------------------------------------------------------------------
  // Trees the default adapter leaves alone.

  /** A plain tree whose strings hold fewer than two separators before their last
      character and whose dicts have distinct keys. */
  ghost predicate Untouched(v: Value)
    decreases v, 2
  {
    match v
    case Null => true
    case Bool(_) => true
    case Int(_) => true
    case Float(_) => true
    case Str(s) => !EnoughSeparators(';', s)
    case List(xs) => UntouchedItems(xs)
    case Map(es) => UniqueKeys(es) && UntouchedEntries(es)
    case _ => false
  }

  ghost predicate UntouchedItems(xs: seq<Value>)
    decreases xs, 1
  {
    forall k :: 0 <= k < |xs| ==> Untouched(xs[k])
  }

  ghost predicate UntouchedEntries(es: seq<(Value, Value)>)
    decreases es, 1
  {
    forall k :: 0 <= k < |es| ==> UntouchedEntry(es[k])
  }

  ghost predicate UntouchedEntry(e: (Value, Value))
    decreases e, 0
  {
    Untouched(e.0) && Untouched(e.1)
  }

  lemma DefaultIdentity(env: Env, v: Value, level: int)
    requires Shrinking(env) && Untouched(v)
    ensures Convert(Defaults, env, v, level) == v
    decreases Size(v), 2
  {
    match v
    case List(xs) => DefaultIdentityItems(env, xs, level);
    case Map(es) => DefaultIdentityEntries(env, es, level);
    case _ => DefaultScalarType(v);
  }

  /** The first default simple type each plain scalar is an instance of. */
  lemma DefaultScalarType(v: Value)
    requires v.Null? || v.Bool? || v.Int? || v.Float? || v.Str?
    ensures SimpleTypeOf(v, DefaultSimpleTypes).Some?
    ensures HasExactType(v, SimpleTypeOf(v, DefaultSimpleTypes).value)
  {
    var ts := DefaultSimpleTypes;
    match v
    case Bool(_) => assert IsInstance(v, ts[0]);
    case Int(_) => assert IsInstance(v, ts[1]) && !IsInstance(v, ts[0]);
    case Float(_) => assert IsInstance(v, ts[2]);
    case Str(_) => assert IsInstance(v, ts[3]);
    case Null => assert IsInstance(v, ts[4]);
  }

  lemma {:induction false} DefaultIdentityItems(env: Env, xs: seq<Value>, level: int)
    requires Shrinking(env) && UntouchedItems(xs)
    ensures ConvertItems(Defaults, env, xs, level) == xs
    decreases SizeSeq(xs), 3
  {
    if xs != [] {
      DefaultIdentity(env, xs[0], level + 1);
      DefaultIdentityItems(env, xs[1..], level);
    }
  }

  lemma {:induction false} DefaultIdentityEntries(env: Env, es: seq<(Value, Value)>, level: int)
    requires Shrinking(env) && UniqueKeys(es) && UntouchedEntries(es)
    ensures ConvertEntries(Defaults, env, es, level) == es
    decreases SizeEntries(es), 4
  {
    if es != [] {
      SizeEntriesSnoc(es);
      var n := |es| - 1;
      var prefix := es[..n];
      assert forall k :: 0 <= k < n ==> prefix[k] == es[k];
      DefaultIdentityEntries(env, prefix, level);
      DefaultIdentity(env, es[n].0, level + 1);
      DefaultIdentity(env, es[n].1, level + 1);
      PutRebuilds(es);
    }
  }

  /** The default adapter is not idempotent: an object whose `str` holds two
      separators becomes text on the first pass and a list on the second. */
  lemma DefaultNotIdempotent(env: Env)
    requires Shrinking(env)
    ensures Convert(Defaults, env, Other("a;b;c"), 0) == Str("a;b;c")
    ensures Convert(Defaults, env, Str("a;b;c"), 0) != Str("a;b;c")
  {
    assert DropLast("a;b;c") == "a;b;";
    assert Count("a;b;", ';') == 2 by {
      assert "a;b;"[1..] == ";b;" && ";b;"[1..] == "b;" && "b;"[1..] == ";" && ";"[1..] == "";
    }
  }

  // ---------------------------------------------------------------------------
  // Split and join.

  /** The text `_join_simple_list` makes of string items. */
  function JoinedText(opts: Options, xs: seq<string>): string {
    JoinWith(xs, opts.separator) + (if opts.finalSeparator then [opts.separator] else [])
  }

  function StrItems(xs: seq<string>): (r: seq<Value>)
    ensures |r| == |xs| && forall k :: 0 <= k < |xs| ==> r[k] == Str(xs[k])
  {
    seq(|xs|, k requires 0 <= k < |xs| => Str(xs[k]))
  }

  lemma JoinOfStrings(opts: Options, lib: Builtins, xs: seq<string>)
    ensures JoinSimpleList(opts, lib, StrItems(xs)) == JoinedText(opts, xs)
  {
    var ys := StrItems(xs);
    assert seq(|ys|, k requires 0 <= k < |ys| => StrOf(lib, ys[k])) == xs;
  }

  predicate SeparatorFree(sep: char, xs: seq<string>) {
    forall k :: 0 <= k < |xs| ==> sep !in xs[k]
  }

  lemma DropLastCount(s: string, c: char)
    requires s != [] && s[|s| - 1] == c
    ensures Count(DropLast(s), c) == Count(s, c) - 1
  {
    CountDropLast(s, c);
  }

  /** How many separators the split test sees in a join of `n` pieces. */
  lemma JoinedSeparators(opts: Options, xs: seq<string>)
    requires xs != [] && SeparatorFree(opts.separator, xs)
    ensures opts.finalSeparator ==> Count(DropLast(JoinedText(opts, xs)), opts.separator) == |xs| - 1
    ensures !opts.finalSeparator && xs[|xs| - 1] != [] ==>
              Count(DropLast(JoinedText(opts, xs)), opts.separator) == |xs| - 1
    ensures !opts.finalSeparator ==> |xs| - 2 <= Count(DropLast(JoinedText(opts, xs)), opts.separator) <= |xs| - 1
  {
    var sep := opts.separator;
    var j := JoinWith(xs, sep);
    CountJoin(xs, sep);
    if opts.finalSeparator {
      assert DropLast(j + [sep]) == j;
    } else {
      assert JoinedText(opts, xs) == j;
      if j != [] {
        CountDropLast(j, sep);
        if xs[|xs| - 1] != [] {
          JoinEndsWithLast(xs, sep);
        }
      }
    }
  }

  lemma {:induction false} JoinEndsWithLast(xs: seq<string>, c: char)
    requires xs != [] && xs[|xs| - 1] != [] && c !in xs[|xs| - 1]
    ensures JoinWith(xs, c) != [] && JoinWith(xs, c)[|JoinWith(xs, c)| - 1] != c
  {
    if |xs| > 1 {
      JoinEndsWithLast(xs[1..], c);
    }
  }

  /** Joining at most two separator-free items gives a text the split rejects. */
  lemma FewItemsNotSplit(opts: Options, xs: seq<string>)
    requires WellFormed(opts) && SeparatorFree(opts.separator, xs) && |xs| <= 2
    ensures !SplitAccepts(opts, JoinedText(opts, xs))
  {
    if xs == [] {
      assert JoinedText(opts, xs) == (if opts.finalSeparator then [opts.separator] else []);
      assert DropLast(JoinedText(opts, xs)) == [];
    } else {
      JoinedSeparators(opts, xs);
    }
  }

  /** `split(join(xs)) == xs` for three or more stripped, separator-free text
      items, with `parse_str` off; outside final mode an empty last item needs a
      fourth item, since the trailing separator it leaves is not counted. */
  lemma SplitJoinRoundTrip(opts: Options, env: Env, xs: seq<string>, level: int)
    requires WellFormed(opts) && Shrinking(env) && !opts.parseStr
    requires |xs| >= 3 && SeparatorFree(opts.separator, xs)
    requires forall k :: 0 <= k < |xs| ==> Strip(xs[k]) == xs[k]
    requires opts.finalSeparator || xs[|xs| - 1] != [] || |xs| >= 4
    ensures Convert(opts, env, Str(JoinSimpleList(opts, env.lib, StrItems(xs))), level) == List(StrItems(xs))
  {
    JoinOfStrings(opts, env.lib, xs);
    var data := JoinedText(opts, xs);
    JoinAccepted(opts, xs);
    SplitOfJoin(opts, xs);
    assert SplitSimpleList(opts, env, data) == StrItems(xs);
    SplitConverted(opts, env, data, level);
  }

  /** A text the split accepts becomes the list of its items. */
  lemma SplitConverted(opts: Options, env: Env, data: string, level: int)
    requires WellFormed(opts) && Shrinking(env) && SplitAccepts(opts, data)
    ensures Convert(opts, env, Str(data), level) == List(SplitSimpleList(opts, env, data))
  {
  }

  lemma JoinAccepted(opts: Options, xs: seq<string>)
    requires WellFormed(opts) && |xs| >= 3 && SeparatorFree(opts.separator, xs)
    requires opts.finalSeparator || xs[|xs| - 1] != [] || |xs| >= 4
    ensures SplitAccepts(opts, JoinedText(opts, xs))
  {
    var data := JoinedText(opts, xs);
    JoinedSeparators(opts, xs);
    if opts.finalSeparator {
      StripKeepsLast(data);
    }
  }

  lemma SplitOfJoin(opts: Options, xs: seq<string>)
    requires xs != [] && SeparatorFree(opts.separator, xs)
    requires forall k :: 0 <= k < |xs| ==> Strip(xs[k]) == xs[k]
    ensures SplitItems(opts.separator, opts.finalSeparator, JoinedText(opts, xs)) == xs
  {
    if opts.finalSeparator {
      StrippedSplitFinal(xs, opts.separator);
    } else {
      assert JoinedText(opts, xs) == JoinWith(xs, opts.separator);
      StrippedSplit(xs, opts.separator);
    }
  }

  lemma StrippedSplitFinal(xs: seq<string>, sep: char)
    requires xs != [] && SeparatorFree(sep, xs)
    requires forall k :: 0 <= k < |xs| ==> Strip(xs[k]) == xs[k]
    ensures SplitItems(sep, true, JoinWith(xs, sep) + [sep]) == xs
  {
    var ys := xs + [""];
    JoinSnoc(xs, "", sep);
    assert JoinWith(xs, sep) + [sep] == JoinWith(ys, sep);
    EmptyItemAppended(xs, sep);
    StrippedSplit(ys, sep);
    assert ys[..|xs|] == xs;
  }

  /** An empty last item keeps the items stripped and separator-free. */
  lemma EmptyItemAppended(xs: seq<string>, sep: char)
    requires SeparatorFree(sep, xs)
    requires forall k :: 0 <= k < |xs| ==> Strip(xs[k]) == xs[k]
    ensures SeparatorFree(sep, xs + [""])
    ensures forall k :: 0 <= k < |xs + [""]| ==> Strip((xs + [""])[k]) == (xs + [""])[k]
  {
    var ys := xs + [""];
    forall k | 0 <= k < |ys|
      ensures sep !in ys[k] && Strip(ys[k]) == ys[k]
    {
      if k < |xs| {
        assert ys[k] == xs[k];
      } else {
        assert ys[k] == [];
      }
    }
  }

  /** The stripped pieces of a join of stripped, separator-free items. */
  lemma StrippedSplit(ys: seq<string>, sep: char)
    requires ys != [] && SeparatorFree(sep, ys)
    requires forall k :: 0 <= k < |ys| ==> Strip(ys[k]) == ys[k]
    ensures SplitItems(sep, false, JoinWith(ys, sep)) == ys
    ensures SplitItems(sep, true, JoinWith(ys, sep)) == ys[..|ys| - 1]
  {
    SplitJoin(ys, sep);
  }

  // ---------------------------------------------------------------------------
  // The mapping branch.

  /** The value the last surviving entry with converted key `key` assigns. */
  function LastAssigned(opts: Options, env: Env, es: seq<(Value, Value)>, level: int, key: Value): Option<Value>
    requires WellFormed(opts) && Shrinking(env)
  {
    if es == [] then None
    else
      var e := es[|es| - 1];
      if !Skipped(opts, e) && ConvertKey(opts, env, e.0, level) == key then
        Some(Convert(opts, env, e.1, level + 1))
      else LastAssigned(opts, env, es[..|es| - 1], level, key)
  }

  /** A later entry with the same converted key overwrites an earlier one, and
      values are converted at `level + 1`. */
  lemma {:induction false} EntriesLookup(opts: Options, env: Env, es: seq<(Value, Value)>, level: int, key: Value)
    requires WellFormed(opts) && Shrinking(env)
    ensures Lookup(ConvertEntries(opts, env, es, level), key) == LastAssigned(opts, env, es, level, key)
  {
    if es != [] {
      var prefix := es[..|es| - 1];
      EntriesLookup(opts, env, prefix, level, key);
      var e := es[|es| - 1];
      if !Skipped(opts, e) {
        PutLookup(ConvertEntries(opts, env, prefix, level), ConvertKey(opts, env, e.0, level),
                  Convert(opts, env, e.1, level + 1), key);
      }
    }
  }

  /** The result is a dict: no key twice. */
  lemma {:induction false} EntriesUnique(opts: Options, env: Env, es: seq<(Value, Value)>, level: int)
    requires WellFormed(opts) && Shrinking(env)
    ensures UniqueKeys(ConvertEntries(opts, env, es, level))
  {
    if es != [] {
      var prefix := es[..|es| - 1];
      EntriesUnique(opts, env, prefix, level);
      var e := es[|es| - 1];
      if !Skipped(opts, e) {
        PutUnique(ConvertEntries(opts, env, prefix, level), ConvertKey(opts, env, e.0, level),
                  Convert(opts, env, e.1, level + 1));
      }
    }
  }

  /** The keys of the result: the converted keys of exactly the entries that are
      not skipped for a null key or a null value. */
  function SurvivingKeys(opts: Options, env: Env, es: seq<(Value, Value)>, level: int): set<Value>
    requires WellFormed(opts) && Shrinking(env)
  {
    set i | 0 <= i < |es| && !Skipped(opts, es[i]) :: ConvertKey(opts, env, es[i].0, level)
  }

  lemma SurvivingKeysSnoc(opts: Options, env: Env, es: seq<(Value, Value)>, level: int)
    requires WellFormed(opts) && Shrinking(env) && es != []
    ensures SurvivingKeys(opts, env, es, level)
            == SurvivingKeys(opts, env, es[..|es| - 1], level)
               + (if Skipped(opts, es[|es| - 1]) then {} else {ConvertKey(opts, env, es[|es| - 1].0, level)})
  {
    var n := |es| - 1;
    var prefix := es[..n];
    var all := SurvivingKeys(opts, env, es, level);
    var before := SurvivingKeys(opts, env, prefix, level);
    var last := if Skipped(opts, es[n]) then {} else {ConvertKey(opts, env, es[n].0, level)};
    forall x | x in all ensures x in before + last {
      var i :| 0 <= i < |es| && !Skipped(opts, es[i]) && ConvertKey(opts, env, es[i].0, level) == x;
      if i < n {
        assert prefix[i] == es[i];
      }
    }
    forall x | x in before + last ensures x in all {
      if x in before {
        var i :| 0 <= i < n && !Skipped(opts, prefix[i]) && ConvertKey(opts, env, prefix[i].0, level) == x;
        assert prefix[i] == es[i];
      }
    }
  }

  lemma {:induction false} EntriesKeySet(opts: Options, env: Env, es: seq<(Value, Value)>, level: int)
    requires WellFormed(opts) && Shrinking(env)
    ensures KeySet(ConvertEntries(opts, env, es, level)) == SurvivingKeys(opts, env, es, level)
  {
    if es != [] {
      var prefix := es[..|es| - 1];
      var e := es[|es| - 1];
      EntriesKeySet(opts, env, prefix, level);
      SurvivingKeysSnoc(opts, env, es, level);
      if !Skipped(opts, e) {
        PutKeySet(ConvertEntries(opts, env, prefix, level), ConvertKey(opts, env, e.0, level),
                  Convert(opts, env, e.1, level + 1));
      }
    }
  }

  /** With `force_string_keys` every key of the result is text. */
  lemma {:induction false} EntriesTextKeys(opts: Options, env: Env, es: seq<(Value, Value)>, level: int)
    requires WellFormed(opts) && Shrinking(env) && opts.forceStringKeys
    ensures forall i :: 0 <= i < |ConvertEntries(opts, env, es, level)| ==>
              ConvertEntries(opts, env, es, level)[i].0.Str?
  {
    if es != [] {
      var prefix := es[..|es| - 1];
      EntriesTextKeys(opts, env, prefix, level);
      var e := es[|es| - 1];
      if !Skipped(opts, e) {
        var acc := ConvertEntries(opts, env, prefix, level);
        var k := ConvertKey(opts, env, e.0, level);
        var v := Convert(opts, env, e.1, level + 1);
        PutEntries(acc, k, v);
        var r := Put(acc, k, v);
        forall i | 0 <= i < |r| ensures r[i].0.Str? {
          assert r[i] in r;
        }
      }
    }
  }

  /** A skipped entry changes nothing; any other entry leaves its converted value
      under its converted key. */
  lemma EntryStep(opts: Options, env: Env, es: seq<(Value, Value)>, e: (Value, Value), level: int)
    requires WellFormed(opts) && Shrinking(env)
    ensures Skipped(opts, e) ==>
              ConvertEntries(opts, env, es + [e], level) == ConvertEntries(opts, env, es, level)
    ensures !Skipped(opts, e) ==>
              Lookup(ConvertEntries(opts, env, es + [e], level), ConvertKey(opts, env, e.0, level))
              == Some(Convert(opts, env, e.1, level + 1))
  {
    assert (es + [e])[..|es|] == es;
    if !Skipped(opts, e) {
      PutLookup(ConvertEntries(opts, env, es, level), ConvertKey(opts, env, e.0, level),
                Convert(opts, env, e.1, level + 1), ConvertKey(opts, env, e.0, level));
    }
  }

  // ---------------------------------------------------------------------------
  // Sequences, the depth cut-off, and strings.

  /** Joining comes first, even at `max_level`; otherwise at `max_level` a
      mapping or a sequence is replaced by its serialisation, and below it a
      sequence becomes a list of its converted items. */
  lemma Containers(opts: Options, env: Env, v: Value, level: int)
    requires WellFormed(opts) && Shrinking(env) && (v.List? || v.Iter? || v.Map?)
    ensures !v.Map? && opts.joinSimpleLists && IsSimpleList(opts, v.items) ==>
              Convert(opts, env, v, level) == Str(JoinSimpleList(opts, env.lib, v.items))
    ensures v.Map? && opts.maxLevel == Some(level) ==>
              Convert(opts, env, v, level) == Str(env.serialize(opts.maxLevelFormat, v))
    ensures !v.Map? && !(opts.joinSimpleLists && IsSimpleList(opts, v.items)) && opts.maxLevel == Some(level) ==>
              Convert(opts, env, v, level)
              == Str(env.serialize(opts.maxLevelFormat, if opts.joinSimpleLists then List(v.items) else v))
    ensures !v.Map? && !(opts.joinSimpleLists && IsSimpleList(opts, v.items)) && opts.maxLevel != Some(level) ==>
              Convert(opts, env, v, level) == List(ConvertItems(opts, env, v.items, level))
  {
    assert SimpleTypeOf(v, opts.simpleTypes).None?;
  }

  // ---------------------------------------------------------------------------
  // `parse_simple_lists` is declared but never consulted: every text is offered
  // to the split, under either setting.

  lemma FlagIgnored(opts: Options, env: Env, v: Value, level: int, b: bool)
    requires WellFormed(opts) && Shrinking(env)
    ensures Convert(opts.(parseSimpleLists := b), env, v, level) == Convert(opts, env, v, level)
    decreases Size(v), 2
  {
    var o := opts.(parseSimpleLists := b);
    assert o.allowDate == opts.allowDate && o.parseStr == opts.parseStr && o.simpleTypes == opts.simpleTypes;
    assert o.maxLevel == opts.maxLevel && o.maxLevelFormat == opts.maxLevelFormat;
    assert o.joinSimpleLists == opts.joinSimpleLists && o.separator == opts.separator;
    if v.Null? {
    } else if opts.allowDate && v.IsTemporal() {
    } else if v.Str? && SplitAccepts(opts, v.s) {
      assert SplitAccepts(o, v.s);
      SplitFlagIgnored(opts, env, v.s, b);
    } else if v.Str? && opts.parseStr {
      StringFlagIgnored(opts, env, v.s, level, b);
    } else if SimpleTypeOf(v, opts.simpleTypes).Some? {
    } else if IsNumber(v) && NumberCast(v).Some? {
    } else if v.IsTemporal() {
    } else if v.Map? {
      if opts.maxLevel != Some(level) {
        EntriesFlagIgnored(opts, env, v.entries, level, b);
      }
    } else if v.List? || v.Iter? {
      if !(opts.joinSimpleLists && IsSimpleList(opts, v.items)) && opts.maxLevel != Some(level) {
        ItemsFlagIgnored(opts, env, v.items, level, b);
      }
    }
  }

  lemma StringFlagIgnored(opts: Options, env: Env, data: string, level: int, b: bool)
    requires WellFormed(opts) && Shrinking(env)
    ensures ConvertString(opts.(parseSimpleLists := b), env, data, level) == ConvertString(opts, env, data, level)
    decreases |data| + 1, 0
  {
    var o := opts.(parseSimpleLists := b);
    assert o.specialTokens == opts.specialTokens && o.parseDate == opts.parseDate;
    assert o.maxLevel == opts.maxLevel && o.maxLevelFormat == opts.maxLevelFormat;
    var s := Strip(CaseFold(data));
    if s in opts.specialTokens {
    } else if opts.parseDate && FirstParse(env.lib, IsoOrder, data).Some? {
    } else if FirstParse(env.lib, NumberOrder, s).Some? {
    } else if opts.maxLevel == Some(level) && env.deepParse(opts.maxLevelFormat, data).Some? {
      FlagIgnored(opts, env, env.deepParse(opts.maxLevelFormat, data).value, level + 1, b);
    }
  }

  lemma SplitFlagIgnored(opts: Options, env: Env, data: string, b: bool)
    requires WellFormed(opts) && Shrinking(env)
    ensures SplitSimpleList(opts.(parseSimpleLists := b), env, data) == SplitSimpleList(opts, env, data)
    decreases |data| + 1, 1
  {
    var items := SplitItems(opts.separator, opts.finalSeparator, data);
    if opts.parseStr {
      forall k | 0 <= k < |items|
        ensures ConvertString(opts.(parseSimpleLists := b), env, items[k], 0) == ConvertString(opts, env, items[k], 0)
      {
        StringFlagIgnored(opts, env, items[k], 0, b);
      }
    }
  }

  lemma {:induction false} ItemsFlagIgnored(opts: Options, env: Env, xs: seq<Value>, level: int, b: bool)
    requires WellFormed(opts) && Shrinking(env)
    ensures ConvertItems(opts.(parseSimpleLists := b), env, xs, level) == ConvertItems(opts, env, xs, level)
    decreases SizeSeq(xs), 3
  {
    if xs != [] {
      FlagIgnored(opts, env, xs[0], level + 1, b);
      ItemsFlagIgnored(opts, env, xs[1..], level, b);
    }
  }

  lemma {:induction false} EntriesFlagIgnored(opts: Options, env: Env, es: seq<(Value, Value)>, level: int, b: bool)
    requires WellFormed(opts) && Shrinking(env)
    ensures ConvertEntries(opts.(parseSimpleLists := b), env, es, level) == ConvertEntries(opts, env, es, level)
    decreases SizeEntries(es), 4
  {
    if es != [] {
      SizeEntriesSnoc(es);
      EntriesFlagIgnored(opts, env, es[..|es| - 1], level, b);
      var e := es[|es| - 1];
      if !opts.forceStringKeys {
        FlagIgnored(opts, env, e.0, level + 1, b);
      }
      FlagIgnored(opts, env, e.1, level + 1, b);
    }
  }

  /** With `parse_str`, a text whose casefolded, stripped form is a token and that
      the split rejects becomes the token's value. */
  lemma TokenWins(opts: Options, env: Env, data: string, level: int)
    requires WellFormed(opts) && Shrinking(env) && opts.parseStr && !SplitAccepts(opts, data)
    requires Strip(CaseFold(data)) in opts.specialTokens
    ensures Convert(opts, env, Str(data), level) == opts.specialTokens[Strip(CaseFold(data))]
  {
  }

  /** The adapter tries dates before numbers (the normaliser of the base module
      does the opposite): with `parse_date`, a text that is no token and parses
      as a time, date or datetime becomes that value, whatever number it also
      spells. */
  lemma DatesBeforeNumbers(opts: Options, env: Env, data: string, level: int)
    requires WellFormed(opts) && Shrinking(env) && opts.parseDate
    requires Strip(CaseFold(data)) !in opts.specialTokens
    requires FirstParse(env.lib, IsoOrder, data).Some?
    ensures ConvertString(opts, env, data, level) == FirstParse(env.lib, IsoOrder, data).value
    ensures ConvertString(opts, env, data, level).IsTemporal()
  {
    DateParse(env.lib, IsoOrder, data);
  }

  /** A text whose casefolded, stripped form is `str(i)` becomes the int `i`
      when it is no token and no date. */
  lemma CanonicalIntAccepted(opts: Options, env: Env, data: string, level: int, i: int)
    requires WellFormed(opts) && Shrinking(env)
    requires Strip(CaseFold(data)) == IntToString(i) && Strip(CaseFold(data)) !in opts.specialTokens
    requires !opts.parseDate || FirstParse(env.lib, IsoOrder, data).None?
    ensures ConvertString(opts, env, data, level) == Int(i)
  {
    IntTextFound(env.lib, i);
    NumberWins(opts, env, data, level);
  }

  /** A text that is no token and no date (when dates are parsed) becomes the
      number the number search finds. */
  lemma NumberWins(opts: Options, env: Env, data: string, level: int)
    requires WellFormed(opts) && Shrinking(env)
    requires Strip(CaseFold(data)) !in opts.specialTokens
    requires !opts.parseDate || FirstParse(env.lib, IsoOrder, data).None?
    requires FirstParse(env.lib, NumberOrder, Strip(CaseFold(data))).Some?
    ensures ConvertString(opts, env, data, level) == FirstParse(env.lib, NumberOrder, Strip(CaseFold(data))).value
  {
  }

  /** An int result of the number step is `int(s)` with `str(int(s)) == s`. */
  lemma IntResultIsCanonical(opts: Options, env: Env, data: string, level: int)
    requires WellFormed(opts) && Shrinking(env)
    requires Strip(CaseFold(data)) !in opts.specialTokens
    requires !opts.parseDate || FirstParse(env.lib, IsoOrder, data).None?
    requires FirstParse(env.lib, NumberOrder, Strip(CaseFold(data))).Some?
    ensures ConvertString(opts, env, data, level).Int? ==>
              IntToString(ConvertString(opts, env, data, level).i) == Strip(CaseFold(data))
    ensures ConvertString(opts, env, data, level).Float? ==>
              ConvertString(opts, env, data, level).f.repr == Strip(CaseFold(data))
  {
    NumberParse(env.lib, Strip(CaseFold(data)));
  }

  /** Zero-padded digits are no int, and the text is kept as written: "007"
      stays "007". */
  lemma PaddedStaysText(opts: Options, env: Env, data: string, level: int)
    requires WellFormed(opts) && Shrinking(env) && opts.maxLevel.None?
    requires |data| >= 2 && data[0] == '0' && forall c :: c in data ==> IsDigit(c)
    requires data !in opts.specialTokens
    requires !opts.parseDate || FirstParse(env.lib, IsoOrder, data).None?
    requires env.lib.parseFloat(data).None? || env.lib.parseFloat(data).value.repr != data
    ensures ConvertString(opts, env, data, level) == Str(data)
  {
    PaddedFacts(opts.specialTokens, env.lib, data);
    NothingParsed(opts, env, data, level);
  }

  /** What `_convert_string` looks at in a zero-padded text: its casefolded,
      stripped form is no token and no number. */
  lemma PaddedFacts(tokens: map<string, Value>, lib: Builtins, data: string)
    requires |data| >= 2 && data[0] == '0' && forall c :: c in data ==> IsDigit(c)
    requires data !in tokens
    requires lib.parseFloat(data).None? || lib.parseFloat(data).value.repr != data
    ensures Strip(CaseFold(data)) !in tokens
    ensures FirstParse(lib, NumberOrder, Strip(CaseFold(data))).None?
  {
    DigitsUnchanged(data);
    PaddedNoNumber(lib, data);
  }

  /** The number search refuses a text with a leading zero unless `float`
      renders it as written. */
  lemma PaddedNoNumber(lib: Builtins, data: string)
    requires |data| >= 2 && data[0] == '0'
    requires lib.parseFloat(data).None? || lib.parseFloat(data).value.repr != data
    ensures FirstParse(lib, NumberOrder, data).None?
  {
    LeadingZero(data);
    NumberParseFails(lib, data);
  }

  /** Digits are their own casefolded, stripped form. */
  lemma DigitsUnchanged(s: string)
    requires s != [] && forall c :: c in s ==> IsDigit(c)
    ensures CaseFold(s) == s && LStrip(s) == s && RStrip(s) == s
    ensures Strip(CaseFold(s)) == s
  {
    assert forall k :: 0 <= k < |s| ==> s[k] in s;
    CaseFoldNoUpper(s);
    WordCharNotSpace(s[0]);
    WordCharNotSpace(s[|s| - 1]);
    StripNoop(s);
  }

  /** Digits with a leading zero are no `str` of an int. */
  lemma LeadingZero(s: string)
    requires |s| >= 2 && s[0] == '0'
    ensures ParseInt(s).None?
  {
  }

  lemma NoLeadingDigit(s: string)
    requires s != [] && !IsDigit(s[0]) && s[0] != '-'
    ensures ParseInt(s).None?
  {
  }

  /** A lower-case word that nothing parses keeps its trailing space: "bla "
      stays "bla ". */
  lemma UnparsedTextKept(opts: Options, env: Env, w: string, level: int)
    requires WellFormed(opts) && Shrinking(env) && opts.maxLevel.None?
    requires w != [] && forall k :: 0 <= k < |w| ==> 'a' <= w[k] <= 'z'
    requires w !in opts.specialTokens
    requires !opts.parseDate || FirstParse(env.lib, IsoOrder, w + " ").None?
    requires env.lib.parseFloat(w).None?
    ensures ConvertString(opts, env, w + " ", level) == Str(w + " ")
  {
    WordNoNumber(env.lib, w);
    NothingParsed(opts, env, w + " ", level);
  }

  /** A lower-case word with a trailing space casefolds and strips to the word,
      which the number search refuses when `float` does. */
  lemma WordNoNumber(lib: Builtins, w: string)
    requires w != [] && forall k :: 0 <= k < |w| ==> 'a' <= w[k] <= 'z'
    requires lib.parseFloat(w).None?
    ensures Strip(CaseFold(w + " ")) == w
    ensures FirstParse(lib, NumberOrder, w).None?
  {
    SpaceStripped(w);
    NoLeadingDigit(w);
    NumberParseFails(lib, w);
  }

  /** Casefolding and stripping a lower-case word with a trailing space gives
      the word. */
  lemma SpaceStripped(w: string)
    requires w != [] && forall k :: 0 <= k < |w| ==> 'a' <= w[k] <= 'z'
    ensures Strip(CaseFold(w + " ")) == w
  {
    var t := w + " ";
    forall k | 0 <= k < |t|
      ensures !('A' <= t[k] <= 'Z')
    {
      if k < |w| {
        assert t[k] == w[k];
      } else {
        assert t[k] == ' ';
      }
    }
    CaseFoldNoUpper(t);
    WordCharNotSpace(w[0]);
    WordCharNotSpace(w[|w| - 1]);
    assert t[0] == w[0];
    assert LStrip(t) == t;
    assert IsSpace(t[|t| - 1]) && t[..|t| - 1] == w;
    assert RStrip(w) == w;
  }

  /** A text that is no token, no date (when dates are parsed) and no number,
      with no level limit, is kept as it is. */
  lemma NothingParsed(opts: Options, env: Env, data: string, level: int)
    requires WellFormed(opts) && Shrinking(env) && opts.maxLevel.None?
    requires Strip(CaseFold(data)) !in opts.specialTokens
    requires !opts.parseDate || FirstParse(env.lib, IsoOrder, data).None?
    requires FirstParse(env.lib, NumberOrder, Strip(CaseFold(data))).None?
    ensures ConvertString(opts, env, data, level) == Str(data)
  {
  }

  // ---------------------------------------------------------------------------
  // Cases from the adapter's test-suite.

  /** A set, or any other non-list iterable, comes back as a list in iteration
      order: `{1, 2, 3}` becomes `[1, 2, 3]`. */
  lemma IterableBecomesList(env: Env, xs: seq<Value>, level: int)
    requires Shrinking(env) && UntouchedItems(xs)
    ensures Convert(Defaults, env, Iter(xs), level) == List(xs)
  {
    assert SimpleTypeOf(Iter(xs), DefaultSimpleTypes).None?;
    DefaultIdentityItems(env, xs, level);
  }

  lemma {:induction false} CountAbsent(s: string, c: char)
    requires c !in s
    ensures Count(s, c) == 0
  {
    if s != [] {
      CountAbsent(s[1..], c);
    }
  }

  /** An object of no other kind becomes its `str`, as a path does. */
  lemma ObjectBecomesText(env: Env, text: string)
    requires Shrinking(env)
    ensures Convert(Defaults, env, Other(text), 0) == Str(text)
  {
  }

  /** `Fraction(3, 4)` is not an int, so it becomes `float(x)`, 0.75. */
  lemma FractionBecomesFloat(env: Env)
    requires Shrinking(env)
    ensures Convert(Defaults, env, Num(NumVal(None, Some(FloatVal("0.75", None)), "3/4")), 0)
            == Float(FloatVal("0.75", None))
  {
  }

  /** The adapter with `parse_date` and `parse_str` switched on. */
  const Parsing: Options := Defaults.(parseDate := true, parseStr := true)

  /** Lower-case letters, digits and dashes, at least one. */
  predicate PlainChars(w: string) {
    w != [] && forall k :: 0 <= k < |w| ==> 'a' <= w[k] <= 'z' || '0' <= w[k] <= '9' || w[k] == '-'
  }

  /** A plain word is its own casefolded, stripped form, and the split rejects
      it. */
  lemma PlainWord(w: string)
    requires PlainChars(w)
    ensures Strip(CaseFold(w)) == w
    ensures !SplitAccepts(Parsing, w)
  {
    CaseFoldNoUpper(w);
    WordCharNotSpace(w[0]);
    WordCharNotSpace(w[|w| - 1]);
    StripNoop(w);
    CountAbsent(DropLast(w), ';');
  }

  /** With parsing on, a plain word that is a token becomes the token's value. */
  lemma WordTokenParsed(env: Env, w: string)
    requires Shrinking(env) && PlainChars(w) && w in DefaultSpecialTokens
    ensures Convert(Parsing, env, Str(w), 0) == DefaultSpecialTokens[w]
  {
    PlainWord(w);
    assert Parsing.specialTokens == DefaultSpecialTokens;
    TokenWins(Parsing, env, w, 0);
  }

  /** With parsing on, a plain word that is `str(i)`, no token and no date
      becomes the int `i`. */
  lemma WordIntParsed(env: Env, w: string, i: int)
    requires Shrinking(env) && PlainChars(w) && w !in DefaultSpecialTokens && w == IntToString(i)
    requires FirstParse(env.lib, IsoOrder, w).None?
    ensures Convert(Parsing, env, Str(w), 0) == Int(i)
  {
    PlainWord(w);
    IntTextFound(env.lib, i);
    WordNumberParsed(env, w);
  }

  /** With parsing on, a text that is its own casefolded, stripped form, that
      the split rejects and that is no token and no date, becomes the number
      the number search finds. */
  lemma WordNumberParsed(env: Env, w: string)
    requires Shrinking(env) && Strip(CaseFold(w)) == w && !SplitAccepts(Parsing, w)
    requires w !in DefaultSpecialTokens && FirstParse(env.lib, IsoOrder, w).None?
    requires FirstParse(env.lib, NumberOrder, w).Some?
    ensures Convert(Parsing, env, Str(w), 0) == FirstParse(env.lib, NumberOrder, w).value
  {
    assert Parsing.specialTokens == DefaultSpecialTokens;
    NumberWins(Parsing, env, w, 0);
    StringConverted(Parsing, env, w, 0);
  }

  /** With parsing on, a plain word that is no token, that `time.fromisoformat`
      refuses and `date.fromisoformat` accepts, becomes that date. */
  lemma WordDateParsed(env: Env, w: string)
    requires Shrinking(env) && PlainChars(w) && w !in DefaultSpecialTokens
    requires env.lib.timeFromIso(w).None? && env.lib.dateFromIso(w).Some?
    ensures Convert(Parsing, env, Str(w), 0) == Date(env.lib.dateFromIso(w).value)
  {
    PlainWord(w);
    assert Parsing.specialTokens == DefaultSpecialTokens;
    IsoDateFound(env.lib, w);
    DatesBeforeNumbers(Parsing, env, w, 0);
    StringConverted(Parsing, env, w, 0);
  }

  /** The words of the examples below are plain; "null" and "true" are tokens,
      "42" and "2020-02-20" are not, and "42" is `str(42)`. */
  lemma ExampleWords()
    ensures PlainChars("null") && "null" in DefaultSpecialTokens && DefaultSpecialTokens["null"] == Null
    ensures PlainChars("true") && "true" in DefaultSpecialTokens && DefaultSpecialTokens["true"] == Bool(true)
    ensures PlainChars("42") && "42" !in DefaultSpecialTokens && IntToString(42) == "42"
    ensures PlainChars("2020-02-20") && "2020-02-20" !in DefaultSpecialTokens
  {
    assert NatToString(42) == NatToString(4) + [Digit(2)];
  }

  /** "null" becomes None and "true" becomes True. */
  lemma TokensParsed(env: Env)
    requires Shrinking(env)
    ensures Convert(Parsing, env, Str("null"), 0) == Null
    ensures Convert(Parsing, env, Str("true"), 0) == Bool(true)
  {
    ExampleWords();
    WordTokenParsed(env, "null");
    WordTokenParsed(env, "true");
  }

  /** "42" becomes the int 42 when it is no date or time. */
  lemma IntParsed(env: Env)
    requires Shrinking(env)
    requires FirstParse(env.lib, IsoOrder, "42").None?
    ensures Convert(Parsing, env, Str("42"), 0) == Int(42)
  {
    ExampleWords();
    WordIntParsed(env, "42", 42);
  }

  /** "2020-02-20" is first offered to `time.fromisoformat`, then to
      `date.fromisoformat`, which accepts it. */
  lemma DateParsed(env: Env)
    requires Shrinking(env)
    requires env.lib.timeFromIso("2020-02-20").None?
    requires env.lib.dateFromIso("2020-02-20") == Some("2020-02-20")
    ensures Convert(Parsing, env, Str("2020-02-20"), 0) == Date("2020-02-20")
  {
    ExampleWords();
    WordDateParsed(env, "2020-02-20");
  }

  /** A text that `time.fromisoformat` refuses and `date.fromisoformat` accepts
      is found as a date by the adapter's search. */
  lemma IsoDateFound(lib: Builtins, d: string)
    requires lib.timeFromIso(d).None? && lib.dateFromIso(d).Some?
    ensures FirstParse(lib, IsoOrder, d) == Some(Date(lib.dateFromIso(d).value))
  {
    assert Attempt(lib, TimeParser, d).None?;
    assert IsoOrder[0] == TimeParser && IsoOrder[1..][0] == DateParser;
  }

  /** With `parse_str`, a text the split rejects goes to `_convert_string`. */
  lemma StringConverted(opts: Options, env: Env, data: string, level: int)
    requires WellFormed(opts) && Shrinking(env) && opts.parseStr && !SplitAccepts(opts, data)
    ensures Convert(opts, env, Str(data), level) == ConvertString(opts, env, data, level)
  {
  }
}
