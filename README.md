# config-formats: the value normalisers, modelled and proved in Dafny

config-formats converts configuration data between JSON, TOML and YAML. Before
a codec encodes decoded data, a recursive normaliser turns the value tree into
something the target format can hold. That normaliser exists in three
generations:

- `RecursiveAdapter` in `simplify.py` is an options record whose call walks the
  tree. It handles None, dates, strings and simple lists, simple-type casts,
  other numbers, mappings with null filtering and forced string keys, and
  iterables with list joining and a depth cut-off.
- `dumb_down` in `base.py` is flag-driven, with the string helpers
  `str2simpletype` and `str2datetime`. This is the normaliser the JSON and TOML
  codecs call.
- `dumb_down` in `__init__.py` is the option-free original.

The model also covers the stateful pieces of the format base class:
- `PersistentBytesIO`, an in-memory stream whose `close()` only rewinds.
- The `Format` constructor and its strict `check_remainder` test.
- The class registry filled at subclass creation.

From `formats.py` it covers:
- The names and suffixes of the three formats.
- The JSON `pretty` switch.
- The TOML top-level "DEFAULT" wrapping.

## Layout

| file | module | contents |
|---|---|---|
| `values.dfy` | `Values` | The decoded value tree and the standard-library oracles (`Builtins`). It also has the numeric cast shared by all three normalisers, `str()`, a size measure, and Python dict assignment over an ordered list of pairs (`Put`, `Lookup`). |
| `pytext.dfy` | `PyText` | The Python string operations the normalisers use: `strip`, `casefold`, `count`, `split`, `join`, and the canonical-integer test `str(int(s)) == s`. |
| `candidates.dfy` | `Candidates` | The try-each-type loops: `Attempt` of one parser and `FirstParse` of a list. `FindFirst` is the loop, proved equal to `FirstParse`. |
| `simplify.dfy` | `Simplify` | `RecursiveAdapter`: the options of the adapter. `Convert`, `ConvertString`, `SplitSimpleList`, `ConvertItems`, `ConvertKey` and `ConvertEntries` together form the call. It also defines the split and join helpers. `ConvertStringLoop` and `ConvertMapping` are the imperative loops, proved against the functions. |
| `simplify_props.dfy` | `SimplifyProperties` | The adapter's properties. |
| `base.dfy` | `Base` | `str2datetime`, `str2simpletype`, `_SPECIAL` and the flag-driven `dumb_down`. |
| `base_props.dfy` | `BaseProperties` | Properties of the flag-driven `dumb_down`. |
| `base_io.dfy` | `BaseIO` | `PersistentBytesIO` as a class over a byte buffer, `RemainingDataError`, `Format` with `__init__` and `check_remainder`, and the registry as a class with an ordered list of pairs. |
| `legacy.dfy` | `Legacy` | The option-free `dumb_down`. It is proved equal to the flag-driven one with every flag off, and its properties follow from that equality. |
| `formats.dfy` | `Formats` | Format names and suffixes, `DEFAULT_FORMAT`, JSON options, what each `dump` hands its encoder, and TOML wrap and unwrap. |

**Data and constants.** These declarations model the source's data directly:
- `Simplify.Options`: the fields of `RecursiveAdapter`, one per attribute at src/config_formats/simplify.py:24-83.
- `Simplify.Defaults`: the adapter's field defaults.
- `Simplify.DefaultSpecialTokens`: the default `special_tokens` of src/config_formats/simplify.py:33-45.
- `Simplify.DefaultSimpleTypes`: the default `simple_types` of src/config_formats/simplify.py:72-74.
- `Base.Special`: `_SPECIAL` of src/config_formats/base.py:257-267. `Base.SpecialValues` proves that its values are None or bools.
- `BaseIO.RemainingDataError`: the error of src/config_formats/base.py:247-254, carrying its remainder and its format. `BaseIO.Format.CheckRemainder` proves which bytes it carries.

`SimplifyProperties.DefaultIdentity`, `DefaultNotIdempotent` and `DefaultOutputIsPlain` are stated over `Simplify.Defaults`.

**Library calls as parameters.** The model cannot see these, so they are
parameters:
- `float(s)`, `time.fromisoformat`, `date.fromisoformat`,
  `datetime.fromisoformat` and `str()` of a container are fields of `Builtins`.
- The registry round-trip that the adapter uses at `max_level` (the load half
  runs in `from_str`, the dump half in `to_str`) becomes two functions of
  `Env`: `serialize` and `deepParse`.

**Termination.** Two recursions in the adapter are not structural:
- Split items are converted at level 0.
- A deep-parse result is recursed into at level + 1.

The measure is the size of the value or text at hand. The adapter's functions
require `Shrinking(env)`: a deep parse never builds a tree larger than its
text. JSON meets this, and JSON is the default `max_level_format`.

**Well-formed options.** `WellFormed(opts)` has two parts:
- In final-separator mode the separator is not whitespace. Otherwise no text
  is ever split, and `data.strip()[-1]` fails on a text of whitespace alone.
- Either `parse_str` is on or `str` is one of the `simple_types`. Otherwise a
  string is iterated into one-character strings, which ends only at
  `max_level`.

These conditions exclude some runs that end normally; "## Left out" lists them.

**Where the code departs from what its names and docstrings suggest, the model
follows the code:**
- The docstring of `parse_simple_lists` (src/config_formats/simplify.py:61)
  describes a switch for splitting strings into simple lists. The code never
  reads the field and tries the split on every string. This is proved as
  `SimplifyProperties.FlagIgnored`.
- The adapter's test is named for idempotency (tests/test_simplify.py:10), but
  the default adapter is not idempotent in general.
  `SimplifyProperties.DefaultNotIdempotent` exhibits an input where a second
  pass changes the result. The flag-driven `dumb_down` is idempotent once
  strings are not parsed (`BaseProperties.DumbDownIdempotent`).

## Model

| member | source | states |
|---|---|---|
| Values.NumberCast | src/config_formats/base.py:72-81 | A bool becomes 0 or 1. A whole float becomes its int, and any other float stays a float. Another number becomes its int when it equals `int(x)`, else its float. The cast finds nothing exactly when neither conversion exists. |
| Values.StrOf | src/config_formats/simplify.py:240 | Python's `str(x)`: "None", "True"/"False", the decimal rendering of an int, the repr of a float, the text itself, the ISO renderings of dates and times (a space between date and time), an object's own `str`, and the container oracle for lists, sets and dicts. `DefaultNotIdempotent` and `ObjectBecomesText` rely on it. |
| Values.IsoFormat | src/config_formats/simplify.py:208 | `isoformat()` of a date, time or datetime; a datetime joins its parts with "T". `NoneAndDates` proves that the adapter returns this text for a date unless `allow_date`. |
| Values.Put | src/config_formats/simplify.py:224 | `d[k] = v`: a new key is appended. An existing key keeps its position and takes the new value. Pairs with other keys are untouched. |
| Values.PutLookup | src/config_formats/simplify.py:224 | After `d[k] = v`, looking up `k` gives `v`, and every other key gives what it gave before. |
| Values.PutKeySet | src/config_formats/simplify.py:224 | Assignment adds exactly `k` to the key set. |
| Values.PutUnique | src/config_formats/simplify.py:224 | Assignment keeps the keys distinct. |
| Values.PutRebuilds | src/config_formats/base.py:84-90 | Re-assigning the last pair of a dict with distinct keys, in order, rebuilds the dict. |
| Values.PutEntries | src/config_formats/simplify.py:224 | After assignment, every pair was there before or is the new pair. |
| Values.Lookup | src/config_formats/simplify.py:224 | A lookup finds a value exactly when the key is present. |
| Values.LookupHit | src/config_formats/simplify.py:224 | In a dict with distinct keys, the lookup of a pair's key gives that pair's value. |
| PyText.Strip | src/config_formats/simplify.py:87 | `strip()`: no whitespace remains at either end, and the text does not grow. |
| PyText.StripSpec | src/config_formats/simplify.py:87 | `strip()` keeps a contiguous slice of the text. Everything before it is whitespace, and so is everything after it. |
| PyText.CaseFold | src/config_formats/simplify.py:87 | `casefold()` as ASCII lowering, character by character, keeping the length. `CaseFoldNoUpper` proves that a text without capitals is its own casefold. |
| PyText.StripIdempotent | src/config_formats/simplify.py:134 | Stripping twice is stripping once. |
| PyText.SplitOn | src/config_formats/simplify.py:134 | `split(sep)` yields one more piece than there are separators, and no piece holds the separator. |
| PyText.JoinSplit | src/config_formats/simplify.py:134 | Joining the pieces of a split with the separator gives the text back. |
| PyText.SplitJoin | src/config_formats/simplify.py:161 | Splitting a join of separator-free pieces gives the pieces back. |
| PyText.CountJoin | src/config_formats/simplify.py:125 | A join of n separator-free pieces holds n - 1 separators. |
| PyText.JoinWith | src/config_formats/simplify.py:161 | `sep.join(xs)`: the pieces with one separator between neighbours. `SplitJoin`, `JoinSplit` and `CountJoin` state its meaning. |
| PyText.CanonicalInt | src/config_formats/simplify.py:98-102 | A text is accepted as the int `i` exactly when `str(i)` is that text. |
| PyText.ParseInt | src/config_formats/simplify.py:98-102 | The int `cand` with `str(cand) == s`: an optional minus sign before digits without a superfluous leading zero, and no "-0". `CanonicalInt` proves it accepts exactly the texts `str(i)`. |
| PyText.ParseIntSound | src/config_formats/base.py:32-36 | An accepted int renders back as the text it came from. |
| PyText.ParseIntOfString | src/config_formats/base.py:32-36 | `str(i)` is always accepted as `i`. |
| Candidates.Attempt | src/config_formats/simplify.py:98-102 | The int parser succeeds exactly when `int(s)` renders back as the text, and then it yields that int. An accepted float's repr is the text. A time, date or datetime parser yields a temporal value. |
| Candidates.FirstParse | src/config_formats/simplify.py:92-96 | The first candidate parser, in list order, that accepts the text, as in a `for` loop with `return` inside `try`. `FirstParseSpec` states its meaning and `FindFirst` is the loop proved equal to it. |
| Candidates.FirstParseSpec | src/config_formats/simplify.py:92-96 | Nothing is found exactly when every candidate fails. Otherwise the result is that of a candidate all of whose predecessors failed. |
| Candidates.DateParse | src/config_formats/simplify.py:91-96 | A search over time, date and datetime parsers only ever finds a time, date or datetime. |
| Candidates.NumberParse | src/config_formats/simplify.py:98-102 | The int-then-float search finds only an int whose `str` is the text or a float whose repr is the text. |
| Candidates.IntTextFound | src/config_formats/simplify.py:98-102 | The text `str(i)` is found as the int `i`, before `float` is tried. |
| Candidates.NumberParseFails | src/config_formats/simplify.py:98-104 | When `int` refuses the text and `float` refuses it or renders it differently, the number search finds nothing. |
| Candidates.FindFirst | src/config_formats/simplify.py:92-104 | The loop with early return computes `FirstParse`. |
| Simplify.SimpleTypeOf | src/config_formats/simplify.py:142-155 | The result is the first candidate type the value is an instance of, or None exactly when no candidate matches. A bool counts as an int. |
| Simplify.IsInstance | src/config_formats/simplify.py:153 | `isinstance(v, t)` for the five simple types, where a bool is an instance of `int`. `SimpleTypeOf` and `Cast` are stated in its terms. |
| Simplify.Cast | src/config_formats/simplify.py:188-189 | `t(data)` has exactly type `t`. It is the value itself when the value already has type `t`, and `int(True)` is 1. |
| Simplify.SplitItems | src/config_formats/simplify.py:134-136 | Item k is the k-th piece of `data.split(sep)`, stripped. There are count + 1 items, or count items in final mode, where the last piece is dropped. No item is longer than the text or holds the separator. |
| Simplify.SplitAccepts | src/config_formats/simplify.py:125-133 | `_split_simple_list` does not raise: `data[:-1]` holds at least two separators and, in final mode, the stripped text ends with the separator. `JoinAccepted` and `FewItemsNotSplit` prove when a join passes this test. |
| Simplify.IsSimpleList | src/config_formats/simplify.py:157-158 | `_is_simple_list`: every item has one of the configured simple types; an empty list passes. |
| Simplify.JoinSimpleList | src/config_formats/simplify.py:160-164 | `_join_simple_list`: the `str` of every item joined by the separator, plus a trailing separator in final mode. `SplitJoinRoundTrip` proves that the split inverts it on three or more stripped, separator-free texts. In plain mode, an empty last item needs four texts: `["a", "b", ""]` joins to "a;b;", whose `[:-1]` holds one separator, so it is not split. |
| Simplify.SplitSimpleList | src/config_formats/simplify.py:134-140 | The split items, each upconverted by `_convert_string` at level 0 when `parse_str` is on, else kept as text. `SplitOfJoin` and `SplitJoinRoundTrip` state its meaning. |
| Simplify.Convert | src/config_formats/simplify.py:166-240 | `adapter(v, level)`, branch for branch in the order of `__call__`: None, allowed dates, the split, string upconversion, simple-type casts, other numbers, dates as ISO text, mappings and iterables with the `max_level` cut-off, and `str()` as the fallback. `ConvertIsPlain`, `DefaultIdentity`, `NoneAndDates`, `Containers` and `FlagIgnored` state its properties. |
| Simplify.ConvertString | src/config_formats/simplify.py:85-115 | `_convert_string`: a token of the casefolded, stripped text, then dates on the raw text when `parse_date`, then an int or float rendered as that text, then the deep parse at `max_level`, else the original text. `ConvertStringLoop` is the loop proved equal to it; `TokenWins`, `DatesBeforeNumbers`, `NumberWins` and `NothingParsed` state each step. |
| Simplify.ConvertKey | src/config_formats/simplify.py:222 | A mapping key: `str(key)` under `force_string_keys`, else the key converted at `level + 1`. `EntriesTextKeys` uses the first case. |
| Simplify.Skipped | src/config_formats/simplify.py:218-221 | An entry is skipped exactly when its key is None under `skip_null_keys` or its value is None under `skip_null_values`. `EntryStep` proves that a skipped entry leaves the dict unchanged. |
| Simplify.ConvertEntries | src/config_formats/simplify.py:216-225 | The dict the loop builds: a skipped entry leaves it alone, any other entry assigns its converted value to its converted key. `EntriesLookup`, `EntriesUnique`, `EntriesKeySet` and `EntryStep` state its meaning; `ConvertMapping` is the loop proved equal to it. |
| Simplify.ConvertItems | src/config_formats/simplify.py:237 | The list branch keeps the length. |
| Simplify.ConvertStringLoop | src/config_formats/simplify.py:85-115 | The imperative `_convert_string` computes `ConvertString`, in order: token, then dates on the raw text, then numbers on the stripped text, then the deep parse at `max_level`, then the original text. |
| Simplify.ConvertMapping | src/config_formats/simplify.py:216-225 | The loop with its two `continue` skips computes `ConvertEntries`. |
| SimplifyProperties.ConvertIsPlain | src/config_formats/simplify.py:166-240 | Without `allow_date` and `parse_date`, and with plain token values, the output holds only None, bool, int, float, str, list and dict. |
| SimplifyProperties.DefaultOutputIsPlain | src/config_formats/simplify.py:172-240 | The default adapter's output holds no dates, sets or objects. |
| SimplifyProperties.NoneAndDates | src/config_formats/simplify.py:172-178 | None is kept under every option set. A date is kept with `allow_date` and becomes its ISO text without it. |
| SimplifyProperties.DefaultIdentity | src/config_formats/simplify.py:188-189 | The default adapter is the identity on trees of None, bool, int, float, str, list and dict whose strings hold fewer than two separators before the last character and whose dicts have distinct keys. |
| SimplifyProperties.DefaultNotIdempotent | src/config_formats/simplify.py:180-184 | An object whose `str` is "a;b;c" becomes that text. That text does not survive a second pass, because it is split. |
| SimplifyProperties.JoinOfStrings | src/config_formats/simplify.py:160-164 | Joining text items gives the separator-joined items, plus a trailing separator in final mode. |
| SimplifyProperties.JoinedSeparators | src/config_formats/simplify.py:125 | The text before the last character of a join holds len(xs) - 1 separators in final mode. In plain mode it holds len(xs) - 1 separators when the last item is non-empty, and never fewer than len(xs) - 2. |
| SimplifyProperties.FewItemsNotSplit | src/config_formats/simplify.py:125-128 | A join of one or two items is never split back. |
| SimplifyProperties.JoinAccepted | src/config_formats/simplify.py:125-133 | A join of at least three separator-free items passes both tests of the split. An empty last item in plain mode needs four. |
| SimplifyProperties.SplitOfJoin | src/config_formats/simplify.py:134-136 | Splitting the join of stripped, separator-free items gives the items back. |
| SimplifyProperties.SplitJoinRoundTrip | src/config_formats/simplify.py:125-140 | With `parse_str` off, the adapter turns the joined text of three or more stripped, separator-free items back into the list of those items. In plain mode, a list whose last item is empty needs at least four items. |
| SimplifyProperties.EntriesLookup | src/config_formats/simplify.py:216-225 | Looking up a converted key in the mapping branch's result gives the value of the last non-skipped entry whose key converts to it. That value is converted at `level + 1`. |
| SimplifyProperties.EntriesUnique | src/config_formats/simplify.py:224 | The result's keys are distinct. |
| SimplifyProperties.EntriesKeySet | src/config_formats/simplify.py:217-224 | The result's keys are exactly the converted keys of the entries that are not skipped. |
| SimplifyProperties.EntriesTextKeys | src/config_formats/simplify.py:222 | With `force_string_keys`, every key of the result is a text. |
| SimplifyProperties.EntryStep | src/config_formats/simplify.py:218-224 | A skipped entry is one with a null key under `skip_null_keys` or a null value under `skip_null_values`, and it leaves the dict unchanged. Any other entry makes its converted key map to its converted value. |
| SimplifyProperties.Containers | src/config_formats/simplify.py:210-237 | With `join_simple_lists`, a sequence of simple items is joined even at `max_level`. Otherwise any container at `max_level` is serialised. Below it, a sequence becomes the list of its converted items. |
| SimplifyProperties.FlagIgnored | src/config_formats/simplify.py:60-61 | The result does not depend on `parse_simple_lists`. |
| SimplifyProperties.TokenWins | src/config_formats/simplify.py:87-89 | With `parse_str`, a text that is not split and whose casefolded, stripped form is a token becomes the token's value. |
| SimplifyProperties.DatesBeforeNumbers | src/config_formats/simplify.py:91-96 | With `parse_date`, a string that is no token and parses as a time, date or datetime becomes that value, whatever number it also spells. |
| SimplifyProperties.CanonicalIntAccepted | src/config_formats/simplify.py:98-102 | A text whose casefolded, stripped form is `str(i)` becomes `i` when it is no token and no date. |
| SimplifyProperties.IntResultIsCanonical | src/config_formats/simplify.py:98-102 | An int result renders back as the casefolded, stripped text, and a float result's repr is that text. |
| SimplifyProperties.NumberWins | src/config_formats/simplify.py:87-102 | A text that is no token and no date (when dates are parsed) and that the number search accepts becomes that number. |
| SimplifyProperties.NothingParsed | src/config_formats/simplify.py:87-115 | A text that is no token, no date and no number becomes itself when there is no level limit. |
| SimplifyProperties.PaddedStaysText | src/config_formats/simplify.py:98-115 | A run of at least two digits with a leading zero, such as "007", that is no token, no date, and no float rendered as itself stays the same text. |
| SimplifyProperties.UnparsedTextKept | src/config_formats/simplify.py:87-115 | A lowercase word followed by a space that is no token, no date and no float comes back unstripped, so "bla " stays "bla ". |
| SimplifyProperties.IterableBecomesList | tests/test_simplify.py:24-27 | A set, or any other non-list iterable of unchanged items, becomes a list of the same items. |
| SimplifyProperties.ObjectBecomesText | tests/test_simplify.py:32 | An object becomes its `str`, so `Path("foo")` becomes "foo". |
| SimplifyProperties.FractionBecomesFloat | tests/test_simplify.py:33 | `Fraction(3, 4)` becomes 0.75. |
| SimplifyProperties.WordTokenParsed | src/config_formats/simplify.py:87-89 | With the parsing options, a plain word that is a default token becomes the token's value. |
| SimplifyProperties.WordIntParsed | src/config_formats/simplify.py:98-102 | With the parsing options, the text `str(i)` that is no token and no date becomes `i`. |
| SimplifyProperties.WordDateParsed | src/config_formats/simplify.py:91-96 | With the parsing options, a plain word that the time parser refuses and the date parser accepts becomes that date. |
| SimplifyProperties.TokensParsed | tests/test_simplify.py:42-43 | With `parse_date` and `parse_str`, "null" becomes None and "true" becomes True. |
| SimplifyProperties.IntParsed | tests/test_simplify.py:39 | "42" becomes 42. |
| SimplifyProperties.DateParsed | tests/test_simplify.py:45 | "2020-02-20" becomes the date, provided the time parser refuses it and the date parser accepts it. |
| Base.SpecialValues | src/config_formats/base.py:257-267 | Every `_SPECIAL` value is None or a bool. |
| Base.Str2DateTime | src/config_formats/base.py:15-22 | The result is a date, time or datetime, or else the original, unstripped text. |
| Base.Str2DateTimeSpec | src/config_formats/base.py:15-22 | The result is temporal exactly when some parser accepts the stripped text. It is then the value of the first parser, in the order date, time, datetime, that accepts it. |
| Base.Str2SimpleType | src/config_formats/base.py:25-41 | A None or bool result appears exactly when the casefolded, stripped text is a `_SPECIAL` key, and it is that key's value. An int or float result renders back as that text. A date result needs `date_types`. A text result is the original text. |
| Base.NotSpecial | src/config_formats/base.py:31-41 | Once the `_SPECIAL` lookup has missed, an int result renders back as the text and a float result's repr is that text. A date result needs `date_types`, and a text result is the original text. Nothing else is returned. |
| Base.DumbDown | src/config_formats/base.py:44-98 | `dumb_down` with its four flags, branch for branch: None, allowed dates, string parsing, the primitive types, other numbers, mappings, iterables, and `str()` as the fallback. `DumbDownPlain`, `DumbDownIdempotent`, `NullOnlyFromNull` and `StringsWithoutParseStr` state its properties. |
| Base.DumbEntries | src/config_formats/base.py:83-90 | The dict comprehension: each kept entry assigns its value, converted with the caller's flags, to its key, converted with the default flags, later keys overwriting earlier ones. `DumbEntriesLookup`, `LastKeptPresent`, `DumbEntriesUnique` and `DumbEntriesOrigin` state its meaning. |
| Base.Kept | src/config_formats/base.py:89 | The comprehension's filter: an entry is kept unless `skip_none` holds and its key or value is None. `LastKeptPresent` proves that the result's keys are exactly the converted keys of the kept entries. |
| Base.DumbItems | src/config_formats/base.py:92-96 | The list branch keeps the length. |
| BaseProperties.DumbDownPlain | src/config_formats/base.py:52-98 | Without `allow_date` and `parse_date`, the output holds only None, bool, int, float, str, list and dict. |
| BaseProperties.NullOnlyFromNull | src/config_formats/base.py:52-53 | Without `parse_str`, only None becomes None. |
| BaseProperties.DumbEntriesLookup | src/config_formats/base.py:83-90 | Looking up a converted key gives the value of the last kept entry whose key, converted with the default flags, equals it. That value is converted with the caller's flags. |
| BaseProperties.LastKeptPresent | src/config_formats/base.py:89 | A key is present exactly when some kept entry converts to it. An entry is dropped exactly when `skip_none` holds and its key or value is None. |
| BaseProperties.DumbEntriesUnique | src/config_formats/base.py:84-90 | The result's keys are distinct. |
| BaseProperties.DumbEntriesOrigin | src/config_formats/base.py:84-90 | Every key of the result is a kept entry's key converted with the default flags. Every value is a kept entry's value converted with the caller's flags. |
| BaseProperties.EntryOrigin | src/config_formats/base.py:84-90 | Names the kept entry each result pair's value came from. |
| BaseProperties.DumbDownIdempotent | src/config_formats/base.py:44-98 | With `parse_str` and `parse_date` off, a second pass changes nothing. |
| BaseProperties.DumbItemsIdempotent | src/config_formats/base.py:92-96 | Idempotence of the list branch. |
| BaseProperties.DumbEntriesIdempotent | src/config_formats/base.py:83-90 | Idempotence of the mapping branch. |
| BaseProperties.RefoldFixed | src/config_formats/base.py:83-90 | A dict whose entries are kept and already converted, with distinct keys, comes back unchanged. |
| BaseProperties.IntTextNotSpecial | src/config_formats/base.py:257-267 | No rendering of an int is a `_SPECIAL` key. |
| BaseProperties.NumbersBeforeDates | src/config_formats/base.py:28-41 | A text whose casefolded, stripped form is `str(i)` becomes `i`, even when dates are parsed. |
| BaseProperties.StringsWithoutParseStr | src/config_formats/base.py:60-68 | With neither flag, a string comes back unchanged. With only `parse_date`, it becomes `str2datetime` of the text (so `Str2DateTimeSpec` applies), which is a date or time or the unchanged text. |
| BaseIO.Unread | src/config_formats/base.py:179 | What `read()` returns is the rest of the buffer from the position on, or nothing once the position is at or past the end. |
| BaseIO.UnreadCompletes | src/config_formats/base.py:179 | The bytes before the position plus the unread bytes make up the buffer. |
| BaseIO.Overwrite | src/config_formats/base.py:228 | After a `write`, the data sits at the position. Bytes outside it are kept, a gap past the old end is zero-filled, and an empty write changes nothing. |
| BaseIO.WriteThenRead | src/config_formats/base.py:228 | Reading back from where a write started yields the written bytes, then the old bytes beyond them. |
| BaseIO.PersistentBytesIO.constructor | src/config_formats/base.py:200 | A new stream holds the initial bytes, is at position 0, and is open. |
| BaseIO.PersistentBytesIO.Read | src/config_formats/base.py:179 | `read()` returns the unread bytes and moves to the end, or fails on a closed stream. |
| BaseIO.PersistentBytesIO.Write | src/config_formats/base.py:228 | `write` overwrites at the position and advances past the data, or fails on a closed stream. |
| BaseIO.PersistentBytesIO.Seek | src/config_formats/base.py:230 | `seek` sets any position, even one past the end. It fails on a closed stream, and then on a negative offset. |
| BaseIO.PersistentBytesIO.Close | src/config_formats/base.py:229-230 | `close()` rewinds to 0 and keeps the contents and the open state. |
| BaseIO.PersistentBytesIO.GetValue | src/config_formats/base.py:232-235 | `getvalue()` returns the whole buffer whatever the position, rewinds, and leaves the contents unchanged. |
| BaseIO.PersistentBytesIO.Enter | src/config_formats/base.py:228 | Entering a `with` block fails on a closed stream. |
| BaseIO.PersistentBytesIO.ExitAsWritten | src/config_formats/base.py:237-244 | `__exit__` as written closes the stream, then fails in the inherited exit's call to `close()`. |
| BaseIO.PersistentBytesIO.Exit | src/config_formats/base.py:237-244 | `__exit__` as intended really closes the stream and succeeds. |
| BaseIO.WithBlockAsWritten | src/config_formats/base.py:237-244 | Every `with PersistentBytesIO(...)` block ends in ValueError. |
| BaseIO.WithBlock | src/config_formats/base.py:237-244 | With the intended exit, the block ends cleanly and the stream is closed. |
| BaseIO.WriteCloseRead | src/config_formats/base.py:205-209 | Bytes written to a fresh stream can be read again after the codec's `close()`. |
| BaseIO.Format.constructor | src/config_formats/base.py:131-138 | Exactly one source is set: no argument means stdin/stdout, a `Path` means the path, anything else means the stream. `strict` is recorded. |
| BaseIO.Format.CheckRemainder | src/config_formats/base.py:166-181 | Unless strict or forced, nothing is read. Otherwise the stream is read to the end. The result is a RemainingDataError carrying exactly the unread bytes and the format when such bytes exist, and no error when they do not. The position ends at the end of the buffer, or stays where it was if it was already past it. On a closed stream the ValueError escapes. |
| BaseIO.WithHighlight | src/config_formats/base.py:142-143 | A missing `highlight` becomes the class name, and an existing one is kept. |
| BaseIO.Registry.constructor | src/config_formats/base.py:117 | The registry starts empty. |
| BaseIO.Registry.Register | src/config_formats/base.py:140-143 | The class is registered under its name, replacing any class registered earlier under that name. No other name changes, and the key set gains exactly that name. |
| Legacy.DumbDown | src/config_formats/__init__.py:9-38 | The option-free `dumb_down`: None, the primitive types as they are, other numbers cast, mappings and iterables element by element, and `str()` as the fallback. `Agrees` proves it equal to the flag-driven one with every flag off. |
| Legacy.DumbEntries | src/config_formats/__init__.py:32-33 | The unfiltered comprehension: converted keys and values, a later duplicate key overwriting the earlier value. `EntriesLookup` states its meaning. |
| Legacy.DumbItems | src/config_formats/__init__.py:35-36 | The list branch keeps the length. |
| Legacy.Agrees | src/config_formats/__init__.py:9-38 | The option-free `dumb_down` equals the flag-driven one with every flag off. |
| Legacy.ItemsAgree | src/config_formats/__init__.py:35-36 | Agreement of the list branch. |
| Legacy.EntriesAgree | src/config_formats/__init__.py:32-33 | Agreement of the mapping branch. |
| Legacy.OutputIsPlain | src/config_formats/__init__.py:9-38 | The output holds only None, bool, int, float, str, list and dict. |
| Legacy.Idempotent | src/config_formats/__init__.py:9-38 | A second pass changes nothing. |
| Legacy.EntriesLookup | src/config_formats/__init__.py:32-33 | Nothing is filtered. Looking up a converted key gives the converted value of the last entry whose key converts to it. |
| Legacy.LastKeptIsLastAssigned | src/config_formats/__init__.py:32-33 | With no filtering, the last kept entry is the last entry. |
| Legacy.SimpleIdentity | tests/test_config_formats.py:6-16 | An already simple tree comes back unchanged. |
| Legacy.AlreadySimpleUnchanged | tests/test_config_formats.py:6-15 | The package's example list, nested list and dict included, comes back unchanged. |
| Legacy.SetBecomesList | tests/test_config_formats.py:19-21 | {1, 2, 3} becomes the list [1, 2, 3]. |
| Legacy.FractionBecomesFloat | tests/test_config_formats.py:26 | `Fraction(3, 4)` becomes 0.75. |
| Legacy.ObjectBecomesText | tests/test_config_formats.py:25 | `Path("foo")` becomes "foo". |
| Formats.ClassOf | src/config_formats/formats.py:9-52 | The `name`, `suffixes` and `label` class attributes of JSON, TOML and YAML; none sets `highlight`. `NamesAndSuffixesDistinct` and `RegisterFormats` state its properties. |
| Formats.NamesAndSuffixesDistinct | src/config_formats/formats.py:9-51 | No two formats share a name or a suffix. |
| Formats.RegisterFormats | src/config_formats/formats.py:9-51 | Defining the three classes registers json, toml and yaml, each highlighted by its name. No other name changes. |
| Formats.DefaultFormatRegistered | src/config_formats/formats.py:6 | `DEFAULT_FORMAT` names the registered JSON class. |
| Formats.JsonPretty | src/config_formats/formats.py:22 | Pretty JSON is indented by four and keeps non-ASCII text. Otherwise `json.dump` runs with its defaults. |
| Formats.TomlWrap | src/config_formats/formats.py:43-45 | A mapping is passed through. Anything else becomes a one-entry table whose "DEFAULT" key holds it. |
| Formats.TomlUnwrap | src/config_formats/formats.py:35-38 | A table whose only key is "DEFAULT" gives that key's value. Any other table is returned as it is. |
| Formats.TomlRoundTrip | src/config_formats/formats.py:35-45 | Unwrapping undoes wrapping for every value except a lone "DEFAULT" table. |
| Formats.TomlLoneDefaultLost | src/config_formats/formats.py:35-45 | A lone "DEFAULT" table comes back as its value, which differs from the table. |
| Formats.DumpPayload | src/config_formats/formats.py:19-63 | What each `dump` hands its encoder: JSON the default `dumb_down`, TOML that value wrapped as a table, YAML the raw data. `PayloadIsPlain` and `TomlPayloadRoundTrip` state its properties. |
| Formats.PayloadIsPlain | src/config_formats/formats.py:24 | The JSON and TOML encoders receive only None, bool, int, float, str, list and dict. |
| Formats.TomlPayloadRoundTrip | src/config_formats/formats.py:35-46 | A TOML table loaded back as dumped gives the default normalisation of the data, unless that normalisation is a lone "DEFAULT" table. |

## Left out

- The codecs `json`, `tomllib`, `tomli_w` and `yaml` are foreign code. `Formats.DumpPayload` says what each `dump` hands its encoder, and `Formats.TomlUnwrap` starts from the decoded table. The encoders' own round trips are not claimed.
- Stream and file plumbing is not modelled. This covers `Format.read` and `Format.write` (stdin/stdout, opening paths), the `TextIOWrapper` around the JSON stream, and `from_str`/`to_str`. At `max_level` these become `Env.serialize` and `Env.deepParse`.
- `check_remainder`'s logging of an OSError is left out. An in-memory stream raises none.
- The `RemainingDataError` message text is left out. The error carries its remainder and its format.
- `query` is left out. It wraps the `jsonpath` library.
- The broken metaclass `Format` and `main` of `__init__.py` are not part of this model.
- `configured_options`, `__repr__`, `__str__` and `_src_label` are formatting of no consequence here.
- `casefold` is modelled as ASCII lowering. Python's full Unicode case folding (for example "ß" to "ss") is not modelled.
- Python treats `True`, `1` and `1.0` as the same dict key. The model compares keys structurally.
- An unhashable converted key (a list) would raise TypeError in Python. The model accepts it as a key.
- A float is known only by its repr and by its integral value. Whether `float(s)` accepts a text, including "inf" and "nan", is the `parseFloat` oracle.
- Python's 4300-digit limit on int conversion is not modelled.
- The ISO date and time parsers and `isoformat` are oracles. The model takes the renderings they produce as given.
- `str()` of a list, tuple, set or dict is the `containerStr` oracle.
- `BaseIO.PersistentBytesIO.ExitAsWritten` follows the inherited exit, which calls `close()`. A `BufferError` from open exports of the buffer is not modelled.
- `BaseIO.Registry.Register`: the inheritance of `highlight` from a base class is resolved by the caller, which passes the attribute as found in the class's MRO.
- `Simplify.Convert` and the other adapter functions require `WellFormed(opts)` and `Shrinking(env)`, so option sets that Python handles in part are not modelled:
  - With a whitespace separator in final mode, Python never splits a text, because a stripped text cannot end with whitespace. It raises an uncaught IndexError only on a text made of whitespace alone with at least two separators before its last character. The model excludes every such option set, including all the runs that succeed.
  - With `str` missing from `simple_types` and `parse_str` off, an unsplit text is handled as an iterable of one-character texts. "" becomes "" (plus the separator in final mode) under `join_simple_lists`, its serialisation at `max_level`, and [] otherwise. A non-empty text comes back only when `max_level` is at or above the current level, with the text or its one-character pieces serialised at that level. Otherwise the recursion never ends and Python raises `RecursionError`. The model excludes every such option set, including the runs that end.
  - A `max_level_format` whose parser can build a tree larger than its text is outside the model. JSON, the default, meets `Shrinking`.
- The adapter's separator is a single character. Python also allows longer separators.
- `simple_types` is limited to the five default types: any other type is not modelled.
- A missing `max_level_format` raises KeyError (src/config_formats/simplify.py:109, 214, 235), and a raising `to_str` propagates (src/config_formats/simplify.py:214, 235). Neither is modelled: the format is taken as registered, and `Env.serialize` is total. Only the exceptions that the `try` at src/config_formats/simplify.py:110-113 swallows become `deepParse` returning None.

## Findings

| source | as written | input that shows it | evidently intended | confidence | as-written member | corrected member |
|---|---|---|---|---|---|---|
| src/config_formats/base.py:237-244 | `__exit__` first runs the `BytesIO` close, then the inherited `__exit__`, which calls the overriding `close()`. That `close()` seeks on the stream just closed. | `with PersistentBytesIO(b"") as s: pass` raises ValueError (I/O operation on closed file) on leaving the block | leaving the block closes the stream without an error | not executed; follows from the I/O base class calling `close()` in `__exit__` | BaseIO.PersistentBytesIO.ExitAsWritten | BaseIO.PersistentBytesIO.Exit |
