/** What `dumb_down` guarantees: plain output without dates, idempotence when it
    parses no strings, and which entries of a mapping survive with which keys. */
module BaseProperties {
  import opened Values
  import opened PyText
  import opened Candidates
  import opened Base

  // ---------------------------------------------------------------------------
  // Output kinds.

  lemma DumbDownPlain(lib: Builtins, f: Flags, v: Value)
    requires !f.allowDate && !f.parseDate
    ensures PlainTree(DumbDown(lib, f, v))
    decreases Size(v), 0
  {
    if v.Map? {
      DumbEntriesPlain(lib, f, v.entries);
    } else if v.List? || v.Iter? {
      DumbItemsPlain(lib, f, v.items);
    } else if v.Str? && f.parseStr {
      SpecialPlain();
    }
  }

  lemma SpecialPlain()
    ensures forall t :: t in Special ==> PlainTree(Special[t])
  {
    SpecialValues();
  }

  lemma {:induction false} DumbItemsPlain(lib: Builtins, f: Flags, xs: seq<Value>)
    requires !f.allowDate && !f.parseDate
    ensures PlainItems(DumbItems(lib, f, xs))
    decreases SizeSeq(xs), 1
  {
    if xs != [] {
      DumbDownPlain(lib, f, xs[0]);
      DumbItemsPlain(lib, f, xs[1..]);
    }
  }

  lemma {:induction false} DumbEntriesPlain(lib: Builtins, f: Flags, es: seq<(Value, Value)>)
    requires !f.allowDate && !f.parseDate
    ensures PlainEntries(DumbEntries(lib, f, es))
    decreases SizeEntries(es), 1
  {
    if es != [] {
      SizeEntriesSnoc(es);
      var acc := DumbEntries(lib, f, es[..|es| - 1]);
      DumbEntriesPlain(lib, f, es[..|es| - 1]);
      var e := es[|es| - 1];
      if Kept(f, e) {
        var k := DumbDown(lib, DefaultFlags, e.0);
        var v := DumbDown(lib, f, e.1);
        DumbDownPlain(lib, DefaultFlags, e.0);
        DumbDownPlain(lib, f, e.1);
        PutEntries(acc, k, v);
        var r := Put(acc, k, v);
        forall i | 0 <= i < |r| ensures PlainEntry(r[i]) {
          assert r[i] in r;
        }
      }
    }
  }

  /** Without string parsing only None becomes None. */
  lemma NullOnlyFromNull(lib: Builtins, f: Flags, v: Value)
    requires !f.parseStr
    ensures DumbDown(lib, f, v).Null? <==> v.Null?
  {
    if v.Str? && f.parseDate {
      assert Str2DateTime(lib, v.s).IsTemporal() || Str2DateTime(lib, v.s).Str?;
    }
  }

  // ---------------------------------------------------------------------------
  // The mapping comprehension.

  /** The value the last kept entry whose key converts to `key` assigns. */
  function LastKept(lib: Builtins, f: Flags, es: seq<(Value, Value)>, key: Value): Option<Value> {
    if es == [] then None
    else
      var e := es[|es| - 1];
      if Kept(f, e) && DumbDown(lib, DefaultFlags, e.0) == key then Some(DumbDown(lib, f, e.1))
      else LastKept(lib, f, es[..|es| - 1], key)
  }

  /** Keys are converted with the default flags, values with the caller's, and
      a later entry with the same converted key wins. */
  lemma {:induction false} DumbEntriesLookup(lib: Builtins, f: Flags, es: seq<(Value, Value)>, key: Value)
    ensures Lookup(DumbEntries(lib, f, es), key) == LastKept(lib, f, es, key)
  {
    if es != [] {
      var prefix := es[..|es| - 1];
      DumbEntriesLookup(lib, f, prefix, key);
      var e := es[|es| - 1];
      if Kept(f, e) {
        PutLookup(DumbEntries(lib, f, prefix), DumbDown(lib, DefaultFlags, e.0), DumbDown(lib, f, e.1), key);
      }
    }
  }

  /** A converted key is present exactly when some kept entry has it: an entry
      is dropped iff `skip_none` holds and its key or its value is None. */
  lemma {:induction false} LastKeptPresent(lib: Builtins, f: Flags, es: seq<(Value, Value)>, key: Value)
    ensures LastKept(lib, f, es, key).Some? <==>
              exists i :: 0 <= i < |es| && Kept(f, es[i]) && DumbDown(lib, DefaultFlags, es[i].0) == key
  {
    if es != [] {
      var n := |es| - 1;
      var prefix := es[..n];
      LastKeptPresent(lib, f, prefix, key);
      assert forall i :: 0 <= i < n ==> prefix[i] == es[i];
      if LastKept(lib, f, es, key).Some? && !(Kept(f, es[n]) && DumbDown(lib, DefaultFlags, es[n].0) == key) {
        var i :| 0 <= i < n && Kept(f, prefix[i]) && DumbDown(lib, DefaultFlags, prefix[i].0) == key;
        assert es[i] == prefix[i];
      }
    }
  }

  lemma {:induction false} DumbEntriesUnique(lib: Builtins, f: Flags, es: seq<(Value, Value)>)
    ensures UniqueKeys(DumbEntries(lib, f, es))
  {
    if es != [] {
      var prefix := es[..|es| - 1];
      DumbEntriesUnique(lib, f, prefix);
      var e := es[|es| - 1];
      if Kept(f, e) {
        PutUnique(DumbEntries(lib, f, prefix), DumbDown(lib, DefaultFlags, e.0), DumbDown(lib, f, e.1));
      }
    }
  }

  /** Every key of the result converts a kept entry's key, every value a kept
      entry's value. */
  lemma DumbEntriesOrigin(lib: Builtins, f: Flags, es: seq<(Value, Value)>)
    ensures forall e :: e in DumbEntries(lib, f, es) ==>
              (exists i :: 0 <= i < |es| && Kept(f, es[i]) && e.0 == DumbDown(lib, DefaultFlags, es[i].0))
              && (exists i :: 0 <= i < |es| && Kept(f, es[i]) && e.1 == DumbDown(lib, f, es[i].1))
  {
    forall e | e in DumbEntries(lib, f, es)
      ensures exists i :: 0 <= i < |es| && Kept(f, es[i]) && e.0 == DumbDown(lib, DefaultFlags, es[i].0)
      ensures exists i :: 0 <= i < |es| && Kept(f, es[i]) && e.1 == DumbDown(lib, f, es[i].1)
    {
      var i := EntryOrigin(lib, f, es, e);
    }
  }

  /** The index of the kept entry a result pair came from: its key converts that
      entry's key and its value that entry's value, up to a later entry with the
      same converted key. */
  lemma {:induction false} EntryOrigin(lib: Builtins, f: Flags, es: seq<(Value, Value)>, e: (Value, Value))
    returns (i: nat)
    requires e in DumbEntries(lib, f, es)
    ensures i < |es| && Kept(f, es[i]) && e.1 == DumbDown(lib, f, es[i].1)
    ensures exists j :: 0 <= j < |es| && Kept(f, es[j]) && e.0 == DumbDown(lib, DefaultFlags, es[j].0)
  {
    var n := |es| - 1;
    var prefix := es[..n];
    var acc := DumbEntries(lib, f, prefix);
    var k := DumbDown(lib, DefaultFlags, es[n].0);
    if Kept(f, es[n]) && e == (k, DumbDown(lib, f, es[n].1)) {
      i := n;
    } else {
      if Kept(f, es[n]) {
        PutEntries(acc, k, DumbDown(lib, f, es[n].1));
      }
      assert e in acc;
      i := EntryOrigin(lib, f, prefix, e);
      assert prefix[i] == es[i];
      var j :| 0 <= j < |prefix| && Kept(f, prefix[j]) && e.0 == DumbDown(lib, DefaultFlags, prefix[j].0);
      assert prefix[j] == es[j];
    }
  }

  // ---------------------------------------------------------------------------
  // Idempotence when no strings are parsed.

  /** With `parse_str` and `parse_date` off, a second pass changes nothing. */
  lemma DumbDownIdempotent(lib: Builtins, f: Flags, v: Value)
    requires !f.parseStr && !f.parseDate
    ensures DumbDown(lib, f, DumbDown(lib, f, v)) == DumbDown(lib, f, v)
    decreases Size(v), 0
  {
    if v.Map? {
      DumbEntriesIdempotent(lib, f, v.entries);
    } else if v.List? || v.Iter? {
      DumbItemsIdempotent(lib, f, v.items);
    }
  }

  lemma {:induction false} DumbItemsIdempotent(lib: Builtins, f: Flags, xs: seq<Value>)
    requires !f.parseStr && !f.parseDate
    ensures DumbItems(lib, f, DumbItems(lib, f, xs)) == DumbItems(lib, f, xs)
    decreases SizeSeq(xs), 1
  {
    if xs != [] {
      var ys := DumbItems(lib, f, xs);
      assert ys[0] == DumbDown(lib, f, xs[0]) && ys[1..] == DumbItems(lib, f, xs[1..]);
      DumbDownIdempotent(lib, f, xs[0]);
      DumbItemsIdempotent(lib, f, xs[1..]);
    }
  }

  lemma {:induction false} SizeEntriesBound(es: seq<(Value, Value)>, i: int)
    requires 0 <= i < |es|
    ensures Size(es[i].0) + Size(es[i].1) <= SizeEntries(es)
  {
    if i > 0 {
      SizeEntriesBound(es[1..], i - 1);
    }
  }

  lemma DumbEntriesIdempotent(lib: Builtins, f: Flags, es: seq<(Value, Value)>)
    requires !f.parseStr && !f.parseDate
    ensures DumbEntries(lib, f, DumbEntries(lib, f, es)) == DumbEntries(lib, f, es)
    decreases SizeEntries(es), 1
  {
    var r := DumbEntries(lib, f, es);
    DumbEntriesUnique(lib, f, es);
    DumbEntriesOrigin(lib, f, es);
    forall e | e in r
      ensures Kept(f, e) && DumbDown(lib, DefaultFlags, e.0) == e.0 && DumbDown(lib, f, e.1) == e.1
    {
      var i :| 0 <= i < |es| && Kept(f, es[i]) && e.0 == DumbDown(lib, DefaultFlags, es[i].0);
      var j :| 0 <= j < |es| && Kept(f, es[j]) && e.1 == DumbDown(lib, f, es[j].1);
      SizeEntriesBound(es, i);
      SizeEntriesBound(es, j);
      DumbDownIdempotent(lib, DefaultFlags, es[i].0);
      DumbDownIdempotent(lib, f, es[j].1);
      NullOnlyFromNull(lib, DefaultFlags, es[i].0);
      NullOnlyFromNull(lib, f, es[j].1);
    }
    RefoldFixed(lib, f, r);
  }

  /** Folding a dict whose entries are all kept and already converted gives it
      back. */
  lemma {:induction false} RefoldFixed(lib: Builtins, f: Flags, r: seq<(Value, Value)>)
    requires UniqueKeys(r)
    requires forall e :: e in r ==>
               Kept(f, e) && DumbDown(lib, DefaultFlags, e.0) == e.0 && DumbDown(lib, f, e.1) == e.1
    ensures DumbEntries(lib, f, r) == r
  {
    if r != [] {
      var n := |r| - 1;
      var prefix := r[..n];
      assert forall e :: e in prefix ==> e in r;
      assert UniqueKeys(prefix) by {
        assert forall i :: 0 <= i < n ==> prefix[i] == r[i];
      }
      RefoldFixed(lib, f, prefix);
      assert r[n] in r;
      PutRebuilds(r);
    }
  }

  // ---------------------------------------------------------------------------
  // Strings.

  /** Token keys are words, so no rendering of an int is one. */
  lemma IntTextNotSpecial(i: int)
    ensures IntToString(i) !in Special
  {
    var t := IntToString(i);
    assert t[0] == '-' || '0' <= t[0] <= '9';
  }

  /** Numbers are tried before dates: a canonical int stays an int even when
      dates are parsed and the text would also parse as a date. */
  lemma NumbersBeforeDates(lib: Builtins, data: string, i: int)
    requires Strip(CaseFold(data)) == IntToString(i)
    ensures Str2SimpleType(lib, data, true) == Int(i)
  {
    IntTextNotSpecial(i);
    IntTextFound(lib, i);
  }

  /** With neither parsing flag a text is returned unchanged; with only
      `parse_date` it is a date or time or else unchanged. */
  lemma StringsWithoutParseStr(lib: Builtins, f: Flags, s: string)
    requires !f.parseStr
    ensures !f.parseDate ==> DumbDown(lib, f, Str(s)) == Str(s)
    ensures f.parseDate ==> DumbDown(lib, f, Str(s)) == Str2DateTime(lib, s)
    ensures f.parseDate ==> DumbDown(lib, f, Str(s)).IsTemporal() || DumbDown(lib, f, Str(s)) == Str(s)
  {
  }
}
