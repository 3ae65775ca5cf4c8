/** The option-free `dumb_down` of the package's top level, the original of the
    flag-driven normaliser. */
module Legacy {
  import opened Values
  import Base
  import BaseProperties

  /** `dumb_down(data)`: None stays None, the simple types keep their base
      type, other numbers become int or float, mappings and iterables are
      converted element by element, anything else becomes its `str`. */
  function DumbDown(lib: Builtins, v: Value): Value
    decreases Size(v), 0
  {
    if v.Null? then Null
    else if v.Bool? || v.Int? || v.Float? || v.Str? then v
    else if IsNumber(v) && NumberCast(v).Some? then NumberCast(v).value
    else if v.Map? then Map(DumbEntries(lib, v.entries))
    else if v.List? || v.Iter? then List(DumbItems(lib, v.items))
    else Str(StrOf(lib, v))
  }

  function DumbItems(lib: Builtins, xs: seq<Value>): (r: seq<Value>)
    ensures |r| == |xs|
    decreases SizeSeq(xs), 1
  {
    if xs == [] then [] else [DumbDown(lib, xs[0])] + DumbItems(lib, xs[1..])
  }

  /** The unfiltered dict comprehension: keys and values both converted, a later
      duplicate converted key overwriting the earlier value. */
  function DumbEntries(lib: Builtins, es: seq<(Value, Value)>): seq<(Value, Value)>
    decreases SizeEntries(es), 1
  {
    if es == [] then []
    else
      SizeEntriesSnoc(es);
      var e := es[|es| - 1];
      Put(DumbEntries(lib, es[..|es| - 1]), DumbDown(lib, e.0), DumbDown(lib, e.1))
  }

  // ---------------------------------------------------------------------------
  // Agreement with the flag-driven normaliser.

  /** The original is the flag-driven normaliser with every flag off. */
  lemma Agrees(lib: Builtins, v: Value)
    ensures DumbDown(lib, v) == Base.DumbDown(lib, Base.DefaultFlags, v)
    decreases Size(v), 0
  {
    if v.Map? {
      EntriesAgree(lib, v.entries);
    } else if v.List? || v.Iter? {
      ItemsAgree(lib, v.items);
    }
  }

  lemma {:induction false} ItemsAgree(lib: Builtins, xs: seq<Value>)
    ensures DumbItems(lib, xs) == Base.DumbItems(lib, Base.DefaultFlags, xs)
    decreases SizeSeq(xs), 1
  {
    if xs != [] {
      Agrees(lib, xs[0]);
      ItemsAgree(lib, xs[1..]);
    }
  }

  lemma {:induction false} EntriesAgree(lib: Builtins, es: seq<(Value, Value)>)
    ensures DumbEntries(lib, es) == Base.DumbEntries(lib, Base.DefaultFlags, es)
    decreases SizeEntries(es), 1
  {
    if es != [] {
      SizeEntriesSnoc(es);
      var e := es[|es| - 1];
      EntriesAgree(lib, es[..|es| - 1]);
      Agrees(lib, e.0);
      Agrees(lib, e.1);
    }
  }

  // ---------------------------------------------------------------------------
  // What follows from the agreement.

  /** The output holds only None, bool, int, float, str, list and dict. */
  lemma OutputIsPlain(lib: Builtins, v: Value)
    ensures PlainTree(DumbDown(lib, v))
  {
    Agrees(lib, v);
    BaseProperties.DumbDownPlain(lib, Base.DefaultFlags, v);
  }

  /** A second pass changes nothing. */
  lemma Idempotent(lib: Builtins, v: Value)
    ensures DumbDown(lib, DumbDown(lib, v)) == DumbDown(lib, v)
  {
    Agrees(lib, v);
    Agrees(lib, DumbDown(lib, v));
    BaseProperties.DumbDownIdempotent(lib, Base.DefaultFlags, v);
  }

  /** Looking up a converted key finds the value of the last entry whose key
      converts to it; no entry is dropped. */
  lemma EntriesLookup(lib: Builtins, es: seq<(Value, Value)>, key: Value)
    ensures Lookup(DumbEntries(lib, es), key) == LastAssigned(lib, es, key)
  {
    EntriesAgree(lib, es);
    BaseProperties.DumbEntriesLookup(lib, Base.DefaultFlags, es, key);
    LastKeptIsLastAssigned(lib, es, key);
  }

  /** The value the last entry whose key converts to `key` assigns. */
  function LastAssigned(lib: Builtins, es: seq<(Value, Value)>, key: Value): Option<Value> {
    if es == [] then None
    else if DumbDown(lib, es[|es| - 1].0) == key then Some(DumbDown(lib, es[|es| - 1].1))
    else LastAssigned(lib, es[..|es| - 1], key)
  }

  lemma {:induction false} LastKeptIsLastAssigned(lib: Builtins, es: seq<(Value, Value)>, key: Value)
    ensures BaseProperties.LastKept(lib, Base.DefaultFlags, es, key) == LastAssigned(lib, es, key)
  {
    if es != [] {
      LastKeptIsLastAssigned(lib, es[..|es| - 1], key);
      Agrees(lib, es[|es| - 1].0);
      Agrees(lib, es[|es| - 1].1);
    }
  }

  // ---------------------------------------------------------------------------
  // Already simple trees.

  /** A tree of None, bool, int, float, str, list and dict whose dicts have
      distinct keys. */
  ghost predicate Simple(v: Value)
    decreases v, 2
  {
    match v
    case Null => true
    case Bool(_) => true
    case Int(_) => true
    case Float(_) => true
    case Str(_) => true
    case List(xs) => SimpleItems(xs)
    case Map(es) => UniqueKeys(es) && SimpleEntries(es)
    case _ => false
  }

  ghost predicate SimpleItems(xs: seq<Value>)
    decreases xs, 1
  {
    forall k :: 0 <= k < |xs| ==> Simple(xs[k])
  }

  ghost predicate SimpleEntries(es: seq<(Value, Value)>)
    decreases es, 1
  {
    forall k :: 0 <= k < |es| ==> SimpleEntry(es[k])
  }

  ghost predicate SimpleEntry(e: (Value, Value))
    decreases e, 0
  {
    Simple(e.0) && Simple(e.1)
  }

  /** An already simple tree comes back unchanged. */
  lemma SimpleIdentity(lib: Builtins, v: Value)
    requires Simple(v)
    ensures DumbDown(lib, v) == v
    decreases Size(v), 0
  {
    if v.Map? {
      SimpleEntriesIdentity(lib, v.entries);
    } else if v.List? {
      SimpleItemsIdentity(lib, v.items);
    }
  }

  lemma {:induction false} SimpleItemsIdentity(lib: Builtins, xs: seq<Value>)
    requires SimpleItems(xs)
    ensures DumbItems(lib, xs) == xs
    decreases SizeSeq(xs), 1
  {
    if xs != [] {
      assert Simple(xs[0]);
      SimpleIdentity(lib, xs[0]);
      assert SimpleItems(xs[1..]) by {
        assert forall k :: 0 <= k < |xs| - 1 ==> xs[1..][k] == xs[k + 1];
      }
      SimpleItemsIdentity(lib, xs[1..]);
    }
  }

  lemma SimpleEntriesIdentity(lib: Builtins, es: seq<(Value, Value)>)
    requires UniqueKeys(es) && SimpleEntries(es)
    ensures DumbEntries(lib, es) == es
    decreases SizeEntries(es), 1
  {
    forall e | e in es
      ensures Base.Kept(Base.DefaultFlags, e)
      ensures Base.DumbDown(lib, Base.DefaultFlags, e.0) == e.0
      ensures Base.DumbDown(lib, Base.DefaultFlags, e.1) == e.1
    {
      var i :| 0 <= i < |es| && es[i] == e;
      assert SimpleEntry(es[i]);
      BaseProperties.SizeEntriesBound(es, i);
      SimpleIdentity(lib, e.0);
      SimpleIdentity(lib, e.1);
      Agrees(lib, e.0);
      Agrees(lib, e.1);
    }
    BaseProperties.RefoldFixed(lib, Base.DefaultFlags, es);
    EntriesAgree(lib, es);
  }

  // ---------------------------------------------------------------------------
  // The package's own examples.

  /** The package's idempotency example: an already simple list, with a nested
      list and dict, comes back unchanged. */
  lemma AlreadySimpleUnchanged(lib: Builtins)
    ensures var d := Map([(Str("foo"), Int(42)), (Str("nothing"), Null)]);
            var inner := List([Str("hello"), Str("wold"), d]);
            var v := List([Int(1), Float(FloatVal("2.0", Some(2))), inner, Bool(true), Bool(false), Int(0)]);
            DumbDown(lib, v) == v
  {
    var d := Map([(Str("foo"), Int(42)), (Str("nothing"), Null)]);
    assert Simple(d) by {
      assert Str("foo") != Str("nothing");
      assert SimpleEntries(d.entries) by {
        assert forall k :: 0 <= k < |d.entries| ==> SimpleEntry(d.entries[k]) by {
          assert SimpleEntry(d.entries[0]) && SimpleEntry(d.entries[1]);
        }
      }
    }
    var inner := List([Str("hello"), Str("wold"), d]);
    assert Simple(inner) by {
      assert forall k :: 0 <= k < |inner.items| ==> Simple(inner.items[k]) by {
        assert Simple(inner.items[0]) && Simple(inner.items[1]) && Simple(inner.items[2]);
      }
    }
    var v := List([Int(1), Float(FloatVal("2.0", Some(2))), inner, Bool(true), Bool(false), Int(0)]);
    assert SimpleItems(v.items) by {
      assert forall k :: 0 <= k < |v.items| ==> Simple(v.items[k]) by {
        assert Simple(v.items[2]);
      }
    }
    SimpleIdentity(lib, v);
  }

  /** `{1, 2, 3}` becomes the list `[1, 2, 3]`. */
  lemma SetBecomesList(lib: Builtins)
    ensures DumbDown(lib, Iter([Int(1), Int(2), Int(3)])) == List([Int(1), Int(2), Int(3)])
  {
    var xs := [Int(1), Int(2), Int(3)];
    assert SimpleItems(xs) by {
      assert forall k :: 0 <= k < |xs| ==> xs[k].Int?;
    }
    SimpleItemsIdentity(lib, xs);
  }

  /** `Fraction(3, 4)`, which is no whole number, becomes the float 0.75. */
  lemma FractionBecomesFloat(lib: Builtins)
    ensures DumbDown(lib, Num(NumVal(None, Some(FloatVal("0.75", None)), "3/4"))) == Float(FloatVal("0.75", None))
  {
  }

  /** `Path("foo")` becomes the text "foo". */
  lemma ObjectBecomesText(lib: Builtins)
    ensures DumbDown(lib, Other("foo")) == Str("foo")
  {
  }
}
