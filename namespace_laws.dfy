/** What `from_dict` and `to_dict` (options.py:21-52) promise about each
    other: the `_` naming convention stores a value under two names, and
    `to_dict` drops the bare alias again. */
module NamespaceLaws {
  import opened Values
  import opened Options

  /** A dict in which no two keys differ only by trailing underscores and no
      value is a namespace, down through every dict that `from_dict` turns
      into a nested namespace. These are the dicts that survive the round
      trip through a namespace unchanged. */
  predicate Canonical(d: Entries)
    decreases Dict(d)
  {
    && DistinctNames(d)
    && (forall i :: 0 <= i < |d| ==> !d[i].1.Opt?)
    && (forall i :: 0 <= i < |d| && d[i].1.Dict? && !EndsWithUnderscore(d[i].0) ==>
          Canonical(d[i].1.entries))
  }

  /** The attributes one dict entry contributes to the namespace. */
  function EntryAttrs(key: string, value: Value): Entries
    decreases value, 2
  {
    if value.Dict? && !EndsWithUnderscore(key) then [(key, Opt(Namespace(value.entries)))]
    else if EndsWithUnderscore(key) then [(RStrip(key), value), (key, value)]
    else [(key, value)]
  }

  /** The attributes of the first `n` entries, one entry after the other. */
  function Concat(d: Entries, n: nat): Entries
    requires n <= |d|
  {
    if n == 0 then [] else Concat(d, n - 1) + EntryAttrs(d[n - 1].0, d[n - 1].1)
  }

  lemma {:induction false} RStripTwice(s: string)
    ensures RStrip(RStrip(s)) == RStrip(s)
  {
    RStripUnchanged(RStrip(s));
  }

  /** Names among the attributes of the first `n` entries come from those
      entries: the key itself or the key without its trailing underscores. */
  lemma {:induction false} ConcatNames(d: Entries, n: nat, x: string)
    requires n <= |d|
    requires x in Keys(Concat(d, n))
    ensures exists j :: 0 <= j < n && (x == RStrip(d[j].0) || x == d[j].0)
  {
    if n > 0 {
      var (key, value) := d[n - 1];
      KeysAppend(Concat(d, n - 1), EntryAttrs(key, value));
      if x in Keys(Concat(d, n - 1)) {
        ConcatNames(d, n - 1, x);
      } else {
        EntryAttrsNames(key, value, x);
        assert 0 <= n - 1 < n && (x == RStrip(d[n - 1].0) || x == d[n - 1].0);
      }
    }
  }

  /** The names one entry contributes: its key, and the key stripped. */
  lemma {:induction false} EntryAttrsNames(key: string, value: Value, x: string)
    requires x in Keys(EntryAttrs(key, value))
    ensures x == RStrip(key) || x == key
  {
    if !EndsWithUnderscore(key) {
      RStripUnchanged(key);
    }
  }

  /** No two keys of `d` name the same attribute once trailing underscores
      are stripped. */
  predicate DistinctNames(d: Entries) {
    forall i, j :: 0 <= i < j < |d| ==> RStrip(d[i].0) != RStrip(d[j].0)
  }

  /** The `n`-th entry's two names are new among the attributes the entries
      before it produced. */
  lemma {:induction false} NamesFreshInConcat(d: Entries, n: nat)
    requires 0 < n <= |d| && DistinctNames(d)
    ensures RStrip(d[n - 1].0) !in Keys(Concat(d, n - 1))
    ensures d[n - 1].0 !in Keys(Concat(d, n - 1))
  {
    var key := d[n - 1].0;
    RStripTwice(key);
    if RStrip(key) in Keys(Concat(d, n - 1)) {
      ConcatNames(d, n - 1, RStrip(key));
    }
    if key in Keys(Concat(d, n - 1)) {
      ConcatNames(d, n - 1, key);
    }
  }

  /** The `n`-th entry's two names are new among the keys before it. */
  lemma {:induction false} NamesFreshInPrefix(d: Entries, n: nat)
    requires 0 < n <= |d| && DistinctNames(d)
    ensures RStrip(d[n - 1].0) !in Keys(d[..n - 1])
    ensures d[n - 1].0 !in Keys(d[..n - 1])
  {
    var key := d[n - 1].0;
    RStripTwice(key);
    assert forall j :: 0 <= j < n - 1 ==> Keys(d[..n - 1])[j] == d[j].0;
  }

  /** Without clashing names every `setattr` of `from_dict` adds a new
      attribute, so the namespace is the entries' attributes in order. */
  lemma {:induction false} NamespaceIsConcat(d: Entries, n: nat)
    requires n <= |d|
    requires DistinctNames(d)
    ensures NamespaceUpTo(d, n) == Concat(d, n)
  {
    if n > 0 {
      NamespaceIsConcat(d, n - 1);
      NamespaceIsConcatNext(d, n);
    }
  }

  lemma {:induction false} NamespaceIsConcatNext(d: Entries, n: nat)
    requires 0 < n <= |d| && DistinctNames(d)
    requires NamespaceUpTo(d, n - 1) == Concat(d, n - 1)
    ensures NamespaceUpTo(d, n) == Concat(d, n)
  {
    NamesFreshInConcat(d, n);
    var (key, value) := d[n - 1];
    var acc := Concat(d, n - 1);
    NamespaceStep(acc, key, value);
    assert Concat(d, n) == acc + EntryAttrs(key, value);
    assert NamespaceUpTo(d, n) ==
      if value.Dict? && !EndsWithUnderscore(key) then Put(acc, RStrip(key), Opt(Namespace(value.entries)))
      else Put(Put(acc, RStrip(key), value), key, value);
  }

  /** One `setattr` step of `from_dict` with both names new. */
  lemma {:induction false} NamespaceStep(acc: Entries, key: string, value: Value)
    requires RStrip(key) !in Keys(acc) && key !in Keys(acc)
    ensures (if value.Dict? && !EndsWithUnderscore(key) then Put(acc, RStrip(key), Opt(Namespace(value.entries)))
             else Put(Put(acc, RStrip(key), value), key, value))
         == acc + EntryAttrs(key, value)
  {
    var name := RStrip(key);
    if value.Dict? && !EndsWithUnderscore(key) {
      RStripUnchanged(key);
      PutAbsent(acc, name, Opt(Namespace(value.entries)));
    } else {
      PutAbsent(acc, name, value);
      if EndsWithUnderscore(key) {
        KeysAppend(acc, [(name, value)]);
        PutAbsent(acc + [(name, value)], key, value);
        assert acc + [(name, value)] + [(key, value)] == acc + EntryAttrs(key, value);
      } else {
        RStripUnchanged(key);
        PutKeysSame(acc + [(key, value)], key, value);
      }
    }
  }

  /** Assigning a key its current last value changes nothing. */
  lemma {:induction false} PutKeysSame(e: Entries, k: string, v: Value)
    requires e != [] && e[|e| - 1] == (k, v)
    requires k !in Keys(e[..|e| - 1])
    ensures Put(e, k, v) == e
  {
    if |e| > 1 {
      assert Keys(e[..|e| - 1]) == [e[0].0] + Keys(e[1..][..|e| - 2]);
      assert e[1..][..|e[1..]| - 1] == e[1..][..|e| - 2];
      PutKeysSame(e[1..], k, v);
    }
  }

  /** `to_dict`'s loop over the first `m` attributes sees only those. */
  lemma {:induction false} PlainDictPrefix(a: Entries, b: Entries, m: nat)
    requires m <= |a| && m <= |b| && a[..m] == b[..m]
    ensures PlainDictUpTo(a, m) == PlainDictUpTo(b, m)
  {
    if m > 0 {
      assert a[..m - 1] == b[..m - 1];
      assert a[m - 1] == a[..m][m - 1];
      PlainDictPrefix(a, b, m - 1);
    }
  }

  /** `to_dict` undoes `from_dict` on a canonical dict: a key ending in `_`
      was stored under two names, and the bare one is evicted again. */
  lemma {:induction false} RoundTrip(d: Entries)
    requires Canonical(d)
    ensures PlainDict(Namespace(d)) == d
    decreases Dict(d), 1, 0, 0
  {
    NamespaceIsConcat(d, |d|);
    RoundTripUpTo(d, |d|);
    assert d[..|d|] == d;
  }

  lemma {:induction false} RoundTripUpTo(d: Entries, n: nat)
    requires n <= |d|
    requires Canonical(d)
    ensures PlainDict(Concat(d, n)) == d[..n]
    decreases Dict(d), 0, n, 1
  {
    if n > 0 {
      RoundTripUpTo(d, n - 1);
      RoundTripEntry(d, n);
    }
  }

  /** The `n`-th entry survives once the entries before it did; a nested
      dict under it survives by the round trip one level down. */
  lemma {:induction false} RoundTripEntry(d: Entries, n: nat)
    requires 0 < n <= |d| && Canonical(d)
    requires PlainDict(Concat(d, n - 1)) == d[..n - 1]
    ensures PlainDict(Concat(d, n)) == d[..n]
    decreases Dict(d), 0, n, 0
  {
    CanonicalAt(d, n - 1);
    if d[n - 1].1.Dict? && !EndsWithUnderscore(d[n - 1].0) {
      RoundTrip(d[n - 1].1.entries);
    }
    RoundTripNext(d, n);
  }

  lemma {:induction false} CanonicalAt(d: Entries, i: nat)
    requires Canonical(d) && i < |d|
    ensures DistinctNames(d) && !d[i].1.Opt?
    ensures d[i].1.Dict? && !EndsWithUnderscore(d[i].0) ==> Canonical(d[i].1.entries)
  {
  }

  /** One more entry of a canonical dict survives the round trip once the
      entries before it did, and a nested dict under it did too. */
  lemma {:induction false} RoundTripNext(d: Entries, n: nat)
    requires 0 < n <= |d| && DistinctNames(d)
    requires !d[n - 1].1.Opt?
    requires d[n - 1].1.Dict? && !EndsWithUnderscore(d[n - 1].0) ==>
             PlainDict(Namespace(d[n - 1].1.entries)) == d[n - 1].1.entries
    requires PlainDict(Concat(d, n - 1)) == d[..n - 1]
    ensures PlainDict(Concat(d, n)) == d[..n]
  {
    NamesFreshInPrefix(d, n);
    var (key, value) := d[n - 1];
    RoundTripStep(Concat(d, n - 1), d[..n - 1], key, value);
    assert Concat(d, n) == Concat(d, n - 1) + EntryAttrs(key, value);
    TakeSnoc(d, n);
  }

  /** One entry of the round trip: its attributes, appended to attributes
      that `to_dict` turns into `acc`, extend `acc` by the entry. */
  lemma {:induction false} RoundTripStep(prev: Entries, acc: Entries, key: string, value: Value)
    requires PlainDict(prev) == acc
    requires RStrip(key) !in Keys(acc) && key !in Keys(acc)
    requires !value.Opt?
    requires value.Dict? && !EndsWithUnderscore(key) ==> PlainDict(Namespace(value.entries)) == value.entries
    ensures PlainDict(prev + EntryAttrs(key, value)) == acc + [(key, value)]
  {
    var cur := prev + EntryAttrs(key, value);
    assert cur[..|prev|] == prev[..|prev|];
    PlainDictPrefix(cur, prev, |prev|);
    if EndsWithUnderscore(key) {
      assert EntryAttrs(key, value) == [(RStrip(key), value), (key, value)];
      AliasStep(prev, acc, key, value);
    } else {
      RStripUnchanged(key);
      var attr := if value.Dict? then Opt(Namespace(value.entries)) else value;
      assert EntryAttrs(key, value) == [(key, attr)];
      SingleStep(prev, acc, key, attr, value);
    }
  }

  /** A key ending in `_`: the bare alias is stored first and evicted when
      the key itself is stored. */
  lemma {:induction false} AliasStep(prev: Entries, acc: Entries, key: string, value: Value)
    requires EndsWithUnderscore(key)
    requires PlainDictUpTo(prev + [(RStrip(key), value), (key, value)], |prev|) == acc
    requires RStrip(key) !in Keys(acc) && key !in Keys(acc)
    requires !value.Opt?
    ensures PlainDict(prev + [(RStrip(key), value), (key, value)]) == acc + [(key, value)]
  {
    var name := RStrip(key);
    var cur := prev + [(name, value), (key, value)];
    RStripTwice(key);
    assert cur[|prev|] == (name, value) && cur[|prev| + 1] == (key, value);
    StoredLast(cur, |prev|, acc, value);
    assert PlainDictUpTo(cur, |prev| + 1) == acc + [cur[|prev|]];
    KeysAppend(acc, [(name, value)]);
    assert name in Keys(acc + [cur[|prev|]]);
    AliasEvicted(cur, |prev|, acc, key);
    assert PlainDict(cur) == PlainDictUpTo(cur, |prev| + 2);
  }

  /** An attribute whose name is its own stripped name and is new to the
      dict goes last, converted as `to_dict` converts it. */
  lemma {:induction false} StoredLast(cur: Entries, m: nat, acc: Entries, x: Value)
    requires m < |cur| && PlainDictUpTo(cur, m) == acc
    requires RStrip(cur[m].0) == cur[m].0 && cur[m].0 !in Keys(acc)
    requires x == if cur[m].1.Opt? then Dict(PlainDict(cur[m].1.attrs)) else cur[m].1
    ensures PlainDictUpTo(cur, m + 1) == acc + [(cur[m].0, x)]
  {
    PutAbsent(acc, cur[m].0, x);
  }

  /** Storing the `_` key evicts the alias it was stored with. */
  lemma {:induction false} AliasEvicted(cur: Entries, m: nat, acc: Entries, key: string)
    requires m + 1 < |cur| && PlainDictUpTo(cur, m + 1) == acc + [cur[m]]
    requires cur[m + 1] == (key, cur[m].1) && cur[m].0 == RStrip(key)
    requires !cur[m].1.Opt? && cur[m].0 !in Keys(acc) && key !in Keys(acc)
    requires RStrip(key) in Keys(acc + [cur[m]])
    ensures PlainDictUpTo(cur, m + 2) == acc + [(key, cur[m].1)]
  {
    PopLast(acc, cur[m].0, cur[m].1);
    PutAbsent(acc, key, cur[m].1);
  }

  /** Any other key: one attribute, stored under the same name, that
      `to_dict` turns back into `value`. */
  lemma {:induction false} SingleStep(prev: Entries, acc: Entries, key: string, attr: Value, value: Value)
    requires RStrip(key) == key
    requires PlainDictUpTo(prev + [(key, attr)], |prev|) == acc
    requires key !in Keys(acc)
    requires value == if attr.Opt? then Dict(PlainDict(attr.attrs)) else attr
    ensures PlainDict(prev + [(key, attr)]) == acc + [(key, value)]
  {
    var cur := prev + [(key, attr)];
    assert cur[|prev|] == (key, attr);
    StoredLast(cur, |prev|, acc, value);
  }

  /** The dual storage of a `_` key, on the example `{"message_": {"x": 1}}`:
      the namespace holds the dict unexpanded under both names, and `to_dict`
      gives back only the `_` entry. */
  lemma {:induction false} DualStorageExample()
    ensures var d := [("message_", Dict([("x", Int(1))]))];
            && Namespace(d) == [("message", Dict([("x", Int(1))])), ("message_", Dict([("x", Int(1))]))]
            && PlainDict(Namespace(d)) == d
  {
    var d := [("message_", Dict([("x", Int(1))]))];
    assert RStrip("message_") == "message" by {
      assert "message_"[..|"message_"| - 1] == "message";
    }
    var v := Dict([("x", Int(1))]);
    assert NamespaceUpTo(d, 1) == Put(Put([], "message", v), "message_", v);
    assert Put([], "message", v) == [("message", v)];
    assert Put([("message", v)], "message_", v) == [("message", v), ("message_", v)];
    RoundTrip(d);
  }
}
