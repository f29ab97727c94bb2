/** What `sanitize_dict` (options.py:108-119) and `_to_str`
    (options.py:153-164) promise: sanitizing keeps every key and yields a
    dict of dumpable kinds, and it is idempotent; printing skips every
    attribute whose name ends in `_` and prints one line per attribute. */
module OutputLaws {
  import opened Values
  import opened Options
  import opened NamespaceLaws

  // ---------------------------------------------------------------------
  // sanitize_dict

  /** A dict that `yaml.safe_dump` accepts as it is: distinct keys, values of
      the kinds `sanitize_dict` lets through, and the same for nested dicts. */
  predicate Dumpable(d: Entries)
    decreases Dict(d)
  {
    && DistinctKeys(d)
    && (forall i :: 0 <= i < |d| ==> Representable(d[i].1))
    && (forall i :: 0 <= i < |d| && d[i].1.Dict? ==> Dumpable(d[i].1.entries))
  }

  /** Every entry of `d[k] = x` is `(k, x)` or an entry `d` had. */
  lemma {:induction false} PutEntries(e: Entries, k: string, x: Value)
    ensures forall i :: 0 <= i < |Put(e, k, x)| ==> Put(e, k, x)[i] == (k, x) || Put(e, k, x)[i] in e
  {
    if e != [] && e[0].0 != k {
      PutEntries(e[1..], k, x);
      var r := Put(e, k, x);
      assert r == [e[0]] + Put(e[1..], k, x);
      forall i | 0 <= i < |r| ensures r[i] == (k, x) || r[i] in e {
        if i > 0 {
          assert r[i] == Put(e[1..], k, x)[i - 1];
        }
      }
    }
  }

  /** The value `sanitize_dict` stores for `v`: nested dicts sanitized,
      the kinds it lets through as they are, anything else as the string
      `str(v)`. */
  predicate SanitizedAs(v: Value, show: Value -> string, got: Value)
    decreases v, 2
  {
    if v.Dict? then got == Dict(Sanitized(v.entries, show))
    else if Representable(v) then got == v
    else got == Str(show(v))
  }

  lemma {:induction false} SanitizedLookupUpTo(d: Entries, show: Value -> string, n: nat, k: string)
    requires n <= |d| && DistinctKeys(d)
    ensures var r := Get(SanitizedUpTo(d, show, n), k);
            match Get(d[..n], k)
            case None => r.None?
            case Some(v) => r.Some? && SanitizedAs(v, show, r.value)
  {
    if n > 0 {
      var (kk, vv) := d[n - 1];
      var acc := SanitizedUpTo(d, show, n - 1);
      SanitizedLookupUpTo(d, show, n - 1, k);
      TakeSnoc(d, n);
      assert kk !in Keys(d[..n - 1]) by {
        assert forall j :: 0 <= j < n - 1 ==> Keys(d[..n - 1])[j] == d[j].0;
      }
      GetAppend(d[..n - 1], kk, vv, k);
      var x := if vv.Dict? then Dict(Sanitized(vv.entries, show))
               else if Representable(vv) then vv else Str(show(vv));
      GetPut(acc, kk, x, k);
    }
  }

  /** The sanitized dict holds exactly the keys of `d`, each with its value
      sanitized. */
  lemma {:induction false} SanitizedLookup(d: Entries, show: Value -> string, k: string)
    requires DistinctKeys(d)
    ensures var r := Get(Sanitized(d, show), k);
            && (r.Some? <==> Get(d, k).Some?)
            && (Get(d, k).Some? ==> SanitizedAs(Get(d, k).value, show, r.value))
  {
    SanitizedLookupUpTo(d, show, |d|, k);
    assert d[..|d|] == d;
  }

  lemma {:induction false} SanitizedKeysUpTo(d: Entries, show: Value -> string, n: nat)
    requires n <= |d| && DistinctKeys(d)
    ensures Keys(SanitizedUpTo(d, show, n)) == Keys(d[..n])
  {
    if n > 0 {
      SanitizedKeysUpTo(d, show, n - 1);
      assert d[n - 1].0 !in Keys(d[..n - 1]) by {
        assert forall j :: 0 <= j < n - 1 ==> Keys(d[..n - 1])[j] == d[j].0;
      }
      SanitizedKeysStep(d, show, n);
    }
  }

  lemma {:induction false} SanitizedKeysStep(d: Entries, show: Value -> string, n: nat)
    requires 0 < n <= |d|
    requires Keys(SanitizedUpTo(d, show, n - 1)) == Keys(d[..n - 1])
    requires d[n - 1].0 !in Keys(d[..n - 1])
    ensures Keys(SanitizedUpTo(d, show, n)) == Keys(d[..n])
  {
    var (kk, vv) := d[n - 1];
    var acc := SanitizedUpTo(d, show, n - 1);
    TakeSnoc(d, n);
    KeysAppend(d[..n - 1], [(kk, vv)]);
    assert Keys(d[..n]) == Keys(acc) + [kk];
    if vv.Dict? {
      PutKeys(acc, kk, Dict(Sanitized(vv.entries, show)));
    } else if Representable(vv) {
      PutKeys(acc, kk, vv);
    } else {
      PutKeys(acc, kk, Str(show(vv)));
    }
  }

  /** Sanitizing keeps every key, in its place. */
  lemma {:induction false} SanitizedKeys(d: Entries, show: Value -> string)
    requires DistinctKeys(d)
    ensures Keys(Sanitized(d, show)) == Keys(d)
  {
    SanitizedKeysUpTo(d, show, |d|);
    assert d[..|d|] == d;
  }

  lemma {:induction false} SanitizedDumpableUpTo(d: Entries, show: Value -> string, n: nat)
    requires n <= |d|
    ensures var r := SanitizedUpTo(d, show, n);
            && DistinctKeys(r)
            && (forall i :: 0 <= i < |r| ==> Representable(r[i].1))
            && (forall i :: 0 <= i < |r| && r[i].1.Dict? ==> Dumpable(r[i].1.entries))
    decreases Dict(d), 0, n
  {
    if n > 0 {
      var (kk, vv) := d[n - 1];
      var acc := SanitizedUpTo(d, show, n - 1);
      SanitizedDumpableUpTo(d, show, n - 1);
      var x := if vv.Dict? then Dict(Sanitized(vv.entries, show))
               else if Representable(vv) then vv else Str(show(vv));
      if vv.Dict? {
        SanitizedDumpable(vv.entries, show);
      }
      assert Representable(x) && (x.Dict? ==> Dumpable(x.entries));
      assert SanitizedUpTo(d, show, n) == Put(acc, kk, x);
      PutKeepsDumpable(acc, kk, x);
    }
  }

  /** Putting a dumpable value into a dumpable dict keeps it dumpable. */
  lemma {:induction false} PutKeepsDumpable(acc: Entries, kk: string, x: Value)
    requires DistinctKeys(acc)
    requires forall i :: 0 <= i < |acc| ==> Representable(acc[i].1)
    requires forall i :: 0 <= i < |acc| && acc[i].1.Dict? ==> Dumpable(acc[i].1.entries)
    requires Representable(x) && (x.Dict? ==> Dumpable(x.entries))
    ensures var r := Put(acc, kk, x);
            && DistinctKeys(r)
            && (forall i :: 0 <= i < |r| ==> Representable(r[i].1))
            && (forall i :: 0 <= i < |r| && r[i].1.Dict? ==> Dumpable(r[i].1.entries))
  {
    PutDistinct(acc, kk, x);
    PutEntries(acc, kk, x);
    var r := Put(acc, kk, x);
    forall i | 0 <= i < |r|
      ensures Representable(r[i].1) && (r[i].1.Dict? ==> Dumpable(r[i].1.entries))
    {
      if r[i] != (kk, x) {
        var j :| 0 <= j < |acc| && acc[j] == r[i];
      }
    }
  }

  lemma {:induction false} SanitizedDumpable(d: Entries, show: Value -> string)
    ensures Dumpable(Sanitized(d, show))
    decreases Dict(d), 1
  {
    SanitizedDumpableUpTo(d, show, |d|);
  }

  lemma {:induction false} SanitizedFixedUpTo(d: Entries, show: Value -> string, n: nat)
    requires n <= |d| && Dumpable(d)
    ensures SanitizedUpTo(d, show, n) == d[..n]
    decreases Dict(d), 0, n
  {
    if n > 0 {
      var (kk, vv) := d[n - 1];
      SanitizedFixedUpTo(d, show, n - 1);
      assert Representable(d[n - 1].1);
      if vv.Dict? {
        assert Dumpable(d[n - 1].1.entries);
        SanitizedFixed(vv.entries, show);
      }
      assert SanitizedUpTo(d, show, n) == Put(d[..n - 1], kk, vv);
      assert kk !in Keys(d[..n - 1]) by {
        assert forall j :: 0 <= j < n - 1 ==> Keys(d[..n - 1])[j] == d[j].0;
      }
      PutAbsent(d[..n - 1], kk, vv);
      TakeSnoc(d, n);
    }
  }

  /** A dict that is already dumpable comes back unchanged. */
  lemma {:induction false} SanitizedFixed(d: Entries, show: Value -> string)
    requires Dumpable(d)
    ensures Sanitized(d, show) == d
    decreases Dict(d), 1
  {
    SanitizedFixedUpTo(d, show, |d|);
    assert d[..|d|] == d;
  }

  /** Sanitizing twice is sanitizing once. */
  lemma {:induction false} SanitizedIdempotent(d: Entries, show: Value -> string)
    ensures Sanitized(Sanitized(d, show), show) == Sanitized(d, show)
  {
    SanitizedDumpable(d, show);
    SanitizedFixed(Sanitized(d, show), show);
  }

  /** `None` is not among the kinds let through, so it is saved as the
      string `str(None)`; a path is saved as its string. */
  lemma {:induction false} SanitizedNoneExample(show: Value -> string)
    ensures Sanitized([("seed", Null), ("out_dir", Path(["results"])), ("lr", Float(0.1))], show)
         == [("seed", Str(show(Null))), ("out_dir", Str(show(Path(["results"])))), ("lr", Float(0.1))]
  {
    var d := [("seed", Null), ("out_dir", Path(["results"])), ("lr", Float(0.1))];
    var r1 := [("seed", Str(show(Null)))];
    var r2 := r1 + [("out_dir", Str(show(Path(["results"]))))];
    assert SanitizedUpTo(d, show, 1) == r1;
    assert Keys(r1) == ["seed"];
    PutAbsent(r1, "out_dir", Str(show(Path(["results"]))));
    assert SanitizedUpTo(d, show, 2) == r2;
    assert Keys(r2) == ["seed", "out_dir"];
    PutAbsent(r2, "lr", Float(0.1));
  }

  // ---------------------------------------------------------------------
  // _to_str

  /** `f"{key:>{len(key) + indent}s}"` is the key behind `indent` spaces. */
  lemma {:induction false} AlignRightIndents(key: string, indent: nat)
    ensures AlignRight(key, |key| + indent) == Spaces(indent) + key
  {
  }

  /** The attributes `_to_str` prints: those whose name does not end in `_`. */
  function Visible(attrs: Entries): (r: Entries)
    ensures forall i :: 0 <= i < |r| ==> !EndsWithUnderscore(r[i].0)
    ensures forall e :: e in r <==> e in attrs && !EndsWithUnderscore(e.0)
  {
    if attrs == [] then []
    else
      var rest := Visible(attrs[..|attrs| - 1]);
      assert attrs == attrs[..|attrs| - 1] + [attrs[|attrs| - 1]];
      if EndsWithUnderscore(attrs[|attrs| - 1].0) then rest
      else rest + [attrs[|attrs| - 1]]
  }

  /** What `_to_str` prints for one attribute. */
  function Line(key: string, value: Value, indent: nat, show: Value -> string): string
    decreases Opt([(key, value)]), 2
  {
    if EndsWithUnderscore(key) then ""
    else
      var head := AlignRight(key, |key| + indent) + ": ";
      if value.Opt? then head + "\n" + Rendered(value.attrs, indent + 2, show)
      else head + show(value) + "\n"
  }

  lemma {:induction false} RenderedPrefix(a: Entries, b: Entries, indent: nat, show: Value -> string, m: nat)
    requires m <= |a| && m <= |b| && a[..m] == b[..m]
    ensures RenderedUpTo(a, indent, show, m) == RenderedUpTo(b, indent, show, m)
  {
    if m > 0 {
      assert a[..m - 1] == b[..m - 1];
      assert a[m - 1] == a[..m][m - 1] == b[..m][m - 1] == b[m - 1];
      RenderedPrefix(a, b, indent, show, m - 1);
      RenderedSameStep(a, b, indent, show, m);
    }
  }

  lemma {:induction false} RenderedSameStep(a: Entries, b: Entries, indent: nat, show: Value -> string, m: nat)
    requires 0 < m <= |a| && m <= |b| && a[m - 1] == b[m - 1]
    requires RenderedUpTo(a, indent, show, m - 1) == RenderedUpTo(b, indent, show, m - 1)
    ensures RenderedUpTo(a, indent, show, m) == RenderedUpTo(b, indent, show, m)
  {
  }

  /** The text is the attributes' lines, one after the other. */
  lemma {:induction false} RenderedSnoc(a: Entries, key: string, value: Value, indent: nat, show: Value -> string)
    ensures Rendered(a + [(key, value)], indent, show) == Rendered(a, indent, show) + Line(key, value, indent, show)
  {
    var c := a + [(key, value)];
    TakeAppend(a, [(key, value)]);
    RenderedPrefix(c, a, indent, show, |a|);
    assert c[|a|] == (key, value);
    var s := Rendered(a, indent, show);
    var head := AlignRight(key, |key| + indent) + ": ";
    if EndsWithUnderscore(key) {
    } else if value.Opt? {
      var t := Rendered(value.attrs, indent + 2, show);
      AppendAssoc(s, head, "\n");
      AppendAssoc(s, head + "\n", t);
    } else {
      AppendAssoc(s, head, show(value));
      AppendAssoc(s, head + show(value), "\n");
    }
  }

  /** Printing a concatenation prints the two parts one after the other. */
  lemma {:induction false} RenderedConcat(a: Entries, b: Entries, indent: nat, show: Value -> string)
    ensures Rendered(a + b, indent, show) == Rendered(a, indent, show) + Rendered(b, indent, show)
    decreases |b|
  {
    if b != [] {
      var b' := b[..|b| - 1];
      var (key, value) := b[|b| - 1];
      assert b == b' + [(key, value)];
      assert a + b == (a + b') + [(key, value)];
      RenderedConcat(a, b', indent, show);
      RenderedSnoc(a + b', key, value, indent, show);
      RenderedSnoc(b', key, value, indent, show);
    } else {
      assert a + b == a;
    }
  }

  /** Attributes whose name ends in `_` are skipped: the text is the text of
      the visible attributes alone. */
  lemma {:induction false} RenderedSkipsUnderscored(attrs: Entries, indent: nat, show: Value -> string)
    ensures Rendered(attrs, indent, show) == Rendered(Visible(attrs), indent, show)
    decreases |attrs|
  {
    if attrs != [] {
      var prev := attrs[..|attrs| - 1];
      var (key, value) := attrs[|attrs| - 1];
      assert attrs == prev + [(key, value)];
      RenderedSkipsUnderscored(prev, indent, show);
      RenderedSnoc(prev, key, value, indent, show);
      if !EndsWithUnderscore(key) {
        RenderedSnoc(Visible(prev), key, value, indent, show);
      }
    }
  }

  /** The namespace of `{"message_": {"x": 1}}` prints one line, for the
      bare alias, with the dict shown by `str` and not expanded. */
  lemma {:induction false} DualStoragePrintExample(show: Value -> string)
    ensures Rendered(Namespace([("message_", Dict([("x", Int(1))]))]), 0, show)
         == "message: " + show(Dict([("x", Int(1))])) + "\n"
  {
    DualStorageExample();
    var v := Dict([("x", Int(1))]);
    RenderedSnoc([], "message", v, 0, show);
    assert [] + [("message", v)] == [("message", v)];
    RenderedSnoc([("message", v)], "message_", v, 0, show);
    assert [("message", v)] + [("message_", v)] == [("message", v), ("message_", v)];
    assert !EndsWithUnderscore("message") && EndsWithUnderscore("message_");
    assert Spaces(0) + "message" == "message";
  }
}
