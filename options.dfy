/** The configuration container `Opt` of options.py: conversion between nested
    dicts and namespaces, flattening to dot-path keys and back, the deep merge,
    sanitizing before serialization and the indented rendering.

    Every operation appears twice: a specification function that folds over
    the first `n` entries of its input (so that termination is by the nesting
    of the value and then by `n`), and a method that runs the source's loop
    and is proved to compute that function. */
module Options {
  import opened Values

  // ---------------------------------------------------------------------
  // from_dict (options.py:21-36)

  /** The namespace `from_dict(d)` builds. */
  function Namespace(d: Entries): Entries
    decreases Dict(d), 1
  {
    NamespaceUpTo(d, |d|)
  }

  /** The namespace built from the first `n` entries of `d`. A key ending in
      `_` keeps its value (even a dict) as is, under the key and under the key
      without its trailing underscores; any other dict becomes a nested
      namespace. */
  function NamespaceUpTo(d: Entries, n: nat): Entries
    requires n <= |d|
    decreases Dict(d), 0, n
  {
    if n == 0 then []
    else
      var acc := NamespaceUpTo(d, n - 1);
      var (key, value) := d[n - 1];
      if value.Dict? && !EndsWithUnderscore(key) then
        Put(acc, RStrip(key), Opt(Namespace(value.entries)))
      else Put(Put(acc, RStrip(key), value), key, value)
  }

  method FromDict(d: Entries) returns (lopt: Entries)
    ensures lopt == Namespace(d)
    decreases Dict(d)
  {
    lopt := [];
    var i := 0;
    while i < |d|
      invariant i <= |d|
      invariant lopt == NamespaceUpTo(d, i)
    {
      var (key, value) := d[i];
      var name := RStrip(key);
      if value.Dict? && !EndsWithUnderscore(key) {
        var child := FromDict(value.entries);
        lopt := Put(lopt, name, Opt(child));
      } else {
        lopt := Put(lopt, name, value);
        lopt := Put(lopt, key, value);
      }
      i := i + 1;
    }
  }

  // ---------------------------------------------------------------------
  // to_dict (options.py:38-52)

  /** The plain dict `to_dict` produces from a namespace's attributes. */
  function PlainDict(attrs: Entries): Entries
    decreases Opt(attrs), 1
  {
    PlainDictUpTo(attrs, |attrs|)
  }

  /** For each attribute in order: the key without trailing underscores is
      evicted if already present, then the attribute is stored under its own
      name, nested namespaces converted recursively. */
  function PlainDictUpTo(attrs: Entries, n: nat): Entries
    requires n <= |attrs|
    decreases Opt(attrs), 0, n
  {
    if n == 0 then []
    else
      var acc := PlainDictUpTo(attrs, n - 1);
      var (key, value) := attrs[n - 1];
      var skey := RStrip(key);
      var acc' := if skey in Keys(acc) then Pop(acc, skey) else acc;
      if value.Opt? then Put(acc', key, Dict(PlainDict(value.attrs)))
      else Put(acc', key, value)
  }

  method ToDict(attrs: Entries) returns (dct: Entries)
    ensures dct == PlainDict(attrs)
    decreases Opt(attrs)
  {
    dct := [];
    var i := 0;
    while i < |attrs|
      invariant i <= |attrs|
      invariant dct == PlainDictUpTo(attrs, i)
    {
      var (key, value) := attrs[i];
      ghost var before := dct;
      var skey := RStrip(key);
      if skey in Keys(dct) {
        dct := Pop(dct, skey);
      }
      var stored := value;
      if value.Opt? {
        var child := ToDict(value.attrs);
        stored := Dict(child);
      }
      PlainDictNext(attrs, i, before, stored);
      dct := Put(dct, key, stored);
      i := i + 1;
    }
  }

  /** One attribute of the loop of `to_dict`, as an equation. */
  lemma {:induction false} PlainDictNext(attrs: Entries, i: nat, before: Entries, stored: Value)
    requires i < |attrs| && before == PlainDictUpTo(attrs, i)
    requires stored == if attrs[i].1.Opt? then Dict(PlainDict(attrs[i].1.attrs)) else attrs[i].1
    ensures var skey := RStrip(attrs[i].0);
            PlainDictUpTo(attrs, i + 1) == Put(if skey in Keys(before) then Pop(before, skey) else before, attrs[i].0, stored)
  {
  }

  // ---------------------------------------------------------------------
  // _flatten_dict (options.py:121-131)

  /** `prev_key.key`, or `key` at the top level where `prev_key` is None. */
  function ChildKey(prev: Option<string>, key: string): string {
    match prev
    case Some(p) => p + "." + key
    case None => key
  }

  /** The flat dict `_flatten_dict(d, prev)` produces. */
  function Flattened(d: Entries, prev: Option<string>): Entries
    decreases Dict(d), 1
  {
    FlattenedUpTo(d, prev, |d|)
  }

  function FlattenedUpTo(d: Entries, prev: Option<string>, n: nat): Entries
    requires n <= |d|
    decreases Dict(d), 0, n
  {
    if n == 0 then [] else FlattenStep(FlattenedUpTo(d, prev, n - 1), prev, d[n - 1].0, d[n - 1].1)
  }

  /** One iteration of the loop of `_flatten_dict`. */
  function FlattenStep(acc: Entries, prev: Option<string>, key: string, value: Value): Entries
    decreases value, 2
  {
    if value.Dict? then Update(acc, Flattened(value.entries, Some(ChildKey(prev, key))))
    else Put(acc, ChildKey(prev, key), value)
  }

  method FlattenDict(d: Entries, prev: Option<string>) returns (flat: Entries)
    ensures flat == Flattened(d, prev)
    decreases Dict(d)
  {
    flat := [];
    var i := 0;
    while i < |d|
      invariant i <= |d|
      invariant flat == FlattenedUpTo(d, prev, i)
    {
      var (key, value) := d[i];
      var newKey := ChildKey(prev, key);
      if value.Dict? {
        var sub := FlattenDict(value.entries, Some(newKey));
        flat := UpdateDict(flat, sub);
      } else {
        flat := Put(flat, newKey, value);
      }
      i := i + 1;
    }
  }

  /** `flat_dct.update(sub)` run as the loop it is. */
  method UpdateDict(e: Entries, f: Entries) returns (r: Entries)
    ensures r == Update(e, f)
  {
    r := e;
    var i := 0;
    while i < |f|
      invariant i <= |f|
      invariant Update(r, f[i..]) == Update(e, f)
    {
      r := Put(r, f[i].0, f[i].1);
      i := i + 1;
    }
  }

  // ---------------------------------------------------------------------
  // _expand_from_keys (options.py:133-141)

  /** The single-path dict `{k0: {k1: ... {kn: value}}}` for a non-empty
      key list, and `{}` for the empty one. */
  function PathDict(keys: seq<string>, value: Value): Entries {
    if keys == [] then []
    else if |keys| == 1 then [(keys[0], value)]
    else [(keys[0], Dict(PathDict(keys[1..], value)))]
  }

  /** The dict reached from `root` by following `path`, as the source's
      cursor `d` points into the dict it builds. */
  function At(root: Entries, path: seq<string>): Entries
    decreases |path|
  {
    if path == [] then root
    else match Get(root, path[0])
      case Some(Dict(c)) => At(c, path[1..])
      case _ => []
  }

  /** `d[key] = x` performed through a cursor at `path` inside `root`. */
  function PutAt(root: Entries, path: seq<string>, key: string, x: Value): Entries
    decreases |path|
  {
    if path == [] then Put(root, key, x)
    else match Get(root, path[0])
      case Some(Dict(c)) => Put(root, path[0], Dict(PutAt(c, path[1..], key, x)))
      case _ => root
  }

  /** The partially built dict after `i` keys have been popped. */
  function PartialPathDict(keys: seq<string>, value: Value, i: nat): Entries
    requires i <= |keys|
  {
    if i == 0 then [] else PathDict(keys[..i], if i < |keys| then Dict([]) else value)
  }

  lemma {:induction false} PutAtEnd(keys: seq<string>, value: Value, i: nat)
    requires i < |keys|
    ensures At(PartialPathDict(keys, value, i), keys[..i]) == []
    ensures PutAt(PartialPathDict(keys, value, i), keys[..i], keys[i],
                  if i + 1 < |keys| then Dict([]) else value)
            == PartialPathDict(keys, value, i + 1)
  {
    if i > 0 {
      PutAtChain(keys[..i], keys[i], if i + 1 < |keys| then Dict([]) else value);
      assert keys[..i] + [keys[i]] == keys[..i + 1];
    }
  }

  /** Writing through the cursor at the end of a single-path dict whose leaf
      is `{}` extends the path by one key. */
  lemma {:induction false} PutAtChain(p: seq<string>, k: string, x: Value)
    requires p != []
    ensures At(PathDict(p, Dict([])), p) == []
    ensures PutAt(PathDict(p, Dict([])), p, k, x) == PathDict(p + [k], x)
  {
    if |p| == 1 {
      assert (p + [k])[1..] == [k];
    } else {
      PutAtChain(p[1..], k, x);
      ConsSnoc(p, k);
    }
  }

  /** `_expand_from_keys(keys, value)`: pops keys from the front and walks a
      cursor into the dict it is building; here the cursor is the path of keys
      popped so far. */
  method ExpandFromKeys(keys: seq<string>, value: Value) returns (dct: Entries)
    ensures dct == PathDict(keys, value)
  {
    dct := [];
    var cursor: seq<string> := [];
    var i := 0;
    while i < |keys|
      invariant i <= |keys|
      invariant cursor == keys[..i]
      invariant dct == PartialPathDict(keys, value, i)
    {
      var key := keys[i];
      PutAtEnd(keys, value, i);
      dct := PutAt(dct, cursor, key, if i + 1 < |keys| then Dict([]) else value);
      cursor := cursor + [key];
      i := i + 1;
    }
    assert keys[..|keys|] == keys;
  }

  // ---------------------------------------------------------------------
  // _recursive_update (options.py:143-151)

  /** What `_recursive_update(d, u)` returns. A non-dict `d` fails on the first
      entry of `u` (`d.get` or `d[k] = v`), so it fails unless `u` is empty. */
  function Merged(d: Value, u: Entries): Result<Value, Error>
    decreases Dict(u), 1
  {
    if u == [] then Success(d)
    else if !d.Dict? then Failure(NotADict)
    else
      var r :- MergedUpTo(d.entries, u, |u|);
      Success(Dict(r))
  }

  /** `d` (a dict) after the first `n` entries of `u` have been merged in. */
  function MergedUpTo(d: Entries, u: Entries, n: nat): Result<Entries, Error>
    requires n <= |u|
    decreases Dict(u), 0, n
  {
    if n == 0 then Success(d)
    else
      var acc :- MergedUpTo(d, u, n - 1);
      var (k, v) := u[n - 1];
      if v.Dict? then
        var sub :- Merged(GetOrEmpty(acc, k), v.entries);
        Success(Put(acc, k, sub))
      else Success(Put(acc, k, v))
  }

  /** A Python dict object, where the identity of the dict matters:
      `_recursive_update` changes the dict it is given and returns it. */
  class DictObject {
    var entries: Entries

    constructor (entries: Entries)
      ensures this.entries == entries
    {
      this.entries := entries;
    }
  }

  /** `_recursive_update(d, u)` where `d` may be anything `d.get(k, {})`
      produced: a dict is updated through a dict object of its own. */
  method RecursiveUpdate(d: Value, u: Entries) returns (r: Result<Value, Error>)
    ensures r == Merged(d, u)
    decreases Dict(u), 1
  {
    if u == [] {
      return Success(d);
    }
    if !d.Dict? {
      return Failure(NotADict);
    }
    var target := new DictObject(d.entries);
    var res := MergeInto(target, u);
    if res.Failure? {
      return Failure(res.error);
    }
    return Success(Dict(target.entries));
  }

  /** The loop of `_recursive_update` on the dict object `target`: it is
      changed in place and returned. When a nested merge fails, the entries
      of `u` before the failing one are already merged into it. */
  method MergeInto(target: DictObject, u: Entries) returns (r: Result<DictObject, Error>)
    modifies target
    ensures r.Success? ==> r.value == target && Merged(Dict(old(target.entries)), u) == Success(Dict(target.entries))
    ensures r.Failure? ==> Merged(Dict(old(target.entries)), u) == Failure(r.error)
    ensures r.Failure? ==> exists n :: 0 <= n < |u| && MergedUpTo(old(target.entries), u, n) == Success(target.entries)
                                              && MergedUpTo(old(target.entries), u, n + 1).Failure?
    decreases Dict(u), 0
  {
    ghost var start := target.entries;
    var i := 0;
    while i < |u|
      invariant i <= |u|
      invariant MergedUpTo(start, u, i) == Success(target.entries)
    {
      var (k, v) := u[i];
      if v.Dict? {
        var sub := RecursiveUpdate(GetOrEmpty(target.entries, k), v.entries);
        if sub.Failure? {
          MergedFailureSticks(start, u, i + 1);
          assert MergedUpTo(start, u, i + 1).Failure?;
          return Failure(sub.error);
        }
        target.entries := Put(target.entries, k, sub.value);
      } else {
        target.entries := Put(target.entries, k, v);
      }
      i := i + 1;
    }
    assert u != [] ==> Merged(Dict(start), u) == Success(Dict(target.entries));
    return Success(target);
  }

  /** Once merging fails, merging further entries fails with the same error. */
  lemma {:induction false} MergedFailureSticks(d: Entries, u: Entries, n: nat)
    requires n <= |u|
    requires MergedUpTo(d, u, n).Failure?
    ensures Merged(Dict(d), u) == Failure(MergedUpTo(d, u, n).error)
    decreases |u| - n
  {
    if n < |u| {
      assert MergedUpTo(d, u, n + 1) == MergedUpTo(d, u, n);
      MergedFailureSticks(d, u, n + 1);
    }
  }

  // ---------------------------------------------------------------------
  // from_flat_dict, to_flat_dict (options.py:54-94)

  /** The nested dict `exp_dict` that `from_flat_dict` builds before handing
      it to `from_dict`. */
  function Expanded(flat: Entries): Result<Entries, Error> {
    ExpandedUpTo(flat, |flat|)
  }

  function ExpandedUpTo(flat: Entries, n: nat): Result<Entries, Error>
    requires n <= |flat|
  {
    if n == 0 then Success([])
    else
      var acc :- ExpandedUpTo(flat, n - 1);
      ExpandStep(acc, flat[n - 1].0, flat[n - 1].1)
  }

  /** One iteration of the loop of `from_flat_dict`. */
  function ExpandStep(acc: Entries, key: string, value: Value): Result<Entries, Error> {
    if '.' in key then
      var keys := Split(key);
      var head := keys[0];
      var nested := PathDict(keys[1..], value);
      match Get(acc, head)
      case None => Success(Put(acc, head, Dict(nested)))
      case Some(prior) =>
        var merged :- Merged(prior, nested);
        Success(Put(acc, head, merged))
    else Success(Put(acc, key, value))
  }

  /** The namespace `from_flat_dict(flat)` returns. */
  function FromFlat(flat: Entries): Result<Entries, Error> {
    var exp :- Expanded(flat);
    Success(Namespace(exp))
  }

  method FromFlatDict(flat: Entries) returns (r: Result<Entries, Error>)
    ensures r == FromFlat(flat)
  {
    var exp: Entries := [];
    var i := 0;
    while i < |flat|
      invariant i <= |flat|
      invariant ExpandedUpTo(flat, i) == Success(exp)
    {
      var (key, value) := flat[i];
      ghost var step := ExpandStep(exp, key, value);
      ExpandedNext(flat, i, exp);
      if '.' in key {
        var keys := Split(key);
        var head := keys[0];
        var nested := ExpandFromKeys(keys[1..], value);
        var prior := Get(exp, head);
        if prior.None? {
          exp := Put(exp, head, Dict(nested));
        } else {
          var merged := RecursiveUpdate(prior.value, nested);
          if merged.Failure? {
            assert step == Failure(merged.error);
            ExpandedFailureSticks(flat, i + 1);
            return Failure(merged.error);
          }
          exp := Put(exp, head, merged.value);
        }
      } else {
        exp := Put(exp, key, value);
      }
      assert step == Success(exp);
      i := i + 1;
    }
    var lopt := FromDict(exp);
    return Success(lopt);
  }

  /** One more entry of the flat dict is one more `ExpandStep`. */
  lemma {:induction false} ExpandedNext(flat: Entries, n: nat, acc: Entries)
    requires n < |flat| && ExpandedUpTo(flat, n) == Success(acc)
    ensures ExpandedUpTo(flat, n + 1) == ExpandStep(acc, flat[n].0, flat[n].1)
  {
  }

  lemma {:induction false} ExpandedFailureSticks(flat: Entries, n: nat)
    requires n <= |flat|
    requires ExpandedUpTo(flat, n).Failure?
    ensures Expanded(flat) == Failure(ExpandedUpTo(flat, n).error)
    decreases |flat| - n
  {
    if n < |flat| {
      ExpandedFailureStep(flat, n);
      ExpandedFailureSticks(flat, n + 1);
    }
  }

  /** A failed expansion stays failed for one more entry. */
  lemma {:induction false} ExpandedFailureStep(flat: Entries, n: nat)
    requires n < |flat|
    requires ExpandedUpTo(flat, n).Failure?
    ensures ExpandedUpTo(flat, n + 1) == ExpandedUpTo(flat, n)
  {
  }

  /** `to_flat_dict`: the flat form of a namespace. */
  function FlatOf(attrs: Entries): Entries {
    Flattened(PlainDict(attrs), None)
  }

  method ToFlatDict(attrs: Entries) returns (flat: Entries)
    ensures flat == FlatOf(attrs)
  {
    var d := ToDict(attrs);
    flat := FlattenDict(d, None);
  }

  // ---------------------------------------------------------------------
  // sanitize_dict (options.py:108-119)

  /** The kinds `sanitize_dict` lets through: bool, int, float, str, list,
      tuple and dict. */
  predicate Representable(v: Value) {
    v.Bool? || v.Int? || v.Float? || v.Str? || v.List? || v.Tuple? || v.Dict?
  }

  /** The dict `sanitize_dict(d)` returns, `show` standing for Python's `str`. */
  function Sanitized(d: Entries, show: Value -> string): Entries
    decreases Dict(d), 1
  {
    SanitizedUpTo(d, show, |d|)
  }

  function SanitizedUpTo(d: Entries, show: Value -> string, n: nat): Entries
    requires n <= |d|
    decreases Dict(d), 0, n
  {
    if n == 0 then []
    else
      var acc := SanitizedUpTo(d, show, n - 1);
      var (k, v) := d[n - 1];
      if v.Dict? then Put(acc, k, Dict(Sanitized(v.entries, show)))
      else if Representable(v) then Put(acc, k, v)
      else Put(acc, k, Str(show(v)))
  }

  method SanitizeDict(d: Entries, show: Value -> string) returns (d': Entries)
    ensures d' == Sanitized(d, show)
    decreases Dict(d)
  {
    d' := [];
    var i := 0;
    while i < |d|
      invariant i <= |d|
      invariant d' == SanitizedUpTo(d, show, i)
    {
      var (k, v) := d[i];
      if v.Dict? {
        var sub := SanitizeDict(v.entries, show);
        d' := Put(d', k, Dict(sub));
      } else if !Representable(v) {
        d' := Put(d', k, Str(show(v)));
      } else {
        d' := Put(d', k, v);
      }
      i := i + 1;
    }
  }

  // ---------------------------------------------------------------------
  // _to_str (options.py:153-164)

  /** `n` blanks. */
  function Spaces(n: nat): (s: string)
    ensures |s| == n
  {
    if n == 0 then "" else " " + Spaces(n - 1)
  }

  /** `f"{s:>{width}s}"`: `s` right-aligned in a field of `width` characters. */
  function AlignRight(s: string, width: int): string {
    if width > |s| then Spaces(width - |s|) + s else s
  }

  /** The text `_to_str(lopt, indent)` returns, `show` standing for Python's
      `str` of a leaf. */
  function Rendered(attrs: Entries, indent: nat, show: Value -> string): string
    decreases Opt(attrs), 1
  {
    RenderedUpTo(attrs, indent, show, |attrs|)
  }

  function RenderedUpTo(attrs: Entries, indent: nat, show: Value -> string, n: nat): string
    requires n <= |attrs|
    decreases Opt(attrs), 0, n
  {
    if n == 0 then ""
    else
      var s := RenderedUpTo(attrs, indent, show, n - 1);
      var (key, value) := attrs[n - 1];
      if EndsWithUnderscore(key) then s
      else
        var head := AlignRight(key, |key| + indent) + ": ";
        if value.Opt? then s + head + "\n" + Rendered(value.attrs, indent + 2, show)
        else s + head + show(value) + "\n"
  }

  method ToStr(attrs: Entries, indent: nat, show: Value -> string) returns (s: string)
    ensures s == Rendered(attrs, indent, show)
    decreases Opt(attrs)
  {
    s := "";
    var i := 0;
    while i < |attrs|
      invariant i <= |attrs|
      invariant s == RenderedUpTo(attrs, indent, show, i)
    {
      var (key, value) := attrs[i];
      if !EndsWithUnderscore(key) {
        var head := AlignRight(key, |key| + indent) + ": ";
        s := s + head;
        if value.Opt? {
          var sub := ToStr(value.attrs, indent + 2, show);
          s := s + "\n" + sub;
        } else {
          s := s + show(value) + "\n";
        }
      }
      i := i + 1;
    }
  }
}
