/** What `_flatten_dict` (options.py:121-131) computes: every leaf of the
    nested dict reappears under the dot-join of its path, and nothing else
    does. */
module FlattenLaws {
  import opened Values
  import opened Options

  /** A nested dict whose keys, at every level, contain no dot (and are
      distinct, as a Python dict's are). */
  predicate Tidy(d: Entries)
    decreases Dict(d)
  {
    && DistinctKeys(d)
    && (forall i :: 0 <= i < |d| ==> '.' !in d[i].0)
    && (forall i :: 0 <= i < |d| && d[i].1.Dict? ==> Tidy(d[i].1.entries))
  }

  predicate DotFree(p: seq<string>) {
    forall i :: 0 <= i < |p| ==> '.' !in p[i]
  }

  predicate NoDictValues(e: Entries) {
    forall i :: 0 <= i < |e| ==> !e[i].1.Dict?
  }

  /** The value that is not a dict at the end of the non-empty path `p`. */
  function LeafOf(d: Entries, p: seq<string>): Option<Value>
    decreases |p|
  {
    if p == [] then None
    else match Get(d, p[0])
      case None => None
      case Some(v) =>
        if v.Dict? then (if |p| == 1 then None else LeafOf(v.entries, p[1..]))
        else if |p| == 1 then Some(v) else None
  }

  /** The leaf reached from the value `v` by the rest `q` of a path. */
  function Below(v: Value, q: seq<string>): Option<Value> {
    if q == [] then (if v.Dict? then None else Some(v))
    else if v.Dict? then LeafOf(v.entries, q)
    else None
  }

  /** The `prev_key` that `_flatten_dict` receives after descending along `ps`. */
  function PrevOf(ps: seq<string>): Option<string> {
    if ps == [] then None else Some(Join(ps))
  }

  /** What the flat dict of the sub-dict at `ps` holds under the key whose
      segments are `s`. */
  function Target(d: Entries, ps: seq<string>, s: seq<string>): Option<Value> {
    if |s| > |ps| && s[..|ps|] == ps then LeafOf(d, s[|ps|..]) else None
  }

  lemma {:induction false} JoinSnoc(ps: seq<string>, key: string)
    ensures ChildKey(PrevOf(ps), key) == Join(ps + [key])
  {
    if |ps| == 1 {
      assert Join(ps + [key]) == ps[0] + "." + Join([key]);
    } else if |ps| > 1 {
      JoinSnoc(ps[1..], key);
      ConsSnoc(ps, key);
    }
  }

  lemma {:induction false} PutNoDict(e: Entries, k: string, v: Value)
    requires NoDictValues(e) && !v.Dict?
    ensures NoDictValues(Put(e, k, v))
  {
    if e != [] && e[0].0 != k {
      assert forall i :: 0 <= i < |e| - 1 ==> e[1..][i] == e[i + 1];
      PutNoDict(e[1..], k, v);
    }
  }

  lemma {:induction false} UpdateNoDict(e: Entries, f: Entries)
    requires NoDictValues(e) && NoDictValues(f)
    ensures NoDictValues(Update(e, f))
    decreases |f|
  {
    if f != [] {
      PutNoDict(e, f[0].0, f[0].1);
      UpdateNoDict(Put(e, f[0].0, f[0].1), f[1..]);
    }
  }

  lemma {:induction false} UpdateDistinct(e: Entries, f: Entries)
    requires DistinctKeys(e)
    ensures DistinctKeys(Update(e, f))
    decreases |f|
  {
    if f != [] {
      PutDistinct(e, f[0].0, f[0].1);
      UpdateDistinct(Put(e, f[0].0, f[0].1), f[1..]);
    }
  }

  /** The flat dict holds no dict values, whatever the input. */
  lemma {:induction false} FlatHasNoDicts(d: Entries, prev: Option<string>)
    ensures NoDictValues(Flattened(d, prev))
    decreases Dict(d), 1
  {
    FlatHasNoDictsUpTo(d, prev, |d|);
  }

  lemma {:induction false} FlatHasNoDictsUpTo(d: Entries, prev: Option<string>, n: nat)
    requires n <= |d|
    ensures NoDictValues(FlattenedUpTo(d, prev, n))
    decreases Dict(d), 0, n
  {
    if n > 0 {
      FlatHasNoDictsUpTo(d, prev, n - 1);
      var (key, value) := d[n - 1];
      if value.Dict? {
        FlatHasNoDicts(value.entries, Some(ChildKey(prev, key)));
        UpdateNoDict(FlattenedUpTo(d, prev, n - 1), Flattened(value.entries, Some(ChildKey(prev, key))));
      } else {
        PutNoDict(FlattenedUpTo(d, prev, n - 1), ChildKey(prev, key), value);
      }
    }
  }

  /** The flat dict has distinct keys, whatever the input. */
  lemma {:induction false} FlatDistinct(d: Entries, prev: Option<string>)
    ensures DistinctKeys(Flattened(d, prev))
    decreases Dict(d), 1
  {
    FlatDistinctUpTo(d, prev, |d|);
  }

  lemma {:induction false} FlatDistinctUpTo(d: Entries, prev: Option<string>, n: nat)
    requires n <= |d|
    ensures DistinctKeys(FlattenedUpTo(d, prev, n))
    decreases Dict(d), 0, n
  {
    if n > 0 {
      FlatDistinctUpTo(d, prev, n - 1);
      var (key, value) := d[n - 1];
      if value.Dict? {
        UpdateDistinct(FlattenedUpTo(d, prev, n - 1), Flattened(value.entries, Some(ChildKey(prev, key))));
      } else {
        PutDistinct(FlattenedUpTo(d, prev, n - 1), ChildKey(prev, key), value);
      }
    }
  }

  /** Adding an entry `key` changes only the targets whose path goes through
      `key`, which had none before. */
  lemma {:induction false} TargetSnoc(e: Entries, key: string, value: Value, ps: seq<string>, s: seq<string>)
    requires key !in Keys(e)
    ensures var hit := |s| > |ps| && s[..|ps|] == ps && s[|ps|] == key;
            && Target(e + [(key, value)], ps, s) == (if hit then Below(value, s[|ps| + 1..]) else Target(e, ps, s))
            && (hit ==> Target(e, ps, s) == None)
  {
    if |s| > |ps| && s[..|ps|] == ps {
      var p := s[|ps|..];
      GetAppend(e, key, value, p[0]);
      assert p[1..] == s[|ps| + 1..];
    }
  }

  /** Segments of a key, against the key built from a path. */
  lemma {:induction false} KeyIsPath(k: string, p: seq<string>)
    requires p != [] && DotFree(p)
    ensures k == Join(p) <==> Split(k) == p
  {
    SplitJoin(p);
    JoinSplit(k);
  }

  lemma {:induction false} FlattenedGet(d: Entries, ps: seq<string>, k: string)
    requires Tidy(d) && DotFree(ps)
    ensures Get(Flattened(d, PrevOf(ps)), k) == Target(d, ps, Split(k))
    decreases Dict(d), 1, 0, 0
  {
    FlattenedGetUpTo(d, ps, |d|, k);
    assert d[..|d|] == d;
  }

  lemma {:induction false} FlattenedGetUpTo(d: Entries, ps: seq<string>, n: nat, k: string)
    requires n <= |d| && Tidy(d) && DotFree(ps)
    ensures Get(FlattenedUpTo(d, PrevOf(ps), n), k) == Target(d[..n], ps, Split(k))
    decreases Dict(d), 0, n, 1
  {
    if n > 0 {
      FlattenedGetUpTo(d, ps, n - 1, k);
      FlattenedGetEntry(d, ps, n, k);
    }
  }

  /** What a tidy dict promises about its entry `i`. */
  lemma {:induction false} TidyAt(d: Entries, i: nat)
    requires Tidy(d) && i < |d|
    ensures DistinctKeys(d) && '.' !in d[i].0
    ensures d[i].1.Dict? ==> Tidy(d[i].1.entries)
  {
  }

  /** A key of a dict with distinct keys is not among the keys before it. */
  lemma {:induction false} KeyNotBefore(d: Entries, n: nat)
    requires DistinctKeys(d) && 0 < n <= |d|
    ensures d[n - 1].0 !in Keys(d[..n - 1])
  {
    assert forall j :: 0 <= j < n - 1 ==> Keys(d[..n - 1])[j] == d[j].0;
  }

  lemma {:induction false} DotFreeSnoc(ps: seq<string>, key: string)
    requires DotFree(ps) && '.' !in key
    ensures DotFree(ps + [key])
  {
    assert forall j :: 0 <= j < |ps| ==> (ps + [key])[j] == ps[j];
  }

  /** Entry `n` of the loop, once the entries before it are accounted for. */
  lemma {:induction false} FlattenedGetEntry(d: Entries, ps: seq<string>, n: nat, k: string)
    requires 0 < n <= |d| && Tidy(d) && DotFree(ps)
    requires Get(FlattenedUpTo(d, PrevOf(ps), n - 1), k) == Target(d[..n - 1], ps, Split(k))
    ensures Get(FlattenedUpTo(d, PrevOf(ps), n), k) == Target(d[..n], ps, Split(k))
    decreases Dict(d), 0, n, 0
  {
    TidyAt(d, n - 1);
    var (key, value) := d[n - 1];
    var acc := FlattenedUpTo(d, PrevOf(ps), n - 1);
    JoinSnoc(ps, key);
    TakeSnoc(d, n);
    KeyNotBefore(d, n);
    DotFreeSnoc(ps, key);
    if value.Dict? {
      FlattenedGet(value.entries, ps + [key], k);
      FlatDistinct(value.entries, PrevOf(ps + [key]));
      FlatDictStep(acc, Flattened(value.entries, PrevOf(ps + [key])), d[..n - 1], ps, key, value, k);
    } else {
      FlatLeafStep(acc, d[..n - 1], ps, key, value, k);
    }
  }

  /** A leaf entry: `flat_dct[new_key] = value`. */
  lemma {:induction false} FlatLeafStep(acc: Entries, e: Entries, ps: seq<string>, key: string, value: Value, k: string)
    requires key !in Keys(e) && !value.Dict? && DotFree(ps + [key])
    requires Get(acc, k) == Target(e, ps, Split(k))
    ensures Get(Put(acc, Join(ps + [key]), value), k) == Target(e + [(key, value)], ps, Split(k))
  {
    var s := Split(k);
    TargetSnoc(e, key, value, ps, s);
    GetPut(acc, Join(ps + [key]), value, k);
    KeyIsPath(k, ps + [key]);
    if |s| > |ps| {
      PrefixSnoc(s, ps, key);
    }
    if s == ps + [key] {
      assert s[|ps| + 1..] == [];
    }
  }

  /** A dict entry: `flat_dct.update(sub)` with `sub` the flat sub-dict. */
  lemma {:induction false} FlatDictStep(acc: Entries, sub: Entries, e: Entries, ps: seq<string>, key: string, value: Value, k: string)
    requires key !in Keys(e) && value.Dict? && DistinctKeys(sub)
    requires Get(acc, k) == Target(e, ps, Split(k))
    requires Get(sub, k) == Target(value.entries, ps + [key], Split(k))
    ensures Get(Update(acc, sub), k) == Target(e + [(key, value)], ps, Split(k))
  {
    var s := Split(k);
    TargetSnoc(e, key, value, ps, s);
    GetUpdate(acc, sub, k);
    if |s| > |ps| {
      PrefixSnoc(s, ps, key);
      if |s| > |ps| + 1 && s[..|ps|] == ps && s[|ps|] == key {
        assert Get(sub, k) == LeafOf(value.entries, s[|ps| + 1..]);
      }
    }
  }

  lemma {:induction false} PrefixSnoc(s: seq<string>, ps: seq<string>, key: string)
    requires |s| > |ps|
    ensures s[..|ps| + 1] == ps + [key] <==> s[..|ps|] == ps && s[|ps|] == key
  {
    assert s[..|ps| + 1] == s[..|ps|] + [s[|ps|]];
  }

  /** `_flatten_dict(d)` holds under `k` exactly the leaf of `d` at the path
      whose dot-join is `k`. */
  lemma {:induction false} FlattenLookup(d: Entries, k: string)
    requires Tidy(d)
    ensures Get(Flattened(d, None), k) == LeafOf(d, Split(k))
  {
    FlattenedGet(d, [], k);
    assert Split(k)[0..] == Split(k);
  }

  /** The paths that reach a leaf of a tidy dict are made of its keys, so
      they are non-empty and dot-free. */
  lemma {:induction false} LeafPathsDotFree(d: Entries, p: seq<string>)
    requires Tidy(d) && LeafOf(d, p).Some?
    ensures p != [] && DotFree(p)
    decreases |p|
  {
    var i := GetIndex(d, p[0]);
    if |p| > 1 {
      LeafPathsDotFree(d[i].1.entries, p[1..]);
      assert p == [p[0]] + p[1..];
    }
  }

  /** The flat dict is the leaves and nothing else: every key is the
      dot-join of a path from the root to a non-dict value; every such path
      shows up, joined, with its value; and no value is a dict. */
  lemma {:induction false} FlattenCharacterized(d: Entries)
    requires Tidy(d)
    ensures var flat := Flattened(d, None);
            && NoDictValues(flat)
            && DistinctKeys(flat)
            && (forall k :: k in Keys(flat) ==> LeafOf(d, Split(k)).Some? && Join(Split(k)) == k)
            && (forall p :: LeafOf(d, p).Some? ==> Get(flat, Join(p)) == LeafOf(d, p))
  {
    var flat := Flattened(d, None);
    FlatHasNoDicts(d, None);
    FlatDistinct(d, None);
    forall k | k in Keys(flat) ensures LeafOf(d, Split(k)).Some? && Join(Split(k)) == k {
      FlattenLookup(d, k);
      JoinSplit(k);
    }
    forall p | LeafOf(d, p).Some? ensures Get(flat, Join(p)) == LeafOf(d, p) {
      LeafPathsDotFree(d, p);
      FlattenLookup(d, Join(p));
      SplitJoin(p);
    }
  }

  /** The example of the docstring: `{a: {ab: 0}}` becomes `{a.ab: 0}`. */
  lemma {:induction false} FlattenExample()
    ensures Flattened([("a", Dict([("ab", Int(0))]))], None) == [("a.ab", Int(0))]
  {
    var inner := [("ab", Int(0))];
    assert ChildKey(Some("a"), "ab") == "a.ab";
    assert FlattenedUpTo(inner, Some("a"), 1) == Put([], "a.ab", Int(0));
    assert Flattened(inner, Some("a")) == [("a.ab", Int(0))];
    assert Update([], [("a.ab", Int(0))]) == [("a.ab", Int(0))];
    assert FlattenedUpTo([("a", Dict(inner))], None, 1) == Update([], Flattened(inner, Some("a")));
  }
}
