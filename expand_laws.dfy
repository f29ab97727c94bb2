/** What `from_flat_dict` and `_expand_from_keys` (options.py:54-90,
    133-141) compute: each dotted key is merged in as a single-path dict,
    and for a flat dict in which no key is a prefix of another, flattening
    the expansion gives the flat dict back. */
module ExpandLaws {
  import opened Values
  import opened Options
  import opened FlattenLaws
  import opened MergeLaws
  import opened NamespaceLaws

  // ---------------------------------------------------------------------
  // Paths into nested dicts

  /** `p` is a proper, non-empty prefix of `q`. */
  predicate StrictPrefix(p: seq<string>, q: seq<string>) {
    0 < |p| < |q| && q[..|p|] == p
  }

  /** The non-empty path `p` leads through dicts to a dict. */
  predicate IsNode(d: Entries, p: seq<string>)
    decreases |p|
  {
    && p != []
    && Get(d, p[0]).Some?
    && Get(d, p[0]).value.Dict?
    && (|p| == 1 || IsNode(Get(d, p[0]).value.entries, p[1..]))
  }

  /** Nothing is stored at `q` and no proper prefix of `q` ends at a leaf:
      a single path to `q` can be merged in without clashing. */
  predicate Open(d: Entries, q: seq<string>) {
    && (forall i :: 0 < i < |q| ==> LeafOf(d, q[..i]).None?)
    && LeafOf(d, q).None?
    && !IsNode(d, q)
  }

  lemma {:induction false} LeafOfPut(d: Entries, k: string, w: Value, p: seq<string>)
    ensures LeafOf(Put(d, k, w), p) ==
            if p != [] && p[0] == k then Below(w, p[1..]) else LeafOf(d, p)
  {
    if p != [] {
      GetPut(d, k, w, p[0]);
    }
  }

  lemma {:induction false} IsNodePut(d: Entries, k: string, w: Value, p: seq<string>)
    ensures IsNode(Put(d, k, w), p) <==>
            if p != [] && p[0] == k then w.Dict? && (|p| == 1 || IsNode(w.entries, p[1..])) else IsNode(d, p)
  {
    if p != [] {
      GetPut(d, k, w, p[0]);
    }
  }

  /** Comparing a path with `keys` segment by segment, once the first
      segments agree. */
  lemma {:induction false} PrefixCons(keys: seq<string>, p: seq<string>)
    requires |keys| > 1 && p != [] && p[0] == keys[0]
    ensures (|p| >= |keys| && p[..|keys|] == keys) <==>
            (|p[1..]| >= |keys[1..]| && p[1..][..|keys[1..]|] == keys[1..])
    ensures |p| >= |keys| ==> p[1..][|keys[1..]|..] == p[|keys|..]
    ensures StrictPrefix(p, keys) <==> |p| == 1 || StrictPrefix(p[1..], keys[1..])
  {
    if |p| >= |keys| {
      assert p[1..][|keys| - 1..] == p[|keys|..];
      assert forall i :: 0 <= i < |keys| ==> p[..|keys|][i] == ([p[0]] + p[1..][..|keys| - 1])[i];
      assert p[..|keys|] == [p[0]] + p[1..][..|keys| - 1];
      assert keys == [keys[0]] + keys[1..];
    }
    if 1 < |p| < |keys| {
      assert forall i :: 0 <= i < |p| ==> keys[..|p|][i] == ([keys[0]] + keys[1..][..|p| - 1])[i];
      assert keys[..|p|] == [keys[0]] + keys[1..][..|p| - 1];
      assert p == [p[0]] + p[1..];
    }
  }

  /** `_expand_from_keys(keys, value)` for non-empty `keys` is a single
      path: the value sits at `keys` and nowhere else. */
  lemma {:induction false} PathDictLeaf(keys: seq<string>, value: Value, p: seq<string>)
    requires keys != []
    ensures LeafOf(PathDict(keys, value), p) ==
            if |p| >= |keys| && p[..|keys|] == keys then Below(value, p[|keys|..]) else None
    decreases |keys|
  {
    if p != [] {
      if p[0] != keys[0] {
        assert |p| >= |keys| ==> p[..|keys|][0] != keys[0];
      } else if |keys| == 1 {
        assert p[..1] == keys;
      } else {
        PathDictLeaf(keys[1..], value, p[1..]);
        PrefixCons(keys, p);
      }
    }
  }

  /** The dicts on the way to the value of `_expand_from_keys(keys, value)`
      are exactly the proper prefixes of `keys`, together with the dicts
      inside the value. */
  lemma {:induction false} PathDictNode(keys: seq<string>, value: Value, p: seq<string>)
    requires keys != []
    ensures IsNode(PathDict(keys, value), p) <==>
            StrictPrefix(p, keys) || (value.Dict? && |p| >= |keys| && p[..|keys|] == keys &&
                                      (|p| == |keys| || IsNode(value.entries, p[|keys|..])))
    decreases |keys|
  {
    if p != [] {
      if p[0] != keys[0] {
        assert |p| >= |keys| ==> p[..|keys|][0] != keys[0];
        assert !StrictPrefix(p, keys) by {
          if |p| < |keys| { assert keys[..|p|][0] == keys[0]; }
        }
      } else if |keys| == 1 {
        assert p[..1] == keys;
      } else {
        PathDictNode(keys[1..], value, p[1..]);
        PrefixCons(keys, p);
      }
    }
  }

  /** Merging a single path into `{}` gives that path, as `from_flat_dict`
      relies on when the head of a dotted key is new. */
  lemma {:induction false} MergeIntoEmpty(q: seq<string>, v: Value)
    requires q != [] && !v.Dict?
    ensures Merged(Dict([]), PathDict(q, v)) == Success(Dict(PathDict(q, v)))
    decreases |q|
  {
    if |q| > 1 {
      MergeIntoEmpty(q[1..], v);
    }
    assert MergedUpTo([], PathDict(q, v), 1) == Success(PathDict(q, v));
  }

  /** Merging the single path `q` into a dict that is open at `q` adds the
      leaf at `q` and the dicts on the way to it, and nothing else. */
  lemma {:induction false} MergePath(d: Entries, q: seq<string>, v: Value)
    requires q != [] && !v.Dict? && DotFree(q)
    requires Tidy(d) && Open(d, q)
    ensures var m := Merged(Dict(d), PathDict(q, v));
            && m.Success? && m.value.Dict? && Tidy(m.value.entries)
            && (forall p :: LeafOf(m.value.entries, p) == if p == q then Some(v) else LeafOf(d, p))
            && (forall p :: IsNode(m.value.entries, p) <==> IsNode(d, p) || StrictPrefix(p, q))
    decreases |q|
  {
    var q0 := q[0];
    if |q| == 1 {
      assert Get(d, q0).None? by {
        assert q == [q0];
      }
      MergeLeaf(d, q0, v);
    } else {
      var c := if Get(d, q0).Some? && Get(d, q0).value.Dict? then Get(d, q0).value.entries else [];
      assert Get(d, q0).Some? ==> Get(d, q0).value.Dict? by {
        assert q[..1] == [q0];
      }
      OpenBelow(d, q, c);
      MergePath(c, q[1..], v);
      var r' := Merged(Dict(c), PathDict(q[1..], v)).value.entries;
      MergeStepDict(d, q, v, c, r');
    }
  }

  /** The last key of the path: a plain `d[k] = v` for a key `d` lacks. */
  lemma {:induction false} MergeLeaf(d: Entries, k: string, v: Value)
    requires !v.Dict? && '.' !in k && Tidy(d) && Get(d, k).None?
    ensures var m := Merged(Dict(d), PathDict([k], v));
            && m == Success(Dict(Put(d, k, v)))
            && Tidy(Put(d, k, v))
            && (forall p :: LeafOf(m.value.entries, p) == if p == [k] then Some(v) else LeafOf(d, p))
            && (forall p :: IsNode(m.value.entries, p) <==> IsNode(d, p) || StrictPrefix(p, [k]))
  {
    var r := Put(d, k, v);
    assert PathDict([k], v) == [(k, v)];
    assert MergedUpTo(d, [(k, v)], 1) == Success(r);
    TidyPut(d, k, v);
    forall p ensures LeafOf(r, p) == if p == [k] then Some(v) else LeafOf(d, p) {
      LeafOfPut(d, k, v, p);
      if p != [] && p[0] == k {
        LeafOfHead(d, p);
        assert p == [k] <==> p[1..] == [] by {
          assert p == [p[0]] + p[1..];
        }
      }
    }
    forall p ensures IsNode(r, p) <==> IsNode(d, p) || StrictPrefix(p, [k]) {
      IsNodePut(d, k, v, p);
    }
  }

  /** Below the head of the path the sub-dict is open at the rest of it. */
  lemma {:induction false} OpenBelow(d: Entries, q: seq<string>, c: Entries)
    requires |q| > 1 && Tidy(d) && Open(d, q)
    requires Get(d, q[0]).Some? ==> Get(d, q[0]) == Some(Dict(c))
    requires Get(d, q[0]).None? ==> c == []
    ensures Tidy(c) && Open(c, q[1..])
  {
    if Get(d, q[0]).Some? {
      var i := GetIndex(d, q[0]);
      forall j | 0 < j < |q| - 1 ensures LeafOf(c, q[1..][..j]).None? {
        assert q[..j + 1][1..] == q[1..][..j];
        assert LeafOf(d, q[..j + 1]).None?;
      }
    }
  }

  /** The head of the path, when the path goes on: `d[q0]` becomes the merge
      `r'` of the rest of the path into the sub-dict `c` found there. */
  lemma {:induction false} MergeStepDict(d: Entries, q: seq<string>, v: Value, c: Entries, r': Entries)
    requires |q| > 1 && !v.Dict? && DotFree(q) && Tidy(d)
    requires Get(d, q[0]).Some? ==> Get(d, q[0]) == Some(Dict(c))
    requires Get(d, q[0]).None? ==> c == []
    requires Merged(Dict(c), PathDict(q[1..], v)) == Success(Dict(r')) && Tidy(r')
    requires forall p :: LeafOf(r', p) == if p == q[1..] then Some(v) else LeafOf(c, p)
    requires forall p :: IsNode(r', p) <==> IsNode(c, p) || StrictPrefix(p, q[1..])
    ensures var m := Merged(Dict(d), PathDict(q, v));
            && m == Success(Dict(Put(d, q[0], Dict(r'))))
            && Tidy(m.value.entries)
            && (forall p :: LeafOf(m.value.entries, p) == if p == q then Some(v) else LeafOf(d, p))
            && (forall p :: IsNode(m.value.entries, p) <==> IsNode(d, p) || StrictPrefix(p, q))
  {
    var q0 := q[0];
    var r := Put(d, q0, Dict(r'));
    assert GetOrEmpty(d, q0) == Dict(c);
    assert PathDict(q, v) == [(q0, Dict(PathDict(q[1..], v)))];
    assert MergedUpTo(d, PathDict(q, v), 1) == Success(r);
    TidyPut(d, q0, Dict(r'));
    forall p ensures LeafOf(r, p) == if p == q then Some(v) else LeafOf(d, p) {
      if p != [] {
        MergeStepLeaf(d, q, v, c, r', p);
      }
    }
    forall p ensures IsNode(r, p) <==> IsNode(d, p) || StrictPrefix(p, q) {
      if p != [] {
        MergeStepNode(d, q, c, r', p);
      }
    }
  }

  lemma {:induction false} MergeStepLeaf(d: Entries, q: seq<string>, v: Value, c: Entries, r': Entries, p: seq<string>)
    requires |q| > 1 && p != []
    requires Get(d, q[0]).Some? ==> Get(d, q[0]) == Some(Dict(c))
    requires Get(d, q[0]).None? ==> c == []
    requires LeafOf(r', p[1..]) == if p[1..] == q[1..] then Some(v) else LeafOf(c, p[1..])
    ensures LeafOf(Put(d, q[0], Dict(r')), p) == if p == q then Some(v) else LeafOf(d, p)
  {
    LeafOfPut(d, q[0], Dict(r'), p);
    if p[0] == q[0] {
      LeafOfHead(d, p);
      SameHead(p, q);
      if Get(d, q[0]).None? {
        assert LeafOf([], p[1..]) == None;
      }
    } else {
      assert p[0] != q[0];
    }
  }

  /** Two paths with the same head are equal exactly when their tails are. */
  lemma {:induction false} SameHead(p: seq<string>, q: seq<string>)
    requires p != [] && q != [] && p[0] == q[0]
    ensures p == q <==> p[1..] == q[1..]
  {
    assert p == [p[0]] + p[1..] && q == [q[0]] + q[1..];
  }

  /** A lookup along a non-empty path is the lookup below its head. */
  lemma {:induction false} LeafOfHead(d: Entries, p: seq<string>)
    requires p != []
    ensures LeafOf(d, p) == if Get(d, p[0]).None? then None else Below(Get(d, p[0]).value, p[1..])
  {
  }

  lemma {:induction false} MergeStepNode(d: Entries, q: seq<string>, c: Entries, r': Entries, p: seq<string>)
    requires |q| > 1 && p != []
    requires Get(d, q[0]).Some? ==> Get(d, q[0]) == Some(Dict(c))
    requires Get(d, q[0]).None? ==> c == []
    requires IsNode(r', p[1..]) <==> IsNode(c, p[1..]) || StrictPrefix(p[1..], q[1..])
    ensures IsNode(Put(d, q[0], Dict(r')), p) <==> IsNode(d, p) || StrictPrefix(p, q)
  {
    IsNodePut(d, q[0], Dict(r'), p);
    if p[0] == q[0] {
      StrictPrefixCons(p, q);
    }
  }

  lemma {:induction false} StrictPrefixCons(p: seq<string>, q: seq<string>)
    requires p != [] && |q| > 1 && p[0] == q[0]
    ensures StrictPrefix(p, q) <==> |p| == 1 || StrictPrefix(p[1..], q[1..])
  {
    if |p| > 1 && |p| < |q| {
      assert q[..|p|] == [q[0]] + q[1..][..|p| - 1];
      assert p == [p[0]] + p[1..];
    }
  }

  lemma {:induction false} TidyPut(d: Entries, k: string, w: Value)
    requires Tidy(d) && '.' !in k && (w.Dict? ==> Tidy(w.entries))
    ensures Tidy(Put(d, k, w))
  {
    var r := Put(d, k, w);
    PutDistinct(d, k, w);
    PutKeys(d, k, w);
    forall i | 0 <= i < |r| ensures '.' !in r[i].0 && (r[i].1.Dict? ==> Tidy(r[i].1.entries)) {
      assert Keys(r)[i] == r[i].0;
      if r[i].0 == k {
        GetAt(r, i);
        GetPut(d, k, w, k);
      } else {
        GetAt(r, i);
        GetPut(d, k, w, r[i].0);
        var j := GetIndex(d, r[i].0);
      }
    }
  }

  // ---------------------------------------------------------------------
  // from_flat_dict as a sequence of single-path merges

  /** One iteration of `from_flat_dict` merges the single-path dict of the
      key's segments into `exp_dict`: a plain key is a path of length one,
      and a new head starts from `{}`. */
  lemma {:induction false} ExpandStepIsMerge(acc: Entries, key: string, value: Value)
    requires !value.Dict?
    ensures var m := Merged(Dict(acc), PathDict(Split(key), value));
            && (ExpandStep(acc, key, value).Success? <==> m.Success?)
            && (m.Success? ==> m.value == Dict(ExpandStep(acc, key, value).value))
            && (m.Failure? ==> ExpandStep(acc, key, value).error == m.error)
  {
    var s := Split(key);
    if '.' !in key {
      assert s == [key];
      assert PathDict(s, value) == [(key, value)];
      assert MergedUpTo(acc, [(key, value)], 1) == Success(Put(acc, key, value));
    } else {
      SplitHasMany(key);
      var nested := PathDict(s[1..], value);
      assert PathDict(s, value) == [(s[0], Dict(nested))];
      MergeIntoEmpty(s[1..], value);
      var u := [(s[0], Dict(nested))];
      assert MergedUpTo(acc, u, 1) == (
        var sub :- Merged(GetOrEmpty(acc, s[0]), nested);
        Success(Put(acc, s[0], sub)));
    }
  }

  /** The leaf a flat dict gives the path `p`: the value under the key made
      by joining `p`. */
  function FlatLeaf(flat: Entries, p: seq<string>): Option<Value> {
    if p != [] && DotFree(p) then Get(flat, Join(p)) else None
  }

  /** No key's segments are a proper prefix of another key's segments. */
  predicate PrefixFree(flat: Entries) {
    forall i, j :: 0 <= i < |flat| && 0 <= j < |flat| ==> !StrictPrefix(Split(flat[i].0), Split(flat[j].0))
  }

  /** The flat dicts `from_flat_dict` can invert: distinct keys, no dict
      values, and no key a dotted prefix of another. */
  predicate FlatInput(flat: Entries) {
    DistinctKeys(flat) && NoDictValues(flat) && PrefixFree(flat)
  }

  lemma {:induction false} FlatLeafSnoc(flat: Entries, n: nat, p: seq<string>)
    requires 0 < n <= |flat| && DistinctKeys(flat)
    ensures FlatLeaf(flat[..n], p) ==
            if p == Split(flat[n - 1].0) then Some(flat[n - 1].1) else FlatLeaf(flat[..n - 1], p)
  {
    var (k, v) := flat[n - 1];
    TakeSnoc(flat, n);
    assert k !in Keys(flat[..n - 1]) by {
      assert forall j :: 0 <= j < n - 1 ==> Keys(flat[..n - 1])[j] == flat[j].0;
    }
    if p != [] && DotFree(p) {
      GetAppend(flat[..n - 1], k, v, Join(p));
      KeyIsPath(k, p);
    }
  }

  /** The `n`-th key of a flat input meets nothing in the dict expanded from
      the keys before it. */
  lemma {:induction false} NextIsOpen(flat: Entries, n: nat, acc: Entries)
    requires 0 < n <= |flat| && FlatInput(flat)
    requires forall p :: LeafOf(acc, p) == FlatLeaf(flat[..n - 1], p)
    requires forall p :: IsNode(acc, p) ==> exists j :: 0 <= j < n - 1 && StrictPrefix(p, Split(flat[j].0))
    ensures Open(acc, Split(flat[n - 1].0))
  {
    var k := flat[n - 1].0;
    var s := Split(k);
    forall i | 0 < i < |s| ensures LeafOf(acc, s[..i]).None? {
      NoEarlierKeyAt(flat, n, s[..i]);
    }
    JoinSplit(k);
    assert k !in Keys(flat[..n - 1]) by {
      assert forall j :: 0 <= j < n - 1 ==> Keys(flat[..n - 1])[j] == flat[j].0;
    }
    assert LeafOf(acc, s).None?;
  }

  /** A proper prefix of the `n`-th key's segments is no earlier key. */
  lemma {:induction false} NoEarlierKeyAt(flat: Entries, n: nat, t: seq<string>)
    requires 0 < n <= |flat| && FlatInput(flat)
    requires StrictPrefix(t, Split(flat[n - 1].0))
    ensures Get(flat[..n - 1], Join(t)) == None
  {
    var s := Split(flat[n - 1].0);
    assert t == s[..|t|];
    if Get(flat[..n - 1], Join(t)).Some? {
      var j := GetIndex(flat[..n - 1], Join(t));
      SplitJoin(t);
    }
  }

  lemma {:induction false} ExpandedShape(flat: Entries, n: nat)
    requires n <= |flat| && FlatInput(flat)
    ensures ExpandedUpTo(flat, n).Success?
    ensures var acc := ExpandedUpTo(flat, n).value;
            && Tidy(acc)
            && (forall p :: LeafOf(acc, p) == FlatLeaf(flat[..n], p))
            && (forall p :: IsNode(acc, p) ==> exists j :: 0 <= j < n && StrictPrefix(p, Split(flat[j].0)))
  {
    if n > 0 {
      ExpandedShape(flat, n - 1);
      var acc := ExpandedUpTo(flat, n - 1).value;
      var (k, v) := flat[n - 1];
      var s := Split(k);
      NextIsOpen(flat, n, acc);
      ExpandStepIsMerge(acc, k, v);
      MergePath(acc, s, v);
      var acc' := ExpandStep(acc, k, v).value;
      forall p ensures LeafOf(acc', p) == FlatLeaf(flat[..n], p) {
        FlatLeafSnoc(flat, n, p);
      }
    }
  }

  /** `from_flat_dict` inverts `_flatten_dict` on the dict level: for a flat
      input, the expansion succeeds, has dot-free keys throughout, holds each
      flat value at the path of its key's segments, and flattens back to a
      dict with the same lookups as the input. */
  lemma {:induction false} ExpandThenFlatten(flat: Entries)
    requires FlatInput(flat)
    ensures Expanded(flat).Success?
    ensures var e := Expanded(flat).value;
            && Tidy(e)
            && (forall p :: LeafOf(e, p) == FlatLeaf(flat, p))
            && (forall k :: Get(Flattened(e, None), k) == Get(flat, k))
  {
    ExpandedShape(flat, |flat|);
    assert flat[..|flat|] == flat;
    var e := Expanded(flat).value;
    forall k ensures Get(Flattened(e, None), k) == Get(flat, k) {
      FlattenLookup(e, k);
      JoinSplit(k);
    }
  }

  // ---------------------------------------------------------------------
  // Through the namespace: from_flat_dict, then to_flat_dict

  /** The `l`-th segment of the `i`-th key. */
  function Seg(flat: Entries, i: nat, l: nat): string
    requires i < |flat| && l < |Split(flat[i].0)|
  {
    Split(flat[i].0)[l]
  }

  /** Two keys that agree up to a segment and differ there do not differ
      only by trailing underscores there: otherwise `from_dict` would store
      both under one attribute name. */
  predicate AliasFree(flat: Entries) {
    forall i, j, l ::
      (0 <= i < |flat| && 0 <= j < |flat| && 0 <= l < |Split(flat[i].0)| && l < |Split(flat[j].0)| &&
       Split(flat[i].0)[..l] == Split(flat[j].0)[..l] && Seg(flat, i, l) != Seg(flat, j, l))
      ==> RStrip(Seg(flat, i, l)) != RStrip(Seg(flat, j, l))
  }

  predicate NoOptValues(e: Entries) {
    forall i :: 0 <= i < |e| ==> !e[i].1.Opt?
  }

  /** The dict reached from `root` along a path of dicts. */
  function DictAt(root: Entries, p: seq<string>): Entries
    decreases |p|
  {
    if p == [] then root
    else if Get(root, p[0]).Some? && Get(root, p[0]).value.Dict? then DictAt(Get(root, p[0]).value.entries, p[1..])
    else []
  }

  /** An entry of the dict at `p` is a dict at `p + [x]` or a leaf there. */
  lemma {:induction false} DictAtEntry(root: Entries, p: seq<string>, x: string)
    requires p == [] || IsNode(root, p)
    requires Get(DictAt(root, p), x).Some?
    ensures var w := Get(DictAt(root, p), x).value;
            && (w.Dict? ==> IsNode(root, p + [x]) && DictAt(root, p + [x]) == w.entries)
            && (!w.Dict? ==> LeafOf(root, p + [x]) == Some(w))
    decreases |p|
  {
    if p != [] {
      var c := Get(root, p[0]).value.entries;
      assert (p + [x])[0] == p[0] && (p + [x])[1..] == p[1..] + [x];
      DictAtEntry(c, p[1..], x);
    }
  }

  lemma {:induction false} DictAtTidy(root: Entries, p: seq<string>)
    requires Tidy(root)
    ensures Tidy(DictAt(root, p))
    decreases |p|
  {
    if p != [] && Get(root, p[0]).Some? && Get(root, p[0]).value.Dict? {
      var i := GetIndex(root, p[0]);
      DictAtTidy(root[i].1.entries, p[1..]);
    }
  }

  /** What an expansion of `flat` looks like, as `ExpandedShape` finds it. */
  ghost predicate ExpandsTo(flat: Entries, e: Entries) {
    && Tidy(e)
    && (forall p :: LeafOf(e, p) == FlatLeaf(flat, p))
    && (forall p :: IsNode(e, p) ==> exists j :: 0 <= j < |flat| && StrictPrefix(p, Split(flat[j].0)))
  }

  /** Every key of a dict in the expansion lies on the segments of a flat key. */
  lemma {:induction false} OnFlatPath(flat: Entries, e: Entries, p: seq<string>, x: string) returns (j: nat)
    requires DistinctKeys(flat) && ExpandsTo(flat, e)
    requires p == [] || IsNode(e, p)
    requires Get(DictAt(e, p), x).Some?
    ensures j < |flat| && |Split(flat[j].0)| > |p| && Split(flat[j].0)[..|p| + 1] == p + [x]
  {
    DictAtEntry(e, p, x);
    var w := Get(DictAt(e, p), x).value;
    var q := p + [x];
    if w.Dict? {
      j := NodeOnFlatPath(flat, e, q);
    } else {
      j := LeafOnFlatPath(flat, e, q);
      assert Split(flat[j].0)[..|p| + 1] == q;
    }
  }

  lemma {:induction false} NodeOnFlatPath(flat: Entries, e: Entries, q: seq<string>) returns (j: nat)
    requires ExpandsTo(flat, e) && IsNode(e, q)
    ensures j < |flat| && StrictPrefix(q, Split(flat[j].0))
  {
    j :| 0 <= j < |flat| && StrictPrefix(q, Split(flat[j].0));
  }

  lemma {:induction false} LeafOnFlatPath(flat: Entries, e: Entries, q: seq<string>) returns (j: nat)
    requires ExpandsTo(flat, e) && LeafOf(e, q).Some?
    ensures j < |flat| && Split(flat[j].0) == q
  {
    assert FlatLeaf(flat, q).Some?;
    j := GetIndex(flat, Join(q));
    SplitJoin(q);
  }

  /** The values of the expansion are flat values or dicts, never namespaces. */
  lemma {:induction false} NoOptInExpansion(flat: Entries, e: Entries, p: seq<string>, x: string)
    requires NoOptValues(flat) && ExpandsTo(flat, e)
    requires p == [] || IsNode(e, p)
    requires Get(DictAt(e, p), x).Some?
    ensures !Get(DictAt(e, p), x).value.Opt?
  {
    DictAtEntry(e, p, x);
    var w := Get(DictAt(e, p), x).value;
    if !w.Dict? {
      assert FlatLeaf(flat, p + [x]) == Some(w);
      var j := GetIndex(flat, Join(p + [x]));
    }
  }

  /** Every dict of the expansion of an alias-free flat input is canonical,
      so the namespace built from it converts back to it. */
  lemma {:induction false} CanonicalBelow(flat: Entries, e: Entries, p: seq<string>)
    requires DistinctKeys(flat) && AliasFree(flat) && NoOptValues(flat) && ExpandsTo(flat, e)
    requires p == [] || IsNode(e, p)
    ensures Canonical(DictAt(e, p))
    decreases Dict(DictAt(e, p))
  {
    var c := DictAt(e, p);
    DictAtTidy(e, p);
    forall a, b | 0 <= a < b < |c| ensures RStrip(c[a].0) != RStrip(c[b].0) {
      GetAt(c, a);
      GetAt(c, b);
      var i := OnFlatPath(flat, e, p, c[a].0);
      var j := OnFlatPath(flat, e, p, c[b].0);
      PrefixSnoc(Split(flat[i].0), p, c[a].0);
      PrefixSnoc(Split(flat[j].0), p, c[b].0);
      assert Seg(flat, i, |p|) == c[a].0 && Seg(flat, j, |p|) == c[b].0;
    }
    forall a | 0 <= a < |c| ensures !c[a].1.Opt? {
      GetAt(c, a);
      NoOptInExpansion(flat, e, p, c[a].0);
    }
    forall a | 0 <= a < |c| && c[a].1.Dict? && !EndsWithUnderscore(c[a].0)
      ensures Canonical(c[a].1.entries)
    {
      GetAt(c, a);
      DictAtEntry(e, p, c[a].0);
      CanonicalBelow(flat, e, p + [c[a].0]);
    }
  }

  /** `to_flat_dict(from_flat_dict(flat))` has the same lookups as `flat`,
      for a flat input that is also alias-free and holds no namespaces: the
      inverse that the docstring of `from_flat_dict` names. */
  lemma {:induction false} FlatRoundTrip(flat: Entries)
    requires FlatInput(flat) && AliasFree(flat) && NoOptValues(flat)
    ensures FromFlat(flat).Success?
    ensures forall k :: Get(FlatOf(FromFlat(flat).value), k) == Get(flat, k)
  {
    ExpandedShape(flat, |flat|);
    assert flat[..|flat|] == flat;
    ExpandThenFlatten(flat);
    var e := Expanded(flat).value;
    CanonicalBelow(flat, e, []);
    RoundTrip(e);
  }

  // ---------------------------------------------------------------------
  // _flatten_dict, then from_flat_dict

  /** Nothing is stored below a leaf. */
  lemma {:induction false} NothingBelowLeaf(d: Entries, s: seq<string>, t: seq<string>)
    requires StrictPrefix(s, t) && LeafOf(d, s).Some?
    ensures LeafOf(d, t).None?
    decreases |s|
  {
    if |s| > 1 {
      assert t[1..][..|s| - 1] == s[1..];
      NothingBelowLeaf(Get(d, s[0]).value.entries, s[1..], t[1..]);
    }
  }

  /** The flat dict of a tidy nested dict is a flat input. */
  lemma {:induction false} FlattenedIsFlatInput(d: Entries)
    requires Tidy(d)
    ensures FlatInput(Flattened(d, None))
  {
    var flat := Flattened(d, None);
    FlattenCharacterized(d);
    forall i, j | 0 <= i < |flat| && 0 <= j < |flat| ensures !StrictPrefix(Split(flat[i].0), Split(flat[j].0)) {
      assert Keys(flat)[i] == flat[i].0 && Keys(flat)[j] == flat[j].0;
      if StrictPrefix(Split(flat[i].0), Split(flat[j].0)) {
        NothingBelowLeaf(d, Split(flat[i].0), Split(flat[j].0));
      }
    }
  }

  /** `from_flat_dict` after `_flatten_dict` gives back every leaf of a tidy
      dict at its path, and no other leaf. */
  lemma {:induction false} FlattenThenExpand(d: Entries)
    requires Tidy(d)
    ensures Expanded(Flattened(d, None)).Success?
    ensures forall p :: LeafOf(Expanded(Flattened(d, None)).value, p) == LeafOf(d, p)
  {
    var flat := Flattened(d, None);
    FlattenedIsFlatInput(d);
    ExpandThenFlatten(flat);
    var e := Expanded(flat).value;
    forall p ensures LeafOf(e, p) == LeafOf(d, p) {
      if p != [] && DotFree(p) {
        FlattenLookup(d, Join(p));
        SplitJoin(p);
      } else if LeafOf(d, p).Some? {
        LeafPathsDotFree(d, p);
      }
    }
  }

  // ---------------------------------------------------------------------
  // Plain keys, clashes and the documented example

  lemma {:induction false} UpdateFreshKeys(f: Entries)
    requires DistinctKeys(f)
    ensures Update([], f) == f
  {
    var n := 0;
    while n < |f|
      invariant n <= |f|
      invariant Update([], f[..n]) == f[..n]
    {
      var (k, v) := f[n];
      UpdateSnoc([], f[..n], k, v);
      assert k !in Keys(f[..n]) by {
        assert forall j :: 0 <= j < n ==> Keys(f[..n])[j] == f[j].0;
      }
      PutAbsent(f[..n], k, v);
      assert f[..n + 1] == f[..n] + [(k, v)];
      n := n + 1;
    }
    assert f[..|f|] == f;
  }

  /** A key without a dot is stored as it is (`exp_dict[key] = value`), so a
      flat dict without dotted keys expands to itself. */
  lemma {:induction false} PlainKeysStayPut(flat: Entries)
    requires DistinctKeys(flat)
    requires forall i :: 0 <= i < |flat| ==> '.' !in flat[i].0
    ensures Expanded(flat) == Success(flat)
  {
    var n := 0;
    while n < |flat|
      invariant n <= |flat|
      invariant ExpandedUpTo(flat, n) == Success(Update([], flat[..n]))
    {
      UpdateSnoc([], flat[..n], flat[n].0, flat[n].1);
      assert flat[..n + 1] == flat[..n] + [flat[n]];
      n := n + 1;
    }
    assert flat[..|flat|] == flat;
    UpdateFreshKeys(flat);
  }

  /** The segments of `a.b` for dot-free `a` and `b`. */
  lemma {:induction false} Split2(a: string, b: string)
    requires '.' !in a && '.' !in b
    ensures Split(a + "." + b) == [a, b]
  {
    SplitAround(a, b);
  }

  /** Merging one new non-dict entry appends it. */
  lemma {:induction false} MergeSingle(d: Entries, k: string, v: Value)
    requires k !in Keys(d) && !v.Dict?
    ensures Merged(Dict(d), [(k, v)]) == Success(Dict(d + [(k, v)]))
  {
    MergedFlat(d, [(k, v)]);
    PutAbsent(d, k, v);
    assert Update(d, [(k, v)]) == Put(d, k, v);
  }

  /** A dotless key is stored as it is. */
  lemma {:induction false} StepPlain(acc: Entries, k: string, v: Value)
    requires '.' !in k && k !in Keys(acc)
    ensures ExpandStep(acc, k, v) == Success(acc + [(k, v)])
  {
    PutAbsent(acc, k, v);
  }

  /** `h.k` for a head `h` not yet present. */
  lemma {:induction false} StepOpen(acc: Entries, h: string, k: string, v: Value)
    requires '.' !in h && '.' !in k && h !in Keys(acc)
    ensures ExpandStep(acc, h + "." + k, v) == Success(acc + [(h, Dict([(k, v)]))])
  {
    SplitAround(h, k);
    assert (h + "." + k)[|h|] == '.';
    PutAbsent(acc, h, Dict([(k, v)]));
  }

  /** `h.rest` for a head `h` stored last: the path dict of `rest` is merged
      into what `h` holds. */
  lemma {:induction false} StepMerge(acc: Entries, h: string, prior: Value, rest: string, v: Value, merged: Value)
    requires '.' !in h && h !in Keys(acc)
    requires Merged(prior, PathDict(Split(rest), v)) == Success(merged)
    ensures ExpandStep(acc + [(h, prior)], h + "." + rest, v) == Success(acc + [(h, merged)])
  {
    SplitAround(h, rest);
    assert (h + "." + rest)[|h|] == '.';
    GetAppend(acc, h, prior, h);
    PutLast(acc, h, prior, merged);
  }

  /** `h.k` for a head `h` stored last, holding a dict without `k`. */
  lemma {:induction false} StepInto(acc: Entries, h: string, d: Entries, k: string, v: Value)
    requires '.' !in h && '.' !in k && h !in Keys(acc) && k !in Keys(d) && !v.Dict?
    ensures ExpandStep(acc + [(h, Dict(d))], h + "." + k, v) == Success(acc + [(h, Dict(d + [(k, v)]))])
  {
    MergeSingle(d, k, v);
    StepMerge(acc, h, Dict(d), k, v, Dict(d + [(k, v)]));
  }

  /** `h.c.k` for a head `h` stored last, holding a dict without `c`. */
  lemma {:induction false} StepOpenBelow(acc: Entries, h: string, d: Entries, c: string, k: string, v: Value)
    requires '.' !in h && '.' !in c && '.' !in k && h !in Keys(acc) && c !in Keys(d) && !v.Dict?
    ensures ExpandStep(acc + [(h, Dict(d))], h + "." + (c + "." + k), v)
         == Success(acc + [(h, Dict(d + [(c, Dict([(k, v)]))]))])
  {
    Split2(c, k);
    var inner := Dict([(k, v)]);
    MergeSingle([], k, v);
    assert [] + [(k, v)] == [(k, v)];
    assert GetOrEmpty(d, c) == Dict([]);
    PutAbsent(d, c, inner);
    MergeOneDict(d, c, [(k, v)], inner);
    StepMerge(acc, h, Dict(d), c + "." + k, v, Dict(d + [(c, inner)]));
  }

  /** `h.c.k` for a head `h` stored last, whose dict stores `c` last. */
  lemma {:induction false} StepIntoBelow(acc: Entries, h: string, d: Entries, c: string, e: Entries, k: string, v: Value)
    requires '.' !in h && '.' !in c && '.' !in k && h !in Keys(acc) && c !in Keys(d) && k !in Keys(e) && !v.Dict?
    ensures ExpandStep(acc + [(h, Dict(d + [(c, Dict(e))]))], h + "." + (c + "." + k), v)
         == Success(acc + [(h, Dict(d + [(c, Dict(e + [(k, v)]))]))])
  {
    Split2(c, k);
    var prior := d + [(c, Dict(e))];
    MergeSingle(e, k, v);
    GetAppend(d, c, Dict(e), c);
    PutLast(d, c, Dict(e), Dict(e + [(k, v)]));
    MergeOneDict(prior, c, [(k, v)], Dict(e + [(k, v)]));
    StepMerge(acc, h, Dict(prior), c + "." + k, v, Dict(d + [(c, Dict(e + [(k, v)]))]));
  }

  /** Merging a single dict entry merges it into what was there. */
  lemma {:induction false} MergeOneDict(d: Entries, c: string, x: Entries, sub: Value)
    requires Merged(GetOrEmpty(d, c), x) == Success(sub)
    ensures Merged(Dict(d), [(c, Dict(x))]) == Success(Dict(Put(d, c, sub)))
  {
    assert MergedUpTo(d, [(c, Dict(x))], 0) == Success(d);
  }

  /** Reassigning the key stored last. */
  lemma {:induction false} PutLast(e: Entries, k: string, v: Value, x: Value)
    requires k !in Keys(e)
    ensures Put(e + [(k, v)], k, x) == e + [(k, x)]
  {
    if e != [] {
      assert e[0].0 != k by { assert Keys(e)[0] == e[0].0; }
      assert k !in Keys(e[1..]) by { assert Keys(e) == [e[0].0] + Keys(e[1..]); }
      PutLast(e[1..], k, v, x);
      ConsSnoc(e, (k, v));
      ConsSnoc(e, (k, x));
    }
  }

  /** A plain key after a dotted key with the same head overwrites the whole
      nested dict. */
  lemma {:induction false} PlainKeyOverwritesExample()
    ensures Expanded([("a.b", Int(1)), ("a", Int(2))]) == Success([("a", Int(2))])
  {
    var flat := [("a.b", Int(1)), ("a", Int(2))];
    var acc := [("a", Dict([("b", Int(1))]))];
    assert "a.b" == "a" + "." + "b";
    StepOpen([], "a", "b", Int(1));
    assert [] + acc == acc;
    ExpandedNext(flat, 0, []);
    assert acc[1..] == [];
    assert Put(acc, "a", Int(2)) == [("a", Int(2))];
    ExpandedNext(flat, 1, acc);
  }

  /** A scalar key followed by a longer key it prefixes: `_recursive_update`
      receives the scalar and fails. */
  lemma {:induction false} ScalarThenLongerFails(k: string, r: string, v: Value, w: Value)
    requires '.' !in k && !v.Dict?
    ensures Expanded([(k, v), (k + "." + r, w)]) == Failure(NotADict)
  {
    var flat := [(k, v), (k + "." + r, w)];
    var key := k + "." + r;
    SplitAround(k, r);
    assert key[|k|] == '.';
    StepPlain([], k, v);
    assert [] + [(k, v)] == [(k, v)];
    ExpandedNext(flat, 0, []);
    assert Split(key)[1..] == Split(r);
    assert PathDict(Split(r), w) != [];
    assert Get([(k, v)], k) == Some(v);
    ExpandedNext(flat, 1, [(k, v)]);
  }

  /** The shape of the documented example: two plain keys, then a head `h`
      with two leaves and a nested dict `c` with two more. */
  lemma {:induction false} DocShape(a: string, b: string, h: string, s: string, l: string, c: string, e: string, t: string,
                 va: Value, vb: Value, vs: Value, vl: Value, ve: Value, vt: Value)
    requires '.' !in a && '.' !in b && '.' !in h && '.' !in s && '.' !in l && '.' !in c && '.' !in e && '.' !in t
    requires a != b && h != a && h != b && s != l && c != s && c != l && e != t
    requires !vs.Dict? && !vl.Dict? && !ve.Dict? && !vt.Dict?
    ensures Expanded([(a, va), (b, vb), (h + "." + s, vs), (h + "." + l, vl),
                      (h + "." + (c + "." + e), ve), (h + "." + (c + "." + t), vt)])
         == Success([(a, va), (b, vb), (h, Dict([(s, vs), (l, vl), (c, Dict([(e, ve), (t, vt)]))]))])
  {
    var flat := [(a, va), (b, vb), (h + "." + s, vs), (h + "." + l, vl),
                 (h + "." + (c + "." + e), ve), (h + "." + (c + "." + t), vt)];
    var a2 := [(a, va), (b, vb)];
    DocFront(flat, a, b, h, s, va, vb, vs);
    DocBack(flat, a2, h, s, l, c, e, t, vs, vl, ve, vt);
    DocAssembled(a, b, h, s, l, c, e, t, va, vb, vs, vl, ve, vt);
  }

  lemma {:induction false} DocAssembled(a: string, b: string, h: string, s: string, l: string, c: string, e: string, t: string,
                     va: Value, vb: Value, vs: Value, vl: Value, ve: Value, vt: Value)
    ensures [(a, va), (b, vb)] + [(h, Dict([(s, vs)] + [(l, vl)] + [(c, Dict([(e, ve)] + [(t, vt)]))]))]
         == [(a, va), (b, vb), (h, Dict([(s, vs), (l, vl), (c, Dict([(e, ve), (t, vt)]))]))]
  {
    assert [(e, ve)] + [(t, vt)] == [(e, ve), (t, vt)];
    assert [(s, vs)] + [(l, vl)] + [(c, Dict([(e, ve), (t, vt)]))]
        == [(s, vs), (l, vl), (c, Dict([(e, ve), (t, vt)]))];
  }

  lemma {:induction false} DocFront(flat: Entries, a: string, b: string, h: string, s: string, va: Value, vb: Value, vs: Value)
    requires |flat| >= 3 && flat[0] == (a, va) && flat[1] == (b, vb) && flat[2] == (h + "." + s, vs)
    requires '.' !in a && '.' !in b && '.' !in h && '.' !in s
    requires a != b && h != a && h != b
    ensures ExpandedUpTo(flat, 3) == Success([(a, va), (b, vb)] + [(h, Dict([(s, vs)]))])
  {
    var a1 := [(a, va)];
    var a2 := a1 + [(b, vb)];
    assert Keys(a2) == [a, b];
    StepPlain([], a, va);
    assert [] + a1 == a1;
    ExpandedNext(flat, 0, []);
    StepPlain(a1, b, vb);
    ExpandedNext(flat, 1, a1);
    StepOpen(a2, h, s, vs);
    ExpandedNext(flat, 2, a2);
    assert a2 == [(a, va), (b, vb)];
  }

  lemma {:induction false} DocBack(flat: Entries, a2: Entries, h: string, s: string, l: string, c: string, e: string, t: string,
                vs: Value, vl: Value, ve: Value, vt: Value)
    requires |flat| == 6 && flat[3] == (h + "." + l, vl)
    requires flat[4] == (h + "." + (c + "." + e), ve) && flat[5] == (h + "." + (c + "." + t), vt)
    requires ExpandedUpTo(flat, 3) == Success(a2 + [(h, Dict([(s, vs)]))])
    requires '.' !in h && '.' !in l && '.' !in c && '.' !in e && '.' !in t && h !in Keys(a2)
    requires s != l && c != s && c != l && e != t
    requires !vl.Dict? && !ve.Dict? && !vt.Dict?
    ensures Expanded(flat) == Success(a2 + [(h, Dict([(s, vs)] + [(l, vl)] + [(c, Dict([(e, ve)] + [(t, vt)]))]))])
  {
    var d1 := [(s, vs)];
    assert Keys(d1) == [s];
    StepInto(a2, h, d1, l, vl);
    ExpandedNext(flat, 3, a2 + [(h, Dict(d1))]);
    var d2 := d1 + [(l, vl)];
    assert Keys(d2) == [s, l];
    StepOpenBelow(a2, h, d2, c, e, ve);
    ExpandedNext(flat, 4, a2 + [(h, Dict(d2))]);
    var e1 := [(e, ve)];
    assert Keys(e1) == [e];
    StepIntoBelow(a2, h, d2, c, e1, t, vt);
    ExpandedNext(flat, 5, a2 + [(h, Dict(d2 + [(c, Dict(e1))]))]);
    assert Expanded(flat) == ExpandedUpTo(flat, 6);
  }

  /** The example of the docstring of `from_flat_dict`. */
  lemma {:induction false} DocstringExample()
    ensures Expanded([("lr", Float(0.0011)), ("gamma", Float(0.95)),
                      ("dnd.size", Int(2000)), ("dnd.lr", Float(0.77)),
                      ("dnd.sched.end", Float(0.0)), ("dnd.sched.steps", Int(1000))])
         == Success([("lr", Float(0.0011)), ("gamma", Float(0.95)),
                     ("dnd", Dict([("size", Int(2000)), ("lr", Float(0.77)),
                                   ("sched", Dict([("end", Float(0.0)), ("steps", Int(1000))]))]))])
  {
    assert "dnd.size" == "dnd" + "." + "size";
    assert "dnd.lr" == "dnd" + "." + "lr";
    assert "dnd.sched.end" == "dnd" + "." + ("sched" + "." + "end");
    assert "dnd.sched.steps" == "dnd" + "." + ("sched" + "." + "steps");
    DocShape("lr", "gamma", "dnd", "size", "lr", "sched", "end", "steps",
             Float(0.0011), Float(0.95), Int(2000), Float(0.77), Float(0.0), Int(1000));
  }
}
