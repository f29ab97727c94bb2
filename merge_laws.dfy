/** What `_recursive_update(d, u)` (options.py:143-151) computes: a deep
    merge that is biased to the right, keeps the untouched keys of `d` where
    they were and adds the new keys of `u` after them. */
module MergeLaws {
  import opened Values
  import opened Options

  /** `got` is what the merged dict holds under `k` when `u` held `x` there:
      `x` itself, or for a dict `x` the merge of `x` into what `d` held. */
  predicate MergedEntry(d: Entries, k: string, x: Value, got: Option<Value>) {
    got.Some? &&
    if x.Dict? then Merged(GetOrEmpty(d, k), x.entries) == Success(got.value)
    else got.value == x
  }

  lemma {:induction false} MergedLookupUpTo(d: Entries, u: Entries, n: nat, k: string)
    requires n <= |u| && DistinctKeys(u)
    requires MergedUpTo(d, u, n).Success?
    ensures var r := MergedUpTo(d, u, n).value;
            match Get(u[..n], k)
            case None => Get(r, k) == Get(d, k)
            case Some(x) => MergedEntry(d, k, x, Get(r, k))
  {
    if n > 0 {
      var (kk, vv) := u[n - 1];
      TakeSnoc(u, n);
      assert kk !in Keys(u[..n - 1]) by {
        assert forall j :: 0 <= j < n - 1 ==> Keys(u[..n - 1])[j] == u[j].0;
      }
      MergedLookupUpTo(d, u, n - 1, k);
      MergedLookupUpTo(d, u, n - 1, kk);
      GetAppend(u[..n - 1], kk, vv, k);
      MergedLookupStep(d, u, n, k);
    }
  }

  lemma {:induction false} MergedLookupStep(d: Entries, u: Entries, n: nat, k: string)
    requires 0 < n <= |u|
    requires MergedUpTo(d, u, n).Success?
    requires Get(u[..n], k) == if k == u[n - 1].0 then Some(u[n - 1].1) else Get(u[..n - 1], k)
    requires Get(MergedUpTo(d, u, n - 1).value, u[n - 1].0) == Get(d, u[n - 1].0)
    requires var r := MergedUpTo(d, u, n - 1).value;
             match Get(u[..n - 1], k)
             case None => Get(r, k) == Get(d, k)
             case Some(x) => MergedEntry(d, k, x, Get(r, k))
    ensures var r := MergedUpTo(d, u, n).value;
            match Get(u[..n], k)
            case None => Get(r, k) == Get(d, k)
            case Some(x) => MergedEntry(d, k, x, Get(r, k))
  {
    var (kk, vv) := u[n - 1];
    var acc := MergedUpTo(d, u, n - 1).value;
    if vv.Dict? {
      var sub := Merged(GetOrEmpty(acc, kk), vv.entries);
      assert MergedUpTo(d, u, n).value == Put(acc, kk, sub.value);
      GetPut(acc, kk, sub.value, k);
    } else {
      assert MergedUpTo(d, u, n).value == Put(acc, kk, vv);
      GetPut(acc, kk, vv, k);
    }
  }

  /** Right bias and recursion: a key `u` does not hold keeps the value of
      `d`; a key `u` holds a non-dict under gets that value; a key `u` holds
      a dict under gets that dict merged into what `d` held there (`{}` if
      nothing). */
  lemma {:induction false} MergedLookup(d: Entries, u: Entries, k: string)
    requires DistinctKeys(u)
    requires Merged(Dict(d), u).Success?
    ensures var r := Merged(Dict(d), u).value;
            && r.Dict?
            && (Get(u, k).None? ==> Get(r.entries, k) == Get(d, k))
            && (Get(u, k).Some? ==> MergedEntry(d, k, Get(u, k).value, Get(r.entries, k)))
  {
    if u != [] {
      MergedLookupUpTo(d, u, |u|, k);
      assert u[..|u|] == u;
    }
  }

  lemma {:induction false} MergedKeysUpTo(d: Entries, u: Entries, n: nat)
    requires n <= |u|
    requires MergedUpTo(d, u, n).Success?
    ensures var r := MergedUpTo(d, u, n).value;
            && Keys(d) <= Keys(r)
            && forall k :: k in Keys(r) <==> k in Keys(d) || k in Keys(u[..n])
  {
    if n > 0 {
      MergedKeysUpTo(d, u, n - 1);
      var acc := MergedUpTo(d, u, n - 1).value;
      var (kk, vv) := u[n - 1];
      TakeSnoc(u, n);
      KeysAppend(u[..n - 1], [(kk, vv)]);
      var x := if vv.Dict? then Merged(GetOrEmpty(acc, kk), vv.entries).value else vv;
      PutKeys(acc, kk, x);
    }
  }

  /** The keys of the merge are the keys of `d`, in their places, together
      with the keys of `u`. */
  lemma {:induction false} MergedKeys(d: Entries, u: Entries)
    requires Merged(Dict(d), u).Success?
    ensures var r := Merged(Dict(d), u).value;
            && r.Dict?
            && Keys(d) <= Keys(r.entries)
            && forall k :: k in Keys(r.entries) <==> k in Keys(d) || k in Keys(u)
  {
    if u != [] {
      MergedKeysUpTo(d, u, |u|);
      assert u[..|u|] == u;
    }
  }

  /** The only error a merge raises is an assignment into, or a lookup in,
      a value that is not a dict. */
  lemma {:induction false} MergedOnlyFailsOnNonDict(d: Value, u: Entries)
    ensures Merged(d, u).Failure? ==> Merged(d, u).error == NotADict
    decreases Dict(u), 1
  {
    if u != [] && d.Dict? {
      MergedOnlyFailsOnNonDictUpTo(d.entries, u, |u|);
    }
  }

  lemma {:induction false} MergedOnlyFailsOnNonDictUpTo(d: Entries, u: Entries, n: nat)
    requires n <= |u|
    ensures MergedUpTo(d, u, n).Failure? ==> MergedUpTo(d, u, n).error == NotADict
    decreases Dict(u), 0, n
  {
    if n > 0 {
      MergedOnlyFailsOnNonDictUpTo(d, u, n - 1);
      var (k, v) := u[n - 1];
      if MergedUpTo(d, u, n - 1).Success? && v.Dict? {
        MergedOnlyFailsOnNonDict(GetOrEmpty(MergedUpTo(d, u, n - 1).value, k), v.entries);
      }
    }
  }

  lemma {:induction false} UpdateSnoc(e: Entries, f: Entries, k: string, v: Value)
    ensures Update(e, f + [(k, v)]) == Put(Update(e, f), k, v)
    decreases |f|
  {
    if f != [] {
      ConsSnoc(f, (k, v));
      UpdateSnoc(Put(e, f[0].0, f[0].1), f[1..], k, v);
    }
  }

  lemma {:induction false} MergedFlatUpTo(d: Entries, u: Entries, n: nat)
    requires n <= |u|
    requires forall i :: 0 <= i < |u| ==> !u[i].1.Dict?
    ensures MergedUpTo(d, u, n) == Success(Update(d, u[..n]))
  {
    if n > 0 {
      MergedFlatUpTo(d, u, n - 1);
      TakeSnoc(u, n);
      UpdateSnoc(d, u[..n - 1], u[n - 1].0, u[n - 1].1);
    }
  }

  /** Merging a flat dict (no dict values) into a dict is `dict.update`, and
      never fails. */
  lemma {:induction false} MergedFlat(d: Entries, u: Entries)
    requires forall i :: 0 <= i < |u| ==> !u[i].1.Dict?
    ensures Merged(Dict(d), u) == Success(Dict(Update(d, u)))
  {
    if u != [] {
      MergedFlatUpTo(d, u, |u|);
      assert u[..|u|] == u;
    }
  }

  /** A merge into a scalar fails as soon as `u` holds anything; with an
      empty `u` the scalar comes back unchanged. */
  lemma {:induction false} MergeIntoScalarExample()
    ensures Merged(Int(5), [("b", Int(1))]) == Failure(NotADict)
    ensures Merged(Int(5), []) == Success(Int(5))
  {
  }
}
