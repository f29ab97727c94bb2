/** The Python data the configuration code works on: values, dictionaries
    (insertion-ordered association lists), the string operations it uses on
    keys, and the error kinds its operations raise. */
module Values {

  datatype Option<+T> = None | Some(value: T)

  datatype Result<+T, +E> = Success(value: T) | Failure(error: E) {
    predicate IsFailure() { Failure? }
    function PropagateFailure<U>(): Result<U, E>
      requires Failure?
    {
      Failure(error)
    }
    function Extract(): T
      requires Success?
    {
      value
    }
  }

  /** A Python value as far as the configuration code distinguishes it.
      `Opt` is a configuration namespace; its entries are the namespace's
      `__dict__` in insertion order. Floats are opaque. `Path` is a
      `pathlib.Path`, `Object` any other object. */
  datatype Value =
    | Null
    | Bool(b: bool)
    | Int(i: int)
    | Float(x: real)
    | Str(s: string)
    | List(elems: seq<Value>)
    | Tuple(elems: seq<Value>)
    | Dict(entries: Entries)
    | Opt(attrs: Entries)
    | Path(parts: seq<string>)
    | Object(id: nat)

  /** A dict (or a namespace's attributes): keys in insertion order. */
  type Entries = seq<(string, Value)>

  /** The exceptions the modelled code raises. */
  datatype Error =
    | NotADict                  // item assignment or `.get` on a value that is not a dict
    | CannotUnpack(arity: nat)  // `a, b = v` where v does not yield exactly `arity` items
    | UnsupportedKind(kind: Value)
    | SamplerRaised(reason: string)
    | MissingAttribute(name: string)
    | NotAPath(v: Value)        // `v / "segment"` on a value that is not a path

  // ---------------------------------------------------------------------
  // Strings

  predicate EndsWithUnderscore(s: string) {
    |s| > 0 && s[|s| - 1] == '_'
  }

  /** `s.rstrip("_")` */
  function RStrip(s: string): (r: string)
    ensures !EndsWithUnderscore(r)
    ensures |r| <= |s| && r == s[..|r|]
    ensures forall i :: |r| <= i < |s| ==> s[i] == '_'
  {
    if EndsWithUnderscore(s) then RStrip(s[..|s| - 1]) else s
  }

  lemma {:induction false} RStripUnchanged(s: string)
    ensures RStrip(s) == s <==> !EndsWithUnderscore(s)
  {
    if EndsWithUnderscore(s) {
      assert |RStrip(s)| < |s|;
    }
  }

  /** `".".join(p)` */
  function Join(p: seq<string>): string {
    if |p| == 0 then "" else if |p| == 1 then p[0] else p[0] + "." + Join(p[1..])
  }

  function FirstDot(s: string): (i: nat)
    requires '.' in s
    ensures i < |s| && s[i] == '.' && '.' !in s[..i]
  {
    if s[0] == '.' then 0 else assert '.' in s[1..]; 1 + FirstDot(s[1..])
  }

  /** `s.split(".")` */
  function Split(s: string): (p: seq<string>)
    ensures |p| >= 1
    ensures forall i :: 0 <= i < |p| ==> '.' !in p[i]
    decreases |s|
  {
    if '.' in s then
      var i := FirstDot(s);
      [s[..i]] + Split(s[i + 1..])
    else [s]
  }

  lemma {:induction false} SplitHasMany(s: string)
    ensures '.' in s <==> |Split(s)| >= 2
  {
  }

  lemma {:induction false} JoinSplit(s: string)
    ensures Join(Split(s)) == s
    decreases |s|
  {
    if '.' in s {
      var i := FirstDot(s);
      var rest := s[i + 1..];
      JoinSplit(rest);
      assert Split(s) == [s[..i]] + Split(rest);
      assert |Split(s)| >= 2;
      assert Split(s)[1..] == Split(rest);
      assert Join(Split(s)) == s[..i] + "." + Join(Split(rest));
      assert s == s[..i] + "." + rest;
    }
  }

  /** The first dot of `a.b` for a dot-free `a` is the one after `a`. */
  lemma {:induction false} FirstDotAfter(a: string, b: string)
    requires '.' !in a
    ensures '.' in a + "." + b && FirstDot(a + "." + b) == |a|
  {
    var s := a + "." + b;
    assert s[|a|] == '.';
    var i := FirstDot(s);
    assert forall j :: 0 <= j < |a| ==> s[j] == a[j];
    assert forall j :: 0 <= j < i ==> s[..i][j] == s[j];
  }

  /** The segments of `a.b` for a dot-free `a`. */
  lemma {:induction false} SplitAround(a: string, b: string)
    requires '.' !in a
    ensures Split(a + "." + b) == [a] + Split(b)
  {
    var s := a + "." + b;
    FirstDotAfter(a, b);
    assert s[..|a|] == a;
    assert s[|a| + 1..] == b;
  }

  lemma {:induction false} SplitJoin(p: seq<string>)
    requires |p| >= 1
    requires forall i :: 0 <= i < |p| ==> '.' !in p[i]
    ensures Split(Join(p)) == p
  {
    if |p| > 1 {
      assert Join(p) == p[0] + "." + Join(p[1..]);
      SplitAround(p[0], Join(p[1..]));
      SplitJoin(p[1..]);
      assert p == [p[0]] + p[1..];
    }
  }

  /** Splitting is injective: two keys with the same segments are equal. */
  lemma {:induction false} SplitInjective(a: string, b: string)
    requires Split(a) == Split(b)
    ensures a == b
  {
    JoinSplit(a);
    JoinSplit(b);
  }

  // ---------------------------------------------------------------------
  // Sequence facts, stated once so that proofs use them as equations

  lemma {:induction false} ConsSnoc<T>(e: seq<T>, p: T)
    requires e != []
    ensures e + [p] == [e[0]] + (e[1..] + [p])
    ensures (e + [p])[0] == e[0] && (e + [p])[1..] == e[1..] + [p]
  {
  }

  lemma {:induction false} TakeSnoc<T>(s: seq<T>, n: nat)
    requires 0 < n <= |s|
    ensures s[..n] == s[..n - 1] + [s[n - 1]]
  {
  }

  lemma {:induction false} AppendAssoc<T>(a: seq<T>, b: seq<T>, c: seq<T>)
    ensures a + b + c == a + (b + c)
  {
  }

  lemma {:induction false} TakeAppend<T>(a: seq<T>, b: seq<T>)
    ensures (a + b)[..|a|] == a && (a + b)[|a|..] == b
  {
  }

  // ---------------------------------------------------------------------
  // Dicts as association lists

  function Keys(e: Entries): (ks: seq<string>)
    ensures |ks| == |e| && forall i {:trigger ks[i]} :: 0 <= i < |e| ==> ks[i] == e[i].0
  {
    if e == [] then [] else [e[0].0] + Keys(e[1..])
  }

  predicate DistinctKeys(e: Entries) {
    forall i, j :: 0 <= i < j < |e| ==> e[i].0 != e[j].0
  }

  /** `d.get(k)`: the value stored under `k`, if any. */
  function Get(e: Entries, k: string): (r: Option<Value>)
    ensures r.Some? <==> k in Keys(e)
  {
    if e == [] then None
    else if e[0].0 == k then Some(e[0].1)
    else Get(e[1..], k)
  }

  /** `d.get(k, {})` */
  function GetOrEmpty(e: Entries, k: string): Value {
    match Get(e, k)
    case Some(v) => v
    case None => Dict([])
  }

  /** `d[k] = v`: an existing key keeps its position, a new key goes last. */
  function Put(e: Entries, k: string, v: Value): Entries {
    if e == [] then [(k, v)]
    else if e[0].0 == k then [(k, v)] + e[1..]
    else [e[0]] + Put(e[1..], k, v)
  }

  /** `d.pop(k)` for a key that may be absent (the caller tests first). */
  function Pop(e: Entries, k: string): (r: Entries)
    ensures |r| <= |e|
  {
    if e == [] then []
    else if e[0].0 == k then e[1..]
    else [e[0]] + Pop(e[1..], k)
  }

  /** `d.update(f)` */
  function Update(e: Entries, f: Entries): Entries
    decreases |f|
  {
    if f == [] then e else Update(Put(e, f[0].0, f[0].1), f[1..])
  }

  lemma {:induction false} GetPut(e: Entries, k: string, v: Value, k': string)
    ensures Get(Put(e, k, v), k') == if k' == k then Some(v) else Get(e, k')
  {
    if e != [] && e[0].0 != k {
      GetPut(e[1..], k, v, k');
    }
  }

  lemma {:induction false} PutKeys(e: Entries, k: string, v: Value)
    ensures Keys(Put(e, k, v)) == if k in Keys(e) then Keys(e) else Keys(e) + [k]
  {
    if e != [] && e[0].0 != k {
      PutKeys(e[1..], k, v);
    }
  }

  lemma {:induction false} PutDistinct(e: Entries, k: string, v: Value)
    requires DistinctKeys(e)
    ensures DistinctKeys(Put(e, k, v))
  {
    var r := Put(e, k, v);
    var ks, ke := Keys(r), Keys(e);
    PutKeys(e, k, v);
    forall i, j | 0 <= i < j < |r|
      ensures r[i].0 != r[j].0
    {
      assert r[i].0 == ks[i] && r[j].0 == ks[j];
      assert ks[i] == ke[i] == e[i].0;
      if j < |e| {
        assert ks[j] == ke[j] == e[j].0;
      } else {
        assert ks[j] == k && k !in ke;
      }
    }
  }

  lemma {:induction false} GetUpdate(e: Entries, f: Entries, k: string)
    requires DistinctKeys(f)
    ensures Get(Update(e, f), k) == if k in Keys(f) then Get(f, k) else Get(e, k)
    decreases |f|
  {
    if f != [] {
      GetUpdate(Put(e, f[0].0, f[0].1), f[1..], k);
      GetPut(e, f[0].0, f[0].1, k);
      assert Keys(f) == [f[0].0] + Keys(f[1..]);
    }
  }

  lemma {:induction false} PutAbsent(e: Entries, k: string, v: Value)
    requires k !in Keys(e)
    ensures Put(e, k, v) == e + [(k, v)]
  {
    if e != [] {
      assert Keys(e) == [e[0].0] + Keys(e[1..]);
      PutAbsent(e[1..], k, v);
    }
  }

  lemma {:induction false} PopLast(e: Entries, k: string, v: Value)
    requires k !in Keys(e)
    ensures Pop(e + [(k, v)], k) == e
  {
    if e != [] {
      assert Keys(e) == [e[0].0] + Keys(e[1..]);
      ConsSnoc(e, (k, v));
      PopLast(e[1..], k, v);
    }
  }

  lemma {:induction false} KeysAppend(e: Entries, f: Entries)
    ensures Keys(e + f) == Keys(e) + Keys(f)
  {
    var l, r := Keys(e + f), Keys(e) + Keys(f);
    forall i | 0 <= i < |l|
      ensures l[i] == r[i]
    {
      if i < |e| {
        assert (e + f)[i] == e[i];
      } else {
        assert (e + f)[i] == f[i - |e|];
      }
    }
  }

  /** Looking up a key added last. */
  lemma {:induction false} GetAppend(e: Entries, k: string, v: Value, k': string)
    ensures Get(e + [(k, v)], k') == if k' in Keys(e) then Get(e, k') else if k' == k then Some(v) else None
  {
    if e != [] {
      assert Keys(e) == [e[0].0] + Keys(e[1..]);
      ConsSnoc(e, (k, v));
      GetAppend(e[1..], k, v, k');
    }
  }

  /** A key that is present is stored at some position. */
  lemma {:induction false} GetIndex(e: Entries, k: string) returns (i: nat)
    requires k in Keys(e)
    ensures i < |e| && e[i].0 == k && Get(e, k) == Some(e[i].1)
  {
    if e[0].0 == k {
      i := 0;
    } else {
      assert Keys(e) == [e[0].0] + Keys(e[1..]);
      var j := GetIndex(e[1..], k);
      i := j + 1;
    }
  }

  /** With distinct keys, the entry at a position is what `Get` finds. */
  lemma {:induction false} GetAt(e: Entries, i: nat)
    requires DistinctKeys(e) && i < |e|
    ensures Get(e, e[i].0) == Some(e[i].1)
  {
    if i > 0 {
      GetAt(e[1..], i - 1);
    }
  }
}
