/** `suggest_config` (search.py:53-76): the flat search space is walked in
    order, each leaf `[kind, args]` is turned into one call of the trial's
    sampler, the sampled values are merged over the flat base configuration,
    the result is expanded into a namespace, and its `out_dir` gets one more
    segment naming the trial. The trial is an object holding its number and
    an injected sampler, and recording every call made to it. */
module Search {
  import opened Values
  import opened Options
  import opened FlattenLaws
  import opened MergeLaws
  import opened ExpandLaws

  // ---------------------------------------------------------------------
  // Requests and the trial

  /** What one `trial.suggest_*` call asks for: `suggest_int(name, low,
      high, step=step, log=log)`, the same for floats, or
      `suggest_categorical(name, choices)`. */
  datatype Request =
    | IntRange(low: Value, high: Value, step: Value, log: Value)
    | FloatRange(low: Value, high: Value, step: Value, log: Value)
    | Categorical(choices: Value)

  /** One call of the sampler: the parameter's name and what was asked. */
  datatype Call = Call(name: string, request: Request)

  /** The trial's sampling: given the calls made so far and a new call, the
      value suggested, or the message of the exception it raises. */
  type Sampler = (seq<Call>, Call) -> Result<Value, string>

  /** The answer to `c` after the calls `calls`, an exception of the sampler
      coming back as an error. */
  function Answer(sampler: Sampler, calls: seq<Call>, c: Call): (r: Result<Value, Error>)
    ensures r.Success? <==> sampler(calls, c).Success?
    ensures r.Success? ==> r.value == sampler(calls, c).value
    ensures r.Failure? ==> r.error == SamplerRaised(sampler(calls, c).error)
  {
    match sampler(calls, c)
    case Success(x) => Success(x)
    case Failure(reason) => Failure(SamplerRaised(reason))
  }

  /** An Optuna trial as `suggest_config` uses it: its number, and the calls
      made to its sampler so far. */
  class Trial {
    const number: nat
    const sampler: Sampler
    var calls: seq<Call>

    constructor (number: nat, sampler: Sampler)
      ensures this.number == number && this.sampler == sampler && calls == []
    {
      this.number := number;
      this.sampler := sampler;
      calls := [];
    }

    /** `trial.suggest_*`: the call is recorded whether it succeeds or not. */
    method Suggest(c: Call) returns (r: Result<Value, Error>)
      modifies this
      ensures calls == old(calls) + [c]
      ensures r == Answer(sampler, old(calls), c)
    {
      r := Answer(sampler, calls, c);
      calls := calls + [c];
    }
  }

  // ---------------------------------------------------------------------
  // Unpacking a leaf of the search space

  /** What iterating `v` yields: the elements of a list or tuple, the
      characters of a string, the keys of a dict; nothing for a value that is
      not iterable. */
  function Items(v: Value): Option<seq<Value>> {
    if v.List? || v.Tuple? then Some(v.elems)
    else if v.Str? then Some(Strs(Chars(v.s)))
    else if v.Dict? then Some(Strs(Keys(v.entries)))
    else None
  }

  /** The one-character strings of `s`, in order. */
  function Chars(s: string): (r: seq<string>)
    ensures |r| == |s|
  {
    if s == [] then [] else [[s[0]]] + Chars(s[1..])
  }

  /** Each string as a string value. */
  function Strs(ss: seq<string>): (r: seq<Value>)
    ensures |r| == |ss|
  {
    if ss == [] then [] else [Str(ss[0])] + Strs(ss[1..])
  }

  /** `x1, ..., xn = v` for `n == arity`: the items of `v` if there are
      exactly `arity` of them, and an error otherwise. */
  function Unpack(v: Value, arity: nat): (r: Result<seq<Value>, Error>)
    ensures r.Success? <==> Items(v).Some? && |Items(v).value| == arity
    ensures r.Success? ==> r.value == Items(v).value
    ensures r.Failure? ==> r.error == CannotUnpack(arity)
  {
    var items := Items(v);
    if items.Some? && |items.value| == arity then Success(items.value)
    else Failure(CannotUnpack(arity))
  }

  lemma {:induction false} CharsAt(s: string, i: nat)
    requires i < |s|
    ensures Chars(s)[i] == [s[i]]
  {
    if i > 0 {
      CharsAt(s[1..], i - 1);
    }
  }

  lemma {:induction false} StrsAt(ss: seq<string>, i: nat)
    requires i < |ss|
    ensures Strs(ss)[i] == Str(ss[i])
  {
    if i > 0 {
      StrsAt(ss[1..], i - 1);
    }
  }

  /** `x1, ..., xn = v` by the kind of `v`: a list or tuple gives its
      elements, a string its characters, a dict its keys, each exactly when
      there are `n` of them; anything else is not iterable. */
  lemma {:induction false} UnpackKinds(v: Value, n: nat)
    ensures (v.List? || v.Tuple?) ==> Unpack(v, n) == if |v.elems| == n then Success(v.elems) else Failure(CannotUnpack(n))
    ensures v.Str? ==> (Unpack(v, n).Success? <==> |v.s| == n)
    ensures v.Str? && |v.s| == n ==> forall i :: 0 <= i < n ==> Unpack(v, n).value[i] == Str([v.s[i]])
    ensures v.Dict? ==> (Unpack(v, n).Success? <==> |v.entries| == n)
    ensures v.Dict? && |v.entries| == n ==> forall i :: 0 <= i < n ==> Unpack(v, n).value[i] == Str(v.entries[i].0)
    ensures !(v.List? || v.Tuple? || v.Str? || v.Dict?) ==> Unpack(v, n) == Failure(CannotUnpack(n))
  {
    if v.Str? && |v.s| == n {
      forall i | 0 <= i < n
        ensures Unpack(v, n).value[i] == Str([v.s[i]])
      {
        StrsAt(Chars(v.s), i);
        CharsAt(v.s, i);
      }
    }
    if v.Dict? && |v.entries| == n {
      forall i | 0 <= i < n
        ensures Unpack(v, n).value[i] == Str(v.entries[i].0)
      {
        StrsAt(Keys(v.entries), i);
      }
    }
  }

  /** The call one leaf `v == [kind, args]` of the search space asks for. */
  function RequestOf(v: Value): Result<Request, Error> {
    var pair :- Unpack(v, 2);
    var kind := pair[0];
    var args := pair[1];
    if kind == Str("int") then
      var a :- Unpack(args, 4);
      Success(IntRange(a[0], a[1], a[2], a[3]))
    else if kind == Str("float") then
      var a :- Unpack(args, 4);
      Success(FloatRange(a[0], a[1], a[2], a[3]))
    else if kind == Str("categorical") then
      Success(Categorical(args))
    else
      Failure(UnsupportedKind(kind))
  }

  /** The three kinds and nothing else are accepted; `int` and `float`
      forward the four items of `args` in order, `categorical` forwards
      `args` itself. */
  lemma {:induction false} RequestOfKinds(kind: Value, args: Value)
    ensures var r := RequestOf(List([kind, args]));
            && (kind == Str("int") && Unpack(args, 4).Success? ==>
                  var a := Items(args).value; r == Success(IntRange(a[0], a[1], a[2], a[3])))
            && (kind == Str("float") && Unpack(args, 4).Success? ==>
                  var a := Items(args).value; r == Success(FloatRange(a[0], a[1], a[2], a[3])))
            && ((kind == Str("int") || kind == Str("float")) && Unpack(args, 4).Failure? ==>
                  r == Failure(CannotUnpack(4)))
            && (kind == Str("categorical") ==> r == Success(Categorical(args)))
            && (kind != Str("int") && kind != Str("float") && kind != Str("categorical") ==>
                  r == Failure(UnsupportedKind(kind)))
  {
    assert Unpack(List([kind, args]), 2) == Success([kind, args]);
  }

  /** A leaf that is not a pair is refused before any call. */
  lemma {:induction false} RequestNeedsPair(v: Value)
    requires Items(v).None? || |Items(v).value| != 2
    ensures RequestOf(v) == Failure(CannotUnpack(2))
  {
  }

  /** The leaf `["int", [1, 10, 1, False]]` asks for `suggest_int(k, 1, 10,
      step=1, log=False)`. */
  lemma {:induction false} IntLeafExample()
    ensures RequestOf(List([Str("int"), List([Int(1), Int(10), Int(1), Bool(false)])]))
         == Success(IntRange(Int(1), Int(10), Int(1), Bool(false)))
  {
    RequestOfKinds(Str("int"), List([Int(1), Int(10), Int(1), Bool(false)]));
  }

  // ---------------------------------------------------------------------
  // Sampling the search space

  /** The candidate dict after the loop, or the error that ended it, and the
      calls the trial has recorded. */
  datatype Sampling = Sampling(candidate: Result<Entries, Error>, calls: seq<Call>)

  /** The loop of `suggest_config` (search.py:60-71) after the first `n`
      leaves of the flat search space, starting from the calls `start`. */
  function SampledUpTo(tune: Entries, sampler: Sampler, start: seq<Call>, n: nat): Sampling
    requires n <= |tune|
  {
    if n == 0 then Sampling(Success([]), start)
    else
      var prev := SampledUpTo(tune, sampler, start, n - 1);
      if prev.candidate.Failure? then prev
      else
        var (k, v) := tune[n - 1];
        match RequestOf(v)
        case Failure(e) => Sampling(Failure(e), prev.calls)
        case Success(req) =>
          var c := Call(k, req);
          match Answer(sampler, prev.calls, c)
          case Failure(e) => Sampling(Failure(e), prev.calls + [c])
          case Success(x) => Sampling(Success(Put(prev.candidate.value, k, x)), prev.calls + [c])
  }

  function Sampled(tune: Entries, sampler: Sampler, start: seq<Call>): Sampling {
    SampledUpTo(tune, sampler, start, |tune|)
  }

  lemma {:induction false} SampledFailureSticks(tune: Entries, sampler: Sampler, start: seq<Call>, n: nat)
    requires n <= |tune| && SampledUpTo(tune, sampler, start, n).candidate.Failure?
    ensures Sampled(tune, sampler, start) == SampledUpTo(tune, sampler, start, n)
    decreases |tune| - n
  {
    if n < |tune| {
      assert SampledUpTo(tune, sampler, start, n + 1) == SampledUpTo(tune, sampler, start, n);
      SampledFailureSticks(tune, sampler, start, n + 1);
    }
  }

  /** After `start`, the calls `calls` hold one call per leaf among the first
      `n`, in order, each named after its leaf and asking what the leaf
      says. */
  predicate Traced(tune: Entries, start: seq<Call>, calls: seq<Call>, n: nat)
    requires n <= |tune|
  {
    && |calls| >= |start| + n
    && calls[..|start|] == start
    && forall i :: 0 <= i < n ==>
         RequestOf(tune[i].1).Success? && calls[|start| + i] == Call(tune[i].0, RequestOf(tune[i].1).value)
  }

  lemma {:induction false} TracedSnoc(tune: Entries, start: seq<Call>, calls: seq<Call>, n: nat, c: Call)
    requires n < |tune| && Traced(tune, start, calls, n) && |calls| == |start| + n
    requires RequestOf(tune[n].1).Success? && c == Call(tune[n].0, RequestOf(tune[n].1).value)
    ensures Traced(tune, start, calls + [c], n + 1)
  {
    var calls' := calls + [c];
    assert calls'[..|start|] == calls[..|start|];
    forall i | 0 <= i < n + 1
      ensures RequestOf(tune[i].1).Success? && calls'[|start| + i] == Call(tune[i].0, RequestOf(tune[i].1).value)
    {
      if i < n {
        assert calls'[|start| + i] == calls[|start| + i];
      }
    }
  }

  lemma {:induction false} TracedPrefix(tune: Entries, start: seq<Call>, calls: seq<Call>, n: nat)
    requires n <= |tune| && Traced(tune, start, calls, n)
    ensures Traced(tune, start, calls[..|start| + n], n)
  {
    var pre := calls[..|start| + n];
    assert pre[..|start|] == calls[..|start|];
    forall i | 0 <= i < n
      ensures RequestOf(tune[i].1).Success? && pre[|start| + i] == Call(tune[i].0, RequestOf(tune[i].1).value)
    {
      assert pre[|start| + i] == calls[|start| + i];
    }
  }

  /** The loop stopped at leaf `j`: refused before its call, or its call
      raised; no leaf after `j` was sampled. */
  predicate StoppedAt(tune: Entries, sampler: Sampler, start: seq<Call>, s: Sampling, j: nat)
    requires j < |tune|
  {
    && s.candidate.Failure?
    && Traced(tune, start, s.calls, j)
    && ((|s.calls| == |start| + j && RequestOf(tune[j].1) == Failure(s.candidate.error)) ||
        (|s.calls| == |start| + j + 1 && RequestOf(tune[j].1).Success? &&
         s.calls[|start| + j] == Call(tune[j].0, RequestOf(tune[j].1).value) &&
         Answer(sampler, s.calls[..|start| + j], s.calls[|start| + j]) == Failure(s.candidate.error)))
  }

  /** How the loop ended after `n` leaves: with every leaf sampled, or
      stopped at some leaf before `n`. */
  predicate SampledShape(tune: Entries, sampler: Sampler, start: seq<Call>, s: Sampling, n: nat)
    requires n <= |tune|
  {
    if s.candidate.Success? then
      |s.calls| == |start| + n && Traced(tune, start, s.calls, n)
    else
      exists j :: 0 <= j < n && StoppedAt(tune, sampler, start, s, j)
  }

  lemma {:induction false} SampledCallsUpTo(tune: Entries, sampler: Sampler, start: seq<Call>, n: nat)
    requires n <= |tune|
    ensures SampledShape(tune, sampler, start, SampledUpTo(tune, sampler, start, n), n)
  {
    if n > 0 {
      SampledCallsUpTo(tune, sampler, start, n - 1);
      var prev := SampledUpTo(tune, sampler, start, n - 1);
      if prev.candidate.Failure? {
        var j :| 0 <= j < n - 1 && StoppedAt(tune, sampler, start, prev, j);
        assert SampledUpTo(tune, sampler, start, n) == prev;
      } else {
        SampledCallsStep(tune, sampler, start, n);
      }
    }
  }

  /** A leaf sampled after all earlier ones succeeded extends the trace by
      its own call, or stops the loop there. */
  lemma {:induction false} SampledCallsStep(tune: Entries, sampler: Sampler, start: seq<Call>, n: nat)
    requires 0 < n <= |tune|
    requires SampledUpTo(tune, sampler, start, n - 1).candidate.Success?
    requires SampledShape(tune, sampler, start, SampledUpTo(tune, sampler, start, n - 1), n - 1)
    ensures SampledShape(tune, sampler, start, SampledUpTo(tune, sampler, start, n), n)
  {
    var prev := SampledUpTo(tune, sampler, start, n - 1);
    var s := SampledUpTo(tune, sampler, start, n);
    var (k, v) := tune[n - 1];
    if RequestOf(v).Success? {
      var c := Call(k, RequestOf(v).value);
      assert s.calls == prev.calls + [c];
      TracedSnoc(tune, start, prev.calls, n - 1, c);
      if s.candidate.Failure? {
        TracedPrefix(tune, start, prev.calls + [c], n - 1);
        assert (prev.calls + [c])[..|start| + n - 1] == prev.calls;
        assert (prev.calls + [c])[|start| + n - 1] == c;
        assert StoppedAt(tune, sampler, start, s, n - 1);
      }
    } else {
      assert StoppedAt(tune, sampler, start, s, n - 1);
    }
  }

  /** One call per leaf, in order, and nothing after a leaf that fails. */
  lemma {:induction false} SampledCalls(tune: Entries, sampler: Sampler, start: seq<Call>)
    ensures SampledShape(tune, sampler, start, Sampled(tune, sampler, start), |tune|)
  {
    SampledCallsUpTo(tune, sampler, start, |tune|);
  }

  /** The value the sampler gave for leaf `i`, given the recorded calls. */
  function SampledValue(sampler: Sampler, start: seq<Call>, calls: seq<Call>, i: nat): Result<Value, Error>
    requires |start| + i < |calls|
  {
    Answer(sampler, calls[..|start| + i], calls[|start| + i])
  }

  /** The calls made for the first `n` leaves and their answers. */
  predicate Answered(tune: Entries, sampler: Sampler, start: seq<Call>, s: Sampling, n: nat)
    requires n <= |tune| && s.candidate.Success?
  {
    && |s.calls| == |start| + n
    && Keys(s.candidate.value) == Keys(tune[..n])
    && forall i :: 0 <= i < n ==>
         SampledValue(sampler, start, s.calls, i).Success? &&
         Get(s.candidate.value, tune[i].0) == Some(SampledValue(sampler, start, s.calls, i).value)
  }

  lemma {:induction false} SampledCandidateUpTo(tune: Entries, sampler: Sampler, start: seq<Call>, n: nat)
    requires n <= |tune| && DistinctKeys(tune)
    requires SampledUpTo(tune, sampler, start, n).candidate.Success?
    ensures Answered(tune, sampler, start, SampledUpTo(tune, sampler, start, n), n)
  {
    if n > 0 {
      SampledCandidateUpTo(tune, sampler, start, n - 1);
      var prev := SampledUpTo(tune, sampler, start, n - 1);
      var (k, v) := tune[n - 1];
      var c := Call(k, RequestOf(v).value);
      var x := Answer(sampler, prev.calls, c).value;
      assert SampledUpTo(tune, sampler, start, n) == Sampling(Success(Put(prev.candidate.value, k, x)), prev.calls + [c]);
      CandidateStep(tune, sampler, start, prev, n, c, x);
    }
  }

  lemma {:induction false} CandidateStep(tune: Entries, sampler: Sampler, start: seq<Call>, prev: Sampling, n: nat, c: Call, x: Value)
    requires 0 < n <= |tune| && DistinctKeys(tune) && prev.candidate.Success?
    requires Answered(tune, sampler, start, prev, n - 1)
    requires c.name == tune[n - 1].0 && Answer(sampler, prev.calls, c) == Success(x)
    ensures Answered(tune, sampler, start, Sampling(Success(Put(prev.candidate.value, c.name, x)), prev.calls + [c]), n)
  {
    var cand := prev.candidate.value;
    var (k, v) := tune[n - 1];
    assert k !in Keys(tune[..n - 1]) by {
      assert forall j :: 0 <= j < n - 1 ==> Keys(tune[..n - 1])[j] == tune[j].0;
    }
    TakeSnoc(tune, n);
    KeysAppend(tune[..n - 1], [(k, v)]);
    PutAbsent(cand, k, x);
    KeysAppend(cand, [(k, x)]);
    assert Keys(Put(cand, k, x)) == Keys(tune[..n]);
    CandidateLookups(tune, sampler, start, prev, n, c, x);
  }

  lemma {:induction false} CandidateLookups(tune: Entries, sampler: Sampler, start: seq<Call>, prev: Sampling, n: nat, c: Call, x: Value)
    requires 0 < n <= |tune| && DistinctKeys(tune) && prev.candidate.Success?
    requires Answered(tune, sampler, start, prev, n - 1)
    requires c.name == tune[n - 1].0 && Answer(sampler, prev.calls, c) == Success(x)
    ensures var calls := prev.calls + [c];
            forall i :: 0 <= i < n ==>
              SampledValue(sampler, start, calls, i).Success? &&
              Get(Put(prev.candidate.value, c.name, x), tune[i].0) == Some(SampledValue(sampler, start, calls, i).value)
  {
    var cand := prev.candidate.value;
    var k := c.name;
    var calls := prev.calls + [c];
    assert calls[..|start| + n - 1] == prev.calls;
    forall i | 0 <= i < n
      ensures SampledValue(sampler, start, calls, i).Success? &&
              Get(Put(cand, k, x), tune[i].0) == Some(SampledValue(sampler, start, calls, i).value)
    {
      GetPut(cand, k, x, tune[i].0);
      if i < n - 1 {
        assert calls[..|start| + i] == prev.calls[..|start| + i];
        assert calls[|start| + i] == prev.calls[|start| + i];
        assert tune[i].0 != k;
      }
    }
  }

  /** With every leaf sampled, the candidate dict holds exactly the leaves'
      keys, each with the value sampled for it. */
  lemma {:induction false} SampledCandidate(tune: Entries, sampler: Sampler, start: seq<Call>)
    requires DistinctKeys(tune)
    requires Sampled(tune, sampler, start).candidate.Success?
    ensures var s := Sampled(tune, sampler, start);
            && |s.calls| == |start| + |tune|
            && Keys(s.candidate.value) == Keys(tune)
            && forall i :: 0 <= i < |tune| ==>
                 SampledValue(sampler, start, s.calls, i).Success? &&
                 Get(s.candidate.value, tune[i].0) == Some(SampledValue(sampler, start, s.calls, i).value)
  {
    SampledCandidateUpTo(tune, sampler, start, |tune|);
    assert tune[..|tune|] == tune;
  }

  // ---------------------------------------------------------------------
  // The trial's directory

  function DigitChar(d: nat): (c: char)
    requires d < 10
    ensures '0' <= c <= '9' && c as int - '0' as int == d
  {
    ('0' as int + d) as char
  }

  /** `str(n)` for a non-negative `n`: its decimal digits. */
  function Digits(n: nat): (s: string)
    ensures |s| >= 1
    decreases n
  {
    if n < 10 then [DigitChar(n)] else Digits(n / 10) + [DigitChar(n % 10)]
  }

  /** `f"{n:04d}"`: the digits of `n`, padded with zeros to four. */
  function Pad4(n: nat): string {
    var s := Digits(n);
    if |s| < 4 then seq(4 - |s|, _ => '0') + s else s
  }

  /** The last segment `suggest_config` adds to `out_dir`. */
  function TrialDirName(number: nat): string {
    "trial_" + Pad4(number)
  }

  predicate AllDigits(s: string) {
    forall i :: 0 <= i < |s| ==> '0' <= s[i] <= '9'
  }

  /** The number a string of decimal digits denotes. */
  function DecimalValue(s: string): nat
    requires AllDigits(s)
  {
    if s == [] then 0
    else DecimalValue(s[..|s| - 1]) * 10 + (s[|s| - 1] as int - '0' as int)
  }

  lemma {:induction false} DigitsDenote(n: nat)
    ensures AllDigits(Digits(n)) && DecimalValue(Digits(n)) == n
    decreases n
  {
    if n >= 10 {
      DigitsDenote(n / 10);
      var s := Digits(n);
      assert s[..|s| - 1] == Digits(n / 10);
      assert s[|s| - 1] == DigitChar(n % 10);
    }
  }

  function Pow10(k: nat): nat {
    if k == 0 then 1 else 10 * Pow10(k - 1)
  }

  lemma {:induction false} DigitsLength(n: nat, k: nat)
    requires 1 <= k && n < Pow10(k)
    ensures |Digits(n)| <= k
    decreases n
  {
    if n >= 10 {
      DigitsLength(n / 10, k - 1);
    }
  }

  lemma {:induction false} LeadingZeros(z: nat, s: string)
    requires AllDigits(s)
    ensures AllDigits(seq(z, _ => '0') + s)
    ensures DecimalValue(seq(z, _ => '0') + s) == DecimalValue(s)
    decreases |s|
  {
    var zs: string := seq(z, _ => '0');
    if s == [] {
      assert zs + s == zs;
      var k := 0;
      while k < z
        invariant k <= z
        invariant DecimalValue(zs[..k]) == 0
      {
        assert zs[..k + 1][..k] == zs[..k];
        k := k + 1;
      }
      assert zs[..z] == zs;
    } else {
      LeadingZeros(z, s[..|s| - 1]);
      assert (zs + s)[..|zs + s| - 1] == zs + s[..|s| - 1];
    }
  }

  /** A positive number's digits do not start with a zero. */
  lemma {:induction false} DigitsLead(n: nat)
    requires n >= 1
    ensures Digits(n)[0] != '0'
    decreases n
  {
    if n >= 10 {
      DigitsLead(n / 10);
    }
  }

  /** The number is below ten to the power of its digit count. */
  lemma {:induction false} DigitsBound(n: nat)
    ensures n < Pow10(|Digits(n)|)
    decreases n
  {
    if n >= 10 {
      DigitsBound(n / 10);
    }
  }

  /** From 1000 on nothing is padded, and no zero leads. */
  lemma {:induction false} Pad4Unpadded(n: nat)
    requires n >= 1000
    ensures Pad4(n) == Digits(n) && Pad4(n)[0] != '0'
  {
    DigitsBound(n);
    assert Pow10(3) == 1000;
    DigitsLead(n);
  }

  /** The padded number is at least four digits, exactly four below 10000,
      and denotes the trial number; from 1000 on it has no leading zero, so
      at and above 10000 it is exactly the decimal digits of the number. */
  lemma {:induction false} Pad4Denotes(n: nat)
    ensures AllDigits(Pad4(n)) && DecimalValue(Pad4(n)) == n
    ensures |Pad4(n)| >= 4 && (n < 10000 ==> |Pad4(n)| == 4)
    ensures n >= 1000 ==> Pad4(n)[0] != '0'
  {
    DigitsDenote(n);
    if n >= 1000 {
      Pad4Unpadded(n);
    }
    if n < 10000 {
      assert Pow10(4) == 10000;
      DigitsLength(n, 4);
    }
    var s := Digits(n);
    if |s| < 4 {
      LeadingZeros(4 - |s|, s);
    }
  }

  lemma {:induction false} Pad4Examples()
    ensures Pad4(7) == "0007"
    ensures Pad4(12345) == "12345"
  {
    assert Digits(7) == "7";
    assert seq(3, _ => '0') == "000";
    assert Digits(1) == "1";
    assert Digits(12) == "12";
    assert Digits(123) == "123";
    assert Digits(1234) == "1234";
    assert Digits(12345) == "12345";
  }

  /** `trial_opt.out_dir = trial_opt.out_dir / f"trial_{number:04d}"`. */
  function WithTrialDir(attrs: Entries, number: nat): Result<Entries, Error> {
    match Get(attrs, "out_dir")
    case None => Failure(MissingAttribute("out_dir"))
    case Some(p) =>
      if p.Path? then Success(Put(attrs, "out_dir", Path(p.parts + [TrialDirName(number)])))
      else Failure(NotAPath(p))
  }

  /** `out_dir` gets the trial's segment; every other attribute is kept. */
  lemma {:induction false} WithTrialDirLookup(attrs: Entries, number: nat, name: string)
    requires WithTrialDir(attrs, number).Success?
    ensures Get(attrs, "out_dir").Some? && Get(attrs, "out_dir").value.Path?
    ensures var r := WithTrialDir(attrs, number).value;
            && Keys(r) == Keys(attrs)
            && Get(r, "out_dir") == Some(Path(Get(attrs, "out_dir").value.parts + [TrialDirName(number)]))
            && (name != "out_dir" ==> Get(r, name) == Get(attrs, name))
  {
    var p := Get(attrs, "out_dir").value;
    var x := Path(p.parts + [TrialDirName(number)]);
    PutKeys(attrs, "out_dir", x);
    GetPut(attrs, "out_dir", x, name);
    GetPut(attrs, "out_dir", x, "out_dir");
  }

  /** A value `to_dict` and `_flatten_dict` store as it is. */
  predicate Scalar(v: Value) {
    !v.Dict? && !v.Opt?
  }

  /** `e` and `f` have the same keys in the same order and the same values,
      except that under `key` both may hold different scalars. */
  predicate AgreeExcept(e: Entries, f: Entries, key: string) {
    && |e| == |f|
    && forall i :: 0 <= i < |e| ==>
         e[i].0 == f[i].0 && (e[i].1 == f[i].1 || (e[i].0 == key && Scalar(e[i].1) && Scalar(f[i].1)))
  }

  lemma {:induction false} AgreeKeys(e: Entries, f: Entries, key: string)
    requires AgreeExcept(e, f, key)
    ensures Keys(e) == Keys(f)
  {
    var ke, kf := Keys(e), Keys(f);
    forall i | 0 <= i < |ke|
      ensures ke[i] == kf[i]
    {
      assert ke[i] == e[i].0 && kf[i] == f[i].0;
    }
  }

  lemma {:induction false} AgreeTail(e: Entries, f: Entries, key: string)
    requires AgreeExcept(e, f, key) && e != []
    ensures AgreeExcept(e[1..], f[1..], key)
  {
    forall i | 0 <= i < |e| - 1
      ensures e[1..][i] == e[i + 1] && f[1..][i] == f[i + 1]
    {
    }
  }

  lemma {:induction false} AgreePut(e: Entries, f: Entries, key: string, k: string, v: Value, w: Value)
    requires AgreeExcept(e, f, key)
    requires v == w || (k == key && Scalar(v) && Scalar(w))
    ensures AgreeExcept(Put(e, k, v), Put(f, k, w), key)
  {
    if e != [] {
      assert e[0].0 == f[0].0;
      AgreeTail(e, f, key);
      if e[0].0 != k {
        AgreePut(e[1..], f[1..], key, k, v, w);
      }
    }
  }

  lemma {:induction false} AgreePop(e: Entries, f: Entries, key: string, k: string)
    requires AgreeExcept(e, f, key)
    ensures AgreeExcept(Pop(e, k), Pop(f, k), key)
  {
    if e != [] {
      assert e[0].0 == f[0].0;
      AgreeTail(e, f, key);
      if e[0].0 != k {
        AgreePop(e[1..], f[1..], key, k);
      }
    }
  }

  /** `d[key] = x` on a key that holds a scalar changes only that value. */
  lemma {:induction false} AgreePutFirst(e: Entries, key: string, x: Value)
    requires Get(e, key).Some? && Scalar(Get(e, key).value) && Scalar(x)
    ensures AgreeExcept(e, Put(e, key, x), key)
  {
    var r := Put(e, key, x);
    if e[0].0 == key {
      forall i | 0 <= i < |e|
        ensures e[i].0 == r[i].0 && (e[i].1 == r[i].1 || (e[i].0 == key && Scalar(e[i].1) && Scalar(r[i].1)))
      {
        if i > 0 {
          assert r[i] == e[1..][i - 1];
        }
      }
    } else {
      AgreePutFirst(e[1..], key, x);
      forall i | 0 <= i < |e|
        ensures e[i].0 == r[i].0 && (e[i].1 == r[i].1 || (e[i].0 == key && Scalar(e[i].1) && Scalar(r[i].1)))
      {
        if i > 0 {
          assert r[i] == Put(e[1..], key, x)[i - 1] && e[i] == e[1..][i - 1];
        }
      }
    }
  }

  /** `to_dict` keeps the agreement: the same keys are evicted and stored. */
  lemma {:induction false} PlainDictAgree(e: Entries, f: Entries, key: string, n: nat)
    requires n <= |e| && AgreeExcept(e, f, key)
    ensures AgreeExcept(PlainDictUpTo(e, n), PlainDictUpTo(f, n), key)
  {
    if n > 0 {
      PlainDictAgree(e, f, key, n - 1);
      var acc, acc' := PlainDictUpTo(e, n - 1), PlainDictUpTo(f, n - 1);
      var (k, v) := e[n - 1];
      var w := f[n - 1].1;
      var skey := RStrip(k);
      AgreeKeys(acc, acc', key);
      var ev := if skey in Keys(acc) then Pop(acc, skey) else acc;
      var ev' := if skey in Keys(acc') then Pop(acc', skey) else acc';
      if skey in Keys(acc) {
        AgreePop(acc, acc', key, skey);
      }
      var x := if v.Opt? then Dict(PlainDict(v.attrs)) else v;
      var y := if w.Opt? then Dict(PlainDict(w.attrs)) else w;
      AgreePut(ev, ev', key, k, x, y);
      assert PlainDictUpTo(e, n) == Put(ev, k, x);
      assert PlainDictUpTo(f, n) == Put(ev', k, y);
    }
  }

  /** Flattening two agreeing dicts gives the same value under every key
      other than `key`. */
  lemma {:induction false} FlattenedAgree(e: Entries, f: Entries, key: string, n: nat, k: string)
    requires n <= |e| && AgreeExcept(e, f, key) && k != key
    ensures Get(FlattenedUpTo(e, None, n), k) == Get(FlattenedUpTo(f, None, n), k)
  {
    if n > 0 {
      FlattenedAgree(e, f, key, n - 1, k);
      var acc, acc' := FlattenedUpTo(e, None, n - 1), FlattenedUpTo(f, None, n - 1);
      var (kk, v) := e[n - 1];
      var w := f[n - 1].1;
      if v == w && v.Dict? {
        var sub := Flattened(v.entries, Some(ChildKey(None, kk)));
        FlatDistinct(v.entries, Some(ChildKey(None, kk)));
        GetUpdate(acc, sub, k);
        GetUpdate(acc', sub, k);
      } else {
        GetPut(acc, kk, v, k);
        GetPut(acc', kk, w, k);
      }
    }
  }

  /** The trial's directory changes no flat key of the configuration other
      than `out_dir`. */
  lemma {:induction false} WithTrialDirFlat(attrs: Entries, number: nat, k: string)
    requires WithTrialDir(attrs, number).Success? && k != "out_dir"
    ensures Get(FlatOf(WithTrialDir(attrs, number).value), k) == Get(FlatOf(attrs), k)
  {
    var p := Get(attrs, "out_dir").value;
    var x := Path(p.parts + [TrialDirName(number)]);
    var r := Put(attrs, "out_dir", x);
    AgreePutFirst(attrs, "out_dir", x);
    PlainDictAgree(attrs, r, "out_dir", |attrs|);
    var d, d' := PlainDict(attrs), PlainDict(r);
    FlattenedAgree(d, d', "out_dir", |d|, k);
  }

  // ---------------------------------------------------------------------
  // suggest_config

  /** The namespace `suggest_config` returns, or the exception it raises,
      and the calls the trial recorded. */
  datatype Outcome = Outcome(config: Result<Entries, Error>, calls: seq<Call>)

  /** Merging the candidate over the flat base, expanding, and setting the
      trial's directory (search.py:73-75). */
  function Configured(flatBase: Entries, candidate: Entries, number: nat): Result<Entries, Error> {
    var merged :- Merged(Dict(flatBase), candidate);
    MergedKeys(flatBase, candidate);
    var opt :- FromFlat(merged.entries);
    WithTrialDir(opt, number)
  }

  function SuggestedConfig(base: Entries, tune: Entries, number: nat, sampler: Sampler, start: seq<Call>): Outcome {
    var s := Sampled(FlatOf(tune), sampler, start);
    if s.candidate.Failure? then Outcome(Failure(s.candidate.error), s.calls)
    else Outcome(Configured(FlatOf(base), s.candidate.value, number), s.calls)
  }

  /** What the loop of `suggest_config` does at leaf `i`, once the leaves
      before it have all been sampled. */
  lemma {:induction false} SampledNext(tune: Entries, sampler: Sampler, start: seq<Call>, i: nat, candidate: Entries, calls: seq<Call>)
    requires i < |tune| && SampledUpTo(tune, sampler, start, i) == Sampling(Success(candidate), calls)
    ensures RequestOf(tune[i].1).Failure? ==>
              Sampled(tune, sampler, start) == Sampling(Failure(RequestOf(tune[i].1).error), calls)
    ensures RequestOf(tune[i].1).Success? ==>
              var c := Call(tune[i].0, RequestOf(tune[i].1).value);
              && (Answer(sampler, calls, c).Failure? ==>
                    Sampled(tune, sampler, start) == Sampling(Failure(Answer(sampler, calls, c).error), calls + [c]))
              && (Answer(sampler, calls, c).Success? ==>
                    SampledUpTo(tune, sampler, start, i + 1) ==
                    Sampling(Success(Put(candidate, tune[i].0, Answer(sampler, calls, c).value)), calls + [c]))
  {
    if SampledUpTo(tune, sampler, start, i + 1).candidate.Failure? {
      SampledFailureSticks(tune, sampler, start, i + 1);
    }
  }

  /** The branches of the loop body of `suggest_config` that turn a leaf
      `(kind, args)` into the request for the trial. */
  method LeafRequest(v: Value) returns (r: Result<Request, Error>)
    ensures r == RequestOf(v)
  {
    var pair := Unpack(v, 2);
    if pair.Failure? {
      return Failure(pair.error);
    }
    var kind, args := pair.value[0], pair.value[1];
    if kind == Str("int") || kind == Str("float") {
      var a := Unpack(args, 4);
      if a.Failure? {
        return Failure(a.error);
      }
      var low, high, step, log := a.value[0], a.value[1], a.value[2], a.value[3];
      if kind == Str("int") {
        return Success(IntRange(low, high, step, log));
      }
      return Success(FloatRange(low, high, step, log));
    } else if kind == Str("categorical") {
      return Success(Categorical(args));
    }
    return Failure(UnsupportedKind(kind));
  }

  /** `suggest_config(trial, base_hp, tune_hp)`. The flat copy of the base
      configuration is updated in place by `_recursive_update`. */
  method SuggestConfig(trial: Trial, base: Entries, tune: Entries) returns (r: Result<Entries, Error>)
    modifies trial
    ensures Outcome(r, trial.calls) == SuggestedConfig(base, tune, trial.number, trial.sampler, old(trial.calls))
  {
    var flatBase := ToFlatDict(base);
    var flatTune := ToFlatDict(tune);
    var candidate := SampleLeaves(trial, flatTune);
    if candidate.Failure? {
      return Failure(candidate.error);
    }
    r := ConfigureTrial(flatBase, candidate.value, trial.number);
  }

  /** The sampling loop of `suggest_config`: one request to the trial per
      leaf of the flat search space, in order, stopping at the first error. */
  method SampleLeaves(trial: Trial, flatTune: Entries) returns (r: Result<Entries, Error>)
    modifies trial
    ensures Sampling(r, trial.calls) == Sampled(flatTune, trial.sampler, old(trial.calls))
  {
    ghost var start := trial.calls;
    var candidate: Entries := [];
    var i := 0;
    while i < |flatTune|
      invariant i <= |flatTune|
      invariant SampledUpTo(flatTune, trial.sampler, start, i) == Sampling(Success(candidate), trial.calls)
    {
      var (k, v) := flatTune[i];
      SampledNext(flatTune, trial.sampler, start, i, candidate, trial.calls);
      var request := LeafRequest(v);
      if request.Failure? {
        return Failure(request.error);
      }
      var x := trial.Suggest(Call(k, request.value));
      if x.Failure? {
        return Failure(x.error);
      }
      candidate := Put(candidate, k, x.value);
      i := i + 1;
    }
    return Success(candidate);
  }

  /** The rest of `suggest_config`: the sampled leaves merged into a flat
      copy of the base configuration, expanded into a namespace, and the
      trial's directory appended to `out_dir`. */
  method ConfigureTrial(flatBase: Entries, candidate: Entries, number: nat) returns (r: Result<Entries, Error>)
    ensures r == Configured(flatBase, candidate, number)
  {
    var target := new DictObject(flatBase);
    var merged := MergeInto(target, candidate);
    if merged.Failure? {
      return Failure(merged.error);
    }
    var opt := FromFlatDict(target.entries);
    if opt.Failure? {
      return Failure(opt.error);
    }
    var trialOpt := opt.value;
    var outDir := Get(trialOpt, "out_dir");
    if outDir.None? {
      return Failure(MissingAttribute("out_dir"));
    }
    if !outDir.value.Path? {
      return Failure(NotAPath(outDir.value));
    }
    trialOpt := Put(trialOpt, "out_dir", Path(outDir.value.parts + [TrialDirName(number)]));
    return Success(trialOpt);
  }

  // ---------------------------------------------------------------------
  // What the trial's configuration holds

  /** A sampler that never suggests a dict, as Optuna's `suggest_*` do not. */
  ghost predicate ScalarSampler(sampler: Sampler) {
    forall calls, c :: sampler(calls, c).Success? ==> !sampler(calls, c).value.Dict?
  }

  lemma {:induction false} SampledScalarUpTo(tune: Entries, sampler: Sampler, start: seq<Call>, n: nat)
    requires n <= |tune| && ScalarSampler(sampler)
    requires SampledUpTo(tune, sampler, start, n).candidate.Success?
    ensures NoDictValues(SampledUpTo(tune, sampler, start, n).candidate.value)
  {
    if n > 0 {
      SampledScalarUpTo(tune, sampler, start, n - 1);
      var prev := SampledUpTo(tune, sampler, start, n - 1);
      var (k, v) := tune[n - 1];
      var x := Answer(sampler, prev.calls, Call(k, RequestOf(v).value)).value;
      PutNoDict(prev.candidate.value, k, x);
    }
  }

  /** When every leaf was sampled, the merged flat dict is the flat base
      updated with the candidate: a tuned key holds its sampled value, any
      other key its base value. The merge cannot fail, so what fails after
      sampling is the expansion or the trial's directory. */
  lemma {:induction false} SuggestedMerge(base: Entries, tune: Entries, number: nat, sampler: Sampler, start: seq<Call>, k: string)
    requires ScalarSampler(sampler)
    requires Sampled(FlatOf(tune), sampler, start).candidate.Success?
    ensures var flatBase := FlatOf(base);
            var s := Sampled(FlatOf(tune), sampler, start);
            var merged := Update(flatBase, s.candidate.value);
            && Merged(Dict(flatBase), s.candidate.value) == Success(Dict(merged))
            && SuggestedConfig(base, tune, number, sampler, start).config
               == (var opt :- FromFlat(merged); WithTrialDir(opt, number))
            && DistinctKeys(merged) && NoDictValues(merged)
            && Get(merged, k) == if k in Keys(FlatOf(tune)) then Get(s.candidate.value, k) else Get(flatBase, k)
  {
    var flatBase := FlatOf(base);
    var flatTune := FlatOf(tune);
    FlatDistinct(PlainDict(tune), None);
    FlatDistinct(PlainDict(base), None);
    FlatHasNoDicts(PlainDict(base), None);
    var s := Sampled(flatTune, sampler, start);
    SampledCandidate(flatTune, sampler, start);
    SampledScalarUpTo(flatTune, sampler, start, |flatTune|);
    var cand := s.candidate.value;
    assert DistinctKeys(cand) by {
      forall i, j | 0 <= i < j < |cand| ensures cand[i].0 != cand[j].0 {
        assert Keys(cand)[i] == Keys(flatTune)[i] && Keys(cand)[j] == Keys(flatTune)[j];
      }
    }
    MergedFlat(flatBase, cand);
    UpdateDistinct(flatBase, cand);
    UpdateNoDict(flatBase, cand);
    GetUpdate(flatBase, cand, k);
  }

  /** The whole promise of `suggest_config` for one tuned leaf `i`: unless
      the trial's directory cannot be set, the configuration it returns
      holds, under the leaf's flat key, the value the sampler gave, provided
      the merged flat dict is one the expansion inverts. `out_dir` itself is
      `WithTrialDirLookup`'s. */
  lemma {:induction false} SuggestedTunedLeaf(base: Entries, tune: Entries, number: nat, sampler: Sampler, start: seq<Call>, i: nat)
    requires ScalarSampler(sampler)
    requires i < |FlatOf(tune)|
    requires Sampled(FlatOf(tune), sampler, start).candidate.Success?
    requires var merged := Update(FlatOf(base), Sampled(FlatOf(tune), sampler, start).candidate.value);
             FlatInput(merged) && AliasFree(merged) && NoOptValues(merged)
    ensures var s := Sampled(FlatOf(tune), sampler, start);
            var config := SuggestedConfig(base, tune, number, sampler, start).config;
            && |s.calls| == |start| + |FlatOf(tune)|
            && SampledValue(sampler, start, s.calls, i).Success?
            && (config.Failure? ==> config.error == MissingAttribute("out_dir") || config.error.NotAPath?)
            && (config.Success? && FlatOf(tune)[i].0 != "out_dir" ==>
                  Get(FlatOf(config.value), FlatOf(tune)[i].0) == Some(SampledValue(sampler, start, s.calls, i).value))
  {
    var flatTune := FlatOf(tune);
    var s := Sampled(flatTune, sampler, start);
    var merged := Update(FlatOf(base), s.candidate.value);
    var k := flatTune[i].0;
    FlatDistinct(PlainDict(tune), None);
    SampledCandidate(flatTune, sampler, start);
    SuggestedMerge(base, tune, number, sampler, start, k);
    assert k in Keys(flatTune) by {
      assert Keys(flatTune)[i] == k;
    }
    FlatRoundTrip(merged);
    var config := SuggestedConfig(base, tune, number, sampler, start).config;
    if config.Success? && k != "out_dir" {
      WithTrialDirFlat(FromFlat(merged).value, number, k);
    }
  }

  /** A base leaf that is not tuned keeps its base value in the
      configuration `suggest_config` returns, under the same condition. */
  lemma {:induction false} SuggestedBaseLeaf(base: Entries, tune: Entries, number: nat, sampler: Sampler, start: seq<Call>, k: string)
    requires ScalarSampler(sampler)
    requires k !in Keys(FlatOf(tune))
    requires Sampled(FlatOf(tune), sampler, start).candidate.Success?
    requires var merged := Update(FlatOf(base), Sampled(FlatOf(tune), sampler, start).candidate.value);
             FlatInput(merged) && AliasFree(merged) && NoOptValues(merged)
    ensures var config := SuggestedConfig(base, tune, number, sampler, start).config;
            && (config.Failure? ==> config.error == MissingAttribute("out_dir") || config.error.NotAPath?)
            && (config.Success? && k != "out_dir" ==> Get(FlatOf(config.value), k) == Get(FlatOf(base), k))
  {
    var merged := Update(FlatOf(base), Sampled(FlatOf(tune), sampler, start).candidate.value);
    SuggestedMerge(base, tune, number, sampler, start, k);
    FlatRoundTrip(merged);
    var config := SuggestedConfig(base, tune, number, sampler, start).config;
    if config.Success? && k != "out_dir" {
      WithTrialDirFlat(FromFlat(merged).value, number, k);
    }
  }

  /** A leaf that stops the loop decides what `suggest_config` does: a leaf
      it refuses raises before any call, a call whose sampler raises
      `reason` makes `suggest_config` raise it; either way no later leaf is
      sampled. */
  lemma {:induction false} SuggestedStops(base: Entries, tune: Entries, number: nat, sampler: Sampler, start: seq<Call>, j: nat)
    requires j < |FlatOf(tune)|
    requires SampledUpTo(FlatOf(tune), sampler, start, j).candidate.Success?
    ensures var o := SuggestedConfig(base, tune, number, sampler, start);
            var calls := SampledUpTo(FlatOf(tune), sampler, start, j).calls;
            var (k, v) := FlatOf(tune)[j];
            && (RequestOf(v).Failure? ==> o == Outcome(Failure(RequestOf(v).error), calls))
            && (RequestOf(v).Success? && sampler(calls, Call(k, RequestOf(v).value)).Failure? ==>
                  o == Outcome(Failure(SamplerRaised(sampler(calls, Call(k, RequestOf(v).value)).error)),
                               calls + [Call(k, RequestOf(v).value)]))
  {
    var flatTune := FlatOf(tune);
    var prev := SampledUpTo(flatTune, sampler, start, j);
    SampledNext(flatTune, sampler, start, j, prev.candidate.value, prev.calls);
  }
}
