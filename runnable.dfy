/** The `Runnable` contract of `core/runnable.ts`: a stage is a wrapped
    function (`RunnableLambda`) or a `RunnableSequence` of stages. `invoke`
    is each kind's own; `batch`, `stream` and `pipe` are the defaults of
    `BaseRunnable`, which `RunnableSequence` does not override. */
module Runnables {
  import opened Types
  import RunnableLambda

  datatype Runnable =
    | Lambda(func: Value -> RunnableLambda.Call)
    | Sequence(steps: seq<Runnable>)

  /** `invoke(input, config)`. */
  function Invoke(r: Runnable, input: Value, config: Config): Result<Value>
  {
    match r
    case Lambda(f) => RunnableLambda.Invoke(f, input, config)
    case Sequence(steps) => InvokeSteps(steps, input, config)
  }

  /** `RunnableSequence.invoke` as a left fold: the input goes through the
      steps in list order, each under the same config; the first failure
      ends the fold. */
  function InvokeSteps(steps: seq<Runnable>, input: Value, config: Config): Result<Value>
  {
    if steps == [] then Ok(input)
    else match Invoke(steps[0], input, config)
      case Err(e) => Err(e)
      case Ok(v) => InvokeSteps(steps[1..], v, config)
  }

  /** Folding over two consecutive runs of steps is folding over the first
      and, only if that succeeds, over the second. */
  lemma {:induction false} InvokeStepsAppend(a: seq<Runnable>, b: seq<Runnable>, input: Value, config: Config)
    ensures InvokeSteps(a + b, input, config) ==
      match InvokeSteps(a, input, config)
      case Err(e) => Err(e)
      case Ok(v) => InvokeSteps(b, v, config)
    decreases |a|
  {
    if a == [] {
      assert a + b == b;
    } else {
      assert (a + b)[0] == a[0];
      assert (a + b)[1..] == a[1..] + b;
      if Invoke(a[0], input, config).Ok? {
        InvokeStepsAppend(a[1..], b, Invoke(a[0], input, config).value, config);
      }
    }
  }

  /** A sequence stops at its first failing step: if the first `k` steps
      succeed and step `k` fails, the whole sequence fails with that error,
      whatever the later steps are. */
  lemma StopsAtFirstFailure(steps: seq<Runnable>, k: nat, input: Value, config: Config)
    requires k < |steps|
    requires InvokeSteps(steps[..k], input, config).Ok?
    requires Invoke(steps[k], InvokeSteps(steps[..k], input, config).value, config).Err?
    ensures InvokeSteps(steps, input, config) ==
      Invoke(steps[k], InvokeSteps(steps[..k], input, config).value, config)
  {
    assert steps == steps[..k] + steps[k..];
    InvokeStepsAppend(steps[..k], steps[k..], input, config);
    assert steps[k..][0] == steps[k];
  }

  /** `RunnableSequence.invoke`: a loop that reassigns `current`. The ghost
      `invoked` counts the steps whose `invoke` was called. */
  method InvokeSequence(steps: seq<Runnable>, input: Value, config: Config)
    returns (out: Result<Value>, ghost invoked: nat)
    ensures out == InvokeSteps(steps, input, config)
    ensures invoked <= |steps|
    ensures out.Ok? ==> invoked == |steps|
    ensures out.Err? ==>
      && 0 < invoked
      && InvokeSteps(steps[..invoked - 1], input, config).Ok?
      && out == Invoke(steps[invoked - 1], InvokeSteps(steps[..invoked - 1], input, config).value, config)
  {
    var current := input;
    var k := 0;
    invoked := 0;
    while k < |steps|
      invariant 0 <= k <= |steps|
      invariant invoked == k
      invariant InvokeSteps(steps[..k], input, config) == Ok(current)
      invariant InvokeSteps(steps, input, config) == InvokeSteps(steps[k..], current, config)
    {
      var r := Invoke(steps[k], current, config);
      invoked := invoked + 1;
      assert steps[k..][0] == steps[k] && steps[k..][1..] == steps[k + 1..];
      assert steps[..k + 1] == steps[..k] + [steps[k]];
      InvokeStepsAppend(steps[..k], [steps[k]], input, config);
      assert [steps[k]][1..] == [];
      if r.Err? {
        out := Err(r.error);
        return;
      }
      current := r.value;
      k := k + 1;
    }
    assert steps[k..] == [];
    assert steps[..k] == steps;
    out := Ok(current);
  }

  /** `pipe(next)`: a new two-step sequence around the receiver and `next`,
      both taken as they are. */
  function Pipe(r: Runnable, next: Runnable): Runnable
  {
    Sequence([r, next])
  }

  /** Piping is composition: `a.pipe(b).invoke(x)` is `b.invoke(a.invoke(x))`,
      and fails as soon as `a` fails. */
  lemma PipeIsComposition(a: Runnable, b: Runnable, input: Value, config: Config)
    ensures Invoke(Pipe(a, b), input, config) ==
      match Invoke(a, input, config)
      case Err(e) => Err(e)
      case Ok(v) => Invoke(b, v, config)
  {
    var steps := [a, b];
    assert steps[1..] == [b];
    assert steps[1..][1..] == [];
    if Invoke(a, input, config).Ok? {
      var v := Invoke(a, input, config).value;
      assert InvokeSteps([b], v, config) == Invoke(b, v, config);
    }
  }

  /** `pipe` nests: piping a piped stage gives a two-step sequence whose first
      step is the earlier sequence, not a flat three-step list, and the piped
      stages are its steps unchanged. */
  lemma PipeNests(a: Runnable, b: Runnable, c: Runnable)
    ensures Pipe(Pipe(a, b), c).steps == [Sequence([a, b]), c]
    ensures Pipe(Pipe(a, b), c) != Sequence([a, b, c])
    ensures Pipe(a, b).steps[0] == a && Pipe(a, b).steps[1] == b
  {
  }

  /** Nesting does not change `invoke`: `(a.pipe(b)).pipe(c)` and
      `a.pipe(b.pipe(c))` give the same result, and both agree with the flat
      sequence `[a, b, c]`. */
  lemma PipeAssociative(a: Runnable, b: Runnable, c: Runnable, input: Value, config: Config)
    ensures Invoke(Pipe(Pipe(a, b), c), input, config) == Invoke(Pipe(a, Pipe(b, c)), input, config)
    ensures Invoke(Pipe(a, Pipe(b, c)), input, config) == Invoke(Sequence([a, b, c]), input, config)
  {
    PipeIsComposition(Pipe(a, b), c, input, config);
    PipeIsComposition(a, b, input, config);
    PipeIsComposition(a, Pipe(b, c), input, config);
    if Invoke(a, input, config).Ok? {
      PipeIsComposition(b, c, Invoke(a, input, config).value, config);
    }
    var flat := [a, b, c];
    assert flat[1..] == [b, c];
    assert flat[1..][1..] == [c];
    assert flat[1..][1..][1..] == [];
  }

  /** More generally, a sequence of sequences behaves as the flat sequence of
      their steps. */
  lemma {:induction false} NestedIsFlat(a: seq<Runnable>, b: seq<Runnable>, input: Value, config: Config)
    ensures Invoke(Sequence([Sequence(a), Sequence(b)]), input, config) == Invoke(Sequence(a + b), input, config)
  {
    PipeIsComposition(Sequence(a), Sequence(b), input, config);
    InvokeStepsAppend(a, b, input, config);
  }

  /** `invoke` never reads `maxConcurrency`: only a lambda reads the config,
      and only its timeout. */
  lemma {:induction false} InvokeIgnoresMaxConcurrency(r: Runnable, input: Value, config: Config, m: Option<int>)
    ensures Invoke(r, input, config) == Invoke(r, input, config.(maxConcurrency := m))
    decreases r, 1
  {
    match r
    case Lambda(f) =>
    case Sequence(steps) => StepsIgnoreMaxConcurrency(steps, input, config, m);
  }

  lemma {:induction false} StepsIgnoreMaxConcurrency(steps: seq<Runnable>, input: Value, config: Config, m: Option<int>)
    ensures InvokeSteps(steps, input, config) == InvokeSteps(steps, input, config.(maxConcurrency := m))
    decreases steps, 0
  {
    if steps != [] {
      assert steps[0] in steps;
      InvokeIgnoresMaxConcurrency(steps[0], input, config, m);
      if Invoke(steps[0], input, config).Ok? {
        StepsIgnoreMaxConcurrency(steps[1..], Invoke(steps[0], input, config).value, config, m);
      }
    }
  }

  // ---------------------------------------------------------------------
  // batch

  const DefaultMaxConcurrency := 10

  /** `const {maxConcurrency = 10} = config || {}`: the default applies only
      when the field is absent. */
  function ChunkSize(config: Config): int
  {
    if config.maxConcurrency.Some? then config.maxConcurrency.value else DefaultMaxConcurrency
  }

  /** The reference meaning of `batch`: every input invoked in order, all
      values collected, or the error of the first input, by index, that
      fails. */
  function InvokeEach(r: Runnable, inputs: seq<Value>, config: Config): Result<seq<Value>>
  {
    Collect(seq(|inputs|, k requires 0 <= k < |inputs| => Invoke(r, inputs[k], config)))
  }

  /** `batch` fails as a whole or returns one result per input, in input
      order: `results[i]` is `invoke(inputs[i])`. It fails exactly when some
      input fails, with the error of the first failing one, and never
      returns a partial list. */
  lemma BatchMeaning(r: Runnable, inputs: seq<Value>, config: Config)
    ensures InvokeEach(r, inputs, config).Ok? <==> forall k :: 0 <= k < |inputs| ==> Invoke(r, inputs[k], config).Ok?
    ensures InvokeEach(r, inputs, config).Ok? ==>
      var results := InvokeEach(r, inputs, config).value;
      |results| == |inputs| && forall k :: 0 <= k < |inputs| ==> results[k] == Invoke(r, inputs[k], config).value
    ensures InvokeEach(r, inputs, config).Err? ==>
      exists k :: 0 <= k < |inputs| && Invoke(r, inputs[k], config) == Err(InvokeEach(r, inputs, config).error)
        && forall j :: 0 <= j < k ==> Invoke(r, inputs[j], config).Ok?
    ensures inputs == [] ==> InvokeEach(r, inputs, config) == Ok([])
  {
    var outcomes := seq(|inputs|, k requires 0 <= k < |inputs| => Invoke(r, inputs[k], config));
    assert InvokeEach(r, inputs, config) == Collect(outcomes);
    assert forall k :: 0 <= k < |inputs| ==> outcomes[k] == Invoke(r, inputs[k], config);
    CollectMeaning(outcomes);
    if InvokeEach(r, inputs, config).Err? {
      var k :| 0 <= k < |outcomes| && outcomes[k] == Err(Collect(outcomes).error)
        && forall j :: 0 <= j < k ==> outcomes[j].Ok?;
      assert Invoke(r, inputs[k], config) == Err(InvokeEach(r, inputs, config).error);
    }
  }

  lemma InvokeEachAppend(r: Runnable, a: seq<Value>, b: seq<Value>, config: Config)
    ensures InvokeEach(r, a + b, config) ==
      match InvokeEach(r, a, config)
      case Err(e) => Err(e)
      case Ok(va) =>
        match InvokeEach(r, b, config)
        case Err(e) => Err(e)
        case Ok(vb) => Ok(va + vb)
  {
    var oa := seq(|a|, k requires 0 <= k < |a| => Invoke(r, a[k], config));
    var ob := seq(|b|, k requires 0 <= k < |b| => Invoke(r, b[k], config));
    var ab := a + b;
    assert seq(|ab|, k requires 0 <= k < |ab| => Invoke(r, ab[k], config)) == oa + ob;
    CollectAppend(oa, ob);
  }

  /** The chunk size has no effect on what `batch` computes. */
  lemma BatchIgnoresChunkSize(r: Runnable, inputs: seq<Value>, config: Config, m: Option<int>)
    ensures InvokeEach(r, inputs, config) == InvokeEach(r, inputs, config.(maxConcurrency := m))
  {
    forall k | 0 <= k < |inputs|
      ensures Invoke(r, inputs[k], config) == Invoke(r, inputs[k], config.(maxConcurrency := m))
    {
      InvokeIgnoresMaxConcurrency(r, inputs[k], config, m);
    }
    var c2 := config.(maxConcurrency := m);
    var o1 := seq(|inputs|, k requires 0 <= k < |inputs| => Invoke(r, inputs[k], config));
    var o2 := seq(|inputs|, k requires 0 <= k < |inputs| => Invoke(r, inputs[k], c2));
    assert o1 == o2;
    assert InvokeEach(r, inputs, config) == Collect(o1);
    assert InvokeEach(r, inputs, c2) == Collect(o2);
  }

  function Min(a: int, b: int): int
  {
    if a < b then a else b
  }

  /** The consecutive slices `inputs.slice(i, i + size)` that `batch` takes,
      for `i = 0, size, 2 * size, ...` while `i < inputs.length`. */
  function Chunks(inputs: seq<Value>, size: int): seq<seq<Value>>
    requires inputs == [] || size > 0
    decreases |inputs|
  {
    if inputs == [] then []
    else [inputs[..Min(size, |inputs|)]] + Chunks(inputs[Min(size, |inputs|)..], size)
  }

  function Flatten(chunks: seq<seq<Value>>): seq<Value>
  {
    if chunks == [] then [] else chunks[0] + Flatten(chunks[1..])
  }

  /** The chunks cover the inputs in order without overlap; each holds
      between 1 and `size` inputs, every one but the last exactly `size`; and
      there are ceil(n / size) of them. */
  lemma ChunksPartition(inputs: seq<Value>, size: int)
    requires inputs == [] || size > 0
    ensures Flatten(Chunks(inputs, size)) == inputs
    ensures forall k :: 0 <= k < |Chunks(inputs, size)| ==> 0 < |Chunks(inputs, size)[k]| <= size
    ensures forall k :: 0 <= k < |Chunks(inputs, size)| - 1 ==> |Chunks(inputs, size)[k]| == size
    ensures size > 0 ==> (|Chunks(inputs, size)| - 1) * size < |inputs| <= |Chunks(inputs, size)| * size
    ensures size > 0 ==> |Chunks(inputs, size)| == (|inputs| + size - 1) / size
  {
    ChunksFlatten(inputs, size);
    ChunkSizes(inputs, size);
    if size > 0 {
      var c := |Chunks(inputs, size)|;
      DivUnique(|inputs| + size - 1, size, c, (|inputs| + size - 1) - c * size);
    }
  }

  /** Flattening the chunks gives back the inputs. */
  lemma {:induction false} ChunksFlatten(inputs: seq<Value>, size: int)
    requires inputs == [] || size > 0
    ensures Flatten(Chunks(inputs, size)) == inputs
    decreases |inputs|
  {
    if inputs != [] {
      var n := Min(size, |inputs|);
      ChunksFlatten(inputs[n..], size);
      assert Chunks(inputs, size)[1..] == Chunks(inputs[n..], size);
      assert inputs[..n] + inputs[n..] == inputs;
    }
  }

  /** Each chunk holds 1 to `size` inputs, all but the last exactly `size`,
      so the count is the least `c` with `n <= c * size`. */
  lemma {:induction false} ChunkSizes(inputs: seq<Value>, size: int)
    requires inputs == [] || size > 0
    ensures forall k :: 0 <= k < |Chunks(inputs, size)| ==> 0 < |Chunks(inputs, size)[k]| <= size
    ensures forall k :: 0 <= k < |Chunks(inputs, size)| - 1 ==> |Chunks(inputs, size)[k]| == size
    ensures size > 0 ==> (|Chunks(inputs, size)| - 1) * size < |inputs| <= |Chunks(inputs, size)| * size
    decreases |inputs|
  {
    if inputs != [] {
      var n := Min(size, |inputs|);
      var cs := Chunks(inputs, size);
      var rest := inputs[n..];
      ChunkSizes(rest, size);
      assert cs == [inputs[..n]] + Chunks(rest, size);
      assert forall k :: 1 <= k < |cs| ==> cs[k] == Chunks(rest, size)[k - 1];
      if |inputs| <= size {
        assert rest == [];
      } else {
        var c := |Chunks(rest, size)|;
        assert (c - 1) * size + size == c * size;
        assert c * size + size == (c + 1) * size;
      }
    }
  }

  /** The quotient is the only `q` with `y == q * size + rest`, `0 <= rest < size`. */
  lemma DivUnique(y: int, size: int, q: int, rest: int)
    requires 0 < size && 0 <= rest < size && y == q * size + rest
    ensures y / size == q
  {
    var d, m := y / size, y % size;
    assert (d - q) * size == rest - m;
    if d - q >= 1 {
      MulMonotone(d - q, size);
    } else if d - q <= -1 {
      MulMonotone(q - d, size);
    }
  }

  lemma MulMonotone(a: int, size: int)
    requires a >= 1 && size > 0
    ensures a * size >= size
  {
  }

  /** `BaseRunnable.batch`: consecutive chunks of `maxConcurrency` inputs
      (default 10). Each chunk is invoked as a whole; its results are appended
      to `results` in order; a failing chunk ends the batch with its error.
      The loop ends only when the chunk size is positive, so a non-empty
      batch needs one here; `StalledBatch` covers the other sizes. The ghost
      `started` lists the chunks that were invoked. */
  method Batch(r: Runnable, inputs: seq<Value>, config: Config)
    returns (out: Result<seq<Value>>, ghost started: seq<seq<Value>>)
    requires inputs == [] || ChunkSize(config) > 0
    ensures out == InvokeEach(r, inputs, config)
    ensures out.Ok? ==> started == Chunks(inputs, ChunkSize(config))
    ensures out.Err? ==>
      && 0 < |started| <= |Chunks(inputs, ChunkSize(config))|
      && started == Chunks(inputs, ChunkSize(config))[..|started|]
      && InvokeEach(r, started[|started| - 1], config) == out
  {
    var size := ChunkSize(config);
    var results: seq<Value> := [];
    var i := 0;
    started := [];
    while i < |inputs|
      invariant 0 <= i
      invariant InvokeEach(r, inputs[..Min(i, |inputs|)], config) == Ok(results)
      invariant Chunks(inputs, size) == started + Chunks(inputs[Min(i, |inputs|)..], size)
      invariant i < |inputs| ==> i == Min(i, |inputs|)
      decreases |inputs| - i
    {
      var chunk := Slice(inputs, i, i + size);
      var chunkResults := InvokeEach(r, chunk, config);
      BatchPass(r, inputs, config, size, i, results, started);
      started := started + [chunk];
      if chunkResults.Err? {
        out := Err(chunkResults.error);
        return;
      }
      results := results + chunkResults.value;
      i := i + size;
    }
    assert inputs[..Min(i, |inputs|)] == inputs;
    assert inputs[Min(i, |inputs|)..] == [];
    out := Ok(results);
  }

  /** The index `inputs.slice` uses for `k`: a negative one counts back from
      the end, and both ends are clamped to the length. */
  function SliceIndex(k: int, n: nat): nat
  {
    if k < 0 then (if n + k < 0 then 0 else n + k) else if k < n then k else n
  }

  /** `inputs.slice(start, end)`: empty when the clamped start is not below
      the clamped end. */
  function Slice(s: seq<Value>, start: int, end: int): seq<Value>
  {
    var a, b := SliceIndex(start, |s|), SliceIndex(end, |s|);
    if a < b then s[a..b] else []
  }

  /** With a positive chunk size, each slice the loop takes starts at `i`
      and ends at `i + size` or at the end of the inputs, whichever comes
      first. */
  lemma SliceInRange(inputs: seq<Value>, i: int, size: int)
    requires 0 <= i < |inputs| && 0 < size
    ensures Slice(inputs, i, i + size) == inputs[i..Min(i + size, |inputs|)]
    ensures |Slice(inputs, i, i + size)| == Min(size, |inputs| - i)
  {
  }

  /** One pass of the `batch` loop at `i`: the slice it takes is the next
      chunk, and the inputs before and after it are what the loop has
      already done and what is left. */
  lemma ChunkStep(inputs: seq<Value>, i: int, size: int)
    requires 0 <= i < |inputs| && 0 < size
    ensures Slice(inputs, i, i + size) == inputs[i..Min(i + size, |inputs|)]
    ensures Chunks(inputs[i..], size) ==
      [inputs[i..Min(i + size, |inputs|)]] + Chunks(inputs[Min(i + size, |inputs|)..], size)
    ensures inputs[..Min(i + size, |inputs|)] == inputs[..i] + inputs[i..Min(i + size, |inputs|)]
    ensures inputs == inputs[..Min(i + size, |inputs|)] + inputs[Min(i + size, |inputs|)..]
  {
    SliceInRange(inputs, i, size);
    var end := Min(i + size, |inputs|);
    var rest := inputs[i..];
    assert inputs[i..end] == rest[..Min(size, |rest|)] && inputs[end..] == rest[Min(size, |rest|)..];
  }

  /** What one pass of the `batch` loop at `i` keeps: the slice it takes is
      the next chunk, and its results either extend those of the inputs
      before it or, on failure, are the whole batch's. */
  lemma BatchPass(r: Runnable, inputs: seq<Value>, config: Config, size: int, i: int,
                  results: seq<Value>, started: seq<seq<Value>>)
    requires 0 <= i < |inputs| && 0 < size
    requires InvokeEach(r, inputs[..i], config) == Ok(results)
    requires Chunks(inputs, size) == started + Chunks(inputs[i..], size)
    ensures var chunk := Slice(inputs, i, i + size);
      Chunks(inputs, size) == (started + [chunk]) + Chunks(inputs[Min(i + size, |inputs|)..], size)
    ensures var chunk := Slice(inputs, i, i + size);
      InvokeEach(r, chunk, config).Ok? ==>
        InvokeEach(r, inputs[..Min(i + size, |inputs|)], config) == Ok(results + InvokeEach(r, chunk, config).value)
    ensures var chunk := Slice(inputs, i, i + size);
      InvokeEach(r, chunk, config).Err? ==>
        && InvokeEach(r, inputs, config) == InvokeEach(r, chunk, config)
        && |started| + 1 <= |Chunks(inputs, size)|
        && started + [chunk] == Chunks(inputs, size)[..|started| + 1]
  {
    ChunkStep(inputs, i, size);
    var end := Min(i + size, |inputs|);
    var chunk := inputs[i..end];
    InvokeEachAppend(r, inputs[..i], chunk, config);
    if InvokeEach(r, chunk, config).Err? {
      InvokeEachAppend(r, inputs[..end], inputs[end..], config);
      assert Chunks(inputs, size) == (started + [chunk]) + Chunks(inputs[end..], size);
    }
  }

  /** With a chunk size of 0 or below, `i += maxConcurrency` never takes `i`
      up to `inputs.length`, so a non-empty batch's loop does not end unless
      its first slice rejects. Only that first slice `inputs.slice(0, size)`
      can hold inputs: all of them but the last `-size`. Every later slice
      `inputs.slice(k * size, (k + 1) * size)` is empty. */
  lemma StalledSlices(inputs: seq<Value>, size: int, k: nat)
    requires size <= 0
    ensures Slice(inputs, 0, size) == inputs[..SliceIndex(size, |inputs|)]
    ensures size < 0 ==> SliceIndex(size, |inputs|) == if |inputs| + size < 0 then 0 else |inputs| + size
    ensures size == 0 ==> Slice(inputs, 0, size) == []
    ensures 0 < k ==> k * size < |inputs| || inputs == []
    ensures 0 < k ==> Slice(inputs, k * size, (k + 1) * size) == []
  {
  }

  /** What `batch` settles with when the chunk size is 0 or below. No inputs:
      `[]`. Otherwise the loop awaits the first slice and then empty slices
      forever, so the batch rejects with the first slice's error if it has
      one and otherwise never settles (`None`). */
  function StalledBatch(r: Runnable, inputs: seq<Value>, config: Config): Option<Result<seq<Value>>>
    requires ChunkSize(config) <= 0
  {
    if inputs == [] then Some(Ok([]))
    else match InvokeEach(r, Slice(inputs, 0, ChunkSize(config)), config)
      case Err(e) => Some(Err(e))
      case Ok(_) => None
  }

  /** With a chunk size of 0 or below, a non-empty batch never succeeds. It
      rejects exactly when one of the inputs before the last `-size` fails,
      with the error of the first such input, and hangs otherwise; with size
      0 it always hangs. */
  lemma StalledBatchMeaning(r: Runnable, inputs: seq<Value>, config: Config)
    requires ChunkSize(config) <= 0
    ensures inputs == [] <==> StalledBatch(r, inputs, config) == Some(Ok([]))
    ensures inputs != [] ==> StalledBatch(r, inputs, config).None? || StalledBatch(r, inputs, config).value.Err?
    ensures var live := SliceIndex(ChunkSize(config), |inputs|);
      (StalledBatch(r, inputs, config).Some? && StalledBatch(r, inputs, config).value.Err?) <==>
        exists k :: 0 <= k < live && Invoke(r, inputs[k], config).Err?
    ensures var live := SliceIndex(ChunkSize(config), |inputs|);
      StalledBatch(r, inputs, config).Some? && StalledBatch(r, inputs, config).value.Err? ==>
        exists k :: 0 <= k < live && Invoke(r, inputs[k], config) == Err(StalledBatch(r, inputs, config).value.error)
          && forall j :: 0 <= j < k ==> Invoke(r, inputs[j], config).Ok?
    ensures ChunkSize(config) == 0 && inputs != [] ==> StalledBatch(r, inputs, config).None?
  {
    var size := ChunkSize(config);
    var live := SliceIndex(size, |inputs|);
    var first := Slice(inputs, 0, size);
    var out := StalledBatch(r, inputs, config);
    StalledSlices(inputs, size, 0);
    assert first == inputs[..live];
    BatchMeaning(r, first, config);
    if inputs == [] {
      assert out == Some(Ok([]));
    } else if InvokeEach(r, first, config).Err? {
      assert out == Some(Err(InvokeEach(r, first, config).error));
      var k :| 0 <= k < |first| && Invoke(r, first[k], config) == Err(InvokeEach(r, first, config).error)
        && forall j :: 0 <= j < k ==> Invoke(r, first[j], config).Ok?;
      assert first[k] == inputs[k];
      assert forall j :: 0 <= j < k ==> first[j] == inputs[j];
    } else {
      assert out.None?;
      forall k | 0 <= k < live
        ensures Invoke(r, inputs[k], config).Ok?
      {
        assert first[k] == inputs[k];
      }
    }
  }

  /** Two batches over the same inputs that differ only in `maxConcurrency`
      return the same thing. */
  method BatchAgreesAcrossChunkSizes(r: Runnable, inputs: seq<Value>, config: Config, m1: int, m2: int)
    returns (first: Result<seq<Value>>, second: Result<seq<Value>>)
    requires 0 < m1 && 0 < m2
    ensures first == second
    ensures first == InvokeEach(r, inputs, config)
  {
    var c1 := config.(maxConcurrency := Some(m1));
    var c2 := config.(maxConcurrency := Some(m2));
    ghost var chunks1, chunks2;
    first, chunks1 := Batch(r, inputs, c1);
    second, chunks2 := Batch(r, inputs, c2);
    BatchIgnoresChunkSize(r, inputs, config, Some(m1));
    BatchIgnoresChunkSize(r, inputs, config, Some(m2));
  }

  // ---------------------------------------------------------------------
  // stream

  /** `stream(input)`: the outcomes its consumer receives from successive
      pulls. The default generator yields `await this.invoke(input)` once, so
      the first pull settles with `invoke`'s outcome and the stream then ends. */
  function Stream(r: Runnable, input: Value, config: Config): seq<Result<Value>>
  {
    [Invoke(r, input, config)]
  }

  /** A stream yields exactly one element, and it is `invoke`'s result: a
      `for await` over it collects what a batch of that one input returns, and
      a piped sequence streams its composed result in one piece. */
  lemma StreamIsSingleInvoke(r: Runnable, b: Runnable, input: Value, config: Config)
    ensures |Stream(r, input, config)| == 1 && Stream(r, input, config)[0] == Invoke(r, input, config)
    ensures Collect(Stream(r, input, config)) == InvokeEach(r, [input], config)
    ensures Invoke(r, input, config).Ok? ==> Collect(Stream(r, input, config)) == Ok([Invoke(r, input, config).value])
    ensures |Stream(Pipe(r, b), input, config)| == 1
  {
    assert seq(1, k requires 0 <= k < 1 => Invoke(r, [input][k], config)) == Stream(r, input, config);
    assert Stream(r, input, config)[1..] == [];
    if Invoke(r, input, config).Ok? {
      assert [Invoke(r, input, config).value] + [] == [Invoke(r, input, config).value];
    }
  }
}
