# Runnable execution engine — a Dafny model

This project models the small composable execution engine of a LangChain.js
study repository:

* `Runnable` stages (`core/runnable.ts`): a stage is either a wrapped function
  (`RunnableLambda`) or a `RunnableSequence` of stages. `invoke` is each kind's
  own. `batch`, `stream` and `pipe` are the defaults of `BaseRunnable`.
* `batch` splits its inputs into consecutive chunks of `maxConcurrency` inputs
  (default 10). It invokes each chunk and appends the chunk's results in order.
  A failing chunk fails the batch.
* `stream` yields one element: the result of one `invoke`.
* `pipe` builds the two-step sequence `[this, next]`. It nests and does not
  flatten.
* `RunnableSequence.invoke` threads the input through its steps left to right,
  under one config. It stops at the first failing step.
* `RunnableLambda.invoke` (`lambda/runnable-lambda.ts`) calls the wrapped
  function. When the config's `timeout` is truthy, it races the call against a
  timer (`withTimeout`). The factories `from`, `createStringProcessor`,
  `createNumberProcessor` and `createAsyncProcessor` wrap a function unchanged.

Files and modules:

* `types.dfy` (`Types`): values, errors, settled results, `RunnableConfig`,
  and `Collect`. `Collect` awaits outcomes in index order.
* `decimal.dfy` (`Decimal`): how `${timeoutMs}` renders an integer, and the
  parse back.
* `runnable_lambda.dfy` (`RunnableLambda`): a lambda's `invoke` and the
  `withTimeout` race.
* `runnable.dfy` (`Runnables`): the `Runnable` datatype, `invoke`, the
  sequence loop, `batch`, `stream` and `pipe`.
* `lambda_factories.dfy` (`LambdaFactories`): `from` and the three
  `create...Processor` helpers.
* `basic_usage.dfy` (`BasicUsage`): the pipelines of `examples/basic-usage.ts`
  and the results that file announces.

How the model is built:

* Time is abstract. One call of the wrapped function either settles
  synchronously or settles a given number of milliseconds later
  (`RunnableLambda.Call`).
* `withTimeout` is written as the events the event loop delivers: arming the
  timer, a synchronous throw, the `.then`/`.catch` handler, and the timer's
  due time. The model keeps the promise's state after each event.
* The imperative loops of the source are methods with loop invariants: the
  `batch` loop over `i` (`Runnables.Batch`) and the `current` loop of
  `RunnableSequence.invoke` (`Runnables.InvokeSequence`). Each is proved equal
  to a reference function (`InvokeEach`, `InvokeSteps`), whose properties are
  lemmas.

Facts about the code that shape the model:

* `RunnableSequence` overrides only `invoke`. It inherits the default `batch`
  and `stream` of `BaseRunnable`, so a sequence's batch invokes the whole
  sequence once per input, and its stream yields exactly one element.
* `pipe` returns `new RunnableSequence([this, next])`. Piping a sequence nests
  it as the first step. `Runnables.PipeNests` states this.
  `Runnables.NestedIsFlat` and `Runnables.PipeAssociative` show that `invoke`
  cannot tell a nested pipeline from the flat one.
* There is only one error kind. A timeout rejects with a plain `Error` whose
  message is `Function execution timed out after {t}ms`. A failure of the
  wrapped function is rethrown as it is.
* `maxConcurrency` is not checked for positivity, and the loop steps `i` by
  it. With 0 the loop takes the empty slice `inputs.slice(i, i)` forever.
  With a negative value `m`, the first slice `inputs.slice(0, m)` is every
  input but the last `-m`. Those inputs are invoked, and a failure among
  them rejects the batch. Every later slice is empty, so if the first one
  succeeds the loop never ends. `Runnables.Batch` models the loop for
  positive chunk sizes. `Runnables.StalledBatch` gives the outcome for the
  others.

## Model

| member | source | states |
|---|---|---|
| `Runnables.Batch` | langchainjs/phase1-core/implementation/src/core/runnable.ts:31-42 | The chunked loop returns exactly the reference batch result for every chunk size ≥ 1 (chunk size is `maxConcurrency`, default 10). The chunks it invokes are the consecutive slices `inputs.slice(i, i + size)`. On failure, the chunks started are a prefix of those slices, the last one started holds the failure, and later chunks are never invoked. |
| `Runnables.ChunkSize` | langchainjs/phase1-core/implementation/src/core/runnable.ts:32 | The chunk size is `maxConcurrency` when the config sets it, and 10 otherwise. |
| `Runnables.Slice` | langchainjs/phase1-core/implementation/src/core/runnable.ts:36 | `inputs.slice(start, end)`: a negative index counts back from the end, both ends are clamped to the length, and the slice is empty when the start is not below the end. |
| `Runnables.SliceInRange` | langchainjs/phase1-core/implementation/src/core/runnable.ts:35-36 | For a positive chunk size, the slice at `i` is the inputs from `i` up to `i + size` or the end, and it holds `min(size, n - i)` inputs. |
| `Runnables.StalledBatch` | langchainjs/phase1-core/implementation/src/core/runnable.ts:31-41 | With a chunk size of 0 or below: `[]` for no inputs, else the first slice's rejection, else no outcome ever (the loop does not end). |
| `Runnables.StalledSlices` | langchainjs/phase1-core/implementation/src/core/runnable.ts:35-36 | With a chunk size of 0 or below, the first slice is all inputs but the last `-size` (none for size 0). Every later slice is empty, and `i` never reaches the input length. |
| `Runnables.StalledBatchMeaning` | langchainjs/phase1-core/implementation/src/core/runnable.ts:35-37 | With a chunk size of 0 or below, a non-empty batch never succeeds. It rejects exactly when an input of the first slice fails, with the lowest-index such error, and otherwise never settles. With size 0 it never settles. |
| `Runnables.BatchMeaning` | langchainjs/phase1-core/implementation/src/core/runnable.ts:31-41 | A batch succeeds exactly when every input's `invoke` succeeds. It then returns one result per input, in input order, with `results[i] = invoke(inputs[i])`. Otherwise it fails with the error of the lowest-index failing input and returns no partial list. `batch([])` is `[]`. |
| `Runnables.BatchIgnoresChunkSize` | langchainjs/phase1-core/implementation/src/core/runnable.ts:32 | In the model, changing `maxConcurrency` does not change what a batch computes. In the source this holds for successful batches and for batches with a single failing input. When two or more inputs fail, the error can depend on the chunk size (see Left out). |
| `Runnables.BatchAgreesAcrossChunkSizes` | langchainjs/phase1-core/implementation/src/core/runnable.ts:32-39 | In the model, two runs of the batch loop with different positive chunk sizes return the same result, the reference batch. In the source this holds unless two or more inputs fail (see Left out). |
| `Runnables.ChunksPartition` | langchainjs/phase1-core/implementation/src/core/runnable.ts:35-36 | The chunks cover the inputs in order without overlap. Each holds 1 to `size` inputs, and every chunk but the last holds exactly `size`. There are ⌈n/size⌉ chunks: `(count-1)·size < n ≤ count·size`. |
| `Runnables.InvokeEachAppend` | langchainjs/phase1-core/implementation/src/core/runnable.ts:36-38 | Batching two consecutive runs of inputs gives the first run's failure, else the second run's failure, else both value lists joined. This is why appending chunk results in order gives the whole batch. |
| `Types.Collect` | langchainjs/phase1-core/implementation/src/core/runnable.ts:37 | `Promise.all` over settled outcomes, in index order: all values, or the first rejection. |
| `Types.CollectMeaning` | langchainjs/phase1-core/implementation/src/core/runnable.ts:37 | Awaiting a chunk's outcomes succeeds exactly when all of them are values, and then returns all values in order. Otherwise it fails with the first rejection by index. |
| `Types.CollectAppend` | langchainjs/phase1-core/implementation/src/core/runnable.ts:37-38 | Collecting concatenated outcomes is collecting the first part and then, only after it succeeds, the second part. |
| `Runnables.Stream` | langchainjs/phase1-core/implementation/src/core/runnable.ts:44-46 | The outcomes a consumer pulls from `stream(x)`: one, `invoke(x)`. |
| `Runnables.Pipe` | langchainjs/phase1-core/implementation/src/core/runnable.ts:51-53 | `pipe(next)` is the sequence `[this, next]`. |
| `Runnables.Invoke` | langchainjs/phase1-core/implementation/src/core/runnable.ts:65-73 | Each kind's own `invoke`: a lambda runs `RunnableLambda.invoke`, a sequence folds its steps. |
| `Runnables.InvokeSteps` | langchainjs/phase1-core/implementation/src/core/runnable.ts:65-73 | The reference fold of `RunnableSequence.invoke`: each step gets the previous step's value and the same config, and the first rejection ends it. |
| `Runnables.StreamIsSingleInvoke` | langchainjs/phase1-core/implementation/src/core/runnable.ts:44-46 | `stream(x)` yields exactly one element, and it equals `invoke(x)`. Consuming the stream gives what a batch of `[x]` gives. A piped sequence also yields one element. |
| `Runnables.PipeIsComposition` | langchainjs/phase1-core/implementation/src/core/runnable.ts:51-53 | `a.pipe(b).invoke(x)` is `b.invoke(a.invoke(x))`, and it fails with `a`'s error without running `b`. |
| `Runnables.PipeNests` | langchainjs/phase1-core/implementation/src/core/runnable.ts:51-53 | `pipe` builds `[this, next]` around both stages unchanged. Piping a piped stage nests it and does not give a flat three-step list. |
| `Runnables.PipeAssociative` | langchainjs/phase1-core/implementation/src/core/runnable.ts:51-53 | `(a.pipe(b)).pipe(c)` and `a.pipe(b.pipe(c))` give equal `invoke` results, and both equal the flat sequence `[a, b, c]`. |
| `Runnables.NestedIsFlat` | langchainjs/phase1-core/implementation/src/core/runnable.ts:65-73 | A sequence of two sequences invokes like the flat sequence of all their steps. |
| `Runnables.InvokeSequence` | langchainjs/phase1-core/implementation/src/core/runnable.ts:65-73 | The `current` loop computes the left fold of the steps in list order. It passes the same config to every step. On failure, the last step it called is the failing one, the steps before it succeeded, and no later step was called. |
| `Runnables.InvokeStepsAppend` | langchainjs/phase1-core/implementation/src/core/runnable.ts:65-73 | Folding over `a + b` folds over `a` and then, only after `a` succeeds, continues over `b` from `a`'s result. |
| `Runnables.StopsAtFirstFailure` | langchainjs/phase1-core/implementation/src/core/runnable.ts:68-70 | If the first `k` steps succeed and step `k` fails, the sequence fails with step `k`'s error, whatever the later steps are. |
| `Runnables.InvokeIgnoresMaxConcurrency` | langchainjs/phase1-core/implementation/src/core/runnable.ts:65-73 | `invoke` of any stage, however nested, does not depend on `maxConcurrency`. |
| `Runnables.StepsIgnoreMaxConcurrency` | langchainjs/phase1-core/implementation/src/core/runnable.ts:68-70 | The same for a list of steps. |
| `RunnableLambda.TimeoutSet` | langchainjs/phase1-core/implementation/src/lambda/runnable-lambda.ts:15 | `config?.timeout` is truthy: present and not 0. A negative value is truthy. |
| `RunnableLambda.TimeoutError` | langchainjs/phase1-core/implementation/src/lambda/runnable-lambda.ts:33 | The timer's rejection: `Function execution timed out after ` + the decimal duration + `ms`. |
| `Decimal.IntToString` | langchainjs/phase1-core/implementation/src/lambda/runnable-lambda.ts:33 | How `${timeoutMs}` writes an integer: its decimal digits, with `-` in front of a negative one. |
| `RunnableLambda.Step` | langchainjs/phase1-core/implementation/src/lambda/runnable-lambda.ts:32-44 | One event's effect. Arming sets the timer pending. The `.then`/`.catch` handlers clear it and settle. A due timer settles with the timeout error only if it is still pending. A synchronous throw inside the executor settles without clearing the timer as written, and clears it first in the guarded version. Only the first settlement counts. |
| `RunnableLambda.Events` | langchainjs/phase1-core/implementation/src/lambda/runnable-lambda.ts:31-36 | The order the event loop delivers events. The timer is armed first. A synchronous result or throw is handled before any timer. An asynchronous call's handler runs before the timer exactly when it settles sooner than the timer's delay. |
| `RunnableLambda.TimerDelay` | langchainjs/phase1-core/implementation/src/lambda/runnable-lambda.ts:32-34 | The delay `setTimeout(…, timeoutMs)` actually waits: `timeoutMs` when it is between 1 and 2^31 - 1, and 1 ms otherwise, as Node clamps it. |
| `RunnableLambda.Run` | langchainjs/phase1-core/implementation/src/lambda/runnable-lambda.ts:31-44 | The timer and promise state after each event the event loop delivers, one state per event. |
| `RunnableLambda.WithTimeoutAsWritten` | langchainjs/phase1-core/implementation/src/lambda/runnable-lambda.ts:30-45 | The executor as written: arm the timer, then run `func` unguarded, with the handlers clearing the timer. |
| `RunnableLambda.Invoke` | langchainjs/phase1-core/implementation/src/lambda/runnable-lambda.ts:12-25 | With no truthy timeout (absent or 0), `invoke(x)` is exactly `func(x)`'s value or error. With timeout `t`, it is `func`'s value or error when the call settles before the timer fires. Otherwise it is the timeout error for `t`. |
| `RunnableLambda.FailureRethrown` | langchainjs/phase1-core/implementation/src/lambda/runnable-lambda.ts:19-24 | Any failure of `invoke` other than the timeout error is exactly `func`'s failure: it is neither swallowed nor replaced. Without a timeout, every failure of `func` is `invoke`'s failure. |
| `RunnableLambda.WithTimeoutResult` | langchainjs/phase1-core/implementation/src/lambda/runnable-lambda.ts:30-45 | The promise from `withTimeout`, as written, settles with the result of whichever finished first, the call or the timer. |
| `RunnableLambda.WithTimeoutSettles` | langchainjs/phase1-core/implementation/src/lambda/runnable-lambda.ts:31-44 | After the timer is armed, the promise settles exactly once, with the first finisher's outcome, and never changes afterwards. When it settles the timer is no longer pending, and no timer is left at the end (executor with the synchronous-throw path guarded). |
| `RunnableLambda.SettledOnce` | langchainjs/phase1-core/implementation/src/lambda/runnable-lambda.ts:33-43 | Whatever events follow, a settled promise keeps its outcome: a later `resolve`/`reject` has no effect. |
| `RunnableLambda.AsWrittenSameOutcome` | langchainjs/phase1-core/implementation/src/lambda/runnable-lambda.ts:30-45 | The executor as written settles with the same outcome as the guarded one, and leaves no timer pending at the end. |
| `RunnableLambda.SyncThrowLeavesTimerPending` | langchainjs/phase1-core/implementation/src/lambda/runnable-lambda.ts:31-36 | As written, a synchronous throw from `func` rejects the promise while the timer is still pending. |
| `RunnableLambda.TimeoutErrorInjective` | langchainjs/phase1-core/implementation/src/lambda/runnable-lambda.ts:33 | The timeout message carries the configured duration: two different durations never give the same message. |
| `Decimal.ParseIntToString` | langchainjs/phase1-core/implementation/src/lambda/runnable-lambda.ts:33 | The decimal text of an integer inside the message parses back to that integer. |
| `Decimal.ParseNatToString` | langchainjs/phase1-core/implementation/src/lambda/runnable-lambda.ts:33 | The same for natural numbers. |
| `LambdaFactories.From` | langchainjs/phase1-core/implementation/src/lambda/runnable-lambda.ts:51-55 | `from(f)` is a lambda whose `invoke` is `RunnableLambda.invoke` of `f`, for every input and config. |
| `LambdaFactories.FromBehavesAsFunction` | langchainjs/phase1-core/implementation/src/lambda/runnable-lambda.ts:51-55 | With no timeout, `from(f).invoke(x)` is `f(x)`, and its inherited `batch` maps `f` over the inputs. |
| `LambdaFactories.CreateStringProcessor` | langchainjs/phase1-core/implementation/src/lambda/runnable-lambda.ts:63-67 | Behaves as `from` on the same function, for every input and config. |
| `LambdaFactories.CreateNumberProcessor` | langchainjs/phase1-core/implementation/src/lambda/runnable-lambda.ts:72-76 | Behaves as `from` on the same function, for every input and config. |
| `LambdaFactories.CreateAsyncProcessor` | langchainjs/phase1-core/implementation/src/lambda/runnable-lambda.ts:81-85 | Behaves as `from` on the same function, for every input and config. |
| `BasicUsage.MathPipelineGives400` | langchainjs/phase1-core/implementation/src/examples/basic-usage.ts:55-63 | `double.pipe(addTen).pipe(toSquare).invoke(5)` is 400. |
| `BasicUsage.TextPipelineExample` | langchainjs/phase1-core/implementation/src/examples/basic-usage.ts:12-28 | `upperCase.pipe(addPrefix).pipe(makeExciting)` turns `hello world` into `[处理过] HELLO WORLD!!!`. |
| `BasicUsage.TimeoutExample` | langchainjs/phase1-core/implementation/src/examples/basic-usage.ts:69-84 | A 100 ms call fails with `Function execution timed out after 50ms` under a 50 ms timeout and succeeds under a 200 ms one. |
| `BasicUsage.TypeSafeChainExample` | langchainjs/phase1-core/implementation/src/examples/basic-usage.ts:91-97 | The string-to-length-to-string chain gives `长度是: 22` for `TypeScript is awesome!`. |
| `BasicUsage.BatchDoubles` | langchainjs/phase1-core/implementation/src/core/runnable.ts:31-41 | `batch([1, 2, 3])` of `n => n * 2` gives `[2, 4, 6]`, both with chunk size 1 and with the default 10. |
| `BasicUsage.BatchFailsAsAWhole` | langchainjs/phase1-core/implementation/src/core/runnable.ts:37 | When one of three inputs fails, the batch fails with that error. |
| `BasicUsage.NegativeChunkSizeExample` | langchainjs/phase1-core/implementation/src/core/runnable.ts:35-37 | With `maxConcurrency` -1, `["bad", "c"]` rejects with `"bad"`'s error, and `["a", "bad"]` never settles. |

## Left out

- Real timers and the real `Promise` race. Each call instead carries an abstract settling time.
- Ties between a call's settling time and the timer. The model lets the timer win. The source's behaviour there depends on the host's timer ordering.
- The work behind a timed-out call keeps running. A sequential model cannot observe this.
- Host clamping of timer delays: Node's `setTimeout` runs any delay below 1 ms or above 2^31 - 1 ms after 1 ms. The model includes this host behaviour (`TimerDelay`). Other hosts are left out.
- Runnables.Batch: it requires a positive chunk size for non-empty input, because with 0 or a negative size the source loop does not end unless its first slice rejects. A negative size can reject, and `Runnables.StalledBatch` models that outcome as a value, not as the loop.
- Runnables.BatchIgnoresChunkSize, Runnables.BatchAgreesAcrossChunkSizes: the source's batch result is independent of the chunk size only for successful batches and batches with a single failing input. With two or more failing inputs, the error can depend on it. For example, if `x0` rejects after 100 ms and `x1` after 10 ms, chunk size 1 gives `x0`'s error and size 10 gives `x1`'s. The model's index-order `Collect` cannot tell these apart.
- Runnables.BatchMeaning, Runnables.StalledBatch, Runnables.StalledBatchMeaning: when several inputs of one chunk fail, `Promise.all` rejects with whichever rejects first in time. The model, and so `Runnables.Batch` too, reports the lowest-index failure. With a chunk size of 0 or below the first slice is such a chunk too: for `maxConcurrency` -1 and inputs `[slow, fast, c]`, the source rejects with `fast`'s error and the model with `slow`'s. Running a chunk's calls concurrently is also left out.
- `console.error` in `RunnableLambda.invoke`: a logging side effect only.
- JavaScript numbers are modelled as integers. Fractional or NaN values of `timeout` and `maxConcurrency`, and number-to-text output in exponent form, are not modelled.
- Limits on the argument count of `results.push(...batchResults)` for very large chunks are not modelled.
- Payloads are narrowed to numbers and strings (`Types.Value`). A thrown value is an `Error` known by its message. Thrown non-`Error` values and object identity are not modelled. A string's length (`BasicUsage.StringToNumber`) counts Unicode scalar values, while JavaScript's `length` counts UTF-16 code units; they differ for characters outside the Basic Multilingual Plane.
- TypeScript generics and parameter types are not modelled. The types are erased at run time, so each factory accepts any wrapped function.
- The `Runnable` interface is open to user classes. The model is closed to the two implementations the core defines: lambda and sequence.
- `toUpperCase` in the examples covers ASCII letters only.
- The console output of `examples/basic-usage.ts` is not modelled. Its pipelines and announced results are in `BasicUsage`.

## Findings

| source | as written | input that shows it | evidently intended | confidence | as-written member | corrected member |
|---|---|---|---|---|---|---|
| langchainjs/phase1-core/implementation/src/lambda/runnable-lambda.ts:31-36 | `func(input)` is called directly inside the promise executor. A synchronous throw escapes the `.then`/`.catch` handlers, so the promise is rejected without `clearTimeout`. The timer stays pending until it fires into an already settled promise. | a function that throws synchronously, such as `Sync(Err(e))`, invoked with any truthy timeout | the timer is cleared on every path that settles the promise, as both handlers do | medium, not executed | `RunnableLambda.WithTimeoutAsWritten`, shown by `RunnableLambda.SyncThrowLeavesTimerPending` | `RunnableLambda.WithTimeout`, proved by `RunnableLambda.WithTimeoutSettles` |

Both versions settle with the same outcome (`RunnableLambda.AsWrittenSameOutcome`), so `invoke` results do not depend on the fix.
