/** The factories of `lambda/runnable-lambda.ts`: `RunnableLambda.from` and
    the three `create...Processor` helpers, which only forward their function
    to it. TypeScript's parameter types are erased at run time, so each
    factory accepts any wrapped function. */
module LambdaFactories {
  import opened Types
  import RunnableLambda
  import opened Runnables

  /** `RunnableLambda.from(func)`: a new lambda around `func`, unchanged. */
  function From(func: Value -> RunnableLambda.Call): (r: Runnable)
    ensures r.Lambda?
    ensures forall x, config :: Invoke(r, x, config) == RunnableLambda.Invoke(func, x, config)
  {
    Lambda(func)
  }

  /** `RunnableLambda.from(f).invoke(x)` is `f(x)` when no timeout is set;
      its inherited `batch` is `f` mapped over the inputs. */
  lemma FromBehavesAsFunction(func: Value -> RunnableLambda.Call, inputs: seq<Value>, config: Config)
    requires !RunnableLambda.TimeoutSet(config)
    ensures forall x :: Invoke(From(func), x, config) == func(x).result
    ensures InvokeEach(From(func), inputs, config) ==
      Collect(seq(|inputs|, k requires 0 <= k < |inputs| => func(inputs[k]).result))
  {
    assert seq(|inputs|, k requires 0 <= k < |inputs| => Invoke(From(func), inputs[k], config))
        == seq(|inputs|, k requires 0 <= k < |inputs| => func(inputs[k]).result);
  }

  /** `createStringProcessor(processor)`: behaves as `RunnableLambda.from(processor)`. */
  function CreateStringProcessor(processor: Value -> RunnableLambda.Call): (r: Runnable)
    ensures forall x, config :: Invoke(r, x, config) == Invoke(From(processor), x, config)
  {
    From(processor)
  }

  /** `createNumberProcessor(processor)`: behaves as `RunnableLambda.from(processor)`. */
  function CreateNumberProcessor(processor: Value -> RunnableLambda.Call): (r: Runnable)
    ensures forall x, config :: Invoke(r, x, config) == Invoke(From(processor), x, config)
  {
    From(processor)
  }

  /** `createAsyncProcessor(processor)`: behaves as `RunnableLambda.from(processor)`. */
  function CreateAsyncProcessor(processor: Value -> RunnableLambda.Call): (r: Runnable)
    ensures forall x, config :: Invoke(r, x, config) == Invoke(From(processor), x, config)
  {
    From(processor)
  }
}
