/** The pipelines of `examples/basic-usage.ts` and the outcomes that file
    announces for them. The wrapped functions are defined on the inputs the
    examples give them; other inputs pass through unchanged. */
module BasicUsage {
  import opened Types
  import Decimal
  import RunnableLambda
  import opened Runnables
  import opened LambdaFactories

  function NumberFn(g: int -> int): Value -> RunnableLambda.Call
  {
    (x: Value) => RunnableLambda.Sync(Ok(if x.Num? then Num(g(x.n)) else x))
  }

  function StringFn(g: string -> string): Value -> RunnableLambda.Call
  {
    (x: Value) => RunnableLambda.Sync(Ok(if x.Str? then Str(g(x.s)) else x))
  }

  /** `toUpperCase`, for the ASCII letters the examples use. */
  function AsciiUpper(s: string): string
  {
    seq(|s|, k requires 0 <= k < |s| => if 'a' <= s[k] <= 'z' then (s[k] as int - 32) as char else s[k])
  }

  function UpperCase(): Runnable { From(StringFn(AsciiUpper)) }
  function AddPrefix(): Runnable { CreateStringProcessor(StringFn(t => "[处理过] " + t)) }
  function MakeExciting(): Runnable { CreateStringProcessor(StringFn(t => t + "!!!")) }
  function TextPipeline(): Runnable { Pipe(Pipe(UpperCase(), AddPrefix()), MakeExciting()) }

  function Double(): Runnable { CreateNumberProcessor(NumberFn(n => n * 2)) }
  function AddTen(): Runnable { CreateNumberProcessor(NumberFn(n => n + 10)) }
  function ToSquare(): Runnable { CreateNumberProcessor(NumberFn(n => n * n)) }
  function MathPipeline(): Runnable { Pipe(Pipe(Double(), AddTen()), ToSquare()) }

  /** Settles 100 ms after it is called. */
  function SlowProcessor(): Runnable
  {
    From((x: Value) => RunnableLambda.Async(Ok(if x.Str? then Str("慢速处理: " + x.s) else x), 100))
  }

  function StringToNumber(): Runnable
  {
    From((x: Value) => RunnableLambda.Sync(Ok(if x.Str? then Num(|x.s|) else x)))
  }

  function NumberToString(): Runnable
  {
    From((x: Value) => RunnableLambda.Sync(Ok(if x.Num? then Str("长度是: " + Decimal.IntToString(x.n)) else x)))
  }

  /** `(5 * 2 + 10)^2 = 400`. */
  lemma MathPipelineGives400()
    ensures Invoke(MathPipeline(), Num(5), NoConfig) == Ok(Num(400))
  {
  }

  lemma TextPipelineExample()
    ensures Invoke(TextPipeline(), Str("hello world"), NoConfig) == Ok(Str("[处理过] HELLO WORLD!!!"))
  {
    PipeIsComposition(Pipe(UpperCase(), AddPrefix()), MakeExciting(), Str("hello world"), NoConfig);
    PipeIsComposition(UpperCase(), AddPrefix(), Str("hello world"), NoConfig);
    assert AsciiUpper("hello world") == "HELLO WORLD";
    assert Invoke(UpperCase(), Str("hello world"), NoConfig) == Ok(Str("HELLO WORLD"));
    assert "[处理过] " + "HELLO WORLD" == "[处理过] HELLO WORLD";
    assert Invoke(AddPrefix(), Str("HELLO WORLD"), NoConfig) == Ok(Str("[处理过] HELLO WORLD"));
    assert "[处理过] HELLO WORLD" + "!!!" == "[处理过] HELLO WORLD!!!";
  }

  /** A 50 ms timeout rejects the 100 ms call with the timeout error; a 200 ms
      one lets it finish. */
  lemma TimeoutExample()
    ensures Invoke(SlowProcessor(), Str("test"), Config(Some(50), None)) ==
      Err(Error("Function execution timed out after 50ms"))
    ensures Invoke(SlowProcessor(), Str("test"), Config(Some(200), None)) == Ok(Str("慢速处理: test"))
  {
    assert Decimal.NatToString(5) == "5";
    assert Decimal.NatToString(50) == "50";
    assert "慢速处理: " + "test" == "慢速处理: test";
    assert RunnableLambda.FinishesFirst(RunnableLambda.Async(Ok(Str("慢速处理: test")), 100), 200);
  }

  lemma TypeSafeChainExample()
    ensures Invoke(Pipe(StringToNumber(), NumberToString()), Str("TypeScript is awesome!"), NoConfig)
      == Ok(Str("长度是: 22"))
  {
    PipeIsComposition(StringToNumber(), NumberToString(), Str("TypeScript is awesome!"), NoConfig);
    assert Decimal.NatToString(2) == "2";
    assert Decimal.NatToString(22) == "22";
    assert |"TypeScript is awesome!"| == 22;
    assert Invoke(StringToNumber(), Str("TypeScript is awesome!"), NoConfig) == Ok(Num(22));
    assert "长度是: " + "22" == "长度是: 22";
  }

  /** `batch([1, 2, 3])` of `n => n * 2` gives `[2, 4, 6]` with one input per
      chunk and with the default ten. */
  method BatchDoubles() returns (one: Result<seq<Value>>, ten: Result<seq<Value>>)
    ensures one == Ok([Num(2), Num(4), Num(6)])
    ensures ten == one
  {
    var inputs := [Num(1), Num(2), Num(3)];
    ghost var c1, c2;
    one, c1 := Batch(Double(), inputs, Config(None, Some(1)));
    ten, c2 := Batch(Double(), inputs, NoConfig);
    BatchIgnoresChunkSize(Double(), inputs, NoConfig, Some(1));
    BatchMeaning(Double(), inputs, NoConfig);
    assert |ten.value| == 3;
    assert ten.value == [ten.value[0], ten.value[1], ten.value[2]];
  }

  function Rejecting(): Runnable
  {
    From((x: Value) => RunnableLambda.Sync(if x == Str("bad") then Err(Error("bad input")) else Ok(x)))
  }

  /** One failing input fails the whole batch; no partial list comes back. */
  method BatchFailsAsAWhole() returns (out: Result<seq<Value>>)
    ensures out == Err(Error("bad input"))
  {
    var inputs := [Str("a"), Str("bad"), Str("c")];
    ghost var chunks;
    out, chunks := Batch(Rejecting(), inputs, NoConfig);
    BatchMeaning(Rejecting(), inputs, NoConfig);
    assert Invoke(Rejecting(), inputs[1], NoConfig).Err?;
    assert Invoke(Rejecting(), inputs[0], NoConfig).Ok?;
  }

  /** With `maxConcurrency` -1 only the first slice, all inputs but the last,
      is ever invoked: a failure there rejects the batch, and a failure in the
      last input is never reached, so the batch never settles. */
  lemma NegativeChunkSizeExample()
    ensures StalledBatch(Rejecting(), [Str("bad"), Str("c")], Config(None, Some(-1))) == Some(Err(Error("bad input")))
    ensures StalledBatch(Rejecting(), [Str("a"), Str("bad")], Config(None, Some(-1))) == None
  {
    var c := Config(None, Some(-1));
    assert Slice([Str("bad"), Str("c")], 0, -1) == [Str("bad")];
    assert Slice([Str("a"), Str("bad")], 0, -1) == [Str("a")];
    BatchMeaning(Rejecting(), [Str("bad")], c);
    BatchMeaning(Rejecting(), [Str("a")], c);
  }
}
