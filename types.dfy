/** The values that flow through a pipeline, the errors that can stop it, the
    settled outcome of a promise, and `RunnableConfig`, the per-call options
    every stage receives. */
module Types {

  datatype Option<T> = None | Some(value: T)

  /** A pipeline payload. TypeScript's `any` is narrowed to the numbers and
      strings the pipelines of this repository pass between their stages. */
  datatype Value = Num(n: int) | Str(s: string)

  /** A thrown JavaScript `Error`, known by its message. */
  datatype Error = Error(message: string)

  /** A settled promise: fulfilled with a value or rejected with an error. */
  datatype Result<T> = Ok(value: T) | Err(error: Error)

  /** `RunnableConfig`: both fields are optional, and `None` stands for a
      field that is absent (undefined). Calling without a config at all
      behaves as `NoConfig`: every reader of the config uses `config?.` or
      `config || {}`. */
  datatype Config = Config(timeout: Option<int>, maxConcurrency: Option<int>)

  const NoConfig := Config(None, None)

  /** Awaiting settled outcomes in index order: the values of all of them,
      or the first rejection. This is how `Promise.all` over one chunk is
      read when the chunk is evaluated element by element, and how a
      `for await` loop consumes a stream. */
  function Collect(rs: seq<Result<Value>>): Result<seq<Value>>
    decreases |rs|
  {
    if rs == [] then Ok([])
    else match rs[0]
      case Err(e) => Err(e)
      case Ok(v) =>
        match Collect(rs[1..])
        case Err(e) => Err(e)
        case Ok(vs) => Ok([v] + vs)
  }

  /** What collecting means: it succeeds exactly when every outcome is a
      value, then with all the values in their order; otherwise it fails
      with the error of the first rejected outcome. */
  lemma {:induction false} CollectMeaning(rs: seq<Result<Value>>)
    ensures Collect(rs).Ok? <==> forall k :: 0 <= k < |rs| ==> rs[k].Ok?
    ensures Collect(rs).Ok? ==>
      |Collect(rs).value| == |rs| && forall k :: 0 <= k < |rs| ==> Collect(rs).value[k] == rs[k].value
    ensures Collect(rs).Err? ==>
      exists k :: 0 <= k < |rs| && rs[k] == Err(Collect(rs).error) && forall j :: 0 <= j < k ==> rs[j].Ok?
    decreases |rs|
  {
    if rs != [] && rs[0].Ok? {
      CollectMeaning(rs[1..]);
      if Collect(rs[1..]).Err? {
        var k :| 0 <= k < |rs[1..]| && rs[1..][k] == Err(Collect(rs[1..]).error)
          && forall j :: 0 <= j < k ==> rs[1..][j].Ok?;
        assert rs[k + 1] == Err(Collect(rs).error);
        assert forall j :: 0 <= j < k + 1 ==> rs[j].Ok? by {
          forall j | 0 <= j < k + 1 ensures rs[j].Ok? {
            if j > 0 { assert rs[j] == rs[1..][j - 1]; }
          }
        }
      }
    } else if rs != [] {
      assert rs[0] == Err(Collect(rs).error);
    }
  }

  /** Collecting two consecutive runs of outcomes is collecting the first,
      then (only if it succeeded) the second, and joining the values. */
  lemma {:induction false} CollectAppend(a: seq<Result<Value>>, b: seq<Result<Value>>)
    ensures Collect(a + b) ==
      match Collect(a)
      case Err(e) => Err(e)
      case Ok(va) =>
        match Collect(b)
        case Err(e) => Err(e)
        case Ok(vb) => Ok(va + vb)
    decreases |a|
  {
    if a == [] {
      assert a + b == b;
      if Collect(b).Ok? { assert [] + Collect(b).value == Collect(b).value; }
    } else {
      assert (a + b)[0] == a[0];
      assert (a + b)[1..] == a[1..] + b;
      CollectAppend(a[1..], b);
      assert Collect(a) == match a[0]
        case Err(e) => Err(e)
        case Ok(v) => (match Collect(a[1..]) case Err(e) => Err(e) case Ok(vs) => Ok([v] + vs));
      if a[0].Ok? && Collect(a[1..]).Ok? && Collect(b).Ok? {
        assert [a[0].value] + (Collect(a[1..]).value + Collect(b).value)
            == ([a[0].value] + Collect(a[1..]).value) + Collect(b).value;
      }
    }
  }
}
