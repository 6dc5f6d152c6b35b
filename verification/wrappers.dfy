/** Failure-carrying results for the Python control flow of the LOCATA wrapper.
    Every exception the modelled code can raise, and every `sys.exit`, becomes
    a `Failure`; the model never hides one behind a precondition. */
module Wrappers {

  /** The ways a modelled Python call can end abnormally. */
  datatype Failure =
    | Exit(code: int)              // sys.exit(code) / exit(code)
    | ValueError
    | IndexError
    | KeyError
    | TypeError
    | AttributeError
    | ZeroDivisionError
    | LinAlgError                  // numpy.linalg rejecting its argument
    | ParameterError               // librosa rejecting an STFT parameter
    | UnboundLocal(name: string)   // a local read before any assignment

  datatype Option<+T> = None | Some(value: T)

  datatype Result<+T> = Ok(value: T) | Err(failure: Failure) {
    predicate IsFailure() { Err? }

    function PropagateFailure<U>(): Result<U>
      requires Err?
    {
      Err(failure)
    }

    function Extract(): T
      requires Ok?
    {
      value
    }
  }

  /** A Python `for k in range(n)` loop whose body may raise: the results of
      every iteration, or the exception of the first iteration that raised. */
  function Collect<T>(n: nat, f: nat --> Result<T>): (r: Result<seq<T>>)
    requires forall k: nat :: k < n ==> f.requires(k)
    ensures r.Ok? <==> forall k :: 0 <= k < n ==> f(k).Ok?
    ensures r.Ok? ==> |r.value| == n && forall k :: 0 <= k < n ==> r.value[k] == f(k).value
    ensures r.Err? ==> exists k :: 0 <= k < n && f(k).Err? && r.failure == f(k).failure && (forall j :: 0 <= j < k ==> f(j).Ok?)
  {
    if n == 0 then Ok([])
    else
      var init :- Collect(n - 1, f);
      var last :- f(n - 1);
      Ok(init + [last])
  }

  /** The exception a loop raises is one its body can raise. */
  lemma CollectRaisesFrom<T>(n: nat, f: nat --> Result<T>, allowed: Failure -> bool)
    requires forall k: nat :: k < n ==> f.requires(k)
    requires forall k: nat :: k < n && f(k).Err? ==> allowed(f(k).failure)
    ensures Collect(n, f).Err? ==> allowed(Collect(n, f).failure)
  {
  }

  /** A loop raises exactly the exception of its first raising iteration. */
  lemma CollectRaisesAt<T>(n: nat, f: nat --> Result<T>, k: nat)
    requires forall j: nat :: j < n ==> f.requires(j)
    requires k < n && f(k).Err?
    requires forall j: nat :: j < k ==> f(j).Ok?
    ensures Collect(n, f) == Err(f(k).failure)
  {
  }

  /** What every iteration's result satisfies, the collected results satisfy. */
  lemma CollectAll<T>(n: nat, f: nat --> Result<T>, p: T -> bool)
    requires forall k: nat :: k < n ==> f.requires(k)
    requires forall k: nat :: k < n && f(k).Ok? ==> p(f(k).value)
    ensures Collect(n, f).Ok? ==> forall k :: 0 <= k < n ==> p(Collect(n, f).value[k])
  {
  }
}
