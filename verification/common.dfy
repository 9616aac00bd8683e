/** Types shared by the entities and the services: Java's nullable references,
    the service outcomes (the exceptions the services throw), and the
    accumulation of validation messages. */
module Common {

  /** A nullable Java reference: `None` is `null`. */
  datatype Option<+T> = None | Some(value: T)

  /** A `java.util.Date`: an instant in milliseconds since the epoch; only its
      presence and its equality matter here. */
  datatype Date = Date(millis: int)

  /** What a service call produces: its value, or the exception it throws.
      BadData is BadDataResponse, NotFound is ResourceNotFound and Conflict is
      UniqueFieldViolation; each carries the exception's message. */
  datatype Response<+T> =
    | Ok(value: T)
    | BadData(message: string)
    | NotFound(message: string)
    | Conflict(message: string)

  /** What a query with a sample entity asks the store for: every row, or the
      rows matching the sample (framework example matching, not modelled). */
  datatype Listing<T> = Everything(rows: map<int, T>) | ByExample(probe: T)

  /** The text accumulated by appending the first `n` messages, in turn, to "". */
  function Accumulated(ms: seq<string>, n: nat): string
    requires n <= |ms|
  {
    if n == 0 then "" else Accumulated(ms, n - 1) + ms[n - 1]
  }

  /** The text accumulated by appending every message in turn to "". */
  function Concat(ms: seq<string>): string
  {
    Accumulated(ms, |ms|)
  }

  /** `x` occurs as a contiguous piece of `s`. */
  ghost predicate IsInfix(x: string, s: string)
  {
    exists i, j :: 0 <= i <= j <= |s| && s[i..j] == x
  }

  /** The accumulated text is empty exactly when every message so far is empty. */
  lemma {:induction false} AccumulatedEmptyIff(ms: seq<string>, n: nat)
    requires n <= |ms|
    ensures Accumulated(ms, n) == "" <==> forall i :: 0 <= i < n ==> ms[i] == ""
  {
    if n > 0 {
      AccumulatedEmptyIff(ms, n - 1);
    }
  }

  /** Every message, failing or not, appears in the accumulated text: none is
      dropped by a later one. */
  lemma {:induction false} AccumulatedHasEach(ms: seq<string>, n: nat, i: nat)
    requires i < n <= |ms|
    ensures IsInfix(ms[i], Accumulated(ms, n))
  {
    var front := Accumulated(ms, n - 1);
    var all := Accumulated(ms, n);
    assert all == front + ms[n - 1];
    if i == n - 1 {
      assert all[|front|..|all|] == ms[n - 1];
    } else {
      AccumulatedHasEach(ms, n - 1, i);
      var a, b :| 0 <= a <= b <= |front| && front[a..b] == ms[i];
      assert all[a..b] == front[a..b];
    }
  }

  /** When every message but the `k`-th is empty, the accumulated text is that message. */
  lemma {:induction false} AccumulatedOfOne(ms: seq<string>, n: nat, k: nat)
    requires k < n <= |ms|
    requires forall i :: 0 <= i < |ms| && i != k ==> ms[i] == ""
    ensures Accumulated(ms, n) == ms[k]
  {
    if k == n - 1 {
      AccumulatedEmptyIff(ms, n - 1);
    } else {
      AccumulatedOfOne(ms, n - 1, k);
    }
  }
}
