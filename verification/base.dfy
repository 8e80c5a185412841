/** Shared vocabulary of the model: optional values (a field that may be
    absent from a document, a signed-out user), JavaScript truthiness of the
    few value kinds the handlers test, and the failure points of the
    document store. */
module Base {

  /** An optional value: `None` stands for `undefined`/`null` in the source. */
  datatype Option<+T> = None | Some(value: T) {

    /** The value, or `default` when absent (`x ?? default`). */
    function GetOr(default: T): T {
      match this
      case Some(v) => v
      case None => default
    }
  }

  /** User identifiers as issued by the authentication provider. */
  type Uid = string

  /** `o || d` on an optional string: the empty string is falsy too. */
  function OrElse(o: Option<string>, d: string): (r: string)
    ensures o.Some? && o.value != "" ==> r == o.value
    ensures (o.None? || o.value == "") ==> r == d
  {
    if o.Some? && o.value != "" then o.value else d
  }

  /** Truthiness of an optional string. */
  predicate Truthy(o: Option<string>) {
    o.Some? && o.value != ""
  }

  /** `c || 0` on an optional counter. */
  function CountOrZero(c: Option<int>): int {
    c.GetOr(0)
  }

  /** The store applying a numeric `increment(delta)` to a counter field:
      an absent field counts as 0. */
  function Increment(c: Option<int>, delta: int): (r: Option<int>)
    ensures r.Some? && r.value == CountOrZero(c) + delta
  {
    Some(CountOrZero(c) + delta)
  }

  /** Where the document store rejects a handler's sequence of writes.
      Writes are numbered 0, 1, 2, ... in the order the handler awaits them;
      with `FailAt(k)` the writes numbered below `k` take effect, write `k`
      throws, and the handler continues in its `catch` block. */
  datatype Fault = NoFault | FailAt(step: nat) {

    /** Whether write number `k` succeeds. */
    predicate Allows(k: nat) {
      NoFault? || k < step
    }
  }
}
