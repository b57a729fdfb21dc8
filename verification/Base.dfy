/** Results, options and the few sequence facts that every adapter model uses. */
module Base {

  datatype Option<+T> = None | Some(value: T)

  /** Why an adapter gives up on a source; the same words as the adapters' tagged errors. */
  datatype Reason = Unsupported | Format | Changed | Limit | Attribution | Io

  datatype Result<+T> = Ok(value: T) | Err(reason: Reason) {
    predicate IsFailure() {
      Err?
    }

    function PropagateFailure<U>(): Result<U>
      requires Err?
    {
      Err(reason)
    }

    function Extract(): T
      requires Ok?
    {
      value
    }
  }

  function Min(a: int, b: int): int {
    if a < b then a else b
  }

  function Max(a: int, b: int): int {
    if a < b then b else a
  }

  /** All inner sequences, one after the other. */
  function Flatten<T>(parts: seq<seq<T>>): seq<T> {
    if parts == [] then [] else parts[0] + Flatten(parts[1..])
  }

  /** Named so that proofs over concatenations can ask for this one instance. */
  lemma Assoc<T>(x: seq<T>, y: seq<T>, z: seq<T>)
    ensures x + (y + z) == (x + y) + z
  {
  }

  lemma TakeDrop<T>(s: seq<T>, k: nat)
    requires k <= |s|
    ensures s[..k] + s[k..] == s
  {
  }

  lemma {:induction false} FlattenAppend<T>(a: seq<seq<T>>, b: seq<seq<T>>)
    ensures Flatten(a + b) == Flatten(a) + Flatten(b)
  {
    if a == [] {
      assert a + b == b;
    } else {
      FlattenAppend(a[1..], b);
      Assoc(a[0], Flatten(a[1..]), Flatten(b));
      assert (a + b)[1..] == a[1..] + b;
    }
  }

  lemma FlattenSnoc<T>(a: seq<seq<T>>, last: seq<T>)
    ensures Flatten(a + [last]) == Flatten(a) + last
  {
    FlattenAppend(a, [last]);
    assert Flatten([last]) == last;
  }

  /** Adding to the last part adds at the end. */
  lemma SnocLast<T>(turns: seq<seq<T>>, f: T)
    requires turns != []
    ensures var last := |turns| - 1;
            Flatten(turns[last := turns[last] + [f]]) == Flatten(turns) + [f]
  {
    var last := |turns| - 1;
    assert turns[last := turns[last] + [f]] == turns[..last] + [turns[last] + [f]];
    assert turns == turns[..last] + [turns[last]];
    FlattenSnoc(turns[..last], turns[last] + [f]);
    FlattenSnoc(turns[..last], turns[last]);
    Assoc(Flatten(turns[..last]), turns[last], [f]);
  }

  predicate Distinct<T(==)>(s: seq<T>) {
    forall i, j :: 0 <= i < j < |s| ==> s[i] != s[j]
  }

  function Reversed<T>(s: seq<T>): (r: seq<T>)
    ensures |r| == |s|
    ensures forall k :: 0 <= k < |s| ==> r[k] == s[|s| - 1 - k]
  {
    if s == [] then [] else Reversed(s[1..]) + [s[0]]
  }

  predicate Increasing(s: seq<nat>) {
    forall i, j :: 0 <= i < j < |s| ==> s[i] < s[j]
  }

  predicate AtMost(s: seq<nat>, bound: nat) {
    forall i :: 0 <= i < |s| ==> s[i] <= bound
  }

  /** 0, 1, 2, ... : the event numbers of a complete target. */
  predicate CountsFrom(start: nat, s: seq<nat>) {
    forall i :: 0 <= i < |s| ==> s[i] == start + i
  }
}
