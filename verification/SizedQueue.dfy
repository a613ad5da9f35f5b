/** The queue-with-sizes of lib/whatwg/streams/helpers.js: a list of sized entries and a
    running total that every operation updates incrementally. Sizes are exact numbers. */
module SizedQueue {
  datatype Entry<+T> = Entry(value: T, size: real)

  /** What a queuing strategy's size function can give back. */
  datatype Size = Number(n: real) | NotFinite

  predicate IsFiniteNonNegative(size: Size) {
    size.Number? && size.n >= 0.0
  }

  ghost function Sum<T>(q: seq<Entry<T>>): real {
    if q == [] then 0.0 else q[0].size + Sum(q[1..])
  }

  ghost predicate Consistent<T>(q: seq<Entry<T>>, total: real) {
    total == Sum(q) && forall i :: 0 <= i < |q| ==> q[i].size >= 0.0
  }

  /** The running total after the head entry leaves, clamped at zero. */
  function TotalAfterDequeue<T>(q: seq<Entry<T>>, total: real): real
    requires |q| > 0
  {
    var t := total - q[0].size;
    if t < 0.0 then 0.0 else t
  }

  lemma {:induction false} SumAppend<T>(q: seq<Entry<T>>, e: Entry<T>)
    ensures Sum(q + [e]) == Sum(q) + e.size
  {
    if q == [] {
      assert q + [e] == [e];
    } else {
      assert (q + [e])[1..] == q[1..] + [e];
      SumAppend(q[1..], e);
    }
  }

  lemma {:induction false} SumNonNegative<T>(q: seq<Entry<T>>)
    requires forall i :: 0 <= i < |q| ==> q[i].size >= 0.0
    ensures Sum(q) >= 0.0
  {
    if q != [] {
      SumNonNegative(q[1..]);
    }
  }

  /** Over exact numbers the clamp never acts, and dequeuing keeps the total exact. */
  lemma DequeueKeepsTotal<T>(q: seq<Entry<T>>, total: real)
    requires |q| > 0 && Consistent(q, total)
    ensures TotalAfterDequeue(q, total) == total - q[0].size
    ensures Consistent(q[1..], TotalAfterDequeue(q, total))
  {
    SumNonNegative(q[1..]);
  }

  lemma EnqueueKeepsTotal<T>(q: seq<Entry<T>>, total: real, e: Entry<T>)
    requires Consistent(q, total) && e.size >= 0.0
    ensures Consistent(q + [e], total + e.size)
  {
    SumAppend(q, e);
  }

  /** A container holding the two slots; its methods are the helpers, run in place. */
  class Container<T> {
    var queue: seq<Entry<T>>
    var total: real

    constructor ()
      ensures queue == [] && total == 0.0
    {
      queue, total := [], 0.0;
    }

    method DequeueValue() returns (value: T)
      requires |queue| > 0
      modifies this
      ensures value == old(queue)[0].value && queue == old(queue)[1..]
      ensures total == TotalAfterDequeue(old(queue), old(total))
      ensures old(Consistent(queue, total)) ==>
                Consistent(queue, total) && total == old(total) - old(queue)[0].size
    {
      if Consistent(queue, total) {
        DequeueKeepsTotal(queue, total);
      }
      var pair := queue[0];
      queue := queue[1..];
      total := total - pair.size;
      if total < 0.0 {
        total := 0.0;
      }
      value := pair.value;
    }

    /** Returns whether the size was accepted; a refused size is the source's RangeError. */
    method EnqueueValueWithSize(value: T, size: Size) returns (ok: bool)
      modifies this
      ensures ok == IsFiniteNonNegative(size)
      ensures ok ==> queue == old(queue) + [Entry(value, size.n)] && total == old(total) + size.n
      ensures !ok ==> queue == old(queue) && total == old(total)
      ensures old(Consistent(queue, total)) ==> Consistent(queue, total)
    {
      if !IsFiniteNonNegative(size) {
        return false;
      }
      if Consistent(queue, total) {
        EnqueueKeepsTotal(queue, total, Entry(value, size.n));
      }
      queue := queue + [Entry(value, size.n)];
      total := total + size.n;
      ok := true;
    }

    method PeekQueueValue() returns (value: T)
      requires |queue| > 0
      ensures value == queue[0].value
    {
      value := queue[0].value;
    }

    method ResetQueue()
      modifies this
      ensures queue == [] && total == 0.0
      ensures Consistent(queue, total)
    {
      queue, total := [], 0.0;
    }
  }
}
