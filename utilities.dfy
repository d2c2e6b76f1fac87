/** `profiles/utilities.py`: dropping `None` values from a dict, and chaining exceptions. */
module Utilities {
  import opened Wrappers
  import opened Pairs

  /** `remove_none_values(items)`: the items whose value is not `None`, in their original order. */
  function RemoveNoneValues<K(==,!new), V(==,!new)>(d: seq<(K, Option<V>)>): (r: seq<(K, Option<V>)>)
    ensures |r| <= |d|
    ensures forall i :: 0 <= i < |r| ==> r[i].1.Some?
    ensures forall p :: p in r <==> p in d && p.1.Some?
  {
    if d == [] then []
    else if d[0].1.Some? then [d[0]] + RemoveNoneValues(d[1..])
    else RemoveNoneValues(d[1..])
  }

  predicate NoNoneValues<K, V>(d: seq<(K, Option<V>)>) {
    forall i :: 0 <= i < |d| ==> d[i].1.Some?
  }

  lemma {:induction false} RemoveNothing<K(!new), V(!new)>(d: seq<(K, Option<V>)>)
    requires NoNoneValues(d)
    ensures RemoveNoneValues(d) == d
  {
    if d != [] {
      RemoveNothing(d[1..]);
    }
  }

  /** Filtering twice is filtering once. */
  lemma RemoveNoneValuesIdempotent<K(!new), V(!new)>(d: seq<(K, Option<V>)>)
    ensures RemoveNoneValues(RemoveNoneValues(d)) == RemoveNoneValues(d)
  {
    RemoveNothing(RemoveNoneValues(d));
  }

  lemma {:induction false} RemoveNoneValuesUnique<K(!new), V(!new)>(d: seq<(K, Option<V>)>)
    requires UniqueKeys(d)
    ensures UniqueKeys(RemoveNoneValues(d))
  {
    if d != [] {
      assert Keys(d[1..]) == Keys(d)[1..];
      RemoveNoneValuesUnique(d[1..]);
      var r' := RemoveNoneValues(d[1..]);
      if d[0].1.Some? {
        assert Keys([d[0]] + r') == [d[0].0] + Keys(r');
        forall i | 0 <= i < |r'| ensures r'[i].0 != d[0].0 {
          var j :| 0 <= j < |d[1..]| && d[1..][j] == r'[i];
          assert Keys(d)[j + 1] == r'[i].0;
        }
      }
    }
  }

  /** The keys that survive, in their original order: one more item in front keeps its key
      in front exactly when its value is present. */
  lemma RemoveNoneValuesKeysCons<K(!new), V(!new)>(p: (K, Option<V>), d: seq<(K, Option<V>)>)
    ensures Keys(RemoveNoneValues([p] + d)) == (if p.1.Some? then [p.0] else []) + Keys(RemoveNoneValues(d))
  {
    assert ([p] + d)[1..] == d;
    var r := RemoveNoneValues(d);
    if p.1.Some? {
      assert Keys([p] + r) == [p.0] + Keys(r);
    }
  }

  /** For a dict, the result is the sub-dict of the present values: looking a key up in it gives
      the input's value when that is not `None`, and nothing otherwise. */
  lemma {:induction false} RemoveNoneValuesGet<K(!new), V(!new)>(d: seq<(K, Option<V>)>, k: K)
    requires UniqueKeys(d)
    ensures UniqueKeys(RemoveNoneValues(d))
    ensures Get(RemoveNoneValues(d), k) == if Get(d, k).Some? && Get(d, k).value.Some? then Get(d, k) else None
  {
    RemoveNoneValuesUnique(d);
    if d != [] {
      var t := d[1..];
      assert d == [d[0]] + t;
      assert Keys(t) == Keys(d)[1..];
      RemoveNoneValuesGet(t, k);
      GetCons(d[0], t, k);
      if d[0].1.Some? {
        GetCons(d[0], RemoveNoneValues(t), k);
      } else if d[0].0 == k {
        assert k !in Keys(t);
      }
    }
  }

  /** The values of a sequence known to hold no `None`, taken out of their `Option`. */
  function Unwrap<K, V>(d: seq<(K, Option<V>)>): (r: seq<(K, V)>)
    requires NoNoneValues(d)
    ensures Keys(r) == Keys(d)
    ensures forall i :: 0 <= i < |d| ==> d[i].1 == Some(r[i].1)
  {
    var r := seq(|d|, i requires 0 <= i < |d| => (d[i].0, d[i].1.value));
    assert Keys(r) == Keys(d);
    r
  }

  lemma UnwrapGet<K, V>(d: seq<(K, Option<V>)>, k: K)
    requires NoNoneValues(d)
    ensures Get(Unwrap(d), k) == if Get(d, k).Some? then Some(Get(d, k).value.value) else None
  {
  }

  /** A Python exception: its class, its message and its `__cause__`. */
  datatype PyException = PyException(kind: string, message: string, cause: Option<PyException>)

  /** `chain_exception(exception, previous, message)`: a new `exception` whose message is `message`
      when that is truthy and `str(previous)` otherwise, caused by `previous`. */
  function ChainException(kind: string, previous: PyException, message: Option<string>): (e: PyException)
    ensures e.kind == kind && e.cause == Some(previous)
    ensures Truthy(message) ==> e.message == message.value
    ensures !Truthy(message) ==> e.message == previous.message
  {
    PyException(kind, if Truthy(message) then message.value else previous.message, Some(previous))
  }

  /** The chain of causes of an exception, nearest first. */
  function Causes(e: PyException): (cs: seq<PyException>)
    ensures |cs| == 0 <==> e.cause.None?
  {
    match e.cause
    case None => []
    case Some(c) => [c] + Causes(c)
  }

  /** Chaining puts `previous`, and after it its own causes, under the new exception. */
  lemma ChainExceptionCauses(kind: string, previous: PyException, message: Option<string>)
    ensures Causes(ChainException(kind, previous, message)) == [previous] + Causes(previous)
    ensures ChainException(kind, previous, message).message != "" <==> Truthy(message) || previous.message != ""
  {
  }
}
