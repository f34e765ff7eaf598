/** Failure-carrying wrappers shared by every scraper model. */
module Outcome {

  /** A value that may be absent: a missing attribute, a missing element, a failed parse. */
  datatype Option<+T> = None | Some(value: T)

  /** What one HTTP request (or one browser visit) gave back: either the transport
      raised before any answer arrived, or the server answered with a status code and
      a body that has already been parsed into the shape the scraper reads. */
  datatype Response<+T> = Unreachable | Reply(status: int, body: T)
  {
    /** The body of a `200 OK` answer, the only one the scrapers read. */
    predicate IsOk() { Reply? && status == 200 }
  }

  /** The outcome of a computation that the source lets raise: `Raised` stands for
      an exception (a `KeyError`, `ValueError`, `IndexError` or a process exit). */
  datatype Result<+T> = Ok(value: T) | Raised(reason: string)

  /** The value of an optional string attribute, with Python's `dict.get(key, "")` default. */
  function OrEmpty(o: Option<string>): string
  {
    match o
    case Some(v) => v
    case None => ""
  }

  /** The values `f` gives for the elements of `xs` it does not reject, in order: the
      scrapers' `for item in items: try ... append ... except: continue` loops. */
  function FilterMap<A, B>(xs: seq<A>, f: A -> Option<B>): seq<B>
  {
    if |xs| == 0 then []
    else
      (match f(xs[0]) case None => [] case Some(y) => [y]) + FilterMap(xs[1..], f)
  }

  /** A value is kept exactly when some element yields it. */
  lemma {:induction false} FilterMapMembers<A, B>(xs: seq<A>, f: A -> Option<B>, y: B)
    ensures y in FilterMap(xs, f) <==> exists i :: 0 <= i < |xs| && f(xs[i]) == Some(y)
  {
    if |xs| > 0 {
      FilterMapMembers(xs[1..], f, y);
      assert forall i :: 1 <= i < |xs| ==> xs[i] == xs[1..][i - 1];
    }
  }

  /** Filtering two runs one after the other gives the two results one after the other. */
  lemma {:induction false} FilterMapAppend<A, B>(a: seq<A>, b: seq<A>, f: A -> Option<B>)
    ensures FilterMap(a + b, f) == FilterMap(a, f) + FilterMap(b, f)
  {
    if |a| > 0 {
      assert (a + b)[1..] == a[1..] + b;
      FilterMapAppend(a[1..], b, f);
    } else {
      assert a + b == b;
    }
  }

  /** Nothing is rejected when `f` rejects nothing, and the result is as long as the input. */
  lemma {:induction false} FilterMapTotal<A, B>(xs: seq<A>, f: A -> Option<B>)
    requires forall i :: 0 <= i < |xs| ==> f(xs[i]).Some?
    ensures |FilterMap(xs, f)| == |xs|
    ensures forall i :: 0 <= i < |xs| ==> FilterMap(xs, f)[i] == f(xs[i]).value
  {
    if |xs| > 0 {
      FilterMapTotal(xs[1..], f);
      assert forall i :: 1 <= i < |xs| ==> xs[i] == xs[1..][i - 1];
    }
  }

  /** Nothing is kept when `f` rejects everything. */
  lemma {:induction false} FilterMapNone<A, B>(xs: seq<A>, f: A -> Option<B>)
    requires forall i :: 0 <= i < |xs| ==> f(xs[i]).None?
    ensures FilterMap(xs, f) == []
  {
    if |xs| > 0 {
      assert forall i :: 1 <= i < |xs| ==> xs[i] == xs[1..][i - 1];
      FilterMapNone(xs[1..], f);
    }
  }

  /** The positions of the elements `f` keeps, in order, counted from `start`. */
  function KeptFrom<A, B>(xs: seq<A>, f: A -> Option<B>, start: nat): seq<nat>
  {
    if |xs| == 0 then []
    else (if f(xs[0]).Some? then [start] else []) + KeptFrom(xs[1..], f, start + 1)
  }

  /** One position per kept value. */
  lemma {:induction false} KeptLength<A, B>(xs: seq<A>, f: A -> Option<B>, start: nat)
    ensures |KeptFrom(xs, f, start)| == |FilterMap(xs, f)|
  {
    if |xs| > 0 {
      KeptLength(xs[1..], f, start + 1);
    }
  }

  /** The positions of the elements `f` keeps, in order. */
  function KeptIndices<A, B>(xs: seq<A>, f: A -> Option<B>): (idx: seq<nat>)
    ensures |idx| == |FilterMap(xs, f)|
  {
    KeptLength(xs, f, 0);
    KeptFrom(xs, f, 0)
  }

  /** Filtering keeps a subsequence: the kept values come from strictly increasing
      positions, and every position `f` accepts is among them. */
  lemma FilterMapOrder<A, B>(xs: seq<A>, f: A -> Option<B>)
    ensures forall k :: 0 <= k < |KeptIndices(xs, f)| ==>
      KeptIndices(xs, f)[k] < |xs| && f(xs[KeptIndices(xs, f)[k]]) == Some(FilterMap(xs, f)[k])
    ensures forall k, l :: 0 <= k < l < |KeptIndices(xs, f)| ==> KeptIndices(xs, f)[k] < KeptIndices(xs, f)[l]
    ensures forall i :: 0 <= i < |xs| && f(xs[i]).Some? ==> i in KeptIndices(xs, f)
  {
    forall k | 0 <= k < |KeptIndices(xs, f)|
      ensures KeptIndices(xs, f)[k] < |xs| && f(xs[KeptIndices(xs, f)[k]]) == Some(FilterMap(xs, f)[k])
    {
      KeptSound(xs, f, 0, k);
    }
    forall k, l | 0 <= k < l < |KeptIndices(xs, f)|
      ensures KeptIndices(xs, f)[k] < KeptIndices(xs, f)[l]
    {
      KeptIncreasing(xs, f, 0, k, l);
    }
    forall i | 0 <= i < |xs| && f(xs[i]).Some?
      ensures i in KeptIndices(xs, f)
    {
      KeptComplete(xs, f, 0, i);
    }
  }

  /** The `k`th kept position lies within `xs` and holds the `k`th kept value. */
  lemma {:induction false} KeptSound<A, B>(xs: seq<A>, f: A -> Option<B>, start: nat, k: nat)
    requires k < |KeptFrom(xs, f, start)|
    ensures |KeptFrom(xs, f, start)| == |FilterMap(xs, f)|
    ensures start <= KeptFrom(xs, f, start)[k] < start + |xs|
    ensures f(xs[KeptFrom(xs, f, start)[k] - start]) == Some(FilterMap(xs, f)[k])
  {
    KeptLength(xs, f, start);
    var rest := KeptFrom(xs[1..], f, start + 1);
    var ys := FilterMap(xs[1..], f);
    if f(xs[0]).Some? {
      assert KeptFrom(xs, f, start) == [start] + rest;
      assert FilterMap(xs, f) == [f(xs[0]).value] + ys;
      if k > 0 {
        KeptSound(xs[1..], f, start + 1, k - 1);
        assert xs[rest[k - 1] - start] == xs[1..][rest[k - 1] - (start + 1)];
      }
    } else {
      assert KeptFrom(xs, f, start) == rest;
      assert FilterMap(xs, f) == ys;
      KeptSound(xs[1..], f, start + 1, k);
      assert xs[rest[k] - start] == xs[1..][rest[k] - (start + 1)];
    }
  }

  /** Kept positions strictly increase. */
  lemma {:induction false} KeptIncreasing<A, B>(xs: seq<A>, f: A -> Option<B>, start: nat, k: nat, l: nat)
    requires k < l < |KeptFrom(xs, f, start)|
    ensures KeptFrom(xs, f, start)[k] < KeptFrom(xs, f, start)[l]
  {
    var rest := KeptFrom(xs[1..], f, start + 1);
    if f(xs[0]).Some? {
      assert KeptFrom(xs, f, start) == [start] + rest;
      KeptSound(xs[1..], f, start + 1, l - 1);
      if k > 0 {
        KeptIncreasing(xs[1..], f, start + 1, k - 1, l - 1);
      }
    } else {
      assert KeptFrom(xs, f, start) == rest;
      KeptIncreasing(xs[1..], f, start + 1, k, l);
    }
  }

  /** Every position `f` accepts is kept. */
  lemma {:induction false} KeptComplete<A, B>(xs: seq<A>, f: A -> Option<B>, start: nat, i: nat)
    requires i < |xs| && f(xs[i]).Some?
    ensures start + i in KeptFrom(xs, f, start)
  {
    var rest := KeptFrom(xs[1..], f, start + 1);
    if i == 0 {
      assert KeptFrom(xs, f, start) == [start] + rest;
    } else {
      assert xs[i] == xs[1..][i - 1];
      KeptComplete(xs[1..], f, start + 1, i - 1);
      var head: seq<nat> := if f(xs[0]).Some? then [start] else [];
      assert KeptFrom(xs, f, start) == head + rest;
    }
  }

  /** The number of elements `f` rejects. */
  function Rejected<A, B>(xs: seq<A>, f: A -> Option<B>): nat
  {
    if |xs| == 0 then 0 else (if f(xs[0]).None? then 1 else 0) + Rejected(xs[1..], f)
  }

  /** Every element is either kept or rejected. */
  lemma {:induction false} FilterMapCount<A, B>(xs: seq<A>, f: A -> Option<B>)
    ensures |FilterMap(xs, f)| + Rejected(xs, f) == |xs|
  {
    if |xs| > 0 {
      FilterMapCount(xs[1..], f);
    }
  }
}
