/** The programme record every scraper produces, and the time facts shared by them. */
module Schedule {
  import opened Outcome
  import opened Civil
  import opened TimeFormat

  /** One programme: the channel it belongs to (the TBC scrapers add the channel's
      id; the others leave it out), the channel name it was listed under, its title
      and description, and its start and end as wall-clock readings in Asia/Taipei. */
  datatype Program = Program(
    channelId: Option<string>,
    channelName: string,
    title: string,
    description: string,
    start: DateTime,
    end: DateTime)

  /** Both ends are date-times `datetime` can hold and strftime can print. */
  predicate Timed(p: Program)
  {
    Printable(p.start) && Printable(p.end)
  }

  predicate AllTimed(ps: seq<Program>)
  {
    forall i :: 0 <= i < |ps| ==> Timed(ps[i])
  }

  /** The start as an instant, the key aware `datetime`s sort by; 0 for a start that
      is no calendar date (which no parser produces). */
  function StartKey(p: Program): int
  {
    if ValidDate(p.start.date) then Instant(p.start) else 0
  }

  /** The programmes of a list of per-channel lists, in order. */
  function Concat(lists: seq<seq<Program>>): seq<Program>
  {
    if |lists| == 0 then [] else lists[0] + Concat(lists[1..])
  }

  /** The lists `f(xs[0], k)`, `f(xs[1], k + 1)`, and so on: one list per element,
      each computed knowing its position in the run. */
  function Numbered<T>(f: (T, nat) --> seq<Program>, xs: seq<T>, k: nat): (lists: seq<seq<Program>>)
    requires forall i :: 0 <= i < |xs| ==> f.requires(xs[i], k + i)
    ensures |lists| == |xs|
  {
    if |xs| == 0 then []
    else
      assert forall i :: 0 <= i < |xs[1..]| ==> xs[1..][i] == xs[i + 1] && k + 1 + i == k + (i + 1);
      [f(xs[0], k)] + Numbered(f, xs[1..], k + 1)
  }

  /** Entry `j` is element `j`'s list, computed at position `k + j`. */
  lemma {:induction false} NumberedAt<T>(f: (T, nat) --> seq<Program>, xs: seq<T>, k: nat, j: nat)
    requires forall i :: 0 <= i < |xs| ==> f.requires(xs[i], k + i)
    requires j < |xs|
    ensures f.requires(xs[j], k + j) && Numbered(f, xs, k)[j] == f(xs[j], k + j)
  {
    if j > 0 {
      assert forall i :: 0 <= i < |xs[1..]| ==> xs[1..][i] == xs[i + 1] && k + 1 + i == k + (i + 1);
      NumberedAt(f, xs[1..], k + 1, j - 1);
      assert xs[1..][j - 1] == xs[j];
    }
  }

  /** A programme of any one element's list is in the concatenation of them all. */
  lemma NumberedComplete<T>(f: (T, nat) --> seq<Program>, xs: seq<T>, k: nat, j: nat, p: Program)
    requires forall i :: 0 <= i < |xs| ==> f.requires(xs[i], k + i)
    requires j < |xs|
    ensures f.requires(xs[j], k + j)
    ensures p in f(xs[j], k + j) ==> p in Concat(Numbered(f, xs, k))
  {
    NumberedAt(f, xs, k, j);
    ConcatMembers(Numbered(f, xs, k), p);
  }

  /** Concatenation distributes over appending lists. */
  lemma {:induction false} ConcatAppend(a: seq<seq<Program>>, b: seq<seq<Program>>)
    ensures Concat(a + b) == Concat(a) + Concat(b)
  {
    if |a| > 0 {
      assert (a + b)[1..] == a[1..] + b;
      ConcatAppend(a[1..], b);
    } else {
      assert a + b == b;
    }
  }

  /** Every programme of the concatenation comes from one of the lists, and every
      programme of every list is in it. */
  lemma {:induction false} ConcatMembers(lists: seq<seq<Program>>, p: Program)
    ensures p in Concat(lists) <==> exists i :: 0 <= i < |lists| && p in lists[i]
  {
    if |lists| > 0 {
      ConcatMembers(lists[1..], p);
      if p in Concat(lists[1..]) {
        var i :| 0 <= i < |lists[1..]| && p in lists[1..][i];
        assert p in lists[i + 1];
      }
      if exists i :: 0 <= i < |lists| && p in lists[i] {
        var i :| 0 <= i < |lists| && p in lists[i];
        if i > 0 {
          assert p in lists[1..][i - 1];
        }
      }
    }
  }
}
