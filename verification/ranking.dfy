/**
  The timing records of a run and their ranking for the success mail:
  `sorted(time_record, key=itemgetter('time_spend'), reverse=True)`, a stable
  sort by duration, longest first.
 */
module Ranking {

  /** One `{'api_title': ..., 'time_spend': ...}` record; durations are abstract whole units. */
  datatype TimeEntry = TimeEntry(title: string, spend: nat)

  ghost predicate Descending(s: seq<TimeEntry>) {
    forall i, j :: 0 <= i < j < |s| ==> s[i].spend >= s[j].spend
  }

  /** The records of `s` with duration `d`, in their order in `s`. */
  function WithSpend(s: seq<TimeEntry>, d: nat): seq<TimeEntry> {
    if |s| == 0 then []
    else if s[0].spend == d then [s[0]] + WithSpend(s[1..], d)
    else WithSpend(s[1..], d)
  }

  /** Puts `x` in front of the first record that is not longer than it. */
  function Insert(x: TimeEntry, s: seq<TimeEntry>): (r: seq<TimeEntry>)
    requires Descending(s)
    ensures Descending(r)
    ensures multiset(r) == multiset(s) + multiset{x}
  {
    if |s| == 0 || s[0].spend <= x.spend then
      [x] + s
    else
      var t := Insert(x, s[1..]);
      InsertHead(x, s, t);
      [s[0]] + t
  }

  /** Putting the head of `s` back in front of the insertion into its tail keeps the order. */
  lemma InsertHead(x: TimeEntry, s: seq<TimeEntry>, t: seq<TimeEntry>)
    requires |s| > 0 && Descending(s) && s[0].spend > x.spend
    requires Descending(t) && multiset(t) == multiset(s[1..]) + multiset{x}
    ensures Descending([s[0]] + t)
    ensures multiset([s[0]] + t) == multiset(s) + multiset{x}
  {
    assert s == [s[0]] + s[1..];
    forall k | 0 <= k < |t|
      ensures t[k].spend <= s[0].spend
    {
      assert t[k] in multiset(t);
      if t[k] != x {
        assert t[k] in multiset(s[1..]);
        var m :| 0 <= m < |s[1..]| && s[1..][m] == t[k];
        assert s[m + 1] == t[k];
      }
    }
  }

  /** Python's stable `sorted(..., reverse=True)` on the duration. */
  function SortDesc(s: seq<TimeEntry>): (r: seq<TimeEntry>)
    ensures Descending(r)
    ensures multiset(r) == multiset(s)
  {
    if |s| == 0 then []
    else
      assert s == [s[0]] + s[1..];
      Insert(s[0], SortDesc(s[1..]))
  }

  lemma {:induction false} InsertStable(x: TimeEntry, s: seq<TimeEntry>, d: nat)
    requires Descending(s)
    ensures WithSpend(Insert(x, s), d) == if x.spend == d then [x] + WithSpend(s, d) else WithSpend(s, d)
  {
    if |s| == 0 || s[0].spend <= x.spend {
      assert ([x] + s)[1..] == s;
    } else {
      InsertStable(x, s[1..], d);
      assert ([s[0]] + Insert(x, s[1..]))[1..] == Insert(x, s[1..]);
      if x.spend == d {
        assert s[0].spend != d;
      }
    }
  }

  /**
    The sort is stable: records of equal duration keep their relative order
    (which is what `reverse=True` promises in Python).
   */
  lemma {:induction false} SortDescStable(s: seq<TimeEntry>, d: nat)
    ensures WithSpend(SortDesc(s), d) == WithSpend(s, d)
  {
    if |s| > 0 {
      SortDescStable(s[1..], d);
      InsertStable(s[0], SortDesc(s[1..]), d);
    }
  }
}
