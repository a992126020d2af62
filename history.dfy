/** The history listing: the collection's records in natural (insertion)
    order, a filter by status and by a case-insensitive search text, a sort
    on `criadoEm` and a limit of 50 records. The same listing and filter
    give the due scan its snapshot. */
module History {
  import opened Tasks
  import Lifecycle

  /** A stored document: its id and its fields. */
  datatype Record = Record(id: Id, task: Task)

  predicate IdsIncreasing(c: seq<Record>)
  {
    forall i, j :: 0 <= i < j < |c| ==> c[i].id < c[j].id
  }

  /** The collection's records, in id order, for the ids below `n`. The store
      hands out ids in increasing order, so this is insertion order. */
  function Collection(m: map<Id, Task>, n: nat): (c: seq<Record>)
    ensures forall k :: 0 <= k < |c| ==> c[k].id < n && c[k].id in m && c[k].task == m[c[k].id]
    ensures forall id :: id in m && id < n ==> Record(id, m[id]) in c
    ensures IdsIncreasing(c)
  {
    if n == 0 then []
    else Collection(m, n - 1) + (if n - 1 in m then [Record(n - 1, m[n - 1])] else [])
  }

  /** The records whose task satisfies `keep`, in their original order. */
  function Where(c: seq<Record>, keep: Task -> bool): (r: seq<Record>)
    ensures forall x :: x in r <==> x in c && keep(x.task)
  {
    if c == [] then []
    else (if keep(c[0].task) then [c[0]] else []) + Where(c[1..], keep)
  }

  predicate IdsAbove(c: seq<Record>, bound: Id)
  {
    forall k :: 0 <= k < |c| ==> bound < c[k].id
  }

  lemma {:induction false} WhereKeepsBound(c: seq<Record>, keep: Task -> bool, bound: Id)
    requires IdsAbove(c, bound)
    ensures IdsAbove(Where(c, keep), bound)
    decreases |c|
  {
    if c != [] {
      WhereKeepsBound(c[1..], keep, bound);
    }
  }

  /** Filtering keeps the records in their relative order. */
  lemma {:induction false} WhereKeepsOrder(c: seq<Record>, keep: Task -> bool)
    ensures IdsIncreasing(c) ==> IdsIncreasing(Where(c, keep))
    decreases |c|
  {
    if c != [] && IdsIncreasing(c) {
      var rest := Where(c[1..], keep);
      WhereKeepsOrder(c[1..], keep);
      WhereKeepsBound(c[1..], keep, c[0].id);
      var r := Where(c, keep);
      if keep(c[0].task) {
        assert r == [c[0]] + rest;
        forall i, j | 0 <= i < j < |r| ensures r[i].id < r[j].id {
          assert r[j] == rest[j - 1];
          if i > 0 { assert r[i] == rest[i - 1]; }
        }
      }
    }
  }

  /** Filtering drops records and never repeats one. */
  lemma {:induction false} WhereSubMultiset(c: seq<Record>, keep: Task -> bool)
    ensures multiset(Where(c, keep)) <= multiset(c)
    decreases |c|
  {
    if c != [] {
      assert c == [c[0]] + c[1..];
      assert multiset(c) == multiset{c[0]} + multiset(c[1..]);
      WhereSubMultiset(c[1..], keep);
    }
  }

  /** The due scan's snapshot: the pending tasks scheduled no later than
      `agora`, in natural order. */
  function DueSnapshot(c: seq<Record>, agora: Instant): (r: seq<Record>)
    ensures forall x :: x in r <==> x in c && Lifecycle.IsDue(x.task, agora)
    ensures IdsIncreasing(c) ==> IdsIncreasing(r)
  {
    WhereKeepsOrder(c, t => Lifecycle.IsDue(t, agora));
    Where(c, t => Lifecycle.IsDue(t, agora))
  }

  /** ASCII case folding of one character. */
  function LowerChar(ch: char): char
  {
    if 'A' <= ch <= 'Z' then (ch as int - 'A' as int + 'a' as int) as char else ch
  }

  function Lower(s: string): (r: string)
    ensures |r| == |s| && forall i :: 0 <= i < |s| ==> r[i] == LowerChar(s[i])
  {
    if s == [] then [] else [LowerChar(s[0])] + Lower(s[1..])
  }

  /** `needle` occurs in `hay` at some position. */
  predicate IsInfix(needle: string, hay: string)
    decreases |hay|
  {
    (|needle| <= |hay| && hay[..|needle|] == needle) || (hay != [] && IsInfix(needle, hay[1..]))
  }

  /** The search text occurs in `hay`, ignoring the case of ASCII letters. */
  predicate ContainsIgnoringCase(hay: string, search: string)
  {
    IsInfix(Lower(search), Lower(hay))
  }

  /** The query string of a history request; an empty parameter is absent. */
  datatype Query = Query(search: string, status: string, sort: string)

  predicate Matches(t: Task, q: Query)
  {
    && (q.status == "" || StatusName(t.status) == q.status)
    && (q.search == "" || ContainsIgnoringCase(t.assunto, q.search) || ContainsIgnoringCase(t.destinatario, q.search))
  }

  const HistoryLimit: nat := 50

  /** Oldest first only when asked for with "antigos"; newest first otherwise. */
  predicate Ascending(q: Query)
  {
    q.sort == "antigos"
  }

  predicate InOrder(a: Record, b: Record, ascending: bool)
  {
    if ascending then a.task.criadoEm <= b.task.criadoEm else a.task.criadoEm >= b.task.criadoEm
  }

  predicate SortedBy(s: seq<Record>, ascending: bool)
  {
    forall i, j :: 0 <= i < j < |s| ==> InOrder(s[i], s[j], ascending)
  }

  function Insert(x: Record, s: seq<Record>, ascending: bool): (r: seq<Record>)
    ensures multiset(r) == multiset(s) + multiset{x}
  {
    if s == [] then [x]
    else if InOrder(x, s[0], ascending) then [x] + s
    else
      assert s == [s[0]] + s[1..];
      [s[0]] + Insert(x, s[1..], ascending)
  }

  /** Everything in `s` comes no earlier than `b`. */
  predicate AllAfter(b: Record, s: seq<Record>, ascending: bool)
  {
    forall k :: 0 <= k < |s| ==> InOrder(b, s[k], ascending)
  }

  lemma {:induction false} InsertKeepsAfter(b: Record, x: Record, s: seq<Record>, ascending: bool)
    requires AllAfter(b, s, ascending) && InOrder(b, x, ascending)
    ensures AllAfter(b, Insert(x, s, ascending), ascending)
    decreases |s|
  {
    if s != [] && !InOrder(x, s[0], ascending) {
      InsertKeepsAfter(b, x, s[1..], ascending);
    }
  }

  lemma {:induction false} InsertSorted(x: Record, s: seq<Record>, ascending: bool)
    requires SortedBy(s, ascending)
    ensures SortedBy(Insert(x, s, ascending), ascending)
    decreases |s|
  {
    if s != [] && !InOrder(x, s[0], ascending) {
      var rest := Insert(x, s[1..], ascending);
      forall i, j | 0 <= i < j < |s[1..]| ensures InOrder(s[1..][i], s[1..][j], ascending) {
        assert s[1..][i] == s[i + 1] && s[1..][j] == s[j + 1];
      }
      forall k | 0 <= k < |s[1..]| ensures InOrder(s[0], s[1..][k], ascending) {
        assert s[1..][k] == s[k + 1];
      }
      InsertSorted(x, s[1..], ascending);
      InsertKeepsAfter(s[0], x, s[1..], ascending);
      var r := Insert(x, s, ascending);
      assert r == [s[0]] + rest;
      forall i, j | 0 <= i < j < |r| ensures InOrder(r[i], r[j], ascending) {
        assert r[j] == rest[j - 1];
        if i > 0 { assert r[i] == rest[i - 1]; }
      }
    }
  }

  /** The records ordered on `criadoEm`, a permutation of the input. */
  function SortByCreation(s: seq<Record>, ascending: bool): (r: seq<Record>)
    ensures SortedBy(r, ascending)
    ensures multiset(r) == multiset(s)
  {
    if s == [] then []
    else
      assert s == [s[0]] + s[1..];
      var rest := SortByCreation(s[1..], ascending);
      InsertSorted(s[0], rest, ascending);
      Insert(s[0], rest, ascending)
  }

  /** In a sorted sequence, everything in a prefix comes before everything
      left out of it. */
  lemma PrefixComesFirst(s: seq<Record>, n: nat, ascending: bool)
    requires SortedBy(s, ascending) && n <= |s|
    ensures forall x, y :: x in s[..n] && y in s && y !in s[..n] ==> InOrder(x, y, ascending)
  {
    forall x, y | x in s[..n] && y in s && y !in s[..n] ensures InOrder(x, y, ascending) {
      var i :| 0 <= i < n && s[..n][i] == x;
      var j :| 0 <= j < |s| && s[j] == y;
      assert s[i] == x;
    }
  }

  /** The first `HistoryLimit` records satisfying `keep`, ordered on
      `criadoEm`. */
  function FirstMatches(c: seq<Record>, keep: Task -> bool, ascending: bool): (r: seq<Record>)
    ensures |r| <= HistoryLimit
  {
    var sorted := SortByCreation(Where(c, keep), ascending);
    if |sorted| <= HistoryLimit then sorted else sorted[..HistoryLimit]
  }

  /** Only records satisfying `keep`, in order, and, when the limit cuts,
      the first ones in that order: every matching record left out comes
      after every record kept. Below the limit, every matching record is
      kept. */
  lemma FirstMatchesAreFirst(c: seq<Record>, keep: Task -> bool, ascending: bool)
    ensures forall x :: x in FirstMatches(c, keep, ascending) ==> x in c && keep(x.task)
    ensures SortedBy(FirstMatches(c, keep, ascending), ascending)
    ensures forall x, y ::
      x in FirstMatches(c, keep, ascending) && y in c && keep(y.task) && y !in FirstMatches(c, keep, ascending)
      ==> InOrder(x, y, ascending)
    ensures |FirstMatches(c, keep, ascending)| < HistoryLimit ==>
      forall y :: y in c && keep(y.task) ==> y in FirstMatches(c, keep, ascending)
    ensures multiset(FirstMatches(c, keep, ascending)) <= multiset(c)
    ensures |FirstMatches(c, keep, ascending)| ==
      if |Where(c, keep)| <= HistoryLimit then |Where(c, keep)| else HistoryLimit
  {
    var matching := Where(c, keep);
    var sorted := SortByCreation(matching, ascending);
    var n := if |sorted| <= HistoryLimit then |sorted| else HistoryLimit;
    var r := FirstMatches(c, keep, ascending);
    assert r == sorted[..n];
    forall y ensures y in sorted <==> y in matching {
      assert y in sorted <==> y in multiset(sorted);
      assert y in matching <==> y in multiset(matching);
    }
    forall x | x in r ensures x in sorted {
      var i :| 0 <= i < n && r[i] == x;
      assert sorted[i] == x;
    }
    forall i, j | 0 <= i < j < |r| ensures InOrder(r[i], r[j], ascending) {
      assert r[i] == sorted[i] && r[j] == sorted[j];
    }
    PrefixComesFirst(sorted, n, ascending);
    if n == |sorted| {
      assert r == sorted;
    }
    assert sorted == r + sorted[n..];
    assert multiset(sorted) == multiset(r) + multiset(sorted[n..]);
    assert |sorted| == |matching| by {
      assert |multiset(sorted)| == |multiset(matching)|;
    }
    WhereSubMultiset(c, keep);
  }

  /** The listing answered for query `q` over the records `c`. */
  function Listing(c: seq<Record>, q: Query): (r: seq<Record>)
    ensures |r| <= HistoryLimit
  {
    FirstMatches(c, t => Matches(t, q), Ascending(q))
  }

  /** The listing holds only matching records, newest first unless
      "antigos" is asked for, and it holds the first ones in that order. */
  lemma ListingSelectsFirstMatches(c: seq<Record>, q: Query)
    ensures forall x :: x in Listing(c, q) ==> x in c && Matches(x.task, q)
    ensures SortedBy(Listing(c, q), Ascending(q))
    ensures forall x, y :: x in Listing(c, q) && y in c && Matches(y.task, q) && y !in Listing(c, q) ==>
      InOrder(x, y, Ascending(q))
    ensures |Listing(c, q)| < HistoryLimit ==> forall y :: y in c && Matches(y.task, q) ==> y in Listing(c, q)
    ensures multiset(Listing(c, q)) <= multiset(c)
    ensures |Listing(c, q)| ==
      if |Where(c, t => Matches(t, q))| <= HistoryLimit then |Where(c, t => Matches(t, q))| else HistoryLimit
  {
    FirstMatchesAreFirst(c, t => Matches(t, q), Ascending(q));
  }

  /** A deleted task is in no later listing. */
  lemma DeletedTaskNotListed(m: map<Id, Task>, n: nat, id: Id, q: Query)
    ensures forall x :: x in Listing(Collection(Lifecycle.AfterDelete(m, WellFormedId(id)), n), q) ==> x.id != id
  {
    var c := Collection(Lifecycle.AfterDelete(m, WellFormedId(id)), n);
    ListingSelectsFirstMatches(c, q);
  }

  /** A status filter lists only tasks in that status, and all of them when
      fewer than 50 match. */
  lemma StatusFilterExact(c: seq<Record>, st: Status, sort: string)
    ensures forall x :: x in Listing(c, Query("", StatusName(st), sort)) ==> x.task.status == st
    ensures |Listing(c, Query("", StatusName(st), sort))| < HistoryLimit ==>
      forall x :: x in c && x.task.status == st ==> x in Listing(c, Query("", StatusName(st), sort))
  {
    ListingSelectsFirstMatches(c, Query("", StatusName(st), sort));
    forall a: Status | StatusName(a) == StatusName(st) ensures a == st {
      StatusNameInjective(a, st);
    }
  }
}
