/** The two orderings the chat responder builds: requirements by
    `updatedAt`, latest first, ties kept in list order (a stable sort in
    reverse), and the distinct task assignees in ascending order. Strings
    compare by code point. */
module Ranking {
  import opened Seqs
  import opened Text
  import opened Entities

  /** `a <= b` in the string order. */
  predicate AtMost(a: string, b: string) {
    !StrLess(b, a)
  }

  lemma AtMostTransitive(a: string, b: string, c: string)
    requires AtMost(a, b) && AtMost(b, c)
    ensures AtMost(a, c)
  {
    StrLessTotal(a, b);
    StrLessTotal(b, c);
    if StrLess(c, a) {
      if a == b {
      } else {
        StrLessTransitive(c, a, b);
      }
    }
  }

  // ---------------------------------------------------------------------
  // Requirements, most recently updated first
  // ---------------------------------------------------------------------

  /** `a` was updated strictly later than `b`. */
  predicate Later(a: Requirement, b: Requirement) {
    StrLess(b.updatedAt, a.updatedAt)
  }

  /** No requirement is updated later than one before it. */
  predicate NewestFirst(s: seq<Requirement>) {
    forall i, j :: 0 <= i < j < |s| ==> AtMost(s[j].updatedAt, s[i].updatedAt)
  }

  /** The requirements updated at `stamp`, in their order. */
  function UpdatedAt(s: seq<Requirement>, stamp: string): seq<Requirement> {
    Filter(s, (q: Requirement) => q.updatedAt == stamp)
  }

  /** Insertion of `x` in front of the first element not updated later. */
  function InsertNewestFirst(x: Requirement, t: seq<Requirement>): (r: seq<Requirement>)
    ensures |r| == |t| + 1
    ensures multiset(r) == multiset(t) + multiset{x}
  {
    if t == [] || !Later(t[0], x) then [x] + t
    else
      assert t == [t[0]] + t[1..];
      [t[0]] + InsertNewestFirst(x, t[1..])
  }

  lemma {:induction false} InsertKeepsOrder(x: Requirement, t: seq<Requirement>)
    requires NewestFirst(t)
    ensures NewestFirst(InsertNewestFirst(x, t))
  {
    var r := InsertNewestFirst(x, t);
    if t == [] || !Later(t[0], x) {
      forall j | 0 < j < |r| ensures AtMost(r[j].updatedAt, x.updatedAt) {
        assert r[j] == t[j - 1];
        if j > 1 {
          AtMostTransitive(t[j - 1].updatedAt, t[0].updatedAt, x.updatedAt);
        }
      }
    } else {
      var rest := InsertNewestFirst(x, t[1..]);
      InsertKeepsOrder(x, t[1..]);
      forall j | 0 <= j < |rest| ensures AtMost(rest[j].updatedAt, t[0].updatedAt) {
        assert rest[j] in multiset(rest);
        if rest[j] == x {
          StrLessTotal(x.updatedAt, t[0].updatedAt);
          StrLessAsymmetric(x.updatedAt, t[0].updatedAt);
        } else {
          assert rest[j] in multiset(t[1..]);
          var k :| 0 <= k < |t[1..]| && t[1..][k] == rest[j];
          assert t[k + 1] == rest[j];
        }
      }
      assert r == [t[0]] + rest;
    }
  }

  /** Insertion keeps each group of equal stamps in order, `x` first. */
  lemma {:induction false} InsertStable(x: Requirement, t: seq<Requirement>, stamp: string)
    ensures UpdatedAt(InsertNewestFirst(x, t), stamp) == UpdatedAt([x] + t, stamp)
  {
    if t != [] && Later(t[0], x) {
      var p := (q: Requirement) => q.updatedAt == stamp;
      var rest := InsertNewestFirst(x, t[1..]);
      InsertStable(x, t[1..], stamp);
      FilterCons(t[0], rest, p);
      FilterCons(t[0], [x] + t[1..], p);
      // the two stamps differ, so at most one of them is `stamp`
      StrLessIrreflexive(x.updatedAt);
      FilterSwap(t[0], x, t[1..], p);
      assert [t[0]] + t[1..] == t;
    }
  }

  /** `sorted(requirements, key=updatedAt, reverse=True)`. */
  function SortNewestFirst(s: seq<Requirement>): (r: seq<Requirement>)
    ensures multiset(r) == multiset(s) && |r| == |s|
  {
    if s == [] then []
    else
      assert s == [s[0]] + s[1..];
      InsertNewestFirst(s[0], SortNewestFirst(s[1..]))
  }

  lemma {:induction false} SortOrdered(s: seq<Requirement>)
    ensures NewestFirst(SortNewestFirst(s))
  {
    if s != [] {
      SortOrdered(s[1..]);
      InsertKeepsOrder(s[0], SortNewestFirst(s[1..]));
    }
  }

  lemma {:induction false} SortStable(s: seq<Requirement>, stamp: string)
    ensures UpdatedAt(SortNewestFirst(s), stamp) == UpdatedAt(s, stamp)
  {
    if s != [] {
      var p := (q: Requirement) => q.updatedAt == stamp;
      var t := SortNewestFirst(s[1..]);
      SortStable(s[1..], stamp);
      InsertStable(s[0], t, stamp);
      FilterCons(s[0], t, p);
      FilterCons(s[0], s[1..], p);
      assert s == [s[0]] + s[1..];
    }
  }

  /** The sort orders by stamp, latest first; it is a permutation; and it
      is stable: requirements with the same stamp keep their order. */
  lemma SortNewestFirstCorrect(s: seq<Requirement>)
    ensures NewestFirst(SortNewestFirst(s))
    ensures multiset(SortNewestFirst(s)) == multiset(s)
    ensures forall stamp :: UpdatedAt(SortNewestFirst(s), stamp) == UpdatedAt(s, stamp)
  {
    SortOrdered(s);
    forall stamp ensures UpdatedAt(SortNewestFirst(s), stamp) == UpdatedAt(s, stamp) {
      SortStable(s, stamp);
    }
  }

  /** In a list sorted newest first, what lies beyond position `n` is not
      newer than anything before it. */
  lemma BeyondPrefix(sorted: seq<Requirement>, n: nat, q: Requirement)
    requires NewestFirst(sorted) && n <= |sorted| && q in sorted && q !in sorted[..n]
    ensures forall p :: p in sorted[..n] ==> AtMost(q.updatedAt, p.updatedAt)
  {
    var j :| 0 <= j < |sorted| && sorted[j] == q;
    forall p | p in sorted[..n] ensures AtMost(q.updatedAt, p.updatedAt) {
      var i :| 0 <= i < n && sorted[..n][i] == p;
    }
  }

  /** The first `n` of the sorted list are in order, are taken from `s`,
      and are at least as recent as anything left behind. */
  lemma SortedPrefix(s: seq<Requirement>, n: nat)
    requires n <= |s|
    ensures var top := SortNewestFirst(s)[..n];
            && NewestFirst(top)
            && multiset(top) <= multiset(s)
            && (forall q :: q in s && q !in top ==> forall p :: p in top ==> AtMost(q.updatedAt, p.updatedAt))
            && forall q :: multiset(top)[q] < multiset(s)[q] ==> forall p :: p in top ==> AtMost(q.updatedAt, p.updatedAt)
  {
    var sorted := SortNewestFirst(s);
    SortOrdered(s);
    var top := sorted[..n];
    PrefixMultiset(sorted, n);
    forall q | q in s && q !in top ensures forall p :: p in top ==> AtMost(q.updatedAt, p.updatedAt) {
      assert q in multiset(sorted);
      BeyondPrefix(sorted, n, q);
    }
    forall q | multiset(top)[q] < multiset(s)[q] ensures forall p :: p in top ==> AtMost(q.updatedAt, p.updatedAt) {
      LeftBehind(sorted, n, q);
    }
  }

  /** A copy of `q` that the first `n` of a newest-first list leave out is
      not newer than any of them. */
  lemma LeftBehind(sorted: seq<Requirement>, n: nat, q: Requirement)
    requires NewestFirst(sorted) && n <= |sorted|
    requires multiset(sorted[..n])[q] < multiset(sorted)[q]
    ensures forall p :: p in sorted[..n] ==> AtMost(q.updatedAt, p.updatedAt)
  {
    assert sorted == sorted[..n] + sorted[n..];
    assert multiset(sorted) == multiset(sorted[..n]) + multiset(sorted[n..]);
    assert q in multiset(sorted[n..]);
    var j :| 0 <= j < |sorted[n..]| && sorted[n..][j] == q;
    assert sorted[n + j] == q;
    forall p | p in sorted[..n] ensures AtMost(q.updatedAt, p.updatedAt) {
      var i :| 0 <= i < n && sorted[..n][i] == p;
    }
  }

  lemma PrefixMultiset<T>(s: seq<T>, n: nat)
    requires n <= |s|
    ensures multiset(s[..n]) <= multiset(s)
  {
    assert s == s[..n] + s[n..];
  }

  /** `sorted(...)[:3]`: the three most recently updated requirements;
      among equally recent ones the earlier-stored are kept, in store
      order. */
  function Latest(s: seq<Requirement>): (r: seq<Requirement>)
    ensures |r| == if |s| < 3 then |s| else 3
    ensures NewestFirst(r)
    ensures multiset(r) <= multiset(s)
    ensures forall q :: q in s && q !in r ==> forall p :: p in r ==> AtMost(q.updatedAt, p.updatedAt)
    ensures forall q :: multiset(r)[q] < multiset(s)[q] ==> forall p :: p in r ==> AtMost(q.updatedAt, p.updatedAt)
    ensures forall stamp :: UpdatedAt(r, stamp) <= UpdatedAt(s, stamp)
  {
    var n := if |s| < 3 then |s| else 3;
    SortedPrefix(s, n);
    PrefixStable(s, n);
    SortNewestFirst(s)[..n]
  }

  /** Each stamp's group in a prefix of the sort is a prefix of that
      group in store order. */
  lemma PrefixStable(s: seq<Requirement>, n: nat)
    requires n <= |s|
    ensures forall stamp :: UpdatedAt(SortNewestFirst(s)[..n], stamp) <= UpdatedAt(s, stamp)
  {
    forall stamp ensures UpdatedAt(SortNewestFirst(s)[..n], stamp) <= UpdatedAt(s, stamp) {
      FilterPrefix(SortNewestFirst(s), n, (q: Requirement) => q.updatedAt == stamp);
      SortStable(s, stamp);
    }
  }

  // ---------------------------------------------------------------------
  // Team members, in ascending order
  // ---------------------------------------------------------------------

  predicate StrictlyIncreasing(s: seq<string>) {
    forall i, j :: 0 <= i < j < |s| ==> StrLess(s[i], s[j])
  }

  /** Adds `x` to a strictly increasing list unless it is already there. */
  function InsertUnique(x: string, t: seq<string>): (r: seq<string>)
    requires StrictlyIncreasing(t)
    ensures StrictlyIncreasing(r)
    ensures forall y :: y in r <==> y == x || y in t
  {
    if t == [] then [x]
    else if x == t[0] then t
    else if StrLess(x, t[0]) then
      assert forall j :: 0 <= j < |t| ==> StrLess(x, t[j]) by {
        forall j | 0 < j < |t| ensures StrLess(x, t[j]) {
          StrLessTransitive(x, t[0], t[j]);
        }
      }
      [x] + t
    else
      var rest := InsertUnique(x, t[1..]);
      StrLessTotal(x, t[0]);
      assert forall y :: y in t <==> y == t[0] || y in t[1..] by {
        assert t == [t[0]] + t[1..];
      }
      assert forall j :: 0 <= j < |rest| ==> StrLess(t[0], rest[j]) by {
        forall j | 0 <= j < |rest| ensures StrLess(t[0], rest[j]) {
          assert rest[j] in rest;
          if rest[j] != x {
            assert rest[j] in t[1..];
            var k :| 0 <= k < |t[1..]| && t[1..][k] == rest[j];
            assert t[k + 1] == rest[j];
          }
        }
      }
      [t[0]] + rest
  }

  /** The truthy assignee of a task, if any. */
  function AssigneeOf(t: Task): Option<string> {
    if t.assignee.Some? && t.assignee.value != "" then t.assignee else None
  }

  /** `sorted({task.get("assignee") for task in tasks if task.get("assignee")})`:
      every truthy assignee once, in ascending order. */
  function TeamMembers(tasks: seq<Task>): (r: seq<string>)
    ensures StrictlyIncreasing(r)
    ensures forall m :: m in r <==> exists t :: t in tasks && AssigneeOf(t) == Some(m)
  {
    if tasks == [] then []
    else
      var rest := TeamMembers(tasks[1..]);
      assert forall t :: t in tasks <==> t == tasks[0] || t in tasks[1..] by {
        assert tasks == [tasks[0]] + tasks[1..];
      }
      match AssigneeOf(tasks[0])
      case None => rest
      case Some(m) => InsertUnique(m, rest)
  }

  /** Members are distinct and none is empty. */
  lemma TeamMembersDistinct(tasks: seq<Task>)
    ensures forall i, j :: 0 <= i < j < |TeamMembers(tasks)| ==> TeamMembers(tasks)[i] != TeamMembers(tasks)[j]
    ensures forall m :: m in TeamMembers(tasks) ==> m != ""
  {
    var r := TeamMembers(tasks);
    forall i, j | 0 <= i < j < |r| ensures r[i] != r[j] {
      if r[i] == r[j] {
        StrLessIrreflexive(r[i]);
      }
    }
  }
}
