/**
 The integer and date parts of the two dashboard routes: the number of the
 caller's expenses, the upcoming-renewals window of `get_dashboard_stats`,
 and the per-category counts of `get_summary`. Amount sums are not modelled.
 */
module Dashboard {
  import opened Wrappers
  import opened Calendar
  import opened Models
  import opened Http

  /** Days ahead covered by the upcoming-renewals list. */
  const WindowDays := 30

  predicate NoDuplicates<T(==)>(xs: seq<T>) {
    forall i, j :: 0 <= i < j < |xs| ==> xs[i] != xs[j]
  }

  /** `filter_by(user_id=uid).all()`: every one of the caller's expense ids,
      once each, in an order the database chooses. */
  method ListOwned(s: Store, uid: UserId) returns (ids: seq<ExpenseId>)
    ensures NoDuplicates(ids)
    ensures forall id :: id in ids <==> OwnedBy(s, id, uid)
    ensures |ids| == |OwnedIds(s, uid)|
  {
    ids := [];
    var remaining := s.expenses.Keys;
    while remaining != {}
      invariant remaining <= s.expenses.Keys
      invariant NoDuplicates(ids)
      invariant forall id :: id in ids <==> OwnedBy(s, id, uid) && id !in remaining
      decreases remaining
    {
      var id :| id in remaining;
      if s.expenses[id].userId == uid {
        ids := ids + [id];
      }
      remaining := remaining - {id};
    }
    DistinctCardinality(ids, OwnedIds(s, uid));
  }

  /** A list that repeats nothing is as long as the set of its elements. */
  lemma {:induction false} DistinctCardinality<T>(xs: seq<T>, elems: set<T>)
    requires NoDuplicates(xs)
    requires forall x :: x in elems <==> x in xs
    ensures |elems| == |xs|
  {
    if |xs| > 0 {
      var init, last := xs[..|xs| - 1], xs[|xs| - 1];
      forall i, j | 0 <= i < j < |init| ensures init[i] != init[j] {
        assert init[i] == xs[i] && init[j] == xs[j];
      }
      forall k | 0 <= k < |init| ensures init[k] != last {
        assert init[k] == xs[k];
      }
      assert xs == init + [last];
      DistinctCardinality(init, elems - {last});
    }
  }

  // ------------------------------------------------------ upcoming renewals

  /** Every listed id is an expense, and renewal dates never decrease along the list. */
  ghost predicate SortedByRenewal(exps: map<ExpenseId, Expense>, ids: seq<ExpenseId>) {
    && (forall i :: 0 <= i < |ids| ==> ids[i] in exps)
    && (forall i, j :: 0 <= i < j < |ids| ==> exps[ids[i]].renewalDate <= exps[ids[j]].renewalDate)
  }

  /** Inserts `id` before the first listed expense that renews no earlier. */
  function InsertByRenewal(exps: map<ExpenseId, Expense>, ids: seq<ExpenseId>, id: ExpenseId): (r: seq<ExpenseId>)
    requires id in exps && forall i :: 0 <= i < |ids| ==> ids[i] in exps
    ensures multiset(r) == multiset(ids) + multiset{id}
    decreases |ids|
  {
    if |ids| == 0 || exps[id].renewalDate <= exps[ids[0]].renewalDate then [id] + ids
    else
      assert ids == [ids[0]] + ids[1..];
      [ids[0]] + InsertByRenewal(exps, ids[1..], id)
  }

  lemma {:induction false} InsertKeepsSorted(exps: map<ExpenseId, Expense>, ids: seq<ExpenseId>, id: ExpenseId)
    requires id in exps && SortedByRenewal(exps, ids)
    ensures SortedByRenewal(exps, InsertByRenewal(exps, ids, id))
    decreases |ids|
  {
    if |ids| == 0 || exps[id].renewalDate <= exps[ids[0]].renewalDate {
      ConsSorted(exps, id, ids);
    } else {
      var head, tail := ids[0], ids[1..];
      assert SortedByRenewal(exps, tail);
      var rest := InsertByRenewal(exps, tail, id);
      InsertKeepsSorted(exps, tail, id);
      forall k | 0 <= k < |rest|
        ensures exps[head].renewalDate <= exps[rest[k]].renewalDate
      {
        InsertedFrom(exps, tail, id, rest[k]);
      }
      ConsSorted(exps, head, rest);
    }
  }

  /** Putting in front an expense renewing no later than any listed one keeps the order. */
  lemma ConsSorted(exps: map<ExpenseId, Expense>, x: ExpenseId, xs: seq<ExpenseId>)
    requires x in exps && SortedByRenewal(exps, xs)
    requires forall k :: 0 <= k < |xs| ==> exps[x].renewalDate <= exps[xs[k]].renewalDate
    ensures SortedByRenewal(exps, [x] + xs)
  {
    var r := [x] + xs;
    forall i, j | 0 <= i < j < |r|
      ensures r[i] in exps && r[j] in exps && exps[r[i]].renewalDate <= exps[r[j]].renewalDate
    {
      assert r[j] == xs[j - 1];
      if i > 0 {
        assert r[i] == xs[i - 1];
      }
    }
  }

  /** An element of the insertion result is the inserted id or one of `ids`. */
  lemma InsertedFrom(exps: map<ExpenseId, Expense>, ids: seq<ExpenseId>, id: ExpenseId, x: ExpenseId)
    requires id in exps && forall i :: 0 <= i < |ids| ==> ids[i] in exps
    requires x in InsertByRenewal(exps, ids, id)
    ensures x == id || exists m :: 0 <= m < |ids| && ids[m] == x
  {
    assert x in multiset(InsertByRenewal(exps, ids, id));
    if x != id {
      assert x in multiset(ids);
      assert x in ids;
    }
  }

  /** A sequence repeats no element exactly when its multiset holds each at most once. */
  lemma {:induction false} NoDuplicatesMultiset<T>(xs: seq<T>)
    ensures NoDuplicates(xs) <==> forall x :: multiset(xs)[x] <= 1
  {
    if |xs| > 0 {
      var init := xs[..|xs| - 1];
      var last := xs[|xs| - 1];
      assert xs == init + [last];
      assert multiset(xs) == multiset(init) + multiset{last};
      NoDuplicatesMultiset(init);
      if NoDuplicates(xs) {
        assert last !in init;
        assert NoDuplicates(init) by {
          forall i, j | 0 <= i < j < |init| ensures init[i] != init[j] {
            assert init[i] == xs[i] && init[j] == xs[j];
          }
        }
      }
      if forall x :: multiset(xs)[x] <= 1 {
        assert multiset(xs)[last] <= 1;
        assert multiset(init)[last] == 0;
        assert forall x :: multiset(init)[x] <= multiset(xs)[x];
        forall i, j | 0 <= i < j < |xs| ensures xs[i] != xs[j] {
          if j == |xs| - 1 {
            assert xs[i] in init;
          } else {
            assert xs[i] == init[i] && xs[j] == init[j];
          }
        }
      }
    }
  }

  /** The date test of `renewal_date.between(today, until)`, bounds included. */
  predicate Upcoming(e: Expense, today: Day, until: int) {
    today <= e.renewalDate <= until
  }

  /** The `upcoming_renewals` query: None where `today + timedelta(days=30)`
      overflows (the route answers 500); otherwise exactly the caller's
      expenses renewing from today to today + 30, each once, ordered by
      renewal date. */
  method UpcomingRenewals(s: Store, uid: UserId, today: Day) returns (r: Option<seq<ExpenseId>>)
    ensures r.None? <==> today + WindowDays > MaxOrdinal
    ensures r.Some? ==>
              && NoDuplicates(r.value)
              && SortedByRenewal(s.expenses, r.value)
              && (forall id :: id in r.value <==> OwnedBy(s, id, uid) && Upcoming(s.expenses[id], today, today + WindowDays))
  {
    var until := AddDays(today, WindowDays);
    if until.None? {
      return None;
    }
    var ids: seq<ExpenseId> := [];
    var remaining := s.expenses.Keys;
    while remaining != {}
      invariant remaining <= s.expenses.Keys
      invariant NoDuplicates(ids)
      invariant SortedByRenewal(s.expenses, ids)
      invariant forall id :: id in ids <==>
                  OwnedBy(s, id, uid) && Upcoming(s.expenses[id], today, until.value) && id !in remaining
      decreases remaining
    {
      var id :| id in remaining;
      if s.expenses[id].userId == uid && Upcoming(s.expenses[id], today, until.value) {
        var next := InsertByRenewal(s.expenses, ids, id);
        InsertKeepsSorted(s.expenses, ids, id);
        NoDuplicatesMultiset(ids);
        NoDuplicatesMultiset(next);
        assert forall x :: x in next <==> x in multiset(next);
        ids := next;
      }
      remaining := remaining - {id};
    }
    return Some(ids);
  }

  // ------------------------------------------------------- category counts

  /** One key of the `categories` dict and its count. */
  datatype CategoryCount = CategoryCount(category: string, count: nat)

  /** How many times `c` occurs in `xs`. */
  function Occurrences(xs: seq<string>, c: string): nat {
    if |xs| == 0 then 0
    else Occurrences(xs[..|xs| - 1], c) + (if xs[|xs| - 1] == c then 1 else 0)
  }

  /** The dict lookup `categories.get(c, 0)`. */
  function CountOf(counts: seq<CategoryCount>, c: string): nat {
    if |counts| == 0 then 0
    else if counts[|counts| - 1].category == c then counts[|counts| - 1].count
    else CountOf(counts[..|counts| - 1], c)
  }

  /** Sum of all the counts. */
  function Total(counts: seq<CategoryCount>): nat {
    if |counts| == 0 then 0 else Total(counts[..|counts| - 1]) + counts[|counts| - 1].count
  }

  predicate DistinctCategories(counts: seq<CategoryCount>) {
    forall i, j :: 0 <= i < j < |counts| ==> counts[i].category != counts[j].category
  }

  /** Where category `c` sits in `counts`, or -1. */
  function FindCategory(counts: seq<CategoryCount>, c: string): (k: int)
    ensures -1 <= k < |counts|
    ensures k >= 0 ==> counts[k].category == c
    ensures k == -1 ==> forall j :: 0 <= j < |counts| ==> counts[j].category != c
  {
    if |counts| == 0 then -1
    else if counts[|counts| - 1].category == c then |counts| - 1
    else FindCategory(counts[..|counts| - 1], c)
  }

  lemma {:induction false} CountOfAbsent(counts: seq<CategoryCount>, c: string)
    requires forall j :: 0 <= j < |counts| ==> counts[j].category != c
    ensures CountOf(counts, c) == 0
  {
    if |counts| > 0 {
      CountOfAbsent(counts[..|counts| - 1], c);
    }
  }

  lemma {:induction false} CountOfBump(counts: seq<CategoryCount>, k: int, x: string)
    requires DistinctCategories(counts) && 0 <= k < |counts|
    ensures CountOf(counts[k := counts[k].(count := counts[k].count + 1)], x)
            == CountOf(counts, x) + (if x == counts[k].category then 1 else 0)
  {
    var bumped := counts[k := counts[k].(count := counts[k].count + 1)];
    var n := |counts| - 1;
    if k == n {
      assert bumped[..n] == counts[..n];
    } else {
      assert bumped[..n] == counts[..n][k := counts[k].(count := counts[k].count + 1)];
      CountOfBump(counts[..n], k, x);
    }
  }

  lemma {:induction false} TotalBump(counts: seq<CategoryCount>, k: int)
    requires 0 <= k < |counts|
    ensures Total(counts[k := counts[k].(count := counts[k].count + 1)]) == Total(counts) + 1
  {
    var bumped := counts[k := counts[k].(count := counts[k].count + 1)];
    var n := |counts| - 1;
    if k == n {
      assert bumped[..n] == counts[..n];
    } else {
      assert bumped[..n] == counts[..n][k := counts[k].(count := counts[k].count + 1)];
      TotalBump(counts[..n], k);
    }
  }

  /** `counts` is the `categories` dict built from `xs`: no category repeats,
      every count is positive, each lookup counts the occurrences, and the
      counts add up to the number of entries. */
  ghost predicate CountsOf(counts: seq<CategoryCount>, xs: seq<string>) {
    && DistinctCategories(counts)
    && (forall k :: 0 <= k < |counts| ==> counts[k].count >= 1)
    && (forall c :: CountOf(counts, c) == Occurrences(xs, c))
    && Total(counts) == |xs|
  }

  lemma OccurrencesSnoc(xs: seq<string>, x: string, c: string)
    ensures Occurrences(xs + [x], c) == Occurrences(xs, c) + (if x == c then 1 else 0)
  {
    assert (xs + [x])[..|xs|] == xs;
  }

  /** Counting one more entry whose category is already present at `k`. */
  lemma BumpStep(counts: seq<CategoryCount>, xs: seq<string>, x: string, k: int)
    requires CountsOf(counts, xs) && 0 <= k < |counts| && counts[k].category == x
    ensures CountsOf(counts[k := counts[k].(count := counts[k].count + 1)], xs + [x])
  {
    var bumped := counts[k := counts[k].(count := counts[k].count + 1)];
    forall c ensures CountOf(bumped, c) == Occurrences(xs + [x], c) {
      CountOfBump(counts, k, c);
      OccurrencesSnoc(xs, x, c);
    }
    TotalBump(counts, k);
  }

  /** Counting one more entry whose category is new. */
  lemma AppendStep(counts: seq<CategoryCount>, xs: seq<string>, x: string)
    requires CountsOf(counts, xs)
    requires forall j :: 0 <= j < |counts| ==> counts[j].category != x
    ensures CountsOf(counts + [CategoryCount(x, 1)], xs + [x])
  {
    var extended := counts + [CategoryCount(x, 1)];
    assert extended[..|counts|] == counts;
    CountOfAbsent(counts, x);
    forall c ensures CountOf(extended, c) == Occurrences(xs + [x], c) {
      OccurrencesSnoc(xs, x, c);
    }
  }

  /** The `categories` dict of `get_summary`: for each category of `cats`, how
      many entries have it. Every count is positive, no category repeats, and
      the counts add up to the number of entries. */
  method CountByCategory(cats: seq<string>) returns (counts: seq<CategoryCount>)
    ensures DistinctCategories(counts)
    ensures forall k :: 0 <= k < |counts| ==> counts[k].count >= 1
    ensures forall c :: CountOf(counts, c) == Occurrences(cats, c)
    ensures Total(counts) == |cats|
  {
    counts := [];
    var i := 0;
    while i < |cats|
      invariant 0 <= i <= |cats|
      invariant CountsOf(counts, cats[..i])
    {
      var c := cats[i];
      assert cats[..i + 1] == cats[..i] + [c];
      var k := FindCategory(counts, c);
      if k >= 0 {
        BumpStep(counts, cats[..i], c, k);
        counts := counts[k := counts[k].(count := counts[k].count + 1)];
      } else {
        AppendStep(counts, cats[..i], c);
        counts := counts + [CategoryCount(c, 1)];
      }
      i := i + 1;
    }
    assert cats[..i] == cats;
  }

  // ------------------------------------------------------------- the routes

  /** `get_dashboard_stats` without the amount sums: 401 for an unknown
      caller, 500 where the window end overflows, else the caller's expense
      count and upcoming renewals. */
  method DashboardStats(s: Store, uid: UserId, today: Day) returns (status: int, expenseCount: nat, upcoming: seq<ExpenseId>)
    ensures status in {Ok, Unauthorized, ServerError}
    ensures status == Unauthorized <==> uid !in s.users
    ensures status == ServerError <==> uid in s.users && today + WindowDays > MaxOrdinal
    ensures status == Ok ==>
              && expenseCount == |OwnedIds(s, uid)|
              && NoDuplicates(upcoming)
              && SortedByRenewal(s.expenses, upcoming)
              && (forall id :: id in upcoming <==> OwnedBy(s, id, uid) && Upcoming(s.expenses[id], today, today + WindowDays))
  {
    if uid !in s.users {
      return Unauthorized, 0, [];
    }
    var ids := ListOwned(s, uid);
    var r := UpcomingRenewals(s, uid, today);
    if r.None? {
      return ServerError, 0, [];
    }
    return Ok, |ids|, r.value;
  }

  /** `get_summary` without the amount sums: 401 for an unknown caller, else
      `total_subscriptions` and the per-category counts, which add up to it. */
  method Summary(s: Store, uid: UserId) returns (status: int, totalSubscriptions: nat, categories: seq<CategoryCount>)
    ensures status in {Ok, Unauthorized}
    ensures status == Unauthorized <==> uid !in s.users
    ensures status == Ok ==>
              && totalSubscriptions == |OwnedIds(s, uid)|
              && Total(categories) == totalSubscriptions
              && DistinctCategories(categories)
              && (forall k :: 0 <= k < |categories| ==> categories[k].count >= 1)
              && (forall c :: CountOf(categories, c) > 0 <==>
                    exists id :: OwnedBy(s, id, uid) && s.expenses[id].category == c)
  {
    if uid !in s.users {
      return Unauthorized, 0, [];
    }
    var ids := ListOwned(s, uid);
    forall k | 0 <= k < |ids| ensures ids[k] in s.expenses {
      assert ids[k] in ids;
    }
    var cats := seq(|ids|, k requires 0 <= k < |ids| => s.expenses[ids[k]].category);
    categories := CountByCategory(cats);
    forall c ensures CountOf(categories, c) > 0 <==> exists id :: OwnedBy(s, id, uid) && s.expenses[id].category == c {
      OccurrencesPositive(cats, c);
      if exists id :: OwnedBy(s, id, uid) && s.expenses[id].category == c {
        var id :| OwnedBy(s, id, uid) && s.expenses[id].category == c;
        var k :| 0 <= k < |ids| && ids[k] == id;
        assert cats[k] == c;
      }
    }
    return Ok, |ids|, categories;
  }

  lemma {:induction false} OccurrencesPositive(xs: seq<string>, c: string)
    ensures Occurrences(xs, c) > 0 <==> c in xs
  {
    if |xs| > 0 {
      var init := xs[..|xs| - 1];
      OccurrencesPositive(init, c);
      assert xs == init + [xs[|xs| - 1]];
    }
  }
}
