/** The read-only aggregates of accounts/views.py: dashboard totals, the merged
    list of recent transactions and the mutual-fund portfolio summary. */
module Ledger {
  import opened Common
  import opened Models

  datatype TxKind = IncomeTx | ExpenseTx

  /** One serialised Income or Expense row; `date` is the row's date as a day number. */
  datatype Tx = Tx(kind: TxKind, id: nat, category: string, amount: int, date: int)

  /** The rows of `m` owned by `user` with ids below `n`: every one of them,
      each once, in increasing id order. */
  function RowsOf(m: map<nat, Entry>, user: UserId, kind: TxKind, n: nat): (r: seq<Tx>)
    ensures forall k :: 0 <= k < |r| ==>
              && r[k].kind == kind && r[k].id < n && r[k].id in m
              && m[r[k].id].user == user && r[k].category == m[r[k].id].category
              && r[k].amount == m[r[k].id].amount && r[k].date == m[r[k].id].date
    ensures forall k :: 0 <= k < n && k in m && m[k].user == user ==>
              exists j :: 0 <= j < |r| && r[j].id == k
    ensures forall i, j :: 0 <= i < j < |r| ==> r[i].id < r[j].id
  {
    if n == 0 then []
    else
      var prefix := RowsOf(m, user, kind, n - 1);
      if n - 1 in m && m[n - 1].user == user then
        var r := prefix + [Tx(kind, n - 1, m[n - 1].category, m[n - 1].amount, m[n - 1].date)];
        assert r[|r| - 1].id == n - 1;
        assert forall j :: 0 <= j < |prefix| ==> r[j] == prefix[j];
        r
      else prefix
  }

  /** A user who owns no row has no rows listed. */
  lemma {:induction false} RowsOfNone(m: map<nat, Entry>, user: UserId, kind: TxKind, n: nat)
    requires forall i :: i in m ==> m[i].user != user
    ensures RowsOf(m, user, kind, n) == []
  {
    if n > 0 {
      RowsOfNone(m, user, kind, n - 1);
    }
  }

  /** `aggregate(total=Sum('amount'))['total'] or 0`. */
  function Sum(s: seq<Tx>): int
  {
    if s == [] then 0 else Sum(s[..|s| - 1]) + s[|s| - 1].amount
  }

  lemma {:induction false} SumAppend(a: seq<Tx>, b: seq<Tx>)
    ensures Sum(a + b) == Sum(a) + Sum(b)
    decreases |b|
  {
    if b == [] {
      assert a + b == a;
    } else {
      var ab := a + b;
      assert ab[..|ab| - 1] == a + b[..|b| - 1];
      assert ab[|ab| - 1] == b[|b| - 1];
      SumAppend(a, b[..|b| - 1]);
    }
  }

  datatype Totals = Totals(totalIncome: int, totalExpense: int, totalSaving: int, balance: int)

  /** `dashboard_data`. */
  function DashboardTotals(incomes: seq<Tx>, expenses: seq<Tx>): (t: Totals)
    ensures t.totalSaving == t.totalIncome - t.totalExpense
    ensures t.balance == t.totalSaving
    ensures t.totalIncome == Sum(incomes) && t.totalExpense == Sum(expenses)
    ensures incomes == [] ==> t.totalIncome == 0
    ensures expenses == [] ==> t.totalExpense == 0
  {
    var i := Sum(incomes);
    var e := Sum(expenses);
    Totals(i, e, i - e, i - e)
  }

  /** Recording one more income raises the income total, the saving and the
      balance by its amount. */
  lemma DashboardAddIncome(incomes: seq<Tx>, expenses: seq<Tx>, x: Tx)
    ensures DashboardTotals(incomes + [x], expenses).totalIncome == DashboardTotals(incomes, expenses).totalIncome + x.amount
    ensures DashboardTotals(incomes + [x], expenses).balance == DashboardTotals(incomes, expenses).balance + x.amount
  {
    SumAppend(incomes, [x]);
  }

  /** Recording one more expense raises the expense total and lowers the balance by its amount. */
  lemma DashboardAddExpense(incomes: seq<Tx>, expenses: seq<Tx>, x: Tx)
    ensures DashboardTotals(incomes, expenses + [x]).totalExpense == DashboardTotals(incomes, expenses).totalExpense + x.amount
    ensures DashboardTotals(incomes, expenses + [x]).balance == DashboardTotals(incomes, expenses).balance - x.amount
  {
    SumAppend(expenses, [x]);
  }

  // ---- Sorting by date, newest first, stably (Python's `sort(key=..., reverse=True)`).

  predicate SortedDesc(s: seq<Tx>)
  {
    forall i, j :: 0 <= i < j < |s| ==> s[i].date >= s[j].date
  }

  /** Places `x` after every element dated on or after it. */
  function InsertDesc(s: seq<Tx>, x: Tx): (r: seq<Tx>)
    ensures |r| == |s| + 1
  {
    if s == [] then [x]
    else if s[0].date >= x.date then [s[0]] + InsertDesc(s[1..], x)
    else [x] + s
  }

  /** The stable sort, newest first, as insertion of each element in turn. */
  function SortDesc(s: seq<Tx>): (r: seq<Tx>)
    ensures |r| == |s|
  {
    if s == [] then [] else InsertDesc(SortDesc(s[..|s| - 1]), s[|s| - 1])
  }

  /** Insertion adds exactly `x`. */
  lemma {:induction false} InsertDescPermutes(s: seq<Tx>, x: Tx)
    ensures multiset(InsertDesc(s, x)) == multiset(s) + multiset{x}
  {
    if s != [] && s[0].date >= x.date {
      InsertDescPermutes(s[1..], x);
      assert s == [s[0]] + s[1..];
    }
  }

  /** Sorting neither adds nor drops anything. */
  lemma {:induction false} SortDescPermutes(s: seq<Tx>)
    ensures multiset(SortDesc(s)) == multiset(s)
    decreases |s|
  {
    if s != [] {
      var p, y := s[..|s| - 1], s[|s| - 1];
      SortDescPermutes(p);
      InsertDescPermutes(SortDesc(p), y);
      assert s == p + [y];
      calc {
        multiset(SortDesc(s));
        multiset(InsertDesc(SortDesc(p), y));
        multiset(SortDesc(p)) + multiset{y};
        multiset(p) + multiset{y};
        multiset(p + [y]);
      }
    }
  }

  /** Insertion keeps a common upper bound on the dates. */
  lemma {:induction false} InsertDescBounded(s: seq<Tx>, x: Tx, b: int)
    requires forall k :: 0 <= k < |s| ==> s[k].date <= b
    requires x.date <= b
    ensures forall k :: 0 <= k < |s| + 1 ==> InsertDesc(s, x)[k].date <= b
  {
    if s != [] && s[0].date >= x.date {
      InsertDescBounded(s[1..], x, b);
    }
  }

  lemma {:induction false} InsertDescSorted(s: seq<Tx>, x: Tx)
    requires SortedDesc(s)
    ensures SortedDesc(InsertDesc(s, x))
  {
    if s != [] && s[0].date >= x.date {
      var t := InsertDesc(s[1..], x);
      InsertDescSorted(s[1..], x);
      InsertDescBounded(s[1..], x, s[0].date);
      assert InsertDesc(s, x) == [s[0]] + t;
    }
  }

  lemma {:induction false} SortDescSorted(s: seq<Tx>)
    ensures SortedDesc(SortDesc(s))
    decreases |s|
  {
    if s != [] {
      SortDescSorted(s[..|s| - 1]);
      InsertDescSorted(SortDesc(s[..|s| - 1]), s[|s| - 1]);
    }
  }

  /** The elements of `s` dated `d`, in order. */
  function OnDate(s: seq<Tx>, d: int): seq<Tx>
  {
    if s == [] then [] else (if s[0].date == d then [s[0]] else []) + OnDate(s[1..], d)
  }

  lemma {:induction false} OnDateAppend(a: seq<Tx>, b: seq<Tx>, d: int)
    ensures OnDate(a + b, d) == OnDate(a, d) + OnDate(b, d)
    decreases |a|
  {
    if a == [] {
      assert a + b == b;
    } else {
      assert (a + b)[1..] == a[1..] + b;
      assert (a + b)[0] == a[0];
      OnDateAppend(a[1..], b, d);
    }
  }

  lemma {:induction false} OnDateNone(s: seq<Tx>, d: int)
    requires forall i :: 0 <= i < |s| ==> s[i].date != d
    ensures OnDate(s, d) == []
    decreases |s|
  {
    if s != [] {
      OnDateNone(s[1..], d);
    }
  }

  /** Inserting into a sorted list puts `x` after the elements sharing its date. */
  lemma {:induction false} InsertDescOnDate(s: seq<Tx>, x: Tx, d: int)
    requires SortedDesc(s)
    ensures OnDate(InsertDesc(s, x), d) == OnDate(s, d) + (if x.date == d then [x] else [])
    decreases |s|
  {
    if s == [] {
      assert OnDate([x], d) == (if x.date == d then [x] else []) + OnDate([], d);
    } else if s[0].date >= x.date {
      assert SortedDesc(s[1..]);
      InsertDescOnDate(s[1..], x, d);
      InsertDescOnDateBehind(s, x, d);
    } else {
      InsertDescOnDateInFront(s, x, d);
    }
  }

  /** The step where `x` goes behind the head of `s`. */
  lemma InsertDescOnDateBehind(s: seq<Tx>, x: Tx, d: int)
    requires s != [] && s[0].date >= x.date
    requires OnDate(InsertDesc(s[1..], x), d) == OnDate(s[1..], d) + (if x.date == d then [x] else [])
    ensures OnDate(InsertDesc(s, x), d) == OnDate(s, d) + (if x.date == d then [x] else [])
  {
    var r := InsertDesc(s, x);
    var head := if s[0].date == d then [s[0]] else [];
    var tail := if x.date == d then [x] else [];
    assert r[0] == s[0] && r[1..] == InsertDesc(s[1..], x);
    calc {
      OnDate(r, d);
      head + OnDate(r[1..], d);
      head + (OnDate(s[1..], d) + tail);
      (head + OnDate(s[1..], d)) + tail;
      OnDate(s, d) + tail;
    }
  }

  /** The step where `x` is newer than everything in `s` and goes first. */
  lemma InsertDescOnDateInFront(s: seq<Tx>, x: Tx, d: int)
    requires SortedDesc(s)
    requires s != [] && s[0].date < x.date
    ensures OnDate(InsertDesc(s, x), d) == OnDate(s, d) + (if x.date == d then [x] else [])
  {
    var r := InsertDesc(s, x);
    assert r == [x] + s;
    assert r[0] == x && r[1..] == s;
    if x.date == d {
      forall i | 0 <= i < |s| ensures s[i].date != d {
        assert s[i].date <= s[0].date;
      }
      OnDateNone(s, d);
      assert OnDate(r, d) == [x] + OnDate(s, d);
    } else {
      assert OnDate(r, d) == [] + OnDate(s, d);
    }
  }

  /** Stability: for every date, the elements of that date keep their order. */
  lemma {:induction false} SortDescStable(s: seq<Tx>, d: int)
    ensures OnDate(SortDesc(s), d) == OnDate(s, d)
    decreases |s|
  {
    if s != [] {
      var p, y := s[..|s| - 1], s[|s| - 1];
      SortDescStable(p, d);
      SortDescSorted(p);
      InsertDescOnDate(SortDesc(p), y, d);
      assert s == p + [y];
      OnDateAppend(p, [y], d);
    }
  }

  /** Inserting at a split point: everything before `j` is dated on or after `x`,
      everything from `j` on strictly before it. */
  lemma {:induction false} InsertDescAt(s: seq<Tx>, x: Tx, j: nat)
    requires j <= |s|
    requires forall k :: 0 <= k < j ==> s[k].date >= x.date
    requires forall k :: j <= k < |s| ==> s[k].date < x.date
    ensures InsertDesc(s, x) == s[..j] + [x] + s[j..]
    decreases j
  {
    if j > 0 {
      InsertDescAt(s[1..], x, j - 1);
      assert s[1..][..j - 1] == s[1..j];
      assert s[1..][j - 1..] == s[j..];
      assert s[..j] == [s[0]] + s[1..j];
    }
  }

  /** `s` after moving `s[i]` back to position `j`, everything in between one
      place to the right. */
  function MovedBack(s: seq<Tx>, i: nat, j: nat): (r: seq<Tx>)
    requires j <= i < |s|
    ensures |r| == |s|
    ensures r[j] == s[i]
  {
    s[..j] + [s[i]] + s[j..i] + s[i + 1..]
  }

  /** One step of the in-place insertion sort: shifts the elements of the
      sorted prefix `a[..i]` dated strictly before `a[i]` one place right and
      drops `a[i]` into the gap. */
  method InsertInPlace(a: array<Tx>, i: nat)
    requires i < a.Length
    requires SortedDesc(a[..i])
    modifies a
    ensures a[..i + 1] == InsertDesc(old(a[..i]), old(a[i]))
    ensures a[i + 1..] == old(a[i + 1..])
  {
    ghost var s := a[..];
    var j := MoveBackPastOlder(a, i);
    InsertStep(s, i, j);
  }

  /** The inner loop of the insertion step: walks `a[i]` towards the front past
      every element dated strictly before it and stops at the first that is
      not; returns where it landed. */
  method MoveBackPastOlder(a: array<Tx>, i: nat) returns (j: nat)
    requires i < a.Length
    modifies a
    ensures j <= i
    ensures a[..] == MovedBack(old(a[..]), i, j)
    ensures forall k :: j <= k < i ==> old(a[..])[k].date < old(a[..])[i].date
    ensures j > 0 ==> old(a[..])[j - 1].date >= old(a[..])[i].date
  {
    ghost var s := a[..];
    var x := a[i];
    j := i;
    while j > 0 && a[j - 1].date < x.date
      invariant 0 <= j <= i
      invariant forall k :: 0 <= k < j ==> a[k] == s[k]
      invariant forall k :: j < k <= i ==> a[k] == s[k - 1]
      invariant forall k :: i < k < a.Length ==> a[k] == s[k]
      invariant forall k :: j <= k < i ==> s[k].date < x.date
      invariant x == s[i]
    {
      a[j] := a[j - 1];
      j := j - 1;
    }
    a[j] := x;
    assert a[..] == MovedBack(s, i, j);
  }

  /** Where the walk stops, `s[i]` belongs: the first `i + 1` elements of the
      moved sequence are the sorted insertion, the rest are untouched. */
  lemma InsertStep(s: seq<Tx>, i: nat, j: nat)
    requires j <= i < |s|
    requires SortedDesc(s[..i])
    requires forall k :: j <= k < i ==> s[k].date < s[i].date
    requires j > 0 ==> s[j - 1].date >= s[i].date
    ensures MovedBack(s, i, j)[..i + 1] == InsertDesc(s[..i], s[i])
    ensures MovedBack(s, i, j)[i + 1..] == s[i + 1..]
  {
    var prefix := s[..i];
    forall k | 0 <= k < j ensures prefix[k].date >= s[i].date {
      assert prefix[k].date >= prefix[j - 1].date;
    }
    InsertDescAt(prefix, s[i], j);
    assert prefix[..j] == s[..j] && prefix[j..] == s[j..i];
  }

  /** `transactions.sort(key=lambda x: x['date'], reverse=True)`, in place. */
  method SortByDateDesc(a: array<Tx>)
    modifies a
    ensures a[..] == SortDesc(old(a[..]))
  {
    ghost var s := a[..];
    var i := 0;
    while i < a.Length
      invariant 0 <= i <= a.Length
      invariant a[..] == SortDesc(s[..i]) + s[i..]
    {
      ghost var before := a[..];
      SortedPrefix(s, i, before);
      InsertInPlace(a, i);
      SortStep(s, i, before, a[..]);
      i := i + 1;
    }
    assert s[..a.Length] == s;
  }

  /** Before step `i` the first `i` elements are sorted. */
  lemma SortedPrefix(s: seq<Tx>, i: nat, before: seq<Tx>)
    requires i < |s|
    requires before == SortDesc(s[..i]) + s[i..]
    ensures |before| == |s| && before[i] == s[i]
    ensures before[..i] == SortDesc(s[..i]) && SortedDesc(before[..i])
  {
    SortDescSorted(s[..i]);
  }

  /** After step `i` the first `i + 1` elements are the sort of `s[..i + 1]`. */
  lemma SortStep(s: seq<Tx>, i: nat, before: seq<Tx>, after: seq<Tx>)
    requires i < |s|
    requires before == SortDesc(s[..i]) + s[i..]
    requires |after| == |s|
    requires after[..i + 1] == InsertDesc(before[..i], before[i])
    requires after[i + 1..] == before[i + 1..]
    ensures after == SortDesc(s[..i + 1]) + s[i + 1..]
  {
    var t := s[..i + 1];
    assert t[..|t| - 1] == s[..i];
    var sorted := SortDesc(s[..i]);
    assert before[..i] == sorted && before[i + 1..] == s[i + 1..];
    calc {
      after;
      after[..i + 1] + after[i + 1..];
      InsertDesc(sorted, s[i]) + s[i + 1..];
      SortDesc(t) + s[i + 1..];
    }
  }

  // ---- recent_transactions

  const RecentLimit: nat := 5

  /** `order_by('-date')[:5]`: the five newest rows (all of them when there are
      fewer), newest first; no row left out is newer than a row kept. */
  function Latest(s: seq<Tx>): (r: seq<Tx>)
    ensures |r| == if |s| <= RecentLimit then |s| else RecentLimit
    ensures multiset(r) <= multiset(s)
    ensures SortedDesc(r)
    ensures forall x, y :: x in multiset(s) - multiset(r) && y in r ==> x.date <= y.date
  {
    var sorted := SortDesc(s);
    SortDescPermutes(s);
    SortDescSorted(s);
    var r := if |sorted| <= RecentLimit then sorted else sorted[..RecentLimit];
    NewestPrefix(sorted, |r|);
    r
  }

  /** A prefix of a newest-first sequence is newest-first, and nothing after it is newer. */
  lemma NewestPrefix(s: seq<Tx>, k: nat)
    requires SortedDesc(s) && k <= |s|
    ensures SortedDesc(s[..k])
    ensures multiset(s[..k]) <= multiset(s)
    ensures forall x, y :: x in multiset(s) - multiset(s[..k]) && y in s[..k] ==> x.date <= y.date
  {
    var front, back := s[..k], s[k..];
    assert s == front + back;
    assert multiset(s) - multiset(front) == multiset(back);
    SortedSplit(s, k);
  }

  lemma SortedSplit(s: seq<Tx>, k: nat)
    requires SortedDesc(s) && k <= |s|
    ensures forall x, y :: x in s[k..] && y in s[..k] ==> x.date <= y.date
  {
    forall x, y | x in s[k..] && y in s[..k]
      ensures x.date <= y.date
    {
      var i :| k <= i < |s| && s[i] == x;
      var j :| 0 <= j < k && s[j] == y;
    }
  }

  /** The latest five incomes and latest five expenses, merged newest first. */
  function Recent(incomes: seq<Tx>, expenses: seq<Tx>): seq<Tx>
  {
    SortDesc(Latest(incomes) + Latest(expenses))
  }

  /** What `recent_transactions` promises: at most ten rows, newest first, exactly
      the latest incomes and expenses, and on each date the incomes of that date
      before its expenses. */
  lemma RecentProperties(incomes: seq<Tx>, expenses: seq<Tx>, d: int)
    ensures |Recent(incomes, expenses)| <= 2 * RecentLimit
    ensures SortedDesc(Recent(incomes, expenses))
    ensures multiset(Recent(incomes, expenses)) == multiset(Latest(incomes)) + multiset(Latest(expenses))
    ensures OnDate(Recent(incomes, expenses), d) == OnDate(Latest(incomes), d) + OnDate(Latest(expenses), d)
  {
    SortDescSorted(Latest(incomes) + Latest(expenses));
    SortDescPermutes(Latest(incomes) + Latest(expenses));
    SortDescStable(Latest(incomes) + Latest(expenses), d);
    OnDateAppend(Latest(incomes), Latest(expenses), d);
  }

  /** The merge and in-place sort of `recent_transactions`. */
  method MergeRecent(incomes: seq<Tx>, expenses: seq<Tx>) returns (r: seq<Tx>)
    ensures r == Recent(incomes, expenses)
    ensures |r| <= 2 * RecentLimit && SortedDesc(r)
  {
    r := SortedList(Latest(incomes) + Latest(expenses));
    RecentProperties(incomes, expenses, 0);
  }

  /** The list `transactions` sorted newest first: copied into an array and
      sorted there. */
  method SortedList(s: seq<Tx>) returns (r: seq<Tx>)
    ensures r == SortDesc(s)
  {
    var a := new Tx[|s|](i requires 0 <= i < |s| => s[i]);
    assert a[..] == s;
    SortByDateDesc(a);
    r := a[..];
  }

  // ---- portfolio_summary_api

  /** The ids below `n` of the funds `user` owns. */
  function OwnedFundIds(m: map<nat, Fund>, user: UserId, n: nat): set<nat>
  {
    set k | 0 <= k < n && k in m && m[k].user == user
  }

  /** Those ids in increasing order. */
  function FundIdsOf(m: map<nat, Fund>, user: UserId, n: nat): (ids: seq<nat>)
    ensures forall i :: 0 <= i < |ids| ==> ids[i] < n && ids[i] in m && m[ids[i]].user == user
    ensures forall i, j :: 0 <= i < j < |ids| ==> ids[i] < ids[j]
  {
    if n == 0 then []
    else if n - 1 in m && m[n - 1].user == user then FundIdsOf(m, user, n - 1) + [n - 1]
    else FundIdsOf(m, user, n - 1)
  }

  /** ... and every owned id below `n` is among them, so each appears exactly once. */
  lemma {:induction false} FundIdsOfComplete(m: map<nat, Fund>, user: UserId, n: nat)
    ensures forall k {:trigger k in OwnedFundIds(m, user, n)} :: k in OwnedFundIds(m, user, n) ==> k in FundIdsOf(m, user, n)
    ensures |FundIdsOf(m, user, n)| == |OwnedFundIds(m, user, n)|
  {
    if n == 0 {
      assert OwnedFundIds(m, user, n) == {};
    } else {
      FundIdsOfComplete(m, user, n - 1);
      OwnedFundIdsStep(m, user, n);
      var prefix := FundIdsOf(m, user, n - 1);
      var owned := n - 1 in m && m[n - 1].user == user;
      assert FundIdsOf(m, user, n) == prefix + (if owned then [n - 1] else []);
      forall k | k in OwnedFundIds(m, user, n)
        ensures k in FundIdsOf(m, user, n)
      {
        if k != n - 1 {
          assert k in OwnedFundIds(m, user, n - 1);
        }
      }
    }
  }

  /** The funds of `m` owned by `user` with ids below `n`, in id order: every one
      of them, one entry per id. */
  function FundsOf(m: map<nat, Fund>, user: UserId, n: nat): (r: seq<Fund>)
    ensures forall k :: 0 <= k < |r| ==> r[k].user == user && r[k] in m.Values
    ensures forall k {:trigger k in OwnedFundIds(m, user, n)} :: k in OwnedFundIds(m, user, n) ==> m[k] in r
    ensures |r| == |OwnedFundIds(m, user, n)| == |FundIdsOf(m, user, n)|
    ensures forall j :: 0 <= j < |r| ==> FundIdsOf(m, user, n)[j] in m && r[j] == m[FundIdsOf(m, user, n)[j]]
  {
    var ids := FundIdsOf(m, user, n);
    FundIdsOfComplete(m, user, n);
    var r := seq(|ids|, j requires 0 <= j < |ids| => m[ids[j]]);
    assert forall k {:trigger k in OwnedFundIds(m, user, n)} :: k in OwnedFundIds(m, user, n) ==> m[k] in r by {
      forall k | k in OwnedFundIds(m, user, n)
        ensures m[k] in r
      {
        var j :| 0 <= j < |ids| && ids[j] == k;
        assert r[j] == m[k];
      }
    }
    r
  }

  lemma OwnedFundIdsStep(m: map<nat, Fund>, user: UserId, n: nat)
    requires n > 0
    ensures var owned := n - 1 in m && m[n - 1].user == user;
            |OwnedFundIds(m, user, n)| == |OwnedFundIds(m, user, n - 1)| + (if owned then 1 else 0)
    ensures forall k :: k in OwnedFundIds(m, user, n) <==> k in OwnedFundIds(m, user, n - 1) || (k == n - 1 && k in m && m[k].user == user)
  {
    var owned := n - 1 in m && m[n - 1].user == user;
    assert OwnedFundIds(m, user, n) == OwnedFundIds(m, user, n - 1) + (if owned then {n - 1} else {});
  }

  /** Two fund tables that agree on which ids below `n` `user` owns list the
      same ids for `user`. */
  lemma {:induction false} FundIdsOfAgree(m: map<nat, Fund>, m': map<nat, Fund>, user: UserId, n: nat)
    requires forall k :: k < n ==> (k in m && m[k].user == user <==> k in m' && m'[k].user == user)
    ensures FundIdsOf(m', user, n) == FundIdsOf(m, user, n)
  {
    if n > 0 {
      FundIdsOfAgree(m, m', user, n - 1);
      var owned := n - 1 in m && m[n - 1].user == user;
      assert FundIdsOf(m, user, n) == FundIdsOf(m, user, n - 1) + (if owned then [n - 1] else []);
      assert FundIdsOf(m', user, n) == FundIdsOf(m', user, n - 1) + (if owned then [n - 1] else []);
    }
  }

  /** ... and if they also agree on those funds, the same portfolio. */
  lemma FundsOfAgree(m: map<nat, Fund>, m': map<nat, Fund>, user: UserId, n: nat)
    requires forall k :: k < n ==> (k in m && m[k].user == user <==> k in m' && m'[k].user == user)
    requires forall k :: k < n && k in m && m[k].user == user ==> m'[k] == m[k]
    ensures FundsOf(m', user, n) == FundsOf(m, user, n)
  {
    FundIdsOfAgree(m, m', user, n);
  }

  /** A user who owns no fund has an empty portfolio. */
  lemma FundsOfNone(m: map<nat, Fund>, user: UserId, n: nat)
    requires forall i :: i in m ==> m[i].user != user
    ensures FundsOf(m, user, n) == []
  {
  }

  function TotalInvested(funds: seq<Fund>): int
  {
    if funds == [] then 0 else TotalInvested(funds[..|funds| - 1]) + funds[|funds| - 1].invested
  }

  function TotalCurrent(funds: seq<Fund>): int
  {
    if funds == [] then 0 else TotalCurrent(funds[..|funds| - 1]) + funds[|funds| - 1].current
  }

  /** Both totals add up over a concatenation. */
  lemma {:induction false} TotalsAppend(a: seq<Fund>, b: seq<Fund>)
    ensures TotalInvested(a + b) == TotalInvested(a) + TotalInvested(b)
    ensures TotalCurrent(a + b) == TotalCurrent(a) + TotalCurrent(b)
    decreases |b|
  {
    if b == [] {
      assert a + b == a;
    } else {
      var ab := a + b;
      assert ab[..|ab| - 1] == a + b[..|b| - 1];
      assert ab[|ab| - 1] == b[|b| - 1];
      TotalsAppend(a, b[..|b| - 1]);
    }
  }

  /** `total_gain_loss / total_invested * 100`, or 0 unless something is invested. */
  function GainLossPercentage(gain: int, invested: int): (p: real)
    ensures invested > 0 ==> p * (invested as real) == (gain as real) * 100.0
    ensures invested <= 0 ==> p == 0.0
  {
    if invested > 0 then (gain as real / invested as real) * 100.0 else 0.0
  }

  /** With something invested, the percentage has the sign of the gain. */
  lemma PercentageSign(gain: int, invested: int)
    requires invested > 0
    ensures GainLossPercentage(gain, invested) > 0.0 <==> gain > 0
    ensures GainLossPercentage(gain, invested) < 0.0 <==> gain < 0
  {
    var p := GainLossPercentage(gain, invested);
    if p > 0.0 {
      assert p * (invested as real) > 0.0;
    } else if p < 0.0 {
      assert p * (invested as real) < 0.0;
    }
  }

  /** `round(x)` to an integer, ties to even (Python's rounding of a Decimal). */
  function RoundHalfEven(x: real): (n: int)
    ensures -0.5 <= n as real - x <= 0.5
    ensures (n as real - x == 0.5 || x - n as real == 0.5) ==> n % 2 == 0
  {
    var f := x.Floor;
    var frac := x - f as real;
    if frac < 0.5 then f
    else if frac > 0.5 then f + 1
    else if f % 2 == 0 then f
    else f + 1
  }

  function Abs(x: real): real
  {
    if x < 0.0 then -x else x
  }

  /** No integer is closer to `x` than its rounding. */
  lemma RoundIsNearest(x: real, m: int)
    ensures Abs(RoundHalfEven(x) as real - x) <= Abs(m as real - x)
  {
    var n := RoundHalfEven(x);
    if m < n {
      assert m as real <= n as real - 1.0;
    } else if m > n {
      assert m as real >= n as real + 1.0;
    }
  }

  /** The response of `portfolio_summary_api`; the percentage is exact and its
      rounding to two decimals is kept as hundredths of a percent. */
  datatype Summary = Summary(totalInvested: int, totalCurrentValue: int, totalGainLoss: int,
                             percentage: real, roundedHundredths: int)

  function PortfolioSummary(funds: seq<Fund>): (s: Summary)
    ensures s.totalInvested == TotalInvested(funds) && s.totalCurrentValue == TotalCurrent(funds)
    ensures s.totalGainLoss == s.totalCurrentValue - s.totalInvested
    ensures s.totalInvested > 0 ==> s.percentage * (s.totalInvested as real) == (s.totalGainLoss as real) * 100.0
    ensures s.totalInvested <= 0 ==> s.percentage == 0.0 && s.roundedHundredths == 0
    ensures funds == [] ==> s.totalInvested == 0 && s.totalCurrentValue == 0 && s.percentage == 0.0
    ensures -0.5 <= s.roundedHundredths as real - s.percentage * 100.0 <= 0.5
  {
    var invested := TotalInvested(funds);
    var current := TotalCurrent(funds);
    var p := GainLossPercentage(current - invested, invested);
    Summary(invested, current, current - invested, p, RoundHalfEven(p * 100.0))
  }

  /** One more fund raises the invested total, the current total and the gain by
      its own amounts. */
  lemma PortfolioAddFund(funds: seq<Fund>, f: Fund)
    ensures PortfolioSummary(funds + [f]).totalInvested == PortfolioSummary(funds).totalInvested + f.invested
    ensures PortfolioSummary(funds + [f]).totalCurrentValue == PortfolioSummary(funds).totalCurrentValue + f.current
    ensures PortfolioSummary(funds + [f]).totalGainLoss == PortfolioSummary(funds).totalGainLoss + (f.current - f.invested)
  {
    TotalsAppend(funds, [f]);
  }
}
