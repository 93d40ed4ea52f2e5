/**
 The two read queries both backends run against the `scans` table, written
 once over any row type that has a timestamp and nutrient columns:

   list_scans:    [WHERE substr(ts, 1, 10) = ?] ORDER BY ts DESC LIMIT 200
   summary_today: COALESCE(SUM(col), 0) for each nutrient, COUNT(*),
                  WHERE substr(ts, 1, 10) = ?

 `ts` is TEXT compared under SQLite's BINARY collation, which on UTF-8 text
 is code-point lexicographic order. SQLite leaves the order of rows with
 equal timestamps unspecified; the model fixes one (insertion sort, which
 puts earlier table rows first among ties) and states only that the result
 is non-increasing.
 */
module Query {
  import opened Api

  /** The `LIMIT` of `list_scans`. */
  const PageSize: nat := 200

  /** SQLite's `substr(ts, 1, 10)`: the first ten characters, or all of a shorter string. */
  function DatePrefix(ts: string): (p: string)
    ensures |p| == (if |ts| < 10 then |ts| else 10)
    ensures p <= ts
  {
    if |ts| <= 10 then ts else ts[..10]
  }

  /** The ids an AUTOINCREMENT key hands out: positive, rising in insertion
      order, and never above the counter of the largest id handed out. */
  ghost predicate IdsWf<T(!new)>(rows: seq<T>, id: T -> nat, lastId: nat) {
    && (forall i, j :: 0 <= i < j < |rows| ==> id(rows[i]) < id(rows[j]))
    && (forall i :: 0 <= i < |rows| ==> 1 <= id(rows[i]) <= lastId)
  }

  /** The rows matching `WHERE substr(ts, 1, 10) = date`, in table order. */
  function OnDate<T(!new)>(rows: seq<T>, key: T -> string, date: string): (r: seq<T>)
    ensures multiset(r) <= multiset(rows)
    ensures forall x :: x in r <==> x in rows && DatePrefix(key(x)) == date
    ensures forall x {:trigger multiset(r)[x]} :: multiset(r)[x] == if DatePrefix(key(x)) == date then multiset(rows)[x] else 0
  {
    if rows == [] then []
    else
      assert rows == [rows[0]] + rows[1..];
      assert multiset(rows) == multiset{rows[0]} + multiset(rows[1..]);
      (if DatePrefix(key(rows[0])) == date then [rows[0]] else []) + OnDate(rows[1..], key, date)
  }

  lemma ConcatAssoc<T>(a: seq<T>, b: seq<T>, c: seq<T>)
    ensures a + (b + c) == (a + b) + c
  {
  }

  lemma {:induction false} OnDateAppend<T(!new)>(a: seq<T>, b: seq<T>, key: T -> string, date: string)
    ensures OnDate(a + b, key, date) == OnDate(a, key, date) + OnDate(b, key, date)
  {
    if a != [] {
      var head := if DatePrefix(key(a[0])) == date then [a[0]] else [];
      assert (a + b)[0] == a[0];
      assert (a + b)[1..] == a[1..] + b;
      OnDateAppend(a[1..], b, key, date);
      assert OnDate(a + b, key, date) == head + OnDate(a[1..] + b, key, date);
      assert OnDate(a, key, date) == head + OnDate(a[1..], key, date);
      var ra, rb := OnDate(a[1..], key, date), OnDate(b, key, date);
      ConcatAssoc(head, ra, rb);
    } else {
      assert a + b == b;
      assert OnDate(a, key, date) == [];
    }
  }

  // ---------------------------------------------------------------------------
  // The order of ORDER BY ts
  // ---------------------------------------------------------------------------

  /** `a <= b` under SQLite's BINARY collation: code-point lexicographic
      order, in which a proper prefix comes first. */
  predicate LexLe(a: string, b: string)
    decreases |a|
  {
    a == [] || (b != [] && (a[0] < b[0] || (a[0] == b[0] && LexLe(a[1..], b[1..]))))
  }

  lemma {:induction false} LexLeTotal(a: string, b: string)
    ensures LexLe(a, b) || LexLe(b, a)
    decreases |a|
  {
    if a != [] && b != [] && a[0] == b[0] {
      LexLeTotal(a[1..], b[1..]);
    }
  }

  lemma {:induction false} LexLeTransitive(a: string, b: string, c: string)
    requires LexLe(a, b) && LexLe(b, c)
    ensures LexLe(a, c)
    decreases |a|
  {
    if a != [] && a[0] == b[0] && b[0] == c[0] {
      LexLeTransitive(a[1..], b[1..], c[1..]);
    }
  }

  lemma {:induction false} LexLeAntisymmetric(a: string, b: string)
    requires LexLe(a, b) && LexLe(b, a)
    ensures a == b
    decreases |a|
  {
    if a != [] {
      LexLeAntisymmetric(a[1..], b[1..]);
      assert a == [a[0]] + a[1..] && b == [b[0]] + b[1..];
    }
  }

  /** Non-increasing by `key`, as `ORDER BY ts DESC` returns rows. */
  ghost predicate SortedDesc<T(!new)>(s: seq<T>, key: T -> string) {
    forall i, j :: 0 <= i < j < |s| ==> LexLe(key(s[j]), key(s[i]))
  }

  /** Puts `x` in front of the first element whose key is not above its own. */
  function Insert<T(!new)>(x: T, s: seq<T>, key: T -> string): (r: seq<T>)
    ensures multiset(r) == multiset(s) + multiset{x}
    ensures |r| == |s| + 1
  {
    if s == [] then [x]
    else if LexLe(key(s[0]), key(x)) then [x] + s
    else
      assert s == [s[0]] + s[1..];
      [s[0]] + Insert(x, s[1..], key)
  }

  lemma {:induction false} InsertSorted<T(!new)>(x: T, s: seq<T>, key: T -> string)
    requires SortedDesc(s, key)
    ensures SortedDesc(Insert(x, s, key), key)
  {
    if s == [] {
    } else if LexLe(key(s[0]), key(x)) {
      var r := [x] + s;
      forall i, j | 0 <= i < j < |r| ensures LexLe(key(r[j]), key(r[i])) {
        if i == 0 && j > 1 {
          LexLeTransitive(key(s[j - 1]), key(s[0]), key(x));
        }
      }
    } else {
      LexLeTotal(key(s[0]), key(x));
      InsertSorted(x, s[1..], key);
      var t := Insert(x, s[1..], key);
      var r := [s[0]] + t;
      forall i, j | 0 <= i < j < |r| ensures LexLe(key(r[j]), key(r[i])) {
        if i == 0 {
          var y := t[j - 1];
          assert y in multiset(t);
          if y != x {
            assert y in multiset(s[1..]);
            var k :| 0 <= k < |s[1..]| && s[1..][k] == y;
            assert s[k + 1] == y;
          }
        }
      }
    }
  }

  /** `ORDER BY key DESC`. */
  function SortDesc<T(!new)>(s: seq<T>, key: T -> string): (r: seq<T>)
    ensures multiset(r) == multiset(s)
    ensures |r| == |s|
    ensures SortedDesc(r, key)
  {
    if s == [] then []
    else
      assert s == [s[0]] + s[1..];
      var t := SortDesc(s[1..], key);
      InsertSorted(s[0], t, key);
      Insert(s[0], t, key)
  }

  // ---------------------------------------------------------------------------
  // list_scans
  // ---------------------------------------------------------------------------

  /** The rows `list_scans` ranks: the date filter applies only when the
      `date` query argument is truthy (`if q_date:`). */
  function Selected<T(!new)>(rows: seq<T>, key: T -> string, date: Option<string>): seq<T> {
    if Truthy(date) then OnDate(rows, key, date.value) else rows
  }

  /** `ORDER BY ts DESC LIMIT 200` over the selected rows. */
  function Page<T(!new)>(rows: seq<T>, key: T -> string, date: Option<string>): seq<T> {
    var all := SortDesc(Selected(rows, key, date), key);
    all[..if |all| <= PageSize then |all| else PageSize]
  }

  /** What `list_scans` promises: as many rows as the limit allows, in
      non-increasing timestamp order, drawn from the selection (only rows of
      the requested date when one is given), and no row left out has a later
      timestamp than one returned. */
  lemma PageSpec<T(!new)>(rows: seq<T>, key: T -> string, date: Option<string>)
    ensures var r := Page(rows, key, date);
            var sel := Selected(rows, key, date);
            && |r| == (if |sel| < PageSize then |sel| else PageSize)
            && SortedDesc(r, key)
            && multiset(r) <= multiset(sel)
            && (forall x, y :: x in multiset(sel) - multiset(r) && y in r ==> LexLe(key(x), key(y)))
            && (Truthy(date) ==> forall x :: x in r ==> DatePrefix(key(x)) == date.value)
  {
    var all := SortDesc(Selected(rows, key, date), key);
    TopOfSorted(all, key, if |all| <= PageSize then |all| else PageSize);
  }

  /** A prefix of a sorted sequence holds its largest elements. */
  lemma TopOfSorted<T(!new)>(all: seq<T>, key: T -> string, n: nat)
    requires n <= |all|
    requires SortedDesc(all, key)
    ensures SortedDesc(all[..n], key)
    ensures multiset(all[..n]) <= multiset(all)
    ensures forall x, y :: x in multiset(all) - multiset(all[..n]) && y in all[..n] ==> LexLe(key(x), key(y))
  {
    assert all == all[..n] + all[n..];
    assert multiset(all) == multiset(all[..n]) + multiset(all[n..]);
    forall x, y | x in multiset(all) - multiset(all[..n]) && y in all[..n]
      ensures LexLe(key(x), key(y))
    {
      assert x in all[n..];
      var k :| 0 <= k < |all[n..]| && all[n..][k] == x;
      var i :| 0 <= i < n && all[..n][i] == y;
      assert all[n + k] == x && all[i] == y;
    }
  }

  /** A truthy empty date is impossible, so an empty `date` argument lists
      the same rows as no argument at all. */
  lemma EmptyDateIsNoFilter<T(!new)>(rows: seq<T>, key: T -> string)
    ensures Page(rows, key, Some("")) == Page(rows, key, None)
  {
  }

  // ---------------------------------------------------------------------------
  // summary_today
  // ---------------------------------------------------------------------------

  datatype Nutrient = Calories | Protein | Carbs | Fat

  function Get(m: Macros, n: Nutrient): Option<real> {
    match n
    case Calories => m.calories
    case Protein => m.protein
    case Carbs => m.carbs
    case Fat => m.fat
  }

  /** SQL `SUM(col)`: NULLs are skipped, and a sum over no non-NULL value is NULL. */
  function SqlSum<T(!new)>(rows: seq<T>, macros: T -> Macros, n: Nutrient): (r: Option<real>)
    ensures r.None? <==> forall x :: x in rows ==> Get(macros(x), n).None?
  {
    if rows == [] then None
    else
      assert rows == [rows[0]] + rows[1..];
      SqlAdd(Get(macros(rows[0]), n), SqlSum(rows[1..], macros, n))
  }

  /** One step of `SUM`: a NULL value leaves the running sum as it is. */
  function SqlAdd(v: Option<real>, acc: Option<real>): Option<real> {
    match v
    case None => acc
    case Some(x) => Some(x + (if acc.Some? then acc.value else 0.0))
  }

  /** SQL `COALESCE(v, d)`. */
  function Coalesce(v: Option<real>, d: real): real {
    if v.Some? then v.value else d
  }

  /** The sum of the values present in one nutrient column, absent ones adding nothing. */
  function SumPresent<T(!new)>(rows: seq<T>, macros: T -> Macros, n: Nutrient): real {
    if rows == [] then 0.0
    else Coalesce(Get(macros(rows[0]), n), 0.0) + SumPresent(rows[1..], macros, n)
  }

  /** `COALESCE(SUM(col), 0)` is the sum of the non-NULL values, and 0 when there are none. */
  lemma {:induction false} CoalescedSumIsSumPresent<T(!new)>(rows: seq<T>, macros: T -> Macros, n: Nutrient)
    ensures Coalesce(SqlSum(rows, macros, n), 0.0) == SumPresent(rows, macros, n)
  {
    if rows != [] {
      CoalescedSumIsSumPresent(rows[1..], macros, n);
    }
  }

  lemma {:induction false} SumPresentAppend<T(!new)>(a: seq<T>, b: seq<T>, macros: T -> Macros, n: Nutrient)
    ensures SumPresent(a + b, macros, n) == SumPresent(a, macros, n) + SumPresent(b, macros, n)
  {
    if a != [] {
      assert (a + b)[1..] == a[1..] + b;
      SumPresentAppend(a[1..], b, macros, n);
    } else {
      assert a + b == b;
    }
  }

  lemma {:induction false} SumPresentInsert<T(!new)>(x: T, s: seq<T>, key: T -> string, macros: T -> Macros, n: Nutrient)
    ensures SumPresent(Insert(x, s, key), macros, n) == Coalesce(Get(macros(x), n), 0.0) + SumPresent(s, macros, n)
  {
    if s != [] && !LexLe(key(s[0]), key(x)) {
      SumPresentInsert(x, s[1..], key, macros, n);
      assert ([s[0]] + Insert(x, s[1..], key))[1..] == Insert(x, s[1..], key);
    } else if s != [] {
      assert ([x] + s)[1..] == s;
    }
  }

  /** Reordering the rows does not change a column's sum. */
  lemma {:induction false} SumPresentSortDesc<T(!new)>(s: seq<T>, key: T -> string, macros: T -> Macros, n: Nutrient)
    ensures SumPresent(SortDesc(s, key), macros, n) == SumPresent(s, macros, n)
  {
    if s != [] {
      SumPresentSortDesc(s[1..], key, macros, n);
      SumPresentInsert(s[0], SortDesc(s[1..], key), key, macros, n);
    }
  }

  function TotalOf(s: Summary, n: Nutrient): real {
    match n
    case Calories => s.calories
    case Protein => s.protein
    case Carbs => s.carbs
    case Fat => s.fat
  }

  /** `summary_today` over the rows whose date prefix is `today`: each
      total is the sum of that column's non-NULL values (0 when there are
      none), and `scans` counts every such row, NULL nutrients or not. */
  function Summarize<T(!new)>(rows: seq<T>, key: T -> string, macros: T -> Macros, today: string): (r: Summary)
    ensures r.date == today
    ensures r.scans == |OnDate(rows, key, today)|
    ensures r.calories == SumPresent(OnDate(rows, key, today), macros, Calories)
    ensures r.protein == SumPresent(OnDate(rows, key, today), macros, Protein)
    ensures r.carbs == SumPresent(OnDate(rows, key, today), macros, Carbs)
    ensures r.fat == SumPresent(OnDate(rows, key, today), macros, Fat)
  {
    var day := OnDate(rows, key, today);
    CoalescedSumIsSumPresent(day, macros, Calories);
    CoalescedSumIsSumPresent(day, macros, Protein);
    CoalescedSumIsSumPresent(day, macros, Carbs);
    CoalescedSumIsSumPresent(day, macros, Fat);
    Summary(
      today,
      Coalesce(SqlSum(day, macros, Calories), 0.0),
      Coalesce(SqlSum(day, macros, Protein), 0.0),
      Coalesce(SqlSum(day, macros, Carbs), 0.0),
      Coalesce(SqlSum(day, macros, Fat), 0.0),
      |day|)
  }

  lemma TotalOfSummarize<T(!new)>(rows: seq<T>, key: T -> string, macros: T -> Macros, today: string, n: Nutrient)
    ensures TotalOf(Summarize(rows, key, macros, today), n) == SumPresent(OnDate(rows, key, today), macros, n)
  {
  }

  /** One more row changes the summary only if it is dated `today`: then
      the count goes up by one and each total by that row's value, if any. */
  lemma SummarizeAppend<T(!new)>(rows: seq<T>, x: T, key: T -> string, macros: T -> Macros, today: string)
    ensures var before := Summarize(rows, key, macros, today);
            var after := Summarize(rows + [x], key, macros, today);
            if DatePrefix(key(x)) == today then
              && after.scans == before.scans + 1
              && forall n :: TotalOf(after, n) == TotalOf(before, n) + Coalesce(Get(macros(x), n), 0.0)
            else after == before
  {
    var before := Summarize(rows, key, macros, today);
    var after := Summarize(rows + [x], key, macros, today);
    var day := OnDate(rows, key, today);
    var one := OnDate([x], key, today);
    OnDateAppend(rows, [x], key, today);
    OnDateSingle(x, key, today);
    assert after.scans == before.scans + |one|;
    forall n ensures TotalOf(after, n) == TotalOf(before, n) + SumPresent(one, macros, n) {
      TotalOfSummarize(rows, key, macros, today, n);
      TotalOfSummarize(rows + [x], key, macros, today, n);
      SumPresentAppend(day, one, macros, n);
    }
    if DatePrefix(key(x)) == today {
      forall n ensures SumPresent(one, macros, n) == Coalesce(Get(macros(x), n), 0.0) {
        SumPresentSingle(x, macros, n);
      }
    } else {
      SummaryExt(after, before);
    }
  }

  lemma OnDateSingle<T(!new)>(x: T, key: T -> string, date: string)
    ensures OnDate([x], key, date) == if DatePrefix(key(x)) == date then [x] else []
  {
    assert [x][1..] == [];
  }

  lemma SumPresentSingle<T(!new)>(x: T, macros: T -> Macros, n: Nutrient)
    ensures SumPresent([x], macros, n) == Coalesce(Get(macros(x), n), 0.0)
  {
    assert [x][1..] == [];
  }

  /** A step that adds a row with no nutrient values raises only the count. */
  lemma CountOnlyChange(before: Summary, after: Summary)
    requires after.date == before.date && after.scans == before.scans + 1
    requires forall n :: TotalOf(after, n) == TotalOf(before, n) + Coalesce(Get(NoMacros, n), 0.0)
    ensures after == before.(scans := before.scans + 1)
  {
    var counted := before.(scans := before.scans + 1);
    forall n ensures TotalOf(after, n) == TotalOf(counted, n) {
      assert TotalOf(after, n) == TotalOf(before, n) + Coalesce(Get(NoMacros, n), 0.0);
    }
    SummaryExt(after, counted);
  }

  /** Two summaries with the same date, count and totals are equal. */
  lemma SummaryExt(a: Summary, b: Summary)
    requires a.date == b.date && a.scans == b.scans
    requires forall n :: TotalOf(a, n) == TotalOf(b, n)
    ensures a == b
  {
    assert TotalOf(a, Calories) == TotalOf(b, Calories);
    assert TotalOf(a, Protein) == TotalOf(b, Protein);
    assert TotalOf(a, Carbs) == TotalOf(b, Carbs);
    assert TotalOf(a, Fat) == TotalOf(b, Fat);
  }

  /** When today's rows fit in one page, `list_scans?date=today` returns
      all of them, and its rows add up to the totals of `summary_today`. */
  lemma SummaryAgreesWithPage<T(!new)>(rows: seq<T>, key: T -> string, macros: T -> Macros, today: string)
    requires today != ""
    requires |OnDate(rows, key, today)| <= PageSize
    ensures |Page(rows, key, Some(today))| == Summarize(rows, key, macros, today).scans
    ensures forall n :: SumPresent(Page(rows, key, Some(today)), macros, n) == TotalOf(Summarize(rows, key, macros, today), n)
  {
    var day := OnDate(rows, key, today);
    assert Selected(rows, key, Some(today)) == day;
    var page := Page(rows, key, Some(today));
    assert page == SortDesc(day, key);
    forall n ensures SumPresent(page, macros, n) == TotalOf(Summarize(rows, key, macros, today), n) {
      SumPresentSortDesc(day, key, macros, n);
      TotalOfSummarize(rows, key, macros, today, n);
    }
  }

  // ---------------------------------------------------------------------------
  // Queries over a projection of the rows
  // ---------------------------------------------------------------------------

  /** `s` with `f` applied to every element. */
  function MapSeq<A, B>(s: seq<A>, f: A -> B): (r: seq<B>)
    ensures |r| == |s|
    ensures forall i :: 0 <= i < |s| ==> r[i] == f(s[i])
  {
    if s == [] then [] else [f(s[0])] + MapSeq(s[1..], f)
  }

  lemma MapSeqAppend<A, B>(a: seq<A>, b: seq<A>, f: A -> B)
    ensures MapSeq(a + b, f) == MapSeq(a, f) + MapSeq(b, f)
  {
  }

  /** Filtering by date commutes with a projection that keeps the timestamp. */
  lemma {:induction false} OnDateMap<A(!new), B(!new)>(s: seq<A>, f: A -> B, ka: A -> string, kb: B -> string, date: string)
    requires forall a :: kb(f(a)) == ka(a)
    ensures OnDate(MapSeq(s, f), kb, date) == MapSeq(OnDate(s, ka, date), f)
  {
    if s != [] {
      OnDateMap(s[1..], f, ka, kb, date);
      assert MapSeq(s, f)[1..] == MapSeq(s[1..], f);
      var head := if DatePrefix(ka(s[0])) == date then [s[0]] else [];
      MapSeqAppend(head, OnDate(s[1..], ka, date), f);
    }
  }

  lemma {:induction false} InsertMap<A(!new), B(!new)>(x: A, s: seq<A>, f: A -> B, ka: A -> string, kb: B -> string)
    requires forall a :: kb(f(a)) == ka(a)
    ensures Insert(f(x), MapSeq(s, f), kb) == MapSeq(Insert(x, s, ka), f)
  {
    if s != [] {
      assert MapSeq(s, f)[0] == f(s[0]);
      assert MapSeq(s, f)[1..] == MapSeq(s[1..], f);
      if !LexLe(ka(s[0]), ka(x)) {
        InsertMap(x, s[1..], f, ka, kb);
        MapSeqAppend([s[0]], Insert(x, s[1..], ka), f);
      } else {
        MapSeqAppend([x], s, f);
      }
    }
  }

  /** Sorting commutes with a projection that keeps the timestamp. */
  lemma {:induction false} SortDescMap<A(!new), B(!new)>(s: seq<A>, f: A -> B, ka: A -> string, kb: B -> string)
    requires forall a :: kb(f(a)) == ka(a)
    ensures SortDesc(MapSeq(s, f), kb) == MapSeq(SortDesc(s, ka), f)
  {
    if s != [] {
      assert MapSeq(s, f)[0] == f(s[0]);
      assert MapSeq(s, f)[1..] == MapSeq(s[1..], f);
      SortDescMap(s[1..], f, ka, kb);
      InsertMap(s[0], SortDesc(s[1..], ka), f, ka, kb);
    }
  }

  lemma TakeMap<A, B>(s: seq<A>, f: A -> B, n: nat)
    requires n <= |s|
    ensures MapSeq(s, f)[..n] == MapSeq(s[..n], f)
  {
  }

  lemma SelectedMap<A(!new), B(!new)>(s: seq<A>, f: A -> B, ka: A -> string, kb: B -> string, date: Option<string>)
    requires forall a :: kb(f(a)) == ka(a)
    ensures Selected(MapSeq(s, f), kb, date) == MapSeq(Selected(s, ka, date), f)
  {
    if Truthy(date) {
      OnDateMap(s, f, ka, kb, date.value);
    }
  }

  /** A page of the projected rows is the projection of the page. */
  lemma PageMap<A(!new), B(!new)>(s: seq<A>, f: A -> B, ka: A -> string, kb: B -> string, date: Option<string>)
    requires forall a :: kb(f(a)) == ka(a)
    ensures Page(MapSeq(s, f), kb, date) == MapSeq(Page(s, ka, date), f)
  {
    var sel := Selected(s, ka, date);
    SelectedMap(s, f, ka, kb, date);
    SortDescMap(sel, f, ka, kb);
    var all := SortDesc(sel, ka);
    TakeMap(all, f, if |all| <= PageSize then |all| else PageSize);
  }

  lemma {:induction false} SqlSumMap<A(!new), B(!new)>(s: seq<A>, f: A -> B, ma: A -> Macros, mb: B -> Macros, n: Nutrient)
    requires forall a :: mb(f(a)) == ma(a)
    ensures SqlSum(MapSeq(s, f), mb, n) == SqlSum(s, ma, n)
  {
    if s != [] {
      var t := MapSeq(s, f);
      assert t[0] == f(s[0]);
      assert t[1..] == MapSeq(s[1..], f);
      SqlSumMap(s[1..], f, ma, mb, n);
      assert SqlSum(t, mb, n) == SqlAdd(Get(mb(t[0]), n), SqlSum(t[1..], mb, n));
    }
  }

  /** The summary of the projected rows is the summary of the rows. */
  lemma SummarizeMap<A(!new), B(!new)>(s: seq<A>, f: A -> B, ka: A -> string, kb: B -> string,
                                        ma: A -> Macros, mb: B -> Macros, today: string)
    requires forall a :: kb(f(a)) == ka(a)
    requires forall a :: mb(f(a)) == ma(a)
    ensures Summarize(MapSeq(s, f), kb, mb, today) == Summarize(s, ka, ma, today)
  {
    OnDateMap(s, f, ka, kb, today);
    var day := OnDate(s, ka, today);
    SqlSumMap(day, f, ma, mb, Calories);
    SqlSumMap(day, f, ma, mb, Protein);
    SqlSumMap(day, f, ma, mb, Carbs);
    SqlSumMap(day, f, ma, mb, Fat);
  }
}
