/**
 * The read side of app/_lib/reservationActions.ts: the paginated, filtered
 * reservation list (`getReservations`) and the selection behind today's
 * arrivals and departures (`getStaysTodayActivity`), as in-memory queries
 * over the rows of the reservations table.
 */
module ReservationQuery {
  import opened Wrappers
  import opened Records

  /** Rows per page of the reservation list. */
  const PAGE_SIZE: nat := 10

  /** A `{ field, value }` filter: keep rows whose column `field` equals `value`. */
  datatype Filter = Filter(field: string, value: string)

  /** The `where`, `skip` and `take` handed to the store. */
  datatype Plan = Plan(where: Option<Filter>, skip: int, take: int)

  /** One page of rows and the number of rows matching the filter. */
  datatype Listing = Listing(reservations: seq<Reservation>, count: nat)

  // ---------------------------------------------------------------------
  // getReservations

  /** The store parameters built from the filter and the page number. */
  function BuildPlan(filter: Option<Filter>, page: int): (plan: Plan)
    ensures plan.where == filter && plan.take == PAGE_SIZE
    ensures page >= 1 ==> plan.skip == (page - 1) * PAGE_SIZE && plan.skip >= 0
    ensures page == 0 ==> plan.skip == 0
    ensures page < 0 ==> plan.skip < 0
  {
    Plan(filter, if page != 0 then (page - 1) * PAGE_SIZE else 0, PAGE_SIZE)
  }

  /** The string-valued columns a filter may name. */
  predicate IsStringColumn(field: string)
  {
    field == "status" || field == "observations"
  }

  /** The value of a string-valued column of a row. */
  function ColumnValue(r: Reservation, field: string): string
    requires IsStringColumn(field)
  {
    if field == "status" then r.status.Name() else r.observations
  }

  /** The store accepts this `where`: none, or one naming a string column. */
  predicate WhereAccepted(where: Option<Filter>)
  {
    where.None? || IsStringColumn(where.value.field)
  }

  /** Whether a row satisfies the `where` clause; an empty `where` holds of every row. */
  predicate Matches(r: Reservation, where: Option<Filter>)
    requires WhereAccepted(where)
    ensures where.None? ==> Matches(r, where)
    ensures forall status: Status :: where == Some(Filter("status", status.Name())) ==>
              (Matches(r, where) <==> r.status == status)
    ensures where.Some? && where.value.field == "observations" ==>
              (Matches(r, where) <==> r.observations == where.value.value)
  {
    match where
    case None => true
    case Some(f) => ColumnValue(r, f.field) == f.value
  }

  /** The rows satisfying `where`, in the store's order. */
  function Select(rows: seq<Reservation>, where: Option<Filter>): (selected: seq<Reservation>)
    requires WhereAccepted(where)
    ensures |selected| <= |rows|
    ensures forall r :: r in selected <==> r in rows && Matches(r, where)
  {
    if rows == [] then []
    else if Matches(rows[0], where) then [rows[0]] + Select(rows[1..], where)
    else Select(rows[1..], where)
  }

  /** At most `take` rows starting at `skip`. */
  function Window(rows: seq<Reservation>, skip: nat, take: nat): (window: seq<Reservation>)
    ensures |window| == if skip + take <= |rows| then take else if skip <= |rows| then |rows| - skip else 0
    ensures forall i :: 0 <= i < |window| ==> window[i] == rows[skip + i]
  {
    if skip >= |rows| then []
    else if skip + take <= |rows| then rows[skip..skip + take]
    else rows[skip..]
  }

  /** Conditions under which the store rejects the query and the action returns its fallback. */
  predicate QueryFails(store: Option<seq<Reservation>>, filter: Option<Filter>, page: int)
  {
    store.None? || !WhereAccepted(filter) || BuildPlan(filter, page).skip < 0
  }

  /**
   * `getReservations`. `store` holds the rows already in the order the
   * requested sort gives them, or is `None` when the store cannot be reached.
   * A rejected query yields an empty page and a zero count.
   */
  function GetReservations(store: Option<seq<Reservation>>, filter: Option<Filter>, page: int): (result: Listing)
    ensures QueryFails(store, filter, page) ==> result == Listing([], 0)
    ensures |result.reservations| <= PAGE_SIZE
    ensures forall r :: r in result.reservations ==> store.Some? && r in store.value && Matches(r, filter)
  {
    var plan := BuildPlan(filter, page);
    if store.None? || !WhereAccepted(plan.where) || plan.skip < 0 then Listing([], 0)
    else
      var matching := Select(store.value, plan.where);
      Listing(Window(matching, plan.skip, plan.take), |matching|)
  }

  /** Page `page` (from 1) is the slice of the matching rows starting at `(page - 1) * PAGE_SIZE`. */
  lemma GetReservationsPage(rows: seq<Reservation>, filter: Option<Filter>, page: int)
    requires WhereAccepted(filter) && page >= 1
    ensures var matching := Select(rows, filter);
            var result := GetReservations(Some(rows), filter, page);
            var from := (page - 1) * PAGE_SIZE;
            && result.count == |matching|
            && (from >= |matching| ==> result.reservations == [])
            && (from < |matching| ==>
                  var to := if from + PAGE_SIZE <= |matching| then from + PAGE_SIZE else |matching|;
                  result.reservations == matching[from..to])
  {
  }

  /** The count does not depend on the page asked for. */
  lemma CountIndependentOfPage(store: Option<seq<Reservation>>, filter: Option<Filter>, p: int, q: int)
    requires !QueryFails(store, filter, p) && !QueryFails(store, filter, q)
    ensures GetReservations(store, filter, p).count == GetReservations(store, filter, q).count
  {
  }

  /** A negative page makes the skip negative; the store rejects the query and nothing is counted. */
  lemma NegativePageCountsZero(store: Option<seq<Reservation>>, filter: Option<Filter>, p: int)
    requires p < 0
    ensures GetReservations(store, filter, p) == Listing([], 0)
  {
  }

  /** Without a filter every row is counted and eligible, in the store's order. */
  lemma {:induction false} NoFilterSelectsAll(rows: seq<Reservation>)
    ensures Select(rows, None) == rows
  {
    if rows != [] {
      NoFilterSelectsAll(rows[1..]);
      assert [rows[0]] + rows[1..] == rows;
    }
  }

  /** The matching rows keep their relative order: selection commutes with concatenation. */
  lemma {:induction false} SelectAppend(a: seq<Reservation>, b: seq<Reservation>, where: Option<Filter>)
    requires WhereAccepted(where)
    ensures Select(a + b, where) == Select(a, where) + Select(b, where)
  {
    if a == [] {
      assert a + b == b;
    } else {
      var ab := a + b;
      assert ab[0] == a[0] && ab[1..] == a[1..] + b;
      SelectAppend(a[1..], b, where);
      if Matches(a[0], where) {
        calc {
          Select(ab, where);
          [a[0]] + Select(a[1..] + b, where);
          [a[0]] + (Select(a[1..], where) + Select(b, where));
          ([a[0]] + Select(a[1..], where)) + Select(b, where);
        }
      }
    }
  }

  /** Consecutive pages tile the matching rows: the first `n` pages together are their first `n * PAGE_SIZE`, or all of them. */
  lemma {:induction false} PagesTile(matching: seq<Reservation>, n: nat)
    ensures Pages(matching, n) == matching[..if n * PAGE_SIZE <= |matching| then n * PAGE_SIZE else |matching|]
  {
    if n > 0 {
      PagesTile(matching, n - 1);
      var from := (n - 1) * PAGE_SIZE;
      if n * PAGE_SIZE <= |matching| {
        assert matching[..from] + matching[from..n * PAGE_SIZE] == matching[..n * PAGE_SIZE];
      } else if from < |matching| {
        assert matching[..from] + matching[from..] == matching[..|matching|];
      } else {
        assert Window(matching, from, PAGE_SIZE) == [];
      }
    }
  }

  /** Page 0 (the source's falsy page) is the first page. */
  lemma PageZeroIsPageOne(store: Option<seq<Reservation>>, filter: Option<Filter>)
    ensures GetReservations(store, filter, 0) == GetReservations(store, filter, 1)
    ensures !QueryFails(store, filter, 0) ==>
              GetReservations(store, filter, 0).reservations == Window(Select(store.value, filter), 0, PAGE_SIZE)
  {
  }

  /** The first `n` windows, concatenated. */
  ghost function Pages(matching: seq<Reservation>, n: nat): seq<Reservation>
  {
    if n == 0 then [] else Pages(matching, n - 1) + Window(matching, (n - 1) * PAGE_SIZE, PAGE_SIZE)
  }

  /** With 25 matching rows, page 3 holds the last 5 of them and the count is 25. */
  lemma ThirdPageOfTwentyFive(rows: seq<Reservation>, filter: Option<Filter>)
    requires WhereAccepted(filter) && |Select(rows, filter)| == 25
    ensures var result := GetReservations(Some(rows), filter, 3);
            result.count == 25 && result.reservations == Select(rows, filter)[20..25]
  {
  }

  // ---------------------------------------------------------------------
  // getStaysTodayActivity

  /**
   * The `where` of today's activity: a guest's reservation that is still
   * unconfirmed and starts today, or is checked in and ends today.
   */
  predicate IsTodayActivity(r: Reservation, roles: map<int, Role>, today: int)
    ensures IsTodayActivity(r, roles, today) ==> r.userId in roles && roles[r.userId] == Guest
    ensures IsTodayActivity(r, roles, today) ==> r.status != CheckedOut
    ensures IsTodayActivity(r, roles, today) && r.startDate != today ==> r.status == CheckedIn && r.endDate == today
    ensures IsTodayActivity(r, roles, today) && r.endDate != today ==> r.status == Unconfirmed && r.startDate == today
  {
    && r.userId in roles && roles[r.userId] == Guest
    && ((r.status == Unconfirmed && r.startDate == today) || (r.status == CheckedIn && r.endDate == today))
  }

  /** The rows of today's activity, in the store's order. */
  function ActivityRows(rows: seq<Reservation>, roles: map<int, Role>, today: int): (selected: seq<Reservation>)
    ensures multiset(selected) <= multiset(rows)
    ensures forall r :: r in selected <==> r in rows && IsTodayActivity(r, roles, today)
    ensures forall r :: multiset(selected)[r] == if IsTodayActivity(r, roles, today) then multiset(rows)[r] else 0
  {
    if rows == [] then []
    else if IsTodayActivity(rows[0], roles, today) then
      assert rows == [rows[0]] + rows[1..];
      [rows[0]] + ActivityRows(rows[1..], roles, today)
    else
      assert rows == [rows[0]] + rows[1..];
      ActivityRows(rows[1..], roles, today)
  }

  /** Rows in ascending order of creation. */
  predicate SortedByCreation(rows: seq<Reservation>)
  {
    forall i, j :: 0 <= i < j < |rows| ==> rows[i].createdAt <= rows[j].createdAt
  }

  /** Prepending a row created no later than every other keeps the order. */
  lemma SortedCons(h: Reservation, rows: seq<Reservation>)
    requires SortedByCreation(rows)
    requires forall y :: y in rows ==> h.createdAt <= y.createdAt
    ensures SortedByCreation([h] + rows)
  {
    forall i, j | 0 <= i < j < |[h] + rows|
      ensures ([h] + rows)[i].createdAt <= ([h] + rows)[j].createdAt
    {
      if i > 0 {
        assert ([h] + rows)[i] == rows[i - 1];
      }
      assert ([h] + rows)[j] == rows[j - 1];
    }
  }

  /** Inserts `x` before the first row created no earlier than it. */
  function InsertByCreation(x: Reservation, rows: seq<Reservation>): (r: seq<Reservation>)
    ensures multiset(r) == multiset(rows) + multiset{x}
  {
    if rows == [] || x.createdAt <= rows[0].createdAt then [x] + rows
    else
      assert rows == [rows[0]] + rows[1..];
      [rows[0]] + InsertByCreation(x, rows[1..])
  }

  /** Inserting into rows in creation order keeps them in creation order. */
  lemma {:induction false} InsertKeepsOrder(x: Reservation, rows: seq<Reservation>)
    requires SortedByCreation(rows)
    ensures SortedByCreation(InsertByCreation(x, rows))
  {
    if rows == [] || x.createdAt <= rows[0].createdAt {
      forall y | y in rows ensures x.createdAt <= y.createdAt {
        var i :| 0 <= i < |rows| && rows[i] == y;
        assert rows[0].createdAt <= rows[i].createdAt;
      }
      SortedCons(x, rows);
    } else {
      var h, tail := rows[0], rows[1..];
      assert rows == [h] + tail;
      var rest := InsertByCreation(x, tail);
      InsertKeepsOrder(x, tail);
      forall y | y in rest ensures h.createdAt <= y.createdAt {
        assert y in multiset(rest);
        if y != x {
          assert y in multiset(tail);
          var i :| 0 <= i < |tail| && tail[i] == y;
          assert rows[i + 1] == y;
        }
      }
      SortedCons(h, rest);
    }
  }

  /** `orderBy: { createdAt: "asc" }`. */
  function SortByCreation(rows: seq<Reservation>): (sorted: seq<Reservation>)
    ensures SortedByCreation(sorted)
    ensures multiset(sorted) == multiset(rows)
  {
    if rows == [] then []
    else
      assert rows == [rows[0]] + rows[1..];
      var rest := SortByCreation(rows[1..]);
      InsertKeepsOrder(rows[0], rest);
      InsertByCreation(rows[0], rest)
  }

  /** `getStaysTodayActivity`: today's arrivals and departures, oldest booking first. */
  function StaysTodayActivity(rows: seq<Reservation>, roles: map<int, Role>, today: int): (activity: seq<Reservation>)
    ensures SortedByCreation(activity)
    ensures forall r :: r in activity <==> r in rows && IsTodayActivity(r, roles, today)
    ensures multiset(activity) <= multiset(rows)
    ensures forall r :: multiset(activity)[r] == if IsTodayActivity(r, roles, today) then multiset(rows)[r] else 0
  {
    var selected := ActivityRows(rows, roles, today);
    var sorted := SortByCreation(selected);
    assert forall r :: r in sorted <==> r in selected by {
      forall r ensures r in sorted <==> r in selected {
        assert r in sorted <==> r in multiset(sorted);
        assert r in selected <==> r in multiset(selected);
      }
    }
    sorted
  }

  /** A checked-out stay, or an admin's, is never part of today's activity. */
  lemma ActivityExcludes(rows: seq<Reservation>, roles: map<int, Role>, today: int, r: Reservation)
    requires r.status == CheckedOut || (r.userId in roles && roles[r.userId] == Admin)
    ensures r !in StaysTodayActivity(rows, roles, today)
  {
  }

}
