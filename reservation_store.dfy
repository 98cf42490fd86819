/**
 * The write side of app/_lib/reservationActions.ts for single reservations:
 * check-out, check-in and delete, each a one-row update of the
 * reservations table, here a map from id to row held by a `Store` object.
 * A store failure the action catches becomes the error value it returns.
 */
module ReservationStore {
  import opened Wrappers
  import opened Records

  const CHECKOUT_ERROR: string := "There was an error while checking out"
  const CHECKIN_ERROR: string := "There was an error while checking in"

  /** The reservations table. */
  class Store {
    var rows: map<int, Reservation>

    /** Every row is filed under its own id. */
    ghost predicate Valid()
      reads this
    {
      forall id :: id in rows ==> rows[id].id == id
    }

    constructor (initial: map<int, Reservation>)
      requires forall id :: id in initial ==> initial[id].id == id
      ensures Valid() && rows == initial
    {
      rows := initial;
    }

    /**
     * `updateCheckout`: the row's status becomes `checked-out`. Updating a
     * missing id fails in the store, and the action returns its error.
     */
    method UpdateCheckout(id: int) returns (error: Option<string>)
      requires Valid()
      modifies this
      ensures Valid()
      ensures error.None? <==> id in old(rows)
      ensures error.Some? ==> error.value == CHECKOUT_ERROR && rows == old(rows)
      ensures error.None? ==> rows == old(rows)[id := old(rows)[id].(status := CheckedOut)]
    {
      if id !in rows {
        return Some(CHECKOUT_ERROR);
      }
      rows := rows[id := rows[id].(status := CheckedOut)];
      error := None;
    }

    /**
     * `updateCheckin`: the row's status becomes `checked-in`, and each of
     * breakfast, extras price and total price that is supplied overwrites
     * its column; one left undefined is not written.
     */
    method UpdateCheckin(id: int, hasBreakfast: Option<bool>, extrasPrice: Option<int>, totalPrice: Option<int>)
      returns (error: Option<string>)
      requires Valid()
      modifies this
      ensures Valid()
      ensures error.None? <==> id in old(rows)
      ensures error.Some? ==> error.value == CHECKIN_ERROR && rows == old(rows)
      ensures error.None? ==>
        && rows.Keys == old(rows).Keys
        && (forall other :: other in rows && other != id ==> rows[other] == old(rows)[other])
        && var was, now := old(rows)[id], rows[id];
           && now.status == CheckedIn
           && now.hasBreakfast == (if hasBreakfast.Some? then hasBreakfast.value else was.hasBreakfast)
           && now.extrasPrice == (if extrasPrice.Some? then extrasPrice.value else was.extrasPrice)
           && now.totalPrice == (if totalPrice.Some? then totalPrice.value else was.totalPrice)
           && now == was.(status := now.status, hasBreakfast := now.hasBreakfast,
                          extrasPrice := now.extrasPrice, totalPrice := now.totalPrice)
    {
      if id !in rows {
        return Some(CHECKIN_ERROR);
      }
      var row := rows[id];
      if hasBreakfast.Some? {
        row := row.(hasBreakfast := hasBreakfast.value);
      }
      if extrasPrice.Some? {
        row := row.(extrasPrice := extrasPrice.value);
      }
      if totalPrice.Some? {
        row := row.(totalPrice := totalPrice.value);
      }
      row := row.(status := CheckedIn);
      rows := rows[id := row];
      error := None;
    }

    /**
     * `deleteReservation`: removes the row with that id. Deleting a missing
     * id fails in the store; the action swallows the failure and the table
     * is unchanged.
     */
    method DeleteReservation(id: int)
      requires Valid()
      modifies this
      ensures Valid()
      ensures rows == old(rows) - {id}
    {
      if id in rows {
        rows := rows - {id};
      }
    }

    /** `getReservation`: the row with that id, or nothing when there is none. */
    function Get(id: int): (row: Option<Reservation>)
      reads this
      requires Valid()
      ensures row.Some? <==> id in rows
      ensures row.Some? ==> row.value == rows[id] && row.value.id == id
    {
      if id in rows then Some(rows[id]) else None
    }
  }
}
