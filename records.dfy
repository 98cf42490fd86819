/**
 * The stored shapes shared by the seeding, query and update code:
 * a reservation's lifecycle status, a user's role and a reservation row.
 * Dates and timestamps are whole day numbers (or, for `createdAt`, any
 * totally ordered instant); money is an integer amount.
 */
module Records {

  /** The three lifecycle states a reservation's `status` column holds. */
  datatype Status = Unconfirmed | CheckedIn | CheckedOut {

    /** The string stored in the `status` column. */
    function Name(): (s: string)
      ensures s == "unconfirmed" <==> this == Unconfirmed
      ensures s == "checked-in" <==> this == CheckedIn
      ensures s == "checked-out" <==> this == CheckedOut
    {
      match this
      case Unconfirmed => "unconfirmed"
      case CheckedIn => "checked-in"
      case CheckedOut => "checked-out"
    }
  }

  /** The `role` column of a user. */
  datatype Role = Admin | Guest

  /** A row of the reservations table. */
  datatype Reservation = Reservation(
    id: int,
    createdAt: int,
    startDate: int,
    endDate: int,
    numNights: int,
    numGuests: int,
    cabinPrice: int,
    extrasPrice: int,
    totalPrice: int,
    status: Status,
    hasBreakfast: bool,
    isPaid: bool,
    observations: string,
    cabinId: int,
    userId: int)

}
