/**
 * Enrichment of the bundled dummy reservations before they are written to
 * the store (`createReservations` in app/_utils/serverHelpers.ts). Each seed
 * row is priced against the seed cabin it names, given a cabin id and a
 * user id round-robin from the ids already in the store, and given a
 * lifecycle status derived from its dates and today; seeds whose cabin
 * cannot be found are dropped, and an unusable id aborts the whole batch.
 */
module Seeding {
  import opened Wrappers
  import opened Records

  /** A row of the dummy reservation data, as bundled with the application. */
  datatype SeedReservation = SeedReservation(
    startDate: int,
    endDate: int,
    cabinId: int,
    numGuests: int,
    hasBreakfast: bool,
    isPaid: bool,
    observations: string)

  /** The prices of a row of the dummy cabin data. */
  datatype SeedCabin = SeedCabin(regularPrice: int, discount: int)

  /** A seed row spread into a new record with its derived fields overwritten. */
  datatype NewReservation = NewReservation(
    startDate: int,
    endDate: int,
    numGuests: int,
    hasBreakfast: bool,
    isPaid: bool,
    observations: string,
    numNights: int,
    cabinPrice: int,
    extrasPrice: int,
    totalPrice: int,
    cabinId: int,
    userId: int,
    status: Status)

  /** What the per-seed callback of the `map` produces: `null`, a thrown error, or a record. */
  datatype Outcome = Dropped | Thrown | Enriched(row: NewReservation)

  /** Breakfast price per guest per night, fixed in the enrichment code. */
  const BREAKFAST_PRICE: int := 15

  /** `Array.prototype.at`: a negative index counts back from the end. */
  function At<T>(s: seq<T>, i: int): (r: Option<T>)
    ensures r.Some? <==> -|s| <= i < |s|
    ensures r.Some? ==> r.value == s[(i + |s|) % |s|]
  {
    if 0 <= i < |s| then Some(s[i])
    else if -|s| <= i < 0 then Some(s[|s| + i])
    else None
  }

  /**
   * `ids?.at(index % ids.length)`: on an empty (or missing) list the
   * remainder is NaN, which `at` reads as 0, giving `undefined`.
   */
  function RoundRobin(ids: seq<int>, index: nat): (id: Option<int>)
    ensures id.Some? <==> |ids| > 0
    ensures id.Some? ==> id.value == ids[index % |ids|]
  {
    if |ids| == 0 then None else At(ids, index % |ids|)
  }

  /** JavaScript truthiness of an optional numeric id. */
  predicate Truthy(id: Option<int>)
  {
    id.Some? && id.value != 0
  }

  /**
   * The status given to a seed: `unconfirmed`, overwritten by `checked-out`
   * when the stay ended before today, then by `checked-in` when it started
   * before today and ends today or later.
   */
  function DeriveStatus(startDate: int, endDate: int, today: int): (s: Status)
    ensures s == CheckedOut <==> endDate < today
    ensures s == CheckedIn <==> startDate < today <= endDate
    ensures s == Unconfirmed <==> today <= startDate && today <= endDate
  {
    var initial := Unconfirmed;
    var afterCheckout := if endDate < today then CheckedOut else initial;
    if today <= endDate && startDate < today then CheckedIn else afterCheckout
  }

  /** The callback of the `map` applied to the seed at position `index`. */
  function EnrichSeed(seed: SeedReservation, index: nat, cabins: seq<SeedCabin>,
                      cabinIds: seq<int>, userIds: seq<int>, today: int): (o: Outcome)
    ensures o.Dropped? <==> At(cabins, seed.cabinId - 1).None?
    ensures o.Thrown? <==>
      && At(cabins, seed.cabinId - 1).Some?
      && (|cabinIds| == 0 || cabinIds[index % |cabinIds|] == 0 || |userIds| == 0 || userIds[index % |userIds|] == 0)
    ensures o.Enriched? ==>
      EnrichedFrom(o.row, seed, index, At(cabins, seed.cabinId - 1).value, cabinIds, userIds, today)
  {
    var numNights := seed.endDate - seed.startDate;
    match At(cabins, seed.cabinId - 1)
    case None => Dropped
    case Some(cabin) =>
      var cabinPrice := numNights * (cabin.regularPrice - cabin.discount);
      var extrasPrice := if seed.hasBreakfast then numNights * BREAKFAST_PRICE * seed.numGuests else 0;
      var totalPrice := cabinPrice + extrasPrice;
      var cabinId := RoundRobin(cabinIds, index);
      var userId := RoundRobin(userIds, index);
      if !Truthy(cabinId) || !Truthy(userId) then Thrown
      else
        var status := DeriveStatus(seed.startDate, seed.endDate, today);
        Enriched(NewReservation(
          seed.startDate, seed.endDate, seed.numGuests, seed.hasBreakfast, seed.isPaid, seed.observations,
          numNights, cabinPrice, extrasPrice, totalPrice, cabinId.value, userId.value, status))
  }

  /** The `.filter(reservation => reservation !== null)` step. */
  function Rows(outcomes: seq<Outcome>): (r: seq<NewReservation>)
    ensures |r| <= |outcomes|
    ensures (forall i :: 0 <= i < |outcomes| ==> !outcomes[i].Enriched?) ==> r == []
  {
    if outcomes == [] then []
    else
      var head := match outcomes[0] case Enriched(row) => [row] case _ => [];
      head + Rows(outcomes[1..])
  }

  /** The per-seed outcomes of the `map`, in seed order. */
  function Outcomes(seeds: seq<SeedReservation>, cabins: seq<SeedCabin>,
                    cabinIds: seq<int>, userIds: seq<int>, today: int): (o: seq<Outcome>)
  {
    seq(|seeds|, i requires 0 <= i < |seeds| => EnrichSeed(seeds[i], i, cabins, cabinIds, userIds, today))
  }

  /**
   * `createReservations`: the enriched seeds, without the dropped ones; a
   * throw in any callback is caught and yields the empty list.
   */
  function CreateReservations(seeds: seq<SeedReservation>, cabins: seq<SeedCabin>,
                              cabinIds: seq<int>, userIds: seq<int>, today: int): (r: seq<NewReservation>)
    ensures |r| <= |seeds|
  {
    var outcomes := Outcomes(seeds, cabins, cabinIds, userIds, today);
    if exists i :: 0 <= i < |outcomes| && outcomes[i].Thrown? then []
    else Rows(outcomes)
  }

  // ---------------------------------------------------------------------
  // What an output record is, stated without the enrichment code.

  /** The seed at `k` names a cabin that the lookup finds. */
  ghost predicate CabinFound(seeds: seq<SeedReservation>, k: int, cabins: seq<SeedCabin>)
  {
    0 <= k < |seeds| && -|cabins| < seeds[k].cabinId <= |cabins|
  }

  /** The cabin the seed at `k` is priced against. */
  ghost function CabinOf(seeds: seq<SeedReservation>, k: int, cabins: seq<SeedCabin>): SeedCabin
    requires CabinFound(seeds, k, cabins)
  {
    var i := seeds[k].cabinId - 1;
    if i >= 0 then cabins[i] else cabins[|cabins| + i]
  }

  /** `row` is `seed`, at position `k`, priced against `cabin`, assigned its ids and given its status. */
  ghost predicate EnrichedFrom(row: NewReservation, seed: SeedReservation, k: nat, cabin: SeedCabin,
                               cabinIds: seq<int>, userIds: seq<int>, today: int)
  {
    // fields copied from the seed
    && row.startDate == seed.startDate && row.endDate == seed.endDate
    && row.numGuests == seed.numGuests && row.hasBreakfast == seed.hasBreakfast
    && row.isPaid == seed.isPaid && row.observations == seed.observations
    // prices
    && row.numNights == seed.endDate - seed.startDate
    && row.cabinPrice == row.numNights * (cabin.regularPrice - cabin.discount)
    && row.extrasPrice == (if seed.hasBreakfast then row.numNights * 15 * seed.numGuests else 0)
    && row.totalPrice == row.cabinPrice + row.extrasPrice
    // round-robin ids
    && |cabinIds| > 0 && |userIds| > 0
    && row.cabinId == cabinIds[k % |cabinIds|]
    && row.cabinId != 0
    && row.userId == userIds[k % |userIds|]
    && row.userId != 0
    // status
    && (row.status == CheckedOut <==> seed.endDate < today)
    && (row.status == CheckedIn <==> seed.startDate < today <= seed.endDate)
    && (row.status == Unconfirmed <==> today <= seed.startDate && today <= seed.endDate)
  }

  /** `row` is the seed at `k`, priced, assigned and given its status. */
  ghost predicate Describes(row: NewReservation, seeds: seq<SeedReservation>, k: int, cabins: seq<SeedCabin>,
                            cabinIds: seq<int>, userIds: seq<int>, today: int)
  {
    && CabinFound(seeds, k, cabins)
    && EnrichedFrom(row, seeds[k], k, CabinOf(seeds, k, cabins), cabinIds, userIds, today)
  }

  /** `row` describes some seed. */
  ghost predicate DescribesSome(row: NewReservation, seeds: seq<SeedReservation>, cabins: seq<SeedCabin>,
                                cabinIds: seq<int>, userIds: seq<int>, today: int)
  {
    exists k :: Describes(row, seeds, k, cabins, cabinIds, userIds, today)
  }

  /** Every record of `r` describes some seed. */
  ghost predicate AllDescribed(r: seq<NewReservation>, seeds: seq<SeedReservation>, cabins: seq<SeedCabin>,
                               cabinIds: seq<int>, userIds: seq<int>, today: int)
  {
    forall j :: 0 <= j < |r| ==> DescribesSome(r[j], seeds, cabins, cabinIds, userIds, today)
  }

  /** No seed whose cabin is found gets a missing or zero id. */
  ghost predicate IdsUsable(seeds: seq<SeedReservation>, cabins: seq<SeedCabin>, cabinIds: seq<int>, userIds: seq<int>)
  {
    forall k :: CabinFound(seeds, k, cabins) ==>
      && |cabinIds| > 0 && cabinIds[k % |cabinIds|] != 0
      && |userIds| > 0 && userIds[k % |userIds|] != 0
  }

  // ---------------------------------------------------------------------
  // Lemmas

  /** The cabin lookup succeeds exactly on `CabinFound`, and finds `CabinOf`. */
  lemma LookupFindsCabin(seeds: seq<SeedReservation>, k: int, cabins: seq<SeedCabin>)
    requires 0 <= k < |seeds|
    ensures At(cabins, seeds[k].cabinId - 1).Some? <==> CabinFound(seeds, k, cabins)
    ensures CabinFound(seeds, k, cabins) ==> At(cabins, seeds[k].cabinId - 1) == Some(CabinOf(seeds, k, cabins))
  {
  }

  /** A cabin id of 0 looks up the last seed cabin rather than being dropped. */
  lemma ZeroCabinIdPicksLastCabin(seeds: seq<SeedReservation>, k: int, cabins: seq<SeedCabin>)
    requires 0 <= k < |seeds| && seeds[k].cabinId == 0 && |cabins| > 0
    ensures CabinFound(seeds, k, cabins) && CabinOf(seeds, k, cabins) == cabins[|cabins| - 1]
  {
  }

  /** The callback's three outcomes, stated through the specification predicates. */
  lemma EnrichSeedOutcome(seeds: seq<SeedReservation>, k: nat, cabins: seq<SeedCabin>,
                          cabinIds: seq<int>, userIds: seq<int>, today: int)
    requires k < |seeds|
    ensures var o := EnrichSeed(seeds[k], k, cabins, cabinIds, userIds, today);
      && (o.Dropped? <==> !CabinFound(seeds, k, cabins))
      && (o.Thrown? <==>
            && CabinFound(seeds, k, cabins)
            && (|cabinIds| == 0 || cabinIds[k % |cabinIds|] == 0 || |userIds| == 0 || userIds[k % |userIds|] == 0))
      && (o.Enriched? ==> Describes(o.row, seeds, k, cabins, cabinIds, userIds, today))
  {
  }

  /** The null filter keeps records in order: it distributes over concatenation. */
  lemma {:induction false} RowsAppend(a: seq<Outcome>, b: seq<Outcome>)
    ensures Rows(a + b) == Rows(a) + Rows(b)
  {
    if a == [] {
      assert a + b == b;
    } else {
      var ab := a + b;
      assert ab[0] == a[0] && ab[1..] == a[1..] + b;
      RowsAppend(a[1..], b);
      var head := match a[0] case Enriched(row) => [row] case _ => [];
      calc {
        Rows(ab);
        head + Rows(a[1..] + b);
        head + (Rows(a[1..]) + Rows(b));
        (head + Rows(a[1..])) + Rows(b);
      }
    }
  }

  /** Every record kept by the null filter came from some outcome. */
  lemma {:induction false} RowsSound(outcomes: seq<Outcome>, j: int)
    requires 0 <= j < |Rows(outcomes)|
    ensures exists i :: 0 <= i < |outcomes| && outcomes[i] == Enriched(Rows(outcomes)[j])
  {
    var head := match outcomes[0] case Enriched(row) => [row] case _ => [];
    assert Rows(outcomes) == head + Rows(outcomes[1..]);
    if j < |head| {
      assert outcomes[0] == Enriched(Rows(outcomes)[j]);
    } else {
      RowsSound(outcomes[1..], j - |head|);
      var i :| 0 <= i < |outcomes[1..]| && outcomes[1..][i] == Enriched(Rows(outcomes[1..])[j - |head|]);
      assert outcomes[i + 1] == Enriched(Rows(outcomes)[j]);
    }
  }

  /** Every record produced by the `map` survives the null filter. */
  lemma {:induction false} RowsComplete(outcomes: seq<Outcome>, i: int)
    requires 0 <= i < |outcomes| && outcomes[i].Enriched?
    ensures outcomes[i].row in Rows(outcomes)
  {
    var head := match outcomes[0] case Enriched(row) => [row] case _ => [];
    assert Rows(outcomes) == head + Rows(outcomes[1..]);
    if i > 0 {
      RowsComplete(outcomes[1..], i - 1);
      assert outcomes[1..][i - 1] == outcomes[i];
    }
  }

  /** The null filter keeps exactly the records: its length is their number. */
  lemma RowsCount(outcomes: seq<Outcome>)
    ensures |Rows(outcomes)| == |set i | 0 <= i < |outcomes| && outcomes[i].Enriched?|
  {
    RowsCountFrom(outcomes, 0);
    assert outcomes[0..] == outcomes;
  }

  /** `RowsCount` for the suffix of `outcomes` that starts at `lo`. */
  lemma {:induction false} RowsCountFrom(outcomes: seq<Outcome>, lo: nat)
    requires lo <= |outcomes|
    ensures |Rows(outcomes[lo..])| == |set i | lo <= i < |outcomes| && outcomes[i].Enriched?|
    decreases |outcomes| - lo
  {
    var here := set i | lo <= i < |outcomes| && outcomes[i].Enriched?;
    if lo < |outcomes| {
      RowsCountFrom(outcomes, lo + 1);
      var later := set i | lo + 1 <= i < |outcomes| && outcomes[i].Enriched?;
      assert outcomes[lo..][1..] == outcomes[lo + 1..];
      if outcomes[lo].Enriched? {
        assert here == {lo} + later;
      } else {
        assert here == later;
      }
    } else {
      assert here == {};
    }
  }

  /** Each output record is the enrichment of some seed whose cabin was found. */
  lemma CreateReservationsSound(seeds: seq<SeedReservation>, cabins: seq<SeedCabin>,
                                cabinIds: seq<int>, userIds: seq<int>, today: int)
    ensures AllDescribed(CreateReservations(seeds, cabins, cabinIds, userIds, today), seeds, cabins, cabinIds, userIds, today)
  {
    var r := CreateReservations(seeds, cabins, cabinIds, userIds, today);
    var outcomes := Outcomes(seeds, cabins, cabinIds, userIds, today);
    if r == [] {
      assert AllDescribed(r, seeds, cabins, cabinIds, userIds, today);
    } else {
      assert r == Rows(outcomes);
      RowsDescribed(seeds, cabins, cabinIds, userIds, today);
    }
  }

  /** Every record kept by the null filter describes the seed it was mapped from. */
  lemma RowsDescribed(seeds: seq<SeedReservation>, cabins: seq<SeedCabin>,
                      cabinIds: seq<int>, userIds: seq<int>, today: int)
    ensures AllDescribed(Rows(Outcomes(seeds, cabins, cabinIds, userIds, today)), seeds, cabins, cabinIds, userIds, today)
  {
    var rows := Rows(Outcomes(seeds, cabins, cabinIds, userIds, today));
    forall j | 0 <= j < |rows|
      ensures DescribesSome(rows[j], seeds, cabins, cabinIds, userIds, today)
    {
      KeptRowDescribesSeed(seeds, cabins, cabinIds, userIds, today, j);
    }
  }

  /** The j-th record kept by the null filter describes the seed it was mapped from. */
  lemma KeptRowDescribesSeed(seeds: seq<SeedReservation>, cabins: seq<SeedCabin>,
                             cabinIds: seq<int>, userIds: seq<int>, today: int, j: nat)
    requires j < |Rows(Outcomes(seeds, cabins, cabinIds, userIds, today))|
    ensures DescribesSome(Rows(Outcomes(seeds, cabins, cabinIds, userIds, today))[j],
                          seeds, cabins, cabinIds, userIds, today)
  {
    var outcomes := Outcomes(seeds, cabins, cabinIds, userIds, today);
    RowsSound(outcomes, j);
    var k :| 0 <= k < |outcomes| && outcomes[k] == Enriched(Rows(outcomes)[j]);
    EnrichSeedOutcome(seeds, k, cabins, cabinIds, userIds, today);
  }

  /** When every found seed gets usable ids, every seed whose cabin is found appears in the output, enriched. */
  lemma CreateReservationsComplete(seeds: seq<SeedReservation>, cabins: seq<SeedCabin>,
                                   cabinIds: seq<int>, userIds: seq<int>, today: int, k: int)
    requires IdsUsable(seeds, cabins, cabinIds, userIds) && CabinFound(seeds, k, cabins)
    ensures var r := CreateReservations(seeds, cabins, cabinIds, userIds, today);
            exists j :: 0 <= j < |r| && Describes(r[j], seeds, k, cabins, cabinIds, userIds, today)
  {
    var r := CreateReservations(seeds, cabins, cabinIds, userIds, today);
    var outcomes := Outcomes(seeds, cabins, cabinIds, userIds, today);
    forall i | 0 <= i < |outcomes|
      ensures !outcomes[i].Thrown?
    {
      EnrichSeedOutcome(seeds, i, cabins, cabinIds, userIds, today);
    }
    assert r == Rows(outcomes);
    EnrichSeedOutcome(seeds, k, cabins, cabinIds, userIds, today);
    RowsComplete(outcomes, k);
    var j :| 0 <= j < |r| && r[j] == outcomes[k].row;
  }

  /** A found seed whose round-robin cabin or guest id is missing or zero throws, and nothing is created. */
  lemma UnusableIdYieldsNothing(seeds: seq<SeedReservation>, cabins: seq<SeedCabin>,
                                cabinIds: seq<int>, userIds: seq<int>, today: int)
    requires !IdsUsable(seeds, cabins, cabinIds, userIds)
    ensures CreateReservations(seeds, cabins, cabinIds, userIds, today) == []
  {
    var outcomes := Outcomes(seeds, cabins, cabinIds, userIds, today);
    var k :| CabinFound(seeds, k, cabins) &&
      !(|cabinIds| > 0 && cabinIds[k % |cabinIds|] != 0 && |userIds| > 0 && userIds[k % |userIds|] != 0);
    EnrichSeedOutcome(seeds, k, cabins, cabinIds, userIds, today);
    assert outcomes[k].Thrown?;
  }

  /** With no cabin ids or no guest ids, nothing is created. */
  lemma EmptyIdListYieldsNothing(seeds: seq<SeedReservation>, cabins: seq<SeedCabin>,
                                 cabinIds: seq<int>, userIds: seq<int>, today: int)
    requires |cabinIds| == 0 || |userIds| == 0
    ensures CreateReservations(seeds, cabins, cabinIds, userIds, today) == []
  {
    var outcomes := Outcomes(seeds, cabins, cabinIds, userIds, today);
    if exists k :: CabinFound(seeds, k, cabins) {
      UnusableIdYieldsNothing(seeds, cabins, cabinIds, userIds, today);
    } else {
      forall i | 0 <= i < |outcomes|
        ensures !outcomes[i].Enriched?
      {
        EnrichSeedOutcome(seeds, i, cabins, cabinIds, userIds, today);
      }
    }
  }

  /** When nothing throws, the output has one record per seed whose cabin is found. */
  lemma CreateReservationsCount(seeds: seq<SeedReservation>, cabins: seq<SeedCabin>,
                                cabinIds: seq<int>, userIds: seq<int>, today: int)
    requires IdsUsable(seeds, cabins, cabinIds, userIds)
    ensures |CreateReservations(seeds, cabins, cabinIds, userIds, today)| ==
            |set k | 0 <= k < |seeds| && CabinFound(seeds, k, cabins)|
  {
    var outcomes := Outcomes(seeds, cabins, cabinIds, userIds, today);
    forall i | 0 <= i < |outcomes|
      ensures !outcomes[i].Thrown?
      ensures outcomes[i].Enriched? <==> CabinFound(seeds, i, cabins)
    {
      EnrichSeedOutcome(seeds, i, cabins, cabinIds, userIds, today);
    }
    RowsCount(outcomes);
    assert (set i | 0 <= i < |outcomes| && outcomes[i].Enriched?) ==
           (set k | 0 <= k < |seeds| && CabinFound(seeds, k, cabins));
  }

  /** The three worked dates: ended before today, spanning today, starting after today. */
  lemma StatusExamples()
    ensures DeriveStatus(1, 5, 10) == CheckedOut
    ensures DeriveStatus(1, 15, 10) == CheckedIn
    ensures DeriveStatus(15, 20, 10) == Unconfirmed
  {
  }

}
