/** A reservation: six fields taken from a keyword bag, persisted under a
    file name derived from its identifier. */
module Reservations {
  import opened PyJson
  import Storage

  /** The keyword arguments `**kwargs` of the constructor. */
  type Kwargs = map<string, Value>

  /** The six keyword names the constructor reads. */
  const FieldNames: set<string> :=
    {"reser_id", "customer_id", "hotel_name", "room_number", "start_date", "end_date"}

  /** `kwargs.get(key)`: the argument, or None when it was not passed. */
  function Get(kwargs: Kwargs, key: string): (v: Value)
    ensures key in kwargs ==> v == kwargs[key]
    ensures key !in kwargs ==> v == Null
  {
    if key in kwargs then kwargs[key] else Null
  }

  /** A reservation is never changed after it is built. */
  datatype Reservation = Reservation(
    reserId: Value, customerId: Value, hotelName: Value,
    roomNumber: Value, startDate: Value, endDate: Value)
  {
    /** `vars(self)`: the instance dictionary that `save_to_file` dumps. */
    function Vars(): (v: Value)
      ensures v.Object? && v.fields.Keys == FieldNames
    {
      Object(map["reser_id" := reserId, "customer_id" := customerId,
                 "hotel_name" := hotelName, "room_number" := roomNumber,
                 "start_date" := startDate, "end_date" := endDate])
    }

    /** `save_to_file`: writes (or overwrites) the instance dictionary under
        the file named after the identifier. */
    method SaveToFile(store: Storage.Store)
      modifies store
      ensures store.files == old(store.files)[FileName(reserId) := Vars()]
    {
      store.Write(FileName(reserId), Vars());
    }
  }

  /** `f"reservation_{reser_id}.json"` */
  function FileName(reserId: Value): (f: string)
    ensures |f| == 17 + |PyStr(reserId)|
    ensures f[..12] == "reservation_" && f[12..12 + |PyStr(reserId)|] == PyStr(reserId)
    ensures f[12 + |PyStr(reserId)|..] == ".json"
  {
    "reservation_" + PyStr(reserId) + ".json"
  }

  /** `Reservation(**kwargs)`: its dictionary holds, for each of the six
      names, the argument of that name or None, and nothing else. */
  function FromKwargs(kwargs: Kwargs): (r: Reservation)
    ensures r.Vars().fields == map k | k in FieldNames :: Get(kwargs, k)
  {
    Reservation(Get(kwargs, "reser_id"), Get(kwargs, "customer_id"),
                Get(kwargs, "hotel_name"), Get(kwargs, "room_number"),
                Get(kwargs, "start_date"), Get(kwargs, "end_date"))
  }

  /** A keyword that is not one of the six is ignored. */
  lemma FromKwargsIgnoresExtra(kwargs: Kwargs, key: string, v: Value)
    requires key !in FieldNames
    ensures FromKwargs(kwargs[key := v]) == FromKwargs(kwargs)
  {
  }

  /** Building a reservation from its own saved dictionary gives it back. */
  lemma FromKwargsVars(r: Reservation)
    ensures FromKwargs(r.Vars().fields) == r
  {
  }

  /** `make_reservation(**kwargs)`: builds, without touching the store. */
  function MakeReservation(kwargs: Kwargs): (r: Reservation)
    ensures r.Vars().fields == map k | k in FieldNames :: Get(kwargs, k)
  {
    FromKwargs(kwargs)
  }

  /** `Reservation.create_reservation(**kwargs)`: build, then save. */
  method CreateReservation(kwargs: Kwargs, store: Storage.Store) returns (r: Reservation)
    modifies store
    ensures r == FromKwargs(kwargs)
    ensures store.files == old(store.files)[FileName(r.reserId) := r.Vars()]
  {
    r := FromKwargs(kwargs);
    r.SaveToFile(store);
  }

  /** `Reservation.cancel_reservation(reser_id)`: removes the file; a
      missing file is a NotFound failure. */
  method CancelReservation(reserId: Value, store: Storage.Store) returns (o: Outcome)
    modifies store
    ensures FileName(reserId) in old(store.files) ==>
      o == Pass && store.files == old(store.files) - {FileName(reserId)}
    ensures FileName(reserId) !in old(store.files) ==>
      o == Fail(NotFound(FileName(reserId))) && store.files == old(store.files)
  {
    o := store.Remove(FileName(reserId));
  }
}
