/** The hotel aggregate: a name, a location and an ordered list of room
    objects, persisted as one record, and the reservation path that
    coordinates the rooms, the reservation records and the hotel record. */
module Hotels {
  import opened PyJson
  import opened Rooms
  import Reservations
  import Storage

  /** `f"{name}_data.json"`, fixed when the hotel object is built. */
  function FileName(name: string): (f: string)
    ensures |f| == |name| + 10 && f[..|name|] == name && f[|name|..] == "_data.json"
  {
    name + "_data.json"
  }

  /** Two hotels share a record file only if they share a name. */
  lemma FileNameInjective(a: string, b: string)
    requires FileName(a) == FileName(b)
    ensures a == b
  {
  }

  /** `f"reser_{reser_id}.json"`, the file `cancel_reservation` opens to
      find the room number. */
  function CancelKey(reserId: Value): (key: string)
    ensures |key| == 11 + |PyStr(reserId)|
    ensures key[..6] == "reser_" && key[6..6 + |PyStr(reserId)|] == PyStr(reserId)
    ensures key[6 + |PyStr(reserId)|..] == ".json"
  {
    "reser_" + PyStr(reserId) + ".json"
  }

  /** No two reservation identifiers name the same file for reading the
      room number and for saving or removing a reservation: the sixth
      character is `_` in the one and `v` in the other. */
  lemma CancelKeyIsNotReservationFile(reserId: Value, other: Value)
    ensures CancelKey(reserId) != Reservations.FileName(other)
  {
    assert CancelKey(reserId)[5] == '_';
    assert Reservations.FileName(other)[5] == 'v';
  }

  /** `[room.to_dict() for room in self.rs]` */
  function RoomRecords(rooms: seq<RoomState>): (vs: seq<Value>)
    ensures |vs| == |rooms|
    ensures forall i :: 0 <= i < |rooms| ==> vs[i] == Rooms.Encode(rooms[i])
  {
    seq(|rooms|, i requires 0 <= i < |rooms| => Rooms.Encode(rooms[i]))
  }

  /** The dictionary `save_to_file` dumps. */
  function Record(name: string, loc: string, rooms: seq<RoomState>): (v: Value)
    ensures v.Object? && v.fields.Keys == {"name", "loc", "rs"}
    ensures v.fields["rs"] == List(RoomRecords(rooms))
  {
    Object(map["name" := Str(name), "loc" := Str(loc), "rs" := List(RoomRecords(rooms))])
  }

  /** `Room.from_dict` on each element of a list, front to back; the first
      element that fails decides the exception. */
  function DecodeList(items: seq<Value>): (r: Result<seq<RoomState>>)
    ensures r.Ok? <==> forall i :: 0 <= i < |items| ==> Rooms.Decode(items[i]).Ok?
    ensures r.Ok? ==> |r.value| == |items|
    ensures r.Ok? ==> forall i :: 0 <= i < |items| ==> r.value[i] == Rooms.Decode(items[i]).value
    decreases |items|
  {
    if items == [] then Ok([])
    else
      var init := items[..|items| - 1];
      var init' :- DecodeList(init);
      var last :- Rooms.Decode(items[|items| - 1]);
      assert forall i :: 0 <= i < |init| ==> init[i] == items[i];
      Ok(init' + [last])
  }

  /** When element i is the first `from_dict` rejects, decoding the whole
      list fails with that element's exception. */
  lemma {:induction false} DecodeListFailsAt(items: seq<Value>, i: int)
    requires 0 <= i < |items|
    requires forall j :: 0 <= j < i ==> Rooms.Decode(items[j]).Ok?
    requires Rooms.Decode(items[i]).Err?
    ensures DecodeList(items) == Err(Rooms.Decode(items[i]).failure)
    decreases |items|
  {
    var init := items[..|items| - 1];
    if i < |items| - 1 {
      assert forall j :: 0 <= j <= i ==> init[j] == items[j];
      DecodeListFailsAt(init, i);
    } else {
      assert forall j :: 0 <= j < |init| ==> init[j] == items[j];
    }
  }

  /** Iterating over `data['rs']` and decoding each element: a list gives
      its elements; an empty string or dict gives no rooms; a non-empty
      string or dict yields strings, which `from_dict` cannot subscript;
      anything else is not iterable. */
  function DecodeRooms(v: Value): (r: Result<seq<RoomState>>)
    ensures v.List? ==> r == DecodeList(v.items)
    ensures !v.List? && r.Ok? ==> r.value == []
    ensures !v.List? ==> (r.Ok? <==> v == Str("") || v == Object(map[]))
    ensures !v.List? && r.Err? ==> r.failure == TypeError
  {
    match v
    case List(items) => DecodeList(items)
    case Str(s) => if s == "" then Ok([]) else Err(TypeError)
    case Object(m) => if m == map[] then Ok([]) else Err(TypeError)
    case _ => Err(TypeError)
  }

  /** Decoding the saved rooms gives the rooms back. */
  lemma DecodeRoomRecords(rooms: seq<RoomState>)
    ensures DecodeRooms(List(RoomRecords(rooms))) == Ok(rooms)
  {
    var items := RoomRecords(rooms);
    forall i | 0 <= i < |items|
      ensures Rooms.Decode(items[i]) == Ok(rooms[i])
    {
      Rooms.DecodeEncode(rooms[i]);
    }
    var r := DecodeList(items);
    assert r.Ok?;
    assert r.value == rooms;
  }

  /** What `load_from_file` leaves in the object, given the record it read:
      `name` and `loc` are assigned one after the other, so a later failure
      keeps an earlier assignment; the rooms are replaced only when the
      whole list decodes (`None` means they are left as they were). */
  datatype Loaded = Loaded(outcome: Outcome, name: string, loc: string, rooms: Option<seq<RoomState>>)

  function Load(data: Value, name: string, loc: string): (l: Loaded)
    ensures l.outcome == Pass <==> l.rooms.Some?
    ensures LookupString(data, "name").Err? ==> l == Loaded(Fail(LookupString(data, "name").failure), name, loc, None)
    ensures LookupString(data, "name").Ok? ==> l.name == LookupString(data, "name").value
    ensures LookupString(data, "name").Ok? && LookupString(data, "loc").Err? ==>
      l.outcome == Fail(LookupString(data, "loc").failure) && l.loc == loc && l.rooms.None?
    ensures LookupString(data, "name").Ok? && LookupString(data, "loc").Ok? ==>
      l.loc == LookupString(data, "loc").value
    ensures l.rooms.Some? ==> Lookup(data, "rs").Ok? && DecodeRooms(Lookup(data, "rs").value) == Ok(l.rooms.value)
    ensures LookupString(data, "name").Ok? && LookupString(data, "loc").Ok? && Lookup(data, "rs").Ok? &&
            DecodeRooms(Lookup(data, "rs").value).Ok? ==>
      l.outcome == Pass
    ensures LookupString(data, "name").Ok? && LookupString(data, "loc").Ok? && Lookup(data, "rs").Err? ==>
      l.outcome == Fail(Lookup(data, "rs").failure) && l.rooms.None?
    ensures LookupString(data, "name").Ok? && LookupString(data, "loc").Ok? && Lookup(data, "rs").Ok? &&
            DecodeRooms(Lookup(data, "rs").value).Err? ==>
      l.outcome == Fail(DecodeRooms(Lookup(data, "rs").value).failure) && l.rooms.None?
  {
    match LookupString(data, "name")
    case Err(e) => Loaded(Fail(e), name, loc, None)
    case Ok(newName) =>
      match LookupString(data, "loc")
      case Err(e) => Loaded(Fail(e), newName, loc, None)
      case Ok(newLoc) =>
        match Lookup(data, "rs")
        case Err(e) => Loaded(Fail(e), newName, newLoc, None)
        case Ok(rs) =>
          match DecodeRooms(rs)
          case Err(e) => Loaded(Fail(e), newName, newLoc, None)
          case Ok(rooms) => Loaded(Pass, newName, newLoc, Some(rooms))
  }

  /** Loading a saved record restores name, location and rooms, whatever
      the object held before. */
  lemma LoadRecord(name: string, loc: string, rooms: seq<RoomState>, oldName: string, oldLoc: string)
    ensures Load(Record(name, loc, rooms), oldName, oldLoc) == Loaded(Pass, name, loc, Some(rooms))
  {
    DecodeRoomRecords(rooms);
  }

  /** The two generator scans over the rooms: `room.rn == rn and
      room.available` when reserving, `room.rn == rn` when cancelling. */
  datatype Query = Bookable(number: Value) | Numbered(key: Value)

  /** Python's `==` between a room's integer number and a JSON value:
      True and False compare equal to 1 and 0. */
  predicate NumberEquals(n: int, v: Value)
    ensures NumberEquals(n, v) ==> v.Int? || v.Bool?
    ensures v.Int? ==> (NumberEquals(n, v) <==> v.i == n)
    ensures v.Bool? ==> (NumberEquals(n, v) <==> n == if v.b then 1 else 0)
  {
    match v
    case Int(i) => i == n
    case Bool(b) => n == (if b then 1 else 0)
    case _ => false
  }

  /** Whether the scan accepts the room: its number equals the query's, and
      when reserving it must also be available. */
  predicate Hits(q: Query, r: RoomState)
    ensures Hits(q, r) <==>
      NumberEquals(r.rn, if q.Bookable? then q.number else q.key) && (q.Bookable? ==> r.available)
  {
    match q
    case Bookable(v) => NumberEquals(r.rn, v) && r.available
    case Numbered(v) => NumberEquals(r.rn, v)
  }

  /** `next(room for room in rooms if ..., None)`, as an index: the first
      room the query hits, or -1 when there is none. */
  function First(rooms: seq<RoomState>, q: Query): (k: int)
    ensures -1 <= k < |rooms|
    ensures k == -1 <==> forall i :: 0 <= i < |rooms| ==> !Hits(q, rooms[i])
    ensures 0 <= k ==> Hits(q, rooms[k]) && forall j :: 0 <= j < k ==> !Hits(q, rooms[j])
  {
    if rooms == [] then -1
    else if Hits(q, rooms[0]) then 0
    else
      var k := First(rooms[1..], q);
      if k == -1 then -1 else k + 1
  }

  /** The persistent part of a hotel object at one moment. */
  datatype HotelState = HotelState(name: string, loc: string, rooms: seq<RoomState>, filename: string)

  /** The result of one operation, the hotel after it and the files after it. */
  datatype Step<R> = Step(result: R, hotel: HotelState, files: map<string, Value>)

  /** The files after `save_to_file`. */
  function Saved(h: HotelState, files: map<string, Value>): (saved: map<string, Value>)
    ensures saved.Keys == files.Keys + {h.filename}
    ensures saved[h.filename] == Record(h.name, h.loc, h.rooms)
    ensures forall key :: key in files && key != h.filename ==> saved[key] == files[key]
  {
    files[h.filename := Record(h.name, h.loc, h.rooms)]
  }

  /** The keyword arguments `r_r` passes to `make_reservation`. The room
      number goes under `rn`, which the constructor does not read. */
  function ReserveKwargs(reserId: Value, customerId: Value, hotelName: string, rn: Value,
                         startDate: Value, endDate: Value): (kw: Reservations.Kwargs)
    ensures kw.Keys == {"reser_id", "customer_id", "hotel_name", "rn", "start_date", "end_date"}
    ensures "room_number" !in kw && kw["rn"] == rn
  {
    map["reser_id" := reserId, "customer_id" := customerId,
        "hotel_name" := Str(hotelName), "rn" := rn,
        "start_date" := startDate, "end_date" := endDate]
  }

  /** The reservation `r_r` builds: its room number is None. */
  lemma ReservationHasNoRoomNumber(reserId: Value, customerId: Value, hotelName: string, rn: Value,
                                   startDate: Value, endDate: Value)
    ensures Reservations.MakeReservation(ReserveKwargs(reserId, customerId, hotelName, rn, startDate, endDate))
      == Reservations.Reservation(reserId, customerId, Str(hotelName), Null, startDate, endDate)
  {
  }

  /** The reservation `r_r` saves: the hotel's name and no room number. */
  function Booking(hotelName: string, reserId: Value, customerId: Value,
                   startDate: Value, endDate: Value): (r: Reservations.Reservation)
    ensures r.roomNumber == Null && r.hotelName == Str(hotelName)
    ensures r.reserId == reserId && r.customerId == customerId
    ensures r.startDate == startDate && r.endDate == endDate
  {
    Reservations.Reservation(reserId, customerId, Str(hotelName), Null, startDate, endDate)
  }

  /** `Reservation.make_reservation(...)` as `r_r` calls it. */
  method BuildBooking(hotelName: string, reserId: Value, customerId: Value, rn: Value,
                      startDate: Value, endDate: Value) returns (r: Reservations.Reservation)
    ensures r == Booking(hotelName, reserId, customerId, startDate, endDate)
  {
    r := Reservations.MakeReservation(ReserveKwargs(reserId, customerId, hotelName, rn, startDate, endDate));
    ReservationHasNoRoomNumber(reserId, customerId, hotelName, rn, startDate, endDate);
  }

  /** `r_r` on a hotel whose rooms are distinct objects. */
  function Reserve(h: HotelState, files: map<string, Value>, reserId: Value, customerId: Value,
                   rn: Value, startDate: Value, endDate: Value): (s: Step<bool>)
    ensures s.result <==> exists i :: 0 <= i < |h.rooms| && NumberEquals(h.rooms[i].rn, rn) && h.rooms[i].available
    ensures !s.result ==> s.hotel == h && s.files == files
    ensures s.hotel.name == h.name && s.hotel.loc == h.loc && s.hotel.filename == h.filename
    ensures |s.hotel.rooms| == |h.rooms|
  {
    var k := First(h.rooms, Bookable(rn));
    if k < 0 then Step(false, h, files)
    else
      var h' := h.(rooms := h.rooms[k := h.rooms[k].(available := false)]);
      var reservation := Booking(h.name, reserId, customerId, startDate, endDate);
      Step(true, h', Saved(h', files[Reservations.FileName(reserId) := reservation.Vars()]))
  }

  /** The two branches of `Reserve`, spelled out only so that the proof of
      `Hotel.ReserveRoom` can be split by cases; it states nothing beyond
      `Reserve` itself. */
  lemma ReserveCases(h: HotelState, files: map<string, Value>, reserId: Value, customerId: Value,
                     rn: Value, startDate: Value, endDate: Value)
    ensures var k := First(h.rooms, Bookable(rn));
      Reserve(h, files, reserId, customerId, rn, startDate, endDate) ==
        if k < 0 then Step(false, h, files)
        else
          var h' := h.(rooms := h.rooms[k := h.rooms[k].(available := false)]);
          Step(true, h', Saved(h', files[Reservations.FileName(reserId) :=
            Booking(h.name, reserId, customerId, startDate, endDate).Vars()]))
  {
  }

  /** A successful `r_r` takes the first available room with the number and
      changes no other room. */
  lemma ReserveTakesFirstBookable(h: HotelState, files: map<string, Value>, reserId: Value, customerId: Value,
                                  rn: Value, startDate: Value, endDate: Value)
    requires Reserve(h, files, reserId, customerId, rn, startDate, endDate).result
    ensures var s := Reserve(h, files, reserId, customerId, rn, startDate, endDate);
      var k := First(h.rooms, Bookable(rn));
      0 <= k && NumberEquals(h.rooms[k].rn, rn) && h.rooms[k].available &&
      (forall j :: 0 <= j < k ==> !(NumberEquals(h.rooms[j].rn, rn) && h.rooms[j].available)) &&
      s.hotel.rooms[k] == h.rooms[k].(available := false) &&
      (forall i :: 0 <= i < |h.rooms| && i != k ==> s.hotel.rooms[i] == h.rooms[i])
  {
  }

  /** A successful `r_r` leaves the reservation record, with the hotel's
      name and no room number, and then the hotel record with the updated
      rooms; no other file changes. */
  lemma ReserveWritesTwoFiles(h: HotelState, files: map<string, Value>, reserId: Value, customerId: Value,
                              rn: Value, startDate: Value, endDate: Value)
    requires Reserve(h, files, reserId, customerId, rn, startDate, endDate).result
    ensures var s := Reserve(h, files, reserId, customerId, rn, startDate, endDate);
      s.files.Keys == files.Keys + {Reservations.FileName(reserId), h.filename} &&
      s.files[h.filename] == Record(h.name, h.loc, s.hotel.rooms) &&
      (Reservations.FileName(reserId) != h.filename ==>
        s.files[Reservations.FileName(reserId)] ==
          Reservations.Reservation(reserId, customerId, Str(h.name), Null, startDate, endDate).Vars()) &&
      forall key :: key in files && key != h.filename && key != Reservations.FileName(reserId) ==>
        s.files[key] == files[key]
  {
  }

  /** The index of the room `cancel_reservation` sets available, or -1: the
      `reser_` file must exist and hold a dict with `rn`, and the first
      room carrying that number is the one. */
  function CancelTarget(h: HotelState, files: map<string, Value>, reserId: Value): (k: int)
    ensures -1 <= k < |h.rooms|
    ensures 0 <= k ==>
      CancelKey(reserId) in files && Lookup(files[CancelKey(reserId)], "rn").Ok? &&
      NumberEquals(h.rooms[k].rn, Lookup(files[CancelKey(reserId)], "rn").value) &&
      forall j :: 0 <= j < k ==> !NumberEquals(h.rooms[j].rn, Lookup(files[CancelKey(reserId)], "rn").value)
    ensures k < 0 <==>
      CancelKey(reserId) !in files || Lookup(files[CancelKey(reserId)], "rn").Err? ||
      forall i :: 0 <= i < |h.rooms| ==> !NumberEquals(h.rooms[i].rn, Lookup(files[CancelKey(reserId)], "rn").value)
  {
    var key := CancelKey(reserId);
    if key !in files then -1
    else
      match Lookup(files[key], "rn")
      case Err(_) => -1
      case Ok(v) => First(h.rooms, Numbered(v))
  }

  /** `cancel_reservation` on a hotel whose rooms are distinct objects. */
  function Cancel(h: HotelState, files: map<string, Value>, reserId: Value): (s: Step<Result<bool>>)
    ensures s.hotel.name == h.name && s.hotel.loc == h.loc && s.hotel.filename == h.filename
    ensures |s.hotel.rooms| == |h.rooms|
    ensures s.result != Ok(true) ==> s.files == files
  {
    var key := CancelKey(reserId);
    if key !in files then Step(Ok(false), h, files)
    else
      match Lookup(files[key], "rn")
      case Err(e) => Step(Err(e), h, files)
      case Ok(v) =>
        var k := First(h.rooms, Numbered(v));
        if k < 0 then Step(Ok(false), h, files)
        else
          var h' := h.(rooms := h.rooms[k := h.rooms[k].(available := true)]);
          if Reservations.FileName(reserId) !in files then Step(Ok(false), h', files)
          else Step(Ok(true), h', Saved(h', files - {Reservations.FileName(reserId)}))
  }

  /** The branches of `Cancel` and `CancelTarget`, spelled out only so that
      the proof of `Hotel.CancelReservation` can be split by cases; it
      states nothing beyond the two functions themselves. */
  lemma CancelCases(h: HotelState, files: map<string, Value>, reserId: Value)
    ensures CancelKey(reserId) !in files ==>
      CancelTarget(h, files, reserId) == -1 && Cancel(h, files, reserId) == Step(Ok(false), h, files)
    ensures CancelKey(reserId) in files && Lookup(files[CancelKey(reserId)], "rn").Err? ==>
      CancelTarget(h, files, reserId) == -1 &&
      Cancel(h, files, reserId) == Step(Err(Lookup(files[CancelKey(reserId)], "rn").failure), h, files)
    ensures CancelKey(reserId) in files && Lookup(files[CancelKey(reserId)], "rn").Ok? ==>
      var k := First(h.rooms, Numbered(Lookup(files[CancelKey(reserId)], "rn").value));
      CancelTarget(h, files, reserId) == k &&
      (k < 0 ==> Cancel(h, files, reserId) == Step(Ok(false), h, files)) &&
      (0 <= k ==>
        var h' := h.(rooms := h.rooms[k := h.rooms[k].(available := true)]);
        Cancel(h, files, reserId) ==
          if Reservations.FileName(reserId) !in files then Step(Ok(false), h', files)
          else Step(Ok(true), h', Saved(h', files - {Reservations.FileName(reserId)})))
  {
  }

  /** Without a `reser_` file, cancelling reports false and changes nothing. */
  lemma CancelWithoutRecord(h: HotelState, files: map<string, Value>, reserId: Value)
    requires CancelKey(reserId) !in files
    ensures Cancel(h, files, reserId) == Step(Ok(false), h, files)
  {
  }

  /** A `reser_` file that is not a dict with `rn` raises, before anything
      changes. */
  lemma CancelRecordWithoutNumber(h: HotelState, files: map<string, Value>, reserId: Value)
    requires CancelKey(reserId) in files && Lookup(files[CancelKey(reserId)], "rn").Err?
    ensures Cancel(h, files, reserId) ==
      Step(Err(Lookup(files[CancelKey(reserId)], "rn").failure), h, files)
  {
  }

  /** When no room carries the recorded number, cancelling reports false
      and changes nothing, not even the reservation file. */
  lemma CancelWithoutMatchingRoom(h: HotelState, files: map<string, Value>, reserId: Value)
    requires CancelKey(reserId) in files && Lookup(files[CancelKey(reserId)], "rn").Ok?
    requires forall i :: 0 <= i < |h.rooms| ==>
      !NumberEquals(h.rooms[i].rn, Lookup(files[CancelKey(reserId)], "rn").value)
    ensures Cancel(h, files, reserId) == Step(Ok(false), h, files)
  {
  }

  /** When a room carries the recorded number, the first such room becomes
      available and no other room changes; with the reservation file
      present it is removed, the hotel is saved and the result is true. */
  lemma CancelReleasesRoom(h: HotelState, files: map<string, Value>, reserId: Value)
    requires CancelKey(reserId) in files && Lookup(files[CancelKey(reserId)], "rn").Ok?
    requires exists i ::
      0 <= i < |h.rooms| && NumberEquals(h.rooms[i].rn, Lookup(files[CancelKey(reserId)], "rn").value)
    ensures var s := Cancel(h, files, reserId);
      var k := CancelTarget(h, files, reserId);
      0 <= k &&
      NumberEquals(h.rooms[k].rn, Lookup(files[CancelKey(reserId)], "rn").value) &&
      (forall j :: 0 <= j < k ==> !NumberEquals(h.rooms[j].rn, Lookup(files[CancelKey(reserId)], "rn").value)) &&
      s.hotel == h.(rooms := h.rooms[k := h.rooms[k].(available := true)]) &&
      s.hotel.rooms[k].available &&
      (Reservations.FileName(reserId) in files ==>
         s.result == Ok(true) && s.files == Saved(s.hotel, files - {Reservations.FileName(reserId)}))
  {
  }

  /** A missing reservation file at removal time is swallowed: the result
      is false and no file changes, yet the room was already set available. */
  lemma CancelSwallowsMissingReservation(h: HotelState, files: map<string, Value>, reserId: Value)
    requires 0 <= CancelTarget(h, files, reserId)
    requires Reservations.FileName(reserId) !in files
    ensures var s := Cancel(h, files, reserId);
      var k := CancelTarget(h, files, reserId);
      s.result == Ok(false) && s.files == files &&
      s.hotel.rooms == h.rooms[k := h.rooms[k].(available := true)] &&
      (!h.rooms[k].available ==> s.hotel != h)
  {
  }

  /** A reservation made by `r_r` cannot be cancelled by `cancel_reservation`
      with the same identifier: the one writes a `reservation_` file, the
      other looks for a `reser_` file. */
  lemma ReserveThenCancelFails(h: HotelState, files: map<string, Value>, reserId: Value, customerId: Value,
                               rn: Value, startDate: Value, endDate: Value)
    requires CancelKey(reserId) !in files && CancelKey(reserId) != h.filename
    ensures var s := Reserve(h, files, reserId, customerId, rn, startDate, endDate);
      Cancel(s.hotel, s.files, reserId) == Step(Ok(false), s.hotel, s.files)
  {
    CancelKeyIsNotReservationFile(reserId, reserId);
  }

  /** The second hypothesis of `ReserveThenCancelFails` is needed: when the
      hotel's own record file is the `reser_` file of the identifier,
      cancelling right after a successful reserve reads the hotel record,
      which has no `rn`, and raises KeyError. */
  lemma ReserveThenCancelReadsHotelRecord(h: HotelState, files: map<string, Value>, reserId: Value,
                                          customerId: Value, rn: Value, startDate: Value, endDate: Value)
    requires CancelKey(reserId) == h.filename
    requires Reserve(h, files, reserId, customerId, rn, startDate, endDate).result
    ensures var s := Reserve(h, files, reserId, customerId, rn, startDate, endDate);
      Cancel(s.hotel, s.files, reserId) == Step(Err(MissingKey("rn")), s.hotel, s.files)
  {
    var s := Reserve(h, files, reserId, customerId, rn, startDate, endDate);
    ReserveWritesTwoFiles(h, files, reserId, customerId, rn, startDate, endDate);
    assert Lookup(s.files[CancelKey(reserId)], "rn") == Err(MissingKey("rn"));
    CancelRecordWithoutNumber(s.hotel, s.files, reserId);
  }

  /** Such a clash happens: the hotel "reser_a" keeps its record in
      `reser_a_data.json`, the `reser_` file of the identifier "a_data". */
  lemma HotelRecordCanBeCancelKey()
    ensures FileName("reser_a") == CancelKey(Str("a_data"))
  {
  }

  /** The cancellation test as the code behaves: after `r_r` reserves room
      101 of "Hotel for Reservation" as "res101", `cancel_reservation("res101")`
      finds no `reser_res101.json`, reports false, and the room stays taken. */
  lemma ReserveThenCancelInTest()
    ensures var h := HotelState("Hotel for Reservation", "Reservation loc",
                                [RoomState(101, "double", Int(150), true)], FileName("Hotel for Reservation"));
      var s := Reserve(h, map[], Str("res101"), Str("cust101"), Int(101), Str("2023-01-01"), Str("2023-01-05"));
      var c := Cancel(s.hotel, s.files, Str("res101"));
      s.result && c.result == Ok(false) && !c.hotel.rooms[0].available
  {
    var h := HotelState("Hotel for Reservation", "Reservation loc",
                        [RoomState(101, "double", Int(150), true)], FileName("Hotel for Reservation"));
    assert First(h.rooms, Bookable(Int(101))) == 0;
    assert CancelKey(Str("res101")) != h.filename by {
      assert CancelKey(Str("res101"))[0] != h.filename[0];
    }
    ReserveThenCancelFails(h, map[], Str("res101"), Str("cust101"), Int(101), Str("2023-01-01"), Str("2023-01-05"));
  }

  class Hotel {
    var name: string
    var loc: string
    var rs: seq<Room>
    var filename: string

    function RoomStates(): seq<RoomState>
      reads this, rs
    {
      States(rs)
    }

    function Snapshot(): HotelState
      reads this, rs
    {
      HotelState(name, loc, RoomStates(), filename)
    }

    /** `Hotel(name, loc)`: no rooms; the file name follows from the name. */
    constructor (name: string, loc: string)
      ensures rs == [] && Snapshot() == HotelState(name, loc, [], FileName(name))
    {
      this.name := name;
      this.loc := loc;
      this.rs := [];
      this.filename := FileName(name);
    }

    /** `save_to_file`: writes name, location and every room's dictionary
        under the hotel's file name. */
    method SaveToFile(store: Storage.Store)
      modifies store
      ensures store.files == Saved(Snapshot(), old(store.files))
    {
      store.Write(filename, Record(name, loc, RoomStates()));
    }

    /** `load_from_file`: reads the hotel's own file and assigns name,
        location and a fresh list of rooms, stopping at the first failure. */
    method LoadFromFile(store: Storage.Store) returns (o: Outcome)
      modifies this
      ensures filename == old(filename)
      ensures filename !in store.files ==>
        o == Fail(NotFound(filename)) && name == old(name) && loc == old(loc) && rs == old(rs)
      ensures filename in store.files ==>
        var l := Load(store.files[filename], old(name), old(loc));
        o == l.outcome && name == l.name && loc == l.loc &&
        (l.rooms.None? ==> rs == old(rs)) &&
        (l.rooms.Some? ==> RoomStates() == l.rooms.value && Distinct(rs) &&
                           forall i :: 0 <= i < |rs| ==> fresh(rs[i]))
    {
      var data := store.Read(filename);
      if data.Err? {
        return Fail(data.failure);
      }
      var newName := LookupString(data.value, "name");
      if newName.Err? {
        return Fail(newName.failure);
      }
      name := newName.value;
      var newLoc := LookupString(data.value, "loc");
      if newLoc.Err? {
        return Fail(newLoc.failure);
      }
      loc := newLoc.value;
      var roomsValue := Lookup(data.value, "rs");
      if roomsValue.Err? {
        return Fail(roomsValue.failure);
      }
      var rooms: seq<Room> := [];
      if roomsValue.value.List? {
        var built := BuildRooms(roomsValue.value.items);
        if built.Err? {
          return Fail(built.failure);
        }
        rooms := built.value;
      } else {
        var other := DecodeRooms(roomsValue.value);
        if other.Err? {
          return Fail(other.failure);
        }
      }
      rs := rooms;
      o := Pass;
    }

    /** The loop `[Room.from_dict(d) for d in data['rs']]`: fresh rooms, one
        per element, or the exception of the first element that fails. */
    static method BuildRooms(items: seq<Value>) returns (r: Result<seq<Room>>)
      ensures r.Err? <==> DecodeList(items).Err?
      ensures r.Err? ==> r.failure == DecodeList(items).failure
      ensures r.Ok? ==>
        States(r.value) == DecodeList(items).value && Distinct(r.value) &&
        forall i :: 0 <= i < |r.value| ==> fresh(r.value[i])
    {
      var rooms: seq<Room> := [];
      var i := 0;
      while i < |items|
        invariant 0 <= i <= |items|
        invariant |rooms| == i
        invariant forall j :: 0 <= j < i ==> Decode(items[j]).Ok? && rooms[j].State() == Decode(items[j]).value
        invariant Distinct(rooms)
        invariant forall j :: 0 <= j < i ==> fresh(rooms[j])
      {
        var room := Room.FromDict(items[i]);
        if room.Err? {
          DecodeListFailsAt(items, i);
          return Err(room.failure);
        }
        rooms := rooms + [room.value];
        i := i + 1;
      }
      r := Ok(rooms);
    }

    /** `Hotel.create_hotel`: build, then save. */
    static method CreateHotel(name: string, loc: string, store: Storage.Store) returns (h: Hotel)
      modifies store
      ensures fresh(h) && h.rs == [] && h.Snapshot() == HotelState(name, loc, [], FileName(name))
      ensures store.files == old(store.files)[FileName(name) := Record(name, loc, [])]
    {
      h := new Hotel(name, loc);
      h.SaveToFile(store);
    }

    /** `Hotel.delete_hotel`: removes the hotel's file; a missing file is a
        NotFound failure. */
    static method DeleteHotel(h: Hotel, store: Storage.Store) returns (o: Outcome)
      modifies store
      ensures h.filename in old(store.files) ==>
        o == Pass && store.files == old(store.files) - {h.filename}
      ensures h.filename !in old(store.files) ==>
        o == Fail(NotFound(h.filename)) && store.files == old(store.files)
    {
      o := store.Remove(h.filename);
    }

    /** `display_information`: the text "Hotel Name: ", the name, ", loc: ",
        the location. */
    function DisplayInformation(): (s: string)
      reads this
      ensures |s| == 19 + |name| + |loc|
      ensures s[..12] == "Hotel Name: " && s[12..12 + |name|] == name
      ensures s[12 + |name|..19 + |name|] == ", loc: " && s[19 + |name|..] == loc
    {
      "Hotel Name: " + name + ", loc: " + loc
    }

    /** `modify_information`: only non-empty arguments replace a field; the
        record is saved either way, under the file name fixed at
        construction, even when the name changed. */
    method ModifyInformation(newName: Option<string>, newLoc: Option<string>, store: Storage.Store)
      modifies this, store
      ensures name == (if Truthy(newName) then newName.value else old(name))
      ensures loc == (if Truthy(newLoc) then newLoc.value else old(loc))
      ensures filename == old(filename) && rs == old(rs) && RoomStates() == old(RoomStates())
      ensures store.files == Saved(Snapshot(), old(store.files))
    {
      if Truthy(newName) {
        name := newName.value;
      }
      if Truthy(newLoc) {
        loc := newLoc.value;
      }
      SaveToFile(store);
    }

    /** `room.make_reservation()` or `room.cancel_reservation()` on the room
        at index k: every entry of `rs` that is that object changes. */
    method SetAvailable(k: int, available: bool)
      requires 0 <= k < |rs|
      modifies rs[k]
      ensures forall i :: 0 <= i < |rs| ==>
        rs[i].State() == if rs[i] == rs[k] then old(rs[i].State()).(available := available)
                         else old(rs[i].State())
      ensures Distinct(rs) ==> RoomStates() == old(RoomStates())[k := old(RoomStates())[k].(available := available)]
    {
      var room := rs[k];
      if available {
        room.CancelReservation();
      } else {
        room.MakeReservation();
      }
    }

    /** `r_r`: reserves the first available room with the given number.
        The room object is flipped in place (so is every other entry of
        `rs` that is the same object), the reservation is saved, then the
        hotel. With no such room nothing changes. */
    method ReserveRoom(reserId: Value, customerId: Value, rn: Value, startDate: Value, endDate: Value,
                       store: Storage.Store) returns (ok: bool)
      modifies rs, store
      ensures ok <==> exists i :: 0 <= i < |rs| && Hits(Bookable(rn), old(RoomStates())[i])
      ensures !ok ==> unchanged(rs) && store.files == old(store.files)
      ensures ok ==> var k := First(old(RoomStates()), Bookable(rn));
        forall i :: 0 <= i < |rs| ==>
          rs[i].State() == if rs[i] == rs[k] then old(rs[i].State()).(available := false)
                           else old(rs[i].State())
      ensures ok ==>
        store.files == Saved(Snapshot(), old(store.files)[Reservations.FileName(reserId) :=
          Booking(old(name), reserId, customerId, startDate, endDate).Vars()])
      ensures Distinct(rs) ==>
        Step(ok, Snapshot(), store.files) ==
        Reserve(old(Snapshot()), old(store.files), reserId, customerId, rn, startDate, endDate)
    {
      ReserveCases(Snapshot(), store.files, reserId, customerId, rn, startDate, endDate);
      var k := First(RoomStates(), Bookable(rn));
      if k < 0 {
        return false;
      }
      BookAt(k, reserId, customerId, rn, startDate, endDate, store);
      ok := true;
    }

    /** The tail of a successful `r_r`: flip the room at index k, build the
        reservation, save it, save the hotel. */
    method BookAt(k: int, reserId: Value, customerId: Value, rn: Value, startDate: Value, endDate: Value,
                  store: Storage.Store)
      requires 0 <= k < |rs|
      modifies rs[k], store
      ensures forall i :: 0 <= i < |rs| ==>
        rs[i].State() == if rs[i] == rs[k] then old(rs[i].State()).(available := false)
                         else old(rs[i].State())
      ensures Distinct(rs) ==>
        Snapshot() == old(Snapshot()).(rooms := old(RoomStates())[k := old(RoomStates())[k].(available := false)])
      ensures store.files ==
        Saved(Snapshot(), old(store.files)[Reservations.FileName(reserId) :=
          Booking(name, reserId, customerId, startDate, endDate).Vars()])
    {
      SetAvailable(k, false);
      var reservation := BuildBooking(name, reserId, customerId, rn, startDate, endDate);
      SaveBooking(reservation, store);
    }

    /** The two saves at the end of `r_r`: the reservation, then the hotel. */
    method SaveBooking(reservation: Reservations.Reservation, store: Storage.Store)
      modifies store
      ensures store.files == Saved(Snapshot(), old(store.files)[Reservations.FileName(reservation.reserId) := reservation.Vars()])
    {
      reservation.SaveToFile(store);
      SaveToFile(store);
    }

    /** `cancel_reservation`: reads the `reser_` file for the room number,
        sets the first room with that number available, removes the
        `reservation_` file and saves the hotel. A missing `reser_` or
        `reservation_` file is swallowed into `false`, the second one after
        the room was already flipped; a record without `rn` escapes as an
        exception. */
    method CancelReservation(reserId: Value, store: Storage.Store) returns (r: Result<bool>)
      modifies rs, store
      ensures r == Cancel(old(Snapshot()), old(store.files), reserId).result
      ensures var k := CancelTarget(old(Snapshot()), old(store.files), reserId);
        forall i :: 0 <= i < |rs| ==>
          rs[i].State() == if 0 <= k && rs[i] == rs[k] then old(rs[i].State()).(available := true)
                           else old(rs[i].State())
      ensures r != Ok(true) ==> store.files == old(store.files)
      ensures r == Ok(true) ==> store.files == Saved(Snapshot(), old(store.files) - {Reservations.FileName(reserId)})
      ensures Distinct(rs) ==>
        Step(r, Snapshot(), store.files) == Cancel(old(Snapshot()), old(store.files), reserId)
    {
      CancelCases(Snapshot(), store.files, reserId);
      var data := store.Read(CancelKey(reserId));
      if data.Err? {
        return Ok(false);
      }
      var rn := Lookup(data.value, "rn");
      if rn.Err? {
        return Err(rn.failure);
      }
      var k := First(RoomStates(), Numbered(rn.value));
      if k < 0 {
        return Ok(false);
      }
      var removed := ReleaseAt(k, reserId, store);
      r := Ok(removed);
    }

    /** The tail of `cancel_reservation` once a room is found: flip the room
        at index k, remove the reservation file and, only if that worked,
        save the hotel. */
    method ReleaseAt(k: int, reserId: Value, store: Storage.Store) returns (removed: bool)
      requires 0 <= k < |rs|
      modifies rs[k], store
      ensures forall i :: 0 <= i < |rs| ==>
        rs[i].State() == if rs[i] == rs[k] then old(rs[i].State()).(available := true)
                         else old(rs[i].State())
      ensures Distinct(rs) ==> RoomStates() == old(RoomStates())[k := old(RoomStates())[k].(available := true)]
      ensures removed <==> Reservations.FileName(reserId) in old(store.files)
      ensures !removed ==> store.files == old(store.files)
      ensures removed ==> store.files == Saved(Snapshot(), old(store.files) - {Reservations.FileName(reserId)})
    {
      SetAvailable(k, true);
      var o := store.Remove(Reservations.FileName(reserId));
      if o.Fail? {
        return false;
      }
      SaveToFile(store);
      removed := true;
    }
  }
}
