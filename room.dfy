/** A hotel room: a number, a type, a price and an availability flag that
    the reservation path flips in place, with its dictionary encoding. */
module Rooms {
  import opened PyJson

  /** The fields of a room at one moment. The price is only stored and
      copied, so it is kept as whatever JSON value it was given. */
  datatype RoomState = RoomState(rn: int, roomType: string, price: Value, available: bool)

  /** The keys of a room's dictionary form. */
  const RoomKeys: set<string> := {"rn", "room_type", "price", "available"}

  /** `to_dict` of a room in the given state. */
  function Encode(s: RoomState): (v: Value)
    ensures v.Object? && v.fields.Keys == RoomKeys
    ensures v.fields["price"] == s.price
  {
    Object(map["rn" := Int(s.rn), "room_type" := Str(s.roomType),
               "price" := s.price, "available" := Bool(s.available)])
  }

  /** The fields `from_dict` reads: `data['rn']`, `data['room_type']`,
      `data['price']` and `data.get('available', True)`, in that order. */
  function Decode(data: Value): (r: Result<RoomState>)
    ensures !data.Object? ==> r == Err(TypeError)
    ensures data.Object? && "rn" !in data.fields ==> r == Err(MissingKey("rn"))
    ensures data.Object? && "rn" in data.fields && data.fields["rn"].Int? && "room_type" !in data.fields ==>
      r == Err(MissingKey("room_type"))
    ensures data.Object? && "rn" in data.fields && data.fields["rn"].Int? &&
            "room_type" in data.fields && data.fields["room_type"].Str? && "price" !in data.fields ==>
      r == Err(MissingKey("price"))
    ensures r.Ok? <==>
      data.Object? &&
      "rn" in data.fields && data.fields["rn"].Int? &&
      "room_type" in data.fields && data.fields["room_type"].Str? &&
      "price" in data.fields &&
      ("available" in data.fields ==> data.fields["available"].Bool?)
    ensures r.Ok? ==>
      r.value == RoomState(data.fields["rn"].i, data.fields["room_type"].s, data.fields["price"],
                           if "available" in data.fields then data.fields["available"].b else true)
  {
    var rnValue :- Lookup(data, "rn");
    if !rnValue.Int? then Err(Unsupported("rn")) else
    var roomType :- LookupString(data, "room_type");
    var price :- Lookup(data, "price");
    var available := if "available" in data.fields then data.fields["available"] else Bool(true);
    if !available.Bool? then Err(Unsupported("available")) else
    Ok(RoomState(rnValue.i, roomType, price, available.b))
  }

  /** Decoding the dictionary of a room gives the room back. */
  lemma DecodeEncode(s: RoomState)
    ensures Decode(Encode(s)) == Ok(s)
  {
  }

  /** A dictionary holding exactly the four keys, each of the right kind,
      is the encoding of the room it decodes to. */
  lemma EncodeDecode(data: Value)
    requires Decode(data).Ok? && data.fields.Keys == RoomKeys
    ensures Encode(Decode(data).value) == data
  {
  }

  /** A room object; `Hotel.rs` holds references to these. */
  class Room {
    var rn: int
    var roomType: string
    var price: Value
    var available: bool

    function State(): RoomState
      reads this
    {
      RoomState(rn, roomType, price, available)
    }

    /** `Room(rn, room_type, price, available=True)`. */
    constructor (rn: int, roomType: string, price: Value, available: bool := true)
      ensures State() == RoomState(rn, roomType, price, available)
    {
      this.rn := rn;
      this.roomType := roomType;
      this.price := price;
      this.available := available;
    }

    /** Marks the room taken; no check that it was free. */
    method MakeReservation()
      modifies this
      ensures State() == old(State()).(available := false)
    {
      available := false;
    }

    /** Marks the room free; the new state does not depend on the old flag,
        so cancelling twice is the same as cancelling once. */
    method CancelReservation()
      modifies this
      ensures State() == old(State()).(available := true)
    {
      available := true;
    }

    /** Replaces the price, without validation. */
    method UpdatePrice(newPrice: Value)
      modifies this
      ensures State() == old(State()).(price := newPrice)
    {
      price := newPrice;
    }

    /** The dictionary form of this room; it decodes back to the room. */
    function ToDict(): (v: Value)
      reads this
      ensures v.Object? && v.fields.Keys == RoomKeys
      ensures Decode(v) == Ok(State())
    {
      DecodeEncode(State());
      Encode(State())
    }

    /** `Room.from_dict(data)`: a fresh room, or the exception raised while
        reading the dictionary. */
    static method FromDict(data: Value) returns (r: Result<Room>)
      ensures r.Err? <==> Decode(data).Err?
      ensures r.Err? ==> r.failure == Decode(data).failure
      ensures r.Ok? ==> fresh(r.value) && r.value.State() == Decode(data).value
    {
      match Decode(data)
      case Ok(s) =>
        var room := new Room(s.rn, s.roomType, s.price, s.available);
        r := Ok(room);
      case Err(e) =>
        r := Err(e);
    }
  }

  /** The states of a sequence of rooms, in order. */
  function States(rooms: seq<Room>): (s: seq<RoomState>)
    reads rooms
    ensures |s| == |rooms|
    ensures forall i :: 0 <= i < |rooms| ==> s[i] == rooms[i].State()
  {
    seq(|rooms|, i reads rooms requires 0 <= i < |rooms| => rooms[i].State())
  }

  /** No room object occurs twice in the sequence. */
  predicate Distinct(rooms: seq<Room>) {
    forall i, j :: 0 <= i < j < |rooms| ==> rooms[i] != rooms[j]
  }
}
