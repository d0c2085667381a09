# Hotel reservation system: a Dafny model

This project models the core of a small Python hotel reservation system. The
system has four kinds of records:

- **Rooms** have a number, a type, a price and an availability flag. They
  convert to and from a dictionary.
- **Hotels** have a name, a location and an ordered list of room objects.
  They are saved as one JSON file named `<name>_data.json`.
- **Reservations** are built from keyword arguments and saved as
  `reservation_<id>.json`.
- **Customers** are saved as `customer_<id>.json`.

The directory of JSON files is a `Storage.Store` object. Its `files` field is
a map from file name to parsed JSON value (`PyJson.Value`):

- reading a file that is not there gives `NotFound`;
- writing creates or overwrites a file;
- `os.remove` of a missing file gives `NotFound`.

Python exceptions are ordinary values of type `PyJson.Failure`:

- `NotFound` for FileNotFoundError;
- `MissingKey` for KeyError;
- `TypeError`;
- `Unsupported`, described under "Left out".

An operation that may raise returns a `Result` or an `Outcome`.

Objects the Python code mutates in place are Dafny classes:

- `Rooms.Room`;
- `Hotels.Hotel`, whose `rs` is a `seq<Room>` of references;
- `Customers.Customer`;
- `Storage.Store`.

Python lets the same room object appear twice in `rs`. The hotel's reserve
and cancel methods therefore state two things:

- what happens to every entry of `rs`, including such aliases;
- when the rooms are distinct objects, that the new hotel state and files
  equal those of the pure functions `Hotels.Reserve` and `Hotels.Cancel`.
  These work on `HotelState` snapshots, and the lemmas about reserving and
  cancelling are stated against them.

The model follows the code as written, including these behaviours:

- `r_r` passes the room number as the keyword `rn`. The reservation
  constructor only reads `room_number`, so the saved reservation has
  `room_number = None` (`Hotels.ReservationHasNoRoomNumber`).
- `cancel_reservation` looks for the room number in `reser_<id>.json`, but
  reservations are saved as `reservation_<id>.json`. So cancelling a
  reservation that `r_r` just made finds no record, returns False and leaves
  the room taken (`Hotels.ReserveThenCancelFails`). This holds when no
  `reser_<id>.json` existed beforehand and the hotel's own record file is
  not `reser_<id>.json`. A leftover `reser_` file is read like any other.
  A hotel named `reser_a` keeps its record in `reser_a_data.json`, and
  cancelling `a_data` after reserving it reads that record and raises
  KeyError on `rn` (`Hotels.ReserveThenCancelReadsHotelRecord`,
  `Hotels.HotelRecordCanBeCancelKey`).
- The test at hotel_test.py:73-88 expects the room to be available again.
  The model follows the code, and `Hotels.ReserveThenCancelInTest` proves
  the code's outcome for the test's own values.
- When `reservation_<id>.json` is missing at removal time, the
  FileNotFoundError is swallowed. The result is False, but the room was
  already set available (`Hotels.CancelSwallowsMissingReservation`).
- `modify_information` never recomputes `filename`. A renamed hotel keeps
  saving to its old file (`Hotels.Hotel.ModifyInformation`).
- `load_from_file` assigns `name`, then `loc`, then `rs`. A failure part-way
  keeps the assignments already made (`Hotels.Load`).
- Iterating over a non-list `rs` value yields no rooms when it is an empty
  string or dict. Otherwise it raises TypeError (`Hotels.DecodeRooms`).
- Python's `==` makes `True == 1` and `False == 0`. So a `rn` of `true` in a
  `reser_` file matches room 1 (`Hotels.NumberEquals`).

## Model

| member | source | states |
|---|---|---|
| PyJson.Lookup | hotel.py:92 | `data[key]` succeeds exactly when data is a dict holding the key, and gives its value; a non-dict raises TypeError and a missing key raises KeyError on that key |
| PyJson.Truthy | hotel.py:61-64 | an optional argument counts as given exactly when it is neither None nor the empty string |
| PyJson.LookupString | customers.py:64 | `data[key]` for a field the model types as a string: the string exactly when the lookup gives a string; the lookup's exception when it fails; Unsupported on the key for any other kind of value |
| PyJson.Digits | reservation.py:36 | `str()` of a natural number is a non-empty run of decimal digits that denotes that number |
| PyJson.PyStr | reservation.py:36 | `str()` of a string is the string itself; only the empty string gives empty text; an integer's text starts with `-` exactly when it is negative |
| PyJson.PyStrIntInjective | reservation.py:36 | two integer identifiers give the same text, and so the same file name, only when they are equal |
| Storage.Store.Read | customers.py:62-63 | reading succeeds exactly when the file exists and gives its content; otherwise NotFound with the path |
| Storage.Store.Write | hotel.py:31-32 | the file is created or overwritten with the content; no other file changes |
| Storage.Store.Remove | hotel.py:53 | an existing file is removed and nothing else changes; a missing one gives NotFound and no change |
| Rooms.Encode | room.py:79-84 | the dictionary has exactly the keys rn, room_type, price, available, and carries the price unchanged |
| Rooms.Decode | room.py:60-65 | a non-dict raises TypeError; a missing rn, room_type or price raises KeyError on that key, checked in that order; it succeeds exactly when rn, room_type and price are present with the right kinds and available, if present, is a boolean; the room has the dictionary's rn, room_type and price, and its available, or true when that key is missing |
| Rooms.DecodeEncode | room.py:50-84 | from_dict of to_dict gives back the same room, field by field |
| Rooms.EncodeDecode | room.py:50-84 | a dictionary with exactly the four keys that from_dict accepts is the to_dict of the room it builds |
| Rooms.Room.constructor | room.py:19-32 | the fields are the arguments; available defaults to true |
| Rooms.Room.MakeReservation | room.py:34-36 | available becomes false; number, type and price are unchanged |
| Rooms.Room.CancelReservation | room.py:38-40 | available becomes true whatever it was, so a second call changes nothing; other fields are unchanged |
| Rooms.Room.UpdatePrice | room.py:42-48 | only the price changes, to the new value |
| Rooms.Room.ToDict | room.py:67-84 | the dictionary has exactly the four keys and decodes back to the room's state |
| Rooms.Room.FromDict | room.py:50-65 | raises exactly when Decode fails, with the same exception; otherwise a fresh room in the decoded state |
| Reservations.FileName | reservation.py:36 | the file name is `reservation_`, then the identifier's text, then `.json` |
| Reservations.Reservation.Vars | reservation.py:35 | the instance dictionary has exactly the six field names |
| Reservations.Reservation.SaveToFile | reservation.py:33-38 | the dictionary is written under `reservation_<str(reser_id)>.json`, overwriting; no other file changes |
| Reservations.Get | reservation.py:26-31 | `kwargs.get(key)` is the argument passed under that key, or None when it was not passed |
| Reservations.FromKwargs | reservation.py:24-31 | each of the six names maps to the keyword argument of that name, or None when absent; there are no other fields |
| Reservations.FromKwargsIgnoresExtra | reservation.py:24-31 | adding a keyword that is not one of the six, such as `rn`, does not change the reservation |
| Reservations.FromKwargsVars | reservation.py:24-35 | building a reservation from its own saved dictionary gives it back |
| Reservations.MakeReservation | reservation.py:54-56 | the factory's result has the same six fields as the constructor's; it is a function, so the store is untouched |
| Reservations.CreateReservation | reservation.py:40-45 | the result is the constructed reservation, and the store gains exactly its file |
| Reservations.CancelReservation | reservation.py:47-51 | removes exactly `reservation_<id>.json`; a missing file gives NotFound and no change |
| Customers.FileName | customers.py:20 | the file name is `customer_`, then the identifier, then `.json` |
| Customers.FileNameInjective | customers.py:20 | two customers share a file name only if they share an identifier |
| Customers.Encode | customers.py:24-28 | the saved dictionary has exactly the keys c_id, name, email |
| Customers.Decode | customers.py:63-64 | a non-dict raises TypeError; a missing c_id, name or email raises KeyError on that key, checked in that order; it succeeds exactly when the three keys hold strings, and the customer then has those three strings |
| Customers.DecodeEncode | customers.py:58-64 | loading what save_to_file wrote gives back the same three fields |
| Customers.Customer.constructor | customers.py:15-20 | the fields are the arguments; the file name is `customer_<c_id>.json` |
| Customers.Customer.SaveToFile | customers.py:22-30 | writes exactly c_id, name and email under the customer's file name; no other file changes |
| Customers.Customer.CreateCustomer | customers.py:32-37 | a fresh customer with the arguments; the store gains exactly its file |
| Customers.Customer.DeleteCustomer | customers.py:39-43 | removes exactly `customer_<c_id>.json`; a missing file gives NotFound and no change |
| Customers.Customer.ModifyCustomerInfo | customers.py:50-56 | name and email are replaced only by non-empty arguments; identifier and file name are unchanged; the record is saved either way |
| Customers.Customer.LoadCustomer | customers.py:58-64 | a missing file gives NotFound; otherwise it raises exactly when Decode fails, or gives a fresh customer with the decoded fields whose file name follows from the loaded identifier |
| Customers.CreateThenLoad | customer_test.py:59-71 | on any store, after create_customer, load_customer gives a customer with equal c_id, name and email; the store gains exactly the customer's file |
| Hotels.FileName | hotel.py:22 | the file name is the hotel's name followed by `_data.json` |
| Hotels.FileNameInjective | hotel.py:22 | two hotels share a record file only if they share a name |
| Hotels.CancelKey | hotel.py:90 | the file cancel reads is `reser_`, then the identifier's text, then `.json` |
| Hotels.CancelKeyIsNotReservationFile | hotel.py:90-97 | the `reser_` file that cancel reads is never a `reservation_` file that reserving writes or cancel removes, whatever the two identifiers |
| Hotels.RoomRecords | hotel.py:29 | one dictionary per room, in order, each the room's to_dict |
| Hotels.Record | hotel.py:26-30 | the hotel dictionary has exactly the keys name, loc and rs, and rs is the list of room dictionaries |
| Hotels.DecodeList | hotel.py:41 | decoding a list succeeds exactly when every element decodes, giving one room per element, in order |
| Hotels.DecodeListFailsAt | hotel.py:41 | when element i is the first that from_dict rejects, loading fails with that element's exception |
| Hotels.DecodeRooms | hotel.py:41 | a list decodes element by element; an empty string or dict gives no rooms; any other value raises |
| Hotels.DecodeRoomRecords | hotel.py:24-41 | the saved room list decodes back to the same rooms |
| Hotels.Load | hotel.py:34-41 | it passes exactly when the rooms are replaced; a record without a string name raises before anything changes; a string name is assigned even when loc or rs then fails; a string loc is assigned even when rs then fails; it passes whenever name and loc are strings and rs is present and decodes; a failure at rs is the exception of the lookup or of decoding; new rooms are what DecodeRooms gives for rs |
| Hotels.LoadRecord | hotel.py:24-41 | loading a saved record restores name, location and rooms, whatever the object held before |
| Hotels.NumberEquals | hotel.py:93 | a room number equals a JSON value only when the value is an integer or a boolean; it equals an integer of the same value, and True or False when it is 1 or 0 |
| Hotels.Saved | hotel.py:24-32 | after save_to_file the directory holds one more file at most, the hotel's file, holding the record of the hotel; every other file is unchanged |
| Hotels.Hits | hotel.py:69-93 | the scan accepts a room exactly when its number equals the query's value by Python `==`; the reserve scan at line 69 also requires it to be available, the cancel scan at line 93 does not |
| Hotels.First | hotel.py:69-70 | the index of the first room the scan accepts, or -1 exactly when no room is accepted |
| Hotels.ReserveKwargs | hotel.py:73-80 | r_r passes exactly the keywords reser_id, customer_id, hotel_name, rn, start_date and end_date, with the room number under rn and no room_number |
| Hotels.Booking | hotel.py:73-81 | the reservation r_r saves has the given reservation id, customer id and dates, the hotel's name, and room_number None |
| Hotels.ReservationHasNoRoomNumber | hotel.py:73-80 | the reservation r_r builds has the hotel's name, the given customer and dates, and room_number None |
| Hotels.BuildBooking | hotel.py:73-80 | the built reservation is the one with room_number None |
| Hotels.Reserve | hotel.py:67-84 | succeeds exactly when some room has the number and is available; on failure, hotel and files are unchanged; name, location, file name and the number of rooms never change |
| Hotels.ReserveTakesFirstBookable | hotel.py:69-72 | a successful reserve takes the first available room with the number and changes no other room |
| Hotels.ReserveWritesTwoFiles | hotel.py:73-83 | a successful reserve adds exactly the reservation file and the hotel file; the hotel file holds the updated rooms; the reservation file holds room_number None unless the two names clash; other files are unchanged |
| Hotels.CancelTarget | hotel.py:89-95 | a room is chosen exactly when the `reser_` file exists, holds rn, and some room's number equals it; the chosen room is the first such room |
| Hotels.Cancel | hotel.py:86-102 | name, location, file name and the number of rooms never change; unless the result is true, no file changes |
| Hotels.CancelWithoutRecord | hotel.py:89-102 | without a `reser_` file, the result is false and nothing changes |
| Hotels.CancelRecordWithoutNumber | hotel.py:92 | a `reser_` record that is not a dict with rn raises that exception, and nothing changes |
| Hotels.CancelWithoutMatchingRoom | hotel.py:93-95 | when no room carries the recorded number, the result is false and nothing changes |
| Hotels.CancelReleasesRoom | hotel.py:95-99 | the first room with the recorded number becomes available and no other room changes; with the reservation file present it is removed, the hotel is saved and the result is true |
| Hotels.CancelSwallowsMissingReservation | hotel.py:96-101 | a missing reservation file gives false with no file change, yet the room is already available |
| Hotels.ReserveThenCancelFails | hotel.py:67-102 | when no `reser_<id>.json` file exists and the hotel's record file has another name, cancelling right after reserving with the same identifier reports false and changes nothing |
| Hotels.ReserveThenCancelReadsHotelRecord | hotel.py:86-92 | when the hotel's record file is `reser_<id>.json`, cancelling right after a successful reserve reads the hotel record, raises KeyError on rn and changes nothing |
| Hotels.HotelRecordCanBeCancelKey | hotel.py:22-90 | the hotel `reser_a` keeps its record in `reser_a_data.json`, which is the `reser_` file of the identifier `a_data` |
| Hotels.ReserveThenCancelInTest | hotel_test.py:73-88 | with the test's values, reserving succeeds, cancelling reports false, and the room stays unavailable |
| Hotels.Hotel.constructor | hotel.py:17-22 | the hotel has the given name and location, no rooms, and the file `<name>_data.json` |
| Hotels.Hotel.SaveToFile | hotel.py:24-32 | the hotel's file holds name, location and the room dictionaries; no other file changes |
| Hotels.Hotel.LoadFromFile | hotel.py:34-41 | a missing file gives NotFound and no change; otherwise the object holds what Load gives, and new rooms are fresh, distinct objects |
| Hotels.Hotel.BuildRooms | hotel.py:41 | fresh, distinct rooms decoded from the list, or the exception of the first element that fails |
| Hotels.Hotel.CreateHotel | hotel.py:43-48 | a fresh hotel with no rooms; the store gains exactly its record |
| Hotels.Hotel.DeleteHotel | hotel.py:50-53 | removes exactly the hotel's file; a missing file gives NotFound and no change |
| Hotels.Hotel.DisplayInformation | hotel.py:55-57 | the text is "Hotel Name: ", the name, ", loc: ", the location |
| Hotels.Hotel.ModifyInformation | hotel.py:59-65 | name and location are replaced only by non-empty arguments; the file name and rooms are unchanged; the record is saved under the old file name |
| Hotels.Hotel.SetAvailable | hotel.py:72-96 | for `room.make_reservation()` at line 72 and `room.cancel_reservation()` at line 96, every entry of rs that is the chosen room object gets the new flag; other rooms are unchanged |
| Hotels.Hotel.ReserveRoom | hotel.py:67-84 | true exactly when some room has the number and is available; on false nothing changes; on true the first such room object is taken, the reservation file and then the hotel file are written; with distinct rooms the result agrees with Reserve |
| Hotels.Hotel.BookAt | hotel.py:71-83 | the chosen room object is taken; the reservation and then the hotel are saved |
| Hotels.Hotel.SaveBooking | hotel.py:81-82 | the reservation file is written, then the hotel file |
| Hotels.Hotel.CancelReservation | hotel.py:86-102 | the result is Cancel's; only the first room object with the recorded number is set available; files change only when the result is true, by removing the reservation file and saving the hotel; with distinct rooms the new state agrees with Cancel |
| Hotels.Hotel.ReleaseAt | hotel.py:95-101 | the chosen room object is set available; the reservation file is removed and the hotel saved, or, when it is missing, the result is false and no file changes |

## Left out

- Real file I/O and JSON text. The directory is a map from file name to
  parsed value, so malformed JSON, permissions and partial writes are not
  modelled.
- File names are compared as exact strings. Path aliasing (`./x` and `x`),
  case-insensitive file systems and missing directories (a `/` in an
  identifier makes `open(..., 'w')` raise) are not modelled. So
  `Hotels.FileNameInjective`, `Customers.FileNameInjective` and
  `Hotels.CancelKeyIsNotReservationFile` are facts about names, not about
  files, and a write in the model always succeeds.
- Floating-point numbers. A price is kept as an uninterpreted JSON value that
  is only stored and copied. Integer-versus-float equality in the room-number
  scans is therefore not modelled.
- Concurrency and crashes between the two saves of `r_r`. The model is
  single-threaded, so only the order of the writes is modelled.
- `display_customer_info` (customers.py:45-48), because it only prints to
  standard output.
- The unittest harness and its clean-up of files. Tests are used only as
  statements of expected behaviour.
- Rooms.Decode: the model types room numbers as integers, room types as
  strings and availability as booleans. A record holding another kind of
  value there gives `Unsupported`, where Python would accept it and build
  the room anyway.
- Customers.Decode: identifiers, names and e-mails are typed as strings. Other
  kinds of value in a saved record give `Unsupported`, where Python would
  accept them. The non-string customer identifier used in one test
  (customer_test.py:19) is outside the model.
- Hotels.Load: a hotel name or location that is not a string gives
  `Unsupported`, where Python would assign it.
- Reservations.FileName: Python's `str()` of a list or dict inside a file name
  is rendered as a fixed placeholder, not as Python's text of the value.
- Hotels.Reserve, Hotels.Hotel.ReserveRoom, Hotels.Hotel.CancelReservation:
  reservation and customer identifiers, dates and the room number are any
  JSON value, as in Python, but the hotel's own name is typed as a string.
  A hotel whose name is some other kind of value is outside the model.
- Hotels.Hotel.ReserveRoom: the link to the pure `Reserve` function is stated
  only when `rs` holds distinct room objects. With aliased rooms the method's
  own clauses describe every entry.
- Hotels.Hotel.CancelReservation: the link to the pure `Cancel` function is
  stated only when `rs` holds distinct room objects. With aliased rooms the
  method's own clauses describe every entry.
