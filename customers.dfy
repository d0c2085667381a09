/** A customer record: identifier, name and e-mail, persisted under a file
    name derived from the identifier. */
module Customers {
  import opened PyJson
  import Storage

  datatype CustomerState = CustomerState(cId: string, name: string, email: string)

  /** `f"customer_{c_id}.json"` */
  function FileName(cId: string): (f: string)
    ensures |f| == 14 + |cId|
    ensures f[..9] == "customer_" && f[9..9 + |cId|] == cId && f[9 + |cId|..] == ".json"
  {
    "customer_" + cId + ".json"
  }

  /** Two customers share a file only if they share an identifier. */
  lemma FileNameInjective(a: string, b: string)
    requires FileName(a) == FileName(b)
    ensures a == b
  {
  }

  /** The dictionary `save_to_file` writes. */
  function Encode(c: CustomerState): (v: Value)
    ensures v.Object? && v.fields.Keys == {"c_id", "name", "email"}
  {
    Object(map["c_id" := Str(c.cId), "name" := Str(c.name), "email" := Str(c.email)])
  }

  /** The fields `load_customer` reads: `data['c_id']`, `data['name']`,
      `data['email']`, in that order. */
  function Decode(data: Value): (r: Result<CustomerState>)
    ensures !data.Object? ==> r == Err(TypeError)
    ensures data.Object? && "c_id" !in data.fields ==> r == Err(MissingKey("c_id"))
    ensures data.Object? && "c_id" in data.fields && data.fields["c_id"].Str? && "name" !in data.fields ==>
      r == Err(MissingKey("name"))
    ensures data.Object? && "c_id" in data.fields && data.fields["c_id"].Str? &&
            "name" in data.fields && data.fields["name"].Str? && "email" !in data.fields ==>
      r == Err(MissingKey("email"))
    ensures r.Ok? <==>
      data.Object? &&
      "c_id" in data.fields && data.fields["c_id"].Str? &&
      "name" in data.fields && data.fields["name"].Str? &&
      "email" in data.fields && data.fields["email"].Str?
    ensures r.Ok? ==>
      r.value == CustomerState(data.fields["c_id"].s, data.fields["name"].s, data.fields["email"].s)
  {
    var cId :- LookupString(data, "c_id");
    var name :- LookupString(data, "name");
    var email :- LookupString(data, "email");
    Ok(CustomerState(cId, name, email))
  }

  /** Loading what was saved gives back the same three fields. */
  lemma DecodeEncode(c: CustomerState)
    ensures Decode(Encode(c)) == Ok(c)
  {
  }

  class Customer {
    var cId: string
    var name: string
    var email: string
    var filename: string

    function State(): CustomerState
      reads this
    {
      CustomerState(cId, name, email)
    }

    /** `Customer(c_id, name, email)`: stores the arguments unchanged; the
        file name follows from the identifier. */
    constructor (cId: string, name: string, email: string)
      ensures State() == CustomerState(cId, name, email)
      ensures filename == FileName(cId)
    {
      this.cId := cId;
      this.name := name;
      this.email := email;
      this.filename := FileName(cId);
    }

    /** `save_to_file`: writes exactly `c_id`, `name` and `email`. */
    method SaveToFile(store: Storage.Store)
      modifies store
      ensures store.files == old(store.files)[filename := Encode(State())]
    {
      store.Write(filename, Encode(State()));
    }

    /** `Customer.create_customer`: build, then save. */
    static method CreateCustomer(cId: string, name: string, email: string, store: Storage.Store)
      returns (c: Customer)
      modifies store
      ensures fresh(c)
      ensures c.State() == CustomerState(cId, name, email) && c.filename == FileName(cId)
      ensures store.files == old(store.files)[FileName(cId) := Encode(c.State())]
    {
      c := new Customer(cId, name, email);
      c.SaveToFile(store);
    }

    /** `Customer.delete_customer`: removes that one file; a missing file
        is a NotFound failure. */
    static method DeleteCustomer(cId: string, store: Storage.Store) returns (o: Outcome)
      modifies store
      ensures FileName(cId) in old(store.files) ==>
        o == Pass && store.files == old(store.files) - {FileName(cId)}
      ensures FileName(cId) !in old(store.files) ==>
        o == Fail(NotFound(FileName(cId))) && store.files == old(store.files)
    {
      o := store.Remove(FileName(cId));
    }

    /** `modify_customer_info`: only non-empty arguments replace a field;
        the record is saved either way. */
    method ModifyCustomerInfo(newName: Option<string>, newEmail: Option<string>, store: Storage.Store)
      modifies this, store
      ensures name == (if Truthy(newName) then newName.value else old(name))
      ensures email == (if Truthy(newEmail) then newEmail.value else old(email))
      ensures cId == old(cId) && filename == old(filename)
      ensures store.files == old(store.files)[filename := Encode(State())]
    {
      if Truthy(newName) {
        name := newName.value;
      }
      if Truthy(newEmail) {
        email := newEmail.value;
      }
      SaveToFile(store);
    }

    /** `Customer.load_customer`: a fresh customer built from the file, or
        the exception raised while opening or reading it. */
    static method LoadCustomer(cId: string, store: Storage.Store) returns (r: Result<Customer>)
      ensures FileName(cId) !in store.files ==> r == Err(NotFound(FileName(cId)))
      ensures FileName(cId) in store.files ==>
        (r.Err? <==> Decode(store.files[FileName(cId)]).Err?) &&
        (r.Err? ==> r.failure == Decode(store.files[FileName(cId)]).failure) &&
        (r.Ok? ==> fresh(r.value) && r.value.State() == Decode(store.files[FileName(cId)]).value &&
                   r.value.filename == FileName(r.value.cId))
    {
      var data := store.Read(FileName(cId));
      if data.Err? {
        return Err(data.failure);
      }
      match Decode(data.value)
      case Ok(s) =>
        var c := new Customer(s.cId, s.name, s.email);
        r := Ok(c);
      case Err(e) =>
        r := Err(e);
    }
  }

  /** The load test: create, then load by identifier, on any store; the
      loaded customer has the same three fields and the same file name. */
  method CreateThenLoad(cId: string, name: string, email: string, store: Storage.Store)
    returns (created: CustomerState, loaded: Result<CustomerState>)
    modifies store
    ensures created == CustomerState(cId, name, email)
    ensures loaded == Ok(created)
    ensures store.files == old(store.files)[FileName(cId) := Encode(created)]
  {
    var c := Customer.CreateCustomer(cId, name, email, store);
    created := c.State();
    var r := Customer.LoadCustomer(cId, store);
    DecodeEncode(created);
    match r
    case Ok(loadedCustomer) =>
      assert loadedCustomer.filename == c.filename;
      loaded := Ok(loadedCustomer.State());
    case Err(e) => loaded := Err(e);
  }
}
