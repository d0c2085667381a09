/** The directory of JSON files every record is persisted in, seen as a map
    from file name to the parsed content of that file. */
module Storage {
  import opened PyJson

  class Store {
    var files: map<string, Value>

    constructor (files: map<string, Value>)
      ensures this.files == files
    {
      this.files := files;
    }

    /** `open(path, 'r')` followed by `json.load`. */
    function Read(path: string): (r: Result<Value>)
      reads this
      ensures r.Ok? <==> path in files
      ensures r.Ok? ==> r.value == files[path]
      ensures r.Err? ==> r.failure == NotFound(path)
    {
      if path in files then Ok(files[path]) else Err(NotFound(path))
    }

    /** `open(path, 'w')` followed by `json.dump`: creates or overwrites. */
    method Write(path: string, content: Value)
      modifies this
      ensures files == old(files)[path := content]
    {
      files := files[path := content];
    }

    /** `os.remove(path)`. */
    method Remove(path: string) returns (o: Outcome)
      modifies this
      ensures path in old(files) ==> o == Pass && files == old(files) - {path}
      ensures path !in old(files) ==> o == Fail(NotFound(path)) && files == old(files)
    {
      if path in files {
        files := files - {path};
        o := Pass;
      } else {
        o := Fail(NotFound(path));
      }
    }
  }
}
