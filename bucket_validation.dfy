/** Schema validation of the day's raw files and their copying into the data lake
    (`fetch_and_validate_bucket` and its helpers `valid_file` and `send_file_to_minio`). Listing the
    source bucket, downloading a key to a temporary file and parsing it are inputs: `listing` is the
    listed object names and `download(key)` the records `read_json_file` returns for a key. */
module FetchAndValidate {
  import opened Rows
  import opened Records

  /** The three Draft-7 schema validators loaded at start-up, one per kind of record. */
  datatype Validators = Validators(
    vehicleUpdate: Record -> bool,
    vehicleRegistration: Record -> bool,
    operatingPeriod: Record -> bool)

  function ValidatorFor(v: Validators, k: Kind): Record -> bool
  {
    match k
    case VehicleUpdateKind => v.vehicleUpdate
    case VehicleRegistrationKind => v.vehicleRegistration
    case OperatingPeriodKind => v.operatingPeriod
  }

  /** A record passes when the validator of its kind accepts it; a record of any other
      (`on`, `event`) pair is not checked at all. */
  predicate RecordPasses(v: Validators, obj: Record)
  {
    match KindOf(obj)
    case None => true
    case Some(k) => ValidatorFor(v, k)(obj)
  }

  /** A file is valid when every one of its records passes. */
  predicate FileIsValid(records: seq<Record>, v: Validators)
  {
    forall i :: 0 <= i < |records| ==> RecordPasses(v, records[i])
  }

  /** `valid_file`: starts from true and clears the flag on every failing record, never setting
      it back, so the answer is the conjunction over the whole file. */
  method ValidFile(records: seq<Record>, v: Validators) returns (res: bool)
    ensures res == FileIsValid(records, v)
  {
    res := true;
    var i := 0;
    while i < |records|
      invariant 0 <= i <= |records|
      invariant res <==> forall j :: 0 <= j < i ==> RecordPasses(v, records[j])
    {
      var obj := records[i];
      var on, event := obj.on, obj.event;
      if on == Some("vehicle") && event == Some("update") {
        if !v.vehicleUpdate(obj) {
          res := false;
        }
      } else if on == Some("vehicle") && (event == Some("register") || event == Some("deregister")) {
        if !v.vehicleRegistration(obj) {
          res := false;
        }
      } else if on == Some("operating_period") && (event == Some("create") || event == Some("delete")) {
        if !v.operatingPeriod(obj) {
          res := false;
        }
      }
      i := i + 1;
    }
  }

  /** An empty file is valid, and so is one whose records are all of unrecognised kinds. */
  lemma UnrecognisedOnlyIsValid(records: seq<Record>, v: Validators)
    requires forall i :: 0 <= i < |records| ==> KindOf(records[i]).None?
    ensures FileIsValid(records, v)
  {
  }

  /** Validity of a concatenation is validity of both parts: a failing record rejects the file
      wherever it stands, and valid records after it do not recover it. */
  lemma FileIsValidConcat(a: seq<Record>, b: seq<Record>, v: Validators)
    ensures FileIsValid(a + b, v) <==> FileIsValid(a, v) && FileIsValid(b, v)
  {
    if FileIsValid(a, v) && FileIsValid(b, v) {
      forall i | 0 <= i < |a + b| ensures RecordPasses(v, (a + b)[i]) {
        if i >= |a| {
          assert (a + b)[i] == b[i - |a|];
        }
      }
    }
    if FileIsValid(a + b, v) {
      forall i | 0 <= i < |b| ensures RecordPasses(v, b[i]) {
        assert (a + b)[|a| + i] == b[i];
      }
      forall i | 0 <= i < |a| ensures RecordPasses(v, a[i]) {
        assert (a + b)[i] == a[i];
      }
    }
  }

  // ---------------------------------------------------------------------------------------------
  // Object names

  /** `os.path.basename`: the part after the last `/`, the whole name when it has none. */
  function Basename(p: string): (b: string)
    ensures '/' !in b
    ensures |b| <= |p| && b == p[|p| - |b|..]
    ensures |b| < |p| ==> p[|p| - |b| - 1] == '/'
  {
    if p == [] then []
    else if p[|p| - 1] == '/' then []
    else Basename(p[..|p| - 1]) + [p[|p| - 1]]
  }

  /** The name after a final `/` is the basename. */
  lemma {:induction false} BasenameAfterSlash(a: string, b: string)
    requires '/' !in b
    ensures Basename(a + "/" + b) == b
  {
    var p := a + "/" + b;
    if b == [] {
      assert p[|p| - 1] == '/';
    } else {
      assert p[..|p| - 1] == a + "/" + b[..|b| - 1];
      assert p[|p| - 1] == b[|b| - 1];
      BasenameAfterSlash(a, b[..|b| - 1]);
      assert b == b[..|b| - 1] + [b[|b| - 1]];
    }
  }

  /** `os.path.join(a, b)` of two components: an absolute `b` replaces `a`; otherwise one '/'
      separates them unless `a` is empty or already ends in '/'. */
  function Join(a: string, b: string): (r: string)
    ensures |b| > 0 && b[0] == '/' ==> r == b
    ensures !(|b| > 0 && b[0] == '/') && (a == [] || a[|a| - 1] == '/') ==> r == a + b
    ensures !(|b| > 0 && b[0] == '/') && a != [] && a[|a| - 1] != '/' ==> r == a + "/" + b
    ensures |b| <= |r| && r[|r| - |b|..] == b
    ensures a <= r || (|b| > 0 && b[0] == '/')
  {
    if |b| > 0 && b[0] == '/' then b
    else if a == [] || a[|a| - 1] == '/' then a + b
    else a + "/" + b
  }

  /** The object name `send_file_to_minio` uploads under: the one given unless it is absent or
      empty, otherwise the prefix joined with the file's own basename. */
  function ObjectName(given: Option<string>, prefix: string, filePath: string): (name: string)
    ensures given.Some? && given.value != [] ==> name == given.value
    ensures (given.None? || given.value == []) && prefix == [] ==> name == Basename(filePath)
    ensures (given.None? || given.value == []) && |prefix| > 0 && prefix[|prefix| - 1] == '/'
            ==> name == prefix + Basename(filePath)
    ensures (given.None? || given.value == []) && |prefix| > 0 && prefix[|prefix| - 1] != '/'
            ==> name == prefix + "/" + Basename(filePath)
  {
    if given.None? || given.value == [] then
      var b := Basename(filePath);
      assert |b| > 0 ==> b[0] in b;
      Join(prefix, b)
    else given.value
  }

  /** Without a given name, a prefix that does not end in '/' is still separated from the
      basename: `2024-01-01` and `tmp/x.json` give `2024-01-01/x.json`, never `2024-01-01x.json`. */
  lemma DefaultNameSeparated()
    ensures ObjectName(None, "2024-01-01", "tmp/x.json") == "2024-01-01/x.json"
    ensures ObjectName(None, "", "tmp/x.json") == "x.json"
  {
    var path, base := "tmp/x.json", "x.json";
    assert path == "tmp" + "/" + base;
    BasenameAfterSlash("tmp", base);
    assert Basename(path) == base;
    var prefix := "2024-01-01";
    assert prefix[|prefix| - 1] != '/';
    assert ObjectName(None, prefix, path) == prefix + "/" + base;
  }

  // ---------------------------------------------------------------------------------------------
  // Selection of the day's keys and the uploads they give

  /** The keys whose basename starts with the date string, in listing order. */
  function SelectKeys(listing: seq<string>, date: string): (keys: seq<string>)
    ensures |keys| <= |listing|
  {
    if listing == [] then []
    else
      var key := listing[|listing| - 1];
      SelectKeys(listing[..|listing| - 1], date) + (if date <= Basename(key) then [key] else [])
  }

  /** A key is selected iff it was listed and its basename starts with the date; a key whose
      directory part starts with the date but whose basename does not is not selected. */
  lemma {:induction false} SelectKeysMembership(listing: seq<string>, date: string, key: string)
    ensures key in SelectKeys(listing, date) <==> key in listing && date <= Basename(key)
  {
    if listing != [] {
      var front := listing[..|listing| - 1];
      assert listing == front + [listing[|listing| - 1]];
      SelectKeysMembership(front, date, key);
    }
  }

  /** Selection keeps listing order: the keys of `a + b` are those of `a` followed by those of `b`. */
  lemma {:induction false} SelectKeysConcat(a: seq<string>, b: seq<string>, date: string)
    ensures SelectKeys(a + b, date) == SelectKeys(a, date) + SelectKeys(b, date)
  {
    if b == [] {
      assert a + b == a;
    } else {
      var front := b[..|b| - 1];
      assert (a + b)[..|a + b| - 1] == a + front;
      assert (a + b)[|a + b| - 1] == b[|b| - 1];
      SelectKeysConcat(a, front, date);
    }
  }

  /** One `put_object` call: bucket, object name, and the listed key whose content is sent. */
  datatype Upload = Upload(bucket: string, objectName: string, source: string)

  /** The upload of a key that passed validation: into `datalake`, under the date folder and the
      key's own basename. */
  function UploadOf(date: string, key: string): Upload
  {
    Upload("datalake", date + "/" + Basename(key), key)
  }

  /** The uploads for the keys `keys`, in order, one per valid file. */
  function PlannedUploads(keys: seq<string>, date: string, download: string -> seq<Record>, v: Validators): (uploads: seq<Upload>)
    ensures |uploads| <= |keys|
  {
    if keys == [] then []
    else
      var key := keys[|keys| - 1];
      PlannedUploads(keys[..|keys| - 1], date, download, v)
        + (if FileIsValid(download(key), v) then [UploadOf(date, key)] else [])
  }

  /** One more key adds its upload, if its file is valid, after those of the keys before it. */
  lemma PlannedUploadsStep(keys: seq<string>, i: nat, date: string, download: string -> seq<Record>, v: Validators)
    requires i < |keys|
    ensures PlannedUploads(keys[..i + 1], date, download, v)
         == PlannedUploads(keys[..i], date, download, v)
            + (if FileIsValid(download(keys[i]), v) then [UploadOf(date, keys[i])] else [])
  {
    assert keys[..i + 1][..i] == keys[..i];
  }

  /** The explicit object name makes the upload independent of the temporary file's name, which
      the default name would have used instead of the key's. */
  lemma UploadIgnoresTempName(date: string, key: string, tmp: string)
    ensures Upload("datalake", ObjectName(Some(date + "/" + Basename(key)), date + "/", tmp), key) == UploadOf(date, key)
    ensures ObjectName(None, date + "/", tmp) == date + "/" + Basename(tmp)
  {
    var given := date + "/" + Basename(key);
    assert given[|date|] == '/';
    assert ObjectName(Some(given), date + "/", tmp) == given;
    var prefix := date + "/";
    assert |prefix| > 0 && prefix[|prefix| - 1] == '/';
    assert ObjectName(None, prefix, tmp) == prefix + Basename(tmp);
  }

  /** `fetch_and_validate_bucket`: every selected key is downloaded and validated, the valid ones
      are uploaded, and the date string is returned for the next task. `tempPath(key)` is the name
      of the temporary file the key is downloaded to. */
  method FetchAndValidateBucket(listing: seq<string>, date: string, download: string -> seq<Record>,
                                v: Validators, tempPath: string -> string)
    returns (uploads: seq<Upload>, dateOut: string)
    ensures uploads == PlannedUploads(SelectKeys(listing, date), date, download, v)
    ensures dateOut == date
  {
    var keys := SelectKeys(listing, date);
    uploads := [];
    var i := 0;
    while i < |keys|
      invariant 0 <= i <= |keys|
      invariant uploads == PlannedUploads(keys[..i], date, download, v)
    {
      var key := keys[i];
      var basename := Basename(key);
      var ok := ValidFile(download(key), v);
      if ok {
        var name := ObjectName(Some(date + "/" + basename), date + "/", tempPath(key));
        UploadIgnoresTempName(date, key, tempPath(key));
        uploads := uploads + [Upload("datalake", name, key)];
      }
      PlannedUploadsStep(keys, i, date, download, v);
      i := i + 1;
    }
    assert keys[..i] == keys;
    dateOut := date;
  }

  /** An upload is planned for a key iff the key is among `keys` and its file is valid. */
  lemma PlannedUploadsMembership(keys: seq<string>, date: string, download: string -> seq<Record>,
                                 v: Validators, key: string)
    ensures UploadOf(date, key) in PlannedUploads(keys, date, download, v)
        <==> key in keys && FileIsValid(download(key), v)
  {
    PlannedUploadsSound(keys, date, download, v);
    if key in keys && FileIsValid(download(key), v) {
      PlannedUploadsComplete(keys, date, download, v, key);
    }
  }

  /** A selected key whose file is valid has its upload planned. */
  lemma {:induction false} PlannedUploadsComplete(keys: seq<string>, date: string, download: string -> seq<Record>,
                                                  v: Validators, key: string)
    requires key in keys && FileIsValid(download(key), v)
    ensures UploadOf(date, key) in PlannedUploads(keys, date, download, v)
  {
    var front, last := keys[..|keys| - 1], keys[|keys| - 1];
    assert keys == front + [last];
    var added := if FileIsValid(download(last), v) then [UploadOf(date, last)] else [];
    assert PlannedUploads(keys, date, download, v) == PlannedUploads(front, date, download, v) + added;
    if key != last {
      PlannedUploadsComplete(front, date, download, v, key);
    }
  }

  lemma UploadOfInjective(date: string, k1: string, k2: string)
    ensures UploadOf(date, k1) == UploadOf(date, k2) <==> k1 == k2
  {
    if UploadOf(date, k1) == UploadOf(date, k2) {
      assert UploadOf(date, k1).source == UploadOf(date, k2).source;
    }
  }

  /** Nothing else is uploaded: every planned upload is the upload of one of `keys` whose file is
      valid. */
  lemma {:induction false} PlannedUploadsSound(keys: seq<string>, date: string, download: string -> seq<Record>,
                                               v: Validators)
    ensures forall u :: u in PlannedUploads(keys, date, download, v) ==>
              u.source in keys && FileIsValid(download(u.source), v) && u == UploadOf(date, u.source)
  {
    if keys != [] {
      var front, last := keys[..|keys| - 1], keys[|keys| - 1];
      assert keys == front + [last];
      PlannedUploadsSound(front, date, download, v);
      var added := if FileIsValid(download(last), v) then [UploadOf(date, last)] else [];
      assert PlannedUploads(keys, date, download, v) == PlannedUploads(front, date, download, v) + added;
    }
  }

  /** Every uploaded object lands in `datalake` under the folder `<date>/` that the import task
      lists, and keeps the basename of its source key, so the same date selects it again. */
  lemma UploadLandsUnderDate(date: string, key: string)
    requires date <= Basename(key)
    ensures var u := UploadOf(date, key);
      && u.bucket == "datalake"
      && date + "/" <= u.objectName
      && Basename(u.objectName) == Basename(key)
      && date <= Basename(u.objectName)
  {
    BasenameAfterSlash(date, Basename(key));
  }

  /** Two keys in different folders with the same basename are uploaded under the same object
      name of `datalake`. */
  lemma SameBasenameSameObject(date: string, k1: string, k2: string)
    requires Basename(k1) == Basename(k2)
    ensures UploadOf(date, k1).objectName == UploadOf(date, k2).objectName
  {
  }
}
