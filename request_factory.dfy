/**
 * The HTTP requests of the kDrive upload API: the parameter map of an
 * upload, built in a dictionary that refuses a key twice, and the method,
 * path, query and body of the direct upload, session start, chunk, finish,
 * cancel and download requests.
 */
module RequestFactory {
  import opened Common
  import opened Hex
  import opened Text
  import opened Models
  import opened Chunks
  import opened Files

  datatype HttpMethod = Get | Post | Delete

  /** A boxed parameter value: the string and number objects the map holds. */
  datatype ParamValue = TextValue(text: string) | NumberValue(number: int)

  /** `object.ToString()` of a boxed value, as string interpolation writes it. */
  function Render(v: ParamValue): string
  {
    match v
    case TextValue(s) => s
    case NumberValue(n) => IntToString(n)
  }

  /**
   * A request body: none, octets sent as `application/octet-stream` with the
   * Content-Length header the request declares, or a JSON object with these
   * members in this order, sent as `application/json`.
   */
  datatype Body =
    | NoBody
    | Binary(bytes: seq<byte>, contentLength: int)
    | Json(fields: seq<(string, ParamValue)>)

  datatype HttpRequest = HttpRequest(verb: HttpMethod, url: string, body: Body)

  type Params = seq<(string, ParamValue)>

  /** The value stored under `key`, if any. */
  function Lookup(ps: Params, key: string): Option<ParamValue>
  {
    if ps == [] then None
    else if ps[0].0 == key then Some(ps[0].1)
    else Lookup(ps[1..], key)
  }

  lemma {:induction false} LookupAppend(a: Params, b: Params, key: string)
    ensures Lookup(a + b, key) == if Lookup(a, key).Some? then Lookup(a, key) else Lookup(b, key)
  {
    if a != [] {
      assert (a + b)[1..] == a[1..] + b;
      LookupAppend(a[1..], b, key);
    } else {
      assert a + b == b;
    }
  }

  predicate HasKey(ps: Params, key: string)
  {
    exists i | 0 <= i < |ps| :: ps[i].0 == key
  }

  /** A key is in a concatenation exactly when it is in one of the parts. */
  lemma HasKeyAppend(a: Params, b: Params, key: string)
    ensures HasKey(a + b, key) <==> HasKey(a, key) || HasKey(b, key)
  {
    if HasKey(a, key) {
      var i :| 0 <= i < |a| && a[i].0 == key;
      assert (a + b)[i].0 == key;
    }
    if HasKey(b, key) {
      var i :| 0 <= i < |b| && b[i].0 == key;
      assert (a + b)[|a| + i].0 == key;
    }
    if HasKey(a + b, key) {
      var i :| 0 <= i < |a + b| && (a + b)[i].0 == key;
      if i < |a| {
        assert a[i].0 == key;
      } else {
        assert b[i - |a|].0 == key;
      }
    }
  }

  /** No key occurs twice. */
  predicate UniqueKeys(ps: Params)
  {
    forall i, j | 0 <= i < j < |ps| :: ps[i].0 != ps[j].0
  }

  const DuplicateKeyMessage: string := "An item with the same key has already been added."

  /** What `Dictionary.Add` does: refuse a key already present, otherwise append the pair. */
  predicate Added(before: Params, key: string, value: ParamValue, outcome: Outcome<Exception>, after: Params)
  {
    if HasKey(before, key) then outcome == Fail(ArgumentException(DuplicateKeyMessage)) && after == before
    else outcome == Pass && after == before + [(key, value)]
  }

  /** A string-keyed dictionary whose entries enumerate in insertion order. */
  class Dictionary {
    var entries: Params

    constructor ()
      ensures entries == []
    {
      entries := [];
    }

    method Add(key: string, value: ParamValue) returns (outcome: Outcome<Exception>)
      modifies this
      ensures Added(old(entries), key, value, outcome, entries)
    {
      if HasKey(entries, key) {
        return Fail(ArgumentException(DuplicateKeyMessage));
      }
      entries := entries + [(key, value)];
      outcome := Pass;
    }
  }

  // The upload parameter map.

  const DirectoryMessage: string := "Either DirectoryId or DirectoryPath must be provided"

  /** The directory entry: the id when there is one, even blank, else a non-blank path. */
  function DirectoryParam(view: FileView): Result<(string, ParamValue), Exception>
  {
    if view.directoryId.Some? then Ok(("directory_id", TextValue(view.directoryId.value)))
    else if !IsNullOrWhiteSpace(view.directoryPath) then Ok(("directory_path", TextValue(view.directoryPath.value)))
    else Err(ArgumentException(DirectoryMessage))
  }

  /** A text entry present only for a value that is neither null nor white space. */
  function OptionalText(key: string, value: Option<string>): Params
  {
    if IsNullOrWhiteSpace(value) then [] else [(key, TextValue(value.value))]
  }

  /** A number entry present only for a positive value. */
  function OptionalNumber(key: string, value: int): Params
  {
    if value > 0 then [(key, NumberValue(value))] else []
  }

  /** The `sha256:`-prefixed, lower-cased digest, as the API expects every hash. */
  function HashValue(hash: string): string
  {
    "sha256:" + ToLowerInvariant(hash)
  }

  function OptionalHash(hash: string): Params
  {
    if IsNullOrWhiteSpace(Some(hash)) then [] else [("total_chunk_hash", TextValue(HashValue(hash)))]
  }

  /**
   * The parameters of an upload, in the order they are added: the escaped
   * name, the total size and the conflict policy, the directory, then the
   * optional link target, timestamps, chunk count and the file's total hash,
   * which digests the content stream from its current position. No
   * directory fails first; a file without a content stream fails when its
   * digest is taken.
   */
  function UploadParams(p: Platform, view: FileView): Result<Params, Exception>
  {
    match DirectoryParam(view)
    case Err(e) => Err(e)
    case Ok(dir) =>
      if view.content.None? then Err(ArgumentNullException)
      else Ok(RequiredParams(p, view) + [dir] + OptionalParams(view, view.StreamHash(p.sha256)))
  }

  /**
   * The file once its parameter map has been built: taking the digest moved
   * the stream to its end, unless the map failed before the digest was taken.
   */
  function AfterUploadParams(view: FileView): FileView
  {
    if DirectoryParam(view).Ok? && view.content.Some? then view.AfterDigest() else view
  }

  /** The entries after the directory, each present only when its value is set. */
  function OptionalParams(view: FileView, hash: string): Params
  {
    MetadataParams(view) + OptionalHash(hash)
  }

  /** The optional entries the file's own fields give: link target, times, chunk count. */
  function MetadataParams(view: FileView): Params
  {
    OptionalText("with", view.symbolicLink)
    + OptionalNumber("created_at", view.createdAt)
    + OptionalNumber("last_modified_at", view.lastModifiedAt)
    + OptionalNumber("total_chunks", |view.chunks|)
  }

  /** The entries every upload carries: escaped name, total size, conflict policy. */
  function RequiredParams(p: Platform, view: FileView): Params
  {
    [("file_name", TextValue(view.GetEscapedFileName(p.escapeDataString))),
     ("total_size", NumberValue(view.TotalSize())),
     ("conflict", TextValue(p.conflictValue))]
  }

  /** The dictionary initialiser: the three entries every upload carries. */
  method NewUploadParams(p: Platform, view: FileView) returns (list: Dictionary)
    ensures fresh(list) && list.entries == RequiredParams(p, view)
  {
    list := new Dictionary();
    var o := list.Add("file_name", TextValue(view.GetEscapedFileName(p.escapeDataString)));
    o := list.Add("total_size", NumberValue(view.TotalSize()));
    o := list.Add("conflict", TextValue(p.conflictValue));
  }

  method AddDirectoryParam(view: FileView, list: Dictionary) returns (outcome: Outcome<Exception>)
    modifies list
    ensures DirectoryParam(view).Err? ==> outcome == Fail(DirectoryParam(view).error) && list.entries == old(list.entries)
    ensures DirectoryParam(view).Ok? ==>
      var (key, value) := DirectoryParam(view).value;
      Added(old(list.entries), key, value, outcome, list.entries)
  {
    if view.directoryId.Some? {
      outcome := list.Add("directory_id", TextValue(view.directoryId.value));
    } else if !IsNullOrWhiteSpace(view.directoryPath) {
      outcome := list.Add("directory_path", TextValue(view.directoryPath.value));
    } else {
      outcome := Fail(ArgumentException(DirectoryMessage));
    }
  }

  method AddOptionalParam(list: Dictionary, key: string, value: Option<string>) returns (outcome: Outcome<Exception>)
    modifies list
    ensures !HasKey(old(list.entries), key) || IsNullOrWhiteSpace(value) ==>
      outcome == Pass && list.entries == old(list.entries) + OptionalText(key, value)
    ensures HasKey(old(list.entries), key) && !IsNullOrWhiteSpace(value) ==>
      outcome == Fail(ArgumentException(DuplicateKeyMessage)) && list.entries == old(list.entries)
  {
    outcome := Pass;
    if !IsNullOrWhiteSpace(value) {
      outcome := list.Add(key, TextValue(value.value));
    }
  }

  method AddOptionalNumericParam(list: Dictionary, key: string, value: int) returns (outcome: Outcome<Exception>)
    modifies list
    ensures !HasKey(old(list.entries), key) || value <= 0 ==>
      outcome == Pass && list.entries == old(list.entries) + OptionalNumber(key, value)
    ensures HasKey(old(list.entries), key) && value > 0 ==>
      outcome == Fail(ArgumentException(DuplicateKeyMessage)) && list.entries == old(list.entries)
  {
    outcome := Pass;
    if value > 0 {
      outcome := list.Add(key, NumberValue(value));
    }
  }

  method AddOptionalChunkHash(list: Dictionary, hash: string) returns (outcome: Outcome<Exception>)
    modifies list
    ensures !HasKey(old(list.entries), "total_chunk_hash") || IsNullOrWhiteSpace(Some(hash)) ==>
      outcome == Pass && list.entries == old(list.entries) + OptionalHash(hash)
    ensures HasKey(old(list.entries), "total_chunk_hash") && !IsNullOrWhiteSpace(Some(hash)) ==>
      outcome == Fail(ArgumentException(DuplicateKeyMessage)) && list.entries == old(list.entries)
  {
    outcome := Pass;
    if !IsNullOrWhiteSpace(Some(hash)) {
      outcome := list.Add("total_chunk_hash", TextValue(HashValue(hash)));
    }
  }

  /**
   * The four optional entries after the directory: link target, creation and
   * modification times, chunk count. None of their keys is in the dictionary
   * yet, so each one is added exactly when its value is set, and the digest
   * key stays free.
   */
  method AddOptionalParams(list: Dictionary, view: FileView) returns (outcome: Outcome<Exception>)
    requires !HasKey(list.entries, "with") && !HasKey(list.entries, "created_at")
    requires !HasKey(list.entries, "last_modified_at") && !HasKey(list.entries, "total_chunks")
    requires !HasKey(list.entries, "total_chunk_hash")
    modifies list
    ensures outcome == Pass
    ensures list.entries == old(list.entries) + MetadataParams(view)
    ensures !HasKey(list.entries, "total_chunk_hash")
  {
    ghost var e0 := list.entries;
    outcome := AddOptionalParam(list, "with", view.symbolicLink);
    ghost var e1 := list.entries;
    HasKeyAppend(e0, OptionalText("with", view.symbolicLink), "created_at");
    HasKeyAppend(e0, OptionalText("with", view.symbolicLink), "last_modified_at");
    HasKeyAppend(e0, OptionalText("with", view.symbolicLink), "total_chunks");
    HasKeyAppend(e0, OptionalText("with", view.symbolicLink), "total_chunk_hash");
    outcome := AddOptionalNumericParam(list, "created_at", view.createdAt);
    ghost var e2 := list.entries;
    HasKeyAppend(e1, OptionalNumber("created_at", view.createdAt), "last_modified_at");
    HasKeyAppend(e1, OptionalNumber("created_at", view.createdAt), "total_chunks");
    HasKeyAppend(e1, OptionalNumber("created_at", view.createdAt), "total_chunk_hash");
    outcome := AddOptionalNumericParam(list, "last_modified_at", view.lastModifiedAt);
    ghost var e3 := list.entries;
    HasKeyAppend(e2, OptionalNumber("last_modified_at", view.lastModifiedAt), "total_chunks");
    HasKeyAppend(e2, OptionalNumber("last_modified_at", view.lastModifiedAt), "total_chunk_hash");
    outcome := AddOptionalNumericParam(list, "total_chunks", |view.chunks|);
    HasKeyAppend(e3, OptionalNumber("total_chunks", |view.chunks|), "total_chunk_hash");
    assert list.entries == e0 + MetadataParams(view);
  }

  /**
   * Fills a fresh dictionary entry by entry; the result is the map the
   * upload requests carry, and a duplicate key never occurs. Asking the file
   * for its total hash reads the content stream to its end.
   */
  method BuildUploadQueryParams(p: Platform, file: KDriveFile) returns (r: Result<Params, Exception>)
    modifies file.content
    ensures r == UploadParams(p, old(file.View()))
    ensures file.View() == AfterUploadParams(old(file.View()))
  {
    // Every key below is new when it is added (the keys are distinct
    // literals), so no `Add` fails and its outcome needs no test.
    var view := file.View();
    var list := NewUploadParams(p, view);
    var o := AddDirectoryParam(view, list);
    if o.Fail? {
      return Err(o.error);
    }
    ghost var base := list.entries;
    assert base == RequiredParams(p, view) + [DirectoryParam(view).value];
    o := AddOptionalParams(list, view);
    var digest := file.TotalChunkHash(p.sha256);
    if digest.Err? {
      return Err(digest.error);
    }
    var hash := digest.value;
    o := AddOptionalChunkHash(list, hash);
    assert list.entries == base + OptionalParams(view, hash);
    r := Ok(list.entries);
  }

  // Properties of the upload parameter map.

  lemma {:induction false} LookupFound(ps: Params, key: string)
    ensures Lookup(ps, key).Some? <==> HasKey(ps, key)
  {
    if ps != [] {
      LookupFound(ps[1..], key);
      if HasKey(ps[1..], key) {
        var i :| 0 <= i < |ps[1..]| && ps[1..][i].0 == key;
        assert ps[i + 1].0 == key;
      }
      if HasKey(ps, key) && ps[0].0 != key {
        var i :| 0 <= i < |ps| && ps[i].0 == key;
        assert ps[1..][i - 1].0 == key;
      }
    }
  }

  /** A key absent from the first part is looked up in the second. */
  lemma LookupAfter(a: Params, b: Params, key: string)
    requires !HasKey(a, key)
    ensures Lookup(a + b, key) == Lookup(b, key)
  {
    LookupAppend(a, b, key);
    LookupFound(a, key);
  }

  /** An entry for `other` hides nothing stored under `key`. */
  lemma LookupPast(a: Params, piece: Params, key: string, other: string)
    requires key != other && forall i | 0 <= i < |piece| :: piece[i].0 == other
    ensures Lookup(a + piece, key) == Lookup(a, key)
  {
    LookupAppend(a, piece, key);
    LookupFound(piece, key);
  }

  // Each optional entry is present exactly when its value is set, with that value.

  lemma OptionalLink(view: FileView, hash: string)
    ensures Lookup(OptionalParams(view, hash), "with") ==
      if IsNullOrWhiteSpace(view.symbolicLink) then None else Some(TextValue(view.symbolicLink.value))
  {
    var w, c, m, t := OptionalText("with", view.symbolicLink), OptionalNumber("created_at", view.createdAt),
      OptionalNumber("last_modified_at", view.lastModifiedAt), OptionalNumber("total_chunks", |view.chunks|);
    assert OptionalParams(view, hash) == w + c + m + t + OptionalHash(hash);
    LookupPast(w + c + m + t, OptionalHash(hash), "with", "total_chunk_hash");
    LookupPast(w + c + m, t, "with", "total_chunks");
    LookupPast(w + c, m, "with", "last_modified_at");
    LookupPast(w, c, "with", "created_at");
  }

  lemma OptionalCreatedAt(view: FileView, hash: string)
    ensures Lookup(OptionalParams(view, hash), "created_at") ==
      if view.createdAt > 0 then Some(NumberValue(view.createdAt)) else None
  {
    var w, c, m, t := OptionalText("with", view.symbolicLink), OptionalNumber("created_at", view.createdAt),
      OptionalNumber("last_modified_at", view.lastModifiedAt), OptionalNumber("total_chunks", |view.chunks|);
    assert OptionalParams(view, hash) == w + c + m + t + OptionalHash(hash);
    LookupPast(w + c + m + t, OptionalHash(hash), "created_at", "total_chunk_hash");
    LookupPast(w + c + m, t, "created_at", "total_chunks");
    LookupPast(w + c, m, "created_at", "last_modified_at");
    LookupAfter(w, c, "created_at");
  }

  lemma OptionalModifiedAt(view: FileView, hash: string)
    ensures Lookup(OptionalParams(view, hash), "last_modified_at") ==
      if view.lastModifiedAt > 0 then Some(NumberValue(view.lastModifiedAt)) else None
  {
    var w, c, m, t := OptionalText("with", view.symbolicLink), OptionalNumber("created_at", view.createdAt),
      OptionalNumber("last_modified_at", view.lastModifiedAt), OptionalNumber("total_chunks", |view.chunks|);
    assert OptionalParams(view, hash) == w + c + m + t + OptionalHash(hash);
    LookupPast(w + c + m + t, OptionalHash(hash), "last_modified_at", "total_chunk_hash");
    LookupPast(w + c + m, t, "last_modified_at", "total_chunks");
    HasKeyAppend(w, c, "last_modified_at");
    LookupAfter(w + c, m, "last_modified_at");
  }

  lemma OptionalChunkCount(view: FileView, hash: string)
    ensures Lookup(OptionalParams(view, hash), "total_chunks") ==
      if |view.chunks| > 0 then Some(NumberValue(|view.chunks|)) else None
  {
    var w, c, m, t := OptionalText("with", view.symbolicLink), OptionalNumber("created_at", view.createdAt),
      OptionalNumber("last_modified_at", view.lastModifiedAt), OptionalNumber("total_chunks", |view.chunks|);
    assert OptionalParams(view, hash) == w + c + m + t + OptionalHash(hash);
    LookupPast(w + c + m + t, OptionalHash(hash), "total_chunks", "total_chunk_hash");
    HasKeyAppend(w, c, "total_chunks");
    HasKeyAppend(w + c, m, "total_chunks");
    LookupAfter(w + c + m, t, "total_chunks");
  }

  lemma OptionalDigest(view: FileView, hash: string)
    ensures Lookup(OptionalParams(view, hash), "total_chunk_hash") ==
      if IsNullOrWhiteSpace(Some(hash)) then None else Some(TextValue(HashValue(hash)))
  {
    var w, c, m, t := OptionalText("with", view.symbolicLink), OptionalNumber("created_at", view.createdAt),
      OptionalNumber("last_modified_at", view.lastModifiedAt), OptionalNumber("total_chunks", |view.chunks|);
    assert OptionalParams(view, hash) == w + c + m + t + OptionalHash(hash);
    HasKeyAppend(w, c, "total_chunk_hash");
    HasKeyAppend(w + c, m, "total_chunk_hash");
    HasKeyAppend(w + c + m, t, "total_chunk_hash");
    LookupAfter(w + c + m + t, OptionalHash(hash), "total_chunk_hash");
  }

  lemma UniqueKeysAppend(a: Params, b: Params)
    requires UniqueKeys(a) && UniqueKeys(b)
    requires forall j | 0 <= j < |b| :: !HasKey(a, b[j].0)
    ensures UniqueKeys(a + b)
  {
    forall i, j | 0 <= i < j < |a + b| ensures (a + b)[i].0 != (a + b)[j].0 {
      if j >= |a| && i < |a| {
        assert b[j - |a|].0 == (a + b)[j].0;
        if (a + b)[i].0 == (a + b)[j].0 {
          assert a[i].0 == b[j - |a|].0;
          assert HasKey(a, b[j - |a|].0);
        }
      }
    }
  }

  lemma RequiredLookup(p: Platform, view: FileView, key: string)
    ensures var r := RequiredParams(p, view);
      Lookup(r, key) == if key == "file_name" then Some(r[0].1) else if key == "total_size" then Some(r[1].1)
                        else if key == "conflict" then Some(r[2].1) else None
  {
    var r := RequiredParams(p, view);
    assert Lookup(r[1..][1..][1..], key) == None;
    assert Lookup(r[1..][1..], key) == if key == "conflict" then Some(r[2].1) else None;
    assert Lookup(r[1..], key) == if key == "total_size" then Some(r[1].1) else Lookup(r[1..][1..], key);
  }

  /** The required entries and the directory entry, as the file gives them. */
  lemma UploadParamsRequired(p: Platform, view: FileView, key: string)
    requires UploadParams(p, view).Ok?
    requires key in {"file_name", "total_size", "conflict", "directory_id", "directory_path"}
    ensures Lookup(UploadParams(p, view).value, key) ==
      if key == "file_name" then Some(TextValue(view.GetEscapedFileName(p.escapeDataString)))
      else if key == "total_size" then Some(NumberValue(view.TotalSize()))
      else if key == "conflict" then Some(TextValue(p.conflictValue))
      else if key == "directory_id" then (if view.directoryId.Some? then Some(TextValue(view.directoryId.value)) else None)
      else if view.directoryId.None? then Some(TextValue(view.directoryPath.value)) else None
  {
    var r, dir := RequiredParams(p, view), DirectoryParam(view).value;
    var rest := OptionalParams(view, view.StreamHash(p.sha256));
    RequiredLookup(p, view, key);
    LookupAppend(r, [dir], key);
    LookupAppend(r + [dir], rest, key);
    OptionalKeys(view, view.StreamHash(p.sha256), key);
    LookupFound(rest, key);
  }

  /** Every key of the optional entries is one of the five optional keys. */
  lemma OptionalKeys(view: FileView, hash: string, key: string)
    requires key !in {"with", "created_at", "last_modified_at", "total_chunks", "total_chunk_hash"}
    ensures !HasKey(OptionalParams(view, hash), key)
  {
    var w, c, m, t := OptionalText("with", view.symbolicLink), OptionalNumber("created_at", view.createdAt),
      OptionalNumber("last_modified_at", view.lastModifiedAt), OptionalNumber("total_chunks", |view.chunks|);
    assert OptionalParams(view, hash) == w + c + m + t + OptionalHash(hash);
    HasKeyAppend(w, c, key);
    HasKeyAppend(w + c, m, key);
    HasKeyAppend(w + c + m, t, key);
    HasKeyAppend(w + c + m + t, OptionalHash(hash), key);
  }

  /** No required or directory key is an optional key. */
  lemma HeadKeys(p: Platform, view: FileView, key: string)
    requires DirectoryParam(view).Ok?
    requires key in {"with", "created_at", "last_modified_at", "total_chunks", "total_chunk_hash"}
    ensures !HasKey(RequiredParams(p, view) + [DirectoryParam(view).value], key)
  {
    RequiredLookup(p, view, key);
    LookupFound(RequiredParams(p, view), key);
    HasKeyAppend(RequiredParams(p, view), [DirectoryParam(view).value], key);
  }

  /**
   * The optional entries of the map: each is present exactly when its value
   * is set; the digest entry is present exactly when the digest is not empty
   * and holds the lower-cased hex of the digest of the content from the
   * stream's position on (all of it when the stream is at its start).
   */
  lemma UploadParamsOptional(p: Platform, view: FileView)
    requires UploadParams(p, view).Ok?
    ensures var ps, data := UploadParams(p, view).value, view.Remaining();
      && Lookup(ps, "with") == (if IsNullOrWhiteSpace(view.symbolicLink) then None else Some(TextValue(view.symbolicLink.value)))
      && Lookup(ps, "created_at") == (if view.createdAt > 0 then Some(NumberValue(view.createdAt)) else None)
      && Lookup(ps, "last_modified_at") == (if view.lastModifiedAt > 0 then Some(NumberValue(view.lastModifiedAt)) else None)
      && Lookup(ps, "total_chunks") == (if |view.chunks| > 0 then Some(NumberValue(|view.chunks|)) else None)
      && Lookup(ps, "total_chunk_hash") ==
           (if p.sha256(data) == [] then None else Some(TextValue(HashValue(view.StreamHash(p.sha256)))))
  {
    var hash := view.StreamHash(p.sha256);
    var head, rest := RequiredParams(p, view) + [DirectoryParam(view).value], OptionalParams(view, hash);
    HeadKeys(p, view, "with");
    HeadKeys(p, view, "created_at");
    HeadKeys(p, view, "last_modified_at");
    HeadKeys(p, view, "total_chunks");
    HeadKeys(p, view, "total_chunk_hash");
    LookupAfter(head, rest, "with");
    LookupAfter(head, rest, "created_at");
    LookupAfter(head, rest, "last_modified_at");
    LookupAfter(head, rest, "total_chunks");
    LookupAfter(head, rest, "total_chunk_hash");
    OptionalLink(view, hash);
    OptionalCreatedAt(view, hash);
    OptionalModifiedAt(view, hash);
    OptionalChunkCount(view, hash);
    OptionalDigest(view, hash);
    HexIsBlankOnlyWhenEmpty(hash);
    ToHexStringShape(p.sha256(view.Remaining()));
  }

  /** Appending entries under one key absent so far keeps the keys unique. */
  lemma UniqueKeysPiece(a: Params, piece: Params, key: string)
    requires UniqueKeys(a) && !HasKey(a, key)
    requires |piece| <= 1 && forall i | 0 <= i < |piece| :: piece[i].0 == key
    ensures UniqueKeys(a + piece)
  {
    UniqueKeysAppend(a, piece);
  }

  /** An entry appended under `key` adds no other key. */
  lemma HasKeyPast(a: Params, piece: Params, key: string, other: string)
    requires key != other && forall i | 0 <= i < |piece| :: piece[i].0 == key
    ensures HasKey(a + piece, other) == HasKey(a, other)
  {
    HasKeyAppend(a, piece, other);
  }

  /** The entries the file's own fields give never repeat a key, and none is the total hash. */
  lemma MetadataUnique(view: FileView)
    ensures UniqueKeys(MetadataParams(view)) && !HasKey(MetadataParams(view), "total_chunk_hash")
  {
    var w, c, m, t := OptionalText("with", view.symbolicLink), OptionalNumber("created_at", view.createdAt),
      OptionalNumber("last_modified_at", view.lastModifiedAt), OptionalNumber("total_chunks", |view.chunks|);
    assert "last_modified_at"[0] != "total_chunk_hash"[0];
    UniqueKeysPiece([], w, "with");
    assert [] + w == w;
    UniqueKeysPiece(w, c, "created_at");
    HasKeyPast(w, c, "created_at", "last_modified_at");
    HasKeyPast(w, c, "created_at", "total_chunks");
    HasKeyPast(w, c, "created_at", "total_chunk_hash");
    UniqueKeysPiece(w + c, m, "last_modified_at");
    HasKeyPast(w + c, m, "last_modified_at", "total_chunks");
    HasKeyPast(w + c, m, "last_modified_at", "total_chunk_hash");
    UniqueKeysPiece(w + c + m, t, "total_chunks");
    HasKeyPast(w + c + m, t, "total_chunks", "total_chunk_hash");
  }

  /** The optional entries never repeat a key. */
  lemma OptionalUnique(view: FileView, hash: string)
    ensures UniqueKeys(OptionalParams(view, hash))
  {
    MetadataUnique(view);
    UniqueKeysPiece(MetadataParams(view), OptionalHash(hash), "total_chunk_hash");
  }

  /** The map never holds a key twice, so as a JSON object every member name is distinct. */
  lemma UploadParamsUnique(p: Platform, view: FileView)
    requires UploadParams(p, view).Ok?
    ensures UniqueKeys(UploadParams(p, view).value)
  {
    var hash := view.StreamHash(p.sha256);
    var r, dir := RequiredParams(p, view), DirectoryParam(view).value;
    var rest := OptionalParams(view, hash);
    RequiredLookup(p, view, dir.0);
    LookupFound(r, dir.0);
    UniqueKeysPiece(r, [dir], dir.0);
    OptionalUnique(view, hash);
    forall j | 0 <= j < |rest| ensures !HasKey(r + [dir], rest[j].0) {
      var key := rest[j].0;
      assert HasKey(rest, key);
      if key !in {"with", "created_at", "last_modified_at", "total_chunks", "total_chunk_hash"} {
        OptionalKeys(view, hash, key);
      }
      HeadKeys(p, view, key);
    }
    UniqueKeysAppend(r + [dir], rest);
  }

  // The requests.

  /** The pairs of a map with every value written as text, as the query string writes them. */
  function Rendered(ps: Params): seq<(string, string)>
  {
    seq(|ps|, i requires 0 <= i < |ps| => (ps[i].0, Render(ps[i].1)))
  }

  /** `/{version}/drive/{driveId}/...`: the path of a resource of a drive. */
  function DriveRoute(version: string, driveId: int, rest: seq<string>): string
  {
    Path([version, "drive", IntToString(driveId)] + rest)
  }

  function UploadDirectUrl(driveId: int, ps: Params): string
  {
    DriveRoute("3", driveId, ["upload"]) + "?" + JoinQuery(Rendered(ps))
  }

  const EmptySequenceMessage: string := "Sequence contains no elements"

  /**
   * The direct upload as written: the parameters in the query string, the
   * body the first chunk's bytes, and the declared Content-Length the total
   * size of all chunks. A file without chunks has no first chunk.
   */
  function UploadDirectRequestAsWritten(p: Platform, driveId: int, view: FileView): Result<HttpRequest, Exception>
  {
    match UploadParams(p, view)
    case Err(e) => Err(e)
    case Ok(ps) =>
      if view.chunks == [] then Err(InvalidOperationException(EmptySequenceMessage))
      else Ok(HttpRequest(Post, UploadDirectUrl(driveId, ps), Binary(view.chunks[0].content, view.TotalSize())))
  }

  /** The direct upload with the body every chunk's bytes in order, so that it is as long as it declares. */
  function UploadDirectRequest(p: Platform, driveId: int, view: FileView): Result<HttpRequest, Exception>
  {
    match UploadParams(p, view)
    case Err(e) => Err(e)
    case Ok(ps) =>
      if view.chunks == [] then Err(InvalidOperationException(EmptySequenceMessage))
      else Ok(HttpRequest(Post, UploadDirectUrl(driveId, ps), Binary(Contents(view.chunks), view.TotalSize())))
  }

  /** The session start: the same parameters as a JSON object. */
  function StartSessionRequest(p: Platform, driveId: int, view: FileView): Result<HttpRequest, Exception>
  {
    match UploadParams(p, view)
    case Err(e) => Err(e)
    case Ok(ps) => Ok(HttpRequest(Post, DriveRoute("3", driveId, ["upload", "session", "start"]), Json(ps)))
  }

  /** The direct upload request built from the file itself, whose total hash is read on the way. */
  method CreateUploadDirectRequest(p: Platform, driveId: int, file: KDriveFile) returns (r: Result<HttpRequest, Exception>)
    modifies file.content
    ensures r == UploadDirectRequestAsWritten(p, driveId, old(file.View()))
    ensures file.View() == AfterUploadParams(old(file.View()))
  {
    var ps := BuildUploadQueryParams(p, file);
    if ps.Err? {
      return Err(ps.error);
    }
    if file.chunks == [] {
      return Err(InvalidOperationException(EmptySequenceMessage));
    }
    r := Ok(HttpRequest(Post, UploadDirectUrl(driveId, ps.value), Binary(file.chunks[0].content, file.View().TotalSize())));
  }

  /** The session start request built from the file itself, whose total hash is read on the way. */
  method CreateStartSessionRequest(p: Platform, driveId: int, file: KDriveFile) returns (r: Result<HttpRequest, Exception>)
    modifies file.content
    ensures r == StartSessionRequest(p, driveId, old(file.View()))
    ensures file.View() == AfterUploadParams(old(file.View()))
  {
    var ps := BuildUploadQueryParams(p, file);
    if ps.Err? {
      return Err(ps.error);
    }
    r := Ok(HttpRequest(Post, DriveRoute("3", driveId, ["upload", "session", "start"]), Json(ps.value)));
  }

  /** The query of a chunk: its 1-based number, its size, and its lower-cased hash. */
  function ChunkParams(chunk: KDriveChunk): seq<(string, string)>
  {
    [("chunk_number", IntToString(chunk.chunkNumber + 1)),
     ("chunk_size", IntToString(chunk.ChunkSize())),
     ("chunk_hash", HashValue(chunk.chunkHash))]
  }

  /** A chunk upload, sent to the upload host the session start returned. */
  function ChunkRequest(baseUrl: string, token: string, driveId: int, chunk: KDriveChunk): HttpRequest
  {
    HttpRequest(Post, baseUrl + DriveRoute("3", driveId, ["upload", "session", token, "chunk"]) + "?" + JoinQuery(ChunkParams(chunk)),
                Binary(chunk.content, chunk.ChunkSize()))
  }

  function FinishRequest(driveId: int, token: string, totalChunkHash: string): HttpRequest
  {
    HttpRequest(Post, DriveRoute("3", driveId, ["upload", "session", token, "finish"]),
                Json([("total_chunk_hash", TextValue(HashValue(totalChunkHash)))]))
  }

  function CancelRequest(driveId: int, token: string): HttpRequest
  {
    HttpRequest(Delete, DriveRoute("2", driveId, ["upload", "session", token]), NoBody)
  }

  function DownloadRequest(driveId: int, fileId: int): HttpRequest
  {
    HttpRequest(Get, DriveRoute("2", driveId, ["files", IntToString(fileId), "download"]), NoBody)
  }

  // Properties of the requests.

  lemma NumberSegment(n: int)
    ensures '/' !in IntToString(n) && '?' !in IntToString(n) && '&' !in IntToString(n)
  {
    var s := IntToString(n);
    forall i | 0 <= i < |s| ensures s[i] != '/' && s[i] != '?' && s[i] != '&' {
      assert IsDecimalDigit(s[i]) || s[i] == '-';
    }
  }

  /** A server splitting a drive route at `/` finds the version, the drive id and every further segment. */
  lemma DriveRouteSegments(version: string, driveId: int, rest: seq<string>)
    requires '/' !in version && forall i | 0 <= i < |rest| :: '/' !in rest[i]
    ensures SplitOn(DriveRoute(version, driveId, rest), '/') == ["", version, "drive", IntToString(driveId)] + rest
    ensures ParseInt(IntToString(driveId)) == Some(driveId)
  {
    NumberSegment(driveId);
    var segs := [version, "drive", IntToString(driveId)] + rest;
    forall i | 0 <= i < |segs| ensures '/' !in segs[i] {
      if i >= 3 { assert segs[i] == rest[i - 3]; }
    }
    PathRoundTrip(segs);
    IntRoundTrip(driveId);
  }

  /**
   * The direct upload's query string carries the upload parameters: a
   * server splitting the URL at `?`, the path at `/` and the query at `&`
   * and `=` recovers the drive and every pair, when no value holds a
   * separator (values other than the file name are not escaped).
   */
  lemma UploadDirectUrlRoundTrip(driveId: int, ps: Params)
    requires QuerySafe(Rendered(ps))
    ensures var (path, query) := SplitAtFirst(UploadDirectUrl(driveId, ps), '?');
      && SplitOn(path, '/') == ["", "3", "drive", IntToString(driveId), "upload"]
      && ParseInt(IntToString(driveId)) == Some(driveId)
      && ParseQuery(query) == Rendered(ps)
  {
    var path := DriveRoute("3", driveId, ["upload"]);
    DriveRouteSegments("3", driveId, ["upload"]);
    NumberSegment(driveId);
    PathAvoids(["3", "drive", IntToString(driveId)] + ["upload"], '?');
    assert UploadDirectUrl(driveId, ps) == path + ['?'] + JoinQuery(Rendered(ps));
    SplitAtFirstRoundTrip(path, '?', JoinQuery(Rendered(ps)));
    QueryRoundTrip(Rendered(ps));
  }

  /**
   * The direct upload and the session start carry the same parameters: the
   * pairs a server reads from the direct upload's query string are the
   * session start's JSON members written as text.
   */
  lemma DirectAndStartAgree(p: Platform, driveId: int, view: FileView)
    requires UploadDirectRequestAsWritten(p, driveId, view).Ok?
    requires QuerySafe(Rendered(UploadParams(p, view).value))
    ensures StartSessionRequest(p, driveId, view).Ok?
    ensures var direct, start := UploadDirectRequest(p, driveId, view).value, StartSessionRequest(p, driveId, view).value;
      && UploadDirectRequestAsWritten(p, driveId, view).value.url == direct.url
      && start.body.Json? && ParseQuery(SplitAtFirst(direct.url, '?').1) == Rendered(start.body.fields)
  {
    UploadDirectUrlRoundTrip(driveId, UploadParams(p, view).value);
  }

  /**
   * As written, the declared Content-Length matches the body only when every
   * chunk after the first is empty, which a split never produces.
   */
  lemma DirectBodyMismatch(p: Platform, driveId: int, view: FileView)
    requires UploadDirectRequestAsWritten(p, driveId, view).Ok?
    ensures var body := UploadDirectRequestAsWritten(p, driveId, view).value.body;
      body.Binary? && (|body.bytes| == body.contentLength <==> SumSizes(view.chunks[1..]) == 0)
  {
  }

  /**
   * A file split into chunks smaller than itself is uploaded directly with
   * its first chunk only, the first `size` bytes of its content, under a
   * Content-Length of its whole size.
   */
  lemma DirectBodyFirstChunk(p: Platform, driveId: int, view: FileView, size: nat)
    requires view.content.Some? && 0 < size < |view.content.value|
    requires view.chunks == ChunksOf(p.sha256, view.content.value, size) && UploadParams(p, view).Ok?
    ensures var r, data := UploadDirectRequestAsWritten(p, driveId, view), view.content.value;
      r.Ok? && r.value.body == Binary(data[..size], |data|)
  {
    var data, cs := view.content.value, view.chunks;
    ChunksOfProperties(p.sha256, data, size);
    assert |cs| > 1;
    assert WellFormedChunk(p.sha256, cs[0], 0, size);
    assert Contents(cs) == cs[0].content + Contents(cs[1..]);
    assert |cs[0].content| == size;
  }

  /** For instance, a file in directory 1 whose content is longer than the chunk size. */
  lemma DirectBodyWitness(p: Platform, driveId: int, data: seq<byte>, size: nat)
    requires 0 < size < |data|
    ensures var view := FileView("f", Some("1"), None, None, 0, 0, ChunksOf(p.sha256, data, size), Some(data), 0);
      var r := UploadDirectRequestAsWritten(p, driveId, view);
      && r.Ok? && r.value.body.Binary?
      && r.value.body.bytes == data[..size] && r.value.body.contentLength == |data| > |r.value.body.bytes|
  {
    var view := FileView("f", Some("1"), None, None, 0, 0, ChunksOf(p.sha256, data, size), Some(data), 0);
    DirectBodyFirstChunk(p, driveId, view, size);
  }

  /**
   * With every chunk in the body, the body is as long as it declares, and a
   * file split by `SplitIntoChunks` sends exactly its content.
   */
  lemma DirectBodyComplete(p: Platform, driveId: int, view: FileView, size: nat)
    requires UploadDirectRequest(p, driveId, view).Ok?
    ensures var body := UploadDirectRequest(p, driveId, view).value.body;
      && body.Binary? && |body.bytes| == body.contentLength
      && (size > 0 && view.chunks == ChunksOf(p.sha256, view.content.value, size) ==> body.bytes == view.content.value)
  {
    if size > 0 && view.chunks == ChunksOf(p.sha256, view.content.value, size) {
      ChunksOfProperties(p.sha256, view.content.value, size);
    }
  }

  /** A hash written by `HashValue` from upper-case hex: the prefix, then lower-case hex of the same octets. */
  lemma HashValueOf(bs: seq<byte>)
    ensures var v := HashValue(ToHexString(bs));
      && |v| >= 7 && v[..7] == "sha256:" && IsLowerHex(v[7..]) && FromHexString(v[7..]) == Some(bs)
      && '&' !in v && '=' !in v
  {
    var v := HashValue(ToHexString(bs));
    LowerHexRoundTrip(bs);
    var h := ToLowerInvariant(ToHexString(bs));
    assert v[..7] == "sha256:" && v[7..] == h;
    forall i | 0 <= i < |v| ensures v[i] != '&' && v[i] != '=' {
      if i >= 7 { assert v[i] == h[i - 7] && IsLowerHexDigit(h[i - 7]); }
    }
  }

  /** The pairs a server reads from a chunk's query: number, size and digest, each recoverable. */
  lemma ChunkQueryRoundTrip(content: seq<byte>, number: int, hash: seq<byte>)
    ensures var q := ParseQuery(JoinQuery(ChunkParams(NewChunk(content, number, hash))));
      && |q| == 3
      && q[0].0 == "chunk_number" && ParseInt(q[0].1) == Some(number + 1)
      && q[1].0 == "chunk_size" && ParseInt(q[1].1) == Some(|content|)
      && q[2].0 == "chunk_hash" && |q[2].1| >= 7 && q[2].1[..7] == "sha256:"
      && FromHexString(q[2].1[7..]) == Some(hash)
  {
    var ps := ChunkParams(NewChunk(content, number, hash));
    NumberSegment(number + 1);
    NumberSegment(|content|);
    HashValueOf(hash);
    assert QuerySafe(ps);
    QueryRoundTrip(ps);
    IntRoundTrip(number + 1);
    IntRoundTrip(|content|);
  }

  /** The chunk URL splits at its only `?` into the upload host's chunk route and the chunk's query. */
  lemma ChunkUrlSplit(baseUrl: string, token: string, driveId: int, chunk: KDriveChunk)
    requires '?' !in baseUrl && '?' !in token
    ensures SplitAtFirst(ChunkRequest(baseUrl, token, driveId, chunk).url, '?')
      == (baseUrl + DriveRoute("3", driveId, ["upload", "session", token, "chunk"]), JoinQuery(ChunkParams(chunk)))
  {
    var route := DriveRoute("3", driveId, ["upload", "session", token, "chunk"]);
    NumberSegment(driveId);
    PathAvoids(["3", "drive", IntToString(driveId)] + ["upload", "session", token, "chunk"], '?');
    assert '?' !in baseUrl + route;
    assert ChunkRequest(baseUrl, token, driveId, chunk).url == (baseUrl + route) + ['?'] + JoinQuery(ChunkParams(chunk));
    SplitAtFirstRoundTrip(baseUrl + route, '?', JoinQuery(ChunkParams(chunk)));
  }

  /**
   * The chunk upload reaches the session's chunk route on the upload host,
   * its query carries the chunk's number, size and digest, and its body is
   * the chunk's bytes, as long as it declares.
   */
  lemma ChunkRequestRoundTrip(baseUrl: string, token: string, driveId: int, content: seq<byte>, number: int, hash: seq<byte>)
    requires '?' !in baseUrl && '?' !in token && '/' !in token
    ensures var c := NewChunk(content, number, hash);
      var r := ChunkRequest(baseUrl, token, driveId, c);
      && r.verb == Post && r.body == Binary(content, |content|)
      && SplitAtFirst(r.url, '?').0 == baseUrl + DriveRoute("3", driveId, ["upload", "session", token, "chunk"])
      && SplitOn(DriveRoute("3", driveId, ["upload", "session", token, "chunk"]), '/')
         == ["", "3", "drive", IntToString(driveId), "upload", "session", token, "chunk"]
      && ParseQuery(SplitAtFirst(r.url, '?').1) == ParseQuery(JoinQuery(ChunkParams(c)))
  {
    ChunkUrlSplit(baseUrl, token, driveId, NewChunk(content, number, hash));
    DriveRouteSegments("3", driveId, ["upload", "session", token, "chunk"]);
  }

  /**
   * The finish request carries the file's digest as `sha256:` and lower-case
   * hex decoding to the digest of the content, the same value as the digest
   * entry of the upload parameters of the file whose stream is at its start.
   */
  lemma FinishRequestDigest(p: Platform, driveId: int, token: string, view: FileView)
    requires view.content.Some?
    ensures var data := view.content.value;
      var body := FinishRequest(driveId, token, ContentHash(p.sha256, data)).body;
      var v := HashValue(ContentHash(p.sha256, data));
      && body == Json([("total_chunk_hash", TextValue(v))])
      && v[..7] == "sha256:" && IsLowerHex(v[7..]) && FromHexString(v[7..]) == Some(p.sha256(data))
      && (UploadParams(p, view).Ok? && view.position == 0 && p.sha256(data) != [] ==>
            Lookup(UploadParams(p, view).value, "total_chunk_hash") == Some(TextValue(v)))
  {
    HashValueOf(p.sha256(view.content.value));
    if UploadParams(p, view).Ok? && view.position == 0 {
      UploadParamsOptional(p, view);
      StreamHashAtStart(p.sha256, view);
    }
  }

  /** A hash given already lower-cased is written the same way. */
  lemma HashValueLowered(hash: string)
    ensures HashValue(ToLowerInvariant(hash)) == HashValue(hash)
  {
    LowerIdempotent(hash);
  }

  /**
   * The chunk, finish and cancel requests of one session address the same
   * drive and the same session token; cancelling uses version 2 of the API.
   */
  lemma SessionRoutes(driveId: int, token: string)
    requires '/' !in token
    ensures SplitOn(FinishRequest(driveId, token, "").url, '/')
      == ["", "3", "drive", IntToString(driveId), "upload", "session", token, "finish"]
    ensures SplitOn(CancelRequest(driveId, token).url, '/')
      == ["", "2", "drive", IntToString(driveId), "upload", "session", token]
    ensures CancelRequest(driveId, token).verb == Delete && CancelRequest(driveId, token).body == NoBody
    ensures ParseInt(IntToString(driveId)) == Some(driveId)
  {
    DriveRouteSegments("3", driveId, ["upload", "session", token, "finish"]);
    DriveRouteSegments("2", driveId, ["upload", "session", token]);
  }

  /** The download route names the drive and the file, both recoverable from it. */
  lemma DownloadRoute(driveId: int, fileId: int)
    ensures var segs := SplitOn(DownloadRequest(driveId, fileId).url, '/');
      && segs == ["", "2", "drive", IntToString(driveId), "files", IntToString(fileId), "download"]
      && ParseInt(segs[3]) == Some(driveId) && ParseInt(segs[5]) == Some(fileId)
    ensures DownloadRequest(driveId, fileId).verb == Get
  {
    NumberSegment(fileId);
    DriveRouteSegments("2", driveId, ["files", IntToString(fileId), "download"]);
    IntRoundTrip(fileId);
  }
}
