/**
 * `FileStorageService`, its string handling only: the public base URL,
 * the stored name of an upload and the name a URL refers to on deletion.
 * The copy to and removal from the upload directory are not modelled; the
 * random part of a stored name is the textual UUID the caller supplies.
 */
module FileStorageService {
  import opened Wrappers
  import opened Text

  /** Two consecutive dots somewhere in `s`: `s.contains("..")`. */
  predicate HasDotDot(s: string) {
    exists i :: 0 <= i < |s| - 1 && s[i] == '.' && s[i + 1] == '.'
  }

  predicate EndsWithSlash(s: string) {
    s != [] && s[|s| - 1] == '/'
  }

  /** The service's configuration, fixed when it is built. */
  datatype Storage = Storage(baseUrl: string)

  /** The constructor: the base URL gets a trailing "/" unless it has one. */
  function NewStorage(baseUrl: string): (r: Storage)
    ensures EndsWithSlash(r.baseUrl)
    ensures baseUrl <= r.baseUrl && |r.baseUrl| <= |baseUrl| + 1
    ensures EndsWithSlash(baseUrl) ==> r.baseUrl == baseUrl
  {
    if EndsWithSlash(baseUrl) then Storage(baseUrl) else Storage(baseUrl + "/")
  }

  /** Normalising the base URL twice is normalising it once. */
  lemma NewStorageIdempotent(baseUrl: string)
    ensures NewStorage(NewStorage(baseUrl).baseUrl) == NewStorage(baseUrl)
  {
  }

  // ----- storeFile ---------------------------------------------------------------

  /**
   * The extension kept from the original name: from its last '.' to the
   * end, lower-cased; nothing if there is no name or no '.'.
   */
  function Extension(originalName: Option<string>): (r: string)
    ensures r == [] <==> originalName.None? || '.' !in originalName.value
    ensures r != [] ==> r[0] == '.' && '.' !in r[1..] && |r| <= |originalName.value| &&
                        r == Lower(originalName.value[|originalName.value| - |r|..])
  {
    if originalName.None? then ""
    else match LastIndexOf(originalName.value, '.')
      case None => ""
      case Some(k) =>
        var ext := Lower(originalName.value[k..]);
        assert ext[1..] == Lower(originalName.value[k + 1..]);
        LowerKeepsDots(originalName.value[k + 1..]);
        ext
  }

  /** Lower-casing neither adds nor removes a '.'. */
  lemma LowerKeepsDots(s: string)
    ensures ('.' in Lower(s)) <==> ('.' in s)
  {
    if '.' in s {
      var i :| 0 <= i < |s| && s[i] == '.';
      assert Lower(s)[i] == '.';
    }
    if '.' in Lower(s) {
      var i :| 0 <= i < |s| && Lower(s)[i] == '.';
      assert s[i] == '.';
    }
  }

  /** An upload as the controller hands it over; the name is already cleaned. */
  datatype Upload = Upload(empty: bool, originalName: Option<string>)

  /** A `UUID.toString()` is hexadecimal digits and dashes, so it has no '.'. */
  predicate UuidText(uuid: string) {
    '.' !in uuid
  }

  /** The name the upload is stored under. */
  function StoredName(upload: Upload, uuid: string): string {
    uuid + Extension(upload.originalName)
  }

  /** `storeFile`: an empty upload and a name with ".." are refused; otherwise the public URL of the stored copy. */
  function StoreFile(s: Storage, upload: Upload, uuid: string): (r: Result<string>)
    ensures r.Err? ==> r.error.RuntimeFailure?
    ensures r.Ok? ==> r.value == s.baseUrl + StoredName(upload, uuid)
  {
    if upload.empty then Err(RuntimeFailure("empty file"))
    else if HasDotDot(StoredName(upload, uuid)) then Err(RuntimeFailure("invalid path sequence"))
    else Ok(s.baseUrl + StoredName(upload, uuid))
  }

  /** A stored name never holds "..": its only '.' opens the extension. */
  lemma StoredNameHasNoDotDot(upload: Upload, uuid: string)
    requires UuidText(uuid)
    ensures !HasDotDot(StoredName(upload, uuid))
  {
    var ext := Extension(upload.originalName);
    var name := StoredName(upload, uuid);
    assert forall j :: 0 <= j < |uuid| ==> name[j] == uuid[j];
    forall i | 0 <= i < |name| - 1 && name[i] == '.'
      ensures name[i + 1] != '.'
    {
      assert i >= |uuid|;
      assert name[i + 1] == ext[i + 1 - |uuid|] == ext[1..][i - |uuid|];
    }
  }

  /** So a non-empty upload is always stored, and the path check never fires. */
  lemma StoreFileFailsOnlyWhenEmpty(s: Storage, upload: Upload, uuid: string)
    requires UuidText(uuid)
    ensures StoreFile(s, upload, uuid).Err? <==> upload.empty
  {
    StoredNameHasNoDotDot(upload, uuid);
  }

  // ----- deleteFile ------------------------------------------------------------------

  /**
   * `deleteFile`: the name relative to the upload directory that a URL
   * refers to, or nothing for a null or blank URL and one outside the base
   * URL, which are ignored.
   */
  function DeleteTarget(s: Storage, fileUrl: Option<string>): (r: Option<string>)
    ensures r.Some? <==> fileUrl.Some? && Trim(fileUrl.value) != [] && s.baseUrl <= fileUrl.value
    ensures r.Some? ==> s.baseUrl + r.value == fileUrl.value
  {
    if fileUrl.None? || Trim(fileUrl.value) == [] || !(s.baseUrl <= fileUrl.value) then None
    else Some(fileUrl.value[|s.baseUrl|..])
  }

  /** Deleting the URL a store returned targets exactly the stored name. */
  lemma DeleteTargetsStoredFile(baseUrl: string, upload: Upload, uuid: string)
    requires UuidText(uuid) && !upload.empty
    ensures var s := NewStorage(baseUrl);
            DeleteTarget(s, Some(StoreFile(s, upload, uuid).value)) == Some(StoredName(upload, uuid))
  {
    var s := NewStorage(baseUrl);
    StoreFileFailsOnlyWhenEmpty(s, upload, uuid);
    var url := s.baseUrl + StoredName(upload, uuid);
    TrimEmptyIff(url);
    assert url[|s.baseUrl| - 1] == '/';
    assert url[|s.baseUrl|..] == StoredName(upload, uuid);
  }
}
