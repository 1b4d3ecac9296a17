/** The `rest_client` provider of `fme_resource`: files and directories in an
    FME shared resource, reached under
    <base>/resources/connections/<resource>/filesys/<path>. */
module ResourceProvider {
  import opened Wrappers
  import opened Strings
  import opened Values
  import opened Rest

  const FILE := Sym("file")
  const DIRECTORY := Sym("directory")

  /** What the provider reads from its resource: the name (munged to
      `<resource>:<path>`), the shared resource, the absolute path inside it
      and the local file to upload, if any. */
  datatype Declaration = Declaration(name: string, resource: string, path: string, source: Option<string>)

  /** What Ruby reports for `nil[:path] = ...`. */
  const NIL_ASSIGNMENT := "undefined method `[]=' for nil:NilClass"

  /** What Ruby reports for `"some string"[:name]`. */
  const SYMBOL_INDEX := "no implicit conversion of Symbol into Integer"

  const SOURCE_REQUIRED := "source is required when creating new resource file"

  const CONNECTIONS := "/resources/connections/"
  const FILESYS := "/filesys"

  /** The URL of the file system of shared resource `resource`: the resource's
      name sits between a fixed prefix and a fixed suffix. */
  function FilesysUrl(baseUrl: string, resource: string): (u: string)
    ensures |u| == |baseUrl| + |CONNECTIONS| + |resource| + |FILESYS|
    ensures u[..|baseUrl|] == baseUrl
    ensures u[|baseUrl| + |CONNECTIONS|..|u| - |FILESYS|] == resource
  {
    baseUrl + CONNECTIONS + resource + FILESYS
  }

  /** The GET of `get_file_metadata(resource[:resource], resource[:path])`. */
  function MetadataRequest(baseUrl: string, decl: Declaration): (r: Request)
    ensures r.Get? && FilesysUrl(baseUrl, decl.resource) <= r.url
    ensures |decl.path| < |r.url| && r.url[|r.url| - |decl.path|..] == decl.path
    ensures ("detail", Str("low")) in r.params && ("depth", Int(0)) in r.params
  {
    Get(FilesysUrl(baseUrl, decl.resource) + "/" + decl.path, [("detail", Str("low")), ("depth", Int(0))])
  }

  /** The DELETE of `destroy`. */
  function DeleteRequest(baseUrl: string, decl: Declaration): (r: Request)
    ensures r.Delete? && FilesysUrl(baseUrl, decl.resource) <= r.url
    ensures |decl.path| < |r.url| && r.url[|r.url| - |decl.path|..] == decl.path
  {
    Delete(FilesysUrl(baseUrl, decl.resource) + "/" + decl.path)
  }

  /** `destroy` deletes exactly the URL whose metadata `properties` reads. */
  lemma DeleteTargetsMetadataUrl(baseUrl: string, decl: Declaration)
    ensures DeleteRequest(baseUrl, decl).url == MetadataRequest(baseUrl, decl).url
  {
  }

  /** `extract_metadata_from_response`: the entry kind from `type`, the full
      path from `path` and `name`, and `size` unless it is zero. A type other
      than FILE or DIR leaves `metadata` nil, so the path assignment raises. */
  function ExtractMetadata(json: JsonObject): (r: Result<PropertyHash>)
    ensures r.Ok? <==> Field(json, "type") == Str("FILE") || Field(json, "type") == Str("DIR")
    ensures r.Err? ==> r.error == NIL_ASSIGNMENT
    ensures r.Ok? ==> r.value.Keys <= {"ensure", "path", "size"}
    ensures r.Ok? ==> ("ensure" in r.value &&
                       r.value["ensure"] == (if Field(json, "type") == Str("FILE") then FILE else DIRECTORY))
    ensures r.Ok? ==> ("path" in r.value &&
                       r.value["path"] == Str(ToS(Field(json, "path")) + ToS(Field(json, "name"))))
    ensures r.Ok? ==> ("size" in r.value <==> Field(json, "size") != Int(0))
    ensures r.Ok? && "size" in r.value ==> r.value["size"] == Field(json, "size")
  {
    var kind := Field(json, "type");
    if kind != Str("FILE") && kind != Str("DIR") then Err(NIL_ASSIGNMENT)
    else
      var metadata := map["ensure" := if kind == Str("FILE") then FILE else DIRECTORY];
      var metadata := metadata["path" := Str(ToS(Field(json, "path")) + ToS(Field(json, "name")))];
      Ok(if Field(json, "size") == Int(0) then metadata else metadata["size" := Field(json, "size")])
  }

  /** `get_file_metadata`, with the failure message naming the declared
      resource: 200 gives the extracted metadata, 404 an empty map, and any
      other status an API error. */
  function GetFileMetadata(decl: Declaration, response: Response): (r: Result<PropertyHash>)
    ensures response.code == 200 ==> r == ExtractMetadata(Fields(response.body))
    ensures response.code == 404 ==> r == Ok(map[])
    ensures response.code != 200 && response.code != 404 ==>
              r.Err? && ReportedCode(r.error) == Some(response.code)
  {
    if response.code == 200 then ExtractMetadata(Fields(response.body))
    else if response.code == 404 then Ok(map[])
    else
      ApiErrorReportsCode(response.code, "getting metadata for " + decl.name, response.body);
      Err(ApiError(response.code, "getting metadata for " + decl.name, response.body))
  }

  /** `get_file_metadata` as written: its parameter `resource` is the shared
      resource's name, a String, so `resource[:name]` in the failure branch
      raises a TypeError before the intended message is built. */
  function GetFileMetadataAsWritten(response: Response): (r: Result<PropertyHash>)
    ensures response.code == 200 ==> r == ExtractMetadata(Fields(response.body))
    ensures response.code == 404 ==> r == Ok(map[])
    ensures response.code != 200 && response.code != 404 ==> r == Err(SYMBOL_INDEX)
  {
    if response.code == 200 then ExtractMetadata(Fields(response.body))
    else if response.code == 404 then Ok(map[])
    else Err(SYMBOL_INDEX)
  }

  /** On every status other than 200 and 404 the code as written loses the
      status code that the intended message reports; elsewhere the two agree. */
  lemma MetadataFailureLosesCode(decl: Declaration, response: Response)
    ensures response.code == 200 || response.code == 404 ==>
              GetFileMetadataAsWritten(response) == GetFileMetadata(decl, response)
    ensures response.code != 200 && response.code != 404 ==>
              GetFileMetadataAsWritten(response) == Err(SYMBOL_INDEX) &&
              ReportedCode(GetFileMetadataAsWritten(response).error) == None &&
              ReportedCode(GetFileMetadata(decl, response).error) == Some(response.code)
  {
    if response.code != 200 && response.code != 404 {
      assert !(API_ERROR_PREFIX <= SYMBOL_INDEX) by {
        assert SYMBOL_INDEX == "n" + SYMBOL_INDEX[1..];
        assert SYMBOL_INDEX[0] == 'n';
        assert API_ERROR_PREFIX == "F" + API_ERROR_PREFIX[1..];
        assert API_ERROR_PREFIX[0] == 'F';
      }
    }
  }

  /** A 500 answer to the metadata request shows the difference. */
  lemma MetadataFailureExample(decl: Declaration)
    ensures GetFileMetadataAsWritten(Response(500, Obj([]))).Err?
    ensures ReportedCode(GetFileMetadataAsWritten(Response(500, Obj([]))).error) == None
    ensures ReportedCode(GetFileMetadata(decl, Response(500, Obj([]))).error) == Some(500)
  {
    MetadataFailureLosesCode(decl, Response(500, Obj([])));
  }

  /** What `properties` returns for the cache `cache`: the cache itself when it
      is filled, otherwise the fetched metadata, with an empty result standing
      for an absent file. */
  function Observe(cache: PropertyHash, decl: Declaration, metadata: Response): (r: Result<PropertyHash>)
    ensures cache != map[] ==> r == Ok(cache)
    ensures r.Ok? ==> r.value != map[]
    ensures cache == map[] && metadata.code == 404 ==> r == Ok(map["ensure" := ABSENT])
    ensures cache == map[] && r.Ok? && metadata.code != 404 ==> Ok(r.value) == GetFileMetadata(decl, metadata)
    ensures cache == map[] && r.Err? ==> r == GetFileMetadata(decl, metadata)
  {
    if cache != map[] then Ok(cache)
    else match GetFileMetadata(decl, metadata)
      case Err(e) => Err(e)
      case Ok(h) =>
        assert h == map[] ==> metadata.code == 404 by {
          if metadata.code == 200 { assert "ensure" in h; }
        }
        assert "ensure" in map["ensure" := ABSENT];
        Ok(if h == map[] then map["ensure" := ABSENT] else h)
  }

  /** The requests `properties` issues: one metadata GET when the cache is empty. */
  function FetchRequests(cache: PropertyHash, baseUrl: string, decl: Declaration): (rs: seq<Request>)
    ensures |rs| <= 1
    ensures rs != [] <==> cache == map[]
    ensures forall r :: r in rs ==> r.Get? && r.url == DeleteRequest(baseUrl, decl).url
  {
    if cache == map[] then [MetadataRequest(baseUrl, decl)] else []
  }

  /** `is_file?` */
  predicate IsFile(cache: PropertyHash)
    ensures IsFile(cache) ==> "ensure" in cache
  {
    At(cache, "ensure") == FILE || At(cache, "ensure") == PRESENT
  }

  /** `is_directory?` */
  predicate IsDirectory(cache: PropertyHash)
    ensures IsDirectory(cache) ==> "ensure" in cache && !IsFile(cache)
  {
    At(cache, "ensure") == DIRECTORY
  }

  /** Metadata read from a FILE entry is a file, from a DIR entry a directory. */
  lemma ExtractedKind(json: JsonObject)
    requires ExtractMetadata(json).Ok?
    ensures IsFile(ExtractMetadata(json).value) <==> Field(json, "type") == Str("FILE")
    ensures IsDirectory(ExtractMetadata(json).value) <==> Field(json, "type") == Str("DIR")
    ensures !(IsFile(ExtractMetadata(json).value) && IsDirectory(ExtractMetadata(json).value))
  {
  }

  /** `validate_create_file`: a source is required, then the entry must not be a directory. */
  function UploadCheck(decl: Declaration, cache: PropertyHash): (o: Outcome)
    ensures o.Pass? <==> decl.source.Some? && !IsDirectory(cache)
    ensures decl.source.None? ==> o == Fail(SOURCE_REQUIRED)
  {
    if decl.source.None? then Fail(SOURCE_REQUIRED)
    else if IsDirectory(cache) then
      Fail(decl.path + " already exists as a directory.  Replacing with a file is not currently supported")
    else Pass
  }

  /** `validate_not_a_file`. */
  function DirectoryCheck(decl: Declaration, cache: PropertyHash): (o: Outcome)
    ensures o.Pass? <==> !IsFile(cache)
  {
    if IsFile(cache) then
      Fail(decl.path + " already exists as a file.  Replacing with a directory is not currently supported")
    else Pass
  }

  /** `get_post_url`: the directory that holds the path. */
  function PostUrl(baseUrl: string, decl: Declaration): (u: string)
    ensures FilesysUrl(baseUrl, decl.resource) <= u
  {
    FilesysUrl(baseUrl, decl.resource) + Dirname(decl.path)
  }

  /** `create_directory_post_request_body`, as its form fields. */
  function DirectoryBody(decl: Declaration): (b: seq<(string, Value)>)
    ensures |b| == 2 && b[0].0 != b[1].0
    ensures ("directoryname", Str(Basename(decl.path))) in b
    ensures ("type", Str("DIR")) in b
  {
    [("directoryname", Str(Basename(decl.path))), ("type", Str("DIR"))]
  }

  /** `post_params_for_upload_file`. */
  function UploadParams(decl: Declaration): (ps: seq<(string, Value)>)
    ensures forall i, j :: 0 <= i < j < |ps| ==> ps[i].0 != ps[j].0
    ensures ("content_disposition", Str("attachment; filename=\"" + Basename(decl.path) + "\"")) in ps
  {
    [("multipart", Bool(true)),
     ("content_type", Str("application/octet-stream")),
     ("content_disposition", Str("attachment; filename=\"" + Basename(decl.path) + "\"")),
     ("accept", Str("json")),
     ("detail", Str("low")),
     ("createDirectories", Bool(true))]
  }

  /** A path `<dir>/<base>` is created by posting `base` to the URL of `dir`:
      the directory body and the upload's file name carry the last component
      and the POST URL ends with the directory it sits in. */
  lemma PostTargetsParent(baseUrl: string, decl: Declaration, dir: string, base: string)
    requires decl.path == dir + "/" + base
    requires base != [] && '/' !in base
    requires dir == [] || dir[|dir| - 1] != '/'
    ensures DirectoryBody(decl)[0] == ("directoryname", Str(base))
    ensures UploadParams(decl)[2] == ("content_disposition", Str("attachment; filename=\"" + base + "\""))
    ensures PostUrl(baseUrl, decl) == FilesysUrl(baseUrl, decl.resource) + (if dir == [] then "/" else dir)
  {
    SplitPath(dir, base);
  }

  /** The requests `upload_file` issues against the cache `cache`: one upload
      when validation passes, none otherwise. */
  function UploadRequests(baseUrl: string, decl: Declaration, cache: PropertyHash): (rs: seq<Request>)
    ensures |rs| <= 1 && forall k :: 0 <= k < |rs| ==> rs[k].Upload?
    ensures |rs| == 1 <==> UploadCheck(decl, cache).Pass?
  {
    if UploadCheck(decl, cache).Pass? then [Upload(PostUrl(baseUrl, decl), decl.source.value, UploadParams(decl))]
    else []
  }

  /** The result of `upload_file`: a validation failure, or the answer's status
      checked against 201. */
  function UploadOutcome(decl: Declaration, cache: PropertyHash, response: Response): (o: Outcome)
    ensures UploadCheck(decl, cache).Fail? ==> o == UploadCheck(decl, cache)
    ensures UploadCheck(decl, cache).Pass? ==> (o.Pass? <==> response.code == 201)
  {
    if UploadCheck(decl, cache).Fail? then UploadCheck(decl, cache)
    else if response.code == 201 then Pass
    else Fail(ApiError(response.code, "uploading " + decl.name, response.body))
  }

  /** The requests `create_directory` issues. */
  function DirectoryRequests(baseUrl: string, decl: Declaration, cache: PropertyHash): (rs: seq<Request>)
    ensures |rs| == 1 <==> DirectoryCheck(decl, cache).Pass?
    ensures |rs| <= 1
  {
    if DirectoryCheck(decl, cache).Pass? then [Post(PostUrl(baseUrl, decl), DirectoryBody(decl))] else []
  }

  /** The result of `create_directory`. */
  function DirectoryOutcome(decl: Declaration, cache: PropertyHash, response: Response): (o: Outcome)
    ensures DirectoryCheck(decl, cache).Fail? ==> o == DirectoryCheck(decl, cache)
    ensures DirectoryCheck(decl, cache).Pass? ==> (o.Pass? <==> response.code == 201)
  {
    if DirectoryCheck(decl, cache).Fail? then DirectoryCheck(decl, cache)
    else if response.code == 201 then Pass
    else Fail(ApiError(response.code, "creating directory " + decl.name, response.body))
  }

  /** A failed upload or directory creation reports the answer's status code. */
  lemma CreationFailureReportsCode(decl: Declaration, cache: PropertyHash, response: Response)
    ensures UploadCheck(decl, cache).Pass? && response.code != 201 ==>
              ReportedCode(UploadOutcome(decl, cache, response).error) == Some(response.code)
    ensures DirectoryCheck(decl, cache).Pass? && response.code != 201 ==>
              ReportedCode(DirectoryOutcome(decl, cache, response).error) == Some(response.code)
  {
    ApiErrorReportsCode(response.code, "uploading " + decl.name, response.body);
    ApiErrorReportsCode(response.code, "creating directory " + decl.name, response.body);
  }

  /** The provider object: its base URL (`@baseurl`), the resource it serves,
      the `@property_hash` cache and the requests it has issued so far. */
  class Provider {
    const baseUrl: string
    const decl: Declaration
    var propertyHash: PropertyHash
    var requests: seq<Request>

    constructor (baseUrl: string, decl: Declaration, propertyHash: PropertyHash)
      ensures this.baseUrl == baseUrl && this.decl == decl
      ensures this.propertyHash == propertyHash && requests == []
    {
      this.baseUrl := baseUrl;
      this.decl := decl;
      this.propertyHash := propertyHash;
      requests := [];
    }

    /** `properties`: fills an empty cache from the server and returns a copy. */
    method Properties(metadata: Response) returns (r: Result<PropertyHash>)
      modifies this
      ensures r == Observe(old(propertyHash), decl, metadata)
      ensures propertyHash == if r.Ok? then r.value else old(propertyHash)
      ensures requests == old(requests) + FetchRequests(old(propertyHash), baseUrl, decl)
    {
      if propertyHash == map[] {
        requests := requests + [MetadataRequest(baseUrl, decl)];
        var fetched := GetFileMetadata(decl, metadata);
        if fetched.Err? {
          return Err(fetched.error);
        }
        propertyHash := fetched.value;
        if propertyHash == map[] {
          propertyHash := propertyHash["ensure" := ABSENT];
        }
      }
      r := Ok(propertyHash);
    }

    /** `destroy`: deletes the entry and empties the cache. */
    method Destroy()
      modifies this
      ensures propertyHash == map[]
      ensures requests == old(requests) + [DeleteRequest(baseUrl, decl)]
    {
      requests := requests + [DeleteRequest(baseUrl, decl)];
      propertyHash := map[];
    }

    /** `upload_file`: validates, then posts the source file. */
    method UploadFile(response: Response) returns (o: Outcome)
      modifies this
      ensures propertyHash == old(propertyHash)
      ensures o == UploadOutcome(decl, old(propertyHash), response)
      ensures requests == old(requests) + UploadRequests(baseUrl, decl, old(propertyHash))
    {
      var check := UploadCheck(decl, propertyHash);
      if check.Fail? {
        return check;
      }
      requests := requests + [Upload(PostUrl(baseUrl, decl), decl.source.value, UploadParams(decl))];
      if response.code == 201 {
        o := Pass;
      } else {
        o := Fail(ApiError(response.code, "uploading " + decl.name, response.body));
      }
    }

    /** `create_directory`: validates, then posts the directory body. */
    method CreateDirectory(response: Response) returns (o: Outcome)
      modifies this
      ensures propertyHash == old(propertyHash)
      ensures o == DirectoryOutcome(decl, old(propertyHash), response)
      ensures requests == old(requests) + DirectoryRequests(baseUrl, decl, old(propertyHash))
    {
      var check := DirectoryCheck(decl, propertyHash);
      if check.Fail? {
        return check;
      }
      assert !IsFile(propertyHash);
      requests := requests + [Post(PostUrl(baseUrl, decl), DirectoryBody(decl))];
      if response.code == 201 {
        o := Pass;
      } else {
        o := Fail(ApiError(response.code, "creating directory " + decl.name, response.body));
      }
    }
  }
}
