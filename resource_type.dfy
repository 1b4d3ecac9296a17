/** The `fme_resource` type: how a title becomes parameters, the checks on
    them, the munged name, and the `ensure` property, whose sync blocks drive
    the provider. */
module ResourceType {
  import opened Wrappers
  import opened Strings
  import opened Values
  import opened Rest
  import opened ResourceProvider

  /** The namevar parameters of a declaration, set or not. */
  datatype Params = Params(name: Option<string>, resource: Option<string>, path: Option<string>)

  const NO_PARAMS := Params(None, None, None)

  /** Puppet's error when no title pattern matches. */
  function NoPatternMatched(title: string): (m: string)
    ensures NO_MATCH <= m && |m| == |NO_MATCH| + |title| + 2
    ensures m[|NO_MATCH|..|NO_MATCH| + |title|] == title
  {
    NO_MATCH + title + "\"."
  }

  const NO_MATCH := "No set of title patterns matched the title \""

  /** `title_patterns`: a non-empty title without a colon is just the name; a
      title with a colon is also split, at its last colon (the first group is
      greedy), into resource and path. The empty title matches neither. */
  function TitleParams(title: string): (r: Result<Params>)
    ensures r.Ok? <==> title != []
    ensures r.Err? ==> r.error == NoPatternMatched(title)
    ensures r.Ok? ==> r.value.name == Some(title)
    ensures r.Ok? ==> (r.value.resource.Some? <==> ':' in title) && (r.value.path.Some? <==> ':' in title)
    ensures r.Ok? && ':' in title ==>
              r.value.resource.value + ":" + r.value.path.value == title && ':' !in r.value.path.value
  {
    if title == [] then Err(NoPatternMatched(title))
    else match LastIndexOf(title, ':')
      case None => Ok(Params(Some(title), None, None))
      case Some(i) =>
        assert title == title[..i] + ":" + title[i + 1..];
        Ok(Params(Some(title), Some(title[..i]), Some(title[i + 1..])))
  }

  /** The parameters of a resource: those derived from its title, each
      overridden by an explicitly given one. */
  function Resolve(title: string, explicit: Params): (r: Result<Params>)
    ensures r.Ok? <==> title != []
    ensures r.Ok? ==> r.value.name == (if explicit.name.Some? then explicit.name else Some(title))
    ensures r.Ok? && explicit.resource.Some? ==> r.value.resource == explicit.resource
    ensures r.Ok? && explicit.path.Some? ==> r.value.path == explicit.path
    ensures r.Ok? && explicit.resource.None? ==> r.value.resource == TitleParams(title).value.resource
    ensures r.Ok? && explicit.path.None? ==> r.value.path == TitleParams(title).value.path
  {
    match TitleParams(title)
    case Err(e) => Err(e)
    case Ok(p) =>
      Ok(Params(if explicit.name.Some? then explicit.name else p.name,
                if explicit.resource.Some? then explicit.resource else p.resource,
                if explicit.path.Some? then explicit.path else p.path))
  }

  /** A title `<resource>:<path>` whose path has no colon splits back into
      exactly that resource and path; the resource may itself hold colons. */
  lemma TitleWithColon(resource: string, path: string)
    requires ':' !in path
    ensures TitleParams(resource + ":" + path) ==
              Ok(Params(Some(resource + ":" + path), Some(resource), Some(path)))
  {
    var t := resource + ":" + path;
    assert t[|resource|] == ':';
    assert t[|resource| + 1..] == path;
    assert t[..|resource|] == resource;
    assert LastIndexOf(t, ':') == Some(|resource|);
  }

  /** A non-empty title without a colon sets only the name. */
  lemma TitleWithoutColon(title: string)
    requires title != [] && ':' !in title
    ensures TitleParams(title) == Ok(Params(Some(title), None, None))
  {
  }

  /** `validate`: the path is checked before the resource. */
  function Validate(p: Params): (o: Outcome)
    ensures o.Pass? <==> p.path.Some? && p.resource.Some?
    ensures p.path.None? ==>
              o == Fail("fme_resource: path is required or use <RESOURCE>:<PATH> style resource title")
  {
    if p.path.None? then Fail("fme_resource: path is required or use <RESOURCE>:<PATH> style resource title")
    else if p.resource.None? then
      Fail("fme_resource: resource is required or use <RESOURCE>:<PATH> style resource title")
    else Pass
  }

  function OrEmpty(s: Option<string>): string
  {
    if s.Some? then s.value else ""
  }

  /** The `name` munge: `"#{resource}:#{path}"`, whatever name was given. */
  function MungeName(p: Params): (r: string)
    ensures ':' !in OrEmpty(p.path) ==> LastIndexOf(r, ':') == Some(|OrEmpty(p.resource)|)
  {
    var r := OrEmpty(p.resource) + ":" + OrEmpty(p.path);
    assert r[|OrEmpty(p.resource)| + 1..] == OrEmpty(p.path);
    if ':' !in OrEmpty(p.path) then
      LastIndexOfAt(r, ':', |OrEmpty(p.resource)|);
      r
    else r
  }

  /** A munged name whose path has no colon splits, as a title, back into
      the same resource and path. */
  lemma MungeNameRoundTrip(p: Params)
    requires p.resource.Some? && p.path.Some? && ':' !in p.path.value
    ensures TitleParams(MungeName(p)) == Ok(Params(Some(MungeName(p)), p.resource, p.path))
  {
    TitleWithColon(p.resource.value, p.path.value);
  }

  /** A title with a colon needs no other parameter: it validates and its
      munged name is the title itself. */
  lemma ColonTitleRoundTrip(title: string)
    requires ':' in title
    ensures Resolve(title, NO_PARAMS).Ok?
    ensures Validate(Resolve(title, NO_PARAMS).value).Pass?
    ensures MungeName(Resolve(title, NO_PARAMS).value) == title
  {
    var i := LastIndexOf(title, ':').value;
    assert title == title[..i] + ":" + title[i + 1..];
  }

  /** A title without a colon validates only with both resource and path
      given explicitly; the name is then munged from them, not taken from the title. */
  lemma PlainTitleNeedsParams(title: string, explicit: Params)
    requires title != [] && ':' !in title
    ensures Resolve(title, explicit).Ok?
    ensures Validate(Resolve(title, explicit).value).Pass? <==>
              explicit.resource.Some? && explicit.path.Some?
    ensures explicit.resource.Some? && explicit.path.Some? ==>
              MungeName(Resolve(title, explicit).value) == explicit.resource.value + ":" + explicit.path.value
  {
  }

  /** `validate` of `path`: it must be absolute. */
  function ValidatePath(value: string, isAbsolute: string -> bool): (o: Outcome)
    ensures o.Pass? <==> isAbsolute(value)
  {
    AbsolutePathCheck("path", "absolute", value, isAbsolute)
  }

  /** `validate` of `source`: it must be absolute. */
  function ValidateSource(value: string, isAbsolute: string -> bool): (o: Outcome)
    ensures o.Pass? <==> isAbsolute(value)
  {
    AbsolutePathCheck("source", "absolute", value, isAbsolute)
  }

  /** `path` and `source` are both accepted exactly when absolute, and each
      refusal names its own parameter. */
  lemma PathParamsChecked(value: string, isAbsolute: string -> bool)
    ensures ValidatePath(value, isAbsolute).Pass? <==> isAbsolute(value)
    ensures ValidateSource(value, isAbsolute).Pass? <==> isAbsolute(value)
    ensures ValidatePath(value, isAbsolute).Fail? ==>
              ("'" + "path" + "' file path must be " + "absolute") <= ValidatePath(value, isAbsolute).error
    ensures ValidateSource(value, isAbsolute).Fail? ==>
              ("'" + "source" + "' file path must be " + "absolute") <= ValidateSource(value, isAbsolute).error
  {
  }

  /** `validate` of `size`. */
  function ValidateSize(value: Value): (o: Outcome)
    ensures o.Fail? && "size" <= o.error
  {
    Fail("size is read-only")
  }

  /** No value of `size` can be declared. */
  lemma SizeIsReadOnly(value: Value)
    ensures ValidateSize(value) == Fail("size is read-only")
  {
  }

  /** How a declared `ensure` value is munged: `present` is an alias of
      `file`; anything other than the three values is refused as Puppet does. */
  function MungeEnsure(v: Value): (r: Result<Value>)
    ensures r.Ok? <==>
              ValueName(v) == Some("file") || ValueName(v) == Some("present") ||
              ValueName(v) == Some("directory") || ValueName(v) == Some("absent")
    ensures ValueName(v) == Some("file") || ValueName(v) == Some("present") ==> r == Ok(FILE)
    ensures ValueName(v) == Some("directory") ==> r == Ok(DIRECTORY)
    ensures ValueName(v) == Some("absent") ==> r == Ok(ABSENT)
    ensures r.Ok? ==> r.value in {FILE, DIRECTORY, ABSENT}
    ensures r.Err? ==> r == Err("Invalid value " + Inspect(v) + ". Valid values are file, directory, absent.")
  {
    var n := ValueName(v);
    if n == Some("file") || n == Some("present") then Ok(FILE)
    else if n == Some("directory") then Ok(DIRECTORY)
    else if n == Some("absent") then Ok(ABSENT)
    else Err("Invalid value " + Inspect(v) + ". Valid values are file, directory, absent.")
  }

  /** Munging an accepted value again leaves it as it is. */
  lemma MungeEnsureIdempotent(v: Value)
    requires MungeEnsure(v).Ok?
    ensures MungeEnsure(MungeEnsure(v).value) == MungeEnsure(v)
  {
    var w := MungeEnsure(v).value;
    assert ValueName(w) == Some(w.name);
  }

  /** `present` means `file`, written as a symbol or as a string. */
  lemma PresentIsFile()
    ensures MungeEnsure(PRESENT) == MungeEnsure(FILE) == Ok(FILE)
    ensures MungeEnsure(Str("present")) == MungeEnsure(Str("file")) == Ok(FILE)
  {
  }

  /** `insync?` of `ensure`: a remote file whose size differs from the source's
      is out of sync; otherwise the current value must equal the desired one. */
  predicate EnsureInSync(should: Value, current: Value, remoteSize: Value, sourceSize: Value)
    ensures EnsureInSync(should, current, remoteSize, sourceSize) ==> current == should
  {
    if should == FILE && current == FILE && remoteSize != sourceSize then false
    else current == should
  }

  /** A file is kept exactly when its size matches the source's; for every
      other pair of values sync is plain equality. */
  lemma EnsureInSyncCases(should: Value, current: Value, remoteSize: Value, sourceSize: Value)
    ensures should == FILE && current == FILE ==>
              (EnsureInSync(should, current, remoteSize, sourceSize) <==> remoteSize == sourceSize)
    ensures !(should == FILE && current == FILE) ==>
              (EnsureInSync(should, current, remoteSize, sourceSize) <==> current == should)
  {
  }

  /** `change_to_s`, given `@original_size` and the source's size. */
  function ChangeMessage(current: Value, desired: Value, originalSize: Value, sourceSize: Value): (m: string)
    ensures m in {"uploaded new file", "created directory", "deleted file", "deleted directory"} ||
            "replaced file of size " <= m
  {
    if current == ABSENT && desired == FILE then "uploaded new file"
    else if current == ABSENT && desired == DIRECTORY then "created directory"
    else if current == FILE && desired == ABSENT then "deleted file"
    else if current == DIRECTORY && desired == ABSENT then "deleted directory"
    else "replaced file of size " + ToS(originalSize) + " bytes with one of " + ToS(sourceSize) + " bytes"
  }

  /** Each fixed message belongs to exactly one change; every other change is
      reported as a replacement quoting both sizes. */
  lemma ChangeMessageCases(current: Value, desired: Value, originalSize: Value, sourceSize: Value)
    ensures ChangeMessage(current, desired, originalSize, sourceSize) == "uploaded new file" <==>
              current == ABSENT && desired == FILE
    ensures ChangeMessage(current, desired, originalSize, sourceSize) == "created directory" <==>
              current == ABSENT && desired == DIRECTORY
    ensures ChangeMessage(current, desired, originalSize, sourceSize) == "deleted file" <==>
              current == FILE && desired == ABSENT
    ensures ChangeMessage(current, desired, originalSize, sourceSize) == "deleted directory" <==>
              current == DIRECTORY && desired == ABSENT
    ensures !(current == ABSENT && (desired == FILE || desired == DIRECTORY)) &&
            !((current == FILE || current == DIRECTORY) && desired == ABSENT) ==>
              ChangeMessage(current, desired, originalSize, sourceSize) ==
              "replaced file of size " + ToS(originalSize) + " bytes with one of " + ToS(sourceSize) + " bytes"
  {
    var replaced := "replaced file of size " + ToS(originalSize) + " bytes with one of " + ToS(sourceSize) + " bytes";
    assert |replaced| > 17;
    assert "uploaded new file"[0] == 'u' && "created directory"[0] == 'c' && "deleted directory"[0] == 'd';
    assert |"deleted file"| == 12;
  }

  /** The current value `retrieve` reads for the cache `cache`. */
  function Current(cache: PropertyHash, decl: Declaration, metadata: Response): Result<Value>
  {
    match Observe(cache, decl, metadata)
    case Err(e) => Err(e)
    case Ok(h) => Ok(At(h, "ensure"))
  }

  /** The `ensure` property of one resource: its provider, the size of the
      source file (`File.size?`, nil when missing or empty) and the size the
      remote file had before it was replaced (`@original_size`). */
  class EnsureProperty {
    const provider: Provider
    const sourceSize: Value
    var originalSize: Value

    constructor (provider: Provider, sourceSize: Value)
      ensures this.provider == provider && this.sourceSize == sourceSize && originalSize == Nil
    {
      this.provider := provider;
      this.sourceSize := sourceSize;
      originalSize := Nil;
    }

    /** `retrieve`: the cached (or fetched) ensure value. */
    method Retrieve(metadata: Response) returns (r: Result<Value>)
      modifies provider
      ensures r == Current(old(provider.propertyHash), provider.decl, metadata)
      ensures var seen := Observe(old(provider.propertyHash), provider.decl, metadata);
              provider.propertyHash == if seen.Ok? then seen.value else old(provider.propertyHash)
      ensures provider.requests ==
                old(provider.requests) + FetchRequests(old(provider.propertyHash), provider.baseUrl, provider.decl)
    {
      var props := provider.Properties(metadata);
      if props.Err? {
        return Err(props.error);
      }
      r := Ok(At(props.value, "ensure"));
    }

    /** `insync?(is)`: only a file wanted as a file reads the remote size,
        through `provider.properties`, which fetches when the cache is empty. */
    method InSync(should: Value, current: Value, metadata: Response) returns (r: Result<bool>)
      modifies provider
      ensures var cache := old(provider.propertyHash);
              var seen := Observe(cache, provider.decl, metadata);
              if should == FILE && current == FILE then
                r == (if seen.Err? then Err(seen.error)
                      else Ok(EnsureInSync(should, current, At(seen.value, "size"), sourceSize))) &&
                provider.propertyHash == (if seen.Ok? then seen.value else cache) &&
                provider.requests ==
                  old(provider.requests) + FetchRequests(cache, provider.baseUrl, provider.decl)
              else
                r == Ok(current == should) &&
                provider.propertyHash == cache && provider.requests == old(provider.requests)
    {
      if should == FILE && current == FILE {
        var props := provider.Properties(metadata);
        if props.Err? {
          return Err(props.error);
        }
        r := Ok(EnsureInSync(should, current, At(props.value, "size"), sourceSize));
      } else {
        r := Ok(current == should);
      }
    }

    /** The `file` block: upload over an absent entry; replace a file by
      deleting it and uploading, remembering its size; refuse a directory. */
    method SyncFile(metadata: Response, upload: Response) returns (o: Outcome)
      modifies this, provider
      ensures var cache := old(provider.propertyHash);
              var seen := Observe(cache, provider.decl, metadata);
              var before := old(provider.requests) + FetchRequests(cache, provider.baseUrl, provider.decl);
              if seen.Err? then
                o == Fail(seen.error) && provider.requests == before &&
                provider.propertyHash == cache && originalSize == old(originalSize)
              else if At(seen.value, "ensure") == ABSENT then
                o == UploadOutcome(provider.decl, seen.value, upload) &&
                provider.requests == before + UploadRequests(provider.baseUrl, provider.decl, seen.value) &&
                provider.propertyHash == seen.value && originalSize == old(originalSize)
              else if At(seen.value, "ensure") == FILE then
                o == UploadOutcome(provider.decl, map[], upload) &&
                provider.requests == before + [DeleteRequest(provider.baseUrl, provider.decl)] +
                                     UploadRequests(provider.baseUrl, provider.decl, map[]) &&
                provider.propertyHash == map[] && originalSize == At(seen.value, "size")
              else if At(seen.value, "ensure") == DIRECTORY then
                o == Fail("Cannot replace a directory with a file!") && provider.requests == before &&
                provider.propertyHash == seen.value && originalSize == old(originalSize)
              else
                o == Pass && provider.requests == before &&
                provider.propertyHash == seen.value && originalSize == old(originalSize)
    {
      ghost var seen := Observe(provider.propertyHash, provider.decl, metadata);
      var current := Retrieve(metadata);
      if current.Err? {
        return Fail(current.error);
      }
      assert provider.propertyHash == seen.value && seen.value != map[];
      if current.value == ABSENT {
        o := provider.UploadFile(upload);
      } else if current.value == FILE {
        o := ReplaceFile(metadata, upload);
      } else if current.value == DIRECTORY {
        o := Fail("Cannot replace a directory with a file!");
      } else {
        o := Pass;
      }
    }

    /** Replacing a remote file: remember its size, delete it, upload the source. */
    method ReplaceFile(metadata: Response, upload: Response) returns (o: Outcome)
      requires provider.propertyHash != map[]
      modifies this, provider
      ensures o == UploadOutcome(provider.decl, map[], upload)
      ensures provider.requests == old(provider.requests) + [DeleteRequest(provider.baseUrl, provider.decl)] +
                                   UploadRequests(provider.baseUrl, provider.decl, map[])
      ensures provider.propertyHash == map[] && originalSize == At(old(provider.propertyHash), "size")
    {
      ghost var start := provider.requests;
      var props := provider.Properties(metadata);
      assert provider.requests == start;
      originalSize := At(props.value, "size");
      provider.Destroy();
      assert provider.requests == start + [DeleteRequest(provider.baseUrl, provider.decl)];
      o := provider.UploadFile(upload);
    }

    /** The `directory` block: refuse a file, otherwise create the directory. */
    method SyncDirectory(metadata: Response, response: Response) returns (o: Outcome)
      modifies provider
      ensures var cache := old(provider.propertyHash);
              var seen := Observe(cache, provider.decl, metadata);
              var before := old(provider.requests) + FetchRequests(cache, provider.baseUrl, provider.decl);
              if seen.Err? then
                o == Fail(seen.error) && provider.requests == before && provider.propertyHash == cache
              else if At(seen.value, "ensure") == FILE then
                o == Fail("Cannot replace a file with a directory!") && provider.requests == before &&
                provider.propertyHash == seen.value
              else
                o == DirectoryOutcome(provider.decl, seen.value, response) &&
                provider.requests == before + DirectoryRequests(provider.baseUrl, provider.decl, seen.value) &&
                provider.propertyHash == seen.value
    {
      var current := Retrieve(metadata);
      if current.Err? {
        return Fail(current.error);
      }
      if current.value == FILE {
        return Fail("Cannot replace a file with a directory!");
      }
      o := provider.CreateDirectory(response);
    }

    /** The `absent` block. */
    method SyncAbsent()
      modifies provider
      ensures provider.propertyHash == map[]
      ensures provider.requests == old(provider.requests) + [DeleteRequest(provider.baseUrl, provider.decl)]
    {
      provider.Destroy();
    }
  }
}
