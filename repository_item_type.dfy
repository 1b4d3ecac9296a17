/** The `fme_repository_item` type: title parsing, validation and the name
    munge, the item and read-only parameter checks, and the `ensure` property,
    which replaces an existing item by deleting and re-creating it. */
module RepositoryItemType {
  import opened Wrappers
  import opened Strings
  import opened Values
  import opened Rest
  import Fme
  import ListProperty
  import opened RepositoryItemProvider

  /** The namevar parameters of a declaration, and the `dummy` parameter the
      catch-all title pattern sets. */
  datatype ItemParams = ItemParams(name: Option<string>, repository: Option<string>, item: Option<string>,
                                   dummy: Option<string>)

  const NO_ITEM_PARAMS := ItemParams(None, None, None, None)

  /** The split of `<repository>/<item>` at the last `/` (the first group of
      `^(.*)/(.*)$` is greedy), if the title has a `/`. */
  function SplitTitle(title: string): (r: Option<(string, string)>)
    ensures r.Some? <==> '/' in title
    ensures r.Some? ==> r.value.0 + "/" + r.value.1 == title && '/' !in r.value.1
  {
    match LastIndexOf(title, '/')
    case None => None
    case Some(i) =>
      assert title == title[..i] + "/" + title[i + 1..];
      Some((title[..i], title[i + 1..]))
  }

  /** `title_patterns`: `<repository>/<item>`, or else only an empty `dummy`. */
  function ItemTitleParams(title: string): (p: ItemParams)
    ensures p.name.None?
    ensures '/' in title ==>
              p.repository.Some? && p.item.Some? && p.dummy.None? &&
              p.repository.value + "/" + p.item.value == title && '/' !in p.item.value
    ensures '/' !in title ==> p == ItemParams(None, None, None, Some(""))
  {
    match SplitTitle(title)
    case Some((repo, item)) => ItemParams(None, Some(repo), Some(item), None)
    case None => ItemParams(None, None, None, Some(""))
  }

  /** The parameters of a resource: the title's, each overridden by an
      explicitly given one. */
  function ResolveItem(title: string, explicit: ItemParams): (r: ItemParams)
    ensures r.name == explicit.name
    ensures explicit.repository.Some? ==> r.repository == explicit.repository
    ensures explicit.item.Some? ==> r.item == explicit.item
    ensures explicit.repository.None? && explicit.item.None? && '/' in title ==>
              r.repository.Some? && r.item.Some? && r.repository.value + "/" + r.item.value == title
    ensures explicit.dummy.None? ==> (r.dummy == Some("") <==> '/' !in title)
  {
    var p := ItemTitleParams(title);
    ItemParams(if explicit.name.Some? then explicit.name else p.name,
               if explicit.repository.Some? then explicit.repository else p.repository,
               if explicit.item.Some? then explicit.item else p.item,
               if explicit.dummy.Some? then explicit.dummy else p.dummy)
  }

  /** `<repository>/<item>` with a slash-free item splits back into its two parts. */
  lemma ItemTitleSplits(repo: string, item: string)
    requires '/' !in item
    ensures ItemTitleParams(repo + "/" + item) == ItemParams(None, Some(repo), Some(item), None)
  {
    var t := repo + "/" + item;
    assert t[|repo|] == '/';
    assert t[|repo| + 1..] == item;
    assert t[..|repo|] == repo;
    assert LastIndexOf(t, '/') == Some(|repo|);
  }

  function OrEmpty(s: Option<string>): string
  {
    if s.Some? then s.value else ""
  }

  /** `validate`: an explicit name must be `<repository>/<item>`; a title of
      that form must agree with the repository and the item. */
  function ValidateItem(title: string, p: ItemParams): (o: Outcome)
    ensures p.name.Some? && p.name.value != OrEmpty(p.repository) + "/" + OrEmpty(p.item) ==>
              o == Fail("'name' should not be used")
    ensures SplitTitle(title).None? ==>
              (o.Pass? <==> p.name.None? || p.name.value == OrEmpty(p.repository) + "/" + OrEmpty(p.item))
  {
    if p.name.Some? && p.name.value != OrEmpty(p.repository) + "/" + OrEmpty(p.item) then
      Fail("'name' should not be used")
    else match SplitTitle(title)
      case None => Pass
      case Some((repo, item)) =>
        if p.repository != Some(repo) then
          Fail("'repository' parameter " + OrEmpty(p.repository) + " must match resource title " + title +
               " or be omitted")
        else if p.item != Some(item) then
          Fail("'item' parameter " + OrEmpty(p.item) + " must match resource title " + title + " or be omitted")
        else Pass
  }

  /** A resource passes validation exactly when any explicit name is
      `<repository>/<item>` and a title with a `/` agrees with both parts. */
  lemma ValidateItemPasses(title: string, p: ItemParams)
    ensures ValidateItem(title, p).Pass? <==>
              (p.name.None? || p.name.value == OrEmpty(p.repository) + "/" + OrEmpty(p.item)) &&
              (SplitTitle(title).Some? ==>
                 p.repository == Some(SplitTitle(title).value.0) && p.item == Some(SplitTitle(title).value.1))
    ensures p.name.Some? && p.name.value != OrEmpty(p.repository) + "/" + OrEmpty(p.item) ==>
              ValidateItem(title, p) == Fail("'name' should not be used")
  {
  }

  /** A `<repository>/<item>` title with nothing else given validates. */
  lemma ItemTitleValidates(repo: string, item: string)
    requires '/' !in item
    ensures ValidateItem(repo + "/" + item, ResolveItem(repo + "/" + item, NO_ITEM_PARAMS)).Pass?
  {
    ItemTitleSplits(repo, item);
  }

  /** Explicit parameters that contradict the title are refused. */
  lemma ConflictingRepositoryRefused(repo: string, item: string, other: string)
    requires '/' !in item && other != repo
    ensures ValidateItem(repo + "/" + item,
                         ResolveItem(repo + "/" + item, ItemParams(None, Some(other), None, None))).Fail?
  {
    ItemTitleSplits(repo, item);
  }

  const NAME_STYLE := "Use resource name style <repository>/<item> OR specify both 'repository' and 'item'"

  /** The `name` munge of `value` (by default ""). */
  function MungeItemName(value: string, p: ItemParams): (r: Result<string>)
    ensures r.Ok? ==> '/' in r.value
    ensures value == [] && p.repository.Some? && p.item.Some? ==>
              r == Ok(p.repository.value + "/" + p.item.value)
    ensures value != [] ==> r == (if '/' in value then Ok(value) else Err(NAME_STYLE))
  {
    if value == [] && p.repository.Some? && p.item.Some? then
      var r := p.repository.value + "/" + p.item.value;
      assert r[|p.repository.value|] == '/';
      Ok(r)
    else if '/' !in value then Err(NAME_STYLE)
    else Ok(value)
  }

  /** The name of a `<repository>/<item>` title is the title itself, which
      is also how the provider names the listed item. */
  lemma ItemNameRoundTrip(repo: string, item: string)
    requires '/' !in item
    ensures MungeItemName("", ResolveItem(repo + "/" + item, NO_ITEM_PARAMS)) == Ok(repo + "/" + item)
    ensures ItemProperties(Str(repo), [("name", Str(item))])["name"] == Str(repo + "/" + item)
  {
    ItemTitleSplits(repo, item);
  }

  /** A title without `/` sets only the empty `dummy`, so unless both the
      repository and the item are given, the name cannot be munged. */
  lemma SlashlessTitleNeedsParams(title: string)
    requires '/' !in title
    ensures ItemTitleParams(title) == ItemParams(None, None, None, Some(""))
    ensures MungeItemName("", ResolveItem(title, NO_ITEM_PARAMS)) == Err(NAME_STYLE)
    ensures ValidateItem(title, ResolveItem(title, NO_ITEM_PARAMS)).Pass?
  {
  }

  /** `validate` of `dummy`: only the empty string the title pattern sets. */
  function ValidateDummy(value: string): (o: Outcome)
    ensures o.Pass? <==> value == []
  {
    if value == [] then Pass else Fail("dummy parameter shouldn't be used")
  }

  /** The item's `newvalues` pattern `[^/]+\.(?:|fmw|fds|fmx|fmwt)`, which is
      unanchored and has an empty alternative: it holds whenever some `.` has a
      character other than `/` just before it. */
  predicate ItemNameAccepted(item: string)
    ensures ItemNameAccepted(item) ==> '.' in item && |item| >= 2
  {
    exists i :: 0 < i < |item| && item[i] == '.' && item[i - 1] != '/'
  }

  /** `newvalues` of `item`, with Puppet's message for a value matching no pattern. */
  function ValidateItemName(item: string): (o: Outcome)
    ensures o.Pass? <==> ItemNameAccepted(item)
  {
    if ItemNameAccepted(item) then Pass
    else Fail("Invalid value \"" + item + "\". Valid values match /[^\\/]+\\.(?:|fmw|fds|fmx|fmwt)/.")
  }

  /** Workspace names pass, but so does any other extension, and a name
      without a dot does not. */
  lemma ItemNameExamples()
    ensures ValidateItemName("item.fmw").Pass?
    ensures ValidateItemName("notes.txt").Pass?
    ensures ValidateItemName("workspace").Fail?
    ensures ValidateItemName(".fmw").Fail?
  {
    assert "item.fmw"[4] == '.' && "item.fmw"[3] != '/';
    assert "notes.txt"[5] == '.' && "notes.txt"[4] != '/';
    assert forall i :: 0 <= i < |"workspace"| ==> "workspace"[i] != '.';
    assert forall i :: 0 < i < |".fmw"| ==> ".fmw"[i] != '.';
  }

  /** `validate` of `source`: it must be absolute. */
  function ValidateItemSource(value: string, isAbsolute: string -> bool): (o: Outcome)
    ensures o.Pass? <==> isAbsolute(value)
  {
    AbsolutePathCheck("source", "fully qualified", value, isAbsolute)
  }

  /** An item's source is accepted exactly when absolute; the refusal asks
      for a fully qualified path. */
  lemma ItemSourceChecked(value: string, isAbsolute: string -> bool)
    ensures ValidateItemSource(value, isAbsolute).Pass? <==> isAbsolute(value)
    ensures ValidateItemSource(value, isAbsolute).Fail? ==>
              ("'" + "source" + "' file path must be " + "fully qualified") <= ValidateItemSource(value, isAbsolute).error
  {
  }

  /** The read-only properties of an item. */
  const READ_ONLY := ["description", "item_title", "type", "last_save_date"]

  /** `validate` of a read-only property. */
  function ValidateReadOnly(property: string, value: Value): (o: Outcome)
    ensures o.Fail? && property <= o.error
  {
    Fail(property + " is read-only")
  }

  /** Declaring any read-only property fails, whatever the value, and the
      message names the property. */
  lemma ReadOnlyAlwaysFails(k: nat, value: Value)
    requires k < |READ_ONLY|
    ensures ValidateReadOnly(READ_ONLY[k], value) == Fail(READ_ONLY[k] + " is read-only")
  {
  }

  /** `insync?` of `services`. */
  predicate ServicesInSync(current: seq<string>, should: seq<string>)
    ensures ServicesInSync(current, should) ==> |current| == |should|
  {
    ListProperty.InSync(current, should)
  }

  /** Services are in sync exactly when both lists hold the same services
      the same number of times. */
  lemma ServicesInSyncIff(current: seq<string>, should: seq<string>)
    ensures ServicesInSync(current, should) <==> multiset(current) == multiset(should)
  {
    ListProperty.InSyncIffSameEntries(current, should);
  }

  /** `validate` of one `services` entry. */
  function ValidateService(entry: Value): (o: Outcome)
    ensures o.Fail? ==> "Services" <= o.error
  {
    ListProperty.ValidateEntry("Services", entry)
  }

  /** A service entry is accepted exactly when it is a string without `,` or a space. */
  lemma ValidateServiceAccepts(entry: Value)
    ensures ValidateService(entry).Pass? <==> entry.Str? && ',' !in entry.s && ' ' !in entry.s
  {
    ListProperty.ValidateEntryAccepts("Services", entry);
  }

  /** The ensure values are `present` (the default) and `absent`
      (`Values.MungePresentAbsent`). */
  const DEFAULT_ITEM_ENSURE := PRESENT

  /** `insync?` of `ensure`, with both checksums as opaque values: a present
      item whose checksum differs from the source's is out of sync. */
  predicate ItemEnsureInSync<C(==)>(should: Value, current: Value, sourceChecksum: C, remoteChecksum: C)
    ensures ItemEnsureInSync(should, current, sourceChecksum, remoteChecksum) ==> current == should
  {
    if current == PRESENT && sourceChecksum != remoteChecksum then false else current == should
  }

  /** What Ruby reports for calling the `checksum` method no provider defines. */
  const NO_CHECKSUM := "undefined method `checksum' for an fme_repository_item provider"

  /** `insync?` of `ensure` as written: for an existing item `items_match?`
      first opens the source (`open(nil)` fails without one) and then calls
      `provider.checksum`, which no provider defines, so it always fails. */
  function ItemEnsureInSyncAsWritten(should: Value, current: Value, source: Option<string>): (r: Result<bool>)
    ensures r.Err? <==> current == PRESENT
    ensures current == PRESENT && source.None? ==> r == Err(NIL_SOURCE)
    ensures current == PRESENT && source.Some? ==> r == Err(NO_CHECKSUM)
    ensures r.Ok? ==> r.value == (current == should)
  {
    if current == PRESENT then
      if source.None? then Err(NIL_SOURCE) else Err(NO_CHECKSUM)
    else Ok(current == should)
  }

  /** Where the code as written answers, it agrees with the intended
      `insync?`; it fails on every existing item, even one whose checksums
      match and that is wanted present (where the intended answer is "in sync"). */
  lemma ItemEnsureAsWrittenDiffers<C>(should: Value, current: Value, source: Option<string>,
                                      sourceChecksum: C, remoteChecksum: C)
    ensures ItemEnsureInSyncAsWritten(should, current, source).Ok? ==>
              ItemEnsureInSyncAsWritten(should, current, source).value ==
              ItemEnsureInSync(should, current, sourceChecksum, remoteChecksum)
    ensures ItemEnsureInSync(PRESENT, PRESENT, sourceChecksum, sourceChecksum)
    ensures ItemEnsureInSyncAsWritten(PRESENT, PRESENT, source).Err?
  {
  }

  /** A present item is never in sync while the checksums differ; otherwise
      sync is plain equality. */
  lemma ItemEnsureInSyncCases<C>(should: Value, current: Value, sourceChecksum: C, remoteChecksum: C)
    ensures current == PRESENT && sourceChecksum != remoteChecksum ==>
              !ItemEnsureInSync(should, current, sourceChecksum, remoteChecksum)
    ensures !(current == PRESENT && sourceChecksum != remoteChecksum) ==>
              (ItemEnsureInSync(should, current, sourceChecksum, remoteChecksum) <==> current == should)
  {
  }

  /** The `present` block: an existing item is deleted first, then created. */
  method SyncPresent(provider: ItemProvider, response: Response) returns (o: Outcome)
    modifies provider
    ensures o == CreateOutcome(provider.decl, response)
    ensures provider.requests ==
              old(provider.requests) +
              (if Fme.Exists(old(provider.propertyHash)) then [DeleteRequest(provider.baseUrl, provider.decl)] else []) +
              CreateRequests(provider.baseUrl, provider.decl)
    ensures o.Pass? ==> provider.propertyHash == ItemProperties(Str(provider.decl.repository), Fields(response.body))
    ensures o.Fail? ==>
              provider.propertyHash ==
                (if Fme.Exists(old(provider.propertyHash)) then old(provider.propertyHash)["ensure" := ABSENT]
                 else old(provider.propertyHash))
  {
    if provider.Exists() {
      provider.Destroy();
    }
    o := provider.Create(response);
  }

  /** The `absent` block. */
  method SyncAbsent(provider: ItemProvider)
    modifies provider
    ensures provider.propertyHash == old(provider.propertyHash)["ensure" := ABSENT]
    ensures provider.requests == old(provider.requests) + [DeleteRequest(provider.baseUrl, provider.decl)]
  {
    provider.Destroy();
  }
}
