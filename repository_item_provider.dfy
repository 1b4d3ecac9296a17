/** The `rest_client` provider of `fme_repository_item`: workspaces and other
    items stored in FME repositories, under <base>/repositories/<repo>/items. */
module RepositoryItemProvider {
  import opened Wrappers
  import opened Strings
  import opened Values
  import opened Rest
  import Fme

  /** What the provider reads from its resource. */
  datatype ItemDeclaration = ItemDeclaration(name: string, repository: string, item: string, source: Option<string>)

  /** What Ruby reports for `File.new(nil)`. */
  const NIL_SOURCE := "no implicit conversion of nil into String"

  /** The cache of one item, from its JSON description and its repository's name. */
  function ItemProperties(repo: Value, item: JsonObject): (h: PropertyHash)
    ensures "ensure" in h && h["ensure"] == PRESENT
    ensures "provider" in h && h["provider"] == REST_CLIENT
    ensures "repository" in h && h["repository"] == repo
    ensures "name" in h && h["name"] == Str(ToS(repo) + "/" + ToS(Field(item, "name")))
    ensures "item" in h && h["item"] == Field(item, "name")
    ensures "description" in h && h["description"] == Field(item, "description")
    ensures "item_title" in h && h["item_title"] == Field(item, "title")
    ensures "type" in h && h["type"] == Field(item, "type")
    ensures "last_save_date" in h && h["last_save_date"] == Field(item, "lastSaveDate")
  {
    map["ensure" := PRESENT,
        "provider" := REST_CLIENT,
        "item" := Field(item, "name"),
        "description" := Field(item, "description"),
        "item_title" := Field(item, "title"),
        "type" := Field(item, "type"),
        "last_save_date" := Field(item, "lastSaveDate"),
        "repository" := repo,
        "name" := Str(ToS(repo) + "/" + ToS(Field(item, "name")))]
  }

  /** The cache of an item holds no other key. */
  lemma ItemPropertiesKeys(repo: Value, item: JsonObject)
    ensures ItemProperties(repo, item).Keys ==
              {"ensure", "provider", "item", "description", "item_title", "type",
               "last_save_date", "repository", "name"}
  {
  }

  /** An item listed by the server exists, and prefetch finds it under
      `<repository>/<item name>`. */
  lemma ListedItemExists(repo: string, item: JsonObject)
    ensures Fme.Exists(ItemProperties(Str(repo), item))
    ensures Fme.NameKey(ItemProperties(Str(repo), item)) == Some(repo + "/" + ToS(Field(item, "name")))
  {
  }

  /** `get_items_from_repo(repo)`: one cache per listed item, in order. */
  function ItemsFromRepo(repo: Value, items: seq<JsonObject>): (hs: seq<PropertyHash>)
    ensures |hs| == |items|
    ensures forall k :: 0 <= k < |items| ==> hs[k] == ItemProperties(repo, items[k])
  {
    seq(|items|, k requires 0 <= k < |items| => ItemProperties(repo, items[k]))
  }

  const REPOSITORIES := "/repositories/"
  const ITEMS := "/items"

  /** The GET that lists the items of `repo`: the repository's name sits
      between a fixed prefix and a fixed suffix. */
  function ItemsRequest(baseUrl: string, repo: Value): (r: Request)
    ensures r.Get? && ("detail", Str("high")) in r.params
    ensures |r.url| == |baseUrl| + |REPOSITORIES| + |ToS(repo)| + |ITEMS|
    ensures r.url[..|baseUrl|] == baseUrl
    ensures r.url[|baseUrl| + |REPOSITORIES|..|r.url| - |ITEMS|] == ToS(repo)
  {
    Get(baseUrl + REPOSITORIES + ToS(repo) + ITEMS, [("detail", Str("high"))])
  }

  /** The item listings `instances` asks for: one per repository, in order. */
  function ItemsRequests(baseUrl: string, names: seq<Value>): (rs: seq<Request>)
    ensures |rs| == |names|
    ensures forall i :: 0 <= i < |names| ==> rs[i] == ItemsRequest(baseUrl, names[i])
  {
    seq(|names|, i requires 0 <= i < |names| => ItemsRequest(baseUrl, names[i]))
  }

  /** The names of the listed repositories, in order. */
  function RepoNames(repos: seq<JsonObject>): (names: seq<Value>)
    ensures |names| == |repos|
    ensures forall k :: 0 <= k < |repos| ==> names[k] == Field(repos[k], "name")
  {
    seq(|repos|, k requires 0 <= k < |repos| => Field(repos[k], "name"))
  }

  /** `get_repos`: pushes the name of every listed repository. */
  method GetRepos(repos: seq<JsonObject>) returns (names: seq<Value>)
    ensures names == RepoNames(repos)
  {
    names := [];
    var i := 0;
    while i < |repos|
      invariant 0 <= i <= |repos|
      invariant names == RepoNames(repos[..i])
    {
      assert repos[..i + 1][..i] == repos[..i];
      names := names + [Field(repos[i], "name")];
      i := i + 1;
    }
    assert repos[..i] == repos;
  }

  /** The lists `parts` one after the other. */
  function Flatten<T>(parts: seq<seq<T>>): seq<T>
  {
    if parts == [] then [] else Flatten(parts[..|parts| - 1]) + parts[|parts| - 1]
  }

  /** How many entries the lists `parts` hold together. */
  function Total<T>(parts: seq<seq<T>>): nat
  {
    if parts == [] then 0 else Total(parts[..|parts| - 1]) + |parts[|parts| - 1]|
  }

  lemma {:induction false} FlattenLength<T>(parts: seq<seq<T>>)
    ensures |Flatten(parts)| == Total(parts)
  {
    if parts != [] {
      FlattenLength(parts[..|parts| - 1]);
    }
  }

  /** Entry `k` of list `j` comes right after the entries of the lists before it. */
  lemma {:induction false} FlattenIndex<T>(parts: seq<seq<T>>, j: nat, k: nat)
    requires j < |parts| && k < |parts[j]|
    ensures Total(parts[..j]) + k < |Flatten(parts)|
    ensures Flatten(parts)[Total(parts[..j]) + k] == parts[j][k]
  {
    var init := parts[..|parts| - 1];
    FlattenLength(init);
    if j == |parts| - 1 {
      assert parts[..j] == init;
    } else {
      assert init[j] == parts[j];
      assert init[..j] == parts[..j];
      FlattenIndex(init, j, k);
    }
  }

  /** Every entry of the flattened list is an entry of one of the lists. */
  lemma {:induction false} FlattenMember<T>(parts: seq<seq<T>>, x: nat)
    requires x < |Flatten(parts)|
    ensures exists j, k :: 0 <= j < |parts| && 0 <= k < |parts[j]| && Flatten(parts)[x] == parts[j][k]
  {
    var init := parts[..|parts| - 1];
    var before := Flatten(init);
    if x < |before| {
      FlattenMember(init, x);
      var j, k :| 0 <= j < |init| && 0 <= k < |init[j]| && before[x] == init[j][k];
      assert parts[j] == init[j];
    } else {
      var j := |parts| - 1;
      assert Flatten(parts)[x] == parts[j][x - |before|];
    }
  }

  /** The item lists of the repositories `names`, where `itemsOf(repo)` is what
      the server lists for `repo`. */
  function RepoItems(names: seq<Value>, itemsOf: Value -> seq<JsonObject>): (parts: seq<seq<PropertyHash>>)
    ensures |parts| == |names|
    ensures forall i :: 0 <= i < |names| ==> parts[i] == ItemsFromRepo(names[i], itemsOf(names[i]))
  {
    seq(|names|, i requires 0 <= i < |names| => ItemsFromRepo(names[i], itemsOf(names[i])))
  }

  /** The instances of the repositories `names`: the items of each repository in turn. */
  function AllItems(names: seq<Value>, itemsOf: Value -> seq<JsonObject>): seq<PropertyHash>
  {
    Flatten(RepoItems(names, itemsOf))
  }

  /** How many items the repositories `names` list together. */
  function ItemCount(names: seq<Value>, itemsOf: Value -> seq<JsonObject>): nat
  {
    if names == [] then 0
    else ItemCount(names[..|names| - 1], itemsOf) + |itemsOf(names[|names| - 1])|
  }

  lemma AllItemsSnoc(names: seq<Value>, itemsOf: Value -> seq<JsonObject>, i: nat)
    requires i < |names|
    ensures AllItems(names[..i + 1], itemsOf) == AllItems(names[..i], itemsOf) + ItemsFromRepo(names[i], itemsOf(names[i]))
  {
    var parts := RepoItems(names[..i + 1], itemsOf);
    assert parts[..i] == RepoItems(names[..i], itemsOf);
  }

  /** The inner loop of `instances`: pushes every item of one repository, in order. */
  method PushItems(instances: seq<PropertyHash>, items: seq<PropertyHash>) returns (r: seq<PropertyHash>)
    ensures r == instances + items
  {
    r := instances;
    var j := 0;
    while j < |items|
      invariant 0 <= j <= |items|
      invariant r == instances + items[..j]
    {
      assert items[..j + 1] == items[..j] + [items[j]];
      r := r + [items[j]];
      j := j + 1;
    }
    assert items[..j] == items;
  }

  /** `instances`: for every repository, in order, every one of its items, in
      order, and the item listing of each repository asked for in that order. */
  method Instances(baseUrl: string, repos: seq<JsonObject>, itemsOf: Value -> seq<JsonObject>)
    returns (instances: seq<PropertyHash>, requests: seq<Request>)
    ensures instances == AllItems(RepoNames(repos), itemsOf)
    ensures requests == ItemsRequests(baseUrl, RepoNames(repos))
  {
    var names := GetRepos(repos);
    instances := [];
    requests := [];
    var i := 0;
    while i < |names|
      invariant 0 <= i <= |names|
      invariant instances == AllItems(names[..i], itemsOf)
      invariant requests == ItemsRequests(baseUrl, names[..i])
    {
      var repo := names[i];
      AllItemsSnoc(names, itemsOf, i);
      requests := requests + [ItemsRequest(baseUrl, repo)];
      instances := PushItems(instances, ItemsFromRepo(repo, itemsOf(repo)));
      i := i + 1;
    }
    assert names[..i] == names;
  }

  lemma {:induction false} ItemCountIsTotal(names: seq<Value>, itemsOf: Value -> seq<JsonObject>)
    ensures Total(RepoItems(names, itemsOf)) == ItemCount(names, itemsOf)
  {
    if names != [] {
      var init := names[..|names| - 1];
      assert RepoItems(names, itemsOf)[..|names| - 1] == RepoItems(init, itemsOf);
      ItemCountIsTotal(init, itemsOf);
    }
  }

  /** There are as many instances as the repositories list items. */
  lemma InstanceCount(names: seq<Value>, itemsOf: Value -> seq<JsonObject>)
    ensures |AllItems(names, itemsOf)| == ItemCount(names, itemsOf)
  {
    FlattenLength(RepoItems(names, itemsOf));
    ItemCountIsTotal(names, itemsOf);
  }

  /** The `k`-th item of the `j`-th repository comes after all items of the
      repositories before it. */
  lemma InstanceOrder(names: seq<Value>, itemsOf: Value -> seq<JsonObject>, j: nat, k: nat)
    requires j < |names| && k < |itemsOf(names[j])|
    ensures ItemCount(names[..j], itemsOf) + k < |AllItems(names, itemsOf)|
    ensures AllItems(names, itemsOf)[ItemCount(names[..j], itemsOf) + k] ==
              ItemProperties(names[j], itemsOf(names[j])[k])
  {
    var parts := RepoItems(names, itemsOf);
    FlattenIndex(parts, j, k);
    assert parts[..j] == RepoItems(names[..j], itemsOf);
    ItemCountIsTotal(names[..j], itemsOf);
  }

  /** Every instance exists and names its repository. */
  lemma InstancesArePresent(names: seq<Value>, itemsOf: Value -> seq<JsonObject>, x: nat)
    requires x < |AllItems(names, itemsOf)|
    ensures Fme.Exists(AllItems(names, itemsOf)[x])
    ensures "repository" in AllItems(names, itemsOf)[x] && AllItems(names, itemsOf)[x]["repository"] in names
  {
    var parts := RepoItems(names, itemsOf);
    FlattenMember(parts, x);
    var j, k :| 0 <= j < |parts| && 0 <= k < |parts[j]| && AllItems(names, itemsOf)[x] == parts[j][k];
    assert parts[j][k] == ItemProperties(names[j], itemsOf(names[j])[k]);
  }


  /** `get_post_params` for the local file `source`. */
  function PostParams(decl: ItemDeclaration, source: string): (ps: seq<(string, Value)>)
    ensures forall i, j :: 0 <= i < j < |ps| ==> ps[i].0 != ps[j].0
    ensures ("repository", Str(decl.repository)) in ps
    ensures ("content_disposition", Str("attachment; filename=\"" + Basename(source) + "\"")) in ps
  {
    [("repository", Str(decl.repository)),
     ("detail", Str("low")),
     ("multipart", Bool(true)),
     ("content_type", Str("application/octet-stream")),
     ("content_disposition", Str("attachment; filename=\"" + Basename(source) + "\"")),
     ("accept", Str("json"))]
  }

  /** The uploaded file is named after the last component of the source path. */
  lemma UploadFileName(decl: ItemDeclaration, dir: string, base: string)
    requires base != [] && '/' !in base
    requires dir == [] || dir[|dir| - 1] != '/'
    ensures PostParams(decl, dir + "/" + base)[4] ==
              ("content_disposition", Str("attachment; filename=\"" + base + "\""))
  {
    SplitPath(dir, base);
  }

  /** `create` posts to the URL the items of its repository are listed from. */
  function CreateUrl(baseUrl: string, decl: ItemDeclaration): (u: string)
    ensures u == ItemsRequest(baseUrl, Str(decl.repository)).url
  {
    baseUrl + REPOSITORIES + decl.repository + ITEMS
  }

  /** `destroy` deletes the item below that listing URL. */
  function DeleteRequest(baseUrl: string, decl: ItemDeclaration): (r: Request)
    ensures r.Delete? && r.url == CreateUrl(baseUrl, decl) + "/" + decl.item
  {
    Delete(baseUrl + REPOSITORIES + decl.repository + ITEMS + "/" + decl.item)
  }

  /** The requests `create` issues: the upload, unless there is no source to read. */
  function CreateRequests(baseUrl: string, decl: ItemDeclaration): (rs: seq<Request>)
    ensures |rs| <= 1
    ensures rs == [] <==> decl.source.None?
    ensures rs != [] ==> rs[0].Upload? && rs[0].url == CreateUrl(baseUrl, decl) &&
                         rs[0].source == decl.source.value && rs[0].params == PostParams(decl, decl.source.value)
  {
    if decl.source.None? then []
    else [Upload(CreateUrl(baseUrl, decl), decl.source.value, PostParams(decl, decl.source.value))]
  }

  /** The result of `create`. */
  function CreateOutcome(decl: ItemDeclaration, response: Response): (o: Outcome)
    ensures decl.source.None? ==> o == Fail(NIL_SOURCE)
    ensures decl.source.Some? ==> (o.Pass? <==> response.code == 201)
    ensures decl.source.Some? && response.code != 201 ==> ReportedCode(o.error) == Some(response.code)
  {
    if decl.source.None? then Fail(NIL_SOURCE)
    else if response.code == 201 then Pass
    else
      ApiErrorReportsCode(response.code, "creating " + decl.name, response.body);
      Fail(ApiError(response.code, "creating " + decl.name, response.body))
  }

  /** A failed creation names the resource it was creating. */
  lemma CreateFailureNamesResource(decl: ItemDeclaration, response: Response)
    requires decl.source.Some? && response.code != 201
    ensures var msg := CreateOutcome(decl, response).error;
            var at := |API_ERROR_PREFIX| + |NatToString(response.code)| + |" when creating "|;
            at + |decl.name| <= |msg| && msg[at..at + |decl.name|] == decl.name
  {
    assert CreateOutcome(decl, response) == Fail(ApiError(response.code, "creating " + decl.name, response.body));
    assert |" when creating "| == |" when "| + |"creating "|;
    ApiErrorNamesSubject(response.code, "creating ", decl.name, response.body);
  }

  /** The provider object of one repository item. */
  class ItemProvider {
    const baseUrl: string
    const decl: ItemDeclaration
    var propertyHash: PropertyHash
    var requests: seq<Request>

    constructor (baseUrl: string, decl: ItemDeclaration, propertyHash: PropertyHash)
      ensures this.baseUrl == baseUrl && this.decl == decl
      ensures this.propertyHash == propertyHash && requests == []
    {
      this.baseUrl := baseUrl;
      this.decl := decl;
      this.propertyHash := propertyHash;
      requests := [];
    }

    /** `exists?` */
    predicate Exists()
      reads this
      ensures Exists() <==> "ensure" in propertyHash && propertyHash["ensure"] == PRESENT
    {
      Fme.Exists(propertyHash)
    }

    /** `create`: uploads the source; a 201 answer becomes the cache. */
    method Create(response: Response) returns (o: Outcome)
      modifies this
      ensures o == CreateOutcome(decl, response)
      ensures requests == old(requests) + CreateRequests(baseUrl, decl)
      ensures propertyHash ==
                if o.Pass? then ItemProperties(Str(decl.repository), Fields(response.body)) else old(propertyHash)
    {
      if decl.source.None? {
        return Fail(NIL_SOURCE);
      }
      var source := decl.source.value;
      requests := requests + [Upload(CreateUrl(baseUrl, decl), source, PostParams(decl, source))];
      if response.code == 201 {
        propertyHash := ItemProperties(Str(decl.repository), Fields(response.body));
        o := Pass;
      } else {
        o := Fail(ApiError(response.code, "creating " + decl.name, response.body));
      }
    }

    /** `destroy`: deletes the item and marks the cache absent, keeping the rest. */
    method Destroy()
      modifies this
      ensures propertyHash == old(propertyHash)["ensure" := ABSENT]
      ensures requests == old(requests) + [DeleteRequest(baseUrl, decl)]
      ensures !Exists()
    {
      requests := requests + [DeleteRequest(baseUrl, decl)];
      propertyHash := propertyHash["ensure" := ABSENT];
    }
  }

  /** A created item exists and carries the name `<repository>/<item name>`. */
  lemma CreatedItemNamed(decl: ItemDeclaration, response: Response)
    ensures Fme.Exists(ItemProperties(Str(decl.repository), Fields(response.body)))
    ensures ItemProperties(Str(decl.repository), Fields(response.body))["name"] ==
              Str(decl.repository + "/" + ToS(Field(Fields(response.body), "name")))
  {
  }
}
