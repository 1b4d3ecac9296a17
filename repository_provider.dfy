/** The `rest_client` provider of `fme_repository`: the listing of
    repositories, creation with an optional description, deletion, and a
    description that can never be changed. */
module RepositoryProvider {
  import opened Wrappers
  import opened Strings
  import opened Values
  import opened Rest
  import Fme
  import Helper

  /** The parameters of a declared repository that the provider reads. */
  datatype RepositoryDeclaration = RepositoryDeclaration(name: string, description: Value)

  const DESCRIPTION_READ_ONLY := "FME API doesn't support updating the repository description"

  /** The property hash of one listed repository. */
  function RepositoryProperties(repo: JsonObject): (h: PropertyHash)
    ensures h.Keys == {"ensure", "provider", "name", "description"}
    ensures h["ensure"] == PRESENT && h["provider"] == REST_CLIENT
    ensures h["name"] == Field(repo, "name") && h["description"] == Field(repo, "description")
  {
    map["ensure" := PRESENT,
        "provider" := REST_CLIENT,
        "name" := Field(repo, "name"),
        "description" := Field(repo, "description")]
  }

  /** `instances`: one provider per repository of the parsed listing. */
  function RepositoryInstances(repos: seq<Value>): (r: seq<PropertyHash>)
    ensures |r| == |repos|
    ensures forall k :: 0 <= k < |repos| ==> r[k] == RepositoryProperties(Fields(repos[k]))
  {
    seq(|repos|, k requires 0 <= k < |repos| => RepositoryProperties(Fields(repos[k])))
  }

  /** Every listed repository exists, and `prefetch` finds it under its name. */
  lemma ListedRepositoriesExist(repos: seq<Value>, k: nat)
    requires k < |repos|
    ensures Fme.Exists(RepositoryInstances(repos)[k])
    ensures Field(Fields(repos[k]), "name").Str? ==>
              Fme.NameKey(RepositoryInstances(repos)[k]) == Some(Field(Fields(repos[k]), "name").s)
  {
  }

  /** The listing request. */
  function ListRequest(baseUrl: string): (r: Request)
    ensures r.Get? && baseUrl <= r.url && ("detail", Str("high")) in r.params
  {
    Get(baseUrl + "/repositories", [("detail", Str("high"))])
  }

  /** The parameters `create` posts: the name, and the description unless it is nil. */
  function CreateParams(decl: RepositoryDeclaration): (ps: seq<(string, Value)>)
    ensures ps != [] && ps[0] == ("name", Str(decl.name))
    ensures forall p :: p in ps ==> p.1 != Nil
    ensures ("description", decl.description) in ps <==> decl.description != Nil
  {
    DropNil([("name", Str(decl.name)), ("description", decl.description)])
  }

  /** The name is always posted, first; the description follows exactly when
      one is declared. */
  lemma CreateParamsCases(decl: RepositoryDeclaration)
    ensures decl.description == Nil ==> CreateParams(decl) == [("name", Str(decl.name))]
    ensures decl.description != Nil ==>
              CreateParams(decl) == [("name", Str(decl.name)), ("description", decl.description)]
  {
    var fields := [("name", Str(decl.name)), ("description", decl.description)];
    assert fields[1..][1..] == [];
    assert DropNil(fields[1..]) == (if decl.description == Nil then [] else [fields[1]]);
    assert DropNil(fields) == [fields[0]] + DropNil(fields[1..]);
  }

  /** The request `create` sends. */
  function CreateRequest(baseUrl: string, decl: RepositoryDeclaration): (r: Request)
    ensures r.Post? && r.url == ListRequest(baseUrl).url && r.params == CreateParams(decl)
  {
    Post(baseUrl + "/repositories", CreateParams(decl))
  }

  /** The result of `create` for the server's answer. */
  function CreateOutcome(decl: RepositoryDeclaration, response: Response): (o: Outcome)
    ensures o.Pass? <==> response.code == 201
    ensures o.Fail? ==> ReportedCode(o.error) == Some(response.code)
  {
    if response.code == 201 then Pass
    else
      ApiErrorReportsCode(response.code, "creating " + decl.name, response.body);
      Fail(ApiError(response.code, "creating " + decl.name, response.body))
  }

  /** A failed creation names the repository. */
  lemma CreateFailureNamesRepository(decl: RepositoryDeclaration, response: Response)
    requires response.code != 201
    ensures var msg := CreateOutcome(decl, response).error;
            var at := |API_ERROR_PREFIX| + |NatToString(response.code)| + |" when creating "|;
            msg[at..at + |decl.name|] == decl.name
  {
    ApiErrorNamesSubject(response.code, "creating ", decl.name, response.body);
  }

  /** `description=`: always refused, whatever the value. */
  function SetDescription(value: Value): (o: Outcome)
    ensures o.Fail?
  {
    Fail(DESCRIPTION_READ_ONLY)
  }

  /** The refusal does not depend on the description asked for. */
  lemma DescriptionNeverUpdated(a: Value, b: Value)
    ensures SetDescription(a) == SetDescription(b) == Fail(DESCRIPTION_READ_ONLY)
  {
  }

  class RepositoryProvider {
    /** `@baseurl`, fixed when the provider is made. */
    const baseUrl: string
    const decl: RepositoryDeclaration
    var propertyHash: PropertyHash
    var requests: seq<Request>

    constructor (baseUrl: string, decl: RepositoryDeclaration, propertyHash: PropertyHash)
      ensures this.baseUrl == baseUrl && this.decl == decl
      ensures this.propertyHash == propertyHash && requests == []
    {
      this.baseUrl := baseUrl;
      this.decl := decl;
      this.propertyHash := propertyHash;
      requests := [];
    }

    /** `create`: a 201 answer becomes the cache. */
    method Create(response: Response) returns (o: Outcome)
      modifies this
      ensures o == CreateOutcome(decl, response)
      ensures requests == old(requests) + [CreateRequest(baseUrl, decl)]
      ensures propertyHash ==
                if o.Pass? then Helper.ResponseToPropertyHash(Fields(response.body)) else old(propertyHash)
    {
      requests := requests + [CreateRequest(baseUrl, decl)];
      if response.code == 201 {
        propertyHash := Helper.ResponseToPropertyHash(Fields(response.body));
      }
      o := CreateOutcome(decl, response);
    }

    /** `destroy`: deletes the repository and marks only `ensure` absent. */
    method Destroy()
      modifies this
      ensures propertyHash == old(propertyHash)["ensure" := ABSENT]
      ensures requests == old(requests) + [Delete(baseUrl + "/repositories/" + decl.name)]
      ensures !Fme.Exists(propertyHash)
    {
      requests := requests + [Delete(baseUrl + "/repositories/" + decl.name)];
      propertyHash := propertyHash["ensure" := ABSENT];
    }
  }
}
