/** The `rest_client` provider of `fme_user`: the listing of accounts, and a
    provider whose deletion is deferred to `flush` through a pending map, and
    whose updates need the password and send the declared values, falling back
    to the cached ones. */
module UserProvider {
  import opened Wrappers
  import opened Values
  import opened Rest
  import Fme
  import Helper

  /** The parameters of a declared user that the provider reads. */
  datatype UserDeclaration = UserDeclaration(name: string, password: Value, fullname: Value, roles: Value)

  const CREATE_PASSWORD := "Sorry, password is mandatory when creating fme_users"
  const MODIFY_PASSWORD := "Sorry, password is mandatory when modifying fme_users"

  /** The property hash of one listed account. */
  function UserProperties(user: JsonObject): (h: PropertyHash)
    ensures h.Keys == {"ensure", "provider", "name", "fullname", "roles"}
    ensures h["ensure"] == PRESENT && h["provider"] == REST_CLIENT
    ensures h["name"] == Field(user, "name") && h["fullname"] == Field(user, "fullName")
    ensures h["roles"] == Field(user, "roles")
  {
    map["ensure" := PRESENT,
        "provider" := REST_CLIENT,
        "name" := Field(user, "name"),
        "fullname" := Field(user, "fullName"),
        "roles" := Field(user, "roles")]
  }

  /** `instances`: one provider per account of the parsed listing. */
  function UserInstances(users: seq<Value>): (r: seq<PropertyHash>)
    ensures |r| == |users|
    ensures forall k :: 0 <= k < |users| ==> r[k] == UserProperties(Fields(users[k]))
  {
    seq(|users|, k requires 0 <= k < |users| => UserProperties(Fields(users[k])))
  }

  /** Every listed account exists, and `prefetch` finds it under its account name. */
  lemma ListedUsersExist(users: seq<Value>, k: nat)
    requires k < |users|
    ensures Fme.Exists(UserInstances(users)[k])
    ensures Field(Fields(users[k]), "name").Str? ==>
              Fme.NameKey(UserInstances(users)[k]) == Some(Field(Fields(users[k]), "name").s)
  {
  }

  /** The listing request. */
  function ListRequest(baseUrl: string): (r: Request)
    ensures r.Get? && baseUrl <= r.url && ("detail", Str("high")) in r.params
  {
    Get(baseUrl + ACCOUNTS, [("detail", Str("high"))])
  }

  const ACCOUNTS := "/security/accounts"

  /** The URL of one account. */
  function AccountUrl(baseUrl: string, name: string): (u: string)
    ensures u == ListRequest(baseUrl).url + "/" + name
  {
    baseUrl + ACCOUNTS + "/" + name
  }

  /** The position of a field in the `get_new_params` hash. */
  function Rank(key: string): nat
  {
    if key == "name" then 0 else if key == "password" then 1 else if key == "fullName" then 2 else 3
  }

  /** The fields come in the order name, password, fullName, roles. */
  predicate InFieldOrder(fields: seq<(string, Value)>)
  {
    forall i, j :: 0 <= i < j < |fields| ==> Rank(fields[i].0) < Rank(fields[j].0)
  }

  lemma TailInFieldOrder(fields: seq<(string, Value)>)
    requires fields != [] && InFieldOrder(fields)
    ensures InFieldOrder(fields[1..])
    ensures forall p :: p in fields[1..] ==> Rank(fields[0].0) < Rank(p.0)
  {
    var rest := fields[1..];
    forall i, j | 0 <= i < j < |rest| ensures Rank(rest[i].0) < Rank(rest[j].0) {
      assert rest[i] == fields[i + 1] && rest[j] == fields[j + 1];
    }
    forall p | p in rest ensures Rank(fields[0].0) < Rank(p.0) {
      var k :| 0 <= k < |rest| && rest[k] == p;
      assert fields[k + 1] == p;
    }
  }

  lemma ConsInFieldOrder(f: (string, Value), rest: seq<(string, Value)>)
    requires InFieldOrder(rest)
    requires forall p :: p in rest ==> Rank(f.0) < Rank(p.0)
    ensures InFieldOrder([f] + rest)
  {
    var r := [f] + rest;
    forall i, j | 0 <= i < j < |r| ensures Rank(r[i].0) < Rank(r[j].0) {
      assert r[j] == rest[j - 1];
      if i > 0 {
        assert r[i] == rest[i - 1];
      }
    }
  }

  /** Dropping the nil pairs keeps the remaining ones in order. */
  lemma {:induction false} DropNilKeepsOrder(fields: seq<(string, Value)>)
    requires InFieldOrder(fields)
    ensures InFieldOrder(DropNil(fields))
  {
    if fields != [] {
      var rest := fields[1..];
      TailInFieldOrder(fields);
      DropNilKeepsOrder(rest);
      if fields[0].1 != Nil {
        ConsInFieldOrder(fields[0], DropNil(rest));
      }
    }
  }

  /** The pairs `get_new_params` starts from, before the nil ones are dropped. */
  function CandidateParams(decl: UserDeclaration, propertyHash: PropertyHash): (fields: seq<(string, Value)>)
    ensures |fields| == 4 && fields[0] == ("name", Str(decl.name)) && InFieldOrder(fields)
  {
    [("name", Str(decl.name)),
     ("password", decl.password),
     ("fullName", Or(decl.fullname, At(propertyHash, "fullname"))),
     ("roles", Or(decl.roles, At(propertyHash, "roles")))]
  }

  /** `get_new_params`: the declared name and password, then the full name and
      the roles, declared or else cached, without the nil ones. */
  function NewParams(decl: UserDeclaration, propertyHash: PropertyHash): (r: seq<(string, Value)>)
    ensures |r| <= 4 && forall p :: p in r ==> p in CandidateParams(decl, propertyHash) && p.1 != Nil
  {
    DropNil(CandidateParams(decl, propertyHash))
  }

  /** The name comes first, at most the four fields are sent, none nil, in order. */
  lemma NewParamsShape(decl: UserDeclaration, propertyHash: PropertyHash)
    ensures var r := NewParams(decl, propertyHash);
            |r| >= 1 && r[0] == ("name", Str(decl.name)) && |r| <= 4
    ensures var r := NewParams(decl, propertyHash);
            forall p :: p in r ==> p.1 != Nil && p.0 in {"name", "password", "fullName", "roles"}
    ensures InFieldOrder(NewParams(decl, propertyHash))
  {
    var fields := CandidateParams(decl, propertyHash);
    assert NewParams(decl, propertyHash) == DropNil(fields);
    assert DropNil(fields) == [fields[0]] + DropNil(fields[1..]);
    DropNilKeepsOrder(fields);
  }

  /** Which values of the password, full name and roles are sent. */
  lemma NewParamsMembers(decl: UserDeclaration, propertyHash: PropertyHash)
    ensures ("password", decl.password) in NewParams(decl, propertyHash) <==> decl.password != Nil
    ensures Truthy(decl.fullname) ==> ("fullName", decl.fullname) in NewParams(decl, propertyHash)
    ensures !Truthy(decl.fullname) ==>
              (("fullName", At(propertyHash, "fullname")) in NewParams(decl, propertyHash) <==>
                 At(propertyHash, "fullname") != Nil)
    ensures Truthy(decl.roles) ==> ("roles", decl.roles) in NewParams(decl, propertyHash)
    ensures !Truthy(decl.roles) ==>
              (("roles", At(propertyHash, "roles")) in NewParams(decl, propertyHash) <==>
                 At(propertyHash, "roles") != Nil)
  {
    var fields := CandidateParams(decl, propertyHash);
    assert NewParams(decl, propertyHash) == DropNil(fields);
    assert fields[1] == ("password", decl.password);
  }

  /** The name always comes first and the fields keep their order; each
      other field is sent exactly when it is not nil, with the declared full
      name and roles taking precedence over the cached ones. */
  lemma NewParamsFields(decl: UserDeclaration, propertyHash: PropertyHash)
    ensures var r := NewParams(decl, propertyHash);
            |r| >= 1 && r[0] == ("name", Str(decl.name)) && |r| <= 4
    ensures var r := NewParams(decl, propertyHash);
            forall p :: p in r ==> p.1 != Nil && p.0 in {"name", "password", "fullName", "roles"}
    ensures InFieldOrder(NewParams(decl, propertyHash))
    ensures ("password", decl.password) in NewParams(decl, propertyHash) <==> decl.password != Nil
    ensures Truthy(decl.fullname) ==> ("fullName", decl.fullname) in NewParams(decl, propertyHash)
    ensures !Truthy(decl.fullname) ==>
              (("fullName", At(propertyHash, "fullname")) in NewParams(decl, propertyHash) <==>
                 At(propertyHash, "fullname") != Nil)
    ensures Truthy(decl.roles) ==> ("roles", decl.roles) in NewParams(decl, propertyHash)
    ensures !Truthy(decl.roles) ==>
              (("roles", At(propertyHash, "roles")) in NewParams(decl, propertyHash) <==>
                 At(propertyHash, "roles") != Nil)
  {
    NewParamsShape(decl, propertyHash);
    NewParamsMembers(decl, propertyHash);
  }

  /** With only a name and a password known, exactly those two are sent. */
  lemma NewParamsMinimal(name: string, password: string)
    ensures NewParams(UserDeclaration(name, Str(password), Nil, Nil), map[]) ==
              [("name", Str(name)), ("password", Str(password))]
  {
    var fields := [("name", Str(name)), ("password", Str(password)), ("fullName", Nil), ("roles", Nil)];
    assert DropNil(fields[3..]) == [] by {
      assert fields[3..][1..] == [];
    }
    assert fields[2..][1..] == fields[3..];
    assert DropNil(fields[2..]) == [];
    assert fields[1..][1..] == fields[2..];
    assert DropNil(fields[1..]) == [fields[1]];
    assert DropNil(fields) == [fields[0], fields[1]];
  }

  /** The request `modify_user` sends. */
  function ModifyRequest(baseUrl: string, decl: UserDeclaration, propertyHash: PropertyHash): (r: Request)
    ensures r.Put? && r.url == AccountUrl(baseUrl, decl.name)
    ensures r.params != [] && r.params[0] == ("detail", Str("high"))
    ensures forall p :: p in r.params[1..] ==> p in CandidateParams(decl, propertyHash) && p.1 != Nil
  {
    var r := Put(AccountUrl(baseUrl, decl.name), [("detail", Str("high"))] + NewParams(decl, propertyHash));
    assert r.params[1..] == NewParams(decl, propertyHash);
    r
  }

  /** The result of `modify_user` for the server's answer. */
  function ModifyOutcome(decl: UserDeclaration, response: Response): (o: Outcome)
    ensures o.Pass? <==> response.code == 200
    ensures o.Fail? ==> ReportedCode(o.error) == Some(response.code)
  {
    if response.code == 200 then Pass
    else
      ApiErrorReportsCode(response.code, "modifying " + decl.name, response.body);
      Fail(ApiError(response.code, "modifying " + decl.name, response.body))
  }

  class UserProvider {
    const baseUrl: string
    const decl: UserDeclaration
    var propertyHash: PropertyHash
    /** `@property_flush`: the changes `flush` still has to send. */
    var propertyFlush: PropertyHash
    var requests: seq<Request>

    /** `initialize`: the given cache and nothing pending. */
    constructor (baseUrl: string, decl: UserDeclaration, propertyHash: PropertyHash)
      ensures this.baseUrl == baseUrl && this.decl == decl && this.propertyHash == propertyHash
      ensures propertyFlush == map[] && requests == []
    {
      this.baseUrl := baseUrl;
      this.decl := decl;
      this.propertyHash := propertyHash;
      propertyFlush := map[];
      requests := [];
    }

    /** `destroy`: only records the deletion for `flush`. */
    method Destroy()
      modifies this
      ensures propertyFlush == old(propertyFlush)["ensure" := ABSENT]
      ensures propertyHash == old(propertyHash) && requests == old(requests)
    {
      propertyFlush := propertyFlush["ensure" := ABSENT];
    }

    /** `create`: refuses a user without a password, else posts the account. */
    method Create() returns (o: Outcome)
      modifies this
      ensures o == (if decl.password == Nil then Fail(CREATE_PASSWORD) else Pass)
      ensures requests == old(requests) +
                (if o.Pass? then [Post(baseUrl + ACCOUNTS, [("name", Str(decl.name))])] else [])
      ensures propertyHash == old(propertyHash) && propertyFlush == old(propertyFlush)
    {
      if decl.password == Nil {
        return Fail(CREATE_PASSWORD);
      }
      requests := requests + [Post(baseUrl + ACCOUNTS, [("name", Str(decl.name))])];
      o := Pass;
    }

    /** `modify_user`: a 200 answer becomes the cache. */
    method ModifyUser(response: Response) returns (o: Outcome)
      modifies this
      ensures o == ModifyOutcome(decl, response)
      ensures requests == old(requests) + [ModifyRequest(baseUrl, decl, old(propertyHash))]
      ensures propertyHash ==
                if o.Pass? then Helper.ResponseToPropertyHash(Fields(response.body)) else old(propertyHash)
      ensures propertyFlush == old(propertyFlush)
    {
      requests := requests + [ModifyRequest(baseUrl, decl, propertyHash)];
      if response.code == 200 {
        propertyHash := Helper.ResponseToPropertyHash(Fields(response.body));
        o := Pass;
      } else {
        o := ModifyOutcome(decl, response);
      }
    }

    /** `flush`: a pending deletion deletes the account and marks it absent;
        otherwise the user is updated, which needs the password. */
    method Flush(response: Response) returns (o: Outcome)
      modifies this
      ensures At(old(propertyFlush), "ensure") == ABSENT ==>
                o == Pass && propertyHash == old(propertyHash)["ensure" := ABSENT] &&
                requests == old(requests) + [Delete(AccountUrl(baseUrl, decl.name))]
      ensures At(old(propertyFlush), "ensure") != ABSENT && decl.password == Nil ==>
                o == Fail(MODIFY_PASSWORD) && propertyHash == old(propertyHash) && requests == old(requests)
      ensures At(old(propertyFlush), "ensure") != ABSENT && decl.password != Nil ==>
                o == ModifyOutcome(decl, response) &&
                requests == old(requests) + [ModifyRequest(baseUrl, decl, old(propertyHash))] &&
                propertyHash ==
                  (if o.Pass? then Helper.ResponseToPropertyHash(Fields(response.body)) else old(propertyHash))
      ensures propertyFlush == old(propertyFlush)
    {
      if At(propertyFlush, "ensure") == ABSENT {
        requests := requests + [Delete(AccountUrl(baseUrl, decl.name))];
        propertyHash := propertyHash["ensure" := ABSENT];
        return Pass;
      }
      if decl.password == Nil {
        return Fail(MODIFY_PASSWORD);
      }
      o := ModifyUser(response);
    }
  }

  /** A user destroyed and then flushed is deleted on the server and no longer
      exists, whatever answer an update would have got. */
  method DestroyThenFlush(p: UserProvider, response: Response) returns (o: Outcome)
    modifies p
    ensures o == Pass && !Fme.Exists(p.propertyHash)
    ensures p.requests == old(p.requests) + [Delete(AccountUrl(p.baseUrl, p.decl.name))]
  {
    p.Destroy();
    o := p.Flush(response);
  }
}
