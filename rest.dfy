/** The REST calls the providers issue and the answers they get, with the
    message every provider raises for an unexpected status code. */
module Rest {
  import opened Wrappers
  import opened Strings
  import opened Values

  /** One call to the FME REST API. The parameters are the query, form or
      header fields in order (their URL encoding is not modelled); an upload
      sends the contents of the local file `source` as its body. */
  datatype Request =
    | Get(url: string, params: seq<(string, Value)>)
    | Post(url: string, params: seq<(string, Value)>)
    | Upload(url: string, source: string, params: seq<(string, Value)>)
    | Put(url: string, params: seq<(string, Value)>)
    | Delete(url: string)

  /** The status code and the parsed JSON body of an answer. */
  datatype Response = Response(code: nat, body: Value)

  const API_ERROR_PREFIX := "FME Rest API returned "

  /** "FME Rest API returned <code> when <action>. <parsed body>" */
  function ApiError(code: nat, action: string, body: Value): (msg: string)
    ensures API_ERROR_PREFIX <= msg
  {
    API_ERROR_PREFIX + NatToString(code) + " when " + action + ". " + ToS(body)
  }

  /** The status code an API error message reports. */
  function ReportedCode(msg: string): Option<nat>
  {
    if API_ERROR_PREFIX <= msg then LeadingNat(msg[|API_ERROR_PREFIX|..]) else None
  }

  /** The code rendered after the prefix is read back whatever non-digit text follows. */
  lemma ReportedCodeOf(code: nat, rest: string)
    requires rest == [] || !IsDigit(rest[0])
    ensures ReportedCode(API_ERROR_PREFIX + (NatToString(code) + rest)) == Some(code)
  {
    var tail := NatToString(code) + rest;
    var msg := API_ERROR_PREFIX + tail;
    assert msg[..|API_ERROR_PREFIX|] == API_ERROR_PREFIX;
    assert msg[|API_ERROR_PREFIX|..] == tail;
    LeadingNatOfNatToString(code, rest);
  }

  /** The status code can be read back from every API error message. */
  lemma ApiErrorReportsCode(code: nat, action: string, body: Value)
    ensures ReportedCode(ApiError(code, action, body)) == Some(code)
  {
    var rest := " when " + action + ". " + ToS(body);
    assert rest[0] == ' ';
    assert ApiError(code, action, body) == API_ERROR_PREFIX + (NatToString(code) + rest);
    ReportedCodeOf(code, rest);
  }

  /** The action, and so the resource it names, is quoted verbatim. */
  lemma ApiErrorNamesAction(code: nat, action: string, body: Value)
    ensures var msg := ApiError(code, action, body);
            var at := |API_ERROR_PREFIX| + |NatToString(code)| + |" when "|;
            at + |action| <= |msg| && msg[at..at + |action|] == action
  {
    var head := API_ERROR_PREFIX + NatToString(code) + " when ";
    var tail := ". " + ToS(body);
    assert ApiError(code, action, body) == head + action + tail;
    assert |head| == |API_ERROR_PREFIX| + |NatToString(code)| + |" when "|;
    assert (head + action + tail)[|head|..|head| + |action|] == action;
  }

  /** For an action `<verb><subject>`, the subject is quoted right after the verb. */
  lemma ApiErrorNamesSubject(code: nat, verb: string, subject: string, body: Value)
    ensures var msg := ApiError(code, verb + subject, body);
            var at := |API_ERROR_PREFIX| + |NatToString(code)| + |" when "| + |verb|;
            at + |subject| <= |msg| && msg[at..at + |subject|] == subject
  {
    var head := API_ERROR_PREFIX + NatToString(code) + " when " + verb;
    var tail := ". " + ToS(body);
    assert ApiError(code, verb + subject, body) == head + subject + tail;
    assert |head| == |API_ERROR_PREFIX| + |NatToString(code)| + |" when "| + |verb|;
    assert (head + subject + tail)[|head|..|head| + |subject|] == subject;
  }
}
