/** The `fme_user` type: the `roles` property, compared as a sorted list and
    validated entry by entry. */
module UserType {
  import opened Wrappers
  import opened Values
  import ListProperty

  /** `insync?` of `roles`. */
  predicate RolesInSync(current: seq<string>, should: seq<string>)
    ensures RolesInSync(current, should) ==> |current| == |should|
  {
    ListProperty.InSync(current, should)
  }

  /** Roles are in sync exactly when both lists hold the same roles the same
      number of times, so their order does not matter. */
  lemma RolesInSyncIff(current: seq<string>, should: seq<string>)
    ensures RolesInSync(current, should) <==> multiset(current) == multiset(should)
  {
    ListProperty.InSyncIffSameEntries(current, should);
  }

  lemma SameRolesInSync(current: seq<string>, should: seq<string>)
    requires multiset(current) == multiset(should)
    ensures RolesInSync(current, should)
  {
    RolesInSyncIff(current, should);
  }

  /** A list with more or fewer roles than declared is never in sync. */
  lemma FewerRolesOutOfSync(current: seq<string>, should: seq<string>)
    requires |current| != |should|
    ensures !RolesInSync(current, should)
  {
    RolesInSyncIff(current, should);
    assert |multiset(current)| != |multiset(should)|;
  }

  /** Three roles listed in reverse order are in sync with the declared list. */
  lemma RolesOrderIgnored(a: string, b: string, c: string)
    ensures RolesInSync([c, b, a], [a, b, c])
  {
    ReversedRoles(a, b, c);
    SameRolesInSync([c, b, a], [a, b, c]);
  }

  lemma ReversedRoles(a: string, b: string, c: string)
    ensures multiset([c, b, a]) == multiset([a, b, c])
  {
  }

  /** `validate` of one role. */
  function ValidateRole(entry: Value): (o: Outcome)
    ensures o.Fail? ==> "Roles" <= o.error
  {
    ListProperty.ValidateEntry("Roles", entry)
  }

  /** A role is accepted exactly when it is a string with no `,` and no
      space, and each refusal has its own message. */
  lemma ValidateRoleAccepts(entry: Value)
    ensures ValidateRole(entry).Pass? <==> entry.Str? && ',' !in entry.s && ' ' !in entry.s
    ensures !entry.Str? ==> ValidateRole(entry) == Fail("Roles" + " must be array of strings.")
    ensures entry.Str? && ',' in entry.s ==> ValidateRole(entry) == Fail("Roles" + " cannot include ','.")
    ensures entry.Str? && ',' !in entry.s && ' ' in entry.s ==>
              ValidateRole(entry) == Fail("Roles" + " cannot include ' '.")
  {
    ListProperty.ValidateEntryAccepts("Roles", entry);
  }

  /** A comma- or space-separated list in one string is refused. */
  lemma SeparatedRolesRefused()
    ensures ValidateRole(Str("foo,bar")) == Fail("Roles" + " cannot include ','.")
    ensures ValidateRole(Str("foo bar")) == Fail("Roles" + " cannot include ' '.")
    ensures ValidateRole(Str("foo")).Pass?
  {
    assert "foo,bar"[3] == ',';
    assert "foo bar"[3] == ' ';
    ValidateRoleAccepts(Str("foo,bar"));
    ValidateRoleAccepts(Str("foo bar"));
    ValidateRoleAccepts(Str("foo"));
  }
}
