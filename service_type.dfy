/** The `fme_service` type: services can be configured but never created or
    deleted, so both values of `ensure` refuse to sync. */
module ServiceType {
  import opened Wrappers
  import opened Values

  const CREATE_REFUSED := "Creation of fme_service resources not implemented"
  const DELETE_REFUSED := "Deletion of fme_service resources not implemented"

  /** `ensure` defaults to `present`. */
  const DEFAULT_SERVICE_ENSURE := PRESENT

  /** The block run to sync `ensure` to `should`. */
  function SyncServiceEnsure(should: Value): (o: Outcome)
    requires should == PRESENT || should == ABSENT
    ensures o.Fail?
    ensures should == PRESENT ==> o.error == CREATE_REFUSED
    ensures should == ABSENT ==> o.error == DELETE_REFUSED
  {
    if should == PRESENT then Fail(CREATE_REFUSED) else Fail(DELETE_REFUSED)
  }

  /** Whatever value is declared, including the default, syncing `ensure`
      fails, so a service is never created or deleted through this type. */
  lemma NoEnsureTransition(v: Value)
    ensures MungePresentAbsent(v).Ok? ==> SyncServiceEnsure(MungePresentAbsent(v).value).Fail?
    ensures SyncServiceEnsure(DEFAULT_SERVICE_ENSURE) == Fail(CREATE_REFUSED)
  {
  }
}
