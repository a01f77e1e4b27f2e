/**
 * The delete-account form: its schema, and the confirmation flow that holds
 * the validated data back until the user confirms in a modal.
 */
module DeleteAccountForm {
  import opened Wrappers
  import opened Js
  import opened FormRules

  /** The form's data: the read-only current username and the password. */
  datatype DeleteAccountData = DeleteAccountData(usernameCurrent: string, password: string)

  /** The issues `deleteAccountSchema` reports: none for `username_current`, the password's length rule. */
  function DeleteAccountIssues(data: DeleteAccountData): (r: seq<FieldIssue>)
    ensures |r| <= 1
    ensures r == [] <==> MIN_PASSWORD_LEN <= JsLength(data.password) <= MAX_PASSWORD_LEN
    ensures forall k :: 0 <= k < |r| ==> r[k].path == "password"
  {
    LengthIssuesWithinBounds("password", data.password, PASSWORD_RULE);
    LengthIssues("password", data.password, PASSWORD_RULE)
  }

  /** Data the schema accepts. */
  predicate Accepted(data: DeleteAccountData)
  {
    DeleteAccountIssues(data) == []
  }

  /**
   * The component's state: whether the modal is open, the data waiting for
   * confirmation, and, as a record of its effects, the passwords passed to
   * `deleteAccount` and how many success toasts were shown.
   */
  class DeleteAccountFlow {
    var isModalOpen: bool
    var pendingData: Option<DeleteAccountData>
    var deleteRequests: seq<string>
    var successToasts: nat

    /** Only accepted data is ever held back or sent. */
    predicate Valid()
      reads this
    {
      && (pendingData.Some? ==> Accepted(pendingData.value))
      && forall k :: 0 <= k < |deleteRequests| ==>
           MIN_PASSWORD_LEN <= JsLength(deleteRequests[k]) <= MAX_PASSWORD_LEN
    }

    constructor()
      ensures Valid()
      ensures !isModalOpen && pendingData == None && deleteRequests == [] && successToasts == 0
    {
      isModalOpen := false;
      pendingData := None;
      deleteRequests := [];
      successToasts := 0;
    }

    /**
     * Submitting the form: the schema runs first; data it accepts is only
     * stored and the modal opened (`handleValidatedSubmit`), no deletion is
     * requested; rejected data changes nothing.
     */
    method Submit(data: DeleteAccountData)
      requires Valid()
      modifies this
      ensures Valid()
      ensures Accepted(data) ==> pendingData == Some(data) && isModalOpen
      ensures !Accepted(data) ==> pendingData == old(pendingData) && isModalOpen == old(isModalOpen)
      ensures deleteRequests == old(deleteRequests) && successToasts == old(successToasts)
    {
      var issues := DeleteAccountIssues(data);
      if issues == [] {
        pendingData := Some(data);
        isModalOpen := true;
      }
    }

    /**
     * `handleConfirmModal`: without pending data nothing happens; otherwise
     * `deleteAccount` is called once with the pending password, a success
     * toast follows only if it succeeded, and either way the modal closes and
     * the pending data is cleared. `deleteFails` says how the call ended.
     */
    method ConfirmModal(deleteFails: bool)
      requires Valid()
      modifies this
      ensures Valid()
      ensures old(pendingData) == None ==>
                isModalOpen == old(isModalOpen) && pendingData == None
                && deleteRequests == old(deleteRequests) && successToasts == old(successToasts)
      ensures old(pendingData).Some? ==>
                !isModalOpen && pendingData == None
                && deleteRequests == old(deleteRequests) + [old(pendingData).value.password]
                && successToasts == old(successToasts) + (if deleteFails then 0 else 1)
    {
      if pendingData.None? {
        return;
      }
      deleteRequests := deleteRequests + [pendingData.value.password];
      if !deleteFails {
        successToasts := successToasts + 1;
      }
      isModalOpen := false;
      pendingData := None;
    }

    /** The modal's `onClose`: the modal closes, the pending data stays. */
    method Close()
      requires Valid()
      modifies this
      ensures Valid()
      ensures !isModalOpen && pendingData == old(pendingData)
      ensures deleteRequests == old(deleteRequests) && successToasts == old(successToasts)
    {
      isModalOpen := false;
    }
  }
}
