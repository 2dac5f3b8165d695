/**
 * The customer management page: who may see it, what it shows, and the
 * edit / delete-confirm controller behind each table row. Update and delete
 * requests are returned to the caller; whether the server accepted them is a
 * parameter.
 */
module CustomersView {
  import opened Js
  import opened Types

  /** `editCustomerData`: the two fields of the row being edited. */
  datatype EditData = EditData(fullName: string, phoneNumber: string)

  const EmptyEdit := EditData("", "")

  /** The page's own state fields. */
  datatype ViewState = ViewState(
    editingCustomerId: Option<int>, editData: EditData, deletingCustomerId: Option<int>, alert: Alert)

  const Initial := ViewState(None, EmptyEdit, None, HiddenAlert)

  /** An id held in state is truthy when present and not 0. */
  predicate IdTruthy(id: Option<int>) {
    id.Some? && id.value != 0
  }

  /** `handleStartEditCustomer`: edit this customer, starting from its stored name and phone. */
  function StartEdit(s: ViewState, c: Customer): (r: ViewState)
    ensures r.editingCustomerId == Some(c.id) && r.editData == EditData(c.fullName, c.phoneNumber)
    ensures r.deletingCustomerId == s.deletingCustomerId && r.alert == s.alert
  {
    var name := if c.fullName != "" then c.fullName else "";
    var phone := if c.phoneNumber != "" then c.phoneNumber else "";
    s.(editingCustomerId := Some(c.id), editData := EditData(name, phone))
  }

  /** Typing into the name input of the edited row. */
  function EditName(s: ViewState, v: string): (r: ViewState)
    ensures r.editData == EditData(v, s.editData.phoneNumber)
    ensures r.(editData := s.editData) == s
  {
    s.(editData := s.editData.(fullName := v))
  }

  /** Typing into the phone input of the edited row. */
  function EditPhone(s: ViewState, v: string): (r: ViewState)
    ensures r.editData == EditData(s.editData.fullName, v)
    ensures r.(editData := s.editData) == s
  {
    s.(editData := s.editData.(phoneNumber := v))
  }

  /** `handleCancelEditCustomer`. */
  function CancelEdit(s: ViewState): (r: ViewState)
    ensures r.editingCustomerId.None? && r.editData == EmptyEdit
    ensures r.deletingCustomerId == s.deletingCustomerId && r.alert == s.alert
  {
    s.(editingCustomerId := None, editData := EmptyEdit)
  }

  /** The update `handleSaveCustomer` sends: the edited id and the edited fields. */
  datatype UpdateRequest = UpdateRequest(customerId: int, data: EditData)

  /** Saving sends nothing unless a (truthy) customer id is being edited. */
  function SaveRequest(s: ViewState): (req: Option<UpdateRequest>)
    ensures req.Some? <==> IdTruthy(s.editingCustomerId)
    ensures req.Some? ==> req.value == UpdateRequest(s.editingCustomerId.value, s.editData)
  {
    if !IdTruthy(s.editingCustomerId) then None
    else Some(UpdateRequest(s.editingCustomerId.value, s.editData))
  }

  /** The state after `handleSaveCustomer`, given whether the update succeeded. */
  function AfterSave(s: ViewState, succeeded: bool): (r: ViewState)
    ensures SaveRequest(s).None? ==> r == s
    ensures SaveRequest(s).Some? && succeeded ==>
      r == ViewState(None, EmptyEdit, s.deletingCustomerId, Alert(true, Success, "Customer updated successfully!"))
    ensures SaveRequest(s).Some? && !succeeded ==>
      r == s.(alert := Alert(true, Error, "Failed to update customer."))
  {
    if !IdTruthy(s.editingCustomerId) then s
    else if succeeded then
      s.(alert := Alert(true, Success, "Customer updated successfully!"), editingCustomerId := None, editData := EmptyEdit)
    else
      s.(alert := Alert(true, Error, "Failed to update customer."))
  }

  /** `handleDeleteCustomer`: ask for confirmation on this row. */
  function AskDelete(s: ViewState, id: int): (r: ViewState)
    ensures r.deletingCustomerId == Some(id)
    ensures r.(deletingCustomerId := s.deletingCustomerId) == s
  {
    s.(deletingCustomerId := Some(id))
  }

  /** Confirming sends nothing unless a (truthy) customer id awaits confirmation. */
  function DeleteRequest(s: ViewState): (req: Option<int>)
    ensures req.Some? <==> IdTruthy(s.deletingCustomerId)
    ensures req.Some? ==> req == s.deletingCustomerId
  {
    if IdTruthy(s.deletingCustomerId) then s.deletingCustomerId else None
  }

  /** The state after `handleConfirmDeleteCustomer`, given whether the delete succeeded. */
  function AfterConfirmDelete(s: ViewState, succeeded: bool): (r: ViewState)
    ensures DeleteRequest(s).None? ==> r == s
    ensures DeleteRequest(s).Some? ==>
      r.deletingCustomerId.None? && r.editingCustomerId == s.editingCustomerId && r.editData == s.editData
    ensures DeleteRequest(s).Some? ==> r.alert.show && (r.alert.kind == Success <==> succeeded)
    ensures DeleteRequest(s).Some? ==> r.alert == Alert(true, if succeeded then Success else Error,
      if succeeded then "Customer deleted successfully!" else "Failed to delete customer.")
  {
    if !IdTruthy(s.deletingCustomerId) then s
    else if succeeded then
      s.(alert := Alert(true, Success, "Customer deleted successfully!"), deletingCustomerId := None)
    else
      s.(alert := Alert(true, Error, "Failed to delete customer."), deletingCustomerId := None)
  }

  /** `handleCancelDeleteCustomer`: back to the row without any alert. */
  function CancelDelete(s: ViewState): (r: ViewState)
    ensures r.deletingCustomerId.None? && r.(deletingCustomerId := s.deletingCustomerId) == s
  {
    s.(deletingCustomerId := None)
  }

  /** The alert's dismiss button. */
  function DismissAlert(s: ViewState): (r: ViewState)
    ensures r.alert == HiddenAlert && r.(alert := s.alert) == s
  {
    s.(alert := HiddenAlert)
  }

  /** Editing a customer and saving sends that customer's id with its stored name and phone. */
  lemma SaveSendsEditedCustomer(s: ViewState, c: Customer)
    requires c.id != 0
    ensures SaveRequest(StartEdit(s, c)) == Some(UpdateRequest(c.id, EditData(c.fullName, c.phoneNumber)))
  {
  }

  /** Cancelling an edit leaves nothing of it behind, and touches nothing else. */
  lemma CancelUndoesEdit(s: ViewState, c: Customer, name: string, phone: string)
    requires s.editingCustomerId.None? && s.editData == EmptyEdit
    ensures CancelEdit(EditPhone(EditName(StartEdit(s, c), name), phone)) == s
  {
  }

  /** A failed save keeps the row in edit mode with what was typed; a successful one leaves edit mode. */
  lemma SaveOutcome(s: ViewState)
    requires IdTruthy(s.editingCustomerId)
    ensures AfterSave(s, false).editingCustomerId == s.editingCustomerId
    ensures AfterSave(s, false).editData == s.editData
    ensures AfterSave(s, true).editingCustomerId.None?
    ensures AfterSave(s, false).alert.kind == Error && AfterSave(s, true).alert.kind == Success
  {
  }

  /** Asking, then confirming, ends the confirmation whatever the server answers. */
  lemma ConfirmAlwaysEndsPrompt(s: ViewState, id: int, succeeded: bool)
    requires id != 0
    ensures DeleteRequest(AskDelete(s, id)) == Some(id)
    ensures AfterConfirmDelete(AskDelete(s, id), succeeded).deletingCustomerId.None?
  {
  }

  /** Cancelling a prompt restores the state from before the question. */
  lemma CancelUndoesAsk(s: ViewState, id: int)
    requires s.deletingCustomerId.None?
    ensures CancelDelete(AskDelete(s, id)) == s
  {
  }

  /** Only owners and staff may see the page. */
  predicate MayManage(user: Option<User>) {
    user.Some? && (user.value.isOwner || user.value.isStaff)
  }

  /** How one table row renders. */
  datatype RowMode = Editing(data: EditData) | ConfirmingDelete(prompt: string) | Viewing(name: string, phone: string)

  /** A row: edit mode first, then the delete prompt, then the plain view. */
  function RowModeOf(s: ViewState, c: Customer): (m: RowMode)
    ensures m.Editing? <==> s.editingCustomerId == Some(c.id)
    ensures m.ConfirmingDelete? <==> s.editingCustomerId != Some(c.id) && s.deletingCustomerId == Some(c.id)
  {
    if s.editingCustomerId == Some(c.id) then Editing(s.editData)
    else if s.deletingCustomerId == Some(c.id) then
      ConfirmingDelete("Delete \"" + (if c.fullName != "" then c.fullName else c.phoneNumber) + "\"?")
    else
      Viewing(if c.fullName != "" then c.fullName else "-", if c.phoneNumber != "" then c.phoneNumber else "-")
  }

  /** What the page shows. */
  datatype Page = Restricted | LoadingCustomers | LoadFailed(message: string) | NoCustomers | Table(rows: seq<RowMode>)

  /** Access check, then loading, then the error, then the table or its empty state. */
  function PageOf(user: Option<User>, isLoading: bool, isError: bool, errorMessage: string,
                  customers: Option<seq<Customer>>, s: ViewState): (p: Page)
    ensures p.Restricted? <==> !MayManage(user)
    ensures p.Table? ==> customers.Some? && |p.rows| == |customers.value| > 0
    ensures p.Table? ==> forall i :: 0 <= i < |p.rows| ==> p.rows[i] == RowModeOf(s, customers.value[i])
  {
    if !MayManage(user) then Restricted
    else if isLoading then LoadingCustomers
    else if isError then LoadFailed("Error loading customers: " + errorMessage)
    else if customers.Some? && |customers.value| > 0 then
      Table(seq(|customers.value|, i requires 0 <= i < |customers.value| => RowModeOf(s, customers.value[i])))
    else NoCustomers
  }

  /** Customer ids in the list are distinct. */
  predicate DistinctIds(customers: seq<Customer>) {
    forall i, j :: 0 <= i < j < |customers| ==> customers[i].id != customers[j].id
  }

  /** With distinct ids at most one row is in edit mode and at most one asks for confirmation. */
  lemma AtMostOneSpecialRow(user: Option<User>, isLoading: bool, isError: bool, errorMessage: string,
                            customers: Option<seq<Customer>>, s: ViewState, i: int, j: int)
    requires customers.Some? && DistinctIds(customers.value)
    requires PageOf(user, isLoading, isError, errorMessage, customers, s).Table?
    requires 0 <= i < |customers.value| && 0 <= j < |customers.value|
    ensures var rows := PageOf(user, isLoading, isError, errorMessage, customers, s).rows;
      (rows[i].Editing? && rows[j].Editing? ==> i == j)
      && (rows[i].ConfirmingDelete? && rows[j].ConfirmingDelete? ==> i == j)
  {
    var cs := customers.value;
    if i < j {
      assert cs[i].id != cs[j].id;
    } else if j < i {
      assert cs[j].id != cs[i].id;
    }
  }

  /** One mounted customers page. */
  class Controller {
    var editingCustomerId: Option<int>
    var editCustomerData: EditData
    var deletingCustomerId: Option<int>
    var alertState: Alert

    function Snapshot(): ViewState
      reads this
    {
      ViewState(editingCustomerId, editCustomerData, deletingCustomerId, alertState)
    }

    constructor ()
      ensures Snapshot() == Initial
    {
      editingCustomerId := None;
      editCustomerData := EmptyEdit;
      deletingCustomerId := None;
      alertState := HiddenAlert;
    }

    method HandleStartEditCustomer(c: Customer)
      modifies this
      ensures Snapshot() == StartEdit(old(Snapshot()), c)
    {
      editingCustomerId := Some(c.id);
      editCustomerData := EditData(if c.fullName != "" then c.fullName else "",
                                   if c.phoneNumber != "" then c.phoneNumber else "");
    }

    method OnNameInput(v: string)
      modifies this
      ensures Snapshot() == EditName(old(Snapshot()), v)
    {
      editCustomerData := editCustomerData.(fullName := v);
    }

    method OnPhoneInput(v: string)
      modifies this
      ensures Snapshot() == EditPhone(old(Snapshot()), v)
    {
      editCustomerData := editCustomerData.(phoneNumber := v);
    }

    method HandleCancelEditCustomer()
      modifies this
      ensures Snapshot() == CancelEdit(old(Snapshot()))
    {
      editingCustomerId := None;
      editCustomerData := EmptyEdit;
    }

    /** Sends the update (returned) and applies the outcome the server gave. */
    method HandleSaveCustomer(succeeded: bool) returns (sent: Option<UpdateRequest>)
      modifies this
      ensures sent == SaveRequest(old(Snapshot()))
      ensures Snapshot() == AfterSave(old(Snapshot()), succeeded)
    {
      if !IdTruthy(editingCustomerId) {
        return None;
      }
      sent := Some(UpdateRequest(editingCustomerId.value, editCustomerData));
      if succeeded {
        alertState := Alert(true, Success, "Customer updated successfully!");
        editingCustomerId := None;
        editCustomerData := EmptyEdit;
      } else {
        alertState := Alert(true, Error, "Failed to update customer.");
      }
    }

    method HandleDeleteCustomer(id: int)
      modifies this
      ensures Snapshot() == AskDelete(old(Snapshot()), id)
    {
      deletingCustomerId := Some(id);
    }

    /** Sends the delete (returned) and applies the outcome the server gave. */
    method HandleConfirmDeleteCustomer(succeeded: bool) returns (sent: Option<int>)
      modifies this
      ensures sent == DeleteRequest(old(Snapshot()))
      ensures Snapshot() == AfterConfirmDelete(old(Snapshot()), succeeded)
    {
      if !IdTruthy(deletingCustomerId) {
        return None;
      }
      sent := deletingCustomerId;
      if succeeded {
        alertState := Alert(true, Success, "Customer deleted successfully!");
        deletingCustomerId := None;
      } else {
        alertState := Alert(true, Error, "Failed to delete customer.");
        deletingCustomerId := None;
      }
    }

    method HandleCancelDeleteCustomer()
      modifies this
      ensures Snapshot() == CancelDelete(old(Snapshot()))
    {
      deletingCustomerId := None;
    }

    method OnAlertDismiss()
      modifies this
      ensures Snapshot() == DismissAlert(old(Snapshot()))
    {
      alertState := HiddenAlert;
    }
  }
}
