/** The admin users page: which status actions it offers for an account, the
    status string each action sends, and the confirmation dialog that holds
    the chosen account and action until the update succeeds or the dialog is
    closed. */
module AdminUsersPage {
  import opened Wrappers
  import opened Schema
  import opened Storage
  import opened Routes

  datatype Action = Activate | Deactivate | Delete

  /** The status string the confirmation sends for an action. */
  function NewStatus(action: Action): (s: string)
    ensures ParseStatus(s).Some?
    ensures action == Activate ==> ParseStatus(s) == Some(Active)
    ensures action == Deactivate ==> ParseStatus(s) == Some(Inactive)
    ensures action == Delete ==> ParseStatus(s) == Some(Deleted)
  {
    match action
    case Activate => "active"
    case Deactivate => "inactive"
    case Delete => "deleted"
  }

  /** The buttons shown in an account's row, in page order: activate for an
      account that is not active, deactivate for an active one, delete for an
      account that is neither deleted nor an admin. */
  function OfferedActions(u: User): (r: seq<Action>)
    ensures Activate in r <==> u.status != Active
    ensures Deactivate in r <==> u.status == Active
    ensures Delete in r <==> u.status != Deleted && u.role != AdminRole
  {
    (if u.status != Active then [Activate] else [])
    + (if u.status == Active then [Deactivate] else [])
    + (if u.status != Deleted && u.role != AdminRole then [Delete] else [])
  }

  /** The dialog's state: the account and the action it asks to confirm. */
  datatype Dialog = Dialog(selected: Option<User>, action: Option<Action>)

  /** A request `PUT /api/admin/users/<id>` with body `{ status }`. */
  datatype StatusRequest = StatusRequest(id: nat, status: string)

  /** Clicking an action button selects the account and the action. */
  function OpenDialog(u: User, action: Action): (d: Dialog)
    ensures ConfirmAction(d) == Some(StatusRequest(u.id, NewStatus(action)))
  {
    Dialog(Some(u), Some(action))
  }

  /** Cancelling clears the selection; nothing is left to confirm. */
  function CloseDialog(): (d: Dialog)
    ensures ConfirmAction(d).None?
  {
    Dialog(None, None)
  }

  /** A successful update clears the selection; the error path keeps it. */
  function OnUpdateSuccess(d: Dialog): (r: Dialog)
    ensures ConfirmAction(r).None?
  {
    Dialog(None, None)
  }

  /** Confirming sends the selected account's id with the action's status,
      and sends nothing when no account or no action is selected. */
  function ConfirmAction(d: Dialog): (r: Option<StatusRequest>)
    ensures r.None? <==> d.selected.None? || d.action.None?
    ensures r.Some? ==> r.value.id == d.selected.value.id && ParseStatus(r.value.status).Some?
  {
    if d.selected.None? || d.action.None? then None
    else Some(StatusRequest(d.selected.value.id, NewStatus(d.action.value)))
  }

  /** The three actions ask for the three different statuses. */
  lemma ActionsAskForDistinctStatuses(a: Action, b: Action)
    ensures ParseStatus(NewStatus(a)) == ParseStatus(NewStatus(b)) <==> a == b
  {
  }

  /** Exactly one of activate and deactivate is offered for any account. */
  lemma {:induction false} OneToggleOffered(u: User)
    ensures (Activate in OfferedActions(u)) != (Deactivate in OfferedActions(u))
  {
  }

  /** Every offered action asks for a status the account does not have. */
  lemma {:induction false} OfferedActionChangesStatus(u: User, a: Action)
    requires a in OfferedActions(u)
    ensures ParseStatus(NewStatus(a)).value != u.status
  {
    match a
    case Activate =>
    case Deactivate =>
    case Delete =>
  }

  /** A deleted account can only be activated again, whatever its role. */
  lemma DeletedAccountOffersOnlyActivate(u: User)
    requires u.status == Deleted
    ensures OfferedActions(u) == [Activate]
  {
  }

  /** An admin's row never shows the delete button. */
  lemma AdminIsNeverOfferedDelete(u: User)
    requires u.role == AdminRole
    ensures Delete !in OfferedActions(u)
  {
  }

  /** The request a confirmed action sends is accepted by the status route
      for an admin caller and an existing account, and sets that account's
      status to the one the action names, leaving its other fields as they
      were. */
  lemma {:induction false} ConfirmedActionIsApplied(db: Db, header: Option<string>, query: Option<string>,
                                                    u: User, a: Action)
    requires WellFormed(db)
    requires AuthenticateAdmin(db.users, header, query).Ok?
    requires GetUser(db.users, u.id) == Some(u)
    ensures ConfirmAction(OpenDialog(u, a)).Some?
    ensures var req := ConfirmAction(OpenDialog(u, a)).value;
            var r := UpdateStatusSpec(db, header, query, req.id, Some(req.status));
            && r.0.status == 200
            && GetUser(r.1.users, u.id) == Some(u.(status := ParseStatus(NewStatus(a)).value))
  {
    var st := ParseStatus(NewStatus(a)).value;
    PatchedLookup(db, u.id, SetStatus(st), u.id);
  }
}
