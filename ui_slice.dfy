/**
 * The UI feedback slice (src/store/slices/uiSlice.js): a sidebar flag, a
 * notification list, one snackbar slot and one confirm-dialog slot. Each
 * reducer is a method that changes only the part of the state it names. The
 * `onConfirm` callback is an opaque value; calling it is not part of the
 * slice.
 */
module UiSlice {
  import opened JsValue
  import opened Records

  datatype Snackbar = Snackbar(open: bool, message: Value, severity: Value)

  datatype ConfirmDialog = ConfirmDialog(
    open: bool, title: Value, message: Value, onConfirm: Value,
    confirmText: Value, cancelText: Value, confirmColor: Value)

  datatype Snapshot = Snapshot(
    sidebarOpen: bool, notifications: seq<Value>, snackbar: Snackbar, confirmDialog: ConfirmDialog)

  const InitialSnackbar := Snackbar(false, Str(""), Str("info"))

  const InitialConfirmDialog :=
    ConfirmDialog(false, Str(""), Str(""), Null, Str("Confirm"), Str("Cancel"), Str("error"))

  /** The snackbar object `showSnackbar` builds; reading `action.payload.message`
      throws on a null or undefined payload. The severity falls back to
      'info' when the payload's is falsy, so it is never empty. */
  function SnackbarFor(payload: Value): (r: Completion<Snackbar>)
    ensures r.Threw? <==> Nullish(payload)
    ensures r.Normal? ==>
      && r.value.open
      && r.value.message == OptGet(payload, "message")
      && Truthy(r.value.severity)
      && (Truthy(OptGet(payload, "severity")) ==> r.value.severity == OptGet(payload, "severity"))
      && (!Truthy(OptGet(payload, "severity")) ==> r.value.severity == Str("info"))
  {
    if Nullish(payload) then Threw
    else Normal(Snackbar(true, OptGet(payload, "message"), Or(OptGet(payload, "severity"), Str("info"))))
  }

  /** The dialog object `showConfirmDialog` builds. Title, message and
      callback are taken as given; each button text and the colour falls back
      to its default when the payload's is falsy. */
  function ConfirmDialogFor(payload: Value): (r: Completion<ConfirmDialog>)
    ensures r.Threw? <==> Nullish(payload)
    ensures r.Normal? ==>
      && r.value.open
      && r.value.title == OptGet(payload, "title")
      && r.value.message == OptGet(payload, "message")
      && r.value.onConfirm == OptGet(payload, "onConfirm")
      && Truthy(r.value.confirmText) && Truthy(r.value.cancelText) && Truthy(r.value.confirmColor)
      && (!Truthy(OptGet(payload, "confirmText")) ==> r.value.confirmText == InitialConfirmDialog.confirmText)
      && (!Truthy(OptGet(payload, "cancelText")) ==> r.value.cancelText == InitialConfirmDialog.cancelText)
      && (!Truthy(OptGet(payload, "confirmColor")) ==> r.value.confirmColor == InitialConfirmDialog.confirmColor)
      && (Truthy(OptGet(payload, "confirmText")) ==> r.value.confirmText == OptGet(payload, "confirmText"))
      && (Truthy(OptGet(payload, "cancelText")) ==> r.value.cancelText == OptGet(payload, "cancelText"))
      && (Truthy(OptGet(payload, "confirmColor")) ==> r.value.confirmColor == OptGet(payload, "confirmColor"))
  {
    if Nullish(payload) then Threw
    else Normal(ConfirmDialog(
      true,
      OptGet(payload, "title"),
      OptGet(payload, "message"),
      OptGet(payload, "onConfirm"),
      Or(OptGet(payload, "confirmText"), Str("Confirm")),
      Or(OptGet(payload, "cancelText"), Str("Cancel")),
      Or(OptGet(payload, "confirmColor"), Str("error"))))
  }

  /** `{ id: Date.now(), ...action.payload }`, with the clock reading as a
      parameter: `id` is the first key; a payload `id` overrides the time;
      every other key reads its payload value. */
  function NewNotification(payload: Value, now: int): (n: Value)
    ensures n.Obj? && |n.props| >= 1 && n.props[0].key == "id"
    ensures OptGet(n, "id") == match LastValue(OwnProps(payload), "id")
                               case Some(v) => v
                               case None => Num(now)
    ensures forall k :: k != "id" ==> Lookup(n.props, k) == LastValue(OwnProps(payload), k)
  {
    var props := Assign([Prop("id", Num(now))], OwnProps(payload));
    AssignKeepsKeyOrder([Prop("id", Num(now))], OwnProps(payload));
    assert Keys([Prop("id", Num(now))]) == ["id"];
    assert Keys(props)[0] == props[0].key;
    LookupAssign([Prop("id", Num(now))], OwnProps(payload), "id");
    assert forall k :: k != "id" ==> Lookup(props, k) == LastValue(OwnProps(payload), k) by {
      forall k | k != "id" ensures Lookup(props, k) == LastValue(OwnProps(payload), k) {
        LookupAssign([Prop("id", Num(now))], OwnProps(payload), k);
      }
    }
    Obj(props)
  }

  class UiState {
    var sidebarOpen: bool
    var notifications: seq<Value>
    var snackbar: Snackbar
    var confirmDialog: ConfirmDialog

    ghost function View(): Snapshot
      reads this
    {
      Snapshot(sidebarOpen, notifications, snackbar, confirmDialog)
    }

    /** Every notification is an object literal, so reading its `id` never throws. */
    ghost predicate Valid()
      reads this
    {
      forall k :: 0 <= k < |notifications| ==> notifications[k].Obj?
    }

    /** `initialState` */
    constructor ()
      ensures Valid()
      ensures View() == Snapshot(true, [], InitialSnackbar, InitialConfirmDialog)
    {
      sidebarOpen, notifications := true, [];
      snackbar, confirmDialog := InitialSnackbar, InitialConfirmDialog;
    }

    /** `toggleSidebar` */
    method ToggleSidebar()
      modifies this
      ensures View() == old(View()).(sidebarOpen := !old(sidebarOpen))
    {
      sidebarOpen := !sidebarOpen;
    }

    /** `setSidebarOpen` */
    method SetSidebarOpen(payload: bool)
      modifies this
      ensures View() == old(View()).(sidebarOpen := payload)
    {
      sidebarOpen := payload;
    }

    /** `showSnackbar`: the whole slot is overwritten; no queue. */
    method ShowSnackbar(payload: Value) returns (threw: bool)
      modifies this
      ensures threw <==> Nullish(payload)
      ensures threw ==> View() == old(View())
      ensures !threw ==> View() == old(View()).(snackbar := SnackbarFor(payload).value)
    {
      match SnackbarFor(payload)
      case Threw =>
        threw := true;
      case Normal(bar) =>
        threw := false;
        snackbar := bar;
    }

    /** `hideSnackbar`: only `open` flips; message and severity stay for the
        closing animation. */
    method HideSnackbar()
      modifies this
      ensures View() == old(View()).(snackbar := old(snackbar).(open := false))
    {
      snackbar := snackbar.(open := false);
    }

    /** `showConfirmDialog`: the whole slot is overwritten. */
    method ShowConfirmDialog(payload: Value) returns (threw: bool)
      modifies this
      ensures threw <==> Nullish(payload)
      ensures threw ==> View() == old(View())
      ensures !threw ==> View() == old(View()).(confirmDialog := ConfirmDialogFor(payload).value)
    {
      match ConfirmDialogFor(payload)
      case Threw =>
        threw := true;
      case Normal(dialog) =>
        threw := false;
        confirmDialog := dialog;
    }

    /** `hideConfirmDialog`: only `open` flips. */
    method HideConfirmDialog()
      modifies this
      ensures View() == old(View()).(confirmDialog := old(confirmDialog).(open := false))
    {
      confirmDialog := confirmDialog.(open := false);
    }

    /** `addNotification`: one entry pushed at the end. */
    method AddNotification(payload: Value, now: int)
      requires Valid()
      modifies this
      ensures Valid()
      ensures View() == old(View()).(notifications := old(notifications) + [NewNotification(payload, now)])
    {
      notifications := notifications + [NewNotification(payload, now)];
    }

    /** `removeNotification`: every entry with that id filtered out. */
    method RemoveNotification(payload: Value)
      requires Valid()
      modifies this
      ensures Valid()
      ensures FilterOutId(old(notifications), payload).Normal?
      ensures View() == old(View()).(notifications := FilterOutId(old(notifications), payload).value)
    {
      var kept := FilterOutId(notifications, payload);
      FilterOutIdKeeps(notifications, payload);
      notifications := kept.value;
      forall k | 0 <= k < |notifications| ensures notifications[k].Obj? {
        assert notifications[k] in kept.value;
      }
    }

    /** `clearNotifications` */
    method ClearNotifications()
      modifies this
      ensures Valid()
      ensures View() == old(View()).(notifications := [])
    {
      notifications := [];
    }
  }

  /** Toggling twice restores the sidebar; a second hide changes nothing. */
  method ToggleAndHideTwice() returns (same: bool)
    ensures same
  {
    var ui := new UiState();
    var before := ui.sidebarOpen;
    ui.ToggleSidebar();
    ui.ToggleSidebar();
    ui.HideSnackbar();
    var once := ui.snackbar;
    ui.HideSnackbar();
    same := ui.snackbar == once && ui.sidebarOpen == before;
  }

  /** The last shown message wins, and hiding keeps its text. */
  method LastSnackbarWins() returns (bar: Snackbar)
    ensures bar == Snackbar(false, Str("second"), Str("success"))
  {
    var ui := new UiState();
    var t1 := ui.ShowSnackbar(Obj([Prop("message", Str("first")), Prop("severity", Str("error"))]));
    var t2 := ui.ShowSnackbar(Obj([Prop("message", Str("second")), Prop("severity", Str("success"))]));
    assert Lookup([Prop("message", Str("second")), Prop("severity", Str("success"))], "severity")
        == Lookup([Prop("severity", Str("success"))], "severity");
    ui.HideSnackbar();
    bar := ui.snackbar;
  }
}
