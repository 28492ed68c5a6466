/** The single notification: one message, its kind and whether it shows. A
    new message overwrites the current one; nothing is queued. */
module ToastSlice {
  import opened Options

  datatype ToastType = Success | Info | Warning

  class ToastStore {
    var message: Option<string>
    var kind: ToastType
    var visible: bool

    /** The initial state: no message, kind `info`, hidden. */
    constructor ()
      ensures message.None? && kind == Info && !visible
    {
      message, kind, visible := None, Info, false;
    }

    /** `showToast`: the new message, its kind (`info` when omitted), shown. */
    method ShowToast(text: string, requested: Option<ToastType>)
      modifies this
      ensures message == Some(text)
      ensures kind == requested.GetOr(Info)
      ensures visible
    {
      message := Some(text);
      kind := requested.GetOr(Info);
      visible := true;
    }

    /** `hideToast`: hidden; message and kind stay, so hiding a hidden toast
        changes nothing. */
    method HideToast()
      modifies this
      ensures !visible && message == old(message) && kind == old(kind)
      ensures !old(visible) ==> unchanged(this)
    {
      visible := false;
    }

    /** `clearToast`: message removed and hidden; the kind stays. */
    method ClearToast()
      modifies this
      ensures message.None? && !visible && kind == old(kind)
    {
      message := None;
      visible := false;
    }
  }
}
