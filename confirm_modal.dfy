/** The yes/no confirmation dialog used before archive and delete actions. */
module ConfirmModal {

  datatype Props = Props(
    open: bool,
    title: string,
    description: string,
    confirmText: string,
    cancelText: string,
    isDestructive: bool,
    isLoading: bool)

  /** The props as the component sees them when the optional ones are left out. */
  function WithDefaults(open: bool, title: string, description: string): (p: Props)
    ensures p.open == open && p.title == title && p.description == description
    ensures p.confirmText == "Confirm" && p.cancelText == "Cancel"
    ensures !p.isDestructive && !p.isLoading
  {
    Props(open, title, description, "Confirm", "Cancel", false, false)
  }

  /** The callbacks `handleConfirm` invokes, in order. */
  datatype Effect = OnConfirm | OnClose

  /** `handleConfirm`: `onConfirm` once, then `onClose` unless loading. */
  method HandleConfirm(p: Props) returns (effects: seq<Effect>)
    ensures |effects| >= 1 && effects[0] == OnConfirm
    ensures multiset(effects)[OnConfirm] == 1
    ensures OnClose in effects <==> !p.isLoading
    ensures OnClose in effects ==> effects == [OnConfirm, OnClose]
  {
    effects := [OnConfirm];
    if !p.isLoading {
      effects := effects + [OnClose];
    }
  }

  /** The confirm button's text. */
  function ConfirmLabel(p: Props): (caption: string)
    ensures p.isLoading ==> caption == "Processing..."
    ensures !p.isLoading ==> caption == p.confirmText
  {
    if p.isLoading then "Processing..." else p.confirmText
  }

  /** Both buttons are disabled while loading. */
  predicate CancelDisabled(p: Props) {
    p.isLoading
  }

  predicate ConfirmDisabled(p: Props) {
    p.isLoading
  }

  /** The warning icon in the title. */
  predicate ShowsWarningIcon(p: Props) {
    p.isDestructive
  }

  /** While loading the dialog is locked: neither button can be pressed, the
      confirm button says it is working, and a confirm would not close it. */
  lemma LoadingLocksDialog(p: Props)
    ensures CancelDisabled(p) <==> ConfirmDisabled(p)
    ensures ConfirmDisabled(p) <==> p.isLoading
    ensures ConfirmDisabled(p) ==> ConfirmLabel(p) == "Processing..."
  {
  }

  /** With the default props the dialog is plain: enabled buttons labelled
      "Confirm" and "Cancel", no warning icon. */
  lemma DefaultsArePlain(open: bool, title: string, description: string)
    ensures var p := WithDefaults(open, title, description);
      && ConfirmLabel(p) == "Confirm" && !CancelDisabled(p) && !ConfirmDisabled(p)
      && !ShowsWarningIcon(p)
  {
  }
}
