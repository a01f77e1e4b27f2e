/**
 * The auth-panel context: one slot, the panel that is open (or none), and
 * the three transitions the header menus call.
 */
module AuthPanel {
  import opened Wrappers

  datatype Panel = Login | Register | Logout | UserSettings

  /** The `togglePanel` update: closing when the panel asked for is the one open, opening it otherwise. */
  function Toggled(prev: Option<Panel>, panel: Option<Panel>): (r: Option<Panel>)
    ensures r == panel || r == None
    ensures r == None <==> prev == panel || panel == None
  {
    if prev == panel then None else panel
  }

  /** Toggling the same panel twice opens it if it was open before, and closes everything otherwise. */
  lemma ToggleTwice(s: Option<Panel>, p: Option<Panel>)
    ensures Toggled(Toggled(s, p), p) == (if s == p then p else None)
  {
  }

  /** Toggling "no panel" always leaves no panel open. */
  lemma ToggleNone(s: Option<Panel>)
    ensures Toggled(s, None) == None
  {
  }

  class AuthPanelState {
    var currentPanel: Option<Panel>

    /** `useState<AuthPanelType>(null)` */
    constructor()
      ensures currentPanel == None
    {
      currentPanel := None;
    }

    /** `openPanel`: the panel is set whatever was open. */
    method OpenPanel(panel: Option<Panel>)
      modifies this
      ensures currentPanel == panel
    {
      currentPanel := panel;
    }

    /** `togglePanel`: afterwards the panel asked for, or none, is open. */
    method TogglePanel(panel: Option<Panel>)
      modifies this
      ensures currentPanel == Toggled(old(currentPanel), panel)
      ensures currentPanel == panel || currentPanel == None
    {
      currentPanel := if currentPanel == panel then None else panel;
    }

    /** `closePanel` */
    method ClosePanel()
      modifies this
      ensures currentPanel == None
    {
      currentPanel := None;
    }
  }
}
