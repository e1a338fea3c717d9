/** The environment step: a combo box over "Both", "Client" and "Server"
    bound to a `Side` property, which is also persisted by its enum name. */
module QuiltEnvironment {
  import opened Wrappers
  import opened SideOnly
  import WizardData

  const ENVIRONMENT_LABELS: seq<string> := ["Both", "Client", "Server"]

  /** The label shown for a side: "Client" and "Server" for those two sides, "Both" for any other. */
  function SideToLabel(side: Side): (item: string)
    ensures item in ENVIRONMENT_LABELS
    ensures item == "Client" <==> side == CLIENT
    ensures item == "Server" <==> side == SERVER
  {
    match side
    case CLIENT => "Client"
    case SERVER => "Server"
    case _ => "Both"
  }

  /** The side a chosen label stands for: CLIENT and SERVER for their
      labels, NONE for any other text. */
  function LabelToSide(item: string): (side: Side)
    ensures side == CLIENT || side == SERVER || side == NONE
    ensures side == CLIENT <==> item == "Client"
    ensures side == SERVER <==> item == "Server"
  {
    if item == "Client" then CLIENT
    else if item == "Server" then SERVER
    else NONE
  }

  /** Label then side is the identity on CLIENT, SERVER and NONE. */
  lemma SideLabelRoundTrip(side: Side)
    requires side != INVALID
    ensures LabelToSide(SideToLabel(side)) == side
  {
  }

  /** Side then label is the identity on the three labels of the combo box. */
  lemma LabelSideRoundTrip(item: string)
    requires item in ENVIRONMENT_LABELS
    ensures SideToLabel(LabelToSide(item)) == item
  {
  }

  /** `Side::name`, under which the choice is persisted. */
  function SideName(side: Side): string {
    match side
    case CLIENT => "CLIENT"
    case SERVER => "SERVER"
    case NONE => "NONE"
    case INVALID => "INVALID"
  }

  /** `Side::valueOf`, which throws (here `None`) for a name that is not a constant's. */
  function SideValueOf(name: string): (r: Option<Side>)
    ensures r.Some? ==> SideName(r.value) == name
  {
    if name == "CLIENT" then Some(CLIENT)
    else if name == "SERVER" then Some(SERVER)
    else if name == "NONE" then Some(NONE)
    else if name == "INVALID" then Some(INVALID)
    else None
  }

  /** Persisting a side and reading it back gives the same side. */
  lemma StoredSideRoundTrip(side: Side)
    ensures SideValueOf(SideName(side)) == Some(side)
  {
  }

  /** The step's state: the side currently chosen. */
  class QuiltEnvironmentStep {
    var environment: Side

    /** The property starts at NONE (shown as "Both"), then takes the side
        persisted by an earlier run, `stored`, when that name is a constant's. */
    constructor (stored: Option<string>)
      ensures stored.Some? && SideValueOf(stored.value).Some? ==> environment == SideValueOf(stored.value).value
      ensures stored.None? ==> environment == NONE
      ensures stored.Some? && SideValueOf(stored.value).None? ==> environment == NONE
    {
      environment := NONE;
      if stored.Some? {
        var restored := SideValueOf(stored.value);
        if restored.Some? {
          environment := restored.value;
        }
      }
    }

    /** The label the combo box shows for the current side. */
    function SelectedLabel(): (item: string)
      reads this
      ensures item in ENVIRONMENT_LABELS
    {
      SideToLabel(environment)
    }

    /** The user picks `item` in the combo box; the bound property takes the side it stands for. */
    method SelectLabel(item: string)
      modifies this
      ensures environment == LabelToSide(item)
    {
      environment := LabelToSide(item);
    }

    /** `setupProject`: the chosen side is written to the bag. */
    method SetupProject(data: WizardData.UserDataHolder)
      modifies data
      ensures data.data == old(data.data)[WizardData.EnvironmentKey := WizardData.SideValue(environment)]
    {
      data.PutUserData(WizardData.EnvironmentKey, WizardData.SideValue(environment));
    }
  }
}
