// Robot states and commands as the activity tracker compares them.
module LoxoneStatus {
  import opened Common
  import opened Text

  datatype RobotState =
    | Starting | Idle | Manual | Cleaning | Returning | Charging | Docked | Paused | Error | ShuttingDown
    | Updating | GoingToTarget | EmptyingDustbin | WashingMop | ServicingDock | Mapping | Unknown

  function NormalizeState(state: string): RobotState {
    match state
    case "starting" => Starting
    case "charger_disconnected" => Idle
    case "idle" => Idle
    case "remote_control_active" => Manual
    case "manual_mode" => Manual
    case "in_call" => Manual
    case "cleaning" => Cleaning
    case "spot_cleaning" => Cleaning
    case "zoned_cleaning" => Cleaning
    case "segment_cleaning" => Cleaning
    case "returning_home" => Returning
    case "docking" => Returning
    case "charging" => Charging
    case "fully_charged" => Docked
    case "paused" => Paused
    case "error" => Error
    case "charging_problem" => Error
    case "shutting_down" => ShuttingDown
    case "updating" => Updating
    case "going_to_target" => GoingToTarget
    case "emptying_dustbin" => EmptyingDustbin
    case "washing_mop" => WashingMop
    case "going_to_wash_mop" => ServicingDock
    case "mapping" => Mapping
    case _ => Unknown
  }

  datatype Status = Status(
    state: string, inCleaning: bool, errorCode: int, fanSpeed: string, mopMode: string, waterBox: string,
    dustCollection: Option<int>, wash: Option<int>, dry: Option<int>)

  datatype Action =
    | Start | Pause | Dock | SegmentClean | Scene | SetFanSpeed | SetMopMode | SetWaterBox | Stop
    | EmptyDustbin | StopEmptying | WashMop | StopWashing | DryMop | StopDrying | Locate | OtherAction

  datatype Command = Command(action: Action, speed: string, mode: string, level: string)

  predicate EqualFold(a: string, b: string) {
    Lower(a) == Lower(b)
  }

  predicate IsCleaning(s: Status) {
    s.inCleaning || NormalizeState(s.state) == Cleaning
  }

  predicate Active(value: Option<int>) {
    value.Some? && value.value > 0
  }

  predicate Inactive(value: Option<int>) {
    value.Some? && value.value == 0
  }

  // The status shows the effect of a pending command.
  predicate Confirms(s: Status, c: Command) {
    var state := NormalizeState(s.state);
    match c.action
    case Start => IsCleaning(s)
    case SegmentClean => IsCleaning(s)
    case Scene => IsCleaning(s)
    case Pause => state == Paused
    case Dock => state == Charging || state == Docked
    case SetFanSpeed => EqualFold(s.fanSpeed, c.speed)
    case SetMopMode => EqualFold(s.mopMode, c.mode)
    case SetWaterBox => EqualFold(s.waterBox, c.level)
    case Stop => state == Idle
    case EmptyDustbin => Active(s.dustCollection)
    case StopEmptying => Inactive(s.dustCollection)
    case WashMop => state == WashingMop || Active(s.wash)
    case StopWashing => Inactive(s.wash) && state != WashingMop
    case DryMop => Active(s.dry)
    case StopDrying => Inactive(s.dry)
    case Locate => false
    case OtherAction => false
  }

  // A command that need not be sent because the status shows its effect already.
  predicate AlreadySatisfied(s: Status, c: Command) {
    var state := NormalizeState(s.state);
    match c.action
    case Start => IsCleaning(s)
    case Pause => state == Paused
    case Dock => state == Charging || state == Docked
    case SetFanSpeed => EqualFold(s.fanSpeed, c.speed)
    case SetMopMode => EqualFold(s.mopMode, c.mode)
    case SetWaterBox => EqualFold(s.waterBox, c.level)
    case Stop => state == Idle
    case EmptyDustbin => Active(s.dustCollection)
    case StopEmptying => Inactive(s.dustCollection)
    case WashMop => state == WashingMop || Active(s.wash)
    case StopWashing => Inactive(s.wash) && state != WashingMop
    case DryMop => Active(s.dry)
    case StopDrying => Inactive(s.dry)
    case _ => false
  }

  // A command the robot cannot take in this state.
  predicate Incompatible(s: Status, c: Command) {
    var state := NormalizeState(s.state);
    match c.action
    case Pause => state != Paused && !IsCleaning(s)
    case SegmentClean => CleaningImpossible(s)
    case Scene => CleaningImpossible(s)
    case Start => state in {Returning, WashingMop, ServicingDock, EmptyingDustbin, Updating, Mapping, Error,
                            ShuttingDown}
    case Dock => state in {Updating, Mapping, Error, ShuttingDown}
    case EmptyDustbin => NotAtDock(state)
    case WashMop => NotAtDock(state)
    case DryMop => NotAtDock(state)
    case _ => false
  }

  predicate CleaningImpossible(s: Status) {
    || IsCleaning(s)
    || NormalizeState(s.state) in {Paused, Returning, WashingMop, ServicingDock, EmptyingDustbin, Updating, Mapping}
  }

  predicate NotAtDock(state: RobotState) {
    state !in {Charging, Docked, ServicingDock, WashingMop, EmptyingDustbin}
  }

  // The three tables agree: a command that is neither refused nor satisfied has an effect the status does
  // not show, and of those that are not refused, a satisfied one is exactly one whose effect shows.
  lemma AcceptedIsUnconfirmed(s: Status, c: Command)
    requires !Incompatible(s, c)
    ensures AlreadySatisfied(s, c) <==> Confirms(s, c)
  {
    match c.action {
      case SegmentClean => assert CleaningImpossible(s) || !IsCleaning(s);
      case Scene => assert CleaningImpossible(s) || !IsCleaning(s);
      case _ =>
    }
  }

  // The texts of the states that decide anything.
  lemma MovingTells(text: string)
    ensures NormalizeState(text) == Cleaning <==>
              text in {"cleaning", "spot_cleaning", "zoned_cleaning", "segment_cleaning"}
    ensures NormalizeState(text) == Returning <==> text == "returning_home" || text == "docking"
    ensures NormalizeState(text) == Paused <==> text == "paused"
  {
  }

  lemma RestingTells(text: string)
    ensures NormalizeState(text) == Idle <==> text == "idle" || text == "charger_disconnected"
    ensures NormalizeState(text) == Charging <==> text == "charging"
    ensures NormalizeState(text) == Docked <==> text == "fully_charged"
    ensures NormalizeState(text) == Error <==> text == "error" || text == "charging_problem"
  {
  }

  lemma BusyTells(text: string)
    ensures NormalizeState(text) == ShuttingDown <==> text == "shutting_down"
    ensures NormalizeState(text) == Updating <==> text == "updating"
    ensures NormalizeState(text) == Mapping <==> text == "mapping"
  {
  }

  lemma ServiceTells(text: string)
    ensures NormalizeState(text) == EmptyingDustbin <==> text == "emptying_dustbin"
    ensures NormalizeState(text) == WashingMop <==> text == "washing_mop"
    ensures NormalizeState(text) == ServicingDock <==> text == "going_to_wash_mop"
  {
  }

  // What of a status confirms a command, in the words of the robot.
  lemma ConfirmsTells(s: Status, c: Command)
    ensures var cleaning := s.inCleaning
                            || s.state in {"cleaning", "spot_cleaning", "zoned_cleaning", "segment_cleaning"};
            Confirms(s, c) <==>
              match c.action
              case Start => cleaning
              case SegmentClean => cleaning
              case Scene => cleaning
              case Pause => s.state == "paused"
              case Dock => s.state == "charging" || s.state == "fully_charged"
              case SetFanSpeed => Lower(s.fanSpeed) == Lower(c.speed)
              case SetMopMode => Lower(s.mopMode) == Lower(c.mode)
              case SetWaterBox => Lower(s.waterBox) == Lower(c.level)
              case Stop => s.state == "idle" || s.state == "charger_disconnected"
              case EmptyDustbin => s.dustCollection.Some? && s.dustCollection.value > 0
              case StopEmptying => s.dustCollection == Some(0)
              case WashMop => s.state == "washing_mop" || (s.wash.Some? && s.wash.value > 0)
              case StopWashing => s.wash == Some(0) && s.state != "washing_mop"
              case DryMop => s.dry.Some? && s.dry.value > 0
              case StopDrying => s.dry == Some(0)
              case Locate => false
              case OtherAction => false
  {
    MovingTells(s.state);
    RestingTells(s.state);
    ServiceTells(s.state);
    hide NormalizeState, Lower;
  }

  // What of a status refuses a command.
  lemma IncompatibleTells(s: Status, c: Command)
    ensures var cleaning := s.inCleaning
                            || s.state in {"cleaning", "spot_cleaning", "zoned_cleaning", "segment_cleaning"};
            Incompatible(s, c) <==>
              match c.action
              case Pause => !cleaning && s.state != "paused"
              case SegmentClean =>
                || cleaning
                || s.state in {"paused", "returning_home", "docking", "washing_mop", "going_to_wash_mop",
                               "emptying_dustbin", "updating", "mapping"}
              case Scene =>
                || cleaning
                || s.state in {"paused", "returning_home", "docking", "washing_mop", "going_to_wash_mop",
                               "emptying_dustbin", "updating", "mapping"}
              case Start =>
                s.state in {"returning_home", "docking", "washing_mop", "going_to_wash_mop", "emptying_dustbin",
                            "updating", "mapping", "error", "charging_problem", "shutting_down"}
              case Dock => s.state in {"updating", "mapping", "error", "charging_problem", "shutting_down"}
              case EmptyDustbin =>
                s.state !in {"charging", "fully_charged", "going_to_wash_mop", "washing_mop", "emptying_dustbin"}
              case WashMop =>
                s.state !in {"charging", "fully_charged", "going_to_wash_mop", "washing_mop", "emptying_dustbin"}
              case DryMop =>
                s.state !in {"charging", "fully_charged", "going_to_wash_mop", "washing_mop", "emptying_dustbin"}
              case _ => false
  {
    MovingTells(s.state);
    RestingTells(s.state);
    BusyTells(s.state);
    ServiceTells(s.state);
    hide NormalizeState;
  }

  // The canonical form of a command text: trimmed, lower-case parts between colons.
  function Canonical(command: string): string {
    if exists i :: 0 <= i < |command| && command[i] == ':' then
      var i := FirstColon(command);
      Lower(TrimSpace(command[..i])) + ":" + Canonical(command[i + 1..])
    else Lower(TrimSpace(command))
  }

  // Part by part: each is trimmed and in lower case, and the colons stay.
  lemma CanonicalTells(part: string, rest: string)
    requires ':' !in part
    ensures Canonical(part) == Lower(TrimSpace(part))
    ensures Canonical(part + ":" + rest) == Lower(TrimSpace(part)) + ":" + Canonical(rest)
  {
    hide TrimSpace, Lower;
    var s := part + ":" + rest;
    assert s[|part|] == ':';
    var i := FirstColon(s);
    assert forall k :: 0 <= k < |part| ==> s[k] == part[k] && s[k] != ':';
    assert s[..|part|] == part && s[|part| + 1..] == rest;
  }

  function FirstColon(s: string): (i: nat)
    requires exists i :: 0 <= i < |s| && s[i] == ':'
    ensures i < |s| && s[i] == ':' && forall j :: 0 <= j < i ==> s[j] != ':'
  {
    if s[0] == ':' then 0
    else
      assert exists i :: 0 <= i < |s[1..]| && s[1..][i] == ':' by {
        var i :| 0 <= i < |s| && s[i] == ':';
        assert s[1..][i - 1] == ':';
      }
      1 + FirstColon(s[1..])
  }
}
