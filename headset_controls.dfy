/**
 * The control logic of SpaceEngineersVR/Player/Headset.cs (its
 * "Control logic" region): once per simulation tick, the controller
 * actions are turned into one movement command for the character, in walk
 * or in flight mode, followed by the one-shot commands of the buttons.
 *
 * The source accumulates into local vectors and calls the character; only
 * the locals and the calls matter, so each mapper is a function from a
 * controls snapshot to the ordered list of calls it makes.
 */
module Controls {
  import opened Options
  import opened Transforms

  /** RotationSpeed */
  const RotationSpeed: real := 10.0

  /** One controller action as the Controls object exposes it. */
  datatype Signal = Signal(active: bool, position: Vector2, hasPressed: bool, hasReleased: bool, isPressed: bool)

  /** The actions refreshed by controls.UpdateWalk(). */
  datatype WalkActions = WalkActions(
    walk: Signal,
    walkForward: Signal,
    walkBackward: Signal,
    walkRotate: Signal,
    jumpOrClimbUp: Signal,
    crouchOrClimbDown: Signal)

  /** The actions refreshed by controls.UpdateFlight(). */
  datatype FlightActions = FlightActions(
    thrustLRUD: Signal,
    thrustLRFB: Signal,
    thrustUp: Signal,
    thrustDown: Signal,
    thrustForward: Signal,
    thrustBackward: Signal,
    thrustRotate: Signal,
    thrustRoll: Signal,
    dampeners: Signal)

  /** The buttons ControlCommonFunctions looks at, in its order. */
  datatype Button =
    | Primary | Secondary | Reload | Unequip | CutGrid | CopyGrid | PasteGrid | Interact
    | Helmet | Jetpack | Broadcasting | Park | Power | Lights | Respawn | ToggleSignals
    | ToggleSymmetry | SymmetrySetup | PlacementMode | CubeSize | Terminal | Inventory
    | ColorSelector | ColorPicker | BuildPlanner | ToolbarConfig | BlockSelector | Contract
    | Chat | ToggleView | Pause | VoiceChat | SignalMode | SpectatorMode | Teleport

  /** The buttons with a press edge (HasPressed) and a release edge (HasReleased) this tick. */
  datatype ButtonEdges = ButtonEdges(pressed: set<Button>, released: set<Button>)

  /** The state of the Controls object between ticks. */
  datatype ControlState = ControlState(walk: WalkActions, flight: FlightActions, buttons: ButtonEdges)

  /** The buttons whose slot is still a TODO and does nothing. */
  const InertButtons: set<Button> :=
    {Reload, CubeSize, BuildPlanner, ToolbarConfig, BlockSelector, Contract, Chat,
     VoiceChat, SignalMode, SpectatorMode, Teleport}

  datatype ShootAction = PrimaryAction | SecondaryAction

  /** The calls a tick makes on the character, the controlled entity and the game's actions. */
  datatype Command =
    | MoveAndRotate(move: Vector3, rotate: Vector2, roll: real)
    | Jump | Crouch | SwitchDamping
    | BeginShoot(action: ShootAction) | EndShoot(action: ShootAction)
    | SwitchToNoWeapon | ExecuteCutGrid | ExecuteCopyGrid | ExecutePasteGrid | Use
    | SwitchHelmet | SwitchThrusts | SwitchBroadcasting | SwitchHandbrake | ExecuteTogglePower
    | SwitchLights | Die | ExecuteToggleSignals | ExecuteToggleSymmetry | ExecuteSymmetrySetup
    | ChangeStationRotation | CycleCubePlacementMode | ShowTerminal | ShowInventory
    | ExecuteColorTool | ExecuteColorPicker

  /** The player's character, as far as the tick reads and writes it. */
  datatype Character = Character(enabledThrusts: bool, isInFirstPersonView: bool)

  // ---------------------------------------------------------------------------
  // Movement

  /** Clamp to [-1, 1], as Vector3.Clamp(move, -Vector3.One, Vector3.One) does per axis. */
  function ClampUnit(x: real): (r: real)
    ensures -1.0 <= r <= 1.0
    ensures -1.0 <= x <= 1.0 ==> r == x
    ensures x > 1.0 ==> r == 1.0
    ensures x < -1.0 ==> r == -1.0
  {
    if x > 1.0 then 1.0 else if x < -1.0 then -1.0 else x
  }

  function ClampMove(v: Vector3): Vector3
  {
    Vector3(ClampUnit(v.x), ClampUnit(v.y), ClampUnit(v.z))
  }

  ghost predicate WithinUnit(v: Vector3)
  {
    -1.0 <= v.x <= 1.0 && -1.0 <= v.y <= 1.0 && -1.0 <= v.z <= 1.0
  }

  /** A joystick's X or Y when the action is active, and 0 otherwise. */
  function AxisX(s: Signal): real { if s.active then s.position.x else 0.0 }
  function AxisY(s: Signal): real { if s.active then s.position.y else 0.0 }

  /** Yaw from the stick's X, pitch from its inverted Y, both scaled by RotationSpeed. */
  function Rotation(s: Signal): Vector2
  {
    if s.active then Vector2(-s.position.y * RotationSpeed, s.position.x * RotationSpeed) else Zero2
  }

  /**
   * The walk movement before clamping.  WalkBackward adds the position of
   * WalkForward, not its own; a held crouch wins over a held jump.
   */
  function WalkMove(a: WalkActions): Vector3
  {
    var x := AxisX(a.walk);
    var z := -AxisY(a.walk)
             - AxisX(a.walkForward)
             + (if a.walkBackward.active then a.walkForward.position.x else 0.0);
    var y := if a.crouchOrClimbDown.isPressed then -1.0
             else if a.jumpOrClimbUp.isPressed then 1.0
             else 0.0;
    Vector3(x, y, z)
  }

  /** ControlWalk, on the walk actions as controls.UpdateWalk() leaves them. */
  function WalkCommands(a: WalkActions): (cmds: seq<Command>)
    ensures |cmds| >= 1 && cmds[|cmds| - 1].MoveAndRotate?
    ensures var m := cmds[|cmds| - 1];
            && WithinUnit(m.move) && m.roll == 0.0
            && m.move == ClampMove(WalkMove(a)) && m.rotate == Rotation(a.walkRotate)
            && (a.crouchOrClimbDown.isPressed ==> m.move.y == -1.0)
            && (a.jumpOrClimbUp.isPressed && !a.crouchOrClimbDown.isPressed ==> m.move.y == 1.0)
    ensures (Jump in cmds) <==> a.jumpOrClimbUp.hasPressed
    ensures (Crouch in cmds) <==> a.crouchOrClimbDown.hasPressed
    ensures forall c :: c in cmds ==> c == Jump || c == Crouch || c.MoveAndRotate?
  {
    (if a.jumpOrClimbUp.hasPressed then [Jump] else [])
    + (if a.crouchOrClimbDown.hasPressed then [Crouch] else [])
    + [MoveAndRotate(ClampMove(WalkMove(a)), Rotation(a.walkRotate), 0.0)]
  }

  /**
   * The flight movement before clamping.  ThrustLRUD is passed separately:
   * the source reads it before controls.UpdateFlight(), so it is the value
   * left by the previous refresh.
   */
  function FlightMove(thrustLRUD: Signal, a: FlightActions): Vector3
  {
    var x := AxisX(thrustLRUD) + AxisX(a.thrustLRFB);
    var y := AxisY(thrustLRUD) + AxisX(a.thrustUp) - AxisX(a.thrustDown);
    var z := -AxisY(a.thrustLRFB) - AxisX(a.thrustForward) + AxisX(a.thrustBackward);
    Vector3(x, y, z)
  }

  /** Roll is gated by ThrustRoll but reads ThrustRotate's X. */
  function FlightRoll(a: FlightActions): real
  {
    if a.thrustRoll.active then a.thrustRotate.position.x * RotationSpeed else 0.0
  }

  /** ControlFlight: the calls it makes, and the flight actions it leaves refreshed. */
  function FlightCommands(thrustLRUD: Signal, a: FlightActions): (cmds: seq<Command>)
    ensures |cmds| >= 1 && cmds[|cmds| - 1].MoveAndRotate?
    ensures var m := cmds[|cmds| - 1];
            && WithinUnit(m.move)
            && m.move == ClampMove(FlightMove(thrustLRUD, a))
            && m.rotate == Rotation(a.thrustRotate) && m.roll == FlightRoll(a)
    ensures (SwitchDamping in cmds) <==> a.dampeners.hasPressed
    ensures forall c :: c in cmds ==> c == SwitchDamping || c.MoveAndRotate?
  {
    (if a.dampeners.hasPressed then [SwitchDamping] else [])
    + [MoveAndRotate(ClampMove(FlightMove(thrustLRUD, a)), Rotation(a.thrustRotate), FlightRoll(a))]
  }

  // ---------------------------------------------------------------------------
  // Buttons

  /**
   * The calls a press slot of ControlCommonFunctions makes on the button's
   * press edge.  The TODO slots make none; the shoot slots and the two
   * flag toggles are handled on their own.  No slot shoots, moves, jumps,
   * crouches or switches the dampeners, and a slot calls through the
   * controlled entity exactly when it is one of the CallsThroughEntity slots.
   */
  function PressCalls(button: Button): (r: seq<Command>)
    ensures |r| <= 2
    ensures forall c :: c in r ==> !c.MoveAndRotate? && !c.BeginShoot? && !c.EndShoot?
                                   && c != Jump && c != Crouch && c != SwitchDamping
    ensures forall c :: c in r && ThroughEntity(c) ==> CallsThroughEntity(button)
    ensures CallsThroughEntity(button) ==> |r| == 1 && ThroughEntity(r[0])
    ensures button in InertButtons ==> r == []
  {
    match button
    case Unequip => [SwitchToNoWeapon]
    case CutGrid => [ExecuteCutGrid]
    case CopyGrid => [ExecuteCopyGrid]
    case PasteGrid => [ExecutePasteGrid]
    case Interact => [Use]
    case Helmet => [SwitchHelmet]
    case Jetpack => [SwitchThrusts]
    case Broadcasting => [SwitchBroadcasting]
    case Park => [SwitchHandbrake]
    case Power => [ExecuteTogglePower]
    case Lights => [SwitchLights]
    case Respawn => [Die]
    case ToggleSignals => [ExecuteToggleSignals]
    case ToggleSymmetry => [ExecuteToggleSymmetry]
    case SymmetrySetup => [ExecuteSymmetrySetup]
    case PlacementMode => [ChangeStationRotation, CycleCubePlacementMode]
    case Terminal => [ShowTerminal]
    case Inventory => [ShowInventory]
    case ColorSelector => [ExecuteColorTool]
    case ColorPicker => [ExecuteColorPicker]
    case _ => []
  }

  /** The slots whose call goes through `controlledEntity?.`. */
  predicate CallsThroughEntity(button: Button)
  {
    button == Unequip || button == Interact || button == Broadcasting || button == Park || button == Respawn
  }

  /**
   * The press slots after the two shoot slots, in source order: the
   * character and grid actions, the building actions, the screens, and the
   * trailing slots.
   */
  const PressOrder: seq<Button> :=
    [Reload, Unequip, CutGrid, CopyGrid, PasteGrid, Interact, Helmet, Jetpack, Broadcasting, Park, Power,
     Lights, Respawn]
    + [ToggleSignals, ToggleSymmetry, SymmetrySetup, PlacementMode, CubeSize]
    + [Terminal, Inventory, ColorSelector, ColorPicker, BuildPlanner, ToolbarConfig, BlockSelector, Contract, Chat]
    + [ToggleView, Pause, VoiceChat, SignalMode, SpectatorMode, Teleport]

  /** Whether a slot fires this tick: its press edge, and an entity when it calls through one. */
  predicate Fires(button: Button, pressed: set<Button>, hasEntity: bool)
  {
    button in pressed && (hasEntity || !CallsThroughEntity(button))
  }

  /** The calls the press slots in `order` make, in that order. */
  function SlotCommands(order: seq<Button>, pressed: set<Button>, hasEntity: bool): seq<Command>
    decreases |order|
  {
    if order == [] then []
    else (if Fires(order[0], pressed, hasEntity) then PressCalls(order[0]) else [])
         + SlotCommands(order[1..], pressed, hasEntity)
  }

  /** A shoot slot: BeginShoot on the press edge, otherwise EndShoot on the release edge. */
  function ShootCommands(button: Button, action: ShootAction, b: ButtonEdges, hasEntity: bool): (cmds: seq<Command>)
    ensures BeginShoot(action) in cmds <==> hasEntity && button in b.pressed
    ensures EndShoot(action) in cmds <==> hasEntity && button !in b.pressed && button in b.released
    ensures |cmds| <= 1 && forall c :: c in cmds ==> c == BeginShoot(action) || c == EndShoot(action)
  {
    if !hasEntity then []
    else if button in b.pressed then [BeginShoot(action)]
    else if button in b.released then [EndShoot(action)]
    else []
  }

  /**
   * The calls ControlCommonFunctions makes, in its order.  None of them
   * moves, jumps, crouches or switches the dampeners, and a call through
   * the controlled entity is made only when there is one.
   */
  function ButtonCommands(b: ButtonEdges, hasEntity: bool): (r: seq<Command>)
    ensures forall c :: c in r ==> !c.MoveAndRotate? && c != Jump && c != Crouch && c != SwitchDamping
    ensures forall c :: c in r && ThroughEntity(c) ==> hasEntity
  {
    SlotCalls(PressOrder, b.pressed, hasEntity);
    ShootCommands(Primary, PrimaryAction, b, hasEntity)
    + ShootCommands(Secondary, SecondaryAction, b, hasEntity)
    + SlotCommands(PressOrder, b.pressed, hasEntity)
  }

  /** What ControlCommonFunctions leaves behind: its calls and the two flags it flips. */
  datatype CommonOutcome = CommonOutcome(commands: seq<Command>, isInFirstPersonView: bool, isPaused: bool)

  function ControlCommonFunctions(character: Character, b: ButtonEdges, hasEntity: bool, isPaused: bool)
    : (r: CommonOutcome)
    ensures r.isInFirstPersonView == (character.isInFirstPersonView != (ToggleView in b.pressed))
    ensures r.isPaused == (isPaused != (Pause in b.pressed))
  {
    CommonOutcome(
      ButtonCommands(b, hasEntity),
      if ToggleView in b.pressed then !character.isInFirstPersonView else character.isInFirstPersonView,
      if Pause in b.pressed then !isPaused else isPaused)
  }

  /** A call is made by the press slots exactly when a slot in the order that makes it fires. */
  lemma {:induction false} SlotCommandsMembers(order: seq<Button>, pressed: set<Button>, hasEntity: bool, c: Command)
    ensures c in SlotCommands(order, pressed, hasEntity)
            <==> exists i :: 0 <= i < |order| && Fires(order[i], pressed, hasEntity) && c in PressCalls(order[i])
    decreases |order|
  {
    if order != [] {
      SlotCommandsMembers(order[1..], pressed, hasEntity, c);
      forall i | 0 < i < |order|
        ensures order[i] == order[1..][i - 1]
      {
      }
      if c in SlotCommands(order[1..], pressed, hasEntity) {
        var j :| 0 <= j < |order[1..]| && Fires(order[1..][j], pressed, hasEntity) && c in PressCalls(order[1..][j]);
        assert order[j + 1] == order[1..][j];
      }
    }
  }

  /** The calls that go through `controlledEntity?.`. */
  predicate ThroughEntity(c: Command)
  {
    c.BeginShoot? || c.EndShoot? || c == SwitchToNoWeapon || c == Use
    || c == SwitchBroadcasting || c == SwitchHandbrake || c == Die
  }

  /** What a call made by a press slot can be: neither a shoot nor a move, and through the entity only when there is one. */
  predicate PressSlotCallAllowed(c: Command, hasEntity: bool)
  {
    !c.MoveAndRotate? && !c.BeginShoot? && !c.EndShoot? && c != Jump && c != Crouch && c != SwitchDamping
    && (ThroughEntity(c) ==> hasEntity)
  }

  /** Every call the press slots make, in any order, is allowed. */
  lemma {:induction false} SlotCalls(order: seq<Button>, pressed: set<Button>, hasEntity: bool)
    ensures forall c :: c in SlotCommands(order, pressed, hasEntity) ==> PressSlotCallAllowed(c, hasEntity)
    decreases |order|
  {
    if order != [] {
      SlotCalls(order[1..], pressed, hasEntity);
    }
  }

  /** The TODO buttons can be dropped from the press edges. */
  lemma {:induction false} SlotCommandsIgnoreInert(order: seq<Button>, pressed: set<Button>, hasEntity: bool)
    ensures SlotCommands(order, pressed, hasEntity) == SlotCommands(order, pressed - InertButtons, hasEntity)
    decreases |order|
  {
    if order != [] {
      SlotCommandsIgnoreInert(order[1..], pressed, hasEntity);
    }
  }

  /** A shoot slot begins on press, or else ends on release, and never does both in one tick. */
  lemma ShootPairing(b: ButtonEdges, hasEntity: bool)
    ensures BeginShoot(PrimaryAction) in ButtonCommands(b, hasEntity) <==> hasEntity && Primary in b.pressed
    ensures EndShoot(PrimaryAction) in ButtonCommands(b, hasEntity)
            <==> hasEntity && Primary !in b.pressed && Primary in b.released
    ensures BeginShoot(SecondaryAction) in ButtonCommands(b, hasEntity) <==> hasEntity && Secondary in b.pressed
    ensures EndShoot(SecondaryAction) in ButtonCommands(b, hasEntity)
            <==> hasEntity && Secondary !in b.pressed && Secondary in b.released
  {
    SlotCalls(PressOrder, b.pressed, hasEntity);
    var primary := ShootCommands(Primary, PrimaryAction, b, hasEntity);
    var secondary := ShootCommands(Secondary, SecondaryAction, b, hasEntity);
    var slots := SlotCommands(PressOrder, b.pressed, hasEntity);
    assert ButtonCommands(b, hasEntity) == primary + secondary + slots;
    assert BeginShoot(PrimaryAction) !in secondary && EndShoot(PrimaryAction) !in secondary;
    assert BeginShoot(SecondaryAction) !in primary && EndShoot(SecondaryAction) !in primary;
  }

  /** The TODO slots are wired but do nothing: pressing them changes no call and no flag. */
  lemma InertButtonsDoNothing(character: Character, b: ButtonEdges, hasEntity: bool, isPaused: bool)
    ensures ControlCommonFunctions(character, b, hasEntity, isPaused)
            == ControlCommonFunctions(character, b.(pressed := b.pressed - InertButtons), hasEntity, isPaused)
  {
    SlotCommandsIgnoreInert(PressOrder, b.pressed, hasEntity);
  }

  // ---------------------------------------------------------------------------
  // The tick

  /** What one simulation tick leaves behind. */
  datatype Tick = Tick(commands: seq<Command>, controls: ControlState, character: Option<Character>, isPaused: bool)

  /**
   * UpdateBeforeSimulation.  `freshWalk`, `freshFlight` and `freshButtons`
   * are what the Controls object would read from the runtime this tick;
   * the walk or flight actions are taken over only by the refresh that the
   * chosen mode calls, the buttons on either refresh.
   */
  function UpdateBeforeSimulation(character: Option<Character>, controls: ControlState,
                                  freshWalk: WalkActions, freshFlight: FlightActions, freshButtons: ButtonEdges,
                                  hasEntity: bool, isPaused: bool): (t: Tick)
    ensures character.None? ==> t == Tick([], controls, None, isPaused)
    ensures character.Some? ==>
              var c := character.value;
              && t.controls == (if c.enabledThrusts then controls.(flight := freshFlight, buttons := freshButtons)
                                else controls.(walk := freshWalk, buttons := freshButtons))
              && t.character == Some(c.(isInFirstPersonView := c.isInFirstPersonView != (ToggleView in freshButtons.pressed)))
              && t.isPaused == (isPaused != (Pause in freshButtons.pressed))
  {
    match character
    case None => Tick([], controls, None, isPaused)
    case Some(c) =>
      var moveCommands := if c.enabledThrusts then FlightCommands(controls.flight.thrustLRUD, freshFlight)
                          else WalkCommands(freshWalk);
      var nextControls := if c.enabledThrusts then controls.(flight := freshFlight, buttons := freshButtons)
                          else controls.(walk := freshWalk, buttons := freshButtons);
      var common := ControlCommonFunctions(c, freshButtons, hasEntity, isPaused);
      Tick(moveCommands + common.commands, nextControls,
           Some(c.(isInFirstPersonView := common.isInFirstPersonView)), common.isPaused)
  }

  /** The MoveAndRotate calls among a list of calls. */
  function Moves(cmds: seq<Command>): seq<Command>
    decreases |cmds|
  {
    if cmds == [] then []
    else (if cmds[0].MoveAndRotate? then [cmds[0]] else []) + Moves(cmds[1..])
  }

  lemma {:induction false} MovesAppend(a: seq<Command>, b: seq<Command>)
    ensures Moves(a + b) == Moves(a) + Moves(b)
    decreases |a|
  {
    if a == [] {
      assert a + b == b;
    } else {
      assert (a + b)[0] == a[0] && (a + b)[1..] == a[1..] + b;
      MovesAppend(a[1..], b);
    }
  }

  /** A sequence without MoveAndRotate calls has no moves. */
  lemma {:induction false} NoMoves(cmds: seq<Command>)
    requires forall i :: 0 <= i < |cmds| ==> !cmds[i].MoveAndRotate?
    ensures Moves(cmds) == []
    decreases |cmds|
  {
    if cmds != [] {
      NoMoves(cmds[1..]);
    }
  }

  /**
   * With a character, every tick makes exactly one MoveAndRotate call,
   * clamped per axis to [-1, 1]: in flight mode with the flight
   * movement, otherwise with the walk movement and no roll.  Without a
   * character the tick makes no call.
   */
  lemma TickMovesOnce(character: Option<Character>, controls: ControlState, freshWalk: WalkActions,
                      freshFlight: FlightActions, freshButtons: ButtonEdges, hasEntity: bool, isPaused: bool)
    ensures var t := UpdateBeforeSimulation(character, controls, freshWalk, freshFlight, freshButtons, hasEntity, isPaused);
            match character
            case None => t.commands == []
            case Some(c) =>
              |Moves(t.commands)| == 1 && Moves(t.commands)[0].MoveAndRotate?
              && WithinUnit(Moves(t.commands)[0].move)
              && (c.enabledThrusts ==>
                    Moves(t.commands)[0] == MoveAndRotate(ClampMove(FlightMove(controls.flight.thrustLRUD, freshFlight)),
                                                          Rotation(freshFlight.thrustRotate), FlightRoll(freshFlight)))
              && (!c.enabledThrusts ==>
                    Moves(t.commands)[0] == MoveAndRotate(ClampMove(WalkMove(freshWalk)),
                                                          Rotation(freshWalk.walkRotate), 0.0))
  {
    if character.Some? {
      var c := character.value;
      var mode := if c.enabledThrusts then FlightCommands(controls.flight.thrustLRUD, freshFlight)
                  else WalkCommands(freshWalk);
      var buttons := ButtonCommands(freshButtons, hasEntity);
      MovesAppend(mode, buttons);
      forall i | 0 <= i < |buttons|
        ensures !buttons[i].MoveAndRotate?
      {
        assert buttons[i] in buttons;
      }
      NoMoves(buttons);
      var prefix := mode[..|mode| - 1];
      assert mode == prefix + [mode[|mode| - 1]];
      MovesAppend(prefix, [mode[|mode| - 1]]);
      NoMoves(prefix);
      assert [mode[|mode| - 1]][1..] == [];
    }
  }

  /** With a character, the tick's calls are those of the chosen mode followed by those of the buttons. */
  lemma TickCommands(c: Character, controls: ControlState, freshWalk: WalkActions,
                     freshFlight: FlightActions, freshButtons: ButtonEdges, hasEntity: bool, isPaused: bool)
    ensures UpdateBeforeSimulation(Some(c), controls, freshWalk, freshFlight, freshButtons, hasEntity, isPaused).commands
            == (if c.enabledThrusts then FlightCommands(controls.flight.thrustLRUD, freshFlight)
                else WalkCommands(freshWalk))
               + ButtonCommands(freshButtons, hasEntity)
  {
  }

  /**
   * Jump and crouch come only from walk mode and SwitchDamping only from
   * flight mode, each exactly on its press edge.
   */
  lemma TickModeCalls(c: Character, controls: ControlState, freshWalk: WalkActions,
                      freshFlight: FlightActions, freshButtons: ButtonEdges, hasEntity: bool, isPaused: bool)
    ensures var cmds := UpdateBeforeSimulation(Some(c), controls, freshWalk, freshFlight, freshButtons, hasEntity, isPaused).commands;
            && (Jump in cmds <==> !c.enabledThrusts && freshWalk.jumpOrClimbUp.hasPressed)
            && (Crouch in cmds <==> !c.enabledThrusts && freshWalk.crouchOrClimbDown.hasPressed)
            && (SwitchDamping in cmds <==> c.enabledThrusts && freshFlight.dampeners.hasPressed)
  {
    TickCommands(c, controls, freshWalk, freshFlight, freshButtons, hasEntity, isPaused);
  }

  /**
   * A shoot begins on a press edge, or else ends on a release edge, and
   * only with a controlled entity; without one, no call goes through it.
   */
  lemma TickEntityCalls(c: Character, controls: ControlState, freshWalk: WalkActions,
                        freshFlight: FlightActions, freshButtons: ButtonEdges, hasEntity: bool, isPaused: bool)
    ensures var cmds := UpdateBeforeSimulation(Some(c), controls, freshWalk, freshFlight, freshButtons, hasEntity, isPaused).commands;
            && (BeginShoot(PrimaryAction) in cmds <==> hasEntity && Primary in freshButtons.pressed)
            && (EndShoot(PrimaryAction) in cmds
                <==> hasEntity && Primary !in freshButtons.pressed && Primary in freshButtons.released)
            && (BeginShoot(SecondaryAction) in cmds <==> hasEntity && Secondary in freshButtons.pressed)
            && (EndShoot(SecondaryAction) in cmds
                <==> hasEntity && Secondary !in freshButtons.pressed && Secondary in freshButtons.released)
            && (!hasEntity ==> forall cmd :: cmd in cmds ==> !ThroughEntity(cmd))
  {
    TickCommands(c, controls, freshWalk, freshFlight, freshButtons, hasEntity, isPaused);
    ShootPairing(freshButtons, hasEntity);
  }

  /** Scenario: walking with the stick at (1, 1) and the forward trigger at 1 moves at most one unit per axis. */
  lemma WalkSaturates(a: WalkActions)
    requires a.walk == Signal(true, Vector2(1.0, 1.0), false, false, false)
    requires a.walkForward == Signal(true, Vector2(1.0, 0.0), false, false, false)
    requires !a.walkBackward.active && !a.jumpOrClimbUp.isPressed && !a.crouchOrClimbDown.isPressed
    ensures ClampMove(WalkMove(a)) == Vector3(1.0, 0.0, -1.0)
    ensures WalkMove(a).z == -2.0
  {
  }

  /** WalkBackward's own position is never read; forward and backward together cancel. */
  lemma WalkBackwardReadsForwardPosition(a: WalkActions, backward: Signal)
    requires a.walkBackward.active == backward.active
    ensures WalkMove(a.(walkBackward := backward)) == WalkMove(a)
    ensures !a.walk.active && a.walkForward.active && a.walkBackward.active ==> WalkMove(a).z == 0.0
  {
  }

  /** The roll stick's own position is never read: roll follows ThrustRotate's X. */
  lemma RollReadsRotateStick(a: FlightActions, roll: Signal)
    requires roll.active == a.thrustRoll.active
    ensures FlightRoll(a.(thrustRoll := roll)) == FlightRoll(a)
    ensures a.thrustRoll.active && a.thrustRotate.active
            ==> FlightRoll(a) == Rotation(a.thrustRotate).y
  {
  }

  /** ThrustLRUD comes from the state before the refresh: this tick's fresh value is ignored. */
  lemma FlightReadsStaleLRUD(controls: ControlState, freshFlight: FlightActions, lrud: Signal,
                             freshWalk: WalkActions, freshButtons: ButtonEdges, c: Character,
                             hasEntity: bool, isPaused: bool)
    requires c.enabledThrusts
    ensures UpdateBeforeSimulation(Some(c), controls, freshWalk, freshFlight.(thrustLRUD := lrud), freshButtons, hasEntity, isPaused).commands
            == UpdateBeforeSimulation(Some(c), controls, freshWalk, freshFlight, freshButtons, hasEntity, isPaused).commands
  {
    var stale := controls.flight.thrustLRUD;
    assert FlightMove(stale, freshFlight.(thrustLRUD := lrud)) == FlightMove(stale, freshFlight);
    assert FlightCommands(stale, freshFlight.(thrustLRUD := lrud)) == FlightCommands(stale, freshFlight);
  }
}
