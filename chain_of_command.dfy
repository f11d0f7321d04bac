/**
 * The Chain of Command mission's own slice of the store (src/reducers/missions/chainOfCommand.js):
 * four flags, the reducer that maintains them, and the goal text derived from them.
 */
module ChainOfCommand {

  /** The mission slice of the store. */
  datatype CocState = CocState(
    generalWeissActive: bool,
    generalWeissDeployed: bool,
    priorityTargetKillHero: bool,
    terminalActivatedForRound: bool)

  const Initial: CocState := CocState(false, false, false, false)

  /**
   * The actions the mission reacts to, in its reducer or in its listeners; every other action
   * type is `Other`.
   */
  datatype Action =
    | SetGeneralWeissActive(value: bool)        // CHAIN_OF_COMMAND_SET_GENERAL_WEISS_ACTIVE
    | SetGeneralWeissDeployed(value: bool)      // CHAIN_OF_COMMAND_SET_GENERAL_WEISS_DEPLOYED
    | PriorityTargetKillHero(value: bool)       // CHAIN_OF_COMMAND_PRIORITY_TARGET_KILL_HERO
    | TerminalInteract                          // CHAIN_OF_COMMAND_TERMINAL_INTERACT
    | StatusPhaseEndRoundEffects                // STATUS_PHASE_END_ROUND_EFFECTS
    | WeissEntered                              // CHAIN_OF_COMMAND_WEISS_ENTERED
    | WeissDefends                              // CHAIN_OF_COMMAND_WEISS_DEFENDS
    | SetMapStateActivated(id: int, kind: string, value: bool)
    | DefeatImperialFigure(group: string)       // the id of the defeated group
    | ActivateImperialGroup(group: string)
    | WoundRebelHero(hero: string)
    | MissionSpecialSetup
    | Other(name: string)

  /** The action types the reducer has a case for. */
  predicate Recognised(a: Action) {
    a.SetGeneralWeissActive? || a.SetGeneralWeissDeployed? || a.PriorityTargetKillHero?
    || a.TerminalInteract? || a.StatusPhaseEndRoundEffects?
  }

  /** The default export: the reducer of the mission slice. */
  function Reduce(s: CocState, a: Action): (r: CocState)
    ensures r.generalWeissActive == if a.SetGeneralWeissActive? then a.value else s.generalWeissActive
    ensures r.generalWeissDeployed == if a.SetGeneralWeissDeployed? then a.value else s.generalWeissDeployed
    ensures r.priorityTargetKillHero == if a.PriorityTargetKillHero? then a.value else s.priorityTargetKillHero
    ensures a.TerminalInteract? ==> r.terminalActivatedForRound
    ensures a.StatusPhaseEndRoundEffects? ==> !r.terminalActivatedForRound
    ensures !(a.TerminalInteract? || a.StatusPhaseEndRoundEffects?) ==>
      r.terminalActivatedForRound == s.terminalActivatedForRound
  {
    match a
    case SetGeneralWeissActive(v) => s.(generalWeissActive := v)
    case SetGeneralWeissDeployed(v) => s.(generalWeissDeployed := v)
    case PriorityTargetKillHero(v) => s.(priorityTargetKillHero := v)
    case TerminalInteract => s.(terminalActivatedForRound := true)
    case StatusPhaseEndRoundEffects => s.(terminalActivatedForRound := false)
    case _ => s
  }

  /** Any action type without a case returns the state it was given. */
  lemma UnrecognisedIsNoOp(s: CocState, a: Action)
    requires !Recognised(a)
    ensures Reduce(s, a) == s
  {
  }

  /** Conversely, every case changes some state. */
  lemma RecognisedChangesSomeState(a: Action)
    requires Recognised(a)
    ensures exists t :: Reduce(t, a) != t
  {
    if a.SetGeneralWeissActive? || a.SetGeneralWeissDeployed? || a.PriorityTargetKillHero? {
      var t := CocState(!a.value, !a.value, !a.value, false);
      assert Reduce(t, a) != t;
    } else if a.TerminalInteract? {
      assert Reduce(Initial, a) != Initial;
    } else {
      var t := Initial.(terminalActivatedForRound := true);
      assert Reduce(t, a) != t;
    }
  }

  /** Applying the same action twice is the same as applying it once. */
  lemma ReduceIdempotent(s: CocState, a: Action)
    ensures Reduce(Reduce(s, a), a) == Reduce(s, a)
  {
  }

  /** Runs the reducer over a sequence of actions, first to last. */
  function ReduceAll(s: CocState, actions: seq<Action>): CocState
    decreases |actions|
  {
    if actions == [] then s else ReduceAll(Reduce(s, actions[0]), actions[1..])
  }

  /** The actions the reducer has a case for, in their original order. */
  function RecognisedOnly(actions: seq<Action>): (r: seq<Action>)
    ensures |r| <= |actions|
    ensures forall i :: 0 <= i < |r| ==> Recognised(r[i])
    decreases |actions|
  {
    if actions == [] then []
    else if Recognised(actions[0]) then [actions[0]] + RecognisedOnly(actions[1..])
    else RecognisedOnly(actions[1..])
  }

  /** Actions without a case can be dropped from any history without changing the slice. */
  lemma {:induction false} ReduceAllIgnoresUnrecognised(s: CocState, actions: seq<Action>)
    ensures ReduceAll(s, actions) == ReduceAll(s, RecognisedOnly(actions))
    decreases |actions|
  {
    if actions != [] {
      ReduceAllIgnoresUnrecognised(Reduce(s, actions[0]), actions[1..]);
      var rest := RecognisedOnly(actions[1..]);
      if Recognised(actions[0]) {
        assert ([actions[0]] + rest)[0] == actions[0];
        assert ([actions[0]] + rest)[1..] == rest;
      }
    }
  }

  /** Whatever happened before, the terminal flag is down after a round-end action and up after an interaction. */
  lemma {:induction false} TerminalFlagFollowsLastEvent(s: CocState, actions: seq<Action>, k: nat)
    requires k < |actions| && (actions[k].TerminalInteract? || actions[k].StatusPhaseEndRoundEffects?)
    requires forall j :: k < j < |actions| ==> !actions[j].TerminalInteract? && !actions[j].StatusPhaseEndRoundEffects?
    ensures ReduceAll(s, actions).terminalActivatedForRound <==> actions[k].TerminalInteract?
    decreases |actions|
  {
    if k == 0 {
      LaterActionsKeepTerminalFlag(Reduce(s, actions[0]), actions[1..]);
    } else {
      TerminalFlagFollowsLastEvent(Reduce(s, actions[0]), actions[1..], k - 1);
    }
  }

  lemma {:induction false} LaterActionsKeepTerminalFlag(s: CocState, actions: seq<Action>)
    requires forall j :: 0 <= j < |actions| ==> !actions[j].TerminalInteract? && !actions[j].StatusPhaseEndRoundEffects?
    ensures ReduceAll(s, actions).terminalActivatedForRound == s.terminalActivatedForRound
    decreases |actions|
  {
    if actions != [] {
      LaterActionsKeepTerminalFlag(Reduce(s, actions[0]), actions[1..]);
    }
  }

  // ---------------------------------------------------------------------------------------
  // Goal text

  const DoorAndWeissLines: seq<string> := [
    "{BOLD}Door:{END}",
    "Locked to heroes. A hero can interact (2 {STRENGTH} or {TECH}) to open it.",
    "{BREAK}",
    "{BOLD}Weiss:{END}",
    "Gains +6 Health, +1 Speed, +2 {DAMAGE} to attack, and +1 {BLOCK} to defense",
    "{BREAK}"
  ]

  const TerminalLines: seq<string> := [
    "{BOLD}Terminals:{END}",
    "A Rebel hero can attack a terminal to destroy it (Health: 8, Defense: 1 {BLOCK}).",
    "{BREAK}",
    "An Imperial figure can interact to increase the threat by 2. Each terminal can be used {BOLD}once per round{END}."
  ]

  /** `getChainOfCommandGoalText`: the lines of the mission goal panel. */
  function GoalText(s: CocState): (goals: seq<string>)
    ensures |goals| == if s.generalWeissActive then 4 else 10
    ensures goals[|goals| - 4..] == TerminalLines
    ensures !s.generalWeissActive <==> goals[..|goals| - 4] == DoorAndWeissLines
  {
    var goals := if s.generalWeissActive then [] else DoorAndWeissLines;
    goals + TerminalLines
  }

  /** The goal text reads only the active flag. */
  lemma GoalTextDependsOnActiveOnly(s: CocState, t: CocState)
    ensures GoalText(s) == GoalText(t) <==> s.generalWeissActive == t.generalWeissActive
  {
    if s.generalWeissActive != t.generalWeissActive {
      assert |GoalText(s)| != |GoalText(t)|;
    }
  }
}
