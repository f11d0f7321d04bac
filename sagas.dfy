/**
 * The listeners of the Chain of Command mission (src/reducers/missions/chainOfCommand.js,
 * lines 184-483) as functions on the part of the store they read and write.
 *
 * Each listener waits for one action type and reacts to it. Most are loops; `alive` records
 * which listeners that can end are still waiting: the loops that end by `break` or `return`,
 * and the two listeners that take a single action and run to their end. Dialogs the
 * listeners open and the signals they send to the host become entries of `log`; the answer to a
 * yes/no dialog is the parameter `yes`, and the random choice of a deployment point is `west`.
 */
module CommandSagas {
  import opened ChainOfCommand

  // ---------------------------------------------------------------------------------------
  // Constants

  /** The two green deployment points the mission draws from. */
  datatype Point = GreenWest | GreenSouth

  /** The groups the terminal AI does not apply to. */
  const ExclusionList: seq<string> := ["nexu", "nexuElite", "weiss", "generalWeiss"]

  const SetupGroups: seq<string> :=
    ["imperialOfficer", "weiss", "probeDroid", "royalGuard", "stormtrooper", "stormtrooperElite"]

  /** The command cards the mission gives Weiss. */
  datatype UnitAI = WeissBehindDoor | WeissGoToAtst | WeissRegularBehavior

  /** The group-wide custom AI: cleared, or the terminal card with its exclusion list. */
  datatype CustomAI = NoCustomAI | TerminalAI(exclusions: seq<string>)

  /** An attack or move target. */
  datatype Target = HeroClosestUnwounded | Remaining | TargetWeiss | TargetGeneralWeiss

  /** The event dialogs the listeners show. */
  datatype Notice =
    | InitialDeployment | WeissRecovers | WeissInterrupts | Invulnerable
    | NotEnoughThreat | DefenceBoost | HealedWithThreat | ThreatIncreased

  /** The yes/no dialogs. */
  datatype Question = WeissTookDamage | GeneralWeissTookFourDamage

  /** What the listeners show or send to the host, in order. */
  datatype Signal =
    | RebelVictory                       // displayModal('REBEL_VICTORY')
    | ImperialVictory                    // displayModal('IMPERIAL_VICTORY')
    | EndRoundEffectsDone                // statusPhaseEndRoundEffectsDone()
    | SpecialSetupDone                   // missionSpecialSetupDone()
    | SagaLoadDone                       // missionSagaLoadDone()
    | GeneralWeissVictoryText            // updateRebelVictory('When General Weiss is defeated')
    | UnitHpBuff(unit: string, amount: int)
    | Show(notice: Notice)               // helperEventModal
    | Ask(question: Question)            // helperChoiceModal
    | DeployGeneralWeiss                 // helperDeploy
    | InitialSetup(groups: seq<string>)  // helperInitialSetup
    | Briefing                           // helperMissionBriefing
    | ShowInterrupted(group: string)     // helperShowInterruptedGroup

  /** Which listeners that can stop are still waiting. */
  datatype Listeners = Listeners(
    setup: bool, door: bool, defeat: bool, enters: bool, activation: bool, wounded: bool)

  const AllListening := Listeners(true, true, true, true, true, true)

  /** The part of the store the mission reads and writes, plus the listeners' own state. */
  datatype World = World(
    coc: CocState,
    round: int,
    threat: int,
    weissAI: UnitAI,
    customAI: CustomAI,
    attackTarget: Target,
    moveTarget: Target,
    deploymentPoint: Point,
    mapVisible: map<(int, string), bool>,
    heroes: set<string>,
    wounded: set<string>,
    exhausted: set<string>,
    alive: Listeners,
    log: seq<Signal>)

  /** `getRandomDeploymentPoint`: one of the two green points; `west` is the random draw. */
  function DeploymentPoint(west: bool): (p: Point)
    ensures p.GreenWest? <==> west
  {
    if west then GreenWest else GreenSouth
  }

  /** `getAreAllHeroesWounded`. */
  predicate AllWounded(w: World) {
    w.heroes <= w.wounded
  }

  /** `getIsOneHeroLeft`. */
  predicate OneHeroLeft(w: World) {
    |w.heroes - w.wounded| == 1
  }

  // ---------------------------------------------------------------------------------------
  // The entry saga

  /**
   * `chainOfCommand`: sets the targets, a deployment point, the terminal AI and Weiss's AI,
   * starts every listener and reports that the mission has loaded.
   */
  function Start(round: int, threat: nat, heroes: set<string>, mapVisible: map<(int, string), bool>, west: bool): (w: World)
    ensures w.coc == Initial && w.wounded == {} && w.exhausted == {}
    ensures w.attackTarget == HeroClosestUnwounded && w.moveTarget == TargetWeiss
    ensures w.deploymentPoint == DeploymentPoint(west)
    ensures w.customAI == TerminalAI(ExclusionList) && w.weissAI == WeissBehindDoor
    ensures w.alive == AllListening && w.log == [SagaLoadDone]
  {
    World(Initial, round, threat, WeissBehindDoor, TerminalAI(ExclusionList),
          HeroClosestUnwounded, TargetWeiss, DeploymentPoint(west), mapVisible,
          heroes, {}, {}, AllListening, [SagaLoadDone])
  }

  // ---------------------------------------------------------------------------------------
  // Listeners

  /** `handleSpecialSetup`: runs once, on the first special-setup action. */
  function OnSpecialSetup(w: World): (r: World)
    ensures !w.alive.setup ==> r == w
    ensures w.alive.setup ==>
      && r == w.(alive := w.alive.(setup := false), log := r.log)
      && r.log == w.log + [Show(InitialDeployment), InitialSetup(SetupGroups), Briefing,
                           UnitHpBuff("weiss", 6), SpecialSetupDone]
  {
    if !w.alive.setup then w
    else
      w.(alive := w.alive.(setup := false),
         log := w.log + [Show(InitialDeployment), InitialSetup(SetupGroups), Briefing,
                         UnitHpBuff("weiss", 6), SpecialSetupDone])
  }

  /**
   * `handleWeissDoorOpened`: when door 1 opens, Weiss heads for the AT-ST if General Weiss is
   * deployed and fights normally otherwise; the listener then stops.
   */
  function OnDoorActivated(w: World, id: int, kind: string, value: bool): (r: World)
    ensures !(w.alive.door && id == 1 && kind == "door" && value) ==> r == w
    ensures w.alive.door && id == 1 && kind == "door" && value ==>
      r == w.(weissAI := if w.coc.generalWeissDeployed then WeissGoToAtst else WeissRegularBehavior,
              alive := w.alive.(door := false))
  {
    if w.alive.door && id == 1 && kind == "door" && value then
      w.(weissAI := if w.coc.generalWeissDeployed then WeissGoToAtst else WeissRegularBehavior,
         alive := w.alive.(door := false))
    else w
  }

  /** The groups whose defeat wins the mission for the Rebels, given the active flag. */
  predicate WinningDefeat(coc: CocState, group: string) {
    (!coc.generalWeissActive && group == "weiss") || (coc.generalWeissActive && group == "generalWeiss")
  }

  /**
   * `handleWeissDefeated`: signals a Rebel victory exactly on the winning defeat and then stops;
   * a defeated AT-ST before Weiss entered it sends Weiss back to his regular behaviour.
   */
  function OnDefeat(w: World, group: string): (r: World)
    ensures !w.alive.defeat ==> r == w
    ensures w.alive.defeat && WinningDefeat(w.coc, group) ==>
      r == w.(alive := w.alive.(defeat := false), log := w.log + [RebelVictory])
    ensures w.alive.defeat && !WinningDefeat(w.coc, group) ==>
      r == w.(weissAI := r.weissAI)
      && (r.weissAI != w.weissAI ==> r.weissAI == WeissRegularBehavior)
      && (r.weissAI == WeissRegularBehavior <==>
            w.weissAI == WeissRegularBehavior
            || (w.coc.generalWeissDeployed && !w.coc.generalWeissActive && group == "generalWeiss"))
  {
    if !w.alive.defeat then w
    else if WinningDefeat(w.coc, group) then
      w.(alive := w.alive.(defeat := false), log := w.log + [RebelVictory])
    else if !w.coc.generalWeissActive && w.coc.generalWeissDeployed && group == "generalWeiss" then
      w.(weissAI := WeissRegularBehavior)
    else w
  }

  /**
   * `handleWeissEntersATST`: runs once. General Weiss becomes active, the old Weiss figure is
   * defeated (which no longer ends the game), General Weiss is readied, the Rebel victory
   * condition is rewritten and the move target switches to General Weiss.
   */
  function OnWeissEntered(w: World): (r: World)
    ensures !w.alive.enters ==> r == w
    ensures w.alive.enters ==>
      && r.coc == w.coc.(generalWeissActive := true)
      && r.log == w.log + [Show(Invulnerable), GeneralWeissVictoryText]
      && r.exhausted == w.exhausted - {"generalWeiss"}
      && r.moveTarget == TargetGeneralWeiss
      && r.alive == w.alive.(enters := false)
      && r == w.(coc := r.coc, log := r.log, exhausted := r.exhausted, moveTarget := r.moveTarget, alive := r.alive)
  {
    if !w.alive.enters then w
    else
      var active := w.(coc := Reduce(w.coc, SetGeneralWeissActive(true)));
      var afterDefeat := OnDefeat(active, "weiss");
      afterDefeat.(log := afterDefeat.log + [Show(Invulnerable), GeneralWeissVictoryText],
                   exhausted := afterDefeat.exhausted - {"generalWeiss"},
                   moveTarget := TargetGeneralWeiss,
                   alive := afterDefeat.alive.(enters := false))
  }

  /** `handleGeneralWeissDefends`: spends two threat on a defence bonus when there is enough. */
  function OnWeissDefends(w: World): (r: World)
    ensures w.threat < 2 ==> r == w.(log := w.log + [Show(NotEnoughThreat)])
    ensures w.threat >= 2 ==> r == w.(threat := w.threat - 2, log := w.log + [Show(DefenceBoost)])
  {
    if w.threat < 2 then w.(log := w.log + [Show(NotEnoughThreat)])
    else w.(threat := w.threat - 2, log := w.log + [Show(DefenceBoost)])
  }

  /**
   * `handleGeneralWeissActivation`: on General Weiss's activation, stops for good when threat is
   * below two; otherwise asks whether he took four damage and heals him for two threat on yes.
   */
  function OnActivate(w: World, group: string, yes: bool): (r: World)
    ensures !(w.alive.activation && group == "generalWeiss") ==> r == w
    ensures w.alive.activation && group == "generalWeiss" && w.threat < 2 ==>
      r == w.(alive := w.alive.(activation := false))
    ensures w.alive.activation && group == "generalWeiss" && w.threat >= 2 ==>
      && r.alive == w.alive
      && r.threat == (if yes then w.threat - 2 else w.threat)
      && r.log == w.log + [Ask(GeneralWeissTookFourDamage)] + (if yes then [Show(HealedWithThreat)] else [])
      && r == w.(threat := r.threat, log := r.log)
  {
    if !(w.alive.activation && group == "generalWeiss") then w
    else if w.threat < 2 then w.(alive := w.alive.(activation := false))
    else
      var asked := w.(log := w.log + [Ask(GeneralWeissTookFourDamage)]);
      if yes then asked.(threat := asked.threat - 2, log := asked.log + [Show(HealedWithThreat)])
      else asked
  }

  /** `handleTerminalDestroyed`: an activated terminal is hidden from the map. */
  function OnTerminalActivated(w: World, id: int, kind: string, value: bool): (r: World)
    ensures kind == "terminal" && value ==> (id, "terminal") in r.mapVisible && !r.mapVisible[(id, "terminal")]
    ensures forall key :: key != (id, "terminal") ==>
      (key in r.mapVisible <==> key in w.mapVisible) && (key in w.mapVisible ==> r.mapVisible[key] == w.mapVisible[key])
    ensures !(kind == "terminal" && value) ==> r == w
    ensures r == w.(mapVisible := r.mapVisible)
  {
    if kind == "terminal" && value then w.(mapVisible := w.mapVisible[(id, "terminal") := false])
    else w
  }

  /** `handleTerminalInteracted`: clears the custom AI and raises threat by two. */
  function OnTerminalInteract(w: World): (r: World)
    ensures r.threat == w.threat + 2 && r.customAI == NoCustomAI
    ensures r == w.(customAI := NoCustomAI, threat := w.threat + 2, log := w.log + [Show(ThreatIncreased)])
  {
    w.(customAI := NoCustomAI, threat := w.threat + 2, log := w.log + [Show(ThreatIncreased)])
  }

  /**
   * `handleHeroesWounded`: once every hero is wounded, signals an Imperial victory and stops;
   * with one hero left, the mission prioritises killing that hero.
   */
  function OnWound(w: World): (r: World)
    ensures !w.alive.wounded ==> r == w
    ensures w.alive.wounded && AllWounded(w) ==>
      r == w.(alive := w.alive.(wounded := false), log := w.log + [ImperialVictory])
    ensures w.alive.wounded && !AllWounded(w) && OneHeroLeft(w) ==>
      r == w.(coc := w.coc.(priorityTargetKillHero := true), attackTarget := Remaining, moveTarget := Remaining)
    ensures w.alive.wounded && !AllWounded(w) && !OneHeroLeft(w) ==> r == w
  {
    if !w.alive.wounded then w
    else if AllWounded(w) then w.(alive := w.alive.(wounded := false), log := w.log + [ImperialVictory])
    else if OneHeroLeft(w) then
      w.(coc := Reduce(w.coc, PriorityTargetKillHero(true)), attackTarget := Remaining, moveTarget := Remaining)
    else w
  }

  /**
   * `handleVulnerableEvent`: General Weiss is deployed, Weiss either recovers or interrupts
   * depending on the answer, General Weiss is marked as activated, and Weiss heads for the AT-ST.
   */
  function Vulnerable(w: World, yes: bool): (r: World)
    ensures r.coc == w.coc.(generalWeissDeployed := true) && r.weissAI == WeissGoToAtst
    ensures r.exhausted == w.exhausted + {"generalWeiss"}
    ensures r.log == w.log + [DeployGeneralWeiss, Ask(WeissTookDamage)]
                    + (if yes then [Show(WeissRecovers)] else [Show(WeissInterrupts), ShowInterrupted("weiss")])
    ensures r == w.(coc := r.coc, weissAI := r.weissAI, exhausted := r.exhausted, log := r.log)
  {
    var asked := w.log + [DeployGeneralWeiss, Ask(WeissTookDamage)];
    var told := if yes then asked + [Show(WeissRecovers)] else asked + [Show(WeissInterrupts), ShowInterrupted("weiss")];
    w.(log := told,
       exhausted := w.exhausted + {"generalWeiss"},
       coc := Reduce(w.coc, SetGeneralWeissDeployed(true)),
       weissAI := WeissGoToAtst)
  }

  /**
   * `handleRoundEnd`: the Vulnerable event in round 2; General Weiss kept from acting while
   * deployed but not active; the terminal AI restored; a new green deployment point; done.
   */
  function OnRoundEnd(w: World, yes: bool, west: bool): (r: World)
    ensures r.customAI == TerminalAI(ExclusionList) && r.deploymentPoint == DeploymentPoint(west)
    ensures r.round == w.round && r.threat == w.threat && r.alive == w.alive
    ensures r.heroes == w.heroes && r.wounded == w.wounded
    ensures w.round == 2 ==> r.coc == w.coc.(generalWeissDeployed := true) && r.weissAI == WeissGoToAtst
    ensures w.round != 2 ==> r.coc == w.coc && r.weissAI == w.weissAI
    ensures "generalWeiss" in r.exhausted <==>
      "generalWeiss" in w.exhausted || w.round == 2
      || (w.coc.generalWeissDeployed && !w.coc.generalWeissActive)
    ensures r.exhausted - {"generalWeiss"} == w.exhausted - {"generalWeiss"}
    ensures |r.log| > |w.log| && r.log[..|r.log| - 1] == (if w.round == 2 then Vulnerable(w, yes).log else w.log)
    ensures r.log[|r.log| - 1] == EndRoundEffectsDone
    ensures r == w.(coc := r.coc, weissAI := r.weissAI, exhausted := r.exhausted, customAI := r.customAI,
                    deploymentPoint := r.deploymentPoint, log := r.log)
  {
    var w1 := if w.round == 2 then Vulnerable(w, yes) else w;
    var w2 := if w1.coc.generalWeissDeployed && !w1.coc.generalWeissActive
              then w1.(exhausted := w1.exhausted + {"generalWeiss"}) else w1;
    w2.(customAI := TerminalAI(ExclusionList), deploymentPoint := DeploymentPoint(west),
        log := w2.log + [EndRoundEffectsDone])
  }

  // ---------------------------------------------------------------------------------------
  // One action

  /** What the host and the other reducers do with an action before the listeners see it. */
  function Store(w: World, a: Action): (r: World)
    ensures r.coc == Reduce(w.coc, a)
    ensures r.wounded == if a.WoundRebelHero? then w.wounded + {a.hero} else w.wounded
    ensures r == w.(coc := r.coc, wounded := r.wounded)
  {
    var reduced := w.(coc := Reduce(w.coc, a));
    if a.WoundRebelHero? then reduced.(wounded := reduced.wounded + {a.hero}) else reduced
  }

  /** One delivered action, with the answer to any dialog it opens and the random draw. */
  datatype Step = Step(action: Action, yes: bool, west: bool)

  /** An action updates the store, then wakes every listener waiting for its type, in start order. */
  function React(w: World, step: Step): World {
    var s := Store(w, step.action);
    match step.action
    case MissionSpecialSetup => OnSpecialSetup(s)
    case SetMapStateActivated(id, kind, value) =>
      OnTerminalActivated(OnDoorActivated(s, id, kind, value), id, kind, value)
    case DefeatImperialFigure(group) => OnDefeat(s, group)
    case WeissEntered => OnWeissEntered(s)
    case WeissDefends => OnWeissDefends(s)
    case ActivateImperialGroup(group) => OnActivate(s, group, step.yes)
    case TerminalInteract => OnTerminalInteract(s)
    case WoundRebelHero(_) => OnWound(s)
    case StatusPhaseEndRoundEffects => OnRoundEnd(s, step.yes, step.west)
    case _ => s
  }

  /** A sequence of actions, delivered one after the other. */
  function Run(w: World, steps: seq<Step>): World
    decreases |steps|
  {
    if steps == [] then w else Run(React(w, steps[0]), steps[1..])
  }
}
