/**
 * What the Chain of Command listeners guarantee over any sequence of delivered actions.
 */
module CommandProperties {
  import opened ChainOfCommand
  import opened CommandSagas

  /** How often each one-shot outcome, and the end of a round, has been signalled. */
  datatype Tally = Tally(rebel: int, imperial: int, setup: int, load: int, roundEnd: int)

  function TallyOf(log: seq<Signal>): Tally {
    var m := multiset(log);
    Tally(m[RebelVictory], m[ImperialVictory], m[SpecialSetupDone], m[SagaLoadDone], m[EndRoundEffectsDone])
  }

  function Plus(a: Tally, b: Tally): Tally {
    Tally(a.rebel + b.rebel, a.imperial + b.imperial, a.setup + b.setup, a.load + b.load, a.roundEnd + b.roundEnd)
  }

  const None := Tally(0, 0, 0, 0, 0)

  lemma TallyAppend(log: seq<Signal>, tail: seq<Signal>)
    ensures TallyOf(log + tail) == Plus(TallyOf(log), TallyOf(tail))
  {
    var a, b := multiset(log), multiset(tail);
    assert multiset(log + tail) == a + b;
  }

  /** Signals other than the counted ones leave the tally alone. */
  lemma QuietTally(tail: seq<Signal>)
    requires RebelVictory !in tail && ImperialVictory !in tail && SpecialSetupDone !in tail
    requires SagaLoadDone !in tail && EndRoundEffectsDone !in tail
    ensures TallyOf(tail) == None
  {
  }

  /**
   * The invariant of a running mission: threat is never negative,
   * each one-shot outcome has been signalled once exactly when its listener has stopped, and an
   * Imperial victory was only signalled with every hero wounded.
   */
  predicate Inv(w: World) {
    && w.threat >= 0
    && TallyOf(w.log).rebel == (if w.alive.defeat then 0 else 1)
    && TallyOf(w.log).imperial == (if w.alive.wounded then 0 else 1)
    && TallyOf(w.log).setup == (if w.alive.setup then 0 else 1)
    && TallyOf(w.log).load == 1
    && (!w.alive.wounded ==> AllWounded(w))
    && (w.customAI.TerminalAI? ==> w.customAI.exclusions == ExclusionList)
  }

  lemma StartEstablishesInv(round: int, threat: nat, heroes: set<string>, mapVisible: map<(int, string), bool>, west: bool)
    ensures Inv(Start(round, threat, heroes, mapVisible, west))
  {
  }

  // ---------------------------------------------------------------------------------------
  // What each kind of action adds to the tally

  /** Of the signals special setup sends, only its completion is counted. */
  lemma SetupSignalsTally()
    ensures TallyOf([Show(InitialDeployment), InitialSetup(SetupGroups), Briefing, UnitHpBuff("weiss", 6), SpecialSetupDone])
         == Tally(0, 0, 1, 0, 0)
  {
    var quiet := [Show(InitialDeployment), InitialSetup(SetupGroups), Briefing, UnitHpBuff("weiss", 6)];
    QuietTally(quiet);
    TallyAppend(quiet, [SpecialSetupDone]);
    assert quiet + [SpecialSetupDone]
        == [Show(InitialDeployment), InitialSetup(SetupGroups), Briefing, UnitHpBuff("weiss", 6), SpecialSetupDone];
  }

  lemma SetupListenerTally(w: World)
    ensures TallyOf(OnSpecialSetup(w).log) == Plus(TallyOf(w.log), if w.alive.setup then Tally(0, 0, 1, 0, 0) else None)
  {
    if !w.alive.setup {
      assert OnSpecialSetup(w) == w;
    } else {
      SetupSignalsTally();
      TallyAppend(w.log, [Show(InitialDeployment), InitialSetup(SetupGroups), Briefing, UnitHpBuff("weiss", 6),
                          SpecialSetupDone]);
    }
  }

  lemma SpecialSetupTally(w: World, yes: bool, west: bool)
    ensures TallyOf(React(w, Step(MissionSpecialSetup, yes, west)).log)
         == Plus(TallyOf(w.log), if w.alive.setup then Tally(0, 0, 1, 0, 0) else None)
  {
    var s := Store(w, MissionSpecialSetup);
    assert React(w, Step(MissionSpecialSetup, yes, west)) == OnSpecialSetup(s);
    SetupListenerTally(s);
  }

  lemma MapStateTally(w: World, id: int, kind: string, value: bool, yes: bool, west: bool)
    ensures React(w, Step(SetMapStateActivated(id, kind, value), yes, west)).log == w.log
  {
  }

  lemma DefeatListenerTally(s: World, group: string)
    ensures TallyOf(OnDefeat(s, group).log)
         == Plus(TallyOf(s.log), if s.alive.defeat && WinningDefeat(s.coc, group) then Tally(1, 0, 0, 0, 0) else None)
  {
    if !s.alive.defeat {
      assert OnDefeat(s, group) == s;
    } else if WinningDefeat(s.coc, group) {
      assert OnDefeat(s, group).log == s.log + [RebelVictory];
      TallyAppend(s.log, [RebelVictory]);
      assert TallyOf([RebelVictory]) == Tally(1, 0, 0, 0, 0);
    } else {
      assert OnDefeat(s, group).log == s.log;
    }
  }

  lemma DefeatTally(w: World, group: string, yes: bool, west: bool)
    ensures TallyOf(React(w, Step(DefeatImperialFigure(group), yes, west)).log)
         == Plus(TallyOf(w.log), if w.alive.defeat && WinningDefeat(w.coc, group) then Tally(1, 0, 0, 0, 0) else None)
  {
    var s := Store(w, DefeatImperialFigure(group));
    assert React(w, Step(DefeatImperialFigure(group), yes, west)) == OnDefeat(s, group);
    assert s.log == w.log && s.alive == w.alive && s.coc == w.coc;
    DefeatListenerTally(s, group);
  }

  lemma WeissEnteredTally(w: World, yes: bool, west: bool)
    ensures TallyOf(React(w, Step(WeissEntered, yes, west)).log) == TallyOf(w.log)
  {
    if w.alive.enters {
      var quiet := [Show(Invulnerable), GeneralWeissVictoryText];
      QuietTally(quiet);
      TallyAppend(w.log, quiet);
    }
  }

  lemma WeissDefendsTally(w: World, yes: bool, west: bool)
    ensures TallyOf(React(w, Step(WeissDefends, yes, west)).log) == TallyOf(w.log)
  {
    TallyAppend(w.log, [Show(if w.threat < 2 then NotEnoughThreat else DefenceBoost)]);
  }

  lemma ActivateListenerTally(s: World, group: string, yes: bool)
    ensures TallyOf(OnActivate(s, group, yes).log) == TallyOf(s.log)
  {
    if s.alive.activation && group == "generalWeiss" && s.threat >= 2 {
      var quiet := [Ask(GeneralWeissTookFourDamage)] + (if yes then [Show(HealedWithThreat)] else []);
      assert OnActivate(s, group, yes).log == s.log + quiet;
      QuietTally(quiet);
      TallyAppend(s.log, quiet);
    } else {
      assert OnActivate(s, group, yes).log == s.log;
    }
  }

  lemma ActivateTally(w: World, group: string, yes: bool, west: bool)
    ensures TallyOf(React(w, Step(ActivateImperialGroup(group), yes, west)).log) == TallyOf(w.log)
  {
    var s := Store(w, ActivateImperialGroup(group));
    assert React(w, Step(ActivateImperialGroup(group), yes, west)) == OnActivate(s, group, yes);
    assert s.log == w.log;
    ActivateListenerTally(s, group, yes);
  }

  lemma TerminalInteractTally(w: World, yes: bool, west: bool)
    ensures TallyOf(React(w, Step(TerminalInteract, yes, west)).log) == TallyOf(w.log)
  {
    TallyAppend(w.log, [Show(ThreatIncreased)]);
  }

  lemma WoundListenerTally(s: World)
    ensures TallyOf(OnWound(s).log) == Plus(TallyOf(s.log), if s.alive.wounded && AllWounded(s) then Tally(0, 1, 0, 0, 0) else None)
  {
    if !s.alive.wounded {
      assert OnWound(s) == s;
    } else if AllWounded(s) {
      assert OnWound(s).log == s.log + [ImperialVictory];
      TallyAppend(s.log, [ImperialVictory]);
      assert TallyOf([ImperialVictory]) == Tally(0, 1, 0, 0, 0);
    } else {
      assert OnWound(s).log == s.log;
    }
  }

  lemma WoundTally(w: World, hero: string, yes: bool, west: bool)
    ensures TallyOf(React(w, Step(WoundRebelHero(hero), yes, west)).log)
         == Plus(TallyOf(w.log), if w.alive.wounded && w.heroes <= w.wounded + {hero} then Tally(0, 1, 0, 0, 0) else None)
  {
    var s := Store(w, WoundRebelHero(hero));
    assert React(w, Step(WoundRebelHero(hero), yes, west)) == OnWound(s);
    assert s.log == w.log && s.alive == w.alive && s.heroes == w.heroes && s.wounded == w.wounded + {hero};
    WoundListenerTally(s);
  }

  lemma VulnerableTally(w: World, yes: bool)
    ensures TallyOf(Vulnerable(w, yes).log) == TallyOf(w.log)
  {
    var asked := [DeployGeneralWeiss, Ask(WeissTookDamage)];
    var told := if yes then [Show(WeissRecovers)] else [Show(WeissInterrupts), ShowInterrupted("weiss")];
    assert Vulnerable(w, yes).log == w.log + (asked + told);
    QuietTally(asked + told);
    TallyAppend(w.log, asked + told);
  }

  /** The round-end listener's log is what came before it followed by its completion signal. */
  lemma RoundEndLog(w: World, yes: bool, west: bool)
    ensures OnRoundEnd(w, yes, west).log == (if w.round == 2 then Vulnerable(w, yes).log else w.log) + [EndRoundEffectsDone]
  {
    var log := OnRoundEnd(w, yes, west).log;
    assert log == log[..|log| - 1] + [log[|log| - 1]];
  }

  lemma RoundEndListenerTally(s: World, yes: bool, west: bool)
    ensures TallyOf(OnRoundEnd(s, yes, west).log) == Plus(TallyOf(s.log), Tally(0, 0, 0, 0, 1))
  {
    var before := if s.round == 2 then Vulnerable(s, yes).log else s.log;
    RoundEndLog(s, yes, west);
    VulnerableTally(s, yes);
    assert TallyOf(before) == TallyOf(s.log);
    TallyAppend(before, [EndRoundEffectsDone]);
  }

  lemma RoundEndTally(w: World, yes: bool, west: bool)
    ensures TallyOf(React(w, Step(StatusPhaseEndRoundEffects, yes, west)).log) == Plus(TallyOf(w.log), Tally(0, 0, 0, 0, 1))
  {
    var s := Store(w, StatusPhaseEndRoundEffects);
    assert React(w, Step(StatusPhaseEndRoundEffects, yes, west)) == OnRoundEnd(s, yes, west);
    RoundEndListenerTally(s, yes, west);
  }

  /** What one delivered action adds to the tally. */
  function StepTally(w: World, step: Step): Tally {
    match step.action
    case MissionSpecialSetup => if w.alive.setup then Tally(0, 0, 1, 0, 0) else None
    case DefeatImperialFigure(group) =>
      if w.alive.defeat && WinningDefeat(w.coc, group) then Tally(1, 0, 0, 0, 0) else None
    case WoundRebelHero(hero) =>
      if w.alive.wounded && w.heroes <= w.wounded + {hero} then Tally(0, 1, 0, 0, 0) else None
    case StatusPhaseEndRoundEffects => Tally(0, 0, 0, 0, 1)
    case _ => None
  }

  /** Actions the listeners do not wait for only pass through the reducers. */
  lemma QuietActionIsStored(w: World, step: Step)
    requires step.action.SetGeneralWeissActive? || step.action.SetGeneralWeissDeployed?
          || step.action.PriorityTargetKillHero? || step.action.Other?
    ensures React(w, step) == Store(w, step.action)
    ensures Store(w, step.action).log == w.log
  {
  }

  lemma ReactTally(w: World, a: Action, yes: bool, west: bool)
    ensures TallyOf(React(w, Step(a, yes, west)).log) == Plus(TallyOf(w.log), StepTally(w, Step(a, yes, west)))
  {
    var step := Step(a, yes, west);
    match a
    case MissionSpecialSetup => SpecialSetupTally(w, yes, west);
    case DefeatImperialFigure(group) => DefeatTally(w, group, yes, west);
    case WoundRebelHero(hero) => WoundTally(w, hero, yes, west);
    case StatusPhaseEndRoundEffects => RoundEndTally(w, yes, west);
    case SetMapStateActivated(id, kind, value) =>
      MapStateTally(w, id, kind, value, yes, west);
      assert StepTally(w, step) == None;
    case WeissEntered =>
      WeissEnteredTally(w, yes, west);
      assert StepTally(w, step) == None;
    case WeissDefends =>
      WeissDefendsTally(w, yes, west);
      assert StepTally(w, step) == None;
    case ActivateImperialGroup(group) =>
      ActivateTally(w, group, yes, west);
      assert StepTally(w, step) == None;
    case TerminalInteract =>
      TerminalInteractTally(w, yes, west);
      assert StepTally(w, step) == None;
    case _ =>
      QuietActionIsStored(w, step);
      assert StepTally(w, step) == None;
  }

  lemma StoreKeepsInv(w: World, a: Action)
    requires Inv(w)
    ensures Inv(Store(w, a))
  {
  }

  // ---------------------------------------------------------------------------------------
  // Each kind of action keeps the invariant

  lemma SpecialSetupKeepsInv(w: World, yes: bool, west: bool)
    requires Inv(w)
    ensures Inv(React(w, Step(MissionSpecialSetup, yes, west)))
  {
    StoreKeepsInv(w, MissionSpecialSetup);
    SpecialSetupTally(w, yes, west);
  }

  lemma MapStateKeepsInv(w: World, id: int, kind: string, value: bool, yes: bool, west: bool)
    requires Inv(w)
    ensures Inv(React(w, Step(SetMapStateActivated(id, kind, value), yes, west)))
  {
    StoreKeepsInv(w, SetMapStateActivated(id, kind, value));
    MapStateTally(w, id, kind, value, yes, west);
  }

  lemma DefeatKeepsInv(w: World, group: string, yes: bool, west: bool)
    requires Inv(w)
    ensures Inv(React(w, Step(DefeatImperialFigure(group), yes, west)))
  {
    StoreKeepsInv(w, DefeatImperialFigure(group));
    DefeatTally(w, group, yes, west);
  }

  lemma WeissEnteredKeepsInv(w: World, yes: bool, west: bool)
    requires Inv(w)
    ensures Inv(React(w, Step(WeissEntered, yes, west)))
  {
    StoreKeepsInv(w, WeissEntered);
    WeissEnteredTally(w, yes, west);
  }

  lemma WeissDefendsKeepsInv(w: World, yes: bool, west: bool)
    requires Inv(w)
    ensures Inv(React(w, Step(WeissDefends, yes, west)))
  {
    StoreKeepsInv(w, WeissDefends);
    WeissDefendsTally(w, yes, west);
  }

  lemma ActivateKeepsInv(w: World, group: string, yes: bool, west: bool)
    requires Inv(w)
    ensures Inv(React(w, Step(ActivateImperialGroup(group), yes, west)))
  {
    StoreKeepsInv(w, ActivateImperialGroup(group));
    ActivateTally(w, group, yes, west);
  }

  lemma TerminalInteractKeepsInv(w: World, yes: bool, west: bool)
    requires Inv(w)
    ensures Inv(React(w, Step(TerminalInteract, yes, west)))
  {
    StoreKeepsInv(w, TerminalInteract);
    TerminalInteractTally(w, yes, west);
  }

  lemma WoundKeepsInv(w: World, hero: string, yes: bool, west: bool)
    requires Inv(w)
    ensures Inv(React(w, Step(WoundRebelHero(hero), yes, west)))
  {
    StoreKeepsInv(w, WoundRebelHero(hero));
    WoundTally(w, hero, yes, west);
  }

  lemma RoundEndListenerKeepsInv(s: World, yes: bool, west: bool)
    requires Inv(s)
    ensures Inv(OnRoundEnd(s, yes, west))
  {
    var r := OnRoundEnd(s, yes, west);
    RoundEndListenerTally(s, yes, west);
    assert TallyOf(r.log) == TallyOf(s.log).(roundEnd := TallyOf(s.log).roundEnd + 1);
    assert r.threat == s.threat && r.alive == s.alive && AllWounded(r) == AllWounded(s);
    assert r.customAI == TerminalAI(ExclusionList);
  }

  lemma RoundEndKeepsInv(w: World, yes: bool, west: bool)
    requires Inv(w)
    ensures Inv(React(w, Step(StatusPhaseEndRoundEffects, yes, west)))
  {
    StoreKeepsInv(w, StatusPhaseEndRoundEffects);
    var s := Store(w, StatusPhaseEndRoundEffects);
    assert React(w, Step(StatusPhaseEndRoundEffects, yes, west)) == OnRoundEnd(s, yes, west);
    RoundEndListenerKeepsInv(s, yes, west);
  }

  /** Every delivered action keeps the invariant. */
  lemma ReactKeepsInv(w: World, a: Action, yes: bool, west: bool)
    requires Inv(w)
    ensures Inv(React(w, Step(a, yes, west)))
  {
    match a
    case MissionSpecialSetup => SpecialSetupKeepsInv(w, yes, west);
    case SetMapStateActivated(id, kind, value) => MapStateKeepsInv(w, id, kind, value, yes, west);
    case DefeatImperialFigure(group) => DefeatKeepsInv(w, group, yes, west);
    case WeissEntered => WeissEnteredKeepsInv(w, yes, west);
    case WeissDefends => WeissDefendsKeepsInv(w, yes, west);
    case ActivateImperialGroup(group) => ActivateKeepsInv(w, group, yes, west);
    case TerminalInteract => TerminalInteractKeepsInv(w, yes, west);
    case WoundRebelHero(hero) => WoundKeepsInv(w, hero, yes, west);
    case StatusPhaseEndRoundEffects => RoundEndKeepsInv(w, yes, west);
    case _ =>
      QuietActionIsStored(w, Step(a, yes, west));
      StoreKeepsInv(w, a);
  }

  lemma {:induction false} RunKeepsInv(w: World, steps: seq<Step>)
    requires Inv(w)
    ensures Inv(Run(w, steps))
    decreases |steps|
  {
    if steps != [] {
      ReactKeepsInv(w, steps[0].action, steps[0].yes, steps[0].west);
      RunKeepsInv(React(w, steps[0]), steps[1..]);
    }
  }

  /**
   * Whatever actions arrive after the mission starts, each victory is signalled at most once,
   * special setup completes at most once, and threat never goes negative.
   */
  lemma OutcomesAtMostOnce(round: int, threat: nat, heroes: set<string>, mapVisible: map<(int, string), bool>,
                           west: bool, steps: seq<Step>)
    ensures TallyOf(Run(Start(round, threat, heroes, mapVisible, west), steps).log).rebel <= 1
    ensures TallyOf(Run(Start(round, threat, heroes, mapVisible, west), steps).log).imperial <= 1
    ensures TallyOf(Run(Start(round, threat, heroes, mapVisible, west), steps).log).setup <= 1
    ensures Run(Start(round, threat, heroes, mapVisible, west), steps).threat >= 0
  {
    StartEstablishesInv(round, threat, heroes, mapVisible, west);
    RunKeepsInv(Start(round, threat, heroes, mapVisible, west), steps);
  }

  // ---------------------------------------------------------------------------------------
  // Round end

  function RoundEnds(steps: seq<Step>): nat
    decreases |steps|
  {
    if steps == [] then 0
    else (if steps[0].action.StatusPhaseEndRoundEffects? then 1 else 0) + RoundEnds(steps[1..])
  }

  /** `statusPhaseEndRoundEffectsDone` is sent exactly once per round-end action, and never otherwise. */
  lemma {:induction false} EndRoundDoneOncePerRoundEnd(w: World, steps: seq<Step>)
    ensures TallyOf(Run(w, steps).log).roundEnd == TallyOf(w.log).roundEnd + RoundEnds(steps)
    decreases |steps|
  {
    if steps != [] {
      var step := steps[0];
      ReactTally(w, step.action, step.yes, step.west);
      assert step == Step(step.action, step.yes, step.west);
      assert StepTally(w, step).roundEnd == if step.action.StatusPhaseEndRoundEffects? then 1 else 0;
      EndRoundDoneOncePerRoundEnd(React(w, step), steps[1..]);
    }
  }

  /**
   * A round end in round 2 deploys General Weiss and sends Weiss to the AT-ST whatever the answer,
   * keeps General Weiss from acting, lowers the terminal flag and restores the terminal AI.
   */
  lemma RoundTwoDeploysGeneralWeiss(w: World, yes: bool, west: bool)
    requires w.round == 2
    ensures React(w, Step(StatusPhaseEndRoundEffects, yes, west)).coc.generalWeissDeployed
    ensures React(w, Step(StatusPhaseEndRoundEffects, yes, west)).weissAI == WeissGoToAtst
    ensures "generalWeiss" in React(w, Step(StatusPhaseEndRoundEffects, yes, west)).exhausted
    ensures !React(w, Step(StatusPhaseEndRoundEffects, yes, west)).coc.terminalActivatedForRound
    ensures React(w, Step(StatusPhaseEndRoundEffects, yes, west)).customAI == TerminalAI(ExclusionList)
  {
  }

  /** In any other round the Weiss flags and Weiss's AI are left alone. */
  lemma OtherRoundsLeaveWeissAlone(w: World, yes: bool, west: bool)
    requires w.round != 2
    ensures React(w, Step(StatusPhaseEndRoundEffects, yes, west)).coc
         == w.coc.(terminalActivatedForRound := false)
    ensures React(w, Step(StatusPhaseEndRoundEffects, yes, west)).weissAI == w.weissAI
  {
  }

  // ---------------------------------------------------------------------------------------
  // Actions nothing reacts to

  function WithoutOthers(steps: seq<Step>): (r: seq<Step>)
    ensures |r| <= |steps|
    ensures forall i :: 0 <= i < |r| ==> !r[i].action.Other?
    decreases |steps|
  {
    if steps == [] then []
    else if steps[0].action.Other? then WithoutOthers(steps[1..])
    else [steps[0]] + WithoutOthers(steps[1..])
  }

  /** Action types the mission does not know leave everything as it was. */
  lemma {:induction false} RunIgnoresOthers(w: World, steps: seq<Step>)
    ensures Run(w, steps) == Run(w, WithoutOthers(steps))
    decreases |steps|
  {
    if steps != [] {
      RunIgnoresOthers(React(w, steps[0]), steps[1..]);
      var rest := WithoutOthers(steps[1..]);
      if steps[0].action.Other? {
        assert React(w, steps[0]) == w;
      } else {
        assert ([steps[0]] + rest)[0] == steps[0];
        assert ([steps[0]] + rest)[1..] == rest;
      }
    }
  }

  // ---------------------------------------------------------------------------------------
  // Victory

  /** On a fresh mission, defeating Weiss wins it for the Rebels and for nobody else. */
  lemma FreshDefeatOfWeissIsRebelVictory(round: int, threat: nat, heroes: set<string>,
                                         mapVisible: map<(int, string), bool>, west: bool, yes: bool)
    ensures Run(Start(round, threat, heroes, mapVisible, west), [Step(DefeatImperialFigure("weiss"), yes, west)]).log
         == [SagaLoadDone, RebelVictory]
  {
    var w := Start(round, threat, heroes, mapVisible, west);
    var steps := [Step(DefeatImperialFigure("weiss"), yes, west)];
    assert steps[1..] == [];
    assert Run(w, steps) == React(w, steps[0]);
  }

  /** The Rebel-victory and Imperial-victory listeners are independent: one run can signal both. */
  lemma BothOutcomesInOneRun(h: string, west: bool)
    ensures Run(Start(1, 0, {h}, map[], west),
                [Step(DefeatImperialFigure("weiss"), false, west), Step(WoundRebelHero(h), false, west)]).log
         == [SagaLoadDone, RebelVictory, ImperialVictory]
  {
    var w0 := Start(1, 0, {h}, map[], west);
    var steps := [Step(DefeatImperialFigure("weiss"), false, west), Step(WoundRebelHero(h), false, west)];
    var w1 := React(w0, steps[0]);
    assert w1.log == [SagaLoadDone, RebelVictory] && w1.alive.wounded && w1.heroes == {h};
    var w2 := React(w1, steps[1]);
    assert w2.log == w1.log + [ImperialVictory];
    assert steps[1..][1..] == [];
    assert Run(w0, steps) == Run(w1, steps[1..]) == Run(w2, []);
  }

  /**
   * After Weiss enters the AT-ST the removal of the old figure is not a victory; from then on only
   * defeating General Weiss is.
   */
  lemma VictoryMovesToGeneralWeiss(w: World, yes: bool, west: bool, group: string)
    requires w.alive.enters && w.alive.defeat
    ensures TallyOf(React(w, Step(WeissEntered, yes, west)).log) == TallyOf(w.log)
    ensures React(w, Step(WeissEntered, yes, west)).alive.defeat
    ensures React(w, Step(WeissEntered, yes, west)).coc.generalWeissActive
    ensures React(w, Step(WeissEntered, yes, west)).moveTarget == TargetGeneralWeiss
    ensures var after := React(w, Step(WeissEntered, yes, west));
      React(after, Step(DefeatImperialFigure(group), yes, west)).log == after.log + [RebelVictory] <==> group == "generalWeiss"
  {
    WeissEnteredTally(w, yes, west);
    var after := React(w, Step(WeissEntered, yes, west));
    var next := React(after, Step(DefeatImperialFigure(group), yes, west));
    if group != "generalWeiss" {
      assert next.log == after.log;
    }
  }

  function Wounds(hs: seq<string>): (steps: seq<Step>)
    ensures |steps| == |hs|
    ensures forall i :: 0 <= i < |hs| ==> steps[i] == Step(WoundRebelHero(hs[i]), false, false)
  {
    seq(|hs|, i requires 0 <= i < |hs| => Step(WoundRebelHero(hs[i]), false, false))
  }

  /** The effect of one wound on the heroes and on the wound listener. */
  lemma WoundEffect(w: World, hero: string, yes: bool, west: bool)
    ensures var r := React(w, Step(WoundRebelHero(hero), yes, west));
      && r.wounded == w.wounded + {hero} && r.heroes == w.heroes
      && (r.alive.wounded <==> w.alive.wounded && !(w.heroes <= w.wounded + {hero}))
  {
  }

  /**
   * Wounding heroes one after the other while `spare` stays unwounded does not end the mission,
   * and every hero named is wounded afterwards.
   */
  lemma {:induction false} WoundsBeforeLastHero(w: World, hs: seq<string>, spare: string)
    requires Inv(w) && w.alive.wounded
    requires spare in w.heroes && spare !in w.wounded && spare !in hs
    ensures Inv(Run(w, Wounds(hs))) && Run(w, Wounds(hs)).alive.wounded
    ensures Run(w, Wounds(hs)).heroes == w.heroes
    ensures forall h :: h in Run(w, Wounds(hs)).wounded <==> h in w.wounded || h in hs
    decreases |hs|
  {
    if hs != [] {
      var step := Wounds(hs)[0];
      WoundEffect(w, hs[0], false, false);
      WoundKeepsInv(w, hs[0], false, false);
      var next := React(w, step);
      assert Wounds(hs)[1..] == Wounds(hs[1..]);
      assert Run(w, Wounds(hs)) == Run(next, Wounds(hs[1..]));
      WoundsBeforeLastHero(next, hs[1..], spare);
      assert forall h :: h in hs <==> h == hs[0] || h in hs[1..];
    }
  }

  /** The wound that leaves no hero standing is an Imperial victory. */
  lemma LastWoundIsImperialVictory(w: World, h: string, yes: bool, west: bool)
    requires Inv(w) && w.alive.wounded && w.heroes - w.wounded == {h}
    ensures React(w, Step(WoundRebelHero(h), yes, west)).log == w.log + [ImperialVictory]
    ensures !React(w, Step(WoundRebelHero(h), yes, west)).alive.wounded
  {
    var s := Store(w, WoundRebelHero(h));
    assert s.heroes <= s.wounded;
  }

  /** The wound that leaves exactly one hero standing makes that hero the target of attacks and moves. */
  lemma OneHeroLeftIsTargeted(w: World, h: string, yes: bool, west: bool)
    requires Inv(w) && w.alive.wounded && h in w.heroes - w.wounded && |w.heroes - w.wounded| == 2
    ensures React(w, Step(WoundRebelHero(h), yes, west)).coc.priorityTargetKillHero
    ensures React(w, Step(WoundRebelHero(h), yes, west)).attackTarget == Remaining
    ensures React(w, Step(WoundRebelHero(h), yes, west)).moveTarget == Remaining
    ensures React(w, Step(WoundRebelHero(h), yes, west)).alive.wounded
  {
    var s := Store(w, WoundRebelHero(h));
    assert s.heroes - s.wounded == (w.heroes - w.wounded) - {h};
    assert |s.heroes - s.wounded| == 1;
  }

  // ---------------------------------------------------------------------------------------
  // Threat

  /** A General Weiss defence spends two threat if there are two, and nothing otherwise. */
  lemma DefenceSpendsTwoThreat(w: World, yes: bool, west: bool)
    ensures React(w, Step(WeissDefends, yes, west)).threat == if w.threat < 2 then w.threat else w.threat - 2
  {
  }

  /**
   * General Weiss activating with less than two threat stops the activation listener for good:
   * later activations change nothing.
   */
  lemma LowThreatActivationStopsListener(w: World, yes: bool, west: bool, later: Step)
    requires w.alive.activation && w.threat < 2
    requires later.action.ActivateImperialGroup?
    ensures !React(w, Step(ActivateImperialGroup("generalWeiss"), yes, west)).alive.activation
    ensures React(w, Step(ActivateImperialGroup("generalWeiss"), yes, west)).threat == w.threat
    ensures var after := React(w, Step(ActivateImperialGroup("generalWeiss"), yes, west));
      React(after, later) == after
  {
  }

  // ---------------------------------------------------------------------------------------
  // Map

  /** The door listener reacts once: after that, door events change nothing. */
  lemma DoorReactsOnce(w: World, yes: bool, west: bool)
    requires w.alive.door
    ensures var after := React(w, Step(SetMapStateActivated(1, "door", true), yes, west));
      && after.weissAI == (if w.coc.generalWeissDeployed then WeissGoToAtst else WeissRegularBehavior)
      && React(after, Step(SetMapStateActivated(1, "door", true), yes, west)) == after
  {
  }

  /** Hiding an activated terminal twice is the same as hiding it once. */
  lemma TerminalHidingIdempotent(w: World, id: int, value: bool, yes: bool, west: bool)
    ensures var step := Step(SetMapStateActivated(id, "terminal", value), yes, west);
      React(React(w, step), step) == React(w, step)
  {
  }

  // ---------------------------------------------------------------------------------------
  // Targets as the code sets them

  /**
   * Wounding one of two heroes makes the other the move target, but Weiss entering the AT-ST
   * afterwards moves the target to General Weiss although the priority flag is still set.
   */
  lemma EntryOverridesLastHeroTarget(h1: string, h2: string, west: bool)
    requires h1 != h2
    ensures var w1 := Run(Start(1, 0, {h1, h2}, map[], west), [Step(WoundRebelHero(h1), false, west)]);
      && w1.coc.priorityTargetKillHero && w1.moveTarget == Remaining && w1.attackTarget == Remaining
      && React(w1, Step(WeissEntered, false, west)).coc.priorityTargetKillHero
      && React(w1, Step(WeissEntered, false, west)).moveTarget == TargetGeneralWeiss
  {
    var w0 := Start(1, 0, {h1, h2}, map[], west);
    var steps := [Step(WoundRebelHero(h1), false, west)];
    assert steps[1..] == [];
    assert Run(w0, steps) == React(w0, steps[0]);
    var s := Store(w0, WoundRebelHero(h1));
    assert s.heroes - s.wounded == {h2};
  }

  /** The end of round 2 deploys General Weiss but leaves the move target where it was. */
  lemma RoundTwoKeepsMoveTarget(w: World, yes: bool, west: bool)
    requires w.round == 2
    ensures React(w, Step(StatusPhaseEndRoundEffects, yes, west)).moveTarget == w.moveTarget
    ensures React(w, Step(StatusPhaseEndRoundEffects, yes, west)).coc.generalWeissDeployed
  {
  }
}
