/**
 * The Chain of Command sagas as one object whose fields are the part of the store the mission
 * reads and writes. Each listener is a method that updates the fields in the order the saga
 * dispatches its effects; `Receive` delivers one action to the reducers and then to every
 * listener waiting for its type.
 */
module CommandMission {
  import opened ChainOfCommand
  import opened CommandSagas
  import opened CommandProperties

  class Mission {
    var coc: CocState
    var round: int
    var threat: int
    var weissAI: UnitAI
    var customAI: CustomAI
    var attackTarget: Target
    var moveTarget: Target
    var deploymentPoint: Point
    var mapVisible: map<(int, string), bool>
    var heroes: set<string>
    var wounded: set<string>
    var exhausted: set<string>
    var alive: Listeners
    var log: seq<Signal>

    /** The fields as a value. */
    function Snapshot(): World
      reads this
    {
      World(coc, round, threat, weissAI, customAI, attackTarget, moveTarget, deploymentPoint,
            mapVisible, heroes, wounded, exhausted, alive, log)
    }

    predicate Valid()
      reads this
    {
      Inv(Snapshot())
    }

    /** The deployment point drawn last, as the draw `Start` and `OnRoundEnd` take. */
    function West(): bool
      reads this
    {
      deploymentPoint.GreenWest?
    }

    /** `chainOfCommand`: the entry saga. */
    constructor (round: int, threat: nat, heroes: set<string>, mapVisible: map<(int, string), bool>)
      ensures Snapshot() == Start(round, threat, heroes, mapVisible, West())
      ensures Valid()
    {
      this.round := round;
      this.threat := threat;
      this.heroes := heroes;
      this.mapVisible := mapVisible;
      coc := Initial;
      wounded := {};
      exhausted := {};
      attackTarget := HeroClosestUnwounded;
      moveTarget := TargetWeiss;
      var west: bool :| true;
      deploymentPoint := DeploymentPoint(west);
      customAI := TerminalAI(ExclusionList);
      weissAI := WeissBehindDoor;
      alive := AllListening;
      log := [SagaLoadDone];
      new;
      StartEstablishesInv(round, threat, heroes, mapVisible, West());
    }

    // The `Handle` methods below are the steps `Receive` takes after the reducers. Each one
    // promises only its listener's effect; the invariant `Valid` is kept by `Receive` as a whole.

    /** `handleSpecialSetup`. */
    method HandleSpecialSetup()
      modifies this
      ensures Snapshot() == OnSpecialSetup(old(Snapshot()))
    {
      if alive.setup {
        log := log + [Show(InitialDeployment)];
        log := log + [InitialSetup(SetupGroups)];
        log := log + [Briefing];
        log := log + [UnitHpBuff("weiss", 6)];
        log := log + [SpecialSetupDone];
        alive := alive.(setup := false);
      }
    }

    /** `handleWeissDoorOpened`. */
    method HandleDoorOpened(id: int, kind: string, value: bool)
      modifies this
      ensures Snapshot() == OnDoorActivated(old(Snapshot()), id, kind, value)
    {
      if alive.door && id == 1 && kind == "door" && value {
        if coc.generalWeissDeployed {
          weissAI := WeissGoToAtst;
        } else {
          weissAI := WeissRegularBehavior;
        }
        alive := alive.(door := false);
      }
    }

    /** `handleVulnerableEvent`. */
    method HandleVulnerable(yes: bool)
      modifies this
      ensures Snapshot() == Vulnerable(old(Snapshot()), yes)
    {
      log := log + [DeployGeneralWeiss, Ask(WeissTookDamage)];
      if yes {
        log := log + [Show(WeissRecovers)];
      } else {
        log := log + [Show(WeissInterrupts), ShowInterrupted("weiss")];
      }
      exhausted := exhausted + {"generalWeiss"};
      coc := Reduce(coc, SetGeneralWeissDeployed(true));
      weissAI := WeissGoToAtst;
    }

    /** `handleWeissDefeated`, for a defeated group with id `group`. */
    method HandleWeissDefeated(group: string)
      modifies this
      ensures Snapshot() == OnDefeat(old(Snapshot()), group)
    {
      if alive.defeat {
        if WinningDefeat(coc, group) {
          log := log + [RebelVictory];
          alive := alive.(defeat := false);
        } else if !coc.generalWeissActive && coc.generalWeissDeployed && group == "generalWeiss" {
          weissAI := WeissRegularBehavior;
        }
      }
    }

    /** `handleWeissEntersATST`. */
    method HandleWeissEntersAtst()
      modifies this
      ensures Snapshot() == OnWeissEntered(old(Snapshot()))
    {
      if alive.enters {
        ghost var w := Snapshot();
        coc := Reduce(coc, SetGeneralWeissActive(true));
        assert Snapshot() == w.(coc := Reduce(w.coc, SetGeneralWeissActive(true)));
        HandleWeissDefeated("weiss");
        SwitchToGeneralWeiss();
      }
    }

    /**
     * The rest of `handleWeissEntersATST` after Weiss is defeated: the Invulnerable dialog,
     * General Weiss made ready again, the new Rebel victory text, and the move target switch.
     */
    method SwitchToGeneralWeiss()
      modifies this
      ensures Snapshot() == old(Snapshot()).(log := old(log) + [Show(Invulnerable), GeneralWeissVictoryText],
                                             exhausted := old(exhausted) - {"generalWeiss"},
                                             moveTarget := TargetGeneralWeiss,
                                             alive := old(alive).(enters := false))
    {
      log := log + [Show(Invulnerable)];
      exhausted := exhausted - {"generalWeiss"};
      log := log + [GeneralWeissVictoryText];
      moveTarget := TargetGeneralWeiss;
      alive := alive.(enters := false);
    }

    /** `handleGeneralWeissDefends`. */
    method HandleWeissDefends()
      modifies this
      ensures Snapshot() == OnWeissDefends(old(Snapshot()))
    {
      if threat < 2 {
        log := log + [Show(NotEnoughThreat)];
      } else {
        log := log + [Show(DefenceBoost)];
        threat := threat - 2;
      }
    }

    /** `handleGeneralWeissActivation`; `yes` answers whether General Weiss took four damage. */
    method HandleActivation(group: string, yes: bool)
      modifies this
      ensures Snapshot() == OnActivate(old(Snapshot()), group, yes)
    {
      if alive.activation && group == "generalWeiss" {
        if threat < 2 {
          alive := alive.(activation := false);
          return;
        }
        log := log + [Ask(GeneralWeissTookFourDamage)];
        if yes {
          log := log + [Show(HealedWithThreat)];
          threat := threat - 2;
        }
      }
    }

    /** `handleTerminalDestroyed`. */
    method HandleTerminalDestroyed(id: int, kind: string, value: bool)
      modifies this
      ensures Snapshot() == OnTerminalActivated(old(Snapshot()), id, kind, value)
    {
      if kind == "terminal" && value {
        mapVisible := mapVisible[(id, "terminal") := false];
      }
    }

    /** `handleTerminalInteracted`. */
    method HandleTerminalInteracted()
      modifies this
      ensures Snapshot() == OnTerminalInteract(old(Snapshot()))
    {
      customAI := NoCustomAI;
      log := log + [Show(ThreatIncreased)];
      threat := threat + 2;
    }

    /** `handleHeroesWounded`. */
    method HandleHeroesWounded()
      modifies this
      ensures Snapshot() == OnWound(old(Snapshot()))
    {
      if alive.wounded {
        if heroes <= wounded {
          log := log + [ImperialVictory];
          alive := alive.(wounded := false);
        } else if |heroes - wounded| == 1 {
          coc := Reduce(coc, PriorityTargetKillHero(true));
          attackTarget := Remaining;
          moveTarget := Remaining;
        }
      }
    }

    /** `handleRoundEnd`: draws the next deployment point. */
    method HandleRoundEnd(yes: bool)
      modifies this
      ensures Snapshot() == OnRoundEnd(old(Snapshot()), yes, West())
    {
      ghost var w0 := Snapshot();
      if round == 2 {
        HandleVulnerable(yes);
      }
      ghost var w1 := Snapshot();
      assert w1 == if w0.round == 2 then Vulnerable(w0, yes) else w0;
      if coc.generalWeissDeployed && !coc.generalWeissActive {
        exhausted := exhausted + {"generalWeiss"};
      }
      ghost var w2 := Snapshot();
      assert w2 == if w1.coc.generalWeissDeployed && !w1.coc.generalWeissActive
                   then w1.(exhausted := w1.exhausted + {"generalWeiss"}) else w1;
      customAI := TerminalAI(ExclusionList);
      var west: bool :| true;
      deploymentPoint := DeploymentPoint(west);
      log := log + [EndRoundEffectsDone];
      assert Snapshot() == w2.(customAI := TerminalAI(ExclusionList), deploymentPoint := DeploymentPoint(West()),
                               log := w2.log + [EndRoundEffectsDone]);
    }

    /**
     * One dispatched action: the reducers update the store, then each listener waiting for the
     * action's type runs, in the order the entry saga started them. `yes` answers any dialog.
     */
    method Receive(a: Action, yes: bool)
      requires Valid()
      modifies this
      ensures Snapshot() == React(old(Snapshot()), Step(a, yes, West()))
      ensures Valid()
    {
      ghost var before := Snapshot();
      coc := Reduce(coc, a);
      if a.WoundRebelHero? {
        wounded := wounded + {a.hero};
      }
      ghost var stored := Snapshot();
      assert stored == Store(before, a);
      match a {
      case MissionSpecialSetup =>
        HandleSpecialSetup();
        assert React(before, Step(a, yes, West())) == OnSpecialSetup(stored);
      case SetMapStateActivated(id, kind, value) =>
        HandleDoorOpened(id, kind, value);
        HandleTerminalDestroyed(id, kind, value);
        assert React(before, Step(a, yes, West()))
            == OnTerminalActivated(OnDoorActivated(stored, id, kind, value), id, kind, value);
      case DefeatImperialFigure(group) =>
        HandleWeissDefeated(group);
        assert React(before, Step(a, yes, West())) == OnDefeat(stored, group);
      case WeissEntered =>
        HandleWeissEntersAtst();
        assert React(before, Step(a, yes, West())) == OnWeissEntered(stored);
      case WeissDefends =>
        HandleWeissDefends();
        assert React(before, Step(a, yes, West())) == OnWeissDefends(stored);
      case ActivateImperialGroup(group) =>
        HandleActivation(group, yes);
        assert React(before, Step(a, yes, West())) == OnActivate(stored, group, yes);
      case TerminalInteract =>
        HandleTerminalInteracted();
        assert React(before, Step(a, yes, West())) == OnTerminalInteract(stored);
      case WoundRebelHero(_) =>
        HandleHeroesWounded();
        assert React(before, Step(a, yes, West())) == OnWound(stored);
      case StatusPhaseEndRoundEffects =>
        HandleRoundEnd(yes);
        assert React(before, Step(a, yes, West())) == OnRoundEnd(stored, yes, West());
      case _ =>
        QuietActionIsStored(before, Step(a, yes, West()));
      }
      ReactKeepsInv(before, a, yes, West());
    }
  }
}
