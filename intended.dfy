/**
 * The targeting rules the mission states in its own comment on priority targets
 * (src/reducers/missions/chainOfCommand.js, lines 448-453), which the listeners as written do
 * not keep: the end of round 2 should make General Weiss the move target, and once only one hero
 * is left unwounded, that hero should stay the attack and move target "at any point".
 *
 * The corrected listeners differ from the ones in `CommandSagas` only in the move target.
 */
module CommandIntended {
  import opened ChainOfCommand
  import opened CommandSagas

  /** Once the last hero is the priority target, that hero is both the attack and the move target. */
  predicate LastHeroTargeted(w: World) {
    w.coc.priorityTargetKillHero ==> w.attackTarget == Remaining && w.moveTarget == Remaining
  }

  /** `handleWeissEntersATST`, switching the move target only while no hero is the priority target. */
  function OnWeissEnteredIntended(w: World): (r: World)
    ensures r.moveTarget == if w.alive.enters && !w.coc.priorityTargetKillHero then TargetGeneralWeiss else w.moveTarget
    ensures r == OnWeissEntered(w).(moveTarget := r.moveTarget)
  {
    var entered := OnWeissEntered(w);
    if w.coc.priorityTargetKillHero then entered.(moveTarget := w.moveTarget) else entered
  }

  /** `handleRoundEnd`, also making General Weiss the move target at the end of round 2. */
  function OnRoundEndIntended(w: World, yes: bool, west: bool): (r: World)
    ensures r.moveTarget == if w.round == 2 && !w.coc.priorityTargetKillHero then TargetGeneralWeiss else w.moveTarget
    ensures r == OnRoundEnd(w, yes, west).(moveTarget := r.moveTarget)
  {
    var ended := OnRoundEnd(w, yes, west);
    if w.round == 2 && !w.coc.priorityTargetKillHero then ended.(moveTarget := TargetGeneralWeiss) else ended
  }

  /** One delivered action with the corrected listeners. */
  function ReactIntended(w: World, step: Step): World {
    match step.action
    case WeissEntered => OnWeissEnteredIntended(Store(w, step.action))
    case StatusPhaseEndRoundEffects => OnRoundEndIntended(Store(w, step.action), step.yes, step.west)
    case _ => React(w, step)
  }

  function RunIntended(w: World, steps: seq<Step>): World
    decreases |steps|
  {
    if steps == [] then w else RunIntended(ReactIntended(w, steps[0]), steps[1..])
  }

  /** The corrected mission differs from the code only in where it sends the Imperial figures. */
  lemma IntendedDiffersOnlyInMoveTarget(w: World, step: Step)
    ensures ReactIntended(w, step) == React(w, step).(moveTarget := ReactIntended(w, step).moveTarget)
  {
  }

  /** With the corrected round end, General Weiss is the move target after round 2, unless a last hero is. */
  lemma IntendedRoundTwoMovesToGeneralWeiss(w: World, yes: bool, west: bool)
    requires w.round == 2
    ensures var r := ReactIntended(w, Step(StatusPhaseEndRoundEffects, yes, west));
      && r.coc.generalWeissDeployed
      && r.moveTarget == (if w.coc.priorityTargetKillHero then w.moveTarget else TargetGeneralWeiss)
  {
  }

  /**
   * Every action the host delivers keeps the last-hero rule and the priority flag. The flag's own
   * action is sent only by the wound listener, so it is not among them.
   */
  lemma IntendedReactKeepsLastHeroTarget(w: World, step: Step)
    requires LastHeroTargeted(w) && !step.action.PriorityTargetKillHero?
    ensures LastHeroTargeted(ReactIntended(w, step))
    ensures w.coc.priorityTargetKillHero ==> ReactIntended(w, step).coc.priorityTargetKillHero
  {
    var s := Store(w, step.action);
    assert LastHeroTargeted(s) && (w.coc.priorityTargetKillHero ==> s.coc.priorityTargetKillHero);
    match step.action {
      case WeissEntered =>
      case StatusPhaseEndRoundEffects =>
      case WoundRebelHero(_) =>
      case _ =>
    }
  }

  /** Over any run, once the last hero is the priority target, it stays both targets. */
  lemma {:induction false} IntendedRunKeepsLastHeroTarget(w: World, steps: seq<Step>)
    requires LastHeroTargeted(w)
    requires forall i :: 0 <= i < |steps| ==> !steps[i].action.PriorityTargetKillHero?
    ensures LastHeroTargeted(RunIntended(w, steps))
    ensures w.coc.priorityTargetKillHero ==> RunIntended(w, steps).coc.priorityTargetKillHero
    decreases |steps|
  {
    if steps != [] {
      IntendedReactKeepsLastHeroTarget(w, steps[0]);
      assert forall i :: 0 <= i < |steps[1..]| ==> steps[1..][i] == steps[i + 1];
      IntendedRunKeepsLastHeroTarget(ReactIntended(w, steps[0]), steps[1..]);
    }
  }
}
