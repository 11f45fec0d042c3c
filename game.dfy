/**
 * The game component: the scene's closure variables, the component state,
 * and the Claim Reward handler. The handler is asynchronous: BeginClaim runs
 * up to its awaited calls (the signer, `endGame` and its receipt, between
 * which nothing in the state changes), CompleteClaim is what happens once
 * they resolve, and the one-second timer of the simulated claim is
 * FireClaimTimer.
 */
module GameComponent {
  import opened Wrappers
  import opened GameScene
  import opened RewardTier
  import ContractConfig

  /** How an `endGame` call ended: confirmed (with the payout of its event, if found) or thrown. */
  datatype ClaimOutcome = ClaimConfirmed(payout: Option<nat>) | ClaimThrew(message: string)

  /** What BeginClaim did. */
  datatype ClaimStart =
    | Simulated                                  // no provider or no session: marked claimed at once
    | SimulationScheduled                        // no contract deployed: a one-second timer marks it claimed
    | EndGameSent(sessionId: string, score: int) // `endGame(sessionId, finalScore)` is awaited

  /** JavaScript truthiness of the session id held as a string. */
  predicate HasSession(sessionId: Option<string>) {
    sessionId.Some? && sessionId.value != ""
  }

  /** `error.message || fallback`. */
  function ErrorText(message: string, fallback: string): (r: string)
    ensures r != "" || fallback == ""
    ensures message != "" ==> r == message
  {
    if message != "" then message else fallback
  }

  const ClaimFailed: string := "Failed to claim rewards"

  /** The obstacles of `entries` that are still on screen, visited in order. */
  method KeepOnScreen(entries: seq<Obstacle>) returns (kept: seq<Obstacle>)
    ensures kept == OnScreen(entries)
  {
    kept := [];
    var i := 0;
    while i < |entries|
      invariant 0 <= i <= |entries|
      invariant kept == OnScreen(entries[..i])
    {
      OnScreenSnoc(entries, i);
      if !OffScreen(entries[i]) {
        kept := kept + [entries[i]];
      }
      i := i + 1;
    }
    assert entries[..i] == entries;
  }

  class Game {
    // Props.
    const hasProvider: bool
    const sessionId: Option<string>
    const contractAddress: string

    // Scene closure variables.
    var scoreValue: int
    var gameOverFlag: bool
    var obstacles: seq<Obstacle>

    // Component state.
    var score: int
    var finalScore: int
    var gameOver: bool
    var claiming: bool
    var rewardClaimed: bool
    var claimError: string

    // Simulation timers not yet fired; an awaited `endGame` call is what `claiming` marks.
    var claimTimers: nat

    function SceneState(): Scene
      reads this
    {
      Scene(scoreValue, gameOverFlag, obstacles, score, finalScore, gameOver)
    }

    ghost predicate Simulating()
    {
      contractAddress == ContractConfig.ZeroAddress
    }

    ghost predicate Valid()
      reads this
    {
      && Inv(SceneState())
      && (claiming ==> hasProvider && HasSession(sessionId) && !Simulating() && !rewardClaimed)
      && (claimTimers > 0 ==> Simulating())
    }

    constructor (hasProvider: bool, sessionId: Option<string>, contractAddress: string)
      ensures Valid()
      ensures this.hasProvider == hasProvider && this.sessionId == sessionId
      ensures this.contractAddress == contractAddress
      ensures SceneState() == Initial()
      ensures !claiming && !rewardClaimed && claimError == "" && claimTimers == 0
    {
      this.hasProvider := hasProvider;
      this.sessionId := sessionId;
      this.contractAddress := contractAddress;
      scoreValue, gameOverFlag, obstacles := 0, false, [];
      score, finalScore, gameOver := 0, 0, false;
      claiming, rewardClaimed, claimError := false, false, "";
      claimTimers := 0;
    }

    // The scene's callbacks.

    /** The 100 ms score timer. */
    method ScoreTick()
      requires Valid()
      modifies this
      ensures Valid()
      ensures SceneState() == Step(old(SceneState()), Tick)
      ensures scoreValue >= old(scoreValue)
      ensures ClaimUnchanged()
    {
      StepPreservesInv(SceneState(), Tick);
      if !gameOverFlag {
        scoreValue := scoreValue + ScoreStep;
        score := scoreValue;
      }
    }

    /** The obstacle timer; `height` is what `Phaser.Math.Between(50, 150)` drew. */
    method SpawnObstacle(height: int)
      requires Valid() && MinHeight <= height <= MaxHeight
      modifies this
      ensures Valid()
      ensures SceneState() == Step(old(SceneState()), Spawn(height))
      ensures ClaimUnchanged()
    {
      StepPreservesInv(SceneState(), Spawn(height));
      if gameOverFlag {
        return;
      }
      obstacles := obstacles + [Obstacle(SpawnX, height)];
    }

    /** The player-obstacle overlap callback. */
    method HitObstacle()
      requires Valid()
      modifies this
      ensures Valid()
      ensures SceneState() == Step(old(SceneState()), Hit)
      ensures gameOverFlag && finalScore == scoreValue
      ensures old(gameOverFlag) ==> SceneState() == old(SceneState())
      ensures ClaimUnchanged()
    {
      StepPreservesInv(SceneState(), Hit);
      if gameOverFlag {
        return;
      }
      gameOverFlag := true;
      finalScore := scoreValue;
      gameOver := true;
    }

    /** The physics engine moving every obstacle; it is paused once the game is over. */
    method PhysicsStep(dx: nat)
      requires Valid()
      modifies this
      ensures Valid()
      ensures SceneState() == Step(old(SceneState()), Advance(dx))
      ensures ClaimUnchanged()
    {
      StepPreservesInv(SceneState(), Advance(dx));
      if !gameOverFlag {
        obstacles := Moved(obstacles, dx);
      }
    }

    /** The scene's update callback: drop the obstacles that went off screen. */
    method UpdateGame()
      requires Valid()
      modifies this
      ensures Valid()
      ensures SceneState() == Step(old(SceneState()), Frame)
      ensures !gameOverFlag ==> forall o :: o in obstacles ==> !OffScreen(o)
      ensures ClaimUnchanged()
    {
      StepPreservesInv(SceneState(), Frame);
      if gameOverFlag {
        return;
      }
      var kept := KeepOnScreen(obstacles);
      OnScreenMembers(obstacles);
      obstacles := kept;
      assert SceneState() == Step(old(SceneState()), Frame);
    }

    // The Claim Reward handler.

    twostate predicate ClaimUnchanged()
      reads this
    {
      && claiming == old(claiming) && rewardClaimed == old(rewardClaimed)
      && claimError == old(claimError) && claimTimers == old(claimTimers)
    }

    /**
     * From the start of the handler to its contract call. The Claim button is
     * on the game-over screen only, shown while the reward is unclaimed, and
     * disabled while `claiming`.
     */
    method BeginClaim() returns (start: ClaimStart)
      requires Valid() && gameOver && ShowClaimButton(rewardClaimed, finalScore) && !claiming
      modifies this
      ensures Valid()
      ensures SceneState() == old(SceneState())
      ensures !hasProvider || !HasSession(sessionId) ==>
        start == Simulated && rewardClaimed && claiming == old(claiming) && claimError == old(claimError)
        && claimTimers == old(claimTimers)
      ensures hasProvider && HasSession(sessionId) && Simulating() ==>
        start == SimulationScheduled && !claiming && claimError == "" && rewardClaimed == old(rewardClaimed)
        && claimTimers == old(claimTimers) + 1
      ensures hasProvider && HasSession(sessionId) && !Simulating() ==>
        start == EndGameSent(sessionId.value, finalScore) && claiming && claimError == ""
        && rewardClaimed == old(rewardClaimed) && claimTimers == old(claimTimers)
    {
      if !hasProvider || !HasSession(sessionId) {
        rewardClaimed := true;
        return Simulated;
      }
      claiming := true;
      claimError := "";
      if contractAddress == ContractConfig.ZeroAddress {
        claimTimers := claimTimers + 1;
        claiming := false;  // the `finally` block runs on the early return
        return SimulationScheduled;
      }
      return EndGameSent(sessionId.value, finalScore);
    }

    /** From the resolution of the awaited calls to the end of the `finally` block. */
    method CompleteClaim(outcome: ClaimOutcome)
      requires Valid() && claiming
      modifies this
      ensures Valid()
      ensures SceneState() == old(SceneState())
      ensures !claiming && claimTimers == old(claimTimers)
      ensures outcome.ClaimConfirmed? ==> rewardClaimed && claimError == old(claimError)
      ensures outcome.ClaimThrew? ==>
        !rewardClaimed && claimError == ErrorText(outcome.message, ClaimFailed)
    {
      match outcome {
        case ClaimConfirmed(_) =>
          rewardClaimed := true;
        case ClaimThrew(message) =>
          claimError := ErrorText(message, ClaimFailed);
      }
      claiming := false;
    }

    /** The simulation timer set by a claim without a deployed contract. */
    method FireClaimTimer()
      requires Valid() && claimTimers > 0
      modifies this
      ensures Valid()
      ensures SceneState() == old(SceneState())
      ensures rewardClaimed && !claiming && claimError == old(claimError)
      ensures claimTimers == old(claimTimers) - 1
    {
      rewardClaimed := true;
      claiming := false;
      claimTimers := claimTimers - 1;
    }
  }

  /**
   * The Claim button reads "Claiming..." exactly while an `endGame` call is
   * awaited, which only happens for a real session on a deployed contract
   * with the reward still unclaimed.
   */
  lemma ClaimLabelWhileClaiming(g: Game)
    requires g.Valid()
    ensures ClaimButtonLabel(g.claiming) == "Claiming..." <==> g.claiming
    ensures ClaimButtonLabel(g.claiming) == "Claim Reward" <==> !g.claiming
    ensures g.claiming ==> g.hasProvider && HasSession(g.sessionId) && !g.Simulating() && !g.rewardClaimed
  {
  }
}
