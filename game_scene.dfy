/**
 * The game loop of the runner scene, without rendering and physics: the
 * running score, the one-way game-over flag and the obstacles, changed by
 * the 100 ms score timer, the obstacle spawner, the player-obstacle overlap
 * callback, the physics engine moving obstacles and the per-frame cleanup.
 * The component state the scene writes (`score`, `finalScore`, `gameOver`)
 * is part of the record.
 */
module GameScene {

  /** An obstacle: its horizontal position, as an integer, and its height. */
  datatype Obstacle = Obstacle(x: int, height: int)

  const SpawnX: int := 850
  const MinHeight: int := 50
  const MaxHeight: int := 150
  /** Obstacles left of this position are off screen. */
  const CleanupX: int := -50
  const ScoreStep: int := 10

  datatype Scene = Scene(
    scoreValue: int,        // the running score (closure variable)
    gameOverFlag: bool,     // set once by the overlap callback (closure variable)
    obstacles: seq<Obstacle>,
    score: int,             // component state: the score shown while playing
    finalScore: int,        // component state: the score shown on the game-over screen
    gameOver: bool)         // component state: which screen is shown

  datatype Event =
    | Tick                  // the 100 ms score timer
    | Spawn(height: int)    // the 1500 ms obstacle timer, with the random height it drew
    | Hit                   // the player overlaps an obstacle
    | Advance(dx: nat)      // the physics engine moves every obstacle dx to the left
    | Frame                 // the scene's update callback

  function Initial(): Scene {
    Scene(0, false, [], 0, 0, false)
  }

  predicate OffScreen(o: Obstacle) {
    o.x < CleanupX
  }

  /** The obstacles still on screen, in their order. */
  function OnScreen(s: seq<Obstacle>): seq<Obstacle>
  {
    if s == [] then []
    else OnScreen(s[..|s| - 1]) + (if OffScreen(s[|s| - 1]) then [] else [s[|s| - 1]])
  }

  function Moved(s: seq<Obstacle>, dx: nat): (r: seq<Obstacle>)
    ensures |r| == |s|
    ensures forall i :: 0 <= i < |s| ==> r[i] == s[i].(x := s[i].x - dx)
  {
    seq(|s|, i requires 0 <= i < |s| => s[i].(x := s[i].x - dx))
  }

  /** What one event does to the scene; once the game is over, nothing does anything. */
  function Step(sc: Scene, e: Event): Scene
  {
    if sc.gameOverFlag then sc
    else
      match e
      case Tick => sc.(scoreValue := sc.scoreValue + ScoreStep, score := sc.scoreValue + ScoreStep)
      case Spawn(h) => sc.(obstacles := sc.obstacles + [Obstacle(SpawnX, h)])
      case Hit => sc.(gameOverFlag := true, finalScore := sc.scoreValue, gameOver := true)
      case Advance(dx) => sc.(obstacles := Moved(sc.obstacles, dx))
      case Frame => sc.(obstacles := OnScreen(sc.obstacles))
  }

  /** The spawner draws heights between 50 and 150 inclusive. */
  predicate ValidEvent(e: Event) {
    e.Spawn? ==> MinHeight <= e.height <= MaxHeight
  }

  function Run(sc: Scene, evs: seq<Event>): Scene
    decreases |evs|
  {
    if evs == [] then sc else Run(Step(sc, evs[0]), evs[1..])
  }

  /** What holds of the scene at every point of a game. */
  ghost predicate Inv(sc: Scene) {
    && sc.scoreValue >= 0
    && sc.scoreValue % ScoreStep == 0
    && sc.score == sc.scoreValue
    && sc.gameOver == sc.gameOverFlag
    && sc.finalScore == (if sc.gameOverFlag then sc.scoreValue else 0)
    && forall o :: o in sc.obstacles ==> MinHeight <= o.height <= MaxHeight
  }

  // The per-frame cleanup.

  /** Cleanup removes exactly the off-screen obstacles. */
  lemma {:induction false} OnScreenMembers(s: seq<Obstacle>)
    ensures forall o :: o in OnScreen(s) <==> o in s && !OffScreen(o)
    ensures forall o :: multiset(OnScreen(s))[o] == if OffScreen(o) then 0 else multiset(s)[o]
  {
    if s != [] {
      var p := s[..|s| - 1];
      OnScreenMembers(p);
      assert s == p + [s[|s| - 1]];
    }
  }

  lemma {:induction false} OnScreenLength(s: seq<Obstacle>)
    ensures |OnScreen(s)| <= |s|
    ensures |OnScreen(s)| == |s| <==> forall i :: 0 <= i < |s| ==> !OffScreen(s[i])
  {
    if s != [] {
      var p := s[..|s| - 1];
      OnScreenLength(p);
      if !OffScreen(s[|s| - 1]) && |OnScreen(p)| == |p| {
        assert forall i :: 0 <= i < |s| - 1 ==> s[i] == p[i];
      }
    }
  }

  /** Cleanup of one more obstacle, as a loop over the entries sees it. */
  lemma OnScreenSnoc(s: seq<Obstacle>, i: nat)
    requires i < |s|
    ensures OnScreen(s[..i + 1]) == OnScreen(s[..i]) + (if OffScreen(s[i]) then [] else [s[i]])
  {
    assert s[..i + 1][..i] == s[..i];
  }

  /** A second cleanup in the same state removes nothing more. */
  lemma {:induction false} OnScreenIdempotent(s: seq<Obstacle>)
    ensures OnScreen(OnScreen(s)) == OnScreen(s)
  {
    if s != [] {
      var p := s[..|s| - 1];
      OnScreenIdempotent(p);
      var last := s[|s| - 1];
      if !OffScreen(last) {
        var q := OnScreen(p) + [last];
        assert OnScreen(s) == q;
        assert q[..|q| - 1] == OnScreen(p);
        assert OnScreen(q) == OnScreen(OnScreen(p)) + [last];
      } else {
        assert OnScreen(s) == OnScreen(p);
      }
    }
  }

  /**
   * The cleanup as written: `forEach` over the group's entry array, where
   * destroying an obstacle removes it from that same array at once. As in
   * JavaScript, the loop's bound is the length taken at the start, and
   * indices past the current end are skipped.
   */
  function ForEachDestroy(entries: seq<Obstacle>, k: nat, len: nat): seq<Obstacle>
    decreases len - k
  {
    if k >= len then entries
    else if k < |entries| && OffScreen(entries[k]) then
      ForEachDestroy(entries[..k] + entries[k + 1..], k + 1, len)
    else ForEachDestroy(entries, k + 1, len)
  }

  function CleanupAsWritten(entries: seq<Obstacle>): seq<Obstacle> {
    ForEachDestroy(entries, 0, |entries|)
  }

  /**
   * Two neighbouring off-screen obstacles: destroying the first shifts the
   * second into the index just visited, so it survives the frame.
   */
  lemma CleanupAsWrittenSkipsNeighbour()
    ensures var s := [Obstacle(-60, 50), Obstacle(-70, 80)];
      CleanupAsWritten(s) == [Obstacle(-70, 80)] && OnScreen(s) == []
  {
    var s := [Obstacle(-60, 50), Obstacle(-70, 80)];
    var rest := [Obstacle(-70, 80)];
    assert s[..0] + s[1..] == rest;
    assert ForEachDestroy(rest, 2, 2) == rest;
    assert ForEachDestroy(rest, 1, 2) == rest;
    assert ForEachDestroy(s, 0, 2) == rest;
    var single := [Obstacle(-60, 50)];
    assert s[..1] == single && single[..0] == [];
    assert OnScreen(single) == [];
  }

  lemma {:induction false} OnScreenConcat(a: seq<Obstacle>, b: seq<Obstacle>)
    ensures OnScreen(a + b) == OnScreen(a) + OnScreen(b)
    decreases |b|
  {
    if b == [] {
      assert a + b == a;
    } else {
      var p := b[..|b| - 1];
      assert (a + b)[..|a + b| - 1] == a + p;
      assert (a + b)[|a + b| - 1] == b[|b| - 1];
      OnScreenConcat(a, p);
    }
  }

  /** Taking out an off-screen obstacle does not change what is on screen. */
  lemma RemoveOffScreen(e: seq<Obstacle>, k: nat)
    requires k < |e| && OffScreen(e[k])
    ensures OnScreen(e[..k] + e[k + 1..]) == OnScreen(e)
  {
    var a, x, b := e[..k], e[k], e[k + 1..];
    assert e == (a + [x]) + b;
    assert (a + [x])[..|a|] == a;
    assert OnScreen(a + [x]) == OnScreen(a);
    OnScreenConcat(a + [x], b);
    OnScreenConcat(a, b);
  }

  lemma {:induction false} ForEachDestroyKeeps(e: seq<Obstacle>, k: nat, len: nat)
    ensures OnScreen(ForEachDestroy(e, k, len)) == OnScreen(e)
    ensures multiset(ForEachDestroy(e, k, len)) <= multiset(e)
    ensures |ForEachDestroy(e, k, len)| <= |e|
    decreases len - k
  {
    if k < len {
      if k < |e| && OffScreen(e[k]) {
        var e' := e[..k] + e[k + 1..];
        RemoveOffScreen(e, k);
        assert e == e[..k] + [e[k]] + e[k + 1..];
        ForEachDestroyKeeps(e', k + 1, len);
      } else {
        ForEachDestroyKeeps(e, k + 1, len);
      }
    }
  }

  lemma {:induction false} ForEachDestroyRemovesFirst(e: seq<Obstacle>, k: nat, len: nat, i: nat)
    requires k <= i < len && i < |e| && OffScreen(e[i])
    requires forall j :: k <= j < i ==> !OffScreen(e[j])
    ensures |ForEachDestroy(e, k, len)| < |e|
    ensures multiset(ForEachDestroy(e, k, len))[e[i]] < multiset(e)[e[i]]
    decreases i - k
  {
    if k == i {
      DestroyHere(e, k, len);
    } else {
      assert !OffScreen(e[k]);
      assert ForEachDestroy(e, k, len) == ForEachDestroy(e, k + 1, len);
      ForEachDestroyRemovesFirst(e, k + 1, len, i);
    }
  }

  /** The visited obstacle is off screen: it is destroyed, and what follows only removes more. */
  lemma DestroyHere(e: seq<Obstacle>, k: nat, len: nat)
    requires k < len && k < |e| && OffScreen(e[k])
    ensures |ForEachDestroy(e, k, len)| < |e|
    ensures multiset(ForEachDestroy(e, k, len))[e[k]] < multiset(e)[e[k]]
  {
    var e' := e[..k] + e[k + 1..];
    assert ForEachDestroy(e, k, len) == ForEachDestroy(e', k + 1, len);
    assert e == e[..k] + [e[k]] + e[k + 1..];
    assert multiset(e) == multiset(e') + multiset{e[k]};
    ForEachDestroyKeeps(e', k + 1, len);
    var r := ForEachDestroy(e', k + 1, len);
    assert multiset(r)[e[k]] <= multiset(e')[e[k]] < multiset(e)[e[k]];
    assert |r| == |multiset(r)| <= |multiset(e')| == |e'| < |e|;
  }

  /**
   * What the cleanup as written does guarantee: it keeps every on-screen
   * obstacle, as often and in the order it occurs, adds nothing, and always
   * destroys the first off-screen obstacle.
   */
  lemma CleanupAsWrittenGuarantees(s: seq<Obstacle>, first: nat)
    requires first < |s| && OffScreen(s[first])
    requires forall j :: 0 <= j < first ==> !OffScreen(s[j])
    ensures OnScreen(CleanupAsWritten(s)) == OnScreen(s)
    ensures multiset(CleanupAsWritten(s)) <= multiset(s)
    ensures forall o :: !OffScreen(o) ==> multiset(CleanupAsWritten(s))[o] == multiset(s)[o]
    ensures |CleanupAsWritten(s)| < |s|
    ensures multiset(CleanupAsWritten(s))[s[first]] < multiset(s)[s[first]]
  {
    var r := CleanupAsWritten(s);
    ForEachDestroyKeeps(s, 0, |s|);
    ForEachDestroyRemovesFirst(s, 0, |s|, first);
    OnScreenMembers(r);
    OnScreenMembers(s);
  }

  // One event at a time.

  lemma StepPreservesInv(sc: Scene, e: Event)
    requires Inv(sc) && ValidEvent(e)
    ensures Inv(Step(sc, e))
  {
    if !sc.gameOverFlag {
      match e
      case Frame => OnScreenMembers(sc.obstacles);
      case Advance(dx) =>
        var m := Moved(sc.obstacles, dx);
        forall o | o in m ensures MinHeight <= o.height <= MaxHeight {
          var i :| 0 <= i < |m| && m[i] == o;
          assert sc.obstacles[i] in sc.obstacles;
        }
      case _ =>
    }
  }

  /** The score timer adds exactly 10 while the game is on and nothing after it. */
  lemma TickAddsTen(sc: Scene)
    ensures Step(sc, Tick).scoreValue == sc.scoreValue + (if sc.gameOverFlag then 0 else ScoreStep)
    ensures Step(sc, Tick).obstacles == sc.obstacles && Step(sc, Tick).gameOverFlag == sc.gameOverFlag
  {
  }

  /** The spawner adds one obstacle at x = 850 while the game is on and none after it. */
  lemma SpawnAddsOne(sc: Scene, h: int)
    ensures Step(sc, Spawn(h)).obstacles ==
      if sc.gameOverFlag then sc.obstacles else sc.obstacles + [Obstacle(SpawnX, h)]
    ensures Step(sc, Spawn(h)).scoreValue == sc.scoreValue
  {
  }

  /**
   * The first hit ends the game and freezes the final score at the running
   * score; a second hit changes nothing.
   */
  lemma HitIdempotent(sc: Scene)
    requires Inv(sc)
    ensures Step(sc, Hit).gameOverFlag && Step(sc, Hit).gameOver
    ensures Step(sc, Hit).finalScore == if sc.gameOverFlag then sc.finalScore else sc.scoreValue
    ensures Step(Step(sc, Hit), Hit) == Step(sc, Hit)
  {
  }

  /**
   * On a live game the cleanup leaves no off-screen obstacle and keeps every
   * other one; on a finished game it does nothing.
   */
  lemma FrameCleansUp(sc: Scene)
    ensures sc.gameOverFlag ==> Step(sc, Frame) == sc
    ensures !sc.gameOverFlag ==> forall o :: o in Step(sc, Frame).obstacles <==> o in sc.obstacles && !OffScreen(o)
  {
    if !sc.gameOverFlag {
      assert Step(sc, Frame).obstacles == OnScreen(sc.obstacles);
      OnScreenMembers(sc.obstacles);
    }
  }

  // Whole games.

  /** Once the game is over, no sequence of events changes the scene. */
  lemma {:induction false} GameOverIsFinal(sc: Scene, evs: seq<Event>)
    requires sc.gameOverFlag
    ensures Run(sc, evs) == sc
    decreases |evs|
  {
    if evs != [] {
      GameOverIsFinal(Step(sc, evs[0]), evs[1..]);
    }
  }

  lemma {:induction false} RunPreservesInv(sc: Scene, evs: seq<Event>)
    requires Inv(sc) && forall i :: 0 <= i < |evs| ==> ValidEvent(evs[i])
    ensures Inv(Run(sc, evs))
    decreases |evs|
  {
    if evs != [] {
      StepPreservesInv(sc, evs[0]);
      RunPreservesInv(Step(sc, evs[0]), evs[1..]);
    }
  }

  /** The running score never decreases. */
  lemma {:induction false} ScoreNeverDecreases(sc: Scene, evs: seq<Event>)
    ensures Run(sc, evs).scoreValue >= sc.scoreValue
    decreases |evs|
  {
    if evs != [] {
      ScoreNeverDecreases(Step(sc, evs[0]), evs[1..]);
    }
  }

  /** The number of score ticks before the first hit. */
  function TicksBeforeHit(evs: seq<Event>): nat
  {
    if evs == [] || evs[0].Hit? then 0
    else (if evs[0].Tick? then 1 else 0) + TicksBeforeHit(evs[1..])
  }

  /**
   * From the start of a game, the running score is 10 for every tick before
   * the first hit; the game is over exactly when a hit has happened, and then
   * the final score is that same number.
   */
  lemma {:induction false} ScoreCountsTicks(sc: Scene, evs: seq<Event>)
    requires !sc.gameOverFlag
    ensures Run(sc, evs).scoreValue == sc.scoreValue + ScoreStep * TicksBeforeHit(evs)
    ensures Run(sc, evs).gameOverFlag <==> Hit in evs
    ensures Hit in evs ==> Run(sc, evs).finalScore == sc.scoreValue + ScoreStep * TicksBeforeHit(evs)
    decreases |evs|
  {
    if evs != [] {
      var next := Step(sc, evs[0]);
      assert evs == [evs[0]] + evs[1..];
      if evs[0].Hit? {
        GameOverIsFinal(next, evs[1..]);
      } else {
        ScoreCountsTicks(next, evs[1..]);
      }
    }
  }
}
