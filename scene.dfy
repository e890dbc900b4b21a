/**
 * The GameScene component as an object: its fields are the refs the frame
 * callback reads and writes (posRef, kimPosRef, employeesRef, bribesRef,
 * fallingItemsRef, scoreLvl2Ref, ballRef, bricksRef, molesRef, the
 * interaction refs, keysPressed, isSpaceDownRef, lastTimeRef) plus the
 * pieces of component state the callbacks set (kimFrozenUntil,
 * kimDistracted, scoreLvl4).  The callbacks into the App component are
 * appended to `events`.
 *
 * Each method follows the statements of its source block and is proved to
 * produce the state the matching function of SceneRules describes.
 */
module Scene {
  import opened Common
  import opened Catalog
  import opened SceneRules
  import Progression

  class GameScene {
    var pos: Point
    var kimPos: Point
    var employees: seq<Employee>
    var bribes: seq<BribeItem>
    var kimFrozenUntil: int
    var kimDistracted: bool
    var interactionProgress: real
    var interactingTargetId: Option<int>
    var fallingItems: seq<FallingItem>
    var scoreLvl2: int
    var ball: Ball
    var bricks: seq<WallBrick>
    var moles: seq<Mole>
    var scoreLvl4: int
    var keys: set<string>
    var spaceDown: bool
    var lastTime: real
    /** The callbacks raised so far, oldest first. */
    var events: seq<Event>

    /** The player stays on the field, at most five moles are live, and the scores never go negative. */
    predicate Valid()
      reads this
    {
      InField(pos) && |moles| <= 5 && scoreLvl2 >= 0 && scoreLvl4 >= 0
    }

    /** The level-1 refs and state as one value. */
    function StealthView(): Stealth
      reads this
    {
      Stealth(pos, kimPos, employees, interactingTargetId, interactionProgress, bribes, kimFrozenUntil, kimDistracted, events)
    }

    /** The initial values of the refs and state (GameScene.tsx:92-139). */
    constructor ()
      ensures Valid()
      ensures pos == PlayerSpawn && kimPos == ChaserSpawn && ball == Ball(50.0, 80.0, 0.0, 0.0, false)
      ensures employees == [] && bribes == [] && fallingItems == [] && bricks == [] && moles == []
      ensures kimFrozenUntil == 0 && !kimDistracted && interactionProgress == 0.0 && interactingTargetId == None
      ensures scoreLvl2 == 0 && scoreLvl4 == 0 && keys == {} && !spaceDown && lastTime == 0.0 && events == []
    {
      pos := PlayerSpawn;
      kimPos := ChaserSpawn;
      employees := [];
      bribes := [];
      kimFrozenUntil := 0;
      kimDistracted := false;
      interactionProgress := 0.0;
      interactingTargetId := None;
      fallingItems := [];
      scoreLvl2 := 0;
      ball := Ball(50.0, 80.0, 0.0, 0.0, false);
      bricks := [];
      moles := [];
      scoreLvl4 := 0;
      keys := {};
      spaceDown := false;
      lastTime := 0.0;
      events := [];
    }

    /**
     * The setup effect run on a level or location change.  `rolls` are the
     * Math.random() draws of level 1 in call order: x and y of the five
     * employees, of the BIM manager, then of the four bribes.
     */
    method Setup(level: int, rolls: seq<real>)
      requires Valid()
      requires level == 1 ==> |rolls| >= 20
      modifies this`scoreLvl2, this`scoreLvl4, this`fallingItems, this`moles, this`kimDistracted
      modifies this`interactionProgress, this`interactingTargetId, this`bribes, this`employees, this`pos
      modifies this`bricks, this`ball
      ensures Valid()
      ensures scoreLvl2 == 0 && scoreLvl4 == 0 && fallingItems == [] && moles == [] && !kimDistracted
      ensures interactionProgress == 0.0 && interactingTargetId == None
      ensures level == 1 ==> employees == Staff(rolls) && pos == PlayerSpawn
      ensures level == 1 ==> bribes == Bribes(rolls)
      ensures level != 1 ==> employees == old(employees) && bribes == []
      ensures level == 2 || level == 3 ==> pos == PaddleSpawn
      ensures level < 1 || level > 3 ==> pos == old(pos)
      ensures level == 3 ==> bricks == Wall()
      ensures level == 3 ==> ball == Ball(50.0, 85.0, 0.0, 0.0, false)
      ensures level != 3 ==> bricks == old(bricks) && ball == old(ball)
    {
      Reset();
      if level == 1 {
        employees := SpawnStaff(rolls);
        bribes := SpawnBribes(rolls);
        pos := PlayerSpawn;
      }

      if level == 2 {
        pos := PaddleSpawn;
      }

      if level == 3 {
        pos := PaddleSpawn;
        var wall := BuildWall();
        bricks := wall;
        ball := Ball(50.0, 85.0, 0.0, 0.0, false);
      }
    }

    /** The resets every level entry performs before its own layout. */
    method Reset()
      modifies this`scoreLvl2, this`scoreLvl4, this`fallingItems, this`moles, this`kimDistracted
      modifies this`interactionProgress, this`interactingTargetId, this`bribes
      ensures scoreLvl2 == 0 && scoreLvl4 == 0 && fallingItems == [] && moles == [] && !kimDistracted
      ensures interactionProgress == 0.0 && interactingTargetId == None && bribes == []
    {
      scoreLvl2 := 0;
      scoreLvl4 := 0;
      fallingItems := [];
      moles := [];
      kimDistracted := false;
      interactionProgress := 0.0;
      interactingTargetId := None;
      bribes := [];
    }

    /** The keydown listener; `code` is the physical key code, `key` the key value. */
    method KeyDown(key: string, code: string, isPaused: bool, level: int, side: real, spread: real)
      modifies this`keys, this`spaceDown, this`ball
      ensures isPaused ==> keys == old(keys) && spaceDown == old(spaceDown) && ball == old(ball)
      ensures !isPaused ==> keys == old(keys) + {key} && spaceDown == (old(spaceDown) || code == "Space")
      ensures !isPaused && code == "Space" && level == 3 && !old(ball).active ==> ball == Launched(old(ball), side, spread)
      ensures !(!isPaused && code == "Space" && level == 3 && !old(ball).active) ==> ball == old(ball)
    {
      if isPaused {
        return;
      }
      keys := keys + {key};
      if code == "Space" {
        spaceDown := true;
        if level == 3 && !ball.active {
          LaunchBall(side, spread);
        }
      }
    }

    /** The keyup listener. */
    method KeyUp(key: string, code: string)
      modifies this`keys, this`spaceDown
      ensures keys == old(keys) - {key}
      ensures spaceDown == (old(spaceDown) && code != "Space")
    {
      keys := keys - {key};
      if code == "Space" {
        spaceDown := false;
      }
    }

    /** launchBall, with its two Math.random() draws as parameters. */
    method LaunchBall(side: real, spread: real)
      modifies this`ball
      ensures ball == Launched(old(ball), side, spread)
    {
      ball := ball.(active := true, dx := (if side > 0.5 then 1.0 else -1.0) * (0.05 + spread * 0.02), dy := -0.06);
    }

    /** handleEmployeeDrop, with the Date.now() reading as `now`. */
    method EmployeeDrop(e: Employee, now: int)
      modifies this`events, this`kimFrozenUntil
      ensures events == old(events) + DropEvents(e)
      ensures kimFrozenUntil == if e.kind == Bim then now + 5000 else old(kimFrozenUntil)
    {
      match Lookup(e.drops) {
        case Some(item) =>
          events := events + [Collect(item)];
        case None =>
      }
      if e.kind == Bim {
        kimFrozenUntil := now + 5000;
      }
    }

    /** handleMoleClick(id, type) as wired to a grid cell. */
    method MoleClick(id: int, kind: MoleKind)
      requires Valid()
      modifies this`scoreLvl4, this`events, this`moles
      ensures Valid()
      ensures scoreLvl4 == old(scoreLvl4) + (if kind == Resident then 0 else 1)
      ensures events == old(events) + ClickEvents(kind, scoreLvl4)
      ensures moles == RemoveMole(old(moles), id)
    {
      if kind == Resident {
        events := events + [Stun];
      } else {
        var newScore := scoreLvl4 + 1;
        if newScore >= 20 {
          events := events + [Collect(Receipt), Collect(Blueprint)];
        }
        scoreLvl4 := newScore;
      }
      moles := RemoveMole(moles, id);
    }

    /** Held-key movement of the player. */
    method Move(level: int, dt: real)
      requires Valid()
      modifies this`pos
      ensures Valid()
      ensures pos == MoveStep(level, old(pos), keys, dt)
    {
      if level <= 3 {
        var speed := 0.05 * dt;
        if level == 2 || level == 3 {
          speed := 0.08 * dt;
        }
        var dx := 0.0;
        var dy := 0.0;
        if ArrowLeft in keys {
          dx := dx - speed;
        }
        if ArrowRight in keys {
          dx := dx + speed;
        }
        if level == 1 {
          if ArrowUp in keys {
            dy := dy - speed;
          }
          if ArrowDown in keys {
            dy := dy + speed;
          }
        }
        if dx != 0.0 || dy != 0.0 {
          var newX := Clamp(pos.x + dx);
          var newY := Clamp(pos.y + dy);
          if level == 2 || level == 3 {
            newY := 90.0;
          }
          pos := Point(newX, newY);
        }
      }
    }

    /** Three bribes in the rendered inventory distract the chaser. */
    method Distract(snap: Snapshot)
      modifies this`kimDistracted
      ensures kimDistracted == Distracted(old(kimDistracted), snap)
    {
      var bribeCount := Progression.CountId(snap.inventory, "bribe");
      if bribeCount >= 3 && !snap.kimDistracted {
        kimDistracted := true;
      }
    }

    /** Every bribe in reach is collected and taken off the floor. */
    method PickUpBribes()
      modifies this`bribes, this`events
      ensures bribes == KeptBribes(old(bribes), pos)
      ensures events == old(events) + Copies(Collect(Bribe), PickedUp(old(bribes), pos))
    {
      if |bribes| > 0 {
        var all := bribes;
        var remaining: seq<BribeItem> := [];
        var raised: seq<Event> := [];
        var collected := false;
        var i := 0;
        while i < |all|
          invariant 0 <= i <= |all|
          invariant remaining == KeptBribes(all[..i], pos)
          invariant raised == Copies(Collect(Bribe), PickedUp(all[..i], pos))
          invariant collected <==> PickedUp(all[..i], pos) > 0
        {
          assert all[..i + 1][..i] == all[..i];
          var b := all[i];
          if DistSq(pos, b.at) < 25.0 {
            collected := true;
            raised := raised + [Collect(Bribe)];
          } else {
            remaining := remaining + [b];
          }
          i := i + 1;
        }
        assert all[..i] == all;
        PickupPartitions(all, pos);
        events := events + raised;
        if collected {
          bribes := remaining;
        }
      }
    }

    /** The remembered target is forgotten when it is gone, 20 or more away, or awake. */
    method ReleaseTarget()
      modifies this`interactingTargetId, this`interactionProgress
      ensures Interaction(employees, interactingTargetId, interactionProgress)
        == Release(Interaction(employees, old(interactingTargetId), old(interactionProgress)), pos)
    {
      if interactingTargetId.Some? {
        var target := FindEmployee(employees, interactingTargetId.value);
        if target.None? || DistSq(pos, target.value.at) >= 400.0 || target.value.isAwake {
          interactionProgress := 0.0;
          interactingTargetId := None;
        }
      }
    }

    /** The action-key interaction with the sleeping staff. */
    method Interact(dt: real, now: int)
      modifies this`employees, this`interactingTargetId, this`interactionProgress, this`events, this`kimFrozenUntil
      ensures var r := InteractStep(Interaction(old(employees), old(interactingTargetId), old(interactionProgress)), pos, spaceDown, dt);
        && Interaction(employees, interactingTargetId, interactionProgress) == r.next
        && events == old(events) + (if r.woke.Some? then DropEvents(r.woke.value) else [])
        && kimFrozenUntil == (if r.woke.Some? && r.woke.value.kind == Bim then now + 5000 else old(kimFrozenUntil))
    {
      ReleaseTarget();
      if spaceDown {
        var found := FirstSleeperNear(employees, pos);
        if found.Some? {
          var e := employees[found.value];
          interactingTargetId := Some(e.id);
          if e.kind == Bim {
            interactionProgress := interactionProgress + 0.1 * dt;
            if interactionProgress >= 100.0 {
              employees := WakeAll(employees, e.id);
              EmployeeDrop(e, now);
              interactionProgress := 0.0;
            }
          } else {
            employees := WakeAll(employees, e.id);
            EmployeeDrop(e, now);
            interactionProgress := 0.0;
          }
        }
      }
    }

    /** The chaser's pursuit and capture. */
    method Chase(snap: Snapshot, now: int, step: Point)
      modifies this`pos, this`kimPos, this`kimFrozenUntil, this`events
      ensures var r := ChaseStep(old(pos), old(kimPos), old(kimFrozenUntil), snap, now, step);
        pos == r.player && kimPos == r.chaser && kimFrozenUntil == r.frozenUntil && events == old(events) + r.events
    {
      var isFrozen := now < snap.kimFrozenUntil;
      if !isFrozen && !snap.kimDistracted {
        if DistSq(pos, kimPos) > 25.0 {
          kimPos := Point(kimPos.x + step.x, kimPos.y + step.y);
        } else if Progression.HasId(snap.inventory, "bribe") {
          events := events + [Consume("bribe")];
          kimPos := ChaserSpawn;
          kimFrozenUntil := now + 2000;
        } else {
          events := events + [Stun];
          kimPos := ChaserSpawn;
          pos := PlayerSpawn;
        }
      }
    }

    /** Level 1, first half: the distraction latch and the bribe pickup. */
    method Lure(snap: Snapshot)
      modifies this`kimDistracted, this`bribes, this`events
      ensures kimDistracted == Distracted(old(kimDistracted), snap)
      ensures bribes == KeptBribes(old(bribes), pos)
      ensures events == old(events) + Copies(Collect(Bribe), PickedUp(old(bribes), pos))
    {
      Distract(snap);
      PickUpBribes();
    }

    /**
     * Level 1, second half: the interaction, then the chase.  A BIM wake-up
     * writes the freeze deadline, but the chase tests the deadline in the
     * snapshot, so the new freeze does not stop this run's chaser.
     */
    method Confront(snap: Snapshot, dt: real, now: int, step: Point)
      modifies this`employees, this`interactingTargetId, this`interactionProgress, this`kimFrozenUntil
      modifies this`events, this`pos, this`kimPos
      ensures var st := InteractStep(Interaction(old(employees), old(interactingTargetId), old(interactionProgress)), old(pos), spaceDown, dt);
        var frozen := if st.woke.Some? && st.woke.value.kind == Bim then now + 5000 else old(kimFrozenUntil);
        var ch := ChaseStep(old(pos), old(kimPos), frozen, snap, now, step);
        && Interaction(employees, interactingTargetId, interactionProgress) == st.next
        && pos == ch.player && kimPos == ch.chaser && kimFrozenUntil == ch.frozenUntil
        && events == old(events) + (if st.woke.Some? then DropEvents(st.woke.value) else []) + ch.events
    {
      Interact(dt, now);
      ghost var interacted := events;
      Chase(snap, now, step);
      assert events == interacted + (events[|interacted|..]);
    }

    /** Level 1: distraction, bribe pickup, interaction and chase, in that order. */
    method TickStealth(snap: Snapshot, dt: real, now: int, step: Point)
      requires Valid()
      modifies this`kimDistracted, this`bribes, this`events, this`employees, this`interactingTargetId
      modifies this`interactionProgress, this`kimFrozenUntil, this`pos, this`kimPos
      ensures Valid()
      ensures var st := InteractStep(Interaction(old(employees), old(interactingTargetId), old(interactionProgress)), old(pos), spaceDown, dt);
        var drop := if st.woke.Some? then DropEvents(st.woke.value) else [];
        var frozen := if st.woke.Some? && st.woke.value.kind == Bim then now + 5000 else old(kimFrozenUntil);
        var ch := ChaseStep(old(pos), old(kimPos), frozen, snap, now, step);
        && kimDistracted == Distracted(old(kimDistracted), snap)
        && bribes == KeptBribes(old(bribes), old(pos))
        && Interaction(employees, interactingTargetId, interactionProgress) == st.next
        && pos == ch.player && kimPos == ch.chaser && kimFrozenUntil == ch.frozenUntil
        && events == old(events) + Copies(Collect(Bribe), PickedUp(old(bribes), old(pos))) + drop + ch.events
    {
      Lure(snap);
      Confront(snap, dt, now, step);
    }

    /** Level 1: movement, then the stealth rules. */
    method StealthFrame(snap: Snapshot, dt: real, now: int, step: Point)
      requires Valid()
      modifies this`kimDistracted, this`bribes, this`events, this`employees, this`interactingTargetId
      modifies this`interactionProgress, this`kimFrozenUntil, this`pos, this`kimPos
      ensures Valid()
      ensures StealthView() == StealthStep(old(StealthView()).(pos := MoveStep(1, old(pos), keys, dt)), spaceDown, snap, dt, now, step)
    {
      Move(1, dt);
      TickStealth(snap, dt, now, step);
    }

    /** Level 2: spawn, then advance and resolve every falling item. */
    method TickCatcher(dt: real, roll: CatchRoll, now: int)
      requires Valid() && IsRoll(roll.kind)
      modifies this`fallingItems, this`scoreLvl2, this`events
      ensures Valid()
      ensures var r := CatchFold(Spawned(old(fallingItems), roll, now), pos.x, dt, old(scoreLvl2));
        fallingItems == r.kept && scoreLvl2 == r.score && events == old(events) + r.events
    {
      if roll.spawn < 0.03 {
        var kind := FallKindOf(roll.kind);
        fallingItems := fallingItems + [FallingItem(now as real + roll.idFraction, roll.x * 90.0 + 5.0, -10.0, kind, roll.speed * 0.03 + 0.02)];
      }
      var next, score, raised := ResolveFalling(fallingItems, pos.x, dt, scoreLvl2);
      fallingItems := next;
      scoreLvl2 := score;
      events := events + raised;
    }

    /** Level 2: movement, then the catcher rules. */
    method CatcherFrame(dt: real, roll: CatchRoll, now: int)
      requires Valid() && IsRoll(roll.kind)
      modifies this`pos, this`fallingItems, this`scoreLvl2, this`events
      ensures Valid()
      ensures pos == MoveStep(2, old(pos), keys, dt)
      ensures var r := CatchFold(Spawned(old(fallingItems), roll, now), pos.x, dt, old(scoreLvl2));
        fallingItems == r.kept && scoreLvl2 == r.score && events == old(events) + r.events
    {
      Move(2, dt);
      TickCatcher(dt, roll, now);
    }

    /** Level 3: flight of an active ball, then the brick wall. */
    method TickBreakout(dt: real)
      modifies this`ball, this`bricks, this`events
      ensures !old(ball).active ==> ball == old(ball) && bricks == old(bricks) && events == old(events)
      ensures old(ball).active ==>
        var f := Flight(old(ball), pos.x, dt);
        var run := BrickFold(old(bricks), f.x, f.y, f.dy);
        && ball == f.(dy := run.dy) && bricks == run.kept
        && events == old(events) + (if f.y >= 100.0 then [Stun] else []) + WallEvents(old(bricks), run.kept)
    {
      if ball.active {
        var f := FlyBall(ball, pos.x, dt);
        if f.y >= 100.0 {
          events := events + [Stun];
        }
        var wall := bricks;
        var remaining, dy := BreakWall(wall, f.x, f.y, f.dy);
        if |remaining| == 0 && |wall| > 0 {
          events := events + [Collect(Tile), Collect(Blueprint)];
        }
        bricks := remaining;
        ball := f.(dy := dy);
      }
    }

    /** Level 3: movement, then the breakout rules. */
    method BreakoutFrame(dt: real)
      requires Valid()
      modifies this`pos, this`ball, this`bricks, this`events
      ensures Valid()
      ensures pos == MoveStep(3, old(pos), keys, dt)
      ensures !old(ball).active ==> ball == old(ball) && bricks == old(bricks) && events == old(events)
      ensures old(ball).active ==>
        var f := Flight(old(ball), pos.x, dt);
        var run := BrickFold(old(bricks), f.x, f.y, f.dy);
        && ball == f.(dy := run.dy) && bricks == run.kept
        && events == old(events) + (if f.y >= 100.0 then [Stun] else []) + WallEvents(old(bricks), run.kept)
    {
      Move(3, dt);
      TickBreakout(dt);
    }

    /** Level 4: spawn a mole, then age every mole. */
    method TickMoles(dt: real, roll: MoleRoll, now: int)
      requires Valid() && IsRoll(roll.pick) && IsRoll(roll.col) && IsRoll(roll.row)
      modifies this`moles, this`events
      ensures Valid()
      ensures var run := AgeFold(MoleSpawn(old(moles), roll, now), dt);
        moles == run.kept && events == old(events) + Copies(Stun, run.strikes)
    {
      if roll.spawn < 0.02 && |moles| < 5 {
        var kind := MoleKindOf(roll.pick, roll.wide);
        moles := moles + [Mole(now, (roll.col * 3.0).Floor, (roll.row * 3.0).Floor, kind, 0.0, 2000.0)];
      }
      var next, strikes := AgeMoles(moles, dt);
      moles := next;
      events := events + Copies(Stun, strikes);
    }

    /**
     * One animation frame at rAF time `time`, with the values the running
     * callback captured in `snap`, the Date.now() reading `now`, the
     * chaser's step and the frame's random draws.  While paused only the
     * clock moves; otherwise the frame measures deltaTime (0 on the first
     * frame) and runs the level's rules.
     */
    method Frame(time: real, snap: Snapshot, now: int, step: Point, catchRoll: CatchRoll, moleRoll: MoleRoll) returns (dt: real)
      requires Valid()
      requires IsRoll(catchRoll.kind) && IsRoll(moleRoll.pick) && IsRoll(moleRoll.col) && IsRoll(moleRoll.row)
      modifies this`pos, this`kimPos, this`employees, this`bribes, this`kimFrozenUntil, this`kimDistracted
      modifies this`interactionProgress, this`interactingTargetId, this`fallingItems, this`scoreLvl2
      modifies this`ball, this`bricks, this`moles, this`events, this`lastTime
      ensures Valid()
      ensures lastTime == time
      ensures snap.isPaused ==> dt == 0.0
      ensures !snap.isPaused ==> dt == if old(lastTime) == 0.0 then 0.0 else time - old(lastTime)
      ensures snap.isPaused ==>
        && pos == old(pos) && kimPos == old(kimPos) && events == old(events)
        && employees == old(employees) && bribes == old(bribes) && fallingItems == old(fallingItems)
        && ball == old(ball) && bricks == old(bricks) && moles == old(moles) && scoreLvl2 == old(scoreLvl2)
        && kimFrozenUntil == old(kimFrozenUntil) && kimDistracted == old(kimDistracted)
        && interactionProgress == old(interactionProgress) && interactingTargetId == old(interactingTargetId)
      ensures !snap.isPaused ==> Ticked(snap, dt, now, step, catchRoll, moleRoll)
    {
      if snap.isPaused {
        lastTime := time;
        return 0.0;
      }
      if lastTime == 0.0 {
        lastTime := time;
      }
      dt := time - lastTime;
      lastTime := time;
      Tick(snap, dt, now, step, catchRoll, moleRoll);
    }

    /**
     * What one unpaused frame does, level by level: nothing during the
     * handover; otherwise the level's rules, each touching only its own
     * state, with the callbacks appended after the earlier ones.
     */
    twostate predicate Ticked(snap: Snapshot, dt: real, now: int, step: Point, catchRoll: CatchRoll, moleRoll: MoleRoll)
      requires IsRoll(catchRoll.kind) && IsRoll(moleRoll.pick) && IsRoll(moleRoll.col) && IsRoll(moleRoll.row)
      reads this
    {
      && (snap.isHandover ==>
        && pos == old(pos) && kimPos == old(kimPos) && events == old(events)
        && employees == old(employees) && bribes == old(bribes) && fallingItems == old(fallingItems)
        && ball == old(ball) && bricks == old(bricks) && moles == old(moles) && scoreLvl2 == old(scoreLvl2)
        && kimFrozenUntil == old(kimFrozenUntil) && kimDistracted == old(kimDistracted)
        && interactionProgress == old(interactionProgress) && interactingTargetId == old(interactingTargetId))
      && (snap.level != 1 ==>
        && kimPos == old(kimPos) && employees == old(employees) && bribes == old(bribes)
        && kimFrozenUntil == old(kimFrozenUntil) && kimDistracted == old(kimDistracted)
        && interactionProgress == old(interactionProgress) && interactingTargetId == old(interactingTargetId))
      && (snap.level != 2 ==> fallingItems == old(fallingItems) && scoreLvl2 == old(scoreLvl2))
      && (snap.level != 3 ==> ball == old(ball) && bricks == old(bricks))
      && (snap.level != 4 ==> moles == old(moles))
      && (snap.level > 3 ==> pos == old(pos))
      && (snap.level <= 0 || snap.level > 4 ==> events == old(events))
      && (old(kimDistracted) ==> kimDistracted)
      && |events| >= |old(events)| && events[..|old(events)|] == old(events)
      && (!snap.isHandover && snap.level != 1 && snap.level <= 3 ==> pos == MoveStep(snap.level, old(pos), keys, dt))
      && (!snap.isHandover && snap.level == 1 ==>
        StealthView() == StealthStep(old(StealthView()).(pos := MoveStep(1, old(pos), keys, dt)), spaceDown, snap, dt, now, step))
      && (!snap.isHandover && snap.level == 2 ==>
        var r := CatchFold(Spawned(old(fallingItems), catchRoll, now), pos.x, dt, old(scoreLvl2));
        fallingItems == r.kept && scoreLvl2 == r.score && events == old(events) + r.events)
      && (!snap.isHandover && snap.level == 3 ==>
        && (!old(ball).active ==> ball == old(ball) && bricks == old(bricks) && events == old(events))
        && (old(ball).active ==>
          var f := Flight(old(ball), pos.x, dt);
          var run := BrickFold(old(bricks), f.x, f.y, f.dy);
          && ball == f.(dy := run.dy) && bricks == run.kept
          && events == old(events) + (if f.y >= 100.0 then [Stun] else []) + WallEvents(old(bricks), run.kept)))
      && (!snap.isHandover && snap.level == 4 ==>
        var run := AgeFold(MoleSpawn(old(moles), moleRoll, now), dt);
        moles == run.kept && events == old(events) + Copies(Stun, run.strikes))
    }

    /** The rules of one unpaused frame, for the snapshot's level. */
    method Tick(snap: Snapshot, dt: real, now: int, step: Point, catchRoll: CatchRoll, moleRoll: MoleRoll)
      requires Valid()
      requires IsRoll(catchRoll.kind) && IsRoll(moleRoll.pick) && IsRoll(moleRoll.col) && IsRoll(moleRoll.row)
      modifies this`pos, this`kimPos, this`employees, this`bribes, this`kimFrozenUntil, this`kimDistracted
      modifies this`interactionProgress, this`interactingTargetId, this`fallingItems, this`scoreLvl2
      modifies this`ball, this`bricks, this`moles, this`events
      ensures Valid()
      ensures Ticked(snap, dt, now, step, catchRoll, moleRoll)
    {
      if snap.isHandover {
        return;
      }
      if snap.level == 1 {
        TickLevelOne(snap, dt, now, step, catchRoll, moleRoll);
      } else {
        TickOtherLevels(snap, dt, now, step, catchRoll, moleRoll);
      }
    }

    /** Tick's level-1 branch. */
    method TickLevelOne(snap: Snapshot, dt: real, now: int, step: Point, catchRoll: CatchRoll, moleRoll: MoleRoll)
      requires !snap.isHandover && snap.level == 1
      requires Valid()
      requires IsRoll(catchRoll.kind) && IsRoll(moleRoll.pick) && IsRoll(moleRoll.col) && IsRoll(moleRoll.row)
      modifies this`pos, this`kimPos, this`employees, this`bribes, this`kimFrozenUntil, this`kimDistracted
      modifies this`interactionProgress, this`interactingTargetId, this`fallingItems, this`scoreLvl2
      modifies this`ball, this`bricks, this`moles, this`events
      ensures Valid()
      ensures Ticked(snap, dt, now, step, catchRoll, moleRoll)
    {
      ghost var before := StealthView().(pos := MoveStep(1, pos, keys, dt));
      StealthFrame(snap, dt, now, step);
      assert StealthView() == StealthStep(before, spaceDown, snap, dt, now, step);
    }

    /** Tick's branches for every level but the first. */
    method TickOtherLevels(snap: Snapshot, dt: real, now: int, step: Point, catchRoll: CatchRoll, moleRoll: MoleRoll)
      requires !snap.isHandover && snap.level != 1
      requires Valid()
      requires IsRoll(catchRoll.kind) && IsRoll(moleRoll.pick) && IsRoll(moleRoll.col) && IsRoll(moleRoll.row)
      modifies this`pos, this`kimPos, this`employees, this`bribes, this`kimFrozenUntil, this`kimDistracted
      modifies this`interactionProgress, this`interactingTargetId, this`fallingItems, this`scoreLvl2
      modifies this`ball, this`bricks, this`moles, this`events
      ensures Valid()
      ensures Ticked(snap, dt, now, step, catchRoll, moleRoll)
    {
      if snap.level == 2 {
        CatcherFrame(dt, catchRoll, now);
      } else if snap.level == 3 {
        BreakoutFrame(dt);
      } else if snap.level == 4 {
        TickMoles(dt, moleRoll, now);
      } else if snap.level <= 0 {
        Move(snap.level, dt);
      }
    }
  }

  /** The catcher's forEach: advance every item by speed * dt and resolve it against the catcher at px. */
  method ResolveFalling(items: seq<FallingItem>, px: real, dt: real, score0: int) returns (next: seq<FallingItem>, score: int, raised: seq<Event>)
    ensures CatchFold(items, px, dt, score0) == CatchRun(next, score, raised)
  {
    next := [];
    score := score0;
    raised := [];
    var i := 0;
    while i < |items|
      invariant 0 <= i <= |items|
      invariant CatchFold(items[..i], px, dt, score0) == CatchRun(next, score, raised)
    {
      assert items[..i + 1][..i] == items[..i];
      ghost var run := CatchRun(next, score, raised);
      var item := items[i];
      item := item.(y := item.y + item.speed * dt);
      assert item == Fall(items[i], dt);
      if 80.0 < item.y < 95.0 && Abs(item.x - px) < 8.0 {
        if item.kind == Good {
          score := score + 10;
        } else if item.kind == Bonus {
          score := score + 20;
        } else if item.kind == BribeBag {
          score := score + 30;
          raised := raised + [Collect(Bribe)];
        } else {
          raised := raised + [Stun];
        }
        if score >= 100 && score - 10 < 100 {
          raised := raised + [Collect(Brick), Collect(Blueprint)];
        }
        assert raised == run.events + CatchEvents(item.kind, score);
      } else if item.y < 100.0 {
        next := next + [item];
      }
      assert CatchRun(next, score, raised) == CatchStep(run, items[i], px, dt);
      i := i + 1;
    }
    assert items[..i] == items;
  }

  /** The breakout forEach over the wall for a ball at (x, y): drop inactive bricks, remove hit ones and flip dy. */
  method BreakWall(wall: seq<WallBrick>, x: real, y: real, dy0: real) returns (remaining: seq<WallBrick>, dy: real)
    ensures remaining == BrickFold(wall, x, y, dy0).kept && dy == BrickFold(wall, x, y, dy0).dy
  {
    remaining := [];
    dy := dy0;
    ghost var hits := 0;
    var i := 0;
    while i < |wall|
      invariant 0 <= i <= |wall|
      invariant BrickFold(wall[..i], x, y, dy0) == BrickRun(remaining, dy, hits)
    {
      assert wall[..i + 1][..i] == wall[..i];
      ghost var run := BrickRun(remaining, dy, hits);
      var b := wall[i];
      if b.active {
        if Abs(x - b.x) < 6.0 && Abs(y - b.y) < 4.0 {
          dy := -dy;
          hits := hits + 1;
        } else {
          remaining := remaining + [b];
        }
      }
      assert BrickRun(remaining, dy, hits) == BrickStep(run, b, x, y);
      i := i + 1;
    }
    assert wall[..i] == wall;
  }

  /** The whack-a-mole forEach: age every mole by dt, keep the live ones, count expired non-residents. */
  method AgeMoles(moles: seq<Mole>, dt: real) returns (next: seq<Mole>, strikes: nat)
    ensures AgeFold(moles, dt) == MoleRun(next, strikes)
  {
    next := [];
    strikes := 0;
    var i := 0;
    while i < |moles|
      invariant 0 <= i <= |moles|
      invariant AgeFold(moles[..i], dt) == MoleRun(next, strikes)
    {
      assert moles[..i + 1][..i] == moles[..i];
      var m := moles[i];
      m := m.(lifeTime := m.lifeTime + dt);
      if m.lifeTime < m.maxLife {
        next := next + [m];
      } else if m.kind != Resident {
        strikes := strikes + 1;
      }
      i := i + 1;
    }
    assert moles[..i] == moles;
  }

  /** The level-1 staff loop: five NORMAL employees holding the parts, then the BIM manager. */
  method SpawnStaff(rolls: seq<real>) returns (staff: seq<Employee>)
    requires |rolls| >= 12
    ensures staff == Staff(rolls)
  {
    staff := [];
    var i := 0;
    while i < 5
      invariant 0 <= i <= 5 && |staff| == i
      invariant forall j :: 0 <= j < i ==> staff[j] == Employee(j, Spot(rolls[2 * j], rolls[2 * j + 1]), Normal, false, 1, BlueprintTypes[j])
    {
      staff := staff + [Employee(i, Spot(rolls[2 * i], rolls[2 * i + 1]), Normal, false, 1, BlueprintTypes[i])];
      i := i + 1;
    }
    staff := staff + [Employee(99, Spot(rolls[10], rolls[11]), Bim, false, 1, "bribe")];
  }

  /** The level-1 bribe loop. */
  method SpawnBribes(rolls: seq<real>) returns (spawned: seq<BribeItem>)
    requires |rolls| >= 20
    ensures spawned == Bribes(rolls)
  {
    spawned := [];
    var i := 0;
    while i < 4
      invariant 0 <= i <= 4 && |spawned| == i
      invariant forall j :: 0 <= j < i ==> spawned[j] == BribeItem(j, Spot(rolls[12 + 2 * j], rolls[13 + 2 * j]))
    {
      spawned := spawned + [BribeItem(i, Spot(rolls[12 + 2 * i], rolls[13 + 2 * i]))];
      i := i + 1;
    }
  }

  /** The level-3 nested row and column loops. */
  method BuildWall() returns (wall: seq<WallBrick>)
    ensures wall == Wall()
  {
    wall := [];
    var r := 0;
    while r < 4
      invariant 0 <= r <= 4 && |wall| == r * 8
      invariant forall k :: 0 <= k < |wall| ==> wall[k] == BrickAt(k / 8, k % 8)
    {
      var c := 0;
      while c < 8
        invariant 0 <= c <= 8 && |wall| == r * 8 + c
        invariant forall k :: 0 <= k < |wall| ==> wall[k] == BrickAt(k / 8, k % 8)
      {
        assert (r * 8 + c) / 8 == r && (r * 8 + c) % 8 == c;
        wall := wall + [BrickAt(r, c)];
        c := c + 1;
      }
      r := r + 1;
    }
  }

  /** The ball's move, wall bounces, loss and paddle contact for one frame, as the statements of the frame do them. */
  method FlyBall(b: Ball, px: real, dt: real) returns (f: Ball)
    ensures f == Flight(b, px, dt)
  {
    assert Flight(b, px, dt) == Bounce(b, b.x + b.dx * dt, b.y + b.dy * dt, px);
    var x := b.x + b.dx * dt;
    var y := b.y + b.dy * dt;
    var dx := b.dx;
    var dy := b.dy;
    if x <= 0.0 || x >= 100.0 {
      dx := -dx;
    }
    if y <= 0.0 {
      dy := -dy;
    }
    var active := b.active;
    if y >= 100.0 {
      active := false;
    }
    if 88.0 <= y <= 92.0 && Abs(x - px) < 10.0 {
      dy := -Abs(dy);
      dx := dx + (x - px) * 0.002;
    }
    f := Ball(x, y, dx, dy, active);
  }
}
