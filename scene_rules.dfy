/**
 * The per-frame rules of components/GameScene.tsx stated on values: the
 * entity records of the four mini-games and, for each step the frame
 * callback takes, a function giving its outcome.  The class in scene.dfy
 * applies these steps to its fields and is proved against them.
 *
 * Coordinates are percentages of the scene; `Math.hypot(..) < r` is written
 * as a comparison of squared distances.  Every callback into the App
 * component becomes an Event.
 */
module SceneRules {
  import opened Common
  import opened Catalog
  import Progression

  datatype Point = Point(x: real, y: real)

  function DistSq(a: Point, b: Point): (d: real)
    ensures d >= 0.0
  {
    (a.x - b.x) * (a.x - b.x) + (a.y - b.y) * (a.y - b.y)
  }

  /** onCollectItem(item), onStunned(), onConsumeItem(id). */
  datatype Event = Collect(item: Item) | Stun | Consume(itemId: string)

  /**
   * The values the running frame callback reads from props and component
   * state.  They are the ones captured when the loop effect last started
   * (on a change of level, isHandover or isPaused), and every frame of that
   * run reads the same ones.
   */
  datatype Snapshot = Snapshot(
    level: int,
    inventory: seq<Item>,
    isPaused: bool,
    isHandover: bool,
    kimDistracted: bool,
    kimFrozenUntil: int)

  predicate IsRoll(v: real) {
    0.0 <= v < 1.0
  }

  const PlayerSpawn := Point(50.0, 70.0)
  const PaddleSpawn := Point(50.0, 90.0)
  const ChaserSpawn := Point(10.0, 10.0)

  // ---------------------------------------------------------------------
  // Shared player movement (GameScene.tsx:326-357)

  const ArrowLeft := "ArrowLeft"
  const ArrowRight := "ArrowRight"
  const ArrowUp := "ArrowUp"
  const ArrowDown := "ArrowDown"

  predicate InField(p: Point) {
    5.0 <= p.x <= 95.0 && 5.0 <= p.y <= 95.0
  }

  /** Math.max(5, Math.min(95, v)) */
  function Clamp(v: real): (r: real)
    ensures 5.0 <= r <= 95.0
    ensures 5.0 <= v <= 95.0 ==> r == v
    ensures v < 5.0 ==> r == 5.0
    ensures v > 95.0 ==> r == 95.0
  {
    if 95.0 < v then 95.0 else if v < 5.0 then 5.0 else v
  }

  function PlayerSpeed(level: int, dt: real): real {
    if level == 2 || level == 3 then 0.08 * dt else 0.05 * dt
  }

  /** One frame of held-key movement; only levels up to 3 move the player. */
  function MoveStep(level: int, pos: Point, keys: set<string>, dt: real): (r: Point)
    ensures level > 3 || dt == 0.0 ==> r == pos
    ensures r == pos || InField(r)
    ensures InField(pos) ==> InField(r)
    ensures (level == 2 || level == 3) && r != pos ==> r.y == 90.0
    ensures level == 1 && r != pos && (ArrowUp in keys <==> ArrowDown in keys) ==> r.y == Clamp(pos.y)
  {
    if level > 3 then pos
    else
      var speed := PlayerSpeed(level, dt);
      var dx := (if ArrowLeft in keys then -speed else 0.0) + (if ArrowRight in keys then speed else 0.0);
      var dy :=
        if level == 1 then (if ArrowUp in keys then -speed else 0.0) + (if ArrowDown in keys then speed else 0.0)
        else 0.0;
      if dx == 0.0 && dy == 0.0 then pos
      else
        var newY := Clamp(pos.y + dy);
        Point(Clamp(pos.x + dx), if level == 2 || level == 3 then 90.0 else newY)
  }

  /**
   * The displacement of one frame of movement: each held arrow key moves the
   * player by the level's speed in its direction (0.05 dt at level 1, 0.08 dt
   * at levels 2 and 3), opposite keys cancel, and the new coordinates are
   * clamped to the field.
   */
  lemma MoveKeys(level: int, pos: Point, keys: set<string>, dt: real)
    requires level <= 3 && dt != 0.0
    ensures var r := MoveStep(level, pos, keys, dt);
      var v := PlayerSpeed(level, dt);
      && (ArrowRight in keys && ArrowLeft !in keys ==> r.x == Clamp(pos.x + v))
      && (ArrowLeft in keys && ArrowRight !in keys ==> r.x == Clamp(pos.x - v))
      && ((ArrowLeft in keys <==> ArrowRight in keys) && r != pos ==> r.x == Clamp(pos.x))
      && (level == 1 && ArrowDown in keys && ArrowUp !in keys ==> r.y == Clamp(pos.y + v))
      && (level == 1 && ArrowUp in keys && ArrowDown !in keys ==> r.y == Clamp(pos.y - v))
      && ((level == 2 || level == 3) && (ArrowLeft in keys <==> ArrowRight !in keys) ==> r.y == 90.0)
      && ((ArrowLeft in keys <==> ArrowRight in keys) && (level != 1 || (ArrowUp in keys <==> ArrowDown in keys)) ==> r == pos)
  {
    assert PlayerSpeed(level, dt) != 0.0;
  }

  /** Vertical keys act only at level 1. */
  lemma VerticalKeysOnlyAtLevelOne(level: int, pos: Point, keys: set<string>, dt: real)
    requires level != 1
    ensures MoveStep(level, pos, keys, dt) == MoveStep(level, pos, keys - {ArrowUp, ArrowDown}, dt)
  {
  }

  // ---------------------------------------------------------------------
  // Level 1: bribe pickup (GameScene.tsx:370-390)

  datatype BribeItem = BribeItem(id: int, at: Point)

  predicate InReach(b: BribeItem, p: Point) {
    DistSq(p, b.at) < 25.0
  }

  /** The bribes left on the floor after the player at p picks up every one in reach. */
  function KeptBribes(bs: seq<BribeItem>, p: Point): (r: seq<BribeItem>)
    ensures |r| <= |bs|
    decreases |bs|
  {
    if bs == [] then []
    else KeptBribes(bs[..|bs| - 1], p) + (if InReach(bs[|bs| - 1], p) then [] else [bs[|bs| - 1]])
  }

  /** The bribes kept are exactly those out of reach. */
  lemma {:induction false} KeptBribesMembers(bs: seq<BribeItem>, p: Point)
    ensures forall b :: b in KeptBribes(bs, p) <==> b in bs && !InReach(b, p)
    decreases |bs|
  {
    if bs != [] {
      var init := bs[..|bs| - 1];
      assert bs == init + [bs[|bs| - 1]];
      KeptBribesMembers(init, p);
    }
  }

  /** How many bribes the player at p picks up. */
  function PickedUp(bs: seq<BribeItem>, p: Point): nat
    decreases |bs|
  {
    if bs == [] then 0
    else PickedUp(bs[..|bs| - 1], p) + (if InReach(bs[|bs| - 1], p) then 1 else 0)
  }

  /** n copies of one event. */
  function Copies(e: Event, n: nat): (r: seq<Event>)
    ensures |r| == n && forall i :: 0 <= i < n ==> r[i] == e
  {
    if n == 0 then [] else Copies(e, n - 1) + [e]
  }

  /** Every bribe is either picked up or kept, and the kept ones keep their order. */
  lemma {:induction false} PickupPartitions(bs: seq<BribeItem>, p: Point)
    ensures |KeptBribes(bs, p)| + PickedUp(bs, p) == |bs|
    ensures PickedUp(bs, p) == 0 ==> KeptBribes(bs, p) == bs
    decreases |bs|
  {
    if bs != [] {
      PickupPartitions(bs[..|bs| - 1], p);
      assert bs[..|bs| - 1] + [bs[|bs| - 1]] == bs;
    }
  }

  lemma {:induction false} KeptBribesAppend(a: seq<BribeItem>, b: seq<BribeItem>, p: Point)
    ensures KeptBribes(a + b, p) == KeptBribes(a, p) + KeptBribes(b, p)
    decreases |b|
  {
    if b == [] {
      assert a + b == a;
    } else {
      var b' := b[..|b| - 1];
      assert (a + b)[..|a + b| - 1] == a + b';
      KeptBribesAppend(a, b', p);
    }
  }

  // ---------------------------------------------------------------------
  // Level 1: waking employees (GameScene.tsx:392-442)

  datatype EmployeeKind = Normal | Bim

  datatype Employee = Employee(id: int, at: Point, kind: EmployeeKind, isAwake: bool, hp: int, drops: string)

  /** employees.find(e => e.id === id) */
  function FindEmployee(es: seq<Employee>, id: int): (r: Option<Employee>)
    ensures r.Some? ==> r.value in es && r.value.id == id
    decreases |es|
  {
    if es == [] then None
    else if es[0].id == id then Some(es[0])
    else FindEmployee(es[1..], id)
  }

  /** The lookup fails exactly when no employee has the id. */
  lemma {:induction false} FindEmployeeNone(es: seq<Employee>, id: int)
    ensures FindEmployee(es, id).None? <==> forall i :: 0 <= i < |es| ==> es[i].id != id
    decreases |es|
  {
    if es != [] && es[0].id != id {
      FindEmployeeNone(es[1..], id);
      assert forall i :: 0 < i < |es| ==> es[i] == es[1..][i - 1];
    }
  }

  predicate SleepingNear(e: Employee, p: Point) {
    !e.isAwake && DistSq(p, e.at) < 225.0
  }

  /** employees.find(e => !e.isAwake && hypot(..) < 15): the first sleeper in range. */
  function FirstSleeperNear(es: seq<Employee>, p: Point): (r: Option<int>)
    ensures r.Some? ==> 0 <= r.value < |es| && SleepingNear(es[r.value], p)
    decreases |es|
  {
    if es == [] then None
    else if SleepingNear(es[0], p) then Some(0)
    else
      match FirstSleeperNear(es[1..], p)
      case None => None
      case Some(k) => assert es[1..][k] == es[k + 1]; Some(k + 1)
  }

  /** The sleeper found is the first one in range, and none is found only when nobody sleeps in range. */
  lemma {:induction false} FirstSleeperNearIsFirst(es: seq<Employee>, p: Point)
    ensures var r := FirstSleeperNear(es, p);
      && (r.Some? ==> forall j :: 0 <= j < r.value ==> !SleepingNear(es[j], p))
      && (r.None? <==> forall j :: 0 <= j < |es| ==> !SleepingNear(es[j], p))
    decreases |es|
  {
    if es != [] && !SleepingNear(es[0], p) {
      FirstSleeperNearIsFirst(es[1..], p);
      assert forall i :: 0 < i < |es| ==> es[i] == es[1..][i - 1];
    }
  }

  /** employees.map(e => e.id === id ? { ...e, isAwake: true } : e) */
  function WakeAll(es: seq<Employee>, id: int): (r: seq<Employee>)
    ensures |r| == |es|
    decreases |es|
  {
    if es == [] then [] else [if es[0].id == id then es[0].(isAwake := true) else es[0]] + WakeAll(es[1..], id)
  }

  /** Exactly the employees with the id are woken; everything else about every employee stays. */
  lemma {:induction false} WakeAllWakes(es: seq<Employee>, id: int)
    ensures forall i :: 0 <= i < |es| ==> WakeAll(es, id)[i] == if es[i].id == id then es[i].(isAwake := true) else es[i]
    decreases |es|
  {
    if es != [] {
      WakeAllWakes(es[1..], id);
    }
  }

  /** handleEmployeeDrop: the collect callback for the employee's drop, when the catalog has it. */
  function DropEvents(e: Employee): (es: seq<Event>)
    ensures e.drops !in ItemsDb ==> es == []
    ensures e.drops in ItemsDb ==> es == [Collect(ItemsDb[e.drops])] && es[0].item.id == e.drops
  {
    EntryIdIsKey(e.drops);
    match Lookup(e.drops)
    case None => []
    case Some(item) => [Collect(item)]
  }

  /** Math.random() * 80 + 10, Math.random() * 50 + 20 */
  function Spot(rx: real, ry: real): Point {
    Point(rx * 80.0 + 10.0, ry * 50.0 + 20.0)
  }

  /** The level-1 staff: five NORMAL employees 0..4 holding the five parts, then the BIM manager 99 holding a bribe. */
  function Staff(rolls: seq<real>): (es: seq<Employee>)
    requires |rolls| >= 12
    ensures |es| == 6
  {
    seq(5, i requires 0 <= i < 5 => Employee(i, Spot(rolls[2 * i], rolls[2 * i + 1]), Normal, false, 1, BlueprintTypes[i]))
    + [Employee(99, Spot(rolls[10], rolls[11]), Bim, false, 1, "bribe")]
  }

  /** The level-1 bribes: four money bags with ids 0..3, placed by draws 12..19. */
  function Bribes(rolls: seq<real>): (bs: seq<BribeItem>)
    requires |rolls| >= 20
    ensures |bs| == 4
  {
    seq(4, i requires 0 <= i < 4 => BribeItem(i, Spot(rolls[12 + 2 * i], rolls[13 + 2 * i])))
  }

  /** The staff in order: the five NORMAL employees 0..4 holding the parts, then the BIM manager 99. */
  lemma StaffLayout(rolls: seq<real>)
    requires |rolls| >= 12
    ensures var es := Staff(rolls);
      && (forall i :: 0 <= i < 5 ==> es[i] == Employee(i, Spot(rolls[2 * i], rolls[2 * i + 1]), Normal, false, 1, BlueprintTypes[i]))
      && es[5] == Employee(99, Spot(rolls[10], rolls[11]), Bim, false, 1, "bribe")
  {
  }

  /** Every freshly spawned employee sleeps, and its id finds exactly it. */
  lemma StaffAsleepAndFound(rolls: seq<real>)
    requires |rolls| >= 12
    ensures var es := Staff(rolls);
      forall i :: 0 <= i < 6 ==> !es[i].isAwake && FindEmployee(es, es[i].id) == Some(es[i])
  {
    var es := Staff(rolls);
    StaffLayout(rolls);
    forall i | 0 <= i < 6 ensures FindEmployee(es, es[i].id) == Some(es[i]) {
      FindByDistinctId(es, i);
    }
  }

  /** What the staff drop is the five parts, each a `key` item, and one bribe. */
  lemma StaffDrops(rolls: seq<real>)
    requires |rolls| >= 12
    ensures var es := Staff(rolls);
      && (forall i :: 0 <= i < 5 ==> DropEvents(es[i]) == [Collect(ItemsDb[BlueprintTypes[i]])] && ItemsDb[BlueprintTypes[i]].category == Key)
      && DropEvents(es[5]) == [Collect(Bribe)]
  {
    StaffLayout(rolls);
    PartsAreKeyItems();
  }

  lemma {:induction false} FindByDistinctId(es: seq<Employee>, i: int)
    requires 0 <= i < |es|
    requires forall j :: 0 <= j < |es| && j != i ==> es[j].id != es[i].id
    ensures FindEmployee(es, es[i].id) == Some(es[i])
    decreases |es|
  {
    if i > 0 {
      assert es[0].id != es[i].id;
      assert es[1..][i - 1] == es[i];
      FindByDistinctId(es[1..], i - 1);
    }
  }

  /** Everything the interaction step touches. */
  datatype Interaction = Interaction(employees: seq<Employee>, targetId: Option<int>, progress: real)

  /** The interaction's new state and the employee it woke, if any. */
  datatype Interacted = Interacted(next: Interaction, woke: Option<Employee>)

  /** Progress is dropped when the target is gone, 20 or more away, or awake (GameScene.tsx:397-406). */
  function Release(st: Interaction, p: Point): (r: Interaction)
    ensures r == st || r == st.(progress := 0.0, targetId := None)
    ensures st.targetId.None? ==> r == st
  {
    match st.targetId
    case None => st
    case Some(id) =>
      var t := FindEmployee(st.employees, id);
      if t.None? || DistSq(p, t.value.at) >= 400.0 || t.value.isAwake then st.(progress := 0.0, targetId := None)
      else st
  }

  /** One frame of the action-key interaction (GameScene.tsx:397-442). */
  function InteractStep(st: Interaction, p: Point, spaceDown: bool, dt: real): (r: Interacted)
    ensures !spaceDown ==> r == Interacted(Release(st, p), None)
    ensures r.woke.Some? ==> spaceDown && r.next.progress == 0.0 && r.next.targetId == Some(r.woke.value.id)
  {
    var st1 := Release(st, p);
    if !spaceDown then Interacted(st1, None)
    else
      match FirstSleeperNear(st1.employees, p)
      case None => Interacted(st1, None)
      case Some(k) =>
        var e := st1.employees[k];
        if e.kind == Bim then
          var progress := st1.progress + 0.1 * dt;
          if progress >= 100.0 then Interacted(Interaction(WakeAll(st1.employees, e.id), Some(e.id), 0.0), Some(e))
          else Interacted(st1.(targetId := Some(e.id), progress := progress), None)
        else Interacted(Interaction(WakeAll(st1.employees, e.id), Some(e.id), 0.0), Some(e))
  }

  /**
   * The interaction never puts an employee back to sleep and never moves,
   * adds or removes one; whoever it wakes was the first sleeper in range.
   */
  lemma InteractionKeepsStaff(st: Interaction, p: Point, spaceDown: bool, dt: real)
    ensures var r := InteractStep(st, p, spaceDown, dt);
      && |r.next.employees| == |st.employees|
      && (forall i :: 0 <= i < |st.employees| ==>
            && r.next.employees[i].id == st.employees[i].id
            && r.next.employees[i].at == st.employees[i].at
            && r.next.employees[i].kind == st.employees[i].kind
            && (st.employees[i].isAwake ==> r.next.employees[i].isAwake))
      && (r.woke.Some? ==> spaceDown && exists k :: FirstSleeperNear(st.employees, p) == Some(k) && st.employees[k] == r.woke.value)
  {
    var st1 := Release(st, p);
    assert st1.employees == st.employees;
    match FirstSleeperNear(st.employees, p)
    case None =>
    case Some(k) => WakeAllWakes(st.employees, st.employees[k].id);
  }

  /** A sleeping NORMAL employee first in range wakes on the first held frame and drops its item. */
  lemma NormalWakesAtOnce(st: Interaction, p: Point, dt: real, k: int)
    requires FirstSleeperNear(st.employees, p) == Some(k) && st.employees[k].kind == Normal
    ensures var r := InteractStep(st, p, true, dt);
      && r.woke == Some(st.employees[k]) && r.next.progress == 0.0
      && r.next.employees[k].isAwake
  {
    assert Release(st, p).employees == st.employees;
    WakeAllWakes(st.employees, st.employees[k].id);
  }

  /**
   * A sleeping BIM manager first in range gains 0.1 dt progress; it wakes
   * when the progress reaches 100, after which progress restarts at 0.
   */
  lemma BimAccumulates(st: Interaction, p: Point, dt: real, k: int)
    requires FirstSleeperNear(st.employees, p) == Some(k) && st.employees[k].kind == Bim
    ensures var r := InteractStep(st, p, true, dt);
      var before := Release(st, p).progress;
      && (before + 0.1 * dt >= 100.0 ==> r.woke == Some(st.employees[k]) && r.next.progress == 0.0 && r.next.employees[k].isAwake)
      && (before + 0.1 * dt < 100.0 ==> r.woke.None? && r.next.progress == before + 0.1 * dt && r.next.employees == st.employees)
      && (before == 0.0 || before == st.progress)
  {
    assert Release(st, p).employees == st.employees;
    WakeAllWakes(st.employees, st.employees[k].id);
  }

  /** Progress is zero whenever the remembered target is missing, too far or awake. */
  lemma ReleaseResets(st: Interaction, p: Point)
    requires st.targetId.Some?
    requires var t := FindEmployee(st.employees, st.targetId.value);
      t.None? || DistSq(p, t.value.at) >= 400.0 || t.value.isAwake
    ensures Release(st, p).progress == 0.0 && Release(st, p).targetId.None?
  {
  }

  // ---------------------------------------------------------------------
  // Level 1: the chaser (GameScene.tsx:444-476)

  /** Where the player and chaser end up, the freeze deadline, and the callbacks raised. */
  datatype Chased = Chased(player: Point, chaser: Point, frozenUntil: int, events: seq<Event>)

  /**
   * One frame of the chase.  `step` is the normalised pursuit step
   * (dx/dist, dy/dist) * 0.02 dt, which needs a square root and is supplied
   * by the caller.  `frozenUntil` is the current freeze deadline in component
   * state; the frame itself reads the deadline in its snapshot.
   */
  function ChaseStep(player: Point, chaser: Point, frozenUntil: int, snap: Snapshot, now: int, step: Point): (r: Chased)
    ensures r.events == [] || r.events == [Stun] || r.events == [Consume("bribe")]
  {
    if now < snap.kimFrozenUntil || snap.kimDistracted then Chased(player, chaser, frozenUntil, [])
    else if DistSq(player, chaser) > 25.0 then
      Chased(player, Point(chaser.x + step.x, chaser.y + step.y), frozenUntil, [])
    else if Progression.HasId(snap.inventory, "bribe") then
      Chased(player, ChaserSpawn, now + 2000, [Consume("bribe")])
    else
      Chased(PlayerSpawn, ChaserSpawn, frozenUntil, [Stun])
  }

  /**
   * A frozen or distracted chaser does nothing; one farther than 5 away only
   * moves; a capture sends the chaser home and either spends a bribe for a
   * two-second freeze or stuns the player back to the spawn point.
   */
  lemma ChaseRules(player: Point, chaser: Point, frozenUntil: int, snap: Snapshot, now: int, step: Point)
    ensures var r := ChaseStep(player, chaser, frozenUntil, snap, now, step);
      && (now < snap.kimFrozenUntil || snap.kimDistracted ==> r == Chased(player, chaser, frozenUntil, []))
      && (!(now < snap.kimFrozenUntil || snap.kimDistracted) && DistSq(player, chaser) <= 25.0 ==>
            && r.chaser == ChaserSpawn
            && (Progression.HasId(snap.inventory, "bribe") ==>
                  r.events == [Consume("bribe")] && r.frozenUntil == now + 2000 && r.player == player)
            && (!Progression.HasId(snap.inventory, "bribe") ==>
                  r.events == [Stun] && r.frozenUntil == frozenUntil && r.player == PlayerSpawn))
      && (DistSq(player, chaser) > 25.0 ==> r.player == player && r.events == [] && r.frozenUntil == frozenUntil)
  {
  }

  /**
   * Within one run of the frame loop the chase reads only what the loop
   * captured when it started: a freeze deadline written to component state
   * since (the BIM's or a bribe's) never stops the chaser, and bribes picked
   * up since neither distract it nor buy immunity.
   */
  lemma ChaseReadsOnlySnapshot(player: Point, chaser: Point, f1: int, f2: int, snap: Snapshot, now: int, step: Point)
    requires now >= snap.kimFrozenUntil && !snap.kimDistracted
    ensures var a := ChaseStep(player, chaser, f1, snap, now, step);
      var b := ChaseStep(player, chaser, f2, snap, now, step);
      a.player == b.player && a.chaser == b.chaser && a.events == b.events
    ensures DistSq(player, chaser) > 25.0 ==> ChaseStep(player, chaser, f1, snap, now, step).chaser == Point(chaser.x + step.x, chaser.y + step.y)
    ensures Progression.CountId(snap.inventory, "bribe") == 0 && DistSq(player, chaser) <= 25.0 ==>
      ChaseStep(player, chaser, f1, snap, now, step).events == [Stun] && !Distracted(false, snap)
  {
    Progression.CountIdPositive(snap.inventory, "bribe");
  }

  /** Distraction: three bribes in the snapshot's inventory set kimDistracted (GameScene.tsx:362-367). */
  function Distracted(current: bool, snap: Snapshot): (r: bool)
    ensures current ==> r
    ensures r <==> current || (Progression.CountId(snap.inventory, "bribe") >= 3 && !snap.kimDistracted)
  {
    if Progression.CountId(snap.inventory, "bribe") >= 3 && !snap.kimDistracted then true else current
  }

  /** The level-1 state one frame reads and writes, with the callbacks raised so far. */
  datatype Stealth = Stealth(
    pos: Point,
    kimPos: Point,
    employees: seq<Employee>,
    targetId: Option<int>,
    progress: real,
    bribes: seq<BribeItem>,
    frozenUntil: int,
    distracted: bool,
    events: seq<Event>)

  /**
   * The level-1 rules after the move, in source order (GameScene.tsx:359-476):
   * the distraction latch, the bribe pickup, the interaction, then the chase
   * on the snapshot's deadline.
   */
  function StealthStep(s: Stealth, spaceDown: bool, snap: Snapshot, dt: real, now: int, step: Point): (r: Stealth)
    ensures s.distracted ==> r.distracted
    ensures |r.events| >= |s.events| && r.events[..|s.events|] == s.events
    ensures |r.bribes| <= |s.bribes| && |r.employees| == |s.employees|
  {
    var st := InteractStep(Interaction(s.employees, s.targetId, s.progress), s.pos, spaceDown, dt);
    var drop := if st.woke.Some? then DropEvents(st.woke.value) else [];
    var frozen := if st.woke.Some? && st.woke.value.kind == Bim then now + 5000 else s.frozenUntil;
    var ch := ChaseStep(s.pos, s.kimPos, frozen, snap, now, step);
    var picked := Copies(Collect(Bribe), PickedUp(s.bribes, s.pos));
    assert (s.events + picked + drop + ch.events)[..|s.events|] == s.events;
    InteractionKeepsStaff(Interaction(s.employees, s.targetId, s.progress), s.pos, spaceDown, dt);
    Stealth(ch.player, ch.chaser, st.next.employees, st.next.targetId, st.next.progress,
            KeptBribes(s.bribes, s.pos), ch.frozenUntil, Distracted(s.distracted, snap),
            s.events + picked + drop + ch.events)
  }

  // ---------------------------------------------------------------------
  // Level 2: the catcher (GameScene.tsx:479-525)

  datatype FallKind = Good | Bad | Bonus | BribeBag

  datatype FallingItem = FallingItem(id: real, x: real, y: real, kind: FallKind, speed: real)

  /** The five Math.random() draws of one catcher frame, in call order. */
  datatype CatchRoll = CatchRoll(spawn: real, kind: real, idFraction: real, x: real, speed: real)

  /** types[Math.floor(v * 5)] over ['good', 'good', 'bad', 'bonus', 'bribe']. */
  function FallKindOf(v: real): (k: FallKind)
    requires IsRoll(v)
    ensures k == Good <==> v < 0.4
    ensures k == Bad <==> 0.4 <= v < 0.6
    ensures k == Bonus <==> 0.6 <= v < 0.8
    ensures k == BribeBag <==> 0.8 <= v
  {
    var n := (v * 5.0).Floor;
    if n <= 1 then Good else if n == 2 then Bad else if n == 3 then Bonus else BribeBag
  }

  /** The item a catcher frame spawns with probability 0.03. */
  function Spawned(items: seq<FallingItem>, roll: CatchRoll, now: int): (r: seq<FallingItem>)
    requires IsRoll(roll.kind)
    ensures roll.spawn >= 0.03 ==> r == items
    ensures roll.spawn < 0.03 ==> |r| == |items| + 1 && r[..|items|] == items
    ensures roll.spawn < 0.03 && IsRoll(roll.x) && IsRoll(roll.speed) ==>
      var it := r[|items|];
      it.y == -10.0 && 5.0 <= it.x < 95.0 && 0.02 <= it.speed < 0.05 && it.kind == FallKindOf(roll.kind)
  {
    if roll.spawn < 0.03 then
      items + [FallingItem(now as real + roll.idFraction, roll.x * 90.0 + 5.0, -10.0, FallKindOf(roll.kind), roll.speed * 0.03 + 0.02)]
    else items
  }

  function Fall(it: FallingItem, dt: real): (r: FallingItem)
    ensures r.x == it.x && r.speed == it.speed && r.kind == it.kind
    ensures it.speed >= 0.0 && dt >= 0.0 ==> r.y >= it.y
  {
    it.(y := it.y + it.speed * dt)
  }

  /** The catch band: 80 < y < 95 and within 8 of the catcher. */
  predicate Caught(it: FallingItem, px: real)
    ensures Caught(it, px) ==> it.y < 100.0
  {
    80.0 < it.y < 95.0 && Abs(it.x - px) < 8.0
  }

  function Gain(k: FallKind): (g: int)
    ensures g >= 0 && (g == 0 <==> k == Bad)
  {
    match k
    case Good => 10
    case Bonus => 20
    case BribeBag => 30
    case Bad => 0
  }

  /** The win check as written: score >= 100 && score - 10 < 100. */
  predicate RewardWindow(score: int) {
    score >= 100 && score - 10 < 100
  }

  /** Callbacks raised by one resolved catch, given the score after it. */
  function CatchEvents(k: FallKind, score: int): (es: seq<Event>)
    ensures |es| <= 3
  {
    (if k == BribeBag then [Collect(Bribe)] else if k == Bad then [Stun] else [])
    + (if RewardWindow(score) then [Collect(Brick), Collect(Blueprint)] else [])
  }

  /** A catch stuns exactly for a bad item and hands over a bribe exactly for a bribe bag. */
  lemma CatchEventsOwn(k: FallKind, score: int)
    ensures (Stun in CatchEvents(k, score)) <==> k == Bad
    ensures (Collect(Bribe) in CatchEvents(k, score)) <==> k == BribeBag
  {
    assert Bribe != Brick && Bribe != Blueprint;
  }

  datatype CatchRun = CatchRun(kept: seq<FallingItem>, score: int, events: seq<Event>)

  /** One item of the forEach: it falls, then it is caught, kept, or lost off the bottom. */
  function CatchStep(run: CatchRun, item: FallingItem, px: real, dt: real): (r: CatchRun)
    ensures |r.kept| <= |run.kept| + 1 && r.score >= run.score
  {
    var it := Fall(item, dt);
    if Caught(it, px) then
      var newScore := run.score + Gain(it.kind);
      CatchRun(run.kept, newScore, run.events + CatchEvents(it.kind, newScore))
    else if it.y < 100.0 then CatchRun(run.kept + [it], run.score, run.events)
    else run
  }

  /** The forEach over the falling items, front to back. */
  function CatchFold(items: seq<FallingItem>, px: real, dt: real, score: int): (r: CatchRun)
    ensures |r.kept| <= |items|
    ensures r.score >= score
    decreases |items|
  {
    if items == [] then CatchRun([], score, [])
    else CatchStep(CatchFold(items[..|items| - 1], px, dt, score), items[|items| - 1], px, dt)
  }

  /** Survivors are uncaught, still above the bottom edge, and in the order they fell. */
  lemma {:induction false} CatchFoldSurvivors(items: seq<FallingItem>, px: real, dt: real, score: int)
    ensures forall it :: it in CatchFold(items, px, dt, score).kept ==> !Caught(it, px) && it.y < 100.0
    decreases |items|
  {
    if items != [] {
      CatchFoldSurvivors(items[..|items| - 1], px, dt, score);
    }
  }

  /** The fold over a concatenation is the second fold started where the first one ended. */
  lemma {:induction false} CatchFoldAppend(a: seq<FallingItem>, b: seq<FallingItem>, px: real, dt: real, score: int)
    ensures var ra := CatchFold(a, px, dt, score);
      var rb := CatchFold(b, px, dt, ra.score);
      CatchFold(a + b, px, dt, score) == CatchRun(ra.kept + rb.kept, rb.score, ra.events + rb.events)
    decreases |b|
  {
    if b == [] {
      assert a + b == a;
    } else {
      var b' := b[..|b| - 1];
      assert (a + b)[..|a + b| - 1] == a + b';
      CatchFoldAppend(a, b', px, dt, score);
      var ra := CatchFold(a, px, dt, score);
      CatchStepShift(ra.kept, ra.events, CatchFold(b', px, dt, ra.score), b[|b| - 1], px, dt);
    }
  }

  /** A step does not look at what was kept or raised before it. */
  lemma CatchStepShift(kept: seq<FallingItem>, events: seq<Event>, run: CatchRun, item: FallingItem, px: real, dt: real)
    ensures var r := CatchStep(run, item, px, dt);
      CatchStep(CatchRun(kept + run.kept, run.score, events + run.events), item, px, dt) == CatchRun(kept + r.kept, r.score, events + r.events)
  {
  }

  /** An item that fell into the band resolves there; one that is not caught survives iff y < 100. */
  lemma CatchOne(it: FallingItem, px: real, dt: real, score: int)
    ensures var r := CatchFold([it], px, dt, score);
      var f := Fall(it, dt);
      && (Caught(f, px) ==> r == CatchRun([], score + Gain(it.kind), CatchEvents(it.kind, score + Gain(it.kind))))
      && (!Caught(f, px) ==> r.score == score && r.events == [] && (r.kept == [f] <==> f.y < 100.0) && (f.y >= 100.0 ==> r.kept == []))
  {
    assert [it][..0] == [];
  }

  /** The reward is issued exactly when the post-catch score lies in [100, 110). */
  lemma RewardExactlyInWindow(k: FallKind, score: int)
    ensures (Collect(Blueprint) in CatchEvents(k, score)) <==> 100 <= score < 110
  {
    if !RewardWindow(score) {
      assert CatchEvents(k, score) == (if k == BribeBag then [Collect(Bribe)] else if k == Bad then [Stun] else []);
    }
  }

  /** A +20 catch from 90 jumps over the window: no reward, and the score can never return to it. */
  lemma BonusFromNinetySkipsReward(it: FallingItem, px: real, dt: real)
    requires it.kind == Bonus && Caught(Fall(it, dt), px)
    ensures CatchFold([it], px, dt, 90).score == 110
    ensures Collect(Blueprint) !in CatchFold([it], px, dt, 90).events
  {
    CatchOne(it, px, dt, 90);
    RewardExactlyInWindow(Bonus, 110);
  }

  /** A bad catch while the score sits in the window issues the reward again. */
  lemma BadCatchInWindowRegrants(it: FallingItem, px: real, dt: real)
    requires it.kind == Bad && Caught(Fall(it, dt), px)
    ensures CatchFold([it], px, dt, 100).events == [Stun, Collect(Brick), Collect(Blueprint)]
  {
    CatchOne(it, px, dt, 100);
  }

  /** Number of blueprint rewards among the events. */
  function Grants(es: seq<Event>): nat
    decreases |es|
  {
    if es == [] then 0 else Grants(es[..|es| - 1]) + (if es[|es| - 1] == Collect(Blueprint) then 1 else 0)
  }

  lemma {:induction false} GrantsAppend(a: seq<Event>, b: seq<Event>)
    ensures Grants(a + b) == Grants(a) + Grants(b)
    decreases |b|
  {
    if b == [] {
      assert a + b == a;
    } else {
      var b' := b[..|b| - 1];
      assert (a + b)[..|a + b| - 1] == a + b';
      GrantsAppend(a, b');
    }
  }

  predicate NoBadCatch(items: seq<FallingItem>, px: real, dt: real) {
    forall i :: 0 <= i < |items| && Caught(Fall(items[i], dt), px) ==> items[i].kind != Bad
  }

  /**
   * When no bad item is caught, every catch raises the score by at least 10
   * and the reward is issued at most once in one frame, however many
   * catches happen in it.
   */
  lemma {:induction false} RewardAtMostOnceWithoutBadCatches(items: seq<FallingItem>, px: real, dt: real, score: int)
    requires NoBadCatch(items, px, dt)
    ensures var r := CatchFold(items, px, dt, score);
      Grants(r.events) <= 1 && (Grants(r.events) == 1 ==> r.score >= 100)
    decreases |items|
  {
    if items != [] {
      var init := items[..|items| - 1];
      var last := items[|items| - 1];
      assert NoBadCatch(init, px, dt) by {
        forall i | 0 <= i < |init| && Caught(Fall(init[i], dt), px) ensures init[i].kind != Bad {
          assert items[i] == init[i];
        }
      }
      RewardAtMostOnceWithoutBadCatches(init, px, dt, score);
      var run := CatchFold(init, px, dt, score);
      var f := Fall(last, dt);
      if Caught(f, px) {
        var newScore := run.score + Gain(f.kind);
        GrantsAppend(run.events, CatchEvents(f.kind, newScore));
        CatchEventsGrants(f.kind, newScore);
      }
    }
  }

  /** One resolved catch grants the reward once inside the window and never outside it. */
  lemma CatchEventsGrants(k: FallKind, score: int)
    ensures Grants(CatchEvents(k, score)) == if RewardWindow(score) then 1 else 0
  {
    var reward := if RewardWindow(score) then [Collect(Brick), Collect(Blueprint)] else [];
    var own := if k == BribeBag then [Collect(Bribe)] else if k == Bad then [Stun] else [];
    GrantsAppend(own, reward);
    assert Grants(own) == 0 by {
      assert own == [] || own == [Collect(Bribe)] || own == [Stun];
      assert [Collect(Bribe)][..0] == [] && [Stun][..0] == [];
    }
    assert Grants(reward) == (if RewardWindow(score) then 1 else 0) by {
      assert [Collect(Brick), Collect(Blueprint)][..1] == [Collect(Brick)];
      assert [Collect(Brick)][..0] == [];
    }
  }

  // ---------------------------------------------------------------------
  // Level 3: breakout (GameScene.tsx:222-241, 283-291, 528-568)

  datatype Ball = Ball(x: real, y: real, dx: real, dy: real, active: bool)

  datatype WallBrick = WallBrick(id: int, x: real, y: real, active: bool, color: string)

  function RowColor(r: int): string {
    if r == 0 then "#f87171" else if r == 1 then "#fbbf24" else if r == 2 then "#4ade80" else "#60a5fa"
  }

  /** The brick in row r and column c of the 4-by-8 wall. */
  function BrickAt(r: int, c: int): (b: WallBrick)
    ensures b.active
  {
    WallBrick(r * 10 + c, (c * 12 + 5) as real, (r * 8 + 10) as real, true, RowColor(r))
  }

  /** The level-3 wall: rows 0..3, columns 0..7, in row-major order. */
  function Wall(): (w: seq<WallBrick>)
    ensures |w| == 32
  {
    seq(32, k requires 0 <= k < 32 => BrickAt(k / 8, k % 8))
  }

  /** Every brick of a fresh wall is standing, at its row and column, and no two share an id. */
  lemma WallLayout()
    ensures forall k :: 0 <= k < 32 ==> Wall()[k] == BrickAt(k / 8, k % 8) && Wall()[k].active
    ensures forall j, k :: 0 <= j < 32 && 0 <= k < 32 && j != k ==> Wall()[j].id != Wall()[k].id
  {
    forall j, k | 0 <= j < 32 && 0 <= k < 32 && j != k
      ensures Wall()[j].id != Wall()[k].id
    {
      assert j == (j / 8) * 8 + j % 8 && k == (k / 8) * 8 + k % 8;
      BrickIdsDistinct(j / 8, j % 8, k / 8, k % 8);
    }
  }

  /** Brick ids r*10+c are distinct over the wall, so each brick is hit at most once. */
  lemma BrickIdsDistinct(r1: int, c1: int, r2: int, c2: int)
    requires 0 <= r1 < 4 && 0 <= c1 < 8 && 0 <= r2 < 4 && 0 <= c2 < 8
    requires (r1, c1) != (r2, c2)
    ensures BrickAt(r1, c1).id != BrickAt(r2, c2).id
  {
    if r1 == r2 {
      assert c1 != c2;
    } else if r1 < r2 {
      assert r1 * 10 + c1 < r1 * 10 + 10 <= r2 * 10 <= r2 * 10 + c2;
    } else {
      assert r2 * 10 + c2 < r2 * 10 + 10 <= r1 * 10 <= r1 * 10 + c1;
    }
  }

  /** launchBall: a random direction left or right, speed 0.05 to 0.07, and dy = -0.06. */
  function Launched(b: Ball, side: real, spread: real): (r: Ball)
    ensures r.active && r.dy == -0.06 && r.x == b.x && r.y == b.y
    ensures IsRoll(spread) ==> 0.05 <= Abs(r.dx) < 0.07
    ensures IsRoll(spread) ==> (side > 0.5 <==> r.dx > 0.0)
  {
    b.(active := true, dx := (if side > 0.5 then 1.0 else -1.0) * (0.05 + spread * 0.02), dy := -0.06)
  }

  /** Wall bounces, loss at the bottom edge and paddle contact of a ball that has moved to (x, y). */
  function Bounce(b: Ball, x: real, y: real, px: real): (r: Ball)
    ensures r.x == x && r.y == y
    ensures r.active <==> b.active && y < 100.0
    ensures 88.0 <= y <= 92.0 && Abs(x - px) < 10.0 ==> r.dy <= 0.0 && Abs(r.dy) == Abs(b.dy)
    ensures 88.0 <= y <= 92.0 && Abs(x - px) < 10.0 ==>
      r.dx == (if x <= 0.0 || x >= 100.0 then -b.dx else b.dx) + (x - px) * 0.002
    ensures !(88.0 <= y <= 92.0 && Abs(x - px) < 10.0) ==>
      && r.dy == (if y <= 0.0 then -b.dy else b.dy)
      && r.dx == (if x <= 0.0 || x >= 100.0 then -b.dx else b.dx)
  {
    var dx := if x <= 0.0 || x >= 100.0 then -b.dx else b.dx;
    var dy := if y <= 0.0 then -b.dy else b.dy;
    var onPaddle := 88.0 <= y <= 92.0 && Abs(x - px) < 10.0;
    Ball(x, y, if onPaddle then dx + (x - px) * 0.002 else dx, if onPaddle then -Abs(dy) else dy, b.active && !(y >= 100.0))
  }

  /** The ball's flight for one frame of an active ball: it moves by its velocity times dt, then bounces. */
  function Flight(b: Ball, px: real, dt: real): (r: Ball)
    ensures r.x == b.x + b.dx * dt && r.y == b.y + b.dy * dt
  {
    Bounce(b, b.x + b.dx * dt, b.y + b.dy * dt, px)
  }

  /** Reflection flips the velocity but does not clamp the position: the ball can leave [0, 100]. */
  lemma BallCanLeaveField()
    ensures Flight(Ball(99.9, 50.0, 0.05, 0.0, true), 50.0, 16.0).x > 100.0
  {
  }

  predicate Hits(b: WallBrick, x: real, y: real) {
    Abs(x - b.x) < 6.0 && Abs(y - b.y) < 4.0
  }

  datatype BrickRun = BrickRun(kept: seq<WallBrick>, dy: real, hits: nat)

  /** One brick of the forEach. */
  function BrickStep(run: BrickRun, b: WallBrick, x: real, y: real): (r: BrickRun)
    ensures r.hits == run.hits + (if b.active && Hits(b, x, y) then 1 else 0)
    ensures r.kept == run.kept + (if b.active && !Hits(b, x, y) then [b] else [])
    ensures r.dy == if r.hits == run.hits then run.dy else -run.dy
  {
    if !b.active then run
    else if Hits(b, x, y) then BrickRun(run.kept, -run.dy, run.hits + 1)
    else BrickRun(run.kept + [b], run.dy, run.hits)
  }

  /** The forEach over the bricks: inactive ones are dropped, each hit one is removed and flips dy. */
  function BrickFold(bricks: seq<WallBrick>, x: real, y: real, dy: real): (r: BrickRun)
    ensures |r.kept| + r.hits <= |bricks|
    ensures r.dy == if r.hits % 2 == 0 then dy else -dy
    decreases |bricks|
  {
    if bricks == [] then BrickRun([], dy, 0)
    else BrickStep(BrickFold(bricks[..|bricks| - 1], x, y, dy), bricks[|bricks| - 1], x, y)
  }

  /**
   * The bricks kept are exactly the active ones out of reach; with only
   * active bricks, kept and hit ones make up the wall.
   */
  lemma {:induction false} BrickFoldKeeps(bricks: seq<WallBrick>, x: real, y: real, dy: real)
    ensures forall b :: b in BrickFold(bricks, x, y, dy).kept <==> b in bricks && b.active && !Hits(b, x, y)
    ensures (forall b :: b in bricks ==> b.active) ==> |BrickFold(bricks, x, y, dy).kept| + BrickFold(bricks, x, y, dy).hits == |bricks|
    decreases |bricks|
  {
    if bricks != [] {
      var init := bricks[..|bricks| - 1];
      BrickFoldKeeps(init, x, y, dy);
      assert bricks == init + [bricks[|bricks| - 1]];
    }
  }

  /** The decoration and blueprint reward of a breakout frame: the wall went from non-empty to empty. */
  function WallEvents(before: seq<WallBrick>, after: seq<WallBrick>): (es: seq<Event>)
    ensures es != [] <==> before != [] && after == []
    ensures es != [] ==> es == [Collect(Tile), Collect(Blueprint)]
  {
    if after == [] && before != [] then [Collect(Tile), Collect(Blueprint)] else []
  }

  // ---------------------------------------------------------------------
  // Level 4: whack-a-mole (GameScene.tsx:294-311, 570-599)

  datatype MoleKind = Crack | Leak | Resident

  datatype Mole = Mole(id: int, col: int, row: int, kind: MoleKind, lifeTime: real, maxLife: real)

  /** The draws of one mole frame: spawn test, kind pick, wide-range test, column, row. */
  datatype MoleRoll = MoleRoll(spawn: real, pick: real, wide: real, col: real, row: real)

  /** types[Math.floor(pick * (wide > 0.8 ? 3 : 2))] over ['crack', 'leak', 'resident']. */
  function MoleKindOf(pick: real, wide: real): (k: MoleKind)
    requires IsRoll(pick)
    ensures k == Resident <==> wide > 0.8 && pick * 3.0 >= 2.0
    ensures wide > 0.8 ==> (k == Crack <==> pick * 3.0 < 1.0)
    ensures wide <= 0.8 ==> (k == Crack <==> pick < 0.5)
  {
    var n := (pick * (if wide > 0.8 then 3.0 else 2.0)).Floor;
    if n == 0 then Crack else if n == 1 then Leak else Resident
  }

  /** A mole spawns with probability 0.02 while fewer than five are live; the cell is not checked. */
  function MoleSpawn(moles: seq<Mole>, roll: MoleRoll, now: int): (r: seq<Mole>)
    requires IsRoll(roll.pick) && IsRoll(roll.col) && IsRoll(roll.row)
    ensures r == moles || (|moles| < 5 && |r| == |moles| + 1 && r[..|moles|] == moles)
    ensures |r| == |moles| + 1 <==> roll.spawn < 0.02 && |moles| < 5
    ensures |moles| <= 5 ==> |r| <= 5
    ensures |r| > |moles| ==>
      var m := r[|moles|];
      && 0 <= m.col < 3 && 0 <= m.row < 3 && m.lifeTime == 0.0 && m.maxLife == 2000.0 && m.id == now
      && m.kind == MoleKindOf(roll.pick, roll.wide)
      && m.col == (roll.col * 3.0).Floor && m.row == (roll.row * 3.0).Floor
  {
    if roll.spawn < 0.02 && |moles| < 5 then
      moles + [Mole(now, (roll.col * 3.0).Floor, (roll.row * 3.0).Floor, MoleKindOf(roll.pick, roll.wide), 0.0, 2000.0)]
    else moles
  }

  /** Two live moles can share a cell. */
  lemma SpawnCellUnchecked(roll: MoleRoll, now: int)
    requires IsRoll(roll.pick) && roll.spawn < 0.02 && 0.0 <= roll.col < 0.3 && 0.0 <= roll.row < 0.3
    ensures var r := MoleSpawn([Mole(1, 0, 0, Crack, 0.0, 2000.0)], roll, now);
      |r| == 2 && r[0].col == r[1].col && r[0].row == r[1].row
  {
  }

  datatype MoleRun = MoleRun(kept: seq<Mole>, strikes: nat)

  /** A mole one frame older. */
  function Aged(m: Mole, dt: real): Mole {
    m.(lifeTime := m.lifeTime + dt)
  }

  /** The forEach that ages every mole by dt; an expiring non-resident is a strike. */
  function AgeFold(moles: seq<Mole>, dt: real): (r: MoleRun)
    ensures |r.kept| + r.strikes <= |moles|
    decreases |moles|
  {
    if moles == [] then MoleRun([], 0)
    else
      var run := AgeFold(moles[..|moles| - 1], dt);
      var aged := Aged(moles[|moles| - 1], dt);
      if aged.lifeTime < aged.maxLife then MoleRun(run.kept + [aged], run.strikes)
      else if aged.kind != Resident then MoleRun(run.kept, run.strikes + 1)
      else run
  }

  /**
   * One mole: it survives aged by dt while still within its lifespan;
   * otherwise it leaves, costing a strike unless it is a resident.
   */
  lemma AgeOne(m: Mole, dt: real)
    ensures var r := AgeFold([m], dt);
      && (Aged(m, dt).lifeTime < m.maxLife ==> r == MoleRun([Aged(m, dt)], 0))
      && (Aged(m, dt).lifeTime >= m.maxLife && m.kind != Resident ==> r == MoleRun([], 1))
      && (Aged(m, dt).lifeTime >= m.maxLife && m.kind == Resident ==> r == MoleRun([], 0))
  {
    assert [m][..0] == [];
  }

  /** The moles are aged front to back: survivors keep their order and strikes add up. */
  lemma {:induction false} AgeFoldAppend(a: seq<Mole>, b: seq<Mole>, dt: real)
    ensures var ra := AgeFold(a, dt);
      var rb := AgeFold(b, dt);
      AgeFold(a + b, dt) == MoleRun(ra.kept + rb.kept, ra.strikes + rb.strikes)
    decreases |b|
  {
    if b == [] {
      assert a + b == a;
    } else {
      var b' := b[..|b| - 1];
      assert (a + b)[..|a + b| - 1] == a + b';
      assert (a + b)[|a + b| - 1] == b[|b| - 1];
      AgeFoldAppend(a, b', dt);
    }
  }

  /** The moles kept are exactly the input moles, aged by dt, that are still within their lifespan. */
  lemma {:induction false} AgeFoldSurvivors(moles: seq<Mole>, dt: real)
    ensures forall m :: m in AgeFold(moles, dt).kept <==>
      exists i :: 0 <= i < |moles| && m == Aged(moles[i], dt) && m.lifeTime < m.maxLife
    decreases |moles|
  {
    if moles != [] {
      var init := moles[..|moles| - 1];
      var last := Aged(moles[|moles| - 1], dt);
      AgeFoldSurvivors(init, dt);
      assert AgeFold(moles, dt).kept == AgeFold(init, dt).kept + (if last.lifeTime < last.maxLife then [last] else []);
      forall m ensures m in AgeFold(moles, dt).kept <==>
        exists i :: 0 <= i < |moles| && m == Aged(moles[i], dt) && m.lifeTime < m.maxLife
      {
        SurvivorStep(moles, dt, m);
      }
    }
  }

  /** The survivors of a non-empty list are those of its prefix and possibly its aged last mole. */
  lemma SurvivorStep(moles: seq<Mole>, dt: real, m: Mole)
    requires moles != []
    ensures var init := moles[..|moles| - 1];
      var last := Aged(moles[|moles| - 1], dt);
      (exists i :: 0 <= i < |moles| && m == Aged(moles[i], dt) && m.lifeTime < m.maxLife) <==>
      (exists i :: 0 <= i < |init| && m == Aged(init[i], dt) && m.lifeTime < m.maxLife)
        || (m == last && m.lifeTime < m.maxLife)
  {
    var init := moles[..|moles| - 1];
    if exists i :: 0 <= i < |moles| && m == Aged(moles[i], dt) && m.lifeTime < m.maxLife {
      var i :| 0 <= i < |moles| && m == Aged(moles[i], dt) && m.lifeTime < m.maxLife;
      if i < |init| {
        assert init[i] == moles[i];
      }
    }
    if exists i :: 0 <= i < |init| && m == Aged(init[i], dt) && m.lifeTime < m.maxLife {
      var i :| 0 <= i < |init| && m == Aged(init[i], dt) && m.lifeTime < m.maxLife;
      assert init[i] == moles[i];
    }
  }

  /**
   * Every mole is kept, costs one strike, or is an expired resident that
   * leaves quietly: kept plus strikes account for all moles exactly when no
   * resident expires.
   */
  lemma {:induction false} AgeFoldAccounts(moles: seq<Mole>, dt: real)
    ensures |AgeFold(moles, dt).kept| + AgeFold(moles, dt).strikes == |moles| <==>
      forall i :: 0 <= i < |moles| && moles[i].kind == Resident ==> Aged(moles[i], dt).lifeTime < moles[i].maxLife
    decreases |moles|
  {
    if moles != [] {
      var init := moles[..|moles| - 1];
      AgeFoldAccounts(init, dt);
      assert forall i :: 0 <= i < |init| ==> init[i] == moles[i];
    }
  }

  /** molesRef.current.filter(m => m.id !== id) */
  function RemoveMole(moles: seq<Mole>, id: int): (r: seq<Mole>)
    ensures |r| <= |moles|
    decreases |moles|
  {
    if moles == [] then []
    else RemoveMole(moles[..|moles| - 1], id) + (if moles[|moles| - 1].id == id then [] else [moles[|moles| - 1]])
  }

  /** A click removes every mole with that id and keeps all others. */
  lemma {:induction false} RemoveMoleMembers(moles: seq<Mole>, id: int)
    ensures forall m :: m in RemoveMole(moles, id) <==> m in moles && m.id != id
    decreases |moles|
  {
    if moles != [] {
      var init := moles[..|moles| - 1];
      assert moles == init + [moles[|moles| - 1]];
      RemoveMoleMembers(init, id);
    }
  }

  /** Callbacks of a click: a resident is a strike, a repair at a new score of 20 or more is the report and blueprint reward. */
  function ClickEvents(kind: MoleKind, newScore: int): (es: seq<Event>)
    ensures kind == Resident ==> es == [Stun]
    ensures kind != Resident ==> (es != [] <==> newScore >= 20)
    ensures kind != Resident && newScore >= 20 ==> es == [Collect(Receipt), Collect(Blueprint)]
  {
    if kind == Resident then [Stun]
    else if newScore >= 20 then [Collect(Receipt), Collect(Blueprint)]
    else []
  }
}
