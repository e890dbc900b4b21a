/**
 * The callbacks a GameScene frame raises, applied to the App state in the
 * order they were raised: `onCollectItem` is handleCollectItem,
 * `onStunned` is handleStunned and `onConsumeItem` is handleConsumeItem
 * (App.tsx:353-358).  React runs each functional updater on the state the
 * previous one produced, so a frame's callbacks compose left to right.
 */
module Wiring {
  import opened Catalog
  import opened SceneRules
  import Progression

  type GameState = Progression.GameState

  /** One callback applied to the App state. */
  function ApplyEvent(s: GameState, e: Event): (r: GameState)
    ensures r.level == s.level && r.selectedItems == s.selectedItems
    ensures r.currentLocation == s.currentLocation && r.blueprintProgress == s.blueprintProgress
  {
    match e
    case Collect(item) => Progression.CollectItem(s, item)
    case Stun => Progression.Stunned(s)
    case Consume(id) => Progression.ConsumeItem(s, id)
  }

  /** A frame's callbacks, front to back. */
  function ApplyEvents(s: GameState, es: seq<Event>): (r: GameState)
    ensures es == [] ==> r == s
    ensures |es| == 1 ==> r == ApplyEvent(s, es[0])
    decreases |es|
  {
    if es == [] then s else ApplyEvent(ApplyEvents(s, es[..|es| - 1]), es[|es| - 1])
  }

  /** Applying two batches one after the other is applying their concatenation. */
  lemma {:induction false} ApplyEventsAppend(s: GameState, a: seq<Event>, b: seq<Event>)
    ensures ApplyEvents(s, a + b) == ApplyEvents(ApplyEvents(s, a), b)
    decreases |b|
  {
    if b == [] {
      assert a + b == a;
    } else {
      assert (a + b)[..|a + b| - 1] == a + b[..|b| - 1];
      ApplyEventsAppend(s, a, b[..|b| - 1]);
    }
  }

  /**
   * No scene callback changes the level, the zone, the crafting selection or
   * the blueprint progress; only the crafting desk and the handover do.
   */
  lemma {:induction false} EventsKeepLevel(s: GameState, es: seq<Event>)
    ensures var r := ApplyEvents(s, es);
      && r.level == s.level && r.selectedItems == s.selectedItems
      && r.currentLocation == s.currentLocation && r.blueprintProgress == s.blueprintProgress
    decreases |es|
  {
    if es != [] {
      EventsKeepLevel(s, es[..|es| - 1]);
    }
  }

  /**
   * Strikes raised by the scene never decrease and never pass five: a stun
   * at four or more clamps to five and ends the game.
   */
  lemma {:induction false} StrikesStayWithinFive(s: GameState, es: seq<Event>)
    requires s.strikes <= 5
    ensures s.strikes <= ApplyEvents(s, es).strikes <= 5
    decreases |es|
  {
    if es != [] {
      StrikesStayWithinFive(s, es[..|es| - 1]);
    }
  }

  /** Every stun raises the strike count by one until the ceiling of five. */
  lemma {:induction false} StunsCount(s: GameState, n: nat)
    requires s.strikes + n < 5
    ensures ApplyEvents(s, Copies(Stun, n)).strikes == s.strikes + n
    ensures ApplyEvents(s, Copies(Stun, n)).status == s.status
    decreases n
  {
    if n > 0 {
      var es := Copies(Stun, n);
      assert es[..n - 1] == Copies(Stun, n - 1);
      StunsCount(s, n - 1);
    }
  }

  /** A bribe is always appended, whatever is held, and nothing else changes. */
  lemma CollectBribe(s: GameState)
    ensures Progression.CollectItem(s, Bribe) == s.(inventory := s.inventory + [Bribe])
    ensures ApplyEvent(s, Collect(Bribe)) == s.(inventory := s.inventory + [Bribe])
    ensures Progression.CountId(Progression.CollectItem(s, Bribe).inventory, "bribe") == Progression.CountId(s.inventory, "bribe") + 1
  {
    BribeAndBlueprintCategories();
    Progression.CountIdAppend(s.inventory, [Bribe], "bribe");
    assert [Bribe][..0] == [];
  }

  /**
   * Bribes stack: picking up n bags adds n entries with the bribe id and
   * changes neither the status nor whether a blueprint is held.
   */
  lemma {:induction false} BribesStack(s: GameState, n: nat)
    ensures var r := ApplyEvents(s, Copies(Collect(Bribe), n));
      && Progression.CountId(r.inventory, "bribe") == Progression.CountId(s.inventory, "bribe") + n
      && |r.inventory| == |s.inventory| + n
      && r.status == s.status && r.hasBlueprint == s.hasBlueprint && r.strikes == s.strikes
    decreases n
  {
    if n > 0 {
      var es := Copies(Collect(Bribe), n);
      assert es[..n - 1] == Copies(Collect(Bribe), n - 1);
      BribesStack(s, n - 1);
      var mid := ApplyEvents(s, es[..n - 1]);
      assert ApplyEvents(s, es) == ApplyEvent(mid, Collect(Bribe));
      CollectBribe(mid);
    }
  }

  /**
   * A catch that lands in the reward window at level 2 or later hands the
   * brick and the blueprint over, and the blueprint starts the handover.
   */
  lemma CatchRewardStartsHandover(s: GameState, k: FallKind, score: int)
    requires s.level > 1 && RewardWindow(score)
    ensures var r := ApplyEvents(s, CatchEvents(k, score));
      r.status == Progression.Handover && r.hasBlueprint
  {
    var own := if k == BribeBag then [Collect(Bribe)] else if k == Bad then [Stun] else [];
    var es := CatchEvents(k, score);
    assert es == own + [Collect(Brick), Collect(Blueprint)];
    assert es[..|es| - 1] == own + [Collect(Brick)];
    var mid := ApplyEvents(s, own + [Collect(Brick)]);
    EventsKeepLevel(s, own + [Collect(Brick)]);
    assert ApplyEvents(s, es) == Progression.CollectItem(mid, Blueprint);
    BribeAndBlueprintCategories();
  }

  /** Any item collected just before the blueprint, at level 2 or later, leaves the blueprint to start the handover. */
  lemma BlueprintAfter(s: GameState, x: Item)
    requires s.level > 1
    ensures var r := ApplyEvents(s, [Collect(x), Collect(Blueprint)]);
      r.status == Progression.Handover && r.hasBlueprint
  {
    var es := [Collect(x), Collect(Blueprint)];
    assert es[..1] == [Collect(x)];
    var mid := ApplyEvent(s, Collect(x));
    assert ApplyEvents(s, es) == Progression.CollectItem(mid, Blueprint);
    BribeAndBlueprintCategories();
  }

  /** Clearing the breakout wall at level 2 or later collects the tile and the blueprint, which starts the handover. */
  lemma WallRewardStartsHandover(s: GameState, before: seq<WallBrick>)
    requires s.level > 1 && before != []
    ensures var r := ApplyEvents(s, WallEvents(before, []));
      r.status == Progression.Handover && r.hasBlueprint
  {
    BlueprintAfter(s, Tile);
  }

  /** A repair that brings the whack-a-mole score to 20 or more collects the receipt and the blueprint, which starts the handover. */
  lemma ClickRewardStartsHandover(s: GameState, kind: MoleKind, newScore: int)
    requires s.level > 1 && kind != Resident && newScore >= 20
    ensures var r := ApplyEvents(s, ClickEvents(kind, newScore));
      r.status == Progression.Handover && r.hasBlueprint
  {
    BlueprintAfter(s, Receipt);
  }

  lemma FailTagFails()
    ensures Progression.Contains(Progression.FailTag, Progression.FailTag)
    ensures !Progression.Contains(Progression.FailTag, Progression.PassTag)
  {
    assert Progression.MatchesAt(Progression.FailTag, Progression.FailTag, 0);
    forall i | 0 <= i <= |Progression.FailTag| - |Progression.PassTag|
      ensures !Progression.MatchesAt(Progression.FailTag, Progression.PassTag, i)
    {
      assert Progression.FailTag[0..4][1] != Progression.PassTag[1];
      assert Progression.FailTag[1..5][0] != Progression.PassTag[0];
    }
  }

  /**
   * The game over a stun causes does not stick: at level 2 with four strikes,
   * a stun ends the game, but the blueprint caught later in the same frame
   * starts the handover with five strikes.
   */
  lemma GameOverIsOverwritten(s: GameState)
    requires s.level == 2 && s.strikes == 4
    ensures Progression.Stunned(s).status == Progression.GameOver
    ensures var r := ApplyEvents(s, [Stun, Collect(Brick), Collect(Blueprint)]);
      && r.status == Progression.Handover && r.strikes == 5 && r.selectedItems == s.selectedItems
  {
    var es := [Stun, Collect(Brick), Collect(Blueprint)];
    assert es[..2] == [Stun, Collect(Brick)] && es[..2][..1] == [Stun] && es[..2][..1][..0] == [];
    var s1 := Progression.Stunned(s);
    assert ApplyEvents(s, es[..2][..1]) == s1;
    assert !IsPart("brick");
    var s2 := Progression.CollectItem(s1, Brick);
    assert ApplyEvents(s, es[..2]) == s2;
    BribeAndBlueprintCategories();
    assert ApplyEvents(s, es) == Progression.CollectItem(s2, Blueprint);
  }

  /**
   * After such a handover the game goes on: submitting the blueprint alone
   * and failing raises the strikes to six and ends the game a second time.
   */
  lemma SixthStrike(r: GameState)
    requires r.strikes == 5 && r.selectedItems == []
    ensures var t := Progression.ToggleCraftItem(Progression.HandoverComplete(r), Blueprint);
      var u := Progression.SubmitBuild(t, Progression.Answer(Progression.FailTag));
      u.strikes == 6 && u.status == Progression.GameOver
  {
    var t := Progression.ToggleCraftItem(Progression.HandoverComplete(r), Blueprint);
    assert t.selectedItems == [Blueprint];
    assert Progression.HasId(t.selectedItems, "blueprint") by {
      assert t.selectedItems[0].id == "blueprint";
    }
    assert !Progression.HasId(t.selectedItems, "bribe");
    FailTagFails();
  }
}
