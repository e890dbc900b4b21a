/**
 * The progression state machine of App.tsx.  Every handler of the App
 * component passes a functional updater to setGameState; each is modelled
 * as a function from the previous GameState record to the next one.
 * Timers (the 4000 ms handover delay, the 4000 ms evaluation wait) are the
 * caller's business: a timer firing is an explicit call of the transition it
 * would run.  The evaluator gateway is a parameter (its reply).
 */
module Progression {
  import opened Catalog

  datatype Status =
    Idle | Briefing | LevelStart | Exploring | Crafting | Evaluating | Handover | GameOver | Victory

  /** GameState of types.ts without the (never updated) message log. */
  datatype GameState = GameState(
    status: Status,
    level: int,
    strikes: int,
    inventory: seq<Item>,
    currentLocation: Location,
    selectedItems: seq<Item>,
    blueprintProgress: int,
    hasBlueprint: bool)

  /** The state the App component is mounted with. */
  const Initial := GameState(Idle, 1, 0, [], Office, [], 0, false)

  // ---------------------------------------------------------------------
  // Item collections

  /** items.some(i => i.id === id) */
  predicate HasId(items: seq<Item>, id: string) {
    exists i :: 0 <= i < |items| && items[i].id == id
  }

  /** Number of entries whose id is `id`. */
  function CountId(items: seq<Item>, id: string): (c: nat)
    ensures c <= |items|
  {
    if items == [] then 0
    else CountId(items[..|items| - 1], id) + (if items[|items| - 1].id == id then 1 else 0)
  }

  /** Number of entries that are blueprint parts (the filter on BLUEPRINT_TYPES). */
  function PartCount(items: seq<Item>): nat {
    if items == [] then 0
    else PartCount(items[..|items| - 1]) + (if IsPart(items[|items| - 1].id) then 1 else 0)
  }

  /** The set of part ids held. */
  function HeldParts(items: seq<Item>): set<string> {
    if items == [] then {}
    else HeldParts(items[..|items| - 1]) + (if IsPart(items[|items| - 1].id) then {items[|items| - 1].id} else {})
  }

  /** No blueprint part is held twice. */
  predicate NoDupParts(items: seq<Item>) {
    forall i, j :: 0 <= i < j < |items| && IsPart(items[i].id) ==> items[i].id != items[j].id
  }

  lemma {:induction false} CountIdAppend(a: seq<Item>, b: seq<Item>, id: string)
    ensures CountId(a + b, id) == CountId(a, id) + CountId(b, id)
    decreases |b|
  {
    if b == [] {
      assert a + b == a;
    } else {
      var b' := b[..|b| - 1];
      assert (a + b)[..|a + b| - 1] == a + b';
      CountIdAppend(a, b', id);
    }
  }

  lemma {:induction false} CountIdPositive(items: seq<Item>, id: string)
    ensures HasId(items, id) <==> CountId(items, id) > 0
    decreases |items|
  {
    if items != [] {
      var init := items[..|items| - 1];
      CountIdPositive(init, id);
      if HasId(items, id) && items[|items| - 1].id != id {
        var i :| 0 <= i < |items| && items[i].id == id;
        assert init[i].id == id;
      }
      if HasId(init, id) {
        var i :| 0 <= i < |init| && init[i].id == id;
        assert items[i].id == id;
      }
    }
  }

  lemma {:induction false} PartCountAppend(a: seq<Item>, b: seq<Item>)
    ensures PartCount(a + b) == PartCount(a) + PartCount(b)
    decreases |b|
  {
    if b == [] {
      assert a + b == a;
    } else {
      var b' := b[..|b| - 1];
      assert (a + b)[..|a + b| - 1] == a + b';
      PartCountAppend(a, b');
    }
  }

  lemma {:induction false} HeldPartsMembers(items: seq<Item>, p: string)
    ensures p in HeldParts(items) <==> IsPart(p) && HasId(items, p)
    decreases |items|
  {
    if items != [] {
      var init := items[..|items| - 1];
      HeldPartsMembers(init, p);
      if HasId(items, p) && items[|items| - 1].id != p {
        var i :| 0 <= i < |items| && items[i].id == p;
        assert init[i].id == p;
      }
      if HasId(init, p) {
        var i :| 0 <= i < |init| && init[i].id == p;
        assert items[i].id == p;
      }
    }
  }

  /** Without repeated parts, the part-entry count is the number of distinct part ids held. */
  lemma {:induction false} PartCountIsDistinctParts(items: seq<Item>)
    requires NoDupParts(items)
    ensures PartCount(items) == |HeldParts(items)|
    decreases |items|
  {
    if items != [] {
      var init := items[..|items| - 1];
      var last := items[|items| - 1];
      assert NoDupParts(init) by {
        forall i, j | 0 <= i < j < |init| && IsPart(init[i].id) ensures init[i].id != init[j].id {
          assert items[i] == init[i] && items[j] == init[j];
        }
      }
      PartCountIsDistinctParts(init);
      if IsPart(last.id) {
        forall i | 0 <= i < |init| ensures init[i].id != last.id {
          assert items[i] == init[i];
          if IsPart(init[i].id) {
            assert items[i].id != items[|items| - 1].id;
          }
        }
        HeldPartsMembers(init, last.id);
      }
    }
  }

  lemma SubsetOfFive(a: set<string>, b: set<string>)
    requires a <= b && |b| == 5 && |a| >= 5
    ensures a == b
  {
    if a != b {
      var x :| x in b && x !in a;
      assert a <= b - {x};
      assert |b - {x}| == 4;
      SubsetCard(a, b - {x});
    }
  }

  lemma {:induction false} SubsetCard(a: set<string>, b: set<string>)
    requires a <= b
    ensures |a| <= |b|
    decreases |b|
  {
    if a != {} {
      var x :| x in a;
      SubsetCard(a - {x}, b - {x});
    }
  }

  /**
   * Holding five part entries (with no part repeated) means holding every
   * one of the five blueprint parts, and conversely.
   */
  lemma FiveEntriesAreAllParts(items: seq<Item>)
    requires NoDupParts(items)
    ensures PartCount(items) >= 5 <==> forall p :: p in BlueprintTypes ==> HasId(items, p)
  {
    PartCountIsDistinctParts(items);
    PartIdsDistinct();
    var all := set p | p in BlueprintTypes;
    forall p | p in HeldParts(items) ensures p in all {
      HeldPartsMembers(items, p);
    }
    assert HeldParts(items) <= all;
    if PartCount(items) >= 5 {
      SubsetOfFive(HeldParts(items), all);
      forall p | p in BlueprintTypes ensures HasId(items, p) {
        assert p in HeldParts(items);
        HeldPartsMembers(items, p);
      }
    }
    if forall p :: p in BlueprintTypes ==> HasId(items, p) {
      forall p | p in all ensures p in HeldParts(items) {
        HeldPartsMembers(items, p);
      }
      assert all <= HeldParts(items);
      SubsetCard(all, HeldParts(items));
    }
  }

  // ---------------------------------------------------------------------
  // handleCollectItem (App.tsx:79-118)

  /** Items that are appended even when already held (App.tsx:87). */
  predicate Stacks(item: Item) {
    item.category == Structure || item.id == "bribe"
  }

  /** The dedup-and-stack rule (App.tsx:86-89). */
  function AddToInventory(items: seq<Item>, item: Item): (r: seq<Item>)
    ensures r == items + [item] <==> !HasId(items, item.id) || Stacks(item)
    ensures r == items + [item] || r == items
  {
    if !HasId(items, item.id) || Stacks(item) then items + [item] else items
  }

  /** The level-1 aggregation fires (App.tsx:92-95). */
  predicate Aggregates(s: GameState, item: Item) {
    s.level == 1 && IsPart(item.id) && PartCount(AddToInventory(s.inventory, item)) >= 5
  }

  /** Collecting this item schedules the handover timer (App.tsx:97, 104-106). */
  predicate TriggersHandover(s: GameState, item: Item) {
    Aggregates(s, item) || (item.id == "blueprint" && s.level > 1)
  }

  function CollectItem(s: GameState, item: Item): (r: GameState)
    ensures r.inventory == AddToInventory(s.inventory, item) + (if Aggregates(s, item) then [Blueprint] else [])
    ensures r.hasBlueprint <==> s.hasBlueprint || Aggregates(s, item) || item.id == "blueprint"
    ensures r.status == if TriggersHandover(s, item) then Handover else s.status
    ensures r == s.(inventory := r.inventory, hasBlueprint := r.hasBlueprint, status := r.status)
  {
    var inventory := AddToInventory(s.inventory, item);
    if s.level == 1 && IsPart(item.id) then
      if PartCount(inventory) >= 5 then
        s.(inventory := inventory + [Blueprint], hasBlueprint := true, status := Handover)
      else
        s.(inventory := inventory)
    else if item.id == "blueprint" then
      s.(inventory := inventory, hasBlueprint := true, status := if s.level > 1 then Handover else s.status)
    else
      s.(inventory := inventory)
  }

  /** A held non-stacking item is not collected again, except for the aggregation's own append. */
  lemma CollectHeldItem(s: GameState, item: Item)
    requires HasId(s.inventory, item.id) && !Stacks(item)
    ensures CollectItem(s, item).inventory == s.inventory + (if Aggregates(s, item) then [Blueprint] else [])
  {
  }

  /** Collecting never repeats a blueprint part. */
  lemma CollectKeepsPartsDistinct(s: GameState, item: Item)
    requires NoDupParts(s.inventory) && InCatalog(item)
    ensures NoDupParts(CollectItem(s, item).inventory)
  {
    var r := CollectItem(s, item).inventory;
    var inv := s.inventory;
    var added := AddToInventory(inv, item);
    forall i, j | 0 <= i < j < |r| && IsPart(r[i].id) ensures r[i].id != r[j].id {
      if j >= |added| {
        assert r[j] == Blueprint;
      } else if j == |inv| {
        assert added == inv + [item];
        assert r[j] == item && r[i] == inv[i];
        if IsPart(item.id) {
          PartsAreKeyItems();
          assert !HasId(inv, item.id);
        }
      } else {
        assert r[i] == inv[i] && r[j] == inv[j];
      }
    }
  }

  /**
   * At level 1 the aggregation fires exactly when, after the dedup rule, all
   * five distinct blueprint parts are held.
   */
  lemma AggregationNeedsAllFiveParts(s: GameState, item: Item)
    requires NoDupParts(s.inventory) && s.level == 1 && IsPart(item.id) && InCatalog(item)
    ensures Aggregates(s, item) <==>
      forall p :: p in BlueprintTypes ==> HasId(AddToInventory(s.inventory, item), p)
  {
    CollectKeepsPartsDistinct(s.(level := 2), item);
    FiveEntriesAreAllParts(AddToInventory(s.inventory, item));
  }

  /** Collecting a sequence of items, one handler call each. */
  function CollectAll(s: GameState, items: seq<Item>): GameState
    decreases |items|
  {
    if items == [] then s else CollectItem(CollectAll(s, items[..|items| - 1]), items[|items| - 1])
  }

  /** Five pairwise-distinct parts, in any order. */
  predicate DistinctParts(parts: seq<Item>) {
    && (forall i :: 0 <= i < |parts| ==> IsPart(parts[i].id))
    && (forall i, j :: 0 <= i < j < |parts| ==> parts[i].id != parts[j].id)
  }

  /**
   * Level 1 from a state holding no part: collecting fewer than five
   * distinct parts only appends them.
   */
  lemma {:induction false} CollectingParts(s: GameState, parts: seq<Item>)
    requires s.level == 1 && PartCount(s.inventory) == 0 && |parts| < 5 && DistinctParts(parts)
    ensures CollectAll(s, parts) == s.(inventory := s.inventory + parts)
    decreases |parts|
  {
    if parts != [] {
      PartStep(s, parts);
      CollectingParts(s, parts[..|parts| - 1]);
    }
  }

  /**
   * The fifth distinct part adds the aggregated blueprint, sets hasBlueprint
   * and schedules the handover.
   */
  lemma CollectingFiveParts(s: GameState, parts: seq<Item>)
    requires s.level == 1 && PartCount(s.inventory) == 0 && |parts| == 5 && DistinctParts(parts)
    ensures CollectAll(s, parts) ==
      s.(inventory := s.inventory + parts + [Blueprint], hasBlueprint := true, status := Handover)
  {
    PartStep(s, parts);
    CollectingParts(s, parts[..4]);
  }

  /** The collection of the last of some distinct parts, on top of the earlier ones. */
  lemma PartStep(s: GameState, parts: seq<Item>)
    requires s.level == 1 && PartCount(s.inventory) == 0 && 0 < |parts| <= 5 && DistinctParts(parts)
    ensures var init := parts[..|parts| - 1];
      var r := CollectItem(s.(inventory := s.inventory + init), parts[|parts| - 1]);
      && DistinctParts(init)
      && CollectAll(s, parts) == CollectItem(CollectAll(s, init), parts[|parts| - 1])
      && (|parts| < 5 ==> r == s.(inventory := s.inventory + parts))
      && (|parts| == 5 ==> r == s.(inventory := s.inventory + parts + [Blueprint], hasBlueprint := true, status := Handover))
  {
    var init := parts[..|parts| - 1];
    var last := parts[|parts| - 1];
    assert init + [last] == parts;
    FreshPartAppends(s.inventory, init, last);
    assert s.inventory + init + [last] == s.inventory + parts;
    PartCountAppend(s.inventory, parts);
    PartCountAll(parts);
    assert IsPart(parts[|init|].id);
  }

  /** A part not among the earlier distinct parts, on top of an inventory without parts, is appended. */
  lemma FreshPartAppends(inv: seq<Item>, init: seq<Item>, last: Item)
    requires PartCount(inv) == 0 && DistinctParts(init + [last])
    ensures AddToInventory(inv + init, last) == inv + init + [last]
  {
    var parts := init + [last];
    forall i | 0 <= i < |inv + init| ensures (inv + init)[i].id != last.id {
      if i < |inv| {
        PartCountNone(inv, i);
        assert (inv + init)[i] == inv[i];
        assert IsPart(parts[|init|].id);
      } else {
        assert (inv + init)[i] == parts[i - |inv|];
        assert last == parts[|init|];
      }
    }
  }

  lemma PartCountNone(items: seq<Item>, i: int)
    requires PartCount(items) == 0 && 0 <= i < |items|
    ensures !IsPart(items[i].id)
  {
    PartCountAppend(items[..i], items[i..]);
    assert items[..i] + items[i..] == items;
    PartCountAppend([items[i]], items[i + 1..]);
    assert [items[i]] + items[i + 1..] == items[i..];
    assert PartCount([items[i]]) == (if IsPart(items[i].id) then 1 else 0) by {
      assert [items[i]][..0] == [];
    }
  }

  lemma {:induction false} PartCountAll(parts: seq<Item>)
    requires forall i :: 0 <= i < |parts| ==> IsPart(parts[i].id)
    ensures PartCount(parts) == |parts|
    decreases |parts|
  {
    if parts != [] {
      PartCountAll(parts[..|parts| - 1]);
    }
  }

  /**
   * Nothing guards against a repeat: a level-1 part collected once more after
   * the aggregation appends a second aggregated blueprint and schedules the
   * handover again.
   */
  lemma RepeatedPartReaggregates()
    ensures
      var held := [PartStruct, PartArch, PartDetail, PartInterior, PartWindow, Blueprint];
      var s := GameState(Crafting, 1, 0, held, Office, [], 0, true);
      CollectItem(s, PartStruct) == s.(inventory := held + [Blueprint], status := Handover)
  {
    var held := [PartStruct, PartArch, PartDetail, PartInterior, PartWindow, Blueprint];
    assert HasId(held, PartStruct.id) by { assert held[0].id == PartStruct.id; }
    assert PartCount(held) == 5 by {
      PartCountAll(held[..5]);
      assert held[..5] + [Blueprint] == held;
      PartCountAppend(held[..5], [Blueprint]);
      assert [Blueprint][..0] == [];
    }
  }

  // ---------------------------------------------------------------------
  // handleHandoverComplete (App.tsx:120-143)

  /**
   * The two updaters run back to back: level 2, status BRIEFING, zone SITE,
   * then status CRAFTING.
   */
  function HandoverComplete(s: GameState): (r: GameState)
    ensures r.level == 2 && r.currentLocation == Site && r.status == Crafting
    ensures r.inventory == s.inventory && r.strikes == s.strikes && r.selectedItems == s.selectedItems
    ensures r.hasBlueprint == s.hasBlueprint && r.blueprintProgress == s.blueprintProgress
  {
    var first := s.(level := 2, status := Briefing, currentLocation := Site);
    first.(status := Crafting)
  }

  // ---------------------------------------------------------------------
  // handleConsumeItem (App.tsx:145-156)

  /** prev.inventory.findIndex(i => i.id === id) */
  function FirstIndex(items: seq<Item>, id: string): (k: int)
    ensures -1 <= k < |items|
    ensures k >= 0 ==> items[k].id == id && forall j :: 0 <= j < k ==> items[j].id != id
    ensures k < 0 <==> !HasId(items, id)
    decreases |items|
  {
    if items == [] then -1
    else if items[0].id == id then 0
    else
      var k := FirstIndex(items[1..], id);
      assert forall j :: 0 < j < |items| ==> items[j] == items[1..][j - 1];
      if k < 0 then -1 else k + 1
  }

  function ConsumeItem(s: GameState, id: string): (r: GameState)
    ensures !HasId(s.inventory, id) ==> r == s
    ensures HasId(s.inventory, id) ==>
      && r == s.(inventory := r.inventory)
      && |r.inventory| == |s.inventory| - 1
      && var k := FirstIndex(s.inventory, id);
         r.inventory[..k] == s.inventory[..k] && r.inventory[k..] == s.inventory[k + 1..]
  {
    var index := FirstIndex(s.inventory, id);
    if index > -1 then s.(inventory := s.inventory[..index] + s.inventory[index + 1..]) else s
  }

  /** Consuming removes exactly one entry with the id and no entry with another id. */
  lemma ConsumeRemovesOneInstance(s: GameState, id: string, other: string)
    requires HasId(s.inventory, id) && other != id
    ensures CountId(ConsumeItem(s, id).inventory, id) == CountId(s.inventory, id) - 1
    ensures CountId(ConsumeItem(s, id).inventory, other) == CountId(s.inventory, other)
  {
    var inv := s.inventory;
    var k := FirstIndex(inv, id);
    assert inv == inv[..k] + [inv[k]] + inv[k + 1..];
    CountIdAppend(inv[..k] + [inv[k]], inv[k + 1..], id);
    CountIdAppend(inv[..k], [inv[k]], id);
    CountIdAppend(inv[..k], inv[k + 1..], id);
    CountIdAppend(inv[..k] + [inv[k]], inv[k + 1..], other);
    CountIdAppend(inv[..k], [inv[k]], other);
    CountIdAppend(inv[..k], inv[k + 1..], other);
    assert [inv[k]][..0] == [];
  }

  lemma ConsumeKeepsPartsDistinct(s: GameState, id: string)
    requires NoDupParts(s.inventory)
    ensures NoDupParts(ConsumeItem(s, id).inventory)
  {
    var r := ConsumeItem(s, id).inventory;
    if HasId(s.inventory, id) {
      var k := FirstIndex(s.inventory, id);
      forall i, j | 0 <= i < j < |r| && IsPart(r[i].id) ensures r[i].id != r[j].id {
        var i' := if i < k then i else i + 1;
        var j' := if j < k then j else j + 1;
        assert r[i] == s.inventory[i'] && r[j] == s.inventory[j'];
      }
    }
  }

  // ---------------------------------------------------------------------
  // handleStunned (App.tsx:160-170)

  function Stunned(s: GameState): (r: GameState)
    ensures r.strikes <= 5
    ensures s.strikes + 1 >= 5 ==> r.strikes == 5 && r.status == GameOver
    ensures s.strikes + 1 < 5 ==> r.strikes == s.strikes + 1 && r.status == s.status
    ensures r == s.(strikes := r.strikes, status := r.status)
  {
    var newStrikes := s.strikes + 1;
    if newStrikes >= 5 then s.(strikes := 5, status := GameOver) else s.(strikes := newStrikes)
  }

  /** Within the strike ceiling, a strike never lowers the count. */
  lemma StunnedMonotone(s: GameState)
    requires s.strikes <= 5
    ensures s.strikes <= Stunned(s).strikes <= 5
  {
  }

  // ---------------------------------------------------------------------
  // handleToggleCraftItem (App.tsx:172-181)

  /** selectedItems.filter(i => i.id !== id) */
  function RemoveId(items: seq<Item>, id: string): (r: seq<Item>)
    ensures !HasId(r, id)
    ensures |r| <= |items|
    ensures forall x :: x in r <==> x in items && x.id != id
    decreases |items|
  {
    if items == [] then []
    else
      var init := RemoveId(items[..|items| - 1], id);
      var last := items[|items| - 1];
      assert items == items[..|items| - 1] + [last];
      if last.id == id then init else init + [last]
  }

  lemma {:induction false} RemoveIdAbsent(items: seq<Item>, id: string)
    requires !HasId(items, id)
    ensures RemoveId(items, id) == items
    decreases |items|
  {
    if items != [] {
      var init := items[..|items| - 1];
      forall i | 0 <= i < |init| ensures init[i].id != id {
        assert items[i] == init[i];
      }
      RemoveIdAbsent(init, id);
      assert init + [items[|items| - 1]] == items;
    }
  }

  function ToggleCraftItem(s: GameState, item: Item): (r: GameState)
    ensures HasId(s.selectedItems, item.id) ==> r.selectedItems == RemoveId(s.selectedItems, item.id)
    ensures !HasId(s.selectedItems, item.id) ==> r.selectedItems == s.selectedItems + [item]
    ensures HasId(r.selectedItems, item.id) <==> !HasId(s.selectedItems, item.id)
    ensures r == s.(selectedItems := r.selectedItems)
  {
    if HasId(s.selectedItems, item.id) then
      s.(selectedItems := RemoveId(s.selectedItems, item.id))
    else
      assert (s.selectedItems + [item])[|s.selectedItems|].id == item.id;
      s.(selectedItems := s.selectedItems + [item])
  }

  /** Selected ids are pairwise distinct. */
  predicate DistinctIds(items: seq<Item>) {
    forall i, j :: 0 <= i < j < |items| ==> items[i].id != items[j].id
  }

  lemma {:induction false} RemoveIdKeepsDistinct(items: seq<Item>, id: string)
    requires DistinctIds(items)
    ensures DistinctIds(RemoveId(items, id))
    decreases |items|
  {
    if items != [] {
      var init := items[..|items| - 1];
      var last := items[|items| - 1];
      RemoveIdKeepsDistinct(init, id);
      if last.id != id {
        var r := RemoveId(init, id);
        forall i | 0 <= i < |r| ensures r[i].id != last.id {
          assert r[i] in init;
          var k :| 0 <= k < |init| && init[k] == r[i];
          assert items[k] == init[k];
        }
      }
    }
  }

  /** Toggling keeps the selection free of repeated ids. */
  lemma ToggleKeepsIdsDistinct(s: GameState, item: Item)
    requires DistinctIds(s.selectedItems)
    ensures DistinctIds(ToggleCraftItem(s, item).selectedItems)
  {
    if HasId(s.selectedItems, item.id) {
      RemoveIdKeepsDistinct(s.selectedItems, item.id);
    } else {
      var r := s.selectedItems + [item];
      forall i, j | 0 <= i < j < |r| ensures r[i].id != r[j].id {
        if j == |s.selectedItems| {
          assert r[i] == s.selectedItems[i];
        }
      }
    }
  }

  /**
   * Toggling the same item twice restores whether its id is selected, and
   * leaves the membership of every other entry unchanged; toggling an absent
   * item twice restores the selection exactly.
   */
  lemma ToggleTwice(s: GameState, item: Item)
    ensures var r := ToggleCraftItem(ToggleCraftItem(s, item), item);
      && (HasId(r.selectedItems, item.id) <==> HasId(s.selectedItems, item.id))
      && (forall x: Item :: x.id != item.id ==> (x in r.selectedItems <==> x in s.selectedItems))
      && (!HasId(s.selectedItems, item.id) ==> r == s)
  {
    var once := ToggleCraftItem(s, item);
    if !HasId(s.selectedItems, item.id) {
      RemoveIdAbsent(s.selectedItems, item.id);
      assert RemoveId(s.selectedItems + [item], item.id) == s.selectedItems by {
        assert (s.selectedItems + [item])[..|s.selectedItems|] == s.selectedItems;
      }
    }
  }

  // ---------------------------------------------------------------------
  // handleLevelStart (App.tsx:67-73) and handleNextPhase / startGame (App.tsx:32-65)

  /** The level-to-zone mapping (App.tsx:71). */
  function LevelZone(level: int): (l: Location)
    ensures level <= 1 ==> (l == Office <==> level == 1)
    ensures l == Site <==> level == 2
    ensures l == Interior <==> level == 3
    ensures l == Maintenance <==> level != 1 && level != 2 && level != 3
  {
    if level == 1 then Office else if level == 2 then Site else if level == 3 then Interior else Maintenance
  }

  function StartLevel(s: GameState): (r: GameState)
    ensures r.status == Exploring && r.currentLocation == LevelZone(s.level)
    ensures r == s.(status := Exploring, currentLocation := r.currentLocation)
  {
    s.(status := Exploring, currentLocation := LevelZone(s.level))
  }

  /**
   * startGame: the gateway's opening call either succeeds (`connected`) and the
   * session is reset into BRIEFING, or fails and the state is kept.
   */
  function StartGame(s: GameState, connected: bool): (r: GameState)
    ensures connected ==> r == GameState(Briefing, 1, 0, [], Office, [], 0, false)
    ensures !connected ==> r == s
  {
    if connected then
      s.(status := Briefing, level := 1, strikes := 0, inventory := [], selectedItems := [],
         currentLocation := Office, blueprintProgress := 0, hasBlueprint := false)
    else s
  }

  function NextPhase(s: GameState, connected: bool): (r: GameState)
    ensures s.status == Briefing ==> r == s.(status := LevelStart)
    ensures s.status == Victory || s.status == GameOver ==> r == StartGame(s, connected)
    ensures s.status !in {Briefing, Victory, GameOver} ==> r == s
  {
    if s.status == Briefing then s.(status := LevelStart)
    else if s.status == Victory || s.status == GameOver then StartGame(s, connected)
    else s
  }

  /** The only way out of a terminal status is a fresh session at level 1 with no strikes. */
  lemma RestartFromTerminal(s: GameState, connected: bool)
    requires s.status == Victory || s.status == GameOver
    ensures var r := NextPhase(s, connected);
      connected ==> r.status == Briefing && r.level == 1 && r.strikes == 0 && r.inventory == []
    ensures !connected ==> NextPhase(s, connected) == s
  {
  }

  // ---------------------------------------------------------------------
  // handleSubmitBuild (App.tsx:183-263), verdict logic

  const PassTag: string := "[합격]"
  const FailTag: string := "[불합격]"

  /** The scripted reply used instead of the gateway when a bribe is submitted (App.tsx:210). */
  const BribeReply: string :=
    "아니 이건... [검은 돈 가방]?! 허허... 자네가 세상을 좀 아는구만. 이번만 특별히... [합격]일세."

  /** The reply sendMessageToKim substitutes for a failed remote call (services/geminiService.ts:52). */
  const GatewayFallback: string := "미스터 킴이 전화를 받지 않습니다. (API Error)"

  /** text.includes(tag) */
  predicate Contains(text: string, tag: string)
    ensures Contains(text, tag) ==> |tag| <= |text|
    ensures |tag| <= |text| && text[..|tag|] == tag ==> Contains(text, tag)
  {
    assert |tag| <= |text| && text[..|tag|] == tag ==> MatchesAt(text, tag, 0);
    exists i :: 0 <= i <= |text| - |tag| && MatchesAt(text, tag, i)
  }

  predicate MatchesAt(text: string, tag: string, i: int)
    requires 0 <= i <= |text| - |tag|
  {
    text[i..i + |tag|] == tag
  }

  /** What awaiting the gateway yields: a reply text, or an exception. */
  datatype Reply = Answer(text: string) | Thrown

  /** The next-level zone chosen on a pass (App.tsx:231-233). */
  function PassZone(nextLevel: int, current: Location): (l: Location)
    ensures nextLevel >= 2 ==> l == LevelZone(nextLevel)
    ensures nextLevel < 2 ==> l == current
  {
    if nextLevel == 2 then Site
    else if nextLevel == 3 then Interior
    else if nextLevel >= 4 then Maintenance
    else current
  }

  /** prev.inventory.filter(i => !itemsToBuild.includes(i)) */
  function WithoutAny(items: seq<Item>, used: seq<Item>): (r: seq<Item>)
    ensures |r| <= |items|
    ensures forall x :: x in r <==> x in items && x !in used
    decreases |items|
  {
    if items == [] then []
    else
      var init := WithoutAny(items[..|items| - 1], used);
      var last := items[|items| - 1];
      assert items == items[..|items| - 1] + [last];
      if last in used then init else init + [last]
  }

  lemma {:induction false} WithoutAnyAppend(a: seq<Item>, b: seq<Item>, used: seq<Item>)
    ensures WithoutAny(a + b, used) == WithoutAny(a, used) + WithoutAny(b, used)
    decreases |b|
  {
    if b == [] {
      assert a + b == a;
    } else {
      var b' := b[..|b| - 1];
      assert (a + b)[..|a + b| - 1] == a + b';
      WithoutAnyAppend(a, b', used);
    }
  }

  /** The resolution of an answered evaluation (App.tsx:217-255). */
  function Resolve(s: GameState, text: string): (r: GameState)
    ensures Contains(text, PassTag) ==>
      && r.level == s.level + 1 && r.strikes == s.strikes
      && r.status == (if s.level + 1 > 5 then Victory else Briefing)
      && r.currentLocation == (if s.level + 1 > 5 then s.currentLocation else PassZone(s.level + 1, s.currentLocation))
    ensures !Contains(text, PassTag) && Contains(text, FailTag) ==>
      && r.level == s.level && r.strikes == s.strikes + 1
      && r.status == (if s.strikes + 1 >= 5 then GameOver else Briefing)
      && r.currentLocation == s.currentLocation
    ensures !Contains(text, PassTag) && !Contains(text, FailTag) ==>
      r.level == s.level && r.strikes == s.strikes && r.status == Briefing && r.currentLocation == s.currentLocation
    ensures r.selectedItems == [] && !r.hasBlueprint && r.blueprintProgress == 0
    ensures r.inventory == WithoutAny(s.inventory, s.selectedItems)
  {
    var pass := Contains(text, PassTag);
    var fail := !pass && Contains(text, FailTag);
    var nextLevel := if pass then s.level + 1 else s.level;
    var nextStrikes := if fail then s.strikes + 1 else s.strikes;
    var nextStatus :=
      if pass && nextLevel > 5 then Victory
      else if fail && nextStrikes >= 5 then GameOver
      else Briefing;
    var nextLocation := if pass && nextLevel <= 5 then PassZone(nextLevel, s.currentLocation) else s.currentLocation;
    s.(status := nextStatus, level := nextLevel, strikes := nextStrikes, currentLocation := nextLocation,
       selectedItems := [], hasBlueprint := false, blueprintProgress := 0,
       inventory := WithoutAny(s.inventory, s.selectedItems))
  }

  /**
   * Submitting the crafting selection.  `reply` is what the gateway would
   * answer; it is not consulted when a bribe is selected.  An exception while
   * awaiting leaves the state in EVALUATING (App.tsx:257-259).
   */
  function SubmitBuild(s: GameState, reply: Reply): (r: GameState)
    ensures !HasId(s.selectedItems, "blueprint") ==> r == s.(status := Briefing)
    ensures HasId(s.selectedItems, "blueprint") && HasId(s.selectedItems, "bribe") ==> r == Resolve(s, BribeReply)
    ensures HasId(s.selectedItems, "blueprint") && !HasId(s.selectedItems, "bribe") ==>
      r == match reply { case Thrown => s.(status := Evaluating) case Answer(t) => Resolve(s, t) }
  {
    if !HasId(s.selectedItems, "blueprint") then s.(status := Briefing)
    else
      var response := if HasId(s.selectedItems, "bribe") then Answer(BribeReply) else reply;
      match response
      case Thrown => s.(status := Evaluating)
      case Answer(text) => Resolve(s, text)
  }

  /** A submission without the blueprint changes nothing but the status. */
  lemma RejectedSubmitKeepsState(s: GameState, reply: Reply)
    requires !HasId(s.selectedItems, "blueprint")
    ensures var r := SubmitBuild(s, reply);
      && r.status == Briefing && r.inventory == s.inventory && r.level == s.level
      && r.strikes == s.strikes && r.selectedItems == s.selectedItems && r.hasBlueprint == s.hasBlueprint
  {
  }

  lemma BribeReplyPasses()
    ensures Contains(BribeReply, PassTag)
  {
    var k := |BribeReply| - 7;
    assert BribeReply[k..k + |PassTag|] == PassTag;
    assert MatchesAt(BribeReply, PassTag, k);
  }

  /**
   * A selected bribe forces a pass: the outcome does not depend on the
   * gateway, the level goes up by one and the strikes are kept.
   */
  lemma BribeForcesPass(s: GameState, reply1: Reply, reply2: Reply)
    requires HasId(s.selectedItems, "blueprint") && HasId(s.selectedItems, "bribe")
    ensures SubmitBuild(s, reply1) == SubmitBuild(s, reply2)
    ensures SubmitBuild(s, reply1).level == s.level + 1 && SubmitBuild(s, reply1).strikes == s.strikes
  {
    BribeReplyPasses();
  }

  /** The gateway's fallback reply carries no verdict tag, so it lands in the neutral branch. */
  lemma FallbackIsNeutral(s: GameState)
    ensures !Contains(GatewayFallback, PassTag) && !Contains(GatewayFallback, FailTag)
    ensures Resolve(s, GatewayFallback).level == s.level && Resolve(s, GatewayFallback).strikes == s.strikes
  {
    assert '[' !in GatewayFallback;
    forall i | 0 <= i <= |GatewayFallback| - |PassTag| ensures !MatchesAt(GatewayFallback, PassTag, i) {
      assert GatewayFallback[i] in GatewayFallback;
      assert GatewayFallback[i..i + |PassTag|][0] == GatewayFallback[i];
    }
    forall i | 0 <= i <= |GatewayFallback| - |FailTag| ensures !MatchesAt(GatewayFallback, FailTag, i) {
      assert GatewayFallback[i] in GatewayFallback;
      assert GatewayFallback[i..i + |FailTag|][0] == GatewayFallback[i];
    }
  }

  /**
   * A resolved submission removes every inventory entry equal to a submitted
   * item and keeps the rest in their order.
   */
  lemma ResolvedSubmitRemovesSubmitted(s: GameState, text: string, x: Item)
    ensures var r := Resolve(s, text);
      && (x in s.selectedItems ==> x !in r.inventory)
      && (x in s.inventory && x !in s.selectedItems ==> x in r.inventory)
      && (forall k :: 0 <= k <= |s.inventory| ==>
            r.inventory == WithoutAny(s.inventory[..k], s.selectedItems) + WithoutAny(s.inventory[k..], s.selectedItems))
  {
    forall k | 0 <= k <= |s.inventory|
      ensures WithoutAny(s.inventory, s.selectedItems) ==
        WithoutAny(s.inventory[..k], s.selectedItems) + WithoutAny(s.inventory[k..], s.selectedItems)
    {
      assert s.inventory[..k] + s.inventory[k..] == s.inventory;
      WithoutAnyAppend(s.inventory[..k], s.inventory[k..], s.selectedItems);
    }
  }

  lemma ResolveKeepsPartsDistinct(s: GameState, text: string)
    requires NoDupParts(s.inventory)
    ensures NoDupParts(Resolve(s, text).inventory)
  {
    WithoutAnyKeepsPartsDistinct(s.inventory, s.selectedItems);
  }

  lemma {:induction false} WithoutAnyKeepsPartsDistinct(items: seq<Item>, used: seq<Item>)
    requires NoDupParts(items)
    ensures NoDupParts(WithoutAny(items, used))
    decreases |items|
  {
    if items != [] {
      var init := items[..|items| - 1];
      var last := items[|items| - 1];
      WithoutAnyKeepsPartsDistinct(init, used);
      var r := WithoutAny(init, used);
      if last !in used {
        forall i | 0 <= i < |r| && IsPart(r[i].id) ensures r[i].id != last.id {
          assert r[i] in init;
          var k :| 0 <= k < |init| && init[k] == r[i];
          assert items[k] == init[k];
        }
      }
    }
  }

  /** Within the strike ceiling, a failed verdict leads to GAME_OVER exactly at the fifth strike. */
  lemma FailVerdictStrikes(s: GameState, text: string)
    requires s.strikes < 5 && !Contains(text, PassTag) && Contains(text, FailTag)
    ensures Resolve(s, text).strikes <= 5
    ensures Resolve(s, text).status == GameOver <==> s.strikes == 4
  {
  }

  /** After a pass below VICTORY, the next level start keeps the zone the pass chose. */
  lemma PassZoneAgreesWithLevelStart(s: GameState, text: string)
    requires Contains(text, PassTag) && 1 <= s.level <= 4
    ensures StartLevel(Resolve(s, text)).currentLocation == Resolve(s, text).currentLocation
  {
  }

  /**
   * The handover completion forgets the level: from any level, a handover
   * followed by a passed evaluation lands on level 3, so the handover route
   * never leads past level 3 (App.tsx:125 together with App.tsx:217-225).
   */
  lemma HandoverThenPassIsLevelThree(s: GameState, text: string)
    requires Contains(text, PassTag)
    ensures Resolve(HandoverComplete(s), text).level == 3
    ensures Resolve(HandoverComplete(s), text).status == Briefing
  {
  }
}
