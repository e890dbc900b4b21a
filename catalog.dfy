/**
 * The static entity catalog of constants.ts: the collectible items, the five
 * blueprint-part ids and the four named zones.  Icons and descriptions are
 * presentation and are not part of an Item here.
 */
module Catalog {
  import opened Common

  datatype Category = Structure | Decoration | Nature | Special | Key | Defect

  datatype Item = Item(id: string, name: string, category: Category)

  // The five blueprint parts held by the level-1 employees.
  const PartStruct := Item("blueprint_struct", "구조 도면", Key)
  const PartArch := Item("blueprint_arch", "건축 도면", Key)
  const PartDetail := Item("blueprint_detail", "상세도", Key)
  const PartInterior := Item("blueprint_interior", "인테리어 도면", Key)
  const PartWindow := Item("blueprint_window", "창호도", Key)

  // The aggregated blueprint, also the level-advance reward of levels 2 to 4.
  const Blueprint := Item("blueprint", "통합 설계 도면", Key)
  const Bribe := Item("bribe", "검은 돈 가방", Special)

  const Brick := Item("brick", "붉은 벽돌", Structure)
  const Concrete := Item("concrete", "노출 콘크리트", Structure)
  const Glass := Item("glass", "통유리", Structure)
  const Steel := Item("steel", "H빔 철골", Structure)

  const Tile := Item("tile", "대리석 타일", Decoration)
  const Paint := Item("paint", "친환경 페인트", Decoration)
  const Light := Item("light", "샹들리에", Decoration)
  const Plant := Item("plant", "실내 조경", Decoration)

  const Leak := Item("leak", "누수 수리", Defect)
  const Crack := Item("crack", "크랙 보수", Defect)
  const Noise := Item("noise", "층간소음 방지", Defect)
  const Receipt := Item("receipt", "수리 완료 보고서", Key)

  /** ITEMS_DB: every catalog entry under its id. */
  const ItemsDb: map<string, Item> := map[
    "blueprint_struct" := PartStruct,
    "blueprint_arch" := PartArch,
    "blueprint_detail" := PartDetail,
    "blueprint_interior" := PartInterior,
    "blueprint_window" := PartWindow,
    "blueprint" := Blueprint,
    "bribe" := Bribe,
    "brick" := Brick,
    "concrete" := Concrete,
    "glass" := Glass,
    "steel" := Steel,
    "tile" := Tile,
    "paint" := Paint,
    "light" := Light,
    "plant" := Plant,
    "leak" := Leak,
    "crack" := Crack,
    "noise" := Noise,
    "receipt" := Receipt
  ]

  /** BLUEPRINT_TYPES, in the order the employees are spawned. */
  const BlueprintTypes: seq<string> :=
    ["blueprint_struct", "blueprint_arch", "blueprint_detail", "blueprint_interior", "blueprint_window"]

  /** Every item the game hands out is an ITEMS_DB entry. */
  predicate InCatalog(item: Item) {
    item.id in ItemsDb && ItemsDb[item.id] == item
  }

  predicate IsPart(id: string) {
    id in BlueprintTypes
  }

  /** ITEMS_DB[id], which is undefined for an unknown id. */
  function Lookup(id: string): (r: Option<Item>)
    ensures r.Some? <==> id in ItemsDb
    ensures r.Some? ==> r.value.id == id
  {
    EntryIdIsKey(id);
    if id in ItemsDb then Some(ItemsDb[id]) else None
  }

  datatype Location = Office | Site | Interior | Maintenance

  datatype Zone = Zone(name: string, items: seq<string>)

  /** LOCATIONS, keyed by LocationId. */
  const Locations: map<Location, Zone> := map[
    Office := Zone("설계 사무소", ["bribe"]),
    Site := Zone("시공 현장", ["brick", "concrete", "glass", "steel"]),
    Interior := Zone("인테리어", ["tile", "paint", "light", "plant"]),
    Maintenance := Zone("하자 보수", ["leak", "crack", "noise"])
  ]

  /** Each catalog entry's id field is the key it is stored under. */
  lemma EntryIdIsKey(k: string)
    ensures k in ItemsDb ==> ItemsDb[k].id == k
  {
  }

  /** BLUEPRINT_TYPES holds exactly five pairwise-distinct ids. */
  lemma PartIdsDistinct()
    ensures |BlueprintTypes| == 5
    ensures forall i, j :: 0 <= i < j < |BlueprintTypes| ==> BlueprintTypes[i] != BlueprintTypes[j]
    ensures |set p | p in BlueprintTypes| == 5
  {
    assert (set p | p in BlueprintTypes) ==
      {"blueprint_struct", "blueprint_arch", "blueprint_detail", "blueprint_interior", "blueprint_window"};
  }

  /** Every part id is a catalog key whose entry is a `key` item. */
  lemma PartsAreKeyItems()
    ensures forall p :: p in BlueprintTypes ==> p in ItemsDb && ItemsDb[p].category == Key
  {
  }

  /** The bribe is `special`, the blueprint is `key`: neither is `structure`. */
  lemma BribeAndBlueprintCategories()
    ensures ItemsDb["bribe"].category == Special && ItemsDb["blueprint"].category == Key
    ensures !IsPart("bribe") && !IsPart("blueprint")
  {
  }

  /** The stacking `structure` items are exactly brick, concrete, glass and steel. */
  lemma StructureItems(k: string)
    requires k in ItemsDb
    ensures ItemsDb[k].category == Structure <==> k in {"brick", "concrete", "glass", "steel"}
  {
  }

  /** LOCATIONS has one entry per LocationId and no other. */
  lemma LocationsCoverZones(l: Location)
    ensures l in Locations
    ensures Locations.Keys == {Office, Site, Interior, Maintenance}
  {
  }
}
