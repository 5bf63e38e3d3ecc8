/**
 * The two fixed rename tables that turn identifiers of old schematics into
 * current ones, and the ASCII lower-casing applied before an entity lookup.
 */
module Renames {

  /** `convertEntityId`: old entity names and their current identifiers. */
  const EntityRenames: map<string, string> := map[
    "AreaEffectCloud" := "area_effect_cloud",
    "ArmorStand" := "armor_stand",
    "CaveSpider" := "cave_spider",
    "MinecartChest" := "chest_minecart",
    "MinecartCommandBlock" := "commandblock_minecart",
    "DragonFireball" := "dragon_fireball",
    "ThrownEgg" := "egg",
    "EnderCrystal" := "ender_crystal",
    "EnderDragon" := "ender_dragon",
    "ThrownEnderpearl" := "ender_pearl",
    "EyeOfEnderSignal" := "eye_of_ender_signal",
    "FallingSand" := "falling_block",
    "FireworksRocketEntity" := "fireworks_rocket",
    "MinecartFurnace" := "furnace_minecart",
    "MinecartHopper" := "hopper_minecart",
    "EntityHorse" := "horse",
    "ItemFrame" := "item_frame",
    "LeashKnot" := "leash_knot",
    "LightningBolt" := "lightning_bolt",
    "LavaSlime" := "magma_cube",
    "MinecartRideable" := "minecart",
    "MushroomCow" := "mooshroom",
    "Ozelot" := "ocelot",
    "PolarBear" := "polar_bear",
    "ThrownPotion" := "potion",
    "ShulkerBullet" := "shulker_bullet",
    "SmallFireball" := "small_fireball",
    "MinecartSpawner" := "spawner_minecart",
    "SpectralArrow" := "spectral_arrow",
    "PrimedTnt" := "tnt",
    "MinecartTNT" := "tnt_minecart",
    "VillagerGolem" := "villager_golem",
    "WitherBoss" := "wither",
    "WitherSkull" := "wither_skull",
    "ThrownExpBottle" := "xp_bottle",
    "XPOrb" := "xp_orb",
    "PigZombie" := "zombie_pigman"
  ]

  /** `convertBlockEntityId`: old tile-entity names and their current identifiers. */
  const BlockEntityRenames: map<string, string> := map[
    "Cauldron" := "brewing_stand",
    "Control" := "command_block",
    "DLDetector" := "daylight_detector",
    "Trap" := "dispenser",
    "EnchantTable" := "enchanting_table",
    "EndGateway" := "end_gateway",
    "AirPortal" := "end_portal",
    "EnderChest" := "ender_chest",
    "FlowerPot" := "flower_pot",
    "RecordPlayer" := "jukebox",
    "MobSpawner" := "mob_spawner",
    "Music" := "note_block",
    "noteblock" := "note_block",
    "Structure" := "structure_block"
  ]

  /** Renames a name the table knows; every other name is returned unchanged. */
  function Rename(table: map<string, string>, id: string): (r: string)
    ensures id !in table ==> r == id
    ensures id in table ==> r == table[id]
  {
    if id in table then table[id] else id
  }

  /** `convertEntityId`. */
  function ConvertEntityId(id: string): (r: string)
    ensures id !in EntityRenames ==> r == id
    ensures r == "" <==> id == ""
    ensures id == "PigZombie" ==> r == "zombie_pigman"
  {
    Rename(EntityRenames, id)
  }

  /** `convertBlockEntityId`. */
  function ConvertBlockEntityId(id: string): (r: string)
    ensures id !in BlockEntityRenames ==> r == id
    ensures id == "Music" || id == "noteblock" ==> r == "note_block"
    ensures r == "" <==> id == ""
  {
    Rename(BlockEntityRenames, id)
  }

  /** Every old entity name starts with a capital letter. */
  lemma EntityNamesCapitalised()
    ensures forall k :: k in EntityRenames ==> |k| > 0 && 'A' <= k[0] <= 'Z'
  {
  }

  /** Every current entity identifier starts with a lower-case letter. */
  lemma EntityIdsLowerCase()
    ensures forall k :: k in EntityRenames ==> |EntityRenames[k]| > 0 && 'a' <= EntityRenames[k][0] <= 'z'
  {
  }

  /** No current entity identifier is itself an old entity name. */
  lemma EntityRenamesAreFinal()
    ensures forall k :: k in EntityRenames ==> EntityRenames[k] !in EntityRenames
  {
    EntityNamesCapitalised();
    EntityIdsLowerCase();
    forall k | k in EntityRenames
      ensures EntityRenames[k] !in EntityRenames
    {
      var v := EntityRenames[k];
      assert 'a' <= v[0];
    }
  }

  /** No current tile-entity identifier is itself an old tile-entity name. */
  lemma BlockEntityRenamesAreFinal()
    ensures forall k :: k in BlockEntityRenames ==> BlockEntityRenames[k] !in BlockEntityRenames
  {
  }

  /** Renaming twice is renaming once. */
  lemma ConvertIdempotent(id: string)
    ensures ConvertEntityId(ConvertEntityId(id)) == ConvertEntityId(id)
    ensures ConvertBlockEntityId(ConvertBlockEntityId(id)) == ConvertBlockEntityId(id)
  {
    EntityRenamesAreFinal();
    BlockEntityRenamesAreFinal();
  }

  /** Apart from "Music" and "noteblock", no two old tile-entity names share a current one. */
  lemma BlockEntityRenamesInjective(a: string, b: string)
    requires a in BlockEntityRenames && b in BlockEntityRenames && a != b
    requires BlockEntityRenames[a] == BlockEntityRenames[b]
    ensures {a, b} == {"Music", "noteblock"}
  {
  }

  /** `toLowerCase` on ASCII letters. */
  function LowerChar(c: char): (r: char)
    ensures 'A' <= c <= 'Z' ==> 'a' <= r <= 'z' && r as int == c as int + 32
    ensures !('A' <= c <= 'Z') ==> r == c
  {
    if 'A' <= c <= 'Z' then (c as int + 32) as char else c
  }

  function ToLower(s: string): (r: string)
    ensures |r| == |s|
    ensures forall i :: 0 <= i < |s| ==> r[i] == LowerChar(s[i])
  {
    seq(|s|, i requires 0 <= i < |s| => LowerChar(s[i]))
  }
}
