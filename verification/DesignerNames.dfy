/** What the detours want to know of an entity's designer name. */
module DesignerNames {

  /** `Named("")` never arises: an empty name reads as `Missing`. */
  datatype Name = Missing | Named(objective: bool, neutral: bool, midboss: bool)

  predicate IsObjective(name: string) {
    name in ["npc_boss_tier1", "alt_npc_boss_tier1", "CNPC_Boss_Tier1",
             "npc_boss_tier2", "alt_npc_boss_tier2", "CNPC_Boss_Tier2",
             "npc_boss_tier3", "alt_npc_boss_tier3", "CNPC_Boss_Tier3",
             "npc_trooper_boss", "alt_npc_trooper_boss", "CNPC_TrooperBoss", "CNPC_BarrackBoss"]
  }

  predicate IsNeutral(name: string) {
    || "npc_neutral" <= name || "CNPC_Neutral" <= name
    || name in ["npc_trooper_neutral", "CNPC_TrooperNeutral"]
  }

  predicate IsMidboss(name: string) {
    name in ["npc_midboss", "CNPC_MidBoss", "midboss"]
  }

  function ClassOf(name: string): Name {
    if name == "" then Missing else Named(IsObjective(name), IsNeutral(name), IsMidboss(name))
  }

  /** The target probe reads at most 128 characters of the name. */
  function Read(name: string): string {
    if |name| <= 128 then name else name[..128]
  }

  /** Reading a prefix never changes the classification, so the probe and the friendly-fire code,
      which reads the whole name, agree on every entity. */
  lemma ReadKeepsClass(name: string)
    ensures ClassOf(Read(name)) == ClassOf(name)
  {
    if |name| > 128 {
      LongNames(name);
      LongNames(name[..128]);
      Begins("npc_neutral", name);
      Begins("npc_neutral", name[..128]);
      Begins("CNPC_Neutral", name);
      Begins("CNPC_Neutral", name[..128]);
      assert name[..128][..11] == name[..11] && name[..128][..12] == name[..12];
      hide IsObjective, IsNeutral, IsMidboss;
    }
  }

  lemma LongNames(name: string)
    requires |name| >= 128
    ensures !IsObjective(name) && !IsMidboss(name)
    ensures IsNeutral(name) <==> "npc_neutral" <= name || "CNPC_Neutral" <= name
  {
  }

  /** The objectives are the bosses of tiers 1 to 3 under each of three prefixes, the trooper boss under
      three names, and the barrack boss. */
  lemma ObjectivesExactly(name: string)
    ensures IsObjective(name) <==>
            || name in ["npc_trooper_boss", "alt_npc_trooper_boss", "CNPC_TrooperBoss", "CNPC_BarrackBoss"]
            || (name != "" && name[|name| - 1] in ['1', '2', '3'] &&
                name[..|name| - 1] in ["npc_boss_tier", "alt_npc_boss_tier", "CNPC_Boss_Tier"])
  {
    Tier(name, "npc_boss_tier1", "npc_boss_tier", '1');
    Tier(name, "npc_boss_tier2", "npc_boss_tier", '2');
    Tier(name, "npc_boss_tier3", "npc_boss_tier", '3');
    Tier(name, "alt_npc_boss_tier1", "alt_npc_boss_tier", '1');
    Tier(name, "alt_npc_boss_tier2", "alt_npc_boss_tier", '2');
    Tier(name, "alt_npc_boss_tier3", "alt_npc_boss_tier", '3');
    Tier(name, "CNPC_Boss_Tier1", "CNPC_Boss_Tier", '1');
    Tier(name, "CNPC_Boss_Tier2", "CNPC_Boss_Tier", '2');
    Tier(name, "CNPC_Boss_Tier3", "CNPC_Boss_Tier", '3');
  }

  /** A neutral has one of two prefixes or one of two names; the mid boss has three names. */
  lemma NeutralsExactly(name: string)
    ensures IsNeutral(name) <==>
            || (|name| >= 11 && name[..11] == "npc_neutral") || (|name| >= 12 && name[..12] == "CNPC_Neutral")
            || name == "npc_trooper_neutral" || name == "CNPC_TrooperNeutral"
    ensures IsMidboss(name) <==> name == "npc_midboss" || name == "CNPC_MidBoss" || name == "midboss"
  {
    Begins("npc_neutral", name);
    Begins("CNPC_Neutral", name);
  }

  lemma Begins(prefix: string, name: string)
    ensures prefix <= name <==> |name| >= |prefix| && name[..|prefix|] == prefix
  {
  }

  lemma Tier(name: string, whole: string, prefix: string, tier: char)
    requires whole == prefix + [tier]
    ensures name == whole <==> name != "" && name[|name| - 1] == tier && name[..|name| - 1] == prefix
  {
    if name != "" && name[|name| - 1] == tier && name[..|name| - 1] == prefix {
      assert name == prefix + [tier];
    }
  }
}
