/**
 * The creature capability: queries and mutators over the `CreatureKind`
 * fragment of a card. Being a creature is "tagged Creature OR carries a
 * creature fragment"; the stats come from the fragment alone.
 */
module Creatures {
  import opened Cards

  /**
   * Whether the card is a creature: a Creature tag makes it one, and so does
   * a creature fragment (with or without readable stats); a card with
   * neither is not one.
   */
  function IsCreature(c: Card): (r: bool)
    ensures Creature in c.cardTypes ==> r
    ensures StatsOf(c).Some? ==> r
    ensures CreatureKind in c.fragments ==> r
    ensures r && Creature !in c.cardTypes ==> CreatureKind in c.fragments
  {
    IsType(c, Creature) || CreatureKind in c.fragments
  }

  /** The stats of the creature fragment; absent when the key is missing or holds another record. */
  function StatsOf(c: Card): (r: Option<CreatureStats>)
    ensures r.Some? ==> CreatureKind in c.fragments
    ensures CreatureKind !in c.fragments ==> r.None?
    ensures WellKeyed(c) && CreatureKind in c.fragments ==> r.Some?
  {
    if CreatureKind in c.fragments && c.fragments[CreatureKind].CreatureFragment?
    then Some(c.fragments[CreatureKind].stats)
    else None
  }

  /** Inserts a creature fragment, overwriting any earlier one. */
  function AddCreatureFragment(c: Card, power: u8, toughness: u8): (r: Card)
    ensures StatsOf(r) == Some(CreatureStats(power, toughness))
    ensures IsCreature(r)
    ensures r.name == c.name && r.cardTypes == c.cardTypes && r.cost == c.cost
    ensures r.fragments - {CreatureKind} == c.fragments - {CreatureKind}
    ensures WellKeyed(c) ==> WellKeyed(r)
  {
    c.(fragments := c.fragments[CreatureKind := CreatureFragment(CreatureStats(power, toughness))])
  }

  /** Removes the creature fragment; a card without one is returned unchanged. */
  function RemoveCreatureFragment(c: Card): (r: Card)
    ensures StatsOf(r).None? && CreatureKind !in r.fragments
    ensures CreatureKind !in c.fragments ==> r == c
    ensures r.name == c.name && r.cardTypes == c.cardTypes && r.cost == c.cost
    ensures r.fragments - {CreatureKind} == c.fragments - {CreatureKind}
    ensures WellKeyed(c) ==> WellKeyed(r)
  {
    c.(fragments := c.fragments - {CreatureKind})
  }

  // ---------------------------------------------------------------------------

  /** Tag changes never change the stats: they live in the fragment only. */
  lemma StatsIgnoreTags(c: Card, t: CardType)
    ensures StatsOf(AddType(c, t)) == StatsOf(c)
    ensures StatsOf(RemoveType(c, t)) == StatsOf(c)
  {
  }

  /**
   * "Is a creature" is not the same as "has stats": a Creature-tagged card
   * without a fragment is a creature with no stats, and a card with the
   * fragment but no tag is still a creature.
   */
  lemma CreatureIsTagOrFragment()
    ensures var tagOnly := RemoveCreatureFragment(GrizzlyBears());
      IsCreature(tagOnly) && StatsOf(tagOnly).None?
    ensures var fragmentOnly := RemoveType(GrizzlyBears(), Creature);
      IsCreature(fragmentOnly) && !IsType(fragmentOnly, Creature)
  {
    var g := GrizzlyBears();
    assert g.cardTypes[0] == Creature;
    assert g.cardTypes[..0] == [];
  }

  /** With the tag removed from a duplicate-free tag list, being a creature rests on the fragment alone. */
  lemma UntaggedCreatureNeedsFragment(c: Card)
    requires NoDuplicates(c.cardTypes)
    ensures IsCreature(RemoveType(c, Creature)) <==> CreatureKind in c.fragments
  {
    RemoveTypeClears(c, Creature);
  }

  /** Removing the tag and then the fragment leaves a non-creature; adding both back restores it. */
  lemma {:induction false} StripAndRestoreCreature(c: Card, power: u8, toughness: u8)
    requires NoDuplicates(c.cardTypes)
    ensures var stripped := RemoveCreatureFragment(RemoveType(c, Creature));
      && !IsCreature(stripped)
      && var restored := AddCreatureFragment(AddType(stripped, Creature), power, toughness);
         IsCreature(restored) && StatsOf(restored) == Some(CreatureStats(power, toughness))
  {
    RemoveTypeClears(c, Creature);
  }

  /** Detaching after attaching is the same as detaching from the original card. */
  lemma RemoveUndoesAdd(c: Card, power: u8, toughness: u8)
    ensures RemoveCreatureFragment(AddCreatureFragment(c, power, toughness)) == RemoveCreatureFragment(c)
  {
    assert AddCreatureFragment(c, power, toughness).fragments - {CreatureKind}
        == c.fragments - {CreatureKind};
  }

  /** The two factory cards: a land with no stats, and a 2/2 creature of cost 2. */
  lemma FactoryCards()
    ensures var f := Forest();
      && IsType(f, Land) && !IsType(f, Creature) && f.cost == 0 && f.fragments == map[]
      && !IsCreature(f) && StatsOf(f).None? && WellKeyed(f) && NoDuplicates(f.cardTypes)
    ensures var g := GrizzlyBears();
      && IsType(g, Creature) && !IsType(g, Land) && g.cost == 2
      && IsCreature(g) && StatsOf(g) == Some(CreatureStats(2, 2))
      && WellKeyed(g) && NoDuplicates(g.cardTypes)
  {
  }

  /** The card composition scenario: tag and fragment are removed and restored independently. */
  lemma CompositionScenario()
    ensures var g0 := GrizzlyBears();
      var g1 := RemoveType(g0, Creature);
      var g2 := RemoveCreatureFragment(g1);
      var g3 := AddCreatureFragment(AddType(g2, Creature), 3, 3);
      && !IsType(g1, Creature) && StatsOf(g1) == Some(CreatureStats(2, 2))
      && !IsCreature(g2) && StatsOf(g2).None?
      && IsCreature(g3) && StatsOf(g3) == Some(CreatureStats(3, 3))
  {
    FactoryCards();
    StripAndRestoreCreature(GrizzlyBears(), 3, 3);
  }
}
