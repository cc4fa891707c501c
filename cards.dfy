/**
 * The card composition model: a card is a name, a list of type tags, a mana
 * cost and a map from capability kind to a capability record ("fragment").
 * Tags and fragments are independent of each other; the capability modules
 * (Creatures, Tappables) interpret the fragments.
 *
 * The engine's cards are plain values that are cloned into a deck and then
 * moved between zones, so they are a datatype here; the in-place mutators
 * `add_type` and `remove_type` become functions that return the updated card.
 */
module Cards {

  /** An optional value, the engine's `Option`. */
  datatype Option<T> = None | Some(value: T)

  /** The unsigned widths the engine stores. */
  type u8 = x: int | 0 <= x < 0x100
  type u32 = x: int | 0 <= x < 0x1_0000_0000

  datatype CardType = Land | Creature

  datatype CreatureStats = CreatureStats(power: u8, toughness: u8)

  /** The keys of the fragment map, one per capability. */
  datatype FragmentKind = CreatureKind | TappableKind

  /**
   * The capability records. The engine stores them type-erased and recovers
   * the concrete record with a downcast; the closed union below stands for
   * that, and a key holding the other variant reads as "absent".
   */
  datatype Fragment = CreatureFragment(stats: CreatureStats) | TappableFragment(tapped: bool)

  datatype Card = Card(name: string, cardTypes: seq<CardType>, cost: u32,
                       fragments: map<FragmentKind, Fragment>)

  /** Every key holds the record of its own kind (what the engine's inserts keep). */
  ghost predicate WellKeyed(c: Card) {
    && (CreatureKind in c.fragments ==> c.fragments[CreatureKind].CreatureFragment?)
    && (TappableKind in c.fragments ==> c.fragments[TappableKind].TappableFragment?)
  }

  ghost predicate NoDuplicates<T>(s: seq<T>) {
    forall i, j :: 0 <= i < j < |s| ==> s[i] != s[j]
  }

  /** Whether `t` occurs among the tags, scanning front to back as `is_type` does. */
  function HasTag(tags: seq<CardType>, t: CardType): (r: bool)
    ensures r <==> t in tags
  {
    |tags| > 0 && (tags[0] == t || HasTag(tags[1..], t))
  }

  /** Whether the card carries tag `t`. */
  function IsType(c: Card, t: CardType): (r: bool)
    ensures r <==> t in c.cardTypes
  {
    HasTag(c.cardTypes, t)
  }

  /** The first index holding `t`, found by a front-to-back scan as in `remove_type`. */
  function Position(tags: seq<CardType>, t: CardType): (r: Option<nat>)
    ensures r.None? <==> t !in tags
    ensures r.Some? ==> r.value < |tags| && tags[r.value] == t && t !in tags[..r.value]
  {
    if tags == [] then None
    else if tags[0] == t then Some(0)
    else match Position(tags[1..], t)
      case None => None
      case Some(p) => Some(p + 1)
  }

  /** Pushes `t` unless it is already present. */
  function AddType(c: Card, t: CardType): (r: Card)
    ensures IsType(r, t)
    ensures t in c.cardTypes ==> r == c
    ensures t !in c.cardTypes ==> r.cardTypes == c.cardTypes + [t]
    ensures r.name == c.name && r.cost == c.cost && r.fragments == c.fragments
  {
    if IsType(c, t) then c else c.(cardTypes := c.cardTypes + [t])
  }

  /** Removes the first occurrence of `t`, if any; the other tags keep their order. */
  function RemoveType(c: Card, t: CardType): (r: Card)
    ensures t !in c.cardTypes ==> r == c
    ensures t in c.cardTypes ==>
      exists p :: 0 <= p < |c.cardTypes| && c.cardTypes[p] == t && t !in c.cardTypes[..p]
        && r.cardTypes == c.cardTypes[..p] + c.cardTypes[p + 1..]
    ensures multiset(r.cardTypes) == multiset(c.cardTypes) - multiset{t}
    ensures r.name == c.name && r.cost == c.cost && r.fragments == c.fragments
  {
    match Position(c.cardTypes, t)
    case None => c
    case Some(p) =>
      assert c.cardTypes == c.cardTypes[..p] + [t] + c.cardTypes[p + 1..];
      c.(cardTypes := c.cardTypes[..p] + c.cardTypes[p + 1..])
  }

  datatype Deck = Deck(cards: seq<Card>)

  /** The number of cards carrying tag `t`, as `Deck::count` computes it. */
  function CountIn(cards: seq<Card>, t: CardType): (r: nat)
    ensures r <= |cards|
  {
    if cards == [] then 0
    else (if IsType(cards[0], t) then 1 else 0) + CountIn(cards[1..], t)
  }

  /** How many cards of the deck carry tag `t`. */
  function Count(d: Deck, t: CardType): (r: nat)
    ensures r <= |d.cards|
    ensures r == |set i | 0 <= i < |d.cards| && IsType(d.cards[i], t)|
  {
    CountIsNumberOfTaggedCards(d.cards, t);
    CountIn(d.cards, t)
  }

  /** The basic land: tagged Land only, free, with no capability. */
  function Forest(): (c: Card)
    ensures IsType(c, Land) && !IsType(c, Creature)
    ensures c.cost == 0 && c.fragments == map[]
    ensures WellKeyed(c) && NoDuplicates(c.cardTypes)
  {
    Card("Forest", [Land], 0, map[])
  }

  /** The 2/2 creature of cost 2: tagged Creature and carrying a creature fragment. */
  function GrizzlyBears(): (c: Card)
    ensures IsType(c, Creature) && !IsType(c, Land)
    ensures c.cost == 2
    ensures c.fragments.Keys == {CreatureKind}
    ensures c.fragments[CreatureKind] == CreatureFragment(CreatureStats(2, 2))
    ensures WellKeyed(c) && NoDuplicates(c.cardTypes)
  {
    Card("Grizzly Bears", [Creature], 2,
         map[CreatureKind := CreatureFragment(CreatureStats(2, 2))])
  }

  // ---------------------------------------------------------------------------
  // Tags

  /** Adding a tag twice is the same as adding it once. */
  lemma AddTypeIdempotent(c: Card, t: CardType)
    ensures AddType(AddType(c, t), t) == AddType(c, t)
  {
  }

  /** `add_type` never introduces a duplicate tag. */
  lemma AddTypeKeepsNoDuplicates(c: Card, t: CardType)
    requires NoDuplicates(c.cardTypes)
    ensures NoDuplicates(AddType(c, t).cardTypes)
  {
  }

  /** Adding or removing one tag leaves the membership of every other tag as it was. */
  lemma TypeChangesAreLocal(c: Card, t: CardType, u: CardType)
    requires u != t
    ensures IsType(AddType(c, t), u) == IsType(c, u)
    ensures IsType(RemoveType(c, t), u) == IsType(c, u)
  {
    var r := RemoveType(c, t);
    assert u in multiset(r.cardTypes) <==> u in multiset(c.cardTypes);
  }

  /** On a duplicate-free tag list `remove_type` leaves the tag absent. */
  lemma {:induction false} RemoveTypeClears(c: Card, t: CardType)
    requires NoDuplicates(c.cardTypes)
    ensures !IsType(RemoveType(c, t), t)
    ensures NoDuplicates(RemoveType(c, t).cardTypes)
  {
    var tags := c.cardTypes;
    match Position(tags, t)
    case None =>
    case Some(p) =>
      var r := RemoveType(c, t).cardTypes;
      assert r == tags[..p] + tags[p + 1..];
      forall k | 0 <= k < |r|
        ensures r[k] != t
      {
        if k < p {
          assert r[k] == tags[..p][k];
        } else {
          assert r[k] == tags[k + 1] && p < k + 1;
        }
      }
      RemoveAtKeepsNoDuplicates(tags, p);
  }

  lemma RemoveAtKeepsNoDuplicates<T>(s: seq<T>, p: nat)
    requires p < |s| && NoDuplicates(s)
    ensures NoDuplicates(s[..p] + s[p + 1..])
  {
    var r := s[..p] + s[p + 1..];
    forall i, j | 0 <= i < j < |r|
      ensures r[i] != r[j]
    {
      if j < p {
        assert r[i] == s[i] && r[j] == s[j];
      } else if i < p {
        assert r[i] == s[i] && r[j] == s[j + 1];
      } else {
        assert r[i] == s[i + 1] && r[j] == s[j + 1];
      }
    }
  }

  /** Removing a tag that was just added (and was absent before) gives back the card. */
  lemma {:induction false} AddThenRemoveType(c: Card, t: CardType)
    requires t !in c.cardTypes
    ensures RemoveType(AddType(c, t), t) == c
  {
    var tags := c.cardTypes + [t];
    assert tags[|c.cardTypes|] == t;
    assert tags[..|c.cardTypes|] == c.cardTypes;
    match Position(tags, t)
    case None =>
    case Some(p) =>
      assert p == |c.cardTypes|;
      assert tags[..p] + tags[p + 1..] == c.cardTypes;
  }

  /**
   * Re-adding a removed tag restores `is_type` and the multiset of tags, and
   * neither step touches the fragments, the name or the cost.
   */
  lemma RemoveThenAddType(c: Card, t: CardType)
    requires t in c.cardTypes && NoDuplicates(c.cardTypes)
    ensures var r := AddType(RemoveType(c, t), t);
      && IsType(r, t)
      && multiset(r.cardTypes) == multiset(c.cardTypes)
      && r.fragments == c.fragments && r.name == c.name && r.cost == c.cost
  {
    RemoveTypeClears(c, t);
  }

  // ---------------------------------------------------------------------------
  // Deck::count

  lemma {:induction false} CountAppend(a: seq<Card>, b: seq<Card>, t: CardType)
    ensures CountIn(a + b, t) == CountIn(a, t) + CountIn(b, t)
  {
    if a == [] {
      assert a + b == b;
    } else {
      assert (a + b)[1..] == a[1..] + b;
      CountAppend(a[1..], b, t);
    }
  }

  /** The count is the number of positions in the deck whose card carries the tag. */
  lemma {:induction false} CountIsNumberOfTaggedCards(cards: seq<Card>, t: CardType)
    ensures CountIn(cards, t) == |set i | 0 <= i < |cards| && IsType(cards[i], t)|
  {
    if cards != [] {
      var n := |cards| - 1;
      var init := cards[..n];
      assert cards == init + [cards[n]];
      CountAppend(init, [cards[n]], t);
      CountIsNumberOfTaggedCards(init, t);
      var before := set i | 0 <= i < |init| && IsType(init[i], t);
      var all := set i | 0 <= i < |cards| && IsType(cards[i], t);
      if IsType(cards[n], t) {
        assert all == before + {n};
        assert n !in before;
      } else {
        assert all == before;
      }
    }
  }
}
