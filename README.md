# tcg-sim match engine in Dafny

This project models the single-player match engine of tcg-sim and the card
composition layer it is built on.

- **Cards** (`cards.dfy`, from `engine/src/card.rs`). A card has a name, a
  list of type tags (`Land`, `Creature`), a cost and a map from fragment kind
  to a capability record. Tags are added and removed idempotently.
  `Deck::count` counts tagged cards. There are two factory cards, Forest and
  Grizzly Bears. The type-erased fragment box becomes the closed datatype
  `CreatureFragment(stats) | TappableFragment(tapped)`. A key that holds the
  other variant reads as absent, as the failed downcast does.
- **Creatures** (`creatures.dfy`, from `engine/src/creature.rs`). "Is a
  creature" means tagged Creature OR carrying a creature fragment. Stats come
  from the fragment only. The fragment can be attached, which overwrites any
  earlier one, and detached.
- **Tappables** (`tappables.dfy`, from `engine/src/tappable.rs`). A card with
  no tappable fragment reads as untapped and ignores `set_tapped`.
- **Game** (`game.dfy`, from `engine/src/game.rs`). The match has four zones
  (library, hand, battlefield, graveyard), a `lands` mana counter, life
  starting at 20, a turn counter and the current step. One step advances
  StartTurn → Draw → Main → Combat → EndTurn → StartTurn. GameOver is
  entered from Draw (empty library) or Combat (life ≤ 0) and never left.
  - `State` and `Next` specify one step as a function of the whole state.
  - The class `GameState` is the mutable match. Its zones are `seq<Card>`
    fields. Its `Step` method updates them in place and is proved equal to
    `Next`. The creature-casting walk is an index loop with invariants.
  - Main plays the first land of the hand. It then casts every creature it
    can afford from the persistent `lands` counter, walking the hand in order.
  - Combat subtracts the total battlefield power from the player's own life.

The model proves these properties:

- cards are conserved across zones;
- `lands` never goes below zero and never exceeds the Land-tagged cards on
  the battlefield;
- GameOver is absorbing, and it is the only state a step leaves unchanged;
- every match reaches GameOver within a bounded number of steps;
- tags and fragments are independent of each other.

The engine's rules are narrower than a full card game, and the model keeps
them as the engine has them:

- A match has one player. There are no Untap or Upkeep phases, no attacker
  or blocker declaration, no summoning sickness and no opponent.
- Combat damage comes off the player's own life.
- Main pays for creatures from the `lands` counter, not by tapping lands.
- Type tags are a list, not a set. A list built with duplicates keeps them,
  so `remove_type` then removes only the first copy.
- `CardFragmentKind` in `engine/src/card.rs` has no `Tappable` key and that
  file defines no `TappableFragment` type, yet `engine/src/tappable.rs` uses
  both. The model adds the key and the record.

## Model

| member | source | states |
|---|---|---|
| `Cards.IsType` | engine/src/card.rs:69-72 | a card is of type `t` exactly when `t` occurs among its tags |
| `Cards.HasTag` | engine/src/card.rs:69-72 | the `any` scan over the tags is true exactly when the tag occurs in the list |
| `Cards.AddType` | engine/src/card.rs:74-80 | afterwards the tag is present; an already-present tag leaves the card unchanged, otherwise the tag is appended; name, cost and fragments are untouched |
| `Cards.AddTypeIdempotent` | engine/src/card.rs:74-80 | adding a tag twice equals adding it once |
| `Cards.AddTypeKeepsNoDuplicates` | engine/src/card.rs:76-79 | `add_type` never introduces a duplicate tag |
| `Cards.Position` | engine/src/card.rs:84 | the `position` scan returns the first index holding the tag, or nothing exactly when the tag is absent |
| `Cards.RemoveType` | engine/src/card.rs:82-88 | an absent tag is a no-op; otherwise the first occurrence is removed and the other tags keep their order; the tag multiset loses one copy; name, cost and fragments are untouched |
| `Cards.RemoveTypeClears` | engine/src/card.rs:82-88 | on a duplicate-free tag list the tag is absent afterwards and the list stays duplicate-free |
| `Cards.TypeChangesAreLocal` | engine/src/card.rs:74-88 | adding or removing one tag does not change whether any other tag is present |
| `Cards.AddThenRemoveType` | engine/src/card.rs:74-88 | removing a tag that was just added to a card without it gives back the original card |
| `Cards.RemoveThenAddType` | engine/src/card.rs:74-88 | on a duplicate-free list, removing then re-adding a tag restores it and the tag multiset, and leaves fragments, name and cost as they were |
| `Cards.CountIn` | engine/src/card.rs:99-102 | the count of tagged cards is at most the number of cards |
| `Cards.Count` | engine/src/card.rs:99-102 | `Deck::count` is at most the deck size and equals the number of deck positions whose card carries the tag |
| `Cards.Forest` | engine/src/card.rs:105-114 | the Forest factory card is Land-tagged and not Creature-tagged, costs 0, has no fragments, and is well-keyed with a duplicate-free tag list |
| `Cards.GrizzlyBears` | engine/src/card.rs:116-132 | the Grizzly Bears factory card is Creature-tagged and not Land-tagged, costs 2, and has exactly one fragment, a creature fragment with stats 2/2; it is well-keyed with a duplicate-free tag list |
| `Cards.CountAppend` | engine/src/card.rs:99-102 | the count over a concatenation is the sum of the counts |
| `Cards.CountIsNumberOfTaggedCards` | engine/src/card.rs:99-102 | the count equals the number of positions whose card carries the tag |
| `Creatures.IsCreature` | engine/src/creature.rs:3-7 | a Creature tag, a creature-fragment key and readable stats each make the card a creature; a creature without the tag carries the fragment key |
| `Creatures.StatsOf` | engine/src/creature.rs:9-14 | stats exist only on a card with a creature-fragment key; a well-keyed card with the key always has stats |
| `Creatures.AddCreatureFragment` | engine/src/creature.rs:16-22 | afterwards the stats are exactly (power, toughness) and the card is a creature; tags, name, cost and the other fragments are unchanged |
| `Creatures.RemoveCreatureFragment` | engine/src/creature.rs:24-27 | afterwards there are no stats; a card without the fragment is unchanged; tags and the other fragments are untouched |
| `Creatures.StatsIgnoreTags` | engine/src/card.rs:152-159 | adding or removing a tag never changes the stats |
| `Creatures.CreatureIsTagOrFragment` | engine/src/creature.rs:3-7 | being a creature is tag OR fragment, not an equivalence: a tagged card without a fragment is a creature without stats, and an untagged card with the fragment is still a creature |
| `Creatures.UntaggedCreatureNeedsFragment` | engine/src/creature.rs:3-7 | once the Creature tag is removed from a duplicate-free list, the card is a creature exactly when it carries the fragment |
| `Creatures.StripAndRestoreCreature` | engine/src/card.rs:152-165 | removing the tag and then the fragment leaves a non-creature; adding both back makes a creature with the new stats |
| `Creatures.RemoveUndoesAdd` | engine/src/creature.rs:16-27 | detaching right after attaching equals detaching from the original card |
| `Creatures.FactoryCards` | engine/src/card.rs:105-132 | Forest is Land-tagged, costs 0, has no fragments, is not a creature and has no stats; Grizzly Bears is Creature-tagged, costs 2 and has stats 2/2; both are well-keyed and duplicate-free |
| `Creatures.CompositionScenario` | engine/src/card.rs:140-166 | the unit test's sequence: removing the tag keeps the stats, removing the fragment then leaves a non-creature, and re-adding both gives a 3/3 creature |
| `Tappables.IsTappable` | engine/src/tappable.rs:3-6 | a card without a tappable fragment reads as untapped and every `set_tapped` leaves it unchanged; on a well-keyed tappable card the flag reads back whatever value was set |
| `Tappables.IsTapped` | engine/src/tappable.rs:8-13 | a card without a tappable fragment always reads as untapped |
| `Tappables.SetTapped` | engine/src/tappable.rs:15-24 | on a card without the fragment it is a no-op; on a well-keyed tappable card the flag afterwards reads the value set; tags, name, cost and the other fragments are unchanged |
| `Tappables.SetTappedLastWins` | engine/src/tappable.rs:15-24 | two consecutive `set_tapped` calls equal the last one alone |
| `Tappables.SetTappedRestores` | engine/src/tappable.rs:8-24 | setting the flag back to what `is_tapped` read before gives back the original card |
| `Tappables.TapThenUntap` | engine/src/tappable.rs:8-24 | on a tappable card, tapping reads as tapped and a following untap reads as untapped |
| `Game.FirstLand` | engine/src/game.rs:143 | the position found is the first Land-tagged card of the hand, and there is none exactly when no hand card is Land-tagged |
| `Game.PlayLand` | engine/src/game.rs:138-159 | the land play keeps the multiset of all cards and the combined hand and battlefield size, raises `lands` by at most one, and leaves library, graveyard, life, turns and step alone |
| `Game.CastCreatures` | engine/src/game.rs:161-198 | the greedy casting walk never ends with more mana than it started with |
| `Game.MainPhase` | engine/src/game.rs:136-201 | Main keeps the multiset of all cards, leaves library, graveyard, life and turns alone, and moves on to Combat |
| `Game.PowerOf` | engine/src/game.rs:209 | a card deals the power of its creature stats, at most 255, and 0 when it has no readable creature stats |
| `Game.TotalPower` | engine/src/game.rs:205-210 | the damage is at most 255 per battlefield card |
| `Game.LandPlay` | engine/src/game.rs:138-159 | at most one card leaves the hand as a land; it is the first Land-tagged card and is appended to the battlefield; `lands` grows by one exactly when the hand held a Land-tagged card; a hand with no Land-tagged card leaves the state unchanged |
| `Game.CastConserves` | engine/src/game.rs:161-198 | the cards kept and the cards cast together are exactly the hand |
| `Game.CastPays` | engine/src/game.rs:175-187 | the mana left plus the total cost of the cast cards equals the mana at the start, so the counter never underflows |
| `Game.CastAffordable` | engine/src/game.rs:175-187 | each cast card is a creature whose cost is at most the mana left after the cards cast before it |
| `Game.CastExhausts` | engine/src/game.rs:164-197 | the mana never grows, and when the walk ends every creature left in hand costs more than the mana left |
| `Game.CastKeepsOrder` | engine/src/game.rs:164-197 | both the kept cards and the cast cards are subsequences of the hand |
| `Game.MainCasting` | engine/src/game.rs:136-201 | Main only appends to the battlefield; the cards it casts were affordable in turn and their costs account for the mana spent; no affordable creature is left in hand; the new hand is a subsequence of the old one; library, graveyard, life and turns are unchanged |
| `Game.TotalPowerAppend` | engine/src/game.rs:205-210 | the damage over a concatenation of cards is the sum of the damages |
| `Game.TotalPowerNoCreatures` | engine/src/game.rs:209 | a battlefield of cards without creature fragments deals no damage |
| `Game.Next` | engine/src/game.rs:106-234 | a step from GameOver changes nothing; no step touches the graveyard, grows the library or raises life; the turn counter grows by one at StartTurn and is otherwise unchanged |
| `Game.IsGameOver` | engine/src/game.rs:229-239 | the match is over exactly when a step leaves the state unchanged |
| `Game.StepCycle` | engine/src/game.rs:106-234 | the phase order; StartTurn adds one turn, moves to Draw and changes nothing else; EndTurn moves to StartTurn and changes nothing else; GameOver is entered only from Draw with an empty library or from Combat with life ≤ 0 |
| `Game.DrawStep` | engine/src/game.rs:116-134 | with a non-empty library the last library card moves to the end of the hand, the step becomes Main and nothing else changes; with an empty library only the step changes, to GameOver |
| `Game.CombatStep` | engine/src/game.rs:203-222 | life drops by the total battlefield power, by at most 255 per card, and nothing else but the step changes; the step becomes GameOver exactly when the new life is ≤ 0 |
| `Game.StepConservesCards` | engine/src/game.rs:116-198 | every step keeps the multiset of all cards across the zones |
| `Game.StepOnlyAppendsToBattlefield` | engine/src/game.rs:155-157 | a step never removes or reorders battlefield cards, and never touches the graveyard |
| `Game.StepPreservesInv` | engine/src/game.rs:153-191 | if `lands` is at most the number of Land-tagged battlefield cards, it still is after the step |
| `Game.GameOverAbsorbing` | engine/src/game.rs:229-232 | from GameOver any number of steps leaves the state unchanged |
| `Game.RunConservesCards` | engine/src/game.rs:106-234 | any number of steps keeps the multiset of all cards and the mana invariant |
| `Game.StepSpendsBudget` | engine/src/game.rs:106-234 | every step before GameOver lowers the remaining-step budget (five per library card plus the rest of the turn) |
| `Game.MatchEnds` | server/src/main.rs:103-105 | a loop that steps until GameOver ends: after the budget's number of steps the match is over |
| `Game.ZoneOf` | engine/src/game.rs:87-91 | every zone lookup but Exile succeeds, and a zone holds only cards of the match |
| `Game.ZoneSizesAsWritten` | engine/src/game.rs:257-265 | the summary's unwrapped lookups fail exactly when Exile is among the zones listed; otherwise they give the same sizes as `ZoneSizes` |
| `Game.SummaryAlwaysPanics` | engine/src/game.rs:257-265 | the summary view unwraps the Exile lookup, which fails on every match |
| `Game.SummaryCountsEveryCard` | engine/src/game.rs:257-265 | with a missing zone read as empty, the summary lists hand, battlefield, library, graveyard and 0 for Exile, and its sizes add up to the number of cards of the match |
| `Game.GameState.IsGameOver` | engine/src/game.rs:236-239 | the mutable match reports over exactly when a step would leave its fields unchanged |
| `Game.GameState.constructor` | engine/src/game.rs:72-101 | the hand holds min(7, deck size) cards popped off the end of the shuffled library; library and hand together are a permutation of the deck; life 20, turns 0, lands 0, step StartTurn, battlefield and graveyard empty |
| `Game.GameState.Step` | engine/src/game.rs:106-234 | the in-place step leaves the fields equal to `Next` of the old fields, and keeps the mana invariant |
| `Game.GameState.PlayFirstLand` | engine/src/game.rs:138-159 | the in-place land play equals `PlayLand` of the old fields |
| `Game.GameState.CastAffordableCreatures` | engine/src/game.rs:161-198 | the index-walking loop leaves the hand, battlefield and mana that the greedy walk `CastCreatures` specifies, and changes no other field |
| `Game.GameState.CombatDamage` | engine/src/game.rs:205-210 | the accumulating loop returns the total battlefield power |

## Findings

| source | as written | input that shows it | evidently intended | confidence | as-written member | corrected member |
|---|---|---|---|---|---|---|
| engine/src/game.rs:257-265 | the summary view unwraps the lookup of every zone, Exile included, but a new match never inserts Exile (engine/src/game.rs:87-91) | any match built by `new`, at any step | list Exile as empty, like the other zone counts | high (not executed) | `Game.SummaryAlwaysPanics` | `Game.SummaryCountsEveryCard` |

## Left out

- engine/src/music.rs (audio thread, file walking, volumes, sleeps) is not part of this model: it is I/O and concurrency.
- engine/src/main.rs (stdin command loop, floating-point hill climbing over batch results) is not part of this model; it calls a simulation module that is not shown.
- server/src/main.rs (HTTP handlers, mutex-guarded state) is not part of this model. Only its step-until-GameOver loop informs `Game.MatchEnds`.
- engine/src/lib.rs: the global verbosity and the `vlog!` print are left out; the log call in the casting loop has no effect on state.
- `describe`, `describe_verbose` and the rest of `describe_summary` print to the console and group cards by name for display. Only the zone lookups of the summary are modelled.
- The serialization round trip (engine/tests/serialization_roundtrip.rs) depends on serde and on a constructor that is not shown.
- Game.GameState.constructor: the random shuffle is a parameter, `shuffled`, which must be a permutation of the deck.
- Game.GameState.Step: the zones `HashMap` is four `seq<Card>` fields, and `Game.ZoneOf` is the lookup. The `unwrap` calls in `step` therefore cannot fail.
- Game.Next: `life`, `turns` and the damage sum are unbounded integers. The `i32`/`u32` wrap-around and the `damage as i32` cast are not modelled. They matter only past 2^31 damage or 2^32 turns. `Game.CombatStep` bounds the damage per card, and `Game.MatchEnds` bounds the number of steps.
- Game.Next: `lands` is a `nat`, not a `u32`. `Game.StepPreservesInv` shows it never exceeds the Land-tagged battlefield cards, so it cannot overflow before the card count does.
- Cards.AddType: the in-place mutators `add_type`, `remove_type`, `add_creature_fragment`, `remove_creature_fragment` and `set_tapped` are functions that return the updated card value. Cards are values that move between zones and are never shared.
- Tappables.SetTapped: the flag is proved to read back only on well-keyed cards. A key holding the wrong record type makes the call a no-op, as the failed downcast does.
