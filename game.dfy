/**
 * The single-player match state machine. A match holds four zones of cards,
 * a mana counter `lands`, the life total, a turn counter and the current
 * step; `step` advances exactly one phase of the cycle
 * StartTurn -> Draw -> Main -> Combat -> EndTurn -> StartTurn, with GameOver
 * entered from Draw (empty library) or Combat (life at or below zero).
 *
 * `State` and `Next` are the specification: one step as a function of the
 * whole state. The class `GameState` is the engine's mutable match, whose
 * `Step` method updates its fields in place and is proved to agree with `Next`.
 */
module Game {
  import opened Cards
  import opened Creatures

  datatype GameStep = StartTurn | Draw | Main | Combat | EndTurn | GameOver

  /** The engine's zone keys; `Exile` exists but no match ever creates it. */
  datatype Zone = Library | Hand | Battlefield | Graveyard | Exile

  datatype State = State(library: seq<Card>, hand: seq<Card>, battlefield: seq<Card>,
                         graveyard: seq<Card>, lands: nat, life: int, turns: nat,
                         step: GameStep)

  /** Whether the match is over; it is over exactly when a step leaves the state unchanged. */
  function IsGameOver(s: State): (r: bool)
    ensures r <==> Next(s) == s
  {
    assert s.step == Main ==> Next(s).step == Combat;
    s.step == GameOver
  }

  /** Every card of the match, whatever its zone. */
  function AllCards(s: State): multiset<Card> {
    multiset(s.library) + multiset(s.hand) + multiset(s.battlefield) + multiset(s.graveyard)
  }

  /** The mana counter never exceeds the number of Land-tagged cards on the battlefield. */
  predicate Inv(s: State) {
    s.lands <= CountIn(s.battlefield, Land)
  }

  // ---------------------------------------------------------------------------
  // Main phase

  /** The hand position of the first Land-tagged card, if any. */
  function FirstLand(hand: seq<Card>): (r: Option<nat>)
    ensures r.None? <==> forall k :: 0 <= k < |hand| ==> !IsType(hand[k], Land)
    ensures r.Some? ==> r.value < |hand| && IsType(hand[r.value], Land)
                        && forall k :: 0 <= k < r.value ==> !IsType(hand[k], Land)
  {
    if hand == [] then None
    else if IsType(hand[0], Land) then Some(0)
    else match FirstLand(hand[1..])
      case None => None
      case Some(p) => Some(p + 1)
  }

  /** Plays the first land of the hand, if any, adding one to the mana counter. */
  function PlayLand(s: State): (r: State)
    ensures AllCards(r) == AllCards(s)
    ensures |r.hand| + |r.battlefield| == |s.hand| + |s.battlefield|
    ensures r.lands == s.lands || r.lands == s.lands + 1
    ensures r.library == s.library && r.graveyard == s.graveyard
    ensures r.life == s.life && r.turns == s.turns && r.step == s.step
  {
    match FirstLand(s.hand)
    case None => s
    case Some(p) =>
      RemoveAtMultiset(s.hand, p);
      s.(hand := s.hand[..p] + s.hand[p + 1..],
         battlefield := s.battlefield + [s.hand[p]],
         lands := s.lands + 1)
  }

  predicate Castable(c: Card, lands: nat) {
    IsCreature(c) && c.cost <= lands
  }

  /** What the casting loop leaves: the cards kept in hand, the cards cast in order, the mana left. */
  datatype CastResult = CastResult(kept: seq<Card>, cast: seq<Card>, lands: nat)

  /**
   * The greedy casting walk over the hand: a creature that is affordable with
   * the mana left at that moment is cast and paid for, every other card is
   * kept, in hand order.
   */
  function CastCreatures(hand: seq<Card>, lands: nat): (r: CastResult)
    ensures r.lands <= lands
    decreases |hand|
  {
    if hand == [] then CastResult([], [], lands)
    else if Castable(hand[0], lands) then
      var rest := CastCreatures(hand[1..], lands - hand[0].cost);
      CastResult(rest.kept, [hand[0]] + rest.cast, rest.lands)
    else
      var rest := CastCreatures(hand[1..], lands);
      CastResult([hand[0]] + rest.kept, rest.cast, rest.lands)
  }

  /** Main: the land play, then the casting walk over the hand; then on to Combat. */
  function MainPhase(s: State): (r: State)
    ensures AllCards(r) == AllCards(s)
    ensures r.library == s.library && r.graveyard == s.graveyard
    ensures r.life == s.life && r.turns == s.turns && r.step == Combat
  {
    var played := PlayLand(s);
    var r := CastCreatures(played.hand, played.lands);
    CastConserves(played.hand, played.lands);
    played.(hand := r.kept, battlefield := played.battlefield + r.cast,
            lands := r.lands, step := Combat)
  }

  // ---------------------------------------------------------------------------
  // Combat

  /** The power a card deals: its creature fragment's power, or 0 without one. */
  function PowerOf(c: Card): (r: nat)
    ensures r <= 255
    ensures StatsOf(c).None? ==> r == 0
    ensures StatsOf(c).Some? ==> r == StatsOf(c).value.power
  {
    match StatsOf(c)
    case Some(st) => st.power
    case None => 0
  }

  /** The total power of a sequence of cards, summed front to back. */
  function TotalPower(cards: seq<Card>): (r: nat)
    ensures r <= 255 * |cards|
  {
    if cards == [] then 0
    else TotalPower(cards[..|cards| - 1]) + PowerOf(cards[|cards| - 1])
  }

  // ---------------------------------------------------------------------------
  // One step

  /**
   * One step of the match. The graveyard is never touched, the library never
   * grows, life never goes up, and the turn counter moves only at StartTurn.
   */
  function Next(s: State): (r: State)
    ensures s.step == GameOver ==> r == s
    ensures r.graveyard == s.graveyard
    ensures |r.library| <= |s.library|
    ensures r.life <= s.life
    ensures r.turns == if s.step == StartTurn then s.turns + 1 else s.turns
  {
    match s.step
    case StartTurn => s.(turns := s.turns + 1, step := Draw)
    case Draw =>
      if s.library == [] then s.(step := GameOver)
      else s.(library := s.library[..|s.library| - 1],
              hand := s.hand + [s.library[|s.library| - 1]],
              step := Main)
    case Main => MainPhase(s)
    case Combat =>
      var life := s.life - TotalPower(s.battlefield);
      s.(life := life, step := if life <= 0 then GameOver else EndTurn)
    case EndTurn => s.(step := StartTurn)
    case GameOver => s
  }

  /** `n` consecutive steps. */
  function Run(s: State, n: nat): State
    decreases n
  {
    if n == 0 then s else Run(Next(s), n - 1)
  }

  /** The steps left until GameOver at the latest: five per card in the library, plus the rest of this turn. */
  function Budget(s: State): nat {
    5 * |s.library| +
      match s.step
      case StartTurn => 2
      case Draw => 1
      case Main => 5
      case Combat => 4
      case EndTurn => 3
      case GameOver => 0
  }

  /** `a` is `b` with some elements left out, the rest in their original order. */
  predicate IsSubsequence<T(==)>(a: seq<T>, b: seq<T>)
    decreases |b|
  {
    if b == [] then a == []
    else (|a| > 0 && a[0] == b[0] && IsSubsequence(a[1..], b[1..])) || IsSubsequence(a, b[1..])
  }

  function CostSum(cards: seq<Card>): nat {
    if cards == [] then 0 else cards[0].cost + CostSum(cards[1..])
  }

  // ---------------------------------------------------------------------------
  // Sequences

  lemma {:induction false} SubsequenceRefl<T>(a: seq<T>)
    ensures IsSubsequence(a, a)
    decreases |a|
  {
    if a != [] {
      SubsequenceRefl(a[1..]);
    }
  }

  lemma {:induction false} SubsequenceTrans<T>(a: seq<T>, b: seq<T>, c: seq<T>)
    requires IsSubsequence(a, b) && IsSubsequence(b, c)
    ensures IsSubsequence(a, c)
    decreases |c|
  {
    if c != [] {
      if b != [] && b[0] == c[0] && IsSubsequence(b[1..], c[1..]) {
        if a != [] && a[0] == b[0] && IsSubsequence(a[1..], b[1..]) {
          SubsequenceTrans(a[1..], b[1..], c[1..]);
        } else {
          SubsequenceTrans(a, b[1..], c[1..]);
        }
      } else {
        SubsequenceTrans(a, b, c[1..]);
      }
    }
  }

  /** Removing one position keeps the others in order. */
  lemma {:induction false} RemoveAtIsSubsequence<T>(s: seq<T>, p: nat)
    requires p < |s|
    ensures IsSubsequence(s[..p] + s[p + 1..], s)
    decreases p
  {
    if p == 0 {
      assert s[..0] + s[1..] == s[1..];
      SubsequenceRefl(s[1..]);
    } else {
      RemoveAtIsSubsequence(s[1..], p - 1);
      assert (s[..p] + s[p + 1..])[1..] == s[1..][..p - 1] + s[1..][p..];
    }
  }

  lemma {:induction false} RemoveAtMultiset<T>(s: seq<T>, p: nat)
    requires p < |s|
    ensures multiset(s[..p] + s[p + 1..]) + multiset{s[p]} == multiset(s)
  {
    assert s == s[..p] + [s[p]] + s[p + 1..];
  }

  lemma {:induction false} CountMonotone(a: seq<Card>, b: seq<Card>, t: CardType)
    ensures CountIn(a, t) <= CountIn(a + b, t)
  {
    CountAppend(a, b, t);
  }

  // ---------------------------------------------------------------------------
  // The casting walk

  /** Casting only moves cards: kept and cast together are exactly the hand. */
  lemma {:induction false} CastConserves(hand: seq<Card>, lands: nat)
    ensures var r := CastCreatures(hand, lands);
      multiset(r.kept) + multiset(r.cast) == multiset(hand)
    decreases |hand|
  {
    if hand != [] {
      var c := if Castable(hand[0], lands) then lands - hand[0].cost else lands;
      CastConserves(hand[1..], c);
      assert hand == [hand[0]] + hand[1..];
    }
  }

  /** The mana spent is exactly the total cost of the cast cards, so the counter never underflows. */
  lemma {:induction false} CastPays(hand: seq<Card>, lands: nat)
    ensures var r := CastCreatures(hand, lands);
      r.lands + CostSum(r.cast) == lands
    decreases |hand|
  {
    if hand != [] {
      var c := if Castable(hand[0], lands) then lands - hand[0].cost else lands;
      CastPays(hand[1..], c);
    }
  }

  /**
   * Each card of `cast` is a creature that is affordable with the mana left
   * after paying for the cards before it.
   */
  predicate AffordableInTurn(cast: seq<Card>, lands: nat)
    decreases |cast|
  {
    cast == [] ||
      (Castable(cast[0], lands) && AffordableInTurn(cast[1..], lands - cast[0].cost))
  }

  /** Each cast card was affordable at the moment it was cast. */
  lemma {:induction false} CastAffordable(hand: seq<Card>, lands: nat)
    ensures AffordableInTurn(CastCreatures(hand, lands).cast, lands)
    decreases |hand|
  {
    if hand != [] {
      var r := CastCreatures(hand, lands);
      if Castable(hand[0], lands) {
        var l := lands - hand[0].cost;
        CastAffordable(hand[1..], l);
        assert r.cast[1..] == CastCreatures(hand[1..], l).cast;
      } else {
        CastAffordable(hand[1..], lands);
      }
    }
  }

  /** The walk stops only when no creature left in hand is affordable with the mana left. */
  lemma {:induction false} CastExhausts(hand: seq<Card>, lands: nat)
    ensures var r := CastCreatures(hand, lands);
      && r.lands <= lands
      && forall k :: 0 <= k < |r.kept| && IsCreature(r.kept[k]) ==> r.kept[k].cost > r.lands
    decreases |hand|
  {
    if hand != [] {
      var c := if Castable(hand[0], lands) then lands - hand[0].cost else lands;
      CastExhausts(hand[1..], c);
      var r := CastCreatures(hand, lands);
      var rest := CastCreatures(hand[1..], c);
      if !Castable(hand[0], lands) {
        forall k | 0 <= k < |r.kept| && IsCreature(r.kept[k])
          ensures r.kept[k].cost > r.lands
        {
          if k > 0 {
            assert r.kept[k] == rest.kept[k - 1];
          }
        }
      }
    }
  }

  /** Both the kept cards and the cast cards keep their hand order. */
  lemma {:induction false} CastKeepsOrder(hand: seq<Card>, lands: nat)
    ensures var r := CastCreatures(hand, lands);
      IsSubsequence(r.kept, hand) && IsSubsequence(r.cast, hand)
    decreases |hand|
  {
    if hand != [] {
      var c := if Castable(hand[0], lands) then lands - hand[0].cost else lands;
      CastKeepsOrder(hand[1..], c);
      var r := CastCreatures(hand, lands);
      if Castable(hand[0], lands) {
        assert r.cast[1..] == CastCreatures(hand[1..], c).cast;
      } else {
        assert r.kept[1..] == CastCreatures(hand[1..], c).kept;
      }
    }
  }

  /**
   * One iteration of the casting loop at index `i`: casting removes `hand[i]`
   * so the rest of the hand slides into index `i`; skipping moves `i` on.
   */
  lemma CastWalkStep(hand: seq<Card>, i: nat, lands: nat)
    requires i < |hand|
    ensures var r := CastCreatures(hand[i..], lands);
      var h := hand[..i] + hand[i + 1..];
      && h[..i] == hand[..i] && h[i..] == hand[i + 1..]
      && hand[..i + 1] == hand[..i] + [hand[i]]
      && (Castable(hand[i], lands) ==>
            var rest := CastCreatures(hand[i + 1..], lands - hand[i].cost);
            r == CastResult(rest.kept, [hand[i]] + rest.cast, rest.lands))
      && (!Castable(hand[i], lands) ==>
            var rest := CastCreatures(hand[i + 1..], lands);
            r == CastResult([hand[i]] + rest.kept, rest.cast, rest.lands))
  {
    assert hand[i..][0] == hand[i] && hand[i..][1..] == hand[i + 1..];
  }

  // ---------------------------------------------------------------------------
  // Combat damage

  lemma {:induction false} TotalPowerAppend(a: seq<Card>, b: seq<Card>)
    ensures TotalPower(a + b) == TotalPower(a) + TotalPower(b)
    decreases |b|
  {
    if b == [] {
      assert a + b == a;
    } else {
      var n := |b| - 1;
      assert (a + b)[..|a + b| - 1] == a + b[..n];
      TotalPowerAppend(a, b[..n]);
    }
  }

  /** Cards without a creature fragment deal nothing. */
  lemma {:induction false} TotalPowerNoCreatures(cards: seq<Card>)
    requires forall k :: 0 <= k < |cards| ==> StatsOf(cards[k]).None?
    ensures TotalPower(cards) == 0
    decreases |cards|
  {
    if cards != [] {
      TotalPowerNoCreatures(cards[..|cards| - 1]);
    }
  }

  // ---------------------------------------------------------------------------
  // Properties of one step

  /** The phases follow the fixed cycle, with GameOver entered only from Draw or Combat. */
  lemma StepCycle(s: State)
    ensures s.step == StartTurn ==> Next(s) == s.(turns := s.turns + 1, step := Draw)
    ensures s.step == Draw ==> Next(s).step == (if s.library == [] then GameOver else Main)
    ensures s.step == Main ==> Next(s).step == Combat
    ensures s.step == Combat ==> Next(s).step == (if Next(s).life <= 0 then GameOver else EndTurn)
    ensures s.step == EndTurn ==> Next(s) == s.(step := StartTurn)
    ensures Next(s).step == GameOver && s.step != GameOver ==>
      (s.step == Draw && s.library == []) || (s.step == Combat && Next(s).life <= 0)
  {
  }

  /** Draw moves the last library card to the end of the hand; with an empty library the game is lost and nothing else changes. */
  lemma DrawStep(s: State)
    requires s.step == Draw
    ensures s.library != [] ==>
      Next(s) == s.(library := s.library[..|s.library| - 1],
                    hand := s.hand + [s.library[|s.library| - 1]], step := Main)
    ensures s.library != [] ==>
      && Next(s).library + [s.library[|s.library| - 1]] == s.library
      && Next(s).hand == s.hand + [s.library[|s.library| - 1]]
      && |Next(s).library| == |s.library| - 1 && |Next(s).hand| == |s.hand| + 1
      && Next(s).battlefield == s.battlefield && Next(s).life == s.life
      && Next(s).step == Main
    ensures s.library == [] ==> Next(s) == s.(step := GameOver)
  {
  }

  /**
   * The land play of Main: at most one card moves from hand to battlefield as
   * a land, it is the first Land-tagged card in hand order, and the mana
   * counter grows by one exactly when such a card was in hand.
   */
  lemma {:induction false} LandPlay(s: State)
    ensures var p := PlayLand(s);
      && (p.lands == s.lands + 1 <==> exists k :: 0 <= k < |s.hand| && IsType(s.hand[k], Land))
      && (p.lands == s.lands ==> p == s)
      && (p.lands == s.lands + 1 ==>
            exists k :: 0 <= k < |s.hand| && IsType(s.hand[k], Land)
              && (forall j :: 0 <= j < k ==> !IsType(s.hand[j], Land))
              && p.hand == s.hand[..k] + s.hand[k + 1..]
              && p.battlefield == s.battlefield + [s.hand[k]])
      && p.library == s.library && p.graveyard == s.graveyard
      && p.life == s.life && p.turns == s.turns && p.step == s.step
    ensures (forall k :: 0 <= k < |s.hand| ==> !IsType(s.hand[k], Land)) ==> PlayLand(s) == s
    ensures PlayLand(s).lands == s.lands || PlayLand(s).lands == s.lands + 1
  {
    match FirstLand(s.hand)
    case None =>
    case Some(k) =>
      assert IsType(s.hand[k], Land);
  }

  /**
   * Main as a whole: the creatures cast are paid for out of the mana counter,
   * which never goes below zero, and every creature left in hand costs more
   * than the mana that is left.
   */
  lemma MainCasting(s: State)
    requires s.step == Main
    ensures var t := Next(s);
      var played := PlayLand(s);
      && |played.battlefield| <= |t.battlefield|
      && t.battlefield[..|played.battlefield|] == played.battlefield
      && t.lands + CostSum(t.battlefield[|played.battlefield|..]) == played.lands
      && AffordableInTurn(t.battlefield[|played.battlefield|..], played.lands)
      && (forall k :: 0 <= k < |t.hand| && IsCreature(t.hand[k]) ==> t.hand[k].cost > t.lands)
      && IsSubsequence(t.hand, s.hand)
    ensures Next(s).library == s.library && Next(s).graveyard == s.graveyard
    ensures Next(s).life == s.life && Next(s).turns == s.turns
  {
    var played := PlayLand(s);
    var r := CastCreatures(played.hand, played.lands);
    var t := Next(s);
    assert t.battlefield == played.battlefield + r.cast;
    assert t.battlefield[|played.battlefield|..] == r.cast;
    CastPays(played.hand, played.lands);
    CastAffordable(played.hand, played.lands);
    CastExhausts(played.hand, played.lands);
    CastKeepsOrder(played.hand, played.lands);
    match FirstLand(s.hand)
    case None =>
    case Some(p) =>
      RemoveAtIsSubsequence(s.hand, p);
      SubsequenceTrans(r.kept, played.hand, s.hand);
  }

  /** Combat takes the total battlefield power off the player's own life, and nothing else changes. */
  lemma CombatStep(s: State)
    requires s.step == Combat
    ensures Next(s) == s.(life := s.life - TotalPower(s.battlefield), step := Next(s).step)
    ensures s.life - 255 * |s.battlefield| <= Next(s).life <= s.life
    ensures Next(s).step == GameOver <==> Next(s).life <= 0
  {
  }

  /** Every step only moves cards between zones: the cards of the match are conserved. */
  lemma StepConservesCards(s: State)
    ensures AllCards(Next(s)) == AllCards(s)
  {
    if s.step == Draw && s.library != [] {
      var n := |s.library| - 1;
      assert s.library == s.library[..n] + [s.library[n]];
    }
  }

  /** Cards already on the battlefield stay there, in place: the battlefield only grows at its end. */
  lemma StepOnlyAppendsToBattlefield(s: State)
    ensures |s.battlefield| <= |Next(s).battlefield|
    ensures Next(s).battlefield[..|s.battlefield|] == s.battlefield
    ensures Next(s).graveyard == s.graveyard
  {
    if s.step == Main {
      var played := PlayLand(s);
      assert played.battlefield[..|s.battlefield|] == s.battlefield;
    }
  }

  /** Every step keeps the mana counter within the Land-tagged cards on the battlefield. */
  lemma StepPreservesInv(s: State)
    requires Inv(s)
    ensures Inv(Next(s))
  {
    if s.step == Main {
      var played := PlayLand(s);
      var first := FirstLand(s.hand);
      if first.Some? {
        CountAppend(s.battlefield, [s.hand[first.value]], Land);
      }
      assert Inv(played);
      var r := CastCreatures(played.hand, played.lands);
      CastExhausts(played.hand, played.lands);
      CountMonotone(played.battlefield, r.cast, Land);
    }
  }

  // ---------------------------------------------------------------------------
  // Properties of a whole match

  /** Once over, a match stays over however many more steps are taken. */
  lemma {:induction false} GameOverAbsorbing(s: State, n: nat)
    requires IsGameOver(s)
    ensures Run(s, n) == s
    decreases n
  {
    if n > 0 {
      GameOverAbsorbing(Next(s), n - 1);
    }
  }

  /** The cards of the match are conserved over any number of steps. */
  lemma {:induction false} RunConservesCards(s: State, n: nat)
    ensures AllCards(Run(s, n)) == AllCards(s)
    ensures Inv(s) ==> Inv(Run(s, n))
    decreases n
  {
    if n > 0 {
      var t := Next(s);
      assert Run(s, n) == Run(t, n - 1);
      StepConservesCards(s);
      if Inv(s) {
        StepPreservesInv(s);
      }
      RunConservesCards(t, n - 1);
    }
  }

  lemma StepSpendsBudget(s: State)
    requires !IsGameOver(s)
    ensures Budget(Next(s)) < Budget(s)
  {
  }

  /** Stepping until GameOver terminates: after `Budget(s)` steps the match is over. */
  lemma {:induction false} MatchEnds(s: State, n: nat)
    requires n >= Budget(s)
    ensures IsGameOver(Run(s, n))
    decreases n
  {
    if IsGameOver(s) {
      GameOverAbsorbing(s, n);
    } else {
      StepSpendsBudget(s);
      MatchEnds(Next(s), n - 1);
    }
  }

  // ---------------------------------------------------------------------------
  // Zone lookup and the zone summary

  /** The zone lookup of a match: every zone but Exile is present. */
  function ZoneOf(s: State, z: Zone): (r: Option<seq<Card>>)
    ensures r.None? <==> z == Exile
    ensures r.Some? ==> multiset(r.value) <= AllCards(s)
  {
    match z
    case Library => Some(s.library)
    case Hand => Some(s.hand)
    case Battlefield => Some(s.battlefield)
    case Graveyard => Some(s.graveyard)
    case Exile => None
  }

  /** The zones the summary view lists, in its order. */
  const SummaryZones: seq<Zone> := [Hand, Battlefield, Library, Graveyard, Exile]

  /**
   * The zone sizes as the summary view reads them: each lookup is unwrapped,
   * and `None` stands for the panic of unwrapping a missing zone.
   */
  function ZoneSizesAsWritten(s: State, zones: seq<Zone>): (r: Option<seq<nat>>)
    ensures r.None? <==> Exile in zones
    ensures r.Some? ==> r.value == ZoneSizes(s, zones)
    decreases |zones|
  {
    if zones == [] then Some([])
    else match ZoneOf(s, zones[0])
      case None => None
      case Some(cards) =>
        match ZoneSizesAsWritten(s, zones[1..])
        case None => None
        case Some(rest) => Some([|cards|] + rest)
  }

  /** The zone sizes with a missing zone read as empty. */
  function ZoneSizes(s: State, zones: seq<Zone>): (r: seq<nat>)
    ensures |r| == |zones|
    decreases |zones|
  {
    if zones == [] then []
    else
      var size := match ZoneOf(s, zones[0]) case None => 0 case Some(cards) => |cards|;
      [size] + ZoneSizes(s, zones[1..])
  }

  function Sum(xs: seq<nat>): nat {
    if xs == [] then 0 else xs[0] + Sum(xs[1..])
  }

  /** The summary view panics on every match: the Exile lookup is unwrapped but never present. */
  lemma {:induction false} SummaryAlwaysPanics(s: State)
    ensures ZoneSizesAsWritten(s, SummaryZones) == None
  {
    var zs := SummaryZones;
    assert zs[1..][1..][1..][1..] == [Exile];
    assert ZoneSizesAsWritten(s, [Exile]) == None;
  }

  /** With a missing zone read as empty the summary is total and accounts for every card of the match. */
  lemma {:induction false} SummaryCountsEveryCard(s: State)
    ensures var sizes := ZoneSizes(s, SummaryZones);
      && sizes == [|s.hand|, |s.battlefield|, |s.library|, |s.graveyard|, 0]
      && Sum(sizes) == |AllCards(s)|
  {
    var zs := SummaryZones;
    assert zs[1..] == [Battlefield, Library, Graveyard, Exile];
    assert zs[1..][1..] == [Library, Graveyard, Exile];
    assert zs[1..][1..][1..] == [Graveyard, Exile];
    assert zs[1..][1..][1..][1..] == [Exile];
    assert zs[1..][1..][1..][1..][1..] == [];
    var sizes := ZoneSizes(s, zs);
    assert sizes == [|s.hand|, |s.battlefield|, |s.library|, |s.graveyard|, 0];
    assert Sum(sizes[4..]) == 0;
    assert Sum(sizes[3..]) == |s.graveyard|;
    assert Sum(sizes[2..]) == |s.library| + |s.graveyard|;
    assert Sum(sizes[1..]) == |s.battlefield| + |s.library| + |s.graveyard|;
  }

  // ---------------------------------------------------------------------------
  // The mutable match

  function Min(a: int, b: int): int {
    if a <= b then a else b
  }

  class GameState {
    var library: seq<Card>
    var hand: seq<Card>
    var battlefield: seq<Card>
    var graveyard: seq<Card>
    var lands: nat
    var life: int
    var turns: nat
    var step: GameStep

    function Snapshot(): State
      reads this
    {
      State(library, hand, battlefield, graveyard, lands, life, turns, step)
    }

    ghost predicate Valid()
      reads this
    {
      Inv(Snapshot())
    }

    /** Whether the match is over: exactly when a step would leave it unchanged. */
    function IsGameOver(): (r: bool)
      reads this
      ensures r <==> Next(Snapshot()) == Snapshot()
    {
      assert step == Main ==> Next(Snapshot()).step == Combat;
      step == GameOver
    }

    /**
     * A new match: `shuffled` is the deck after the shuffle, and the opening
     * hand is dealt by popping up to seven cards off its end.
     */
    constructor (deck: Deck, shuffled: seq<Card>)
      requires multiset(shuffled) == multiset(deck.cards)
      ensures |hand| == Min(7, |shuffled|)
      ensures library == shuffled[..|shuffled| - |hand|]
      ensures forall j :: 0 <= j < |hand| ==> hand[j] == shuffled[|shuffled| - 1 - j]
      ensures multiset(library) + multiset(hand) == multiset(deck.cards)
      ensures battlefield == [] && graveyard == []
      ensures lands == 0 && life == 20 && turns == 0 && step == StartTurn
      ensures Valid()
    {
      var lib := shuffled;
      var h: seq<Card> := [];
      for k := 0 to 7
        invariant |h| == Min(k, |shuffled|)
        invariant lib == shuffled[..|shuffled| - |h|]
        invariant forall j :: 0 <= j < |h| ==> h[j] == shuffled[|shuffled| - 1 - j]
        invariant multiset(lib) + multiset(h) == multiset(shuffled)
      {
        if lib != [] {
          var card := lib[|lib| - 1];
          assert lib == lib[..|lib| - 1] + [card];
          lib := lib[..|lib| - 1];
          h := h + [card];
        }
      }
      library := lib;
      hand := h;
      battlefield := [];
      graveyard := [];
      lands := 0;
      life := 20;
      turns := 0;
      step := GameStep.StartTurn;
    }

    /** Advances the match by exactly one phase. */
    method Step()
      modifies this
      ensures Snapshot() == Next(old(Snapshot()))
      ensures old(Valid()) ==> Valid()
    {
      match step {
      case StartTurn =>
        turns := turns + 1;
        step := Draw;
      case Draw =>
        if library != [] {
          var card := library[|library| - 1];
          library := library[..|library| - 1];
          hand := hand + [card];
          step := Main;
        } else {
          step := GameOver;
        }
      case Main =>
        PlayFirstLand();
        CastAffordableCreatures();
        step := Combat;
      case Combat =>
        var damage := CombatDamage();
        life := life - damage;
        if life <= 0 {
          step := GameOver;
        } else {
          step := EndTurn;
        }
      case EndTurn =>
        step := StartTurn;
      case GameOver =>
      }
      ghost var was := old(Snapshot());
      if was.step == Main {
        assert Snapshot() == MainPhase(was);
      }
      if old(Valid()) {
        StepPreservesInv(was);
      }
    }

    /** The land play of Main. */
    method PlayFirstLand()
      modifies this
      ensures Snapshot() == PlayLand(old(Snapshot()))
    {
      match FirstLand(hand)
      case None =>
      case Some(p) =>
        var card := hand[p];
        hand := hand[..p] + hand[p + 1..];
        lands := lands + 1;
        battlefield := battlefield + [card];
    }

    /**
     * The casting loop of Main: walks the hand with an index, casting an
     * affordable creature in place (the next card slides into the same
     * index) and stepping past any other card.
     */
    method CastAffordableCreatures()
      modifies this
      ensures var r := CastCreatures(old(hand), old(lands));
        && hand == r.kept && battlefield == old(battlefield) + r.cast && lands == r.lands
      ensures library == old(library) && graveyard == old(graveyard)
      ensures life == old(life) && turns == old(turns) && step == old(step)
    {
      ghost var h0, l0, b0 := hand, lands, battlefield;
      var i := 0;
      while i < |hand|
        invariant 0 <= i <= |hand|
        invariant |b0| <= |battlefield| && battlefield[..|b0|] == b0
        invariant CastCreatures(h0, l0).kept == hand[..i] + CastCreatures(hand[i..], lands).kept
        invariant CastCreatures(h0, l0).cast == battlefield[|b0|..] + CastCreatures(hand[i..], lands).cast
        invariant CastCreatures(h0, l0).lands == CastCreatures(hand[i..], lands).lands
        invariant library == old(library) && graveyard == old(graveyard)
        invariant life == old(life) && turns == old(turns) && step == old(step)
        decreases |hand| - i
      {
        CastWalkStep(hand, i, lands);
        if IsCreature(hand[i]) && hand[i].cost <= lands {
          var card := hand[i];
          hand := hand[..i] + hand[i + 1..];
          lands := lands - card.cost;
          battlefield := battlefield + [card];
        } else {
          i := i + 1;
        }
      }
      assert hand[i..] == [] && hand[..i] == hand;
      assert battlefield == b0 + battlefield[|b0|..];
    }

    /** The damage of Combat: the power of every battlefield card, summed. */
    method CombatDamage() returns (damage: nat)
      ensures damage == TotalPower(battlefield)
    {
      damage := 0;
      for k := 0 to |battlefield|
        invariant damage == TotalPower(battlefield[..k])
      {
        assert battlefield[..k + 1][..k] == battlefield[..k];
        damage := damage + PowerOf(battlefield[k]);
      }
      assert battlefield[..|battlefield|] == battlefield;
    }
  }
}
