/**
 * The tappable capability: queries and the mutator over the `TappableKind`
 * fragment of a card. A card without that fragment reads as untapped and
 * ignores tap requests.
 */
module Tappables {
  import opened Cards

  /**
   * Whether the card has a tappable fragment. A card without one reads as
   * untapped and ignores every tap request; on a well-keyed card with one,
   * the flag reads back whatever was set.
   */
  function IsTappable(c: Card): (r: bool)
    ensures !r ==> !IsTapped(c)
    ensures !r ==> forall v: bool :: SetTapped(c, v) == c
    ensures r && WellKeyed(c) ==> forall v: bool :: IsTapped(SetTapped(c, v)) == v
  {
    TappableKind in c.fragments
  }

  /** The `tapped` flag of the fragment; false when the key is missing or holds another record. */
  function IsTapped(c: Card): (r: bool)
    ensures r ==> TappableKind in c.fragments
  {
    TappableKind in c.fragments && c.fragments[TappableKind].TappableFragment?
      && c.fragments[TappableKind].tapped
  }

  /** Sets the `tapped` flag in place when the card has a tappable fragment, else does nothing. */
  function SetTapped(c: Card, value: bool): (r: Card)
    ensures TappableKind !in c.fragments ==> r == c
    ensures WellKeyed(c) && TappableKind in c.fragments ==> IsTapped(r) == value
    ensures (TappableKind in r.fragments) == (TappableKind in c.fragments)
    ensures r.name == c.name && r.cardTypes == c.cardTypes && r.cost == c.cost
    ensures r.fragments - {TappableKind} == c.fragments - {TappableKind}
    ensures WellKeyed(c) ==> WellKeyed(r)
  {
    if TappableKind in c.fragments && c.fragments[TappableKind].TappableFragment?
    then c.(fragments := c.fragments[TappableKind := TappableFragment(value)])
    else c
  }

  // ---------------------------------------------------------------------------

  /** The last `set_tapped` wins. */
  lemma SetTappedLastWins(c: Card, a: bool, b: bool)
    ensures SetTapped(SetTapped(c, a), b) == SetTapped(c, b)
  {
    if TappableKind in c.fragments && c.fragments[TappableKind].TappableFragment? {
      assert SetTapped(SetTapped(c, a), b).fragments == SetTapped(c, b).fragments;
    }
  }

  /** Setting the flag back to what `is_tapped` read gives back the original card. */
  lemma SetTappedRestores(c: Card, value: bool)
    ensures SetTapped(SetTapped(c, value), IsTapped(c)) == c
  {
    if TappableKind in c.fragments && c.fragments[TappableKind].TappableFragment? {
      var f := c.fragments[TappableKind];
      assert f == TappableFragment(IsTapped(c));
      assert SetTapped(SetTapped(c, value), IsTapped(c)).fragments == c.fragments;
    }
  }

  /** On a tappable card the flag reads back exactly what was last set. */
  lemma TapThenUntap(c: Card)
    requires WellKeyed(c) && IsTappable(c)
    ensures IsTapped(SetTapped(c, true))
    ensures !IsTapped(SetTapped(SetTapped(c, true), false))
  {
  }
}
