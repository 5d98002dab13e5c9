/**
 * The card catalogue: each card has an id (its Polish word) and a map from
 * language code to its name in that language, and the service lists the
 * names available in one language (card/service/impl/DefaultCardService.java).
 */
module Cards {
  import opened Wrappers

  datatype Card = Card(id: string, names: map<string, string>)

  /** Map.getOrDefault(language, ""). */
  function NameOrEmpty(card: Card, language: string): string
  {
    if language in card.names then card.names[language] else ""
  }

  /** Each card's name in the language, in repository order, skipping cards with no (or an empty) name. */
  function NamesIn(cards: seq<Card>, language: string): (names: seq<string>)
    ensures |names| <= |cards|
    ensures forall k :: 0 <= k < |names| ==> names[k] != ""
  {
    if |cards| == 0 then []
    else
      var name := NameOrEmpty(cards[0], language);
      (if name != "" then [name] else []) + NamesIn(cards[1..], language)
  }

  /** getCardsInLanguage: no names for a null or empty language code. */
  function GetCardsInLanguage(cards: seq<Card>, language: Option<string>): (names: seq<string>)
    ensures language.None? || language == Some("") ==> names == []
    ensures language.Some? && language.value != "" ==> names == NamesIn(cards, language.value)
  {
    if language.Some? && language.value != "" then NamesIn(cards, language.value) else []
  }

  /** The listing keeps repository order: listing two runs of cards is listing each in turn. */
  lemma {:induction false} NamesInAppend(a: seq<Card>, b: seq<Card>, language: string)
    ensures NamesIn(a + b, language) == NamesIn(a, language) + NamesIn(b, language)
  {
    if |a| > 0 {
      assert (a + b)[0] == a[0];
      assert (a + b)[1..] == a[1..] + b;
      NamesInAppend(a[1..], b, language);
    } else {
      assert a + b == b;
    }
  }

  /** One card contributes its name exactly when that name is present and not empty. */
  lemma NamesInSingle(card: Card, language: string)
    ensures NamesIn([card], language)
            == if language in card.names && card.names[language] != "" then [card.names[language]] else []
  {
    assert [card][1..] == [];
  }

  /** When every card has a name in the language, the listing is exactly those names, one per card. */
  lemma {:induction false} NamesInComplete(cards: seq<Card>, language: string)
    requires forall k :: 0 <= k < |cards| ==> language in cards[k].names && cards[k].names[language] != ""
    ensures |NamesIn(cards, language)| == |cards|
    ensures forall k :: 0 <= k < |cards| ==> NamesIn(cards, language)[k] == cards[k].names[language]
  {
    if |cards| > 0 {
      NamesInComplete(cards[1..], language);
      var rest := NamesIn(cards[1..], language);
      assert NamesIn(cards, language) == [cards[0].names[language]] + rest;
      forall k | 1 <= k < |cards| ensures NamesIn(cards, language)[k] == cards[k].names[language] {
        assert rest[k - 1] == cards[1..][k - 1].names[language];
      }
    }
  }
}
