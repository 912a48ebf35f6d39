/**
 * The in-memory deck and card store of the simplified view-model: an
 * auto-incrementing deck id, the list of decks, a list of cards per deck id,
 * and the placeholder dictionary and translation callbacks.
 */
module DeckStore {

  datatype Option<T> = None | Some(value: T)

  datatype Deck = Deck(id: int, name: string)
  datatype Card = Card(front: string, back: string)

  /** Deck ids strictly increase in list order, so no two decks share an id. */
  predicate IdsIncreasing(decks: seq<Deck>) {
    forall i, j :: 0 <= i < j < |decks| ==> decks[i].id < decks[j].id
  }

  class Store {
    var allDecks: seq<Deck>
    var cards: map<int, seq<Card>>
    var nextDeckId: int

    /**
     * Deck ids are positive, below the next id to hand out and strictly
     * increasing in list order (so unique), and every deck has a card list.
     */
    ghost predicate Valid()
      reads this
    {
      && 1 <= nextDeckId
      && IdsIncreasing(allDecks)
      && (forall i :: 0 <= i < |allDecks| ==> 1 <= allDecks[i].id < nextDeckId)
      && (forall i :: 0 <= i < |allDecks| ==> allDecks[i].id in cards)
    }

    constructor ()
      ensures Valid()
      ensures allDecks == [] && cards == map[] && nextDeckId == 1
    {
      allDecks := [];
      cards := map[];
      nextDeckId := 1;
    }

    /**
     * Appends a deck under the next id and gives it an empty card list
     * (replacing any list already filed under that id).
     */
    method AddDeck(name: string)
      requires Valid()
      modifies this
      ensures Valid()
      ensures allDecks == old(allDecks) + [Deck(old(nextDeckId), name)]
      ensures nextDeckId == old(nextDeckId) + 1
      ensures cards == old(cards)[old(nextDeckId) := []]
      ensures forall i :: 0 <= i < |old(allDecks)| ==> allDecks[i].id != old(nextDeckId)
    {
      var deck := Deck(nextDeckId, name);
      nextDeckId := nextDeckId + 1;
      allDecks := allDecks + [deck];
      cards := cards[deck.id := []];
    }

    /**
     * Appends a card to the list of `deckId`, creating the list if there is
     * none; decks, the id counter and every other list are left alone.
     */
    method AddCard(deckId: int, front: string, back: string)
      requires Valid()
      modifies this`cards
      ensures Valid()
      ensures cards == old(cards)[deckId :=
        (if deckId in old(cards) then old(cards)[deckId] else []) + [Card(front, back)]]
      ensures forall id :: id in old(cards) && id != deckId ==> id in cards && cards[id] == old(cards)[id]
    {
      if deckId !in cards {
        cards := cards[deckId := []];
      }
      var list := cards[deckId];
      cards := cards[deckId := list + [Card(front, back)]];
    }
  }

  // ---------------------------------------------------------------------
  // Placeholder dictionary and translation: the value handed to the callback,
  // or None when the callback is never called.

  /** Kotlin's `Char.isWhitespace`: Java whitespace or a Unicode space separator. */
  predicate IsWhitespace(c: char) {
    || c == ' '
    || ('\t' <= c <= '\r')
    || ('\U{1C}' <= c <= '\U{1F}')
    || c == '\U{A0}'
    || c == '\U{1680}'
    || ('\U{2000}' <= c <= '\U{200A}')
    || c == '\U{2028}' || c == '\U{2029}'
    || c == '\U{202F}' || c == '\U{205F}' || c == '\U{3000}'
  }

  /** Kotlin's `isBlank`: empty or whitespace only. */
  predicate IsBlank(s: string) {
    forall i :: 0 <= i < |s| ==> IsWhitespace(s[i])
  }

  function Reverse(s: string): (r: string)
    ensures |r| == |s|
    ensures forall i :: 0 <= i < |s| ==> r[i] == s[|s| - 1 - i]
  {
    if s == [] then [] else Reverse(s[1..]) + [s[0]]
  }

  /** Reversing twice gives back the input. */
  lemma ReverseReverse(s: string)
    ensures Reverse(Reverse(s)) == s
  {
    var r := Reverse(s);
    assert forall i :: 0 <= i < |s| ==> Reverse(r)[i] == r[|s| - 1 - i] == s[i];
  }

  /** A string and its reversal are blank together. */
  lemma ReverseBlank(s: string)
    ensures IsBlank(Reverse(s)) <==> IsBlank(s)
  {
    var r := Reverse(s);
    if IsBlank(s) {
      forall i | 0 <= i < |r| ensures IsWhitespace(r[i]) {
        assert r[i] == s[|s| - 1 - i];
      }
    }
    if IsBlank(r) {
      forall i | 0 <= i < |s| ensures IsWhitespace(s[i]) {
        assert r[|s| - 1 - i] == s[i];
      }
    }
  }

  /** The placeholder translation: the text reversed; blank text gets no answer. */
  function TranslateText(text: string): (r: Option<string>)
    ensures r.None? <==> IsBlank(text)
    ensures r.Some? ==> |r.value| == |text| && forall i :: 0 <= i < |text| ==> r.value[i] == text[|text| - 1 - i]
  {
    if IsBlank(text) then None else Some(Reverse(text))
  }

  /** Translating the translation gives back the original text. */
  lemma TranslateTwice(text: string)
    requires !IsBlank(text)
    ensures TranslateText(text).Some?
    ensures TranslateText(TranslateText(text).value) == Some(text)
  {
    ReverseBlank(text);
    ReverseReverse(text);
  }

  const DefinitionPrefix: string := "Definition of '"

  /** The placeholder dictionary answer: the word quoted after a fixed prefix; a blank word gets no answer. */
  function FetchDefinition(word: string): (r: Option<string>)
    ensures r.None? <==> IsBlank(word)
    ensures r.Some? ==> DefinedWord(r.value) == Some(word)
  {
    if IsBlank(word) then None
    else
      var d := DefinitionPrefix + word + "'";
      assert d[..|DefinitionPrefix|] == DefinitionPrefix;
      assert d[|DefinitionPrefix|..|d| - 1] == word;
      Some(d)
  }

  /** Reads the word back out of a dictionary answer. */
  function DefinedWord(d: string): (w: Option<string>)
    ensures w.Some? ==> d == DefinitionPrefix + w.value + "'"
  {
    if |d| >= |DefinitionPrefix| + 1 && d[..|DefinitionPrefix|] == DefinitionPrefix && d[|d| - 1] == '\''
    then Some(d[|DefinitionPrefix|..|d| - 1])
    else None
  }
}
