/**
 * The two pieces of logic of the opportunity card
 * (frontend/src/components/OpportunityCard.tsx): the description shown on
 * the card, cut to a character budget, and the favourite button, which
 * deletes or inserts the card's `saved_opportunities` row and flips its star
 * only when the store call succeeds.
 */
module OpportunityCard {
  import opened Wrappers

  type UserId = string
  type OpportunityId = string

  const NoDescription := "Sem descrição."
  const Ellipsis := "..."
  /** The number of description characters the card shows. */
  const DescriptionBudget := 150

  // ---------------------------------------------------------------------
  // The shown description
  // ---------------------------------------------------------------------

  /**
   * `truncateDescription(text, length)`: a placeholder for the empty text,
   * the text itself when it fits, otherwise its first `length` characters
   * followed by `...` (`substring` treats a negative `length` as 0).
   */
  function TruncateDescription(text: string, length: int): (r: string)
    ensures text == "" ==> r == NoDescription
    ensures text != "" && |text| <= length ==> r == text
    ensures text != "" && |text| > length ==>
              var n := if length < 0 then 0 else length;
              |r| == n + |Ellipsis| && r[..n] == text[..n] && r[n..] == Ellipsis
  {
    if text == "" then NoDescription
    else if |text| > length then text[..if length < 0 then 0 else length] + Ellipsis
    else text
  }

  /**
   * The paragraph of the card: a missing description reads as `''`, which
   * shows the placeholder; anything else is cut at the budget.
   */
  function ShownDescription(description: Option<string>): (r: string)
    ensures description.GetOr("") == "" ==> r == NoDescription
    ensures description.Some? && 0 < |description.value| <= DescriptionBudget ==> r == description.value
    ensures description.Some? && |description.value| > DescriptionBudget ==>
              r == description.value[..DescriptionBudget] + Ellipsis
    ensures |r| <= DescriptionBudget + |Ellipsis|
  {
    TruncateDescription(description.GetOr(""), DescriptionBudget)
  }

  // ---------------------------------------------------------------------
  // The favourite button
  // ---------------------------------------------------------------------

  /** The `saved_opportunities` call the toggle sends. */
  datatype SaveCall =
    | DeleteSaved(userId: UserId, opportunityId: OpportunityId)
    | InsertSaved(userId: UserId, opportunityId: OpportunityId)

  /** The store's answer to that call: `error` absent or present. */
  datatype Outcome = Success | Failure(message: string)

  /** The `saved_opportunities` rows, and what a call does to them. */
  function Apply(saved: set<(UserId, OpportunityId)>, call: SaveCall, outcome: Outcome): set<(UserId, OpportunityId)>
  {
    if outcome.Failure? then saved
    else match call
      case DeleteSaved(u, o) => saved - {(u, o)}
      case InsertSaved(u, o) => saved + {(u, o)}
  }

  /** The state of one card: its `isFavorited` and `isLoading` hooks. */
  class FavoriteButton {
    const userId: UserId
    const opportunityId: OpportunityId
    var isFavorited: bool
    var isLoading: bool

    constructor (userId: UserId, opportunityId: OpportunityId, isInitiallyFavorited: bool)
      ensures this.userId == userId && this.opportunityId == opportunityId
      ensures isFavorited == isInitiallyFavorited && !isLoading
    {
      this.userId := userId;
      this.opportunityId := opportunityId;
      isFavorited := isInitiallyFavorited;
      isLoading := false;
    }

    /**
     * The awaited `saved_opportunities` call. The store's answer is a
     * parameter; the call may only be sent while the button is loading.
     */
    method Send(call: SaveCall, outcome: Outcome) returns (r: Outcome)
      requires isLoading
      ensures r == outcome
    {
      r := outcome;
    }

    /** The star agrees with the store: it is lit iff the card's row exists. */
    predicate InSync(saved: set<(UserId, OpportunityId)>)
      reads this
    {
      isFavorited <==> (userId, opportunityId) in saved
    }

    /**
     * `handleFavoriteToggle`: the store call is a delete when the card is
     * favorited and an insert otherwise; it is sent, through `Send`, while
     * `isLoading` is set;
     * the star flips iff the call succeeds; `isLoading` is cleared whatever
     * the outcome. A card in sync with the store stays in sync with what the
     * call leaves in the store.
     */
    method HandleFavoriteToggle(outcome: Outcome, ghost saved: set<(UserId, OpportunityId)>)
      returns (call: SaveCall)
      modifies this
      ensures call == if old(isFavorited) then DeleteSaved(userId, opportunityId) else InsertSaved(userId, opportunityId)
      ensures isFavorited == if outcome.Success? then !old(isFavorited) else old(isFavorited)
      ensures !isLoading
      ensures old(InSync(saved)) ==> InSync(Apply(saved, call, outcome))
    {
      isLoading := true;
      if isFavorited {
        call := DeleteSaved(userId, opportunityId);
        var result := Send(call, outcome);
        if result.Success? {
          isFavorited := false;
        }
      } else {
        call := InsertSaved(userId, opportunityId);
        var result := Send(call, outcome);
        if result.Success? {
          isFavorited := true;
        }
      }
      isLoading := false;
    }
  }

  /**
   * Two clicks whose store calls both succeed: the star is back where it
   * was, the button is not loading, and the second call undoes the first
   * in a store that was in sync with the card.
   */
  method ToggleTwice(button: FavoriteButton, ghost saved: set<(UserId, OpportunityId)>)
    returns (first: SaveCall, second: SaveCall)
    modifies button
    ensures button.isFavorited == old(button.isFavorited) && !button.isLoading
    ensures first.DeleteSaved? <==> second.InsertSaved?
    ensures old(button.InSync(saved)) ==> Apply(Apply(saved, first, Success), second, Success) == saved
    ensures old(button.InSync(saved)) ==> button.InSync(saved)
  {
    first := button.HandleFavoriteToggle(Success, saved);
    second := button.HandleFavoriteToggle(Success, Apply(saved, first, Success));
  }
}
