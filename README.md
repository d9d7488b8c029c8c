# Freelancer Hub: keyword matcher and opportunity card

A Dafny model of the two pieces of logic in Freelancer Hub, a dashboard of freelance job
opportunities.

- **The notification matcher** in the `POST /api/notify` handler of the API. It takes a list
  of new opportunity ids and checks the payload. It reads those opportunities and all keywords,
  each keyword joined to its owner's email. It then compares every opportunity with every
  keyword. A keyword matches when its lower-cased term occurs in the lower-cased title or
  description, and a missing description counts as `''`. On a match whose owner has an email,
  the opportunity goes into that user's entry of the notification batch. An entry is created
  with the email of the first matching keyword that has an email, and an opportunity id is
  never added twice. The response reports the number of users in the batch.
- **The opportunity card** of the frontend. It shows the description cut to 150 characters,
  or a placeholder when there is none. Its favourite button deletes or inserts the card's
  `saved_opportunities` row, and the star flips only when that call succeeds.

Files:

- `wrappers.dfy`: module `Wrappers`, the `Option` type for nullable values.
- `text.dfy`: module `Text`, ASCII `toLowerCase` and `includes`.
- `matcher.dfy`: module `Matcher`.
  - The rows, the match test and the batch.
  - `Expected`: the declarative specification of the batch.
  - `BuildNotifications` and `CompareWithKeywords`: the outer and the inner loop, written
    imperatively and proved to compute `Expected`.
  - The lemmas that say what the batch means.
- `notify_handler.dfy`: module `NotifyHandler`.
  - The payload check and the two store reads. The reads are inputs, and a failed read is a
    value that leads to the 500 branch.
  - The 400/200/500 responses and the list of store queries issued.
- `opportunity_card.dfy`: module `OpportunityCard`.
  - `TruncateDescription` and the shown description.
  - The `FavoriteButton` class, whose `isFavorited` and `isLoading` fields are updated in place
    by the toggle.

## Model

| member | source | states |
|---|---|---|
| `Text.LowerChar` | api/src/index.ts:60-62 | an upper-case ASCII letter becomes the same letter in lower case; every other character is left unchanged; the result is never an upper-case letter |
| `Text.Lower` | api/src/index.ts:60-62 | lowering keeps the length and lowers each character with `LowerChar`: no upper-case letter remains, and only upper-case letters change |
| `Text.LowerEqual` | api/src/index.ts:60-62 | two strings have the same lower-cased form iff they have the same length and differ at most in the case of ASCII letters |
| `Text.IncludesEmpty` | api/src/index.ts:71 | every string includes `''`, so `includes` of an empty term is always true |
| `Text.IncludedInEmpty` | api/src/index.ts:62 | the empty description `''` includes exactly the empty term |
| `Text.IncludesLower` | api/src/index.ts:60-71 | if a term occurs in a text, the lowered term occurs in the lowered text |
| `Matcher.BuildNotifications` | api/src/index.ts:53-85 | the nested loop over opportunities and keywords builds exactly the batch `Expected(opportunities, keywords)` |
| `Matcher.CompareWithKeywords` | api/src/index.ts:56-84 | the inner loop over the keywords turns the batch into `Absorb(batch, opp, keywords)`: every user with a firing keyword gets an entry (created with the email of their first firing keyword) holding an opportunity with `opp`'s id exactly once, and every other entry is unchanged |
| `Matcher.AbsorbSnoc` | api/src/index.ts:71-79 | one pass of the inner loop body is what comparing the opportunity with one more keyword adds to the batch: a non-matching or email-less keyword changes nothing; otherwise the owner's entry is created if absent and gains the opportunity unless its id is already there |
| `Matcher.ExpectedSnoc` | api/src/index.ts:55-85 | comparing one more opportunity with all keywords turns the batch for the earlier opportunities into the batch for them plus it |
| `Matcher.MatchedIff` | api/src/index.ts:60-79 | a user has an entry iff a keyword of theirs with an email matches some opportunity; every opportunity in the entry is one such keyword matches; every opportunity such a keyword matches is in the entry by its id |
| `Matcher.DedupProperties` | api/src/index.ts:77-79 | the duplicate filter keeps only input elements, keeps every id of the input and never repeats an id |
| `Matcher.NoDuplicateOpportunities` | api/src/index.ts:77-79 | no opportunity id occurs twice in a user's entry, however many of the user's keywords match it |
| `Matcher.MatchedInOrder` | api/src/index.ts:55-78 | every user with an entry in the batch has an entry that is a subsequence of the fetched opportunities: they keep the order of the outer loop |
| `Matcher.EmailOfFirstMatch` | api/src/index.ts:73-76 | the entry's email is that of the user's first matching keyword that has an email, in loop order (first opportunity, then first keyword); later keywords never overwrite it; it is not empty |
| `Matcher.EmptyTermMatchesEverything` | api/src/index.ts:71 | an empty keyword term matches every opportunity |
| `Matcher.MissingDescriptionMatchesTitleOnly` | api/src/index.ts:62 | with a null description an opportunity matches a term iff its lowered title includes the lowered term |
| `Matcher.MatchIgnoresCase` | api/src/index.ts:60-71 | a term occurring verbatim in the title or the description matches in any spelling with the same lower-cased form |
| `Matcher.ReactExample` | api/src/index.ts:53-85 | "react" and "python" keywords against "Senior React Developer": only u1 is notified, with the opportunity and u1's email |
| `Matcher.SeniorReactMatchesReact` | api/src/index.ts:60-71 | both "react" and "REACT" match "Senior React Developer" |
| `NotifyHandler.HandleNotify` | api/src/index.ts:26-99 | a missing, non-array or empty id list is the only way to get a 400, and then no store query is issued; a failed opportunity read is a 500 with its message and the keywords are never read; otherwise both reads happen in order; a failed keyword read is a 500 with its message; a null keyword result is a 500 saying the keywords could not be fetched; null opportunities make the loop throw a 500; when both reads succeed the result is 200 with the batch size |
| `NotifyHandler.NotificationsSentCountsUsers` | api/src/index.ts:95 | `notificationsSent` is the number of distinct users with a matching keyword that has an email; it is at most the number of keywords and 0 when no opportunity was found |
| `OpportunityCard.TruncateDescription` | frontend/src/components/OpportunityCard.tsx:19-22 | empty text gives `Sem descrição.`; text that fits is returned unchanged; longer text gives its first `length` characters (0 if `length` is negative) followed by `...`, so its length is `length + 3` |
| `OpportunityCard.ShownDescription` | frontend/src/components/OpportunityCard.tsx:63 | a null or empty description shows `Sem descrição.`; one of at most 150 characters shows unchanged; a longer one shows its first 150 characters and `...`; the shown text is at most 153 characters |
| `OpportunityCard.FavoriteButton.constructor` | frontend/src/components/OpportunityCard.tsx:16-17 | the star starts as `isInitiallyFavorited` and the button is not loading |
| `OpportunityCard.FavoriteButton.HandleFavoriteToggle` | frontend/src/components/OpportunityCard.tsx:24-45 | the call is a delete iff the card was favorited, and an insert otherwise; the call is sent (`Send`, which requires `isLoading`) only after `isLoading` is set, and `isLoading` is false afterwards; `isFavorited` flips iff the call succeeds; a card in sync with the saved rows stays in sync with what the call leaves in the store |
| `OpportunityCard.ToggleTwice` | frontend/src/components/OpportunityCard.tsx:24-45 | two clicks whose store calls succeed send opposite calls, bring the star back to where it was with loading cleared, and, for a card in sync with the saved rows, leave those rows as they were |

## Left out

- Express setup, CORS, JSON parsing, the `GET /` route, `app.listen` and all `console.log` tracing (api/src/index.ts:1-19, 22-24, 30, 40-41, 50-51, 58-59, 64-69, 72, 81-83, 98, 104-106) are I/O plumbing. So are the `console.error` calls of the favourite toggle (frontend/src/components/OpportunityCard.tsx:33, 41).
- The Supabase queries are not modelled; only what they return is. `Store` gives the answer to the opportunity select for each id list, and the answer to the keyword select. The store's filtering by id, its ordering and the configuration in api/src/supabaseClient.ts are not part of this model.
- The profile join `kw.profiles?.[0]?.email` is taken as already resolved into `Keyword.email`. Whether the store returns `profiles` as an array or as an object depends on a schema that is not part of this model.
- Sending email is left out. The send block at api/src/index.ts:87-93 is a placeholder that only logs. api/src/emailService.ts is never called and is not part of this model.
- Exceptions other than the ones named in `HandleNotify` are not modelled. For example, a null `title` or `term` would make `toLowerCase` throw, giving a 500. The model takes titles and terms as strings, as the schema does.
- `Text.Lower`: lowers ASCII letters only. JavaScript's `toLowerCase` also lowers other Unicode letters and can change a string's length.
- `OpportunityCard.TruncateDescription`: lengths count Dafny characters (Unicode scalar values), while JavaScript counts UTF-16 code units. A non-integer `length` is not modelled. The card always passes 150.
- `OpportunityCard.FavoriteButton.HandleFavoriteToggle`: the two `await`ed store calls are atomic steps, and their outcome is a parameter. The interleaving of React state updates is not modelled. Neither is the `disabled={isLoading}` guard on the button (line 57).
- `NotifyHandler.HandleNotify`: the `details` text `NotIterable` for null opportunities is the message V8 gives for a native `for…of` over `null`. The source does not write it, and a build that compiles `for…of` down to ES5 would throw with another message.
- `Apply`, the effect of a successful call on the `saved_opportunities` rows, is this model's own reading of the store. The source does not state it.
- frontend/src/pages/Dashboard.tsx is left out. Its keyword filter builds a PostgREST `ilike` string, and the database decides what that matches. Its realtime subscription is left out too.
- LandingPage.tsx, Login.tsx, App.tsx, KeywordManager.tsx and vite.config.ts are UI rendering, routing, auth-widget setup and build configuration. They are not part of this model.
