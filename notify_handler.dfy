/**
 * The `POST /api/notify` handler (api/src/index.ts:21-101) without its
 * Express plumbing: it checks the `newOpportunityIds` payload, reads the
 * opportunities with those ids and all keywords from the store, runs the
 * matcher and answers with the number of users to notify.
 *
 * The store is an input: `Store` holds the answer the store gives to the
 * opportunity select for any id list, and its answer to the keyword select.
 * The handler also returns the store queries it issued, in order, so that the
 * contract can say which reads happen on each path.
 */
module NotifyHandler {
  import opened Matcher

  /** `req.body.newOpportunityIds`, as far as the check of the handler tells values apart. */
  datatype Payload =
    | Falsy                            // absent, null, or another falsy value
    | NotAnArray                       // truthy but not an array
    | IdArray(ids: seq<OpportunityId>)

  /** The `{ data, error }` answer of a store select. */
  datatype StoreRead<T> =
    | Rows(rows: seq<T>)               // `data` is an array, no `error`
    | NoData                           // neither `data` nor `error`
    | ReadError(message: string)       // `error` is set

  /** A select the handler sends to the store. */
  datatype Query =
    | SelectOpportunities(ids: seq<OpportunityId>)   // `opportunities` where `id` in the list
    | SelectKeywords                                 // all `keywords` joined to `profiles(email)`

  /** What the store answers to each of the two selects. */
  datatype Store = Store(opportunities: seq<OpportunityId> -> StoreRead<Opportunity>, keywords: StoreRead<Keyword>)

  /** The HTTP response: status and JSON body. */
  datatype Response =
    | BadRequest(error: string)                       // 400 { error }
    | Ok(message: string, notificationsSent: nat)     // 200 { message, notificationsSent }
    | InternalError(error: string, details: string)   // 500 { error, details }

  const InvalidPayload := "Payload inválido: newOpportunityIds é obrigatório."
  const Processed := "Processamento de notificações concluído."
  const ServerFailure := "Erro interno do servidor"
  const KeywordsUnavailable := "Não foi possível buscar as palavras-chave."
  /** The message of the TypeError raised by `for (const opp of opportunities)` when `opportunities` is null. */
  const NotIterable := "opportunities is not iterable"

  function Status(r: Response): int
  {
    match r
    case BadRequest(_) => 400
    case Ok(_, _) => 200
    case InternalError(_, _) => 500
  }

  /** The payload passes the check: a non-empty array of ids. */
  predicate ValidPayload(p: Payload)
  {
    p.IdArray? && |p.ids| > 0
  }

  method HandleNotify(payload: Payload, store: Store) returns (response: Response, queries: seq<Query>)
    // 400, and no store read, for a missing, non-array or empty id list
    ensures !ValidPayload(payload) <==> Status(response) == 400
    ensures !ValidPayload(payload) ==> response == BadRequest(InvalidPayload) && queries == []
    // a failing opportunity read is a 500 and the keywords are never read
    ensures ValidPayload(payload) && store.opportunities(payload.ids).ReadError? ==>
              && queries == [SelectOpportunities(payload.ids)]
              && response == InternalError(ServerFailure, store.opportunities(payload.ids).message)
    // otherwise both reads happen, opportunities first
    ensures ValidPayload(payload) && !store.opportunities(payload.ids).ReadError? ==>
              queries == [SelectOpportunities(payload.ids), SelectKeywords]
    // a failing or empty keyword read is a 500
    ensures ValidPayload(payload) && !store.opportunities(payload.ids).ReadError? && store.keywords.ReadError? ==>
              response == InternalError(ServerFailure, store.keywords.message)
    ensures ValidPayload(payload) && !store.opportunities(payload.ids).ReadError? && store.keywords.NoData? ==>
              response == InternalError(ServerFailure, KeywordsUnavailable)
    // opportunities without data make the loop throw
    ensures ValidPayload(payload) && store.opportunities(payload.ids).NoData? && store.keywords.Rows? ==>
              response == InternalError(ServerFailure, NotIterable)
    // both reads succeed: 200 with the number of users in the batch, possibly 0
    ensures ValidPayload(payload) && store.opportunities(payload.ids).Rows? && store.keywords.Rows? ==>
              response == Ok(Processed, |Expected(store.opportunities(payload.ids).rows, store.keywords.rows)|)
  {
    queries := [];
    if payload.Falsy? || payload.NotAnArray? || |payload.ids| == 0 {
      return BadRequest(InvalidPayload), queries;
    }
    queries := queries + [SelectOpportunities(payload.ids)];
    var opportunities := store.opportunities(payload.ids);
    if opportunities.ReadError? {
      return InternalError(ServerFailure, opportunities.message), queries;
    }
    queries := queries + [SelectKeywords];
    var keywords := store.keywords;
    if keywords.ReadError? {
      return InternalError(ServerFailure, keywords.message), queries;
    }
    if keywords.NoData? {
      return InternalError(ServerFailure, KeywordsUnavailable), queries;
    }
    if opportunities.NoData? {
      return InternalError(ServerFailure, NotIterable), queries;
    }
    var notificationsToSend := BuildNotifications(opportunities.rows, keywords.rows);
    response := Ok(Processed, |notificationsToSend|);
  }

  /**
   * On success `notificationsSent` is the number of distinct users with a
   * firing keyword, at most the number of keywords, and 0 when the ids
   * resolve to no opportunity.
   */
  lemma NotificationsSentCountsUsers(os: seq<Opportunity>, ks: seq<Keyword>)
    ensures |Expected(os, ks)| == |NotifiedUsers(os, ks)| <= |ks|
    ensures os == [] ==> |Expected(os, ks)| == 0
  {
    assert Expected(os, ks).Keys == NotifiedUsers(os, ks);
    assert NotifiedUsers(os, ks) <= Owners(ks);
    OwnersBound(ks);
    SubsetSize(NotifiedUsers(os, ks), Owners(ks));
    if os == [] {
      ExpectedEmpty(ks);
    }
  }

  /** The users owning some keyword of `ks`. */
  function Owners(ks: seq<Keyword>): set<UserId>
  {
    set k | k in ks :: k.userId
  }

  lemma {:induction false} OwnersBound(ks: seq<Keyword>)
    ensures |Owners(ks)| <= |ks|
  {
    if ks != [] {
      var init, k := ks[..|ks| - 1], ks[|ks| - 1];
      assert ks == init + [k];
      OwnersBound(init);
      assert Owners(ks) == Owners(init) + {k.userId};
    }
  }

  lemma {:induction false} SubsetSize<T>(a: set<T>, b: set<T>)
    requires a <= b
    ensures |a| <= |b|
    decreases a
  {
    if a != {} {
      var x :| x in a;
      SubsetSize(a - {x}, b - {x});
    }
  }
}
