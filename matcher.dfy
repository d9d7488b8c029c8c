/**
 * The keyword-to-opportunity matcher of the `POST /api/notify` handler
 * (api/src/index.ts): for every pair of a fetched opportunity and a
 * system-wide keyword, a keyword whose lower-cased term occurs in the
 * lower-cased title or description, and whose owner has an email address,
 * puts the opportunity into that user's notification entry. Entries are
 * created on the first match and never hold two opportunities with the same
 * id.
 *
 * `Expected` states the resulting batch declaratively; `BuildNotifications`
 * is the nested loop of the handler and is proved to compute it. The lemmas
 * at the end state what the batch means.
 */
module Matcher {
  import opened Wrappers
  import opened Text

  type UserId = string
  type OpportunityId = string

  /** An opportunity row as selected by the handler: `id, title, description`. */
  datatype Opportunity = Opportunity(id: OpportunityId, title: string, description: Option<string>)

  /** A keyword row joined to its owner's profile: `term, user_id, profiles(email)`. */
  datatype Keyword = Keyword(term: string, userId: UserId, email: Option<string>)

  /** One user's notification: the email to write to and the matched opportunities, in order. */
  datatype Entry = Entry(email: string, matched: seq<Opportunity>)

  /** The `notificationsToSend` map. */
  type Batch = map<UserId, Entry>

  // ---------------------------------------------------------------------
  // The match test
  // ---------------------------------------------------------------------

  /** The description as the matcher reads it: a missing one is `''`. */
  function DescriptionText(o: Opportunity): string
  {
    o.description.GetOr("")
  }

  /** The lower-cased term occurs in the lower-cased title or description. */
  predicate TermMatches(term: string, o: Opportunity)
  {
    Includes(Lower(o.title), Lower(term)) || Includes(Lower(DescriptionText(o)), Lower(term))
  }

  /** The joined profile yields a truthy email: present and not the empty string. */
  predicate HasEmail(k: Keyword)
  {
    k.email.Some? && k.email.value != ""
  }

  /** Keyword `k` puts opportunity `o` into its owner's entry. */
  predicate Fires(k: Keyword, o: Opportunity)
  {
    TermMatches(k.term, o) && HasEmail(k)
  }

  /** Some opportunity of `s` has identifier `id` (the `some(o => o.id === id)` scan). */
  predicate HasId(s: seq<Opportunity>, id: OpportunityId)
  {
    exists x :: x in s && x.id == id
  }

  /** The users one of whose keywords fires on `o`. */
  function FiringUsers(o: Opportunity, ks: seq<Keyword>): set<UserId>
  {
    set k | k in ks && Fires(k, o) :: k.userId
  }

  /** The users one of whose keywords fires on some opportunity of `os`. */
  function NotifiedUsers(os: seq<Opportunity>, ks: seq<Keyword>): set<UserId>
  {
    set k, o | k in ks && o in os && Fires(k, o) :: k.userId
  }

  // ---------------------------------------------------------------------
  // The specification of the batch
  // ---------------------------------------------------------------------

  /** `o` appended to `s` unless an opportunity with its id is already there. */
  function AppendNew(s: seq<Opportunity>, o: Opportunity): seq<Opportunity>
  {
    if HasId(s, o.id) then s else s + [o]
  }

  /** `s` with every opportunity dropped whose id occurred earlier in `s`. */
  function Dedup(s: seq<Opportunity>): seq<Opportunity>
  {
    if s == [] then [] else AppendNew(Dedup(s[..|s| - 1]), s[|s| - 1])
  }

  /** The opportunities of `os` on which some keyword of `u` fires, in the order of `os`. */
  function Matches(os: seq<Opportunity>, ks: seq<Keyword>, u: UserId): seq<Opportunity>
  {
    if os == [] then []
    else Matches(os[..|os| - 1], ks, u) + (if u in FiringUsers(os[|os| - 1], ks) then [os[|os| - 1]] else [])
  }

  /** The email of the first keyword of `ks` owned by `u` that fires on `o`. */
  function FirstKeywordEmail(ks: seq<Keyword>, u: UserId, o: Opportunity): string
    requires u in FiringUsers(o, ks)
  {
    var init, k := ks[..|ks| - 1], ks[|ks| - 1];
    assert forall k' :: k' in ks ==> k' in init || k' == k;
    if u in FiringUsers(o, init) then FirstKeywordEmail(init, u, o) else k.email.value
  }

  /**
   * The email the batch records for `u`: that of the first firing keyword of
   * `u`, taking opportunities in order and, for each, keywords in order.
   */
  function FirstEmail(os: seq<Opportunity>, ks: seq<Keyword>, u: UserId): string
    requires u in NotifiedUsers(os, ks)
  {
    var init, o := os[..|os| - 1], os[|os| - 1];
    NotifiedSnoc(init, o, ks);
    if u in NotifiedUsers(init, ks) then FirstEmail(init, ks, u) else FirstKeywordEmail(ks, u, o)
  }

  /** The batch the handler builds from `os` and `ks`. */
  function Expected(os: seq<Opportunity>, ks: seq<Keyword>): Batch
  {
    map u | u in NotifiedUsers(os, ks) :: Entry(FirstEmail(os, ks, u), Dedup(Matches(os, ks, u)))
  }

  /**
   * The batch `b` after the inner loop has compared opportunity `o` with the
   * keywords `ks`: every user with a firing keyword has an entry (created
   * with the first firing keyword's email if it was absent) that now holds an
   * opportunity with the id of `o`; every other entry is untouched.
   */
  function Absorb(b: Batch, o: Opportunity, ks: seq<Keyword>): Batch
  {
    map u | u in b.Keys + FiringUsers(o, ks) ::
      if u !in FiringUsers(o, ks) then b[u]
      else
        var e := if u in b then b[u] else Entry(FirstKeywordEmail(ks, u, o), []);
        e.(matched := AppendNew(e.matched, o))
  }

  /** One pass of the inner loop body (api/src/index.ts:60-79). */
  function Step(b: Batch, o: Opportunity, k: Keyword): Batch
  {
    if !Fires(k, o) then b
    else
      var b' := if k.userId in b then b else b[k.userId := Entry(k.email.value, [])];
      var e := b'[k.userId];
      if HasId(e.matched, o.id) then b' else b'[k.userId := e.(matched := e.matched + [o])]
  }

  // ---------------------------------------------------------------------
  // The nested loop
  // ---------------------------------------------------------------------

  /** The `for (const opp of opportunities) for (const kw of keywords)` loop. */
  method BuildNotifications(opportunities: seq<Opportunity>, keywords: seq<Keyword>) returns (batch: Batch)
    ensures batch == Expected(opportunities, keywords)
  {
    batch := map[];
    ExpectedEmpty(keywords);
    for i := 0 to |opportunities|
      invariant batch == Expected(opportunities[..i], keywords)
    {
      var opp := opportunities[i];
      batch := CompareWithKeywords(batch, opp, keywords);
      assert opportunities[..i + 1] == opportunities[..i] + [opp];
      ExpectedSnoc(opportunities[..i], opp, keywords);
    }
    assert opportunities[..|opportunities|] == opportunities;
  }

  /**
   * The inner loop for one opportunity `opp`: each keyword that fires puts
   * `opp` into its owner's entry, creating the entry on first use.
   */
  method CompareWithKeywords(batch0: Batch, opp: Opportunity, keywords: seq<Keyword>) returns (batch: Batch)
    ensures batch == Absorb(batch0, opp, keywords)
  {
    batch := batch0;
    AbsorbNone(batch0, opp);
    for j := 0 to |keywords|
      invariant batch == Absorb(batch0, opp, keywords[..j])
    {
      var kw := keywords[j];
      ghost var current := batch;
      var term := Lower(kw.term);
      var title := Lower(opp.title);
      var description := Lower(DescriptionText(opp));
      if (Includes(title, term) || Includes(description, term)) && HasEmail(kw) {
        if kw.userId !in batch {
          batch := batch[kw.userId := Entry(kw.email.value, [])];
        }
        var userNotifications := batch[kw.userId];
        if !HasId(userNotifications.matched, opp.id) {
          batch := batch[kw.userId := userNotifications.(matched := userNotifications.matched + [opp])];
        }
      }
      assert batch == Step(current, opp, kw);
      assert keywords[..j + 1] == keywords[..j] + [kw];
      AbsorbSnoc(batch0, opp, keywords[..j], kw);
    }
    assert keywords[..|keywords|] == keywords;
  }

  // ---------------------------------------------------------------------
  // Lemmas tying the loop to the specification
  // ---------------------------------------------------------------------

  /** The users notified for `os + [o]` are those for `os` and those firing on `o`. */
  lemma NotifiedSnoc(os: seq<Opportunity>, o: Opportunity, ks: seq<Keyword>)
    ensures NotifiedUsers(os + [o], ks) == NotifiedUsers(os, ks) + FiringUsers(o, ks)
  {
  }

  lemma ExpectedEmpty(ks: seq<Keyword>)
    ensures Expected([], ks) == map[]
  {
  }

  lemma AbsorbNone(b: Batch, o: Opportunity)
    ensures Absorb(b, o, []) == b
  {
  }

  /** The users firing on `o` with `ks + [k]` are those with `ks`, and `k`'s owner if `k` fires. */
  lemma FiringSnoc(o: Opportunity, ks: seq<Keyword>, k: Keyword)
    ensures FiringUsers(o, ks + [k]) == FiringUsers(o, ks) + (if Fires(k, o) then {k.userId} else {})
  {
  }

  /** Adding a keyword after the first firing one of `u` does not change the email recorded for `u`. */
  lemma FirstKeywordEmailSnoc(ks: seq<Keyword>, k: Keyword, u: UserId, o: Opportunity)
    requires u in FiringUsers(o, ks + [k])
    ensures u in FiringUsers(o, ks) ==> FirstKeywordEmail(ks + [k], u, o) == FirstKeywordEmail(ks, u, o)
    ensures u !in FiringUsers(o, ks) ==> FirstKeywordEmail(ks + [k], u, o) == k.email.value
  {
  }

  /** A keyword that does not fire leaves the contribution of `o` as it was. */
  lemma AbsorbSnocQuiet(b: Batch, o: Opportunity, ks: seq<Keyword>, k: Keyword)
    requires !Fires(k, o)
    ensures Absorb(b, o, ks + [k]) == Absorb(b, o, ks)
  {
  }

  /** A firing keyword gives its owner the entry the loop body gives it. */
  lemma AbsorbSnocOwner(b: Batch, o: Opportunity, ks: seq<Keyword>, k: Keyword)
    requires Fires(k, o)
    ensures k.userId in Absorb(b, o, ks + [k]) && k.userId in Step(Absorb(b, o, ks), o, k)
    ensures Absorb(b, o, ks + [k])[k.userId] == Step(Absorb(b, o, ks), o, k)[k.userId]
  {
    FiringSnoc(o, ks, k);
    var a, v := Absorb(b, o, ks), k.userId;
    if v !in b {
      FirstKeywordEmailSnoc(ks, k, v, o);
    }
    if v in FiringUsers(o, ks) {
      assert AppendNew(a[v].matched, o) == a[v].matched by {
        assert o in AppendNew(a[v].matched, o) || HasId(a[v].matched, o.id);
      }
    }
  }

  /** A firing keyword leaves the entry of every other user as the earlier keywords left it. */
  lemma AbsorbSnocOthers(b: Batch, o: Opportunity, ks: seq<Keyword>, k: Keyword, u: UserId)
    requires Fires(k, o) && u != k.userId
    ensures u in Absorb(b, o, ks + [k]) <==> u in Step(Absorb(b, o, ks), o, k)
    ensures u in Absorb(b, o, ks + [k]) ==> Absorb(b, o, ks + [k])[u] == Step(Absorb(b, o, ks), o, k)[u]
  {
    FiringSnoc(o, ks, k);
    if u in FiringUsers(o, ks) && u !in b {
      FirstKeywordEmailSnoc(ks, k, u, o);
    }
  }

  /** A keyword that fires updates the contribution of `o` as the loop body does. */
  lemma AbsorbSnocFires(b: Batch, o: Opportunity, ks: seq<Keyword>, k: Keyword)
    requires Fires(k, o)
    ensures Absorb(b, o, ks + [k]) == Step(Absorb(b, o, ks), o, k)
  {
    var l, r := Absorb(b, o, ks + [k]), Step(Absorb(b, o, ks), o, k);
    forall u
      ensures (u in l <==> u in r) && (u in l ==> l[u] == r[u])
    {
      if u == k.userId {
        AbsorbSnocOwner(b, o, ks, k);
      } else {
        AbsorbSnocOthers(b, o, ks, k, u);
      }
    }
    assert l.Keys == r.Keys;
  }

  /** Comparing `o` with one more keyword is one more step of the loop body. */
  lemma AbsorbSnoc(b: Batch, o: Opportunity, ks: seq<Keyword>, k: Keyword)
    ensures Absorb(b, o, ks + [k]) == Step(Absorb(b, o, ks), o, k)
  {
    if Fires(k, o) {
      AbsorbSnocFires(b, o, ks, k);
    } else {
      AbsorbSnocQuiet(b, o, ks, k);
    }
  }

  /** Matches is empty for a user who is not notified. */
  lemma {:induction false} MatchesOfUnnotified(os: seq<Opportunity>, ks: seq<Keyword>, u: UserId)
    requires u !in NotifiedUsers(os, ks)
    ensures Matches(os, ks, u) == []
  {
    if os != [] {
      var init, o := os[..|os| - 1], os[|os| - 1];
      assert os == init + [o];
      NotifiedSnoc(init, o, ks);
      MatchesOfUnnotified(init, ks, u);
    }
  }

  /** One more opportunity extends the matches of `u` by it exactly when `u` fires on it. */
  lemma MatchesSnoc(os: seq<Opportunity>, o: Opportunity, ks: seq<Keyword>, u: UserId)
    ensures Dedup(Matches(os + [o], ks, u))
         == if u in FiringUsers(o, ks) then AppendNew(Dedup(Matches(os, ks, u)), o) else Dedup(Matches(os, ks, u))
  {
    var os' := os + [o];
    assert os'[..|os'| - 1] == os;
    var m := Matches(os, ks, u);
    if u in FiringUsers(o, ks) {
      assert (m + [o])[..|m + [o]| - 1] == m;
    } else {
      assert m + [] == m;
    }
  }

  /** One more opportunity does not change the email of an already notified user. */
  lemma FirstEmailSnoc(os: seq<Opportunity>, o: Opportunity, ks: seq<Keyword>, u: UserId)
    requires u in NotifiedUsers(os + [o], ks)
    ensures u in NotifiedUsers(os, ks) ==> FirstEmail(os + [o], ks, u) == FirstEmail(os, ks, u)
    ensures u !in NotifiedUsers(os, ks) ==> FirstEmail(os + [o], ks, u) == FirstKeywordEmail(ks, u, o)
  {
  }

  /** Processing one more opportunity turns the batch for `os` into the batch for `os + [o]`. */
  lemma ExpectedSnoc(os: seq<Opportunity>, o: Opportunity, ks: seq<Keyword>)
    ensures Expected(os + [o], ks) == Absorb(Expected(os, ks), o, ks)
  {
    NotifiedSnoc(os, o, ks);
    var l, r := Expected(os + [o], ks), Absorb(Expected(os, ks), o, ks);
    assert l.Keys == r.Keys;
    forall u | u in l ensures l[u] == r[u] {
      FirstEmailSnoc(os, o, ks, u);
      MatchesSnoc(os, o, ks, u);
      if u !in NotifiedUsers(os, ks) {
        MatchesOfUnnotified(os, ks, u);
      }
    }
  }

  // ---------------------------------------------------------------------
  // What the batch means
  // ---------------------------------------------------------------------

  /** No two opportunities of `s` share an id. */
  predicate DistinctIds(s: seq<Opportunity>)
  {
    forall p, q :: 0 <= p < q < |s| ==> s[p].id != s[q].id
  }

  /** `a` is `b` with some elements deleted: same elements, same relative order. */
  ghost predicate IsSubsequence<T>(a: seq<T>, b: seq<T>)
    decreases |b|
  {
    a == [] ||
    (b != [] &&
      ((a[|a| - 1] == b[|b| - 1] && IsSubsequence(a[..|a| - 1], b[..|b| - 1])) ||
       IsSubsequence(a, b[..|b| - 1])))
  }

  /** Dedup keeps only elements of its input and every id of it, and never repeats an id. */
  lemma {:induction false} DedupProperties(s: seq<Opportunity>)
    ensures forall x :: x in Dedup(s) ==> x in s
    ensures forall id :: HasId(Dedup(s), id) <==> HasId(s, id)
    ensures DistinctIds(Dedup(s))
  {
    if s != [] {
      var init, o := s[..|s| - 1], s[|s| - 1];
      assert s == init + [o];
      DedupProperties(init);
      var d := Dedup(init);
      forall id ensures HasId(Dedup(s), id) <==> HasId(s, id) {
        if HasId(s, id) {
          var x :| x in s && x.id == id;
          if x in init {
            assert HasId(init, id);
          }
        }
      }
      if !HasId(d, o.id) {
        forall p, q | 0 <= p < q < |d + [o]| ensures (d + [o])[p].id != (d + [o])[q].id {
          if q == |d| {
            assert (d + [o])[p] in d;
          }
        }
      }
    }
  }

  /** The matches of `u` are exactly the opportunities of `os` some keyword of `u` fires on. */
  lemma {:induction false} MatchesMembers(os: seq<Opportunity>, ks: seq<Keyword>, u: UserId)
    ensures forall x :: x in Matches(os, ks, u) <==> x in os && u in FiringUsers(x, ks)
  {
    if os != [] {
      var init, o := os[..|os| - 1], os[|os| - 1];
      assert os == init + [o];
      MatchesMembers(init, ks, u);
    }
  }

  /**
   * Soundness and completeness of the batch, by opportunity id: `u` has an
   * entry iff some keyword of `u` with an email fires on some opportunity;
   * every opportunity in the entry is one of `os` that such a keyword fires
   * on; and every such opportunity is represented in the entry by its id.
   */
  lemma MatchedIff(os: seq<Opportunity>, ks: seq<Keyword>, u: UserId)
    ensures u in Expected(os, ks) <==> exists k, o :: k in ks && o in os && k.userId == u && Fires(k, o)
    ensures u in Expected(os, ks) ==>
      (forall x :: x in Expected(os, ks)[u].matched ==> x in os && u in FiringUsers(x, ks))
    ensures forall o :: o in os && u in FiringUsers(o, ks) ==>
      u in Expected(os, ks) && HasId(Expected(os, ks)[u].matched, o.id)
  {
    DedupProperties(Matches(os, ks, u));
    MatchesMembers(os, ks, u);
    forall o | o in os && u in FiringUsers(o, ks)
      ensures u in Expected(os, ks) && HasId(Expected(os, ks)[u].matched, o.id)
    {
      var k :| k in ks && Fires(k, o) && k.userId == u;
      assert u in NotifiedUsers(os, ks);
      assert HasId(Matches(os, ks, u), o.id);
    }
  }

  /** No opportunity id appears twice in a user's entry, however many keywords of the user fire on it. */
  lemma NoDuplicateOpportunities(os: seq<Opportunity>, ks: seq<Keyword>, u: UserId)
    requires u in Expected(os, ks)
    ensures DistinctIds(Expected(os, ks)[u].matched)
  {
    DedupProperties(Matches(os, ks, u));
  }

  /** A user's entry lists opportunities in the order the store returned them. */
  lemma MatchedInOrder(os: seq<Opportunity>, ks: seq<Keyword>, u: UserId)
    requires u in Expected(os, ks)
    ensures IsSubsequence(Expected(os, ks)[u].matched, os)
  {
    DedupMatchesInOrder(os, ks, u);
  }

  /** The deduplicated matches of `u` are a subsequence of `os`. */
  lemma {:induction false} DedupMatchesInOrder(os: seq<Opportunity>, ks: seq<Keyword>, u: UserId)
    ensures IsSubsequence(Dedup(Matches(os, ks, u)), os)
  {
    if os != [] {
      var init, o := os[..|os| - 1], os[|os| - 1];
      assert os == init + [o];
      DedupMatchesInOrder(init, ks, u);
      MatchesSnoc(init, o, ks, u);
      var d := Dedup(Matches(init, ks, u));
      if u in FiringUsers(o, ks) && !HasId(d, o.id) {
        assert (d + [o])[..|d + [o]| - 1] == d;
      }
    }
  }

  /** `os[i]` is the first opportunity some keyword of `u` fires on. */
  ghost predicate FirstFiringOpportunity(os: seq<Opportunity>, ks: seq<Keyword>, u: UserId, i: int)
  {
    && 0 <= i < |os|
    && u in FiringUsers(os[i], ks)
    && (forall i' :: 0 <= i' < i ==> u !in FiringUsers(os[i'], ks))
  }

  /** `ks[j]` is the first keyword of `u` that fires on `o`. */
  ghost predicate FirstFiringKeyword(ks: seq<Keyword>, u: UserId, o: Opportunity, j: int)
  {
    && 0 <= j < |ks|
    && ks[j].userId == u && Fires(ks[j], o)
    && (forall j' :: 0 <= j' < j ==> !(ks[j'].userId == u && Fires(ks[j'], o)))
  }

  lemma {:induction false} FirstKeywordEmailIsFirst(ks: seq<Keyword>, u: UserId, o: Opportunity)
    requires u in FiringUsers(o, ks)
    ensures exists j :: FirstFiringKeyword(ks, u, o, j) && FirstKeywordEmail(ks, u, o) == ks[j].email.value
  {
    var init, k := ks[..|ks| - 1], ks[|ks| - 1];
    assert ks == init + [k];
    FiringSnoc(o, init, k);
    FirstKeywordEmailSnoc(init, k, u, o);
    if u in FiringUsers(o, init) {
      FirstKeywordEmailIsFirst(init, u, o);
      var j :| FirstFiringKeyword(init, u, o, j) && FirstKeywordEmail(init, u, o) == init[j].email.value;
      assert FirstFiringKeyword(ks, u, o, j);
    } else {
      var j := |ks| - 1;
      forall j' | 0 <= j' < j ensures !(ks[j'].userId == u && Fires(ks[j'], o)) {
        assert ks[j'] in init;
      }
      assert FirstFiringKeyword(ks, u, o, j);
    }
  }

  lemma {:induction false} FirstEmailIsFirst(os: seq<Opportunity>, ks: seq<Keyword>, u: UserId)
    requires u in NotifiedUsers(os, ks)
    ensures exists i :: FirstFiringOpportunity(os, ks, u, i) && FirstEmail(os, ks, u) == FirstKeywordEmail(ks, u, os[i])
  {
    var init, o := os[..|os| - 1], os[|os| - 1];
    assert os == init + [o];
    NotifiedSnoc(init, o, ks);
    FirstEmailSnoc(init, o, ks, u);
    if u in NotifiedUsers(init, ks) {
      FirstEmailIsFirst(init, ks, u);
      var i :| FirstFiringOpportunity(init, ks, u, i) && FirstEmail(init, ks, u) == FirstKeywordEmail(ks, u, init[i]);
      assert FirstFiringOpportunity(os, ks, u, i);
    } else {
      var i := |os| - 1;
      forall i' | 0 <= i' < i ensures u !in FiringUsers(os[i'], ks) {
        assert os[i'] in init;
      }
      assert FirstFiringOpportunity(os, ks, u, i);
    }
  }

  /**
   * The email of a user's entry comes from the user's first firing keyword in
   * loop order; later keywords never overwrite it. It is never empty.
   */
  lemma EmailOfFirstMatch(os: seq<Opportunity>, ks: seq<Keyword>, u: UserId)
    requires u in Expected(os, ks)
    ensures exists i, j ::
              FirstFiringOpportunity(os, ks, u, i) && FirstFiringKeyword(ks, u, os[i], j)
              && Expected(os, ks)[u].email == ks[j].email.value
    ensures Expected(os, ks)[u].email != ""
  {
    FirstEmailIsFirst(os, ks, u);
    var i :| FirstFiringOpportunity(os, ks, u, i) && FirstEmail(os, ks, u) == FirstKeywordEmail(ks, u, os[i]);
    FirstKeywordEmailIsFirst(ks, u, os[i]);
    var j :| FirstFiringKeyword(ks, u, os[i], j) && FirstKeywordEmail(ks, u, os[i]) == ks[j].email.value;
  }

  /** `includes('')` is true: an empty term matches every opportunity. */
  lemma EmptyTermMatchesEverything(o: Opportunity)
    ensures TermMatches("", o)
  {
    IncludesEmpty(Lower(o.title));
  }

  /** A missing description is the empty string: the opportunity can only match through its title. */
  lemma MissingDescriptionMatchesTitleOnly(term: string, o: Opportunity)
    requires o.description.None?
    ensures TermMatches(term, o) <==> Includes(Lower(o.title), Lower(term))
  {
    IncludedInEmpty(Lower(term));
    if term == "" {
      IncludesEmpty(Lower(o.title));
    }
  }

  /**
   * Matching ignores case: a term that occurs verbatim in the title or the
   * description matches, and so does any spelling of it with the same
   * lower-cased form.
   */
  lemma MatchIgnoresCase(term: string, variant: string, o: Opportunity)
    requires Includes(o.title, term) || Includes(DescriptionText(o), term)
    requires Lower(variant) == Lower(term)
    ensures TermMatches(variant, o)
  {
    if Includes(o.title, term) {
      IncludesLower(o.title, term);
    } else {
      IncludesLower(DescriptionText(o), term);
    }
  }

  /** A single opportunity on which the first of two keywords fires and the second does not. */
  lemma OneFiringKeyword(o: Opportunity, k1: Keyword, k2: Keyword)
    requires Fires(k1, o) && !Fires(k2, o)
    ensures Expected([o], [k1, k2]) == map[k1.userId := Entry(k1.email.value, [o])]
  {
    var os, ks := [o], [k1, k2];
    assert ks[..1] == [k1] && [k1][..0] == [] && os[..0] == [];
    assert FiringUsers(o, []) == {};
    assert FiringUsers(o, [k1]) == {k1.userId};
    assert FiringUsers(o, ks) == {k1.userId};
    assert NotifiedUsers([], ks) == {};
    assert NotifiedUsers(os, ks) == {k1.userId};
    assert Matches(os, ks, k1.userId) == [o];
    assert Dedup([o]) == [o];
    assert FirstKeywordEmail([k1], k1.userId, o) == k1.email.value;
    assert FirstKeywordEmail(ks, k1.userId, o) == k1.email.value;
    assert FirstEmail(os, ks, k1.userId) == k1.email.value;
  }

  /** A sample opportunity whose title mentions React and whose description does not mention Python. */
  const SeniorReact := Opportunity("1", "Senior React Developer", Some("Remote, TypeScript"))

  /** The lower-cased title of `SeniorReact`. */
  lemma SeniorReactTitleLowered()
    ensures Lower(SeniorReact.title) == "senior react developer"
  {
  }

  /** The lower-cased description of `SeniorReact`. */
  lemma SeniorReactDescriptionLowered()
    ensures Lower(DescriptionText(SeniorReact)) == "remote, typescript"
  {
  }

  /** "react", in any case, occurs in the lower-cased title of `SeniorReact`. */
  lemma SeniorReactMatchesReact()
    ensures TermMatches("react", SeniorReact) && TermMatches("REACT", SeniorReact)
  {
    SeniorReactTitleLowered();
    assert Lower("react") == "react" && Lower("REACT") == "react";
    assert "senior react developer"[7..12] == "react";
    assert OccursAt("senior react developer", "react", 7);
  }

  /** The lower-cased title of `SeniorReact` does not include "python". */
  lemma SeniorReactTitleMissesPython()
    ensures !Includes(Lower(SeniorReact.title), "python")
  {
    SeniorReactTitleLowered();
    AbsentByPair("senior react developer", "python");
  }

  /** The lower-cased description of `SeniorReact` does not include "python". */
  lemma SeniorReactDescriptionMissesPython()
    ensures !Includes(Lower(DescriptionText(SeniorReact)), "python")
  {
    SeniorReactDescriptionLowered();
    AbsentByPair("remote, typescript", "python");
  }

  /** "python" occurs neither in the title nor in the description of `SeniorReact`. */
  lemma SeniorReactMissesPython()
    ensures !TermMatches("python", SeniorReact)
  {
    assert Lower("python") == "python";
    SeniorReactTitleMissesPython();
    SeniorReactDescriptionMissesPython();
  }

  /**
   * "react" matches the sample opportunity for u1 and "python" matches
   * nothing, so only u1 is notified.
   */
  lemma ReactExample()
    ensures Expected([SeniorReact], [Keyword("react", "u1", Some("a@x.com")), Keyword("python", "u2", Some("b@x.com"))])
            == map["u1" := Entry("a@x.com", [SeniorReact])]
  {
    SeniorReactMatchesReact();
    SeniorReactMissesPython();
    OneFiringKeyword(SeniorReact, Keyword("react", "u1", Some("a@x.com")), Keyword("python", "u2", Some("b@x.com")));
  }
}
