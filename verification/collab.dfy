/** Collaborator matching, backend/controllers/collabController.js and
    backend/models/collabModel.js: the collaboration request, the feature
    vector of a user, and the ranking of candidates.

    Only the integer parts are modelled. The cosine similarity, the 20%
    interest boost, the 0.15 threshold and the rounding to a percentage are
    floating point; they are one parameter `score` that yields the rounded
    percentage, or `None` when the candidate falls at or below the
    threshold. */
module Collab {
  import opened Wrappers
  import Seqs
  import Events
  import Bookings
  import Users

  datatype CollabStatus = Pending | Accepted | Rejected

  datatype Collaboration = Collaboration(id: Id, eventId: Id, users: seq<Id>, status: CollabStatus)

  /** `collaborate`: a pending request between the caller and the invitee.
      The schema requires `eventId`; without it the create fails (500). */
  function Collaborate(collabs: seq<Collaboration>, eventId: Option<Id>, current: Id, invited: Id, id: Id)
    : (r: Result<(seq<Collaboration>, Collaboration), HttpError>)
    ensures r.Err? <==> eventId.None?
    ensures r.Err? ==> r.error.status == 500
    ensures r.Ok? ==> r.value.0 == collabs + [r.value.1]
    ensures r.Ok? ==> r.value.1.users == [current, invited] && r.value.1.status == Pending
                      && r.value.1.eventId == eventId.value
  {
    if eventId.None? then Err(HttpError(500, "Error sending collaboration request"))
    else
      var c := Collaboration(id, eventId.value, [current, invited], Pending);
      Ok((collabs + [c], c))
  }

  /** `getAllCategories`: the distinct non-empty categories of all events. */
  function AllCategories(events: seq<Events.Event>): (r: seq<string>)
    ensures Seqs.NoDuplicates(r)
    ensures forall c :: c in r <==> c != "" && exists e :: e in events && e.category == c
  {
    var cats := seq(|events|, i requires 0 <= i < |events| => events[i].category);
    forall e | e in events
      ensures e.category in cats
    {
      var i :| 0 <= i < |events| && events[i] == e;
      assert cats[i] == e.category;
    }
    Seqs.Distinct(Seqs.Filter(cats, (c: string) => c != ""))
  }

  /** `encodeCategories`: one bit per known category, set exactly at the
      categories the user has. */
  function Encode(have: seq<string>, all: seq<string>): (r: seq<nat>)
    ensures |r| == |all|
    ensures forall i :: 0 <= i < |r| ==> r[i] in {0, 1} && (r[i] == 1 <==> all[i] in have)
  {
    seq(|all|, i requires 0 <= i < |all| => if all[i] in have then 1 else 0)
  }

  /** `User.distinct("interests")`: every interest some user lists, once. */
  function AllInterests(users: seq<Users.User>): (r: seq<string>)
    ensures Seqs.NoDuplicates(r)
    ensures forall x :: x in r <==> exists u :: u in users && x in u.interests
  {
    var lists := seq(|users|, i requires 0 <= i < |users| => users[i].interests);
    assert forall u :: u in users ==> exists i :: 0 <= i < |users| && users[i] == u && lists[i] == u.interests;
    Seqs.Distinct(Seqs.Flatten(lists))
  }

  /** A confirmed booking of the user. */
  predicate ConfirmedBy(b: Bookings.Booking, userId: Id) {
    b.userId == userId && b.status == Bookings.Confirmed
  }

  /** An existing event a booking is for, with a non-empty category. */
  predicate AttendedIn(b: Bookings.Booking, events: seq<Events.Event>) {
    Bookings.FindEvent(events, b.eventId).Some? && events[Bookings.FindEvent(events, b.eventId).value].category != ""
  }

  /** The categories of the events the user attended, skipping events that
      are gone and empty categories. */
  function AttendedCategories(mine: seq<Bookings.Booking>, events: seq<Events.Event>): (r: seq<string>)
    ensures forall c :: c in r ==> c != "" && exists e :: e in events && e.category == c
    ensures forall b :: b in mine && AttendedIn(b, events) ==>
      events[Bookings.FindEvent(events, b.eventId).value].category in r
    decreases |mine|
  {
    if |mine| == 0 then []
    else
      var rest := AttendedCategories(mine[1..], events);
      assert forall b :: b in mine ==> b == mine[0] || b in mine[1..];
      match Bookings.FindEvent(events, mine[0].eventId)
      case None => rest
      case Some(k) =>
        if events[k].category == "" then rest
        else
          assert events[k] in events;
          [events[k].category] + rest
  }

  /** `buildUserVector`: category bits, then interest bits, then the number
      of confirmed bookings; `None` when the user does not exist. A category
      bit is 1 exactly when the category is among those the user attended. */
  function UserVector(users: seq<Users.User>, db: Bookings.Db, userId: Id, categories: seq<string>, interests: seq<string>)
    : (r: Option<seq<nat>>)
    ensures r.None? <==> Users.FindById(users, userId).None?
    ensures r.Some? ==> |r.value| == |categories| + |interests| + 1
    ensures r.Some? ==> var u := users[Users.FindById(users, userId).value];
      (forall i :: 0 <= i < |interests| ==> (r.value[|categories| + i] == 1 <==> interests[i] in u.interests))
      && r.value[|r.value| - 1] == |Seqs.Filter(db.bookings, (b: Bookings.Booking) => ConfirmedBy(b, userId))|
    ensures r.Some? ==> forall i :: 0 <= i < |categories| ==> r.value[i] in {0, 1}
    ensures r.Some? ==> var attended := AttendedCategories(Seqs.Filter(db.bookings, (b: Bookings.Booking) => ConfirmedBy(b, userId)), db.events);
      forall i :: 0 <= i < |categories| ==> (r.value[i] == 1 <==> categories[i] in attended)
  {
    match Users.FindById(users, userId)
    case None => None
    case Some(k) =>
      var mine := Seqs.Filter(db.bookings, (b: Bookings.Booking) => ConfirmedBy(b, userId));
      var catBits := Encode(AttendedCategories(mine, db.events), categories);
      var interestBits := Encode(users[k].interests, interests);
      Some(catBits + interestBits + [|mine|])
  }

  /** A category bit is set only for a category the user really attended:
      an event of that category holds one of the user's confirmed bookings. */
  lemma {:induction false} CategoryBitMeansAttended(mine: seq<Bookings.Booking>, events: seq<Events.Event>, c: string)
    requires c in AttendedCategories(mine, events)
    ensures exists b, e :: b in mine && e in events && e.id == b.eventId && e.category == c
    decreases |mine|
  {
    var rest := AttendedCategories(mine[1..], events);
    match Bookings.FindEvent(events, mine[0].eventId)
    case None =>
      CategoryBitMeansAttended(mine[1..], events, c);
      var b, e :| b in mine[1..] && e in events && e.id == b.eventId && e.category == c;
      assert b in mine;
    case Some(k) =>
      if events[k].category != "" && c == events[k].category {
        assert mine[0] in mine && events[k] in events;
      } else {
        CategoryBitMeansAttended(mine[1..], events, c);
        var b, e :| b in mine[1..] && e in events && e.id == b.eventId && e.category == c;
        assert b in mine;
      }
  }

  /** One suggested collaborator as the front end receives it. */
  datatype Match = Match(id: Id, name: string, avatar: Option<string>, interests: seq<string>,
                         compatibilityScore: int, eventCategory: string)

  const DefaultTopN: nat := 5

  /** Descending by score, as the sort comparator `b - a` orders them. */
  function NegScore(m: Match): int {
    -m.compatibilityScore
  }

  /** The rounded score of `u` against the requester's vector `mine`:
      `None` for the requester, for a user without a vector and for a score
      at or below the threshold. */
  function ScoreOf(all: seq<Users.User>, db: Bookings.Db, userId: Id, mine: seq<nat>,
                   categories: seq<string>, interests: seq<string>,
                   score: (seq<nat>, seq<nat>, Users.User) -> Option<int>, u: Users.User): Option<int>
  {
    if u.id == userId then None
    else
      match UserVector(all, db, u.id, categories, interests)
      case None => None
      case Some(theirs) => score(mine, theirs, u)
  }

  /** The candidates that pass: every user of `others` other than the
      requester, with a vector whose score clears the threshold, in store
      order. Vectors are built against the whole user store `all`. */
  function Candidates(all: seq<Users.User>, others: seq<Users.User>, db: Bookings.Db, userId: Id, mine: seq<nat>,
                      categories: seq<string>, interests: seq<string>, eventCategory: string,
                      score: (seq<nat>, seq<nat>, Users.User) -> Option<int>): (r: seq<Match>)
    ensures |r| <= |others|
    ensures forall m :: m in r ==> m.id != userId && exists u :: u in others && u.id == m.id && u.name == m.name
    ensures forall u :: u in others && ScoreOf(all, db, userId, mine, categories, interests, score, u).Some? ==>
      Match(u.id, u.name, u.avatar, u.interests,
            ScoreOf(all, db, userId, mine, categories, interests, score, u).value, eventCategory) in r
    ensures forall m :: m in r ==>
      exists u :: u in others
        && ScoreOf(all, db, userId, mine, categories, interests, score, u) == Some(m.compatibilityScore)
        && m == Match(u.id, u.name, u.avatar, u.interests, m.compatibilityScore, eventCategory)
    decreases |others|
  {
    if |others| == 0 then []
    else
      var u := others[0];
      var rest := Candidates(all, others[1..], db, userId, mine, categories, interests, eventCategory, score);
      assert forall x :: x in others ==> x == u || x in others[1..];
      assert forall x :: x in others[1..] ==> x in others;
      assert u in others;
      if u.id == userId then rest
      else
        match UserVector(all, db, u.id, categories, interests)
        case None => rest
        case Some(theirs) =>
          match score(mine, theirs, u)
          case None => rest
          case Some(s) => [Match(u.id, u.name, u.avatar, u.interests, s, eventCategory)] + rest
  }

  /** `getCompatibleUsers`: an unknown event is an error; a requester
      without a vector gets nothing; otherwise the best `topN` candidates,
      highest score first. */
  function CompatibleUsers(users: seq<Users.User>, db: Bookings.Db, userId: Id, eventId: Id, topN: nat,
                           score: (seq<nat>, seq<nat>, Users.User) -> Option<int>): (r: Result<seq<Match>, HttpError>)
    ensures r.Err? <==> Bookings.FindEvent(db.events, eventId).None?
    ensures r.Err? ==> r.error == HttpError(500, "Error computing matches")
    ensures r.Ok? && Users.FindById(users, userId).None? ==> r.value == []
    ensures r.Ok? ==> |r.value| <= topN
    ensures r.Ok? ==> forall i :: 0 <= i < |r.value| ==> r.value[i].id != userId
    ensures r.Ok? ==> forall i, j :: 0 <= i < j < |r.value| ==> r.value[i].compatibilityScore >= r.value[j].compatibilityScore
    ensures r.Ok? ==> forall i :: 0 <= i < |r.value| ==> exists u :: u in users && u.id == r.value[i].id
  {
    match Bookings.FindEvent(db.events, eventId)
    case None => Err(HttpError(500, "Error computing matches"))
    case Some(e) =>
      var categories := AllCategories(db.events);
      var interests := AllInterests(users);
      match UserVector(users, db, userId, categories, interests)
      case None => Ok([])
      case Some(mine) =>
        var found := Candidates(users, users, db, userId, mine, categories, interests, db.events[e].category, score);
        Ok(Rank(found, topN))
  }

  /** `results.sort((a, b) => b.compatibilityScore - a.compatibilityScore).slice(0, topN)`:
      the best `topN` candidates, highest score first. */
  function Rank(found: seq<Match>, topN: nat): (r: seq<Match>)
    ensures |r| <= topN
    ensures |r| == if topN <= |found| then topN else |found|
    ensures forall i :: 0 <= i < |r| ==> r[i] in found
    ensures forall i, j :: 0 <= i < j < |r| ==> r[i].compatibilityScore >= r[j].compatibilityScore
    ensures forall m :: m in found && m !in r ==>
      forall i :: 0 <= i < |r| ==> r[i].compatibilityScore >= m.compatibilityScore
  {
    var top := Seqs.SmallestByKey(found, NegScore, topN);
    assert forall i, j :: 0 <= i < j < |top| ==> NegScore(top[i]) <= NegScore(top[j]);
    assert forall m :: m in found && m !in top ==> forall i :: 0 <= i < |top| ==> NegScore(top[i]) <= NegScore(m);
    top
  }

  /** With a requester vector, the answer is drawn from the scored
      candidates: all of them when there are at most `topN`, else `topN` of
      them, and none left out scores higher than one returned. */
  lemma CompatibleUsersKeepsBest(users: seq<Users.User>, db: Bookings.Db, userId: Id, eventId: Id, topN: nat,
                                 score: (seq<nat>, seq<nat>, Users.User) -> Option<int>)
    requires Bookings.FindEvent(db.events, eventId).Some?
    requires UserVector(users, db, userId, AllCategories(db.events), AllInterests(users)).Some?
    ensures var categories := AllCategories(db.events);
      var interests := AllInterests(users);
      var mine := UserVector(users, db, userId, categories, interests).value;
      var e := Bookings.FindEvent(db.events, eventId).value;
      var found := Candidates(users, users, db, userId, mine, categories, interests, db.events[e].category, score);
      var r := CompatibleUsers(users, db, userId, eventId, topN, score).value;
      |r| == (if topN <= |found| then topN else |found|)
      && (forall i :: 0 <= i < |r| ==> r[i] in found)
      && forall m :: m in found && m !in r ==>
        forall i :: 0 <= i < |r| ==> r[i].compatibilityScore >= m.compatibilityScore
  {
  }

  /** Ranking only reorders: with room for every candidate, each one that
      passes is returned. */
  lemma RankingKeepsEveryCandidate(users: seq<Users.User>, db: Bookings.Db, userId: Id, eventId: Id, topN: nat,
                                   score: (seq<nat>, seq<nat>, Users.User) -> Option<int>)
    requires Bookings.FindEvent(db.events, eventId).Some?
    requires Users.FindById(users, userId).Some?
    requires topN >= |users|
    ensures var categories := AllCategories(db.events);
      var interests := AllInterests(users);
      var mine := UserVector(users, db, userId, categories, interests).value;
      var e := Bookings.FindEvent(db.events, eventId).value;
      multiset(CompatibleUsers(users, db, userId, eventId, topN, score).value)
        == multiset(Candidates(users, users, db, userId, mine, categories, interests, db.events[e].category, score))
  {
    var categories := AllCategories(db.events);
    var interests := AllInterests(users);
    var mine := UserVector(users, db, userId, categories, interests).value;
    var e := Bookings.FindEvent(db.events, eventId).value;
    var found := Candidates(users, users, db, userId, mine, categories, interests, db.events[e].category, score);
    RankKeepsAll(found, topN);
  }

  /** With room for every candidate, ranking is a permutation. */
  lemma RankKeepsAll(found: seq<Match>, topN: nat)
    requires topN >= |found|
    ensures multiset(Rank(found, topN)) == multiset(found)
  {
    assert Seqs.SmallestByKey(found, NegScore, topN) == Seqs.SortByKey(found, NegScore);
  }
}
