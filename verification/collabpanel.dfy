/** The collaborator panel of an event,
    frontend/src/pages/EventCollaborationPanel.jsx: the search and
    compatibility filter over the suggested matches, the invite state
    update, and the colour of a score. */
module CollabPanel {
  import opened Wrappers
  import Text
  import Seqs
  import Collab

  /** A suggestion as the panel holds it: the match from the server and
      the `status` an invite sets. */
  datatype Card = Card(suggestion: Collab.Match, status: Option<string>)

  /** Case-insensitive `haystack.includes(needle)`. */
  predicate Mentions(haystack: string, needle: string) {
    Text.Includes(Text.ToLower(haystack), Text.ToLower(needle))
  }

  /** The search test: the name or some interest mentions the term. */
  predicate MatchesSearch(m: Collab.Match, term: string) {
    Mentions(m.name, term) || exists i :: 0 <= i < |m.interests| && Mentions(m.interests[i], term)
  }

  /** The bucket test: 'all' admits every score, 'high' 70 and more,
      'medium' 30 up to 69; any other choice admits none. */
  predicate MatchesBucket(score: int, bucket: string) {
    bucket == "all"
    || (bucket == "high" && score >= 70)
    || (bucket == "medium" && score >= 30 && score < 70)
  }

  /** `filteredMatches`. */
  function FilteredMatches(cards: seq<Card>, term: string, bucket: string): (r: seq<Card>)
    ensures forall c :: c in r <==> c in cards && MatchesSearch(c.suggestion, term)
                                    && MatchesBucket(c.suggestion.compatibilityScore, bucket)
    ensures |r| <= |cards|
  {
    Seqs.Filter(cards, (c: Card) => MatchesSearch(c.suggestion, term) && MatchesBucket(c.suggestion.compatibilityScore, bucket))
  }

  /** With no search term and the 'all' bucket, every match is shown. */
  lemma DefaultsShowAll(cards: seq<Card>)
    ensures FilteredMatches(cards, "", "all") == cards
  {
    forall c: Card
      ensures MatchesSearch(c.suggestion, "")
    {
      Text.IncludesEmpty(Text.ToLower(c.suggestion.name));
    }
    Seqs.FilterAll(cards, (c: Card) => MatchesSearch(c.suggestion, "") && MatchesBucket(c.suggestion.compatibilityScore, "all"));
  }

  /** The 'high' and 'medium' buckets never share a score, and together
      they are the scores from 30 up. */
  lemma BucketsSplit(score: int)
    ensures !(MatchesBucket(score, "high") && MatchesBucket(score, "medium"))
    ensures MatchesBucket(score, "high") || MatchesBucket(score, "medium") <==> score >= 30
  {
  }

  /** `handleInvite`'s update: the match with that id becomes pending, and
      every other card stays as it was. The request's own failure is
      swallowed before it reaches here, so the update always happens. */
  function Invite(cards: seq<Card>, invitedId: Id): (r: seq<Card>)
    ensures |r| == |cards|
    ensures forall i :: 0 <= i < |cards| ==>
      if cards[i].suggestion.id == invitedId then r[i] == cards[i].(status := Some("pending"))
      else r[i] == cards[i]
  {
    seq(|cards|, i requires 0 <= i < |cards| =>
      if cards[i].suggestion.id == invitedId then cards[i].(status := Some("pending")) else cards[i])
  }

  /** Inviting twice is inviting once. */
  lemma InviteIdempotent(cards: seq<Card>, invitedId: Id)
    ensures Invite(Invite(cards, invitedId), invitedId) == Invite(cards, invitedId)
  {
  }

  /** An invite changes no match data, so it never moves a card in or out
      of the filtered list. */
  lemma InviteKeepsFilter(cards: seq<Card>, invitedId: Id, term: string, bucket: string, i: nat)
    requires i < |cards|
    ensures Invite(cards, invitedId)[i] in FilteredMatches(Invite(cards, invitedId), term, bucket)
            <==> cards[i] in FilteredMatches(cards, term, bucket)
  {
    assert Invite(cards, invitedId)[i].suggestion == cards[i].suggestion;
  }

  /** `getCompatibilityColor`. */
  function CompatibilityColor(score: int): (r: string)
    ensures r == "bg-green-500" <==> score >= 70
    ensures r == "bg-yellow-500" <==> 40 <= score < 70
    ensures r == "bg-red-500" <==> score < 40
  {
    if score >= 70 then "bg-green-500"
    else if score >= 40 then "bg-yellow-500"
    else "bg-red-500"
  }

  /** The colour follows the 'high' bucket exactly, but its yellow starts at
      40 while the 'medium' bucket starts at 30: a medium match of 30 to 39
      is shown red. */
  lemma ColourAgainstBuckets(score: int)
    ensures CompatibilityColor(score) == "bg-green-500" <==> MatchesBucket(score, "high")
    ensures CompatibilityColor(35) == "bg-red-500" && MatchesBucket(35, "medium")
  {
  }
}
