/**
 * The rating view of the current API (`LikeUserView`): a caller rates a
 * target; a rating that answers an earlier rating by the target is a mutual
 * match, which mails both users and clears the pending pair.
 */
module Likes {
  import opened Profiles
  import opened Views

  /** A mutual-sympathy mail: sent to `recipient`, naming the other user. */
  datatype Letter = Letter(recipient: string, loverName: string, loverEmail: string)

  /** The mail `beloved` receives about `lover`. */
  function LoveLetter(beloved: User, lover: User): (m: Letter)
    ensures m.recipient == beloved.email
    ensures m.loverName == lover.username && m.loverEmail == lover.email
  {
    Letter(beloved.email, lover.username, lover.email)
  }

  /** The answer of one request, the relation after it and the mail it sent. */
  datatype Step = Step(outcome: Outcome, lovers: set<Edge>, letters: seq<Letter>)

  /** Both directed edges between a and b. */
  function Pair(a: UserId, b: UserId): set<Edge>
  {
    {(a, b), (b, a)}
  }

  /** `LikeUserView.post` by `caller` for the target `pk`, on the state s. */
  function Rate(s: Snapshot, caller: UserId, pk: UserId): (r: Step)
    requires caller in s.users
    ensures r.lovers - Pair(caller, pk) == s.lovers - Pair(caller, pk)
    ensures Consistent(s) ==> Consistent(s.(lovers := r.lovers))
    ensures Status(r.outcome) != 200 ==> r.lovers == s.lovers && r.letters == []
    ensures r.letters != [] <==> r.outcome.Matched?
  {
    if pk !in s.users then Step(NotFound, s.lovers, [])
    else if caller == pk then Step(SelfRating, s.lovers, [])
    else if (caller, pk) in s.lovers then Step(AlreadyRated, s.lovers, [])
    else if (pk, caller) in s.lovers then
      var current, liked := s.users[caller], s.users[pk];
      Step(Matched(liked.email), s.lovers - {(pk, caller)},
           [LoveLetter(current, liked), LoveLetter(liked, current)])
    else
      Step(Rated(s.users[pk].username), s.lovers + {(caller, pk)}, [])
  }

  lemma UnknownTarget(s: Snapshot, caller: UserId, pk: UserId)
    requires caller in s.users && pk !in s.users
    ensures Rate(s, caller, pk) == Step(NotFound, s.lovers, [])
  {
  }

  lemma SelfRatingRejected(s: Snapshot, caller: UserId)
    requires caller in s.users
    ensures Rate(s, caller, caller) == Step(SelfRating, s.lovers, [])
  {
  }

  lemma RepeatRatingForbidden(s: Snapshot, caller: UserId, pk: UserId)
    requires caller in s.users && pk in s.users && caller != pk
    requires (caller, pk) in s.lovers
    ensures Rate(s, caller, pk) == Step(AlreadyRated, s.lovers, [])
  {
  }

  /**
   * The mutual branch: both users are mailed about each other, the target's
   * pending rating is removed, and afterwards no edge joins the pair.
   */
  lemma MutualMatch(s: Snapshot, caller: UserId, pk: UserId)
    requires caller in s.users && pk in s.users && caller != pk
    requires (caller, pk) !in s.lovers && (pk, caller) in s.lovers
    ensures var r := Rate(s, caller, pk);
      && r.outcome == Matched(s.users[pk].email)
      && r.lovers == s.lovers - {(pk, caller)}
      && (caller, pk) !in r.lovers && (pk, caller) !in r.lovers
      && |r.letters| == 2
      && r.letters[0].recipient == s.users[caller].email
      && r.letters[0].loverName == s.users[pk].username && r.letters[0].loverEmail == s.users[pk].email
      && r.letters[1].recipient == s.users[pk].email
      && r.letters[1].loverName == s.users[caller].username && r.letters[1].loverEmail == s.users[caller].email
      && Lovers(s.(lovers := r.lovers), caller) == Lovers(s, caller) - {pk}
      && Lovers(s.(lovers := r.lovers), pk) == Lovers(s, pk)
  {
    var t := s.(lovers := s.lovers - {(pk, caller)});
    assert forall v :: v in Lovers(t, caller) <==> v in Lovers(s, caller) - {pk};
    assert forall v :: v in Lovers(t, pk) <==> v in Lovers(s, pk);
  }

  /** A first rating adds exactly `caller -> pk`; the target gains one lover. */
  lemma FreshRating(s: Snapshot, caller: UserId, pk: UserId)
    requires caller in s.users && pk in s.users && caller != pk
    requires (caller, pk) !in s.lovers && (pk, caller) !in s.lovers
    ensures var r := Rate(s, caller, pk);
      && r == Step(Rated(s.users[pk].username), s.lovers + {(caller, pk)}, [])
      && Lovers(s.(lovers := r.lovers), pk) == Lovers(s, pk) + {caller}
      && |Lovers(s.(lovers := r.lovers), pk)| == |Lovers(s, pk)| + 1
      && Lovers(s.(lovers := r.lovers), caller) == Lovers(s, caller)
  {
    LoversDirected(s, caller, pk);
  }

  /** Rating the same user twice in a row: recorded, then forbidden. */
  lemma RateTwice(s: Snapshot, caller: UserId, pk: UserId)
    requires caller in s.users && pk in s.users && caller != pk
    requires (caller, pk) !in s.lovers && (pk, caller) !in s.lovers
    ensures var first := Rate(s, caller, pk);
      var second := Rate(s.(lovers := first.lovers), caller, pk);
      && first.outcome == Rated(s.users[pk].username)
      && second == Step(AlreadyRated, first.lovers, [])
  {
    FreshRating(s, caller, pk);
  }

  /**
   * a rates b, then b rates a: the second request matches, both users are
   * mailed once, and the relation is back where it started.
   */
  lemma MatchRestoresRelation(s: Snapshot, a: UserId, b: UserId)
    requires a in s.users && b in s.users && a != b
    requires (a, b) !in s.lovers && (b, a) !in s.lovers
    ensures var first := Rate(s, a, b);
      var second := Rate(s.(lovers := first.lovers), b, a);
      && first.outcome == Rated(s.users[b].username)
      && second.outcome == Matched(s.users[a].email)
      && second.lovers == s.lovers
      && second.letters == [LoveLetter(s.users[b], s.users[a]), LoveLetter(s.users[a], s.users[b])]
  {
    FreshRating(s, a, b);
    var t := s.(lovers := s.lovers + {(a, b)});
    MutualMatch(t, b, a);
  }

  /** A sequence of rating requests, each by an authenticated user. */
  datatype Request = Request(caller: UserId, pk: UserId)

  /** The state after serving the requests one at a time. */
  function Run(s: Snapshot, requests: seq<Request>): (t: Snapshot)
    requires forall q | q in requests :: q.caller in s.users
    ensures t.users == s.users
    decreases |requests|
  {
    if requests == [] then s
    else
      var q := requests[0];
      Run(s.(lovers := Rate(s, q.caller, q.pk).lovers), requests[1..])
  }

  /** Every state the rating view can reach from a consistent one is consistent. */
  lemma {:induction false} RunKeepsConsistent(s: Snapshot, requests: seq<Request>)
    requires forall q | q in requests :: q.caller in s.users
    requires Consistent(s)
    ensures Consistent(Run(s, requests))
    decreases |requests|
  {
    if requests != [] {
      var q := requests[0];
      var t := s.(lovers := Rate(s, q.caller, q.pk).lovers);
      assert forall p | p in requests[1..] :: p in requests;
      RunKeepsConsistent(t, requests[1..]);
    }
  }

  /** The mail server: the letters handed to it so far. */
  class Outbox {
    var sent: seq<Letter>

    constructor ()
      ensures sent == []
    {
      sent := [];
    }
  }

  /** `__send_love(beloved, lover)`: mail beloved the lover's name and email. */
  method SendLove(outbox: Outbox, beloved: User, lover: User)
    modifies outbox
    ensures outbox.sent == old(outbox.sent) + [LoveLetter(beloved, lover)]
  {
    outbox.sent := outbox.sent + [LoveLetter(beloved, lover)];
  }

  /** `LikeUserView.post`, updating the profile table in place. */
  method Post(db: Database, outbox: Outbox, caller: UserId, pk: UserId) returns (o: Outcome)
    requires caller in db.users
    modifies db, outbox
    ensures var r := Rate(old(db.State()), caller, pk);
      && o == r.outcome
      && db.lovers == r.lovers
      && outbox.sent == old(outbox.sent) + r.letters
    ensures db.users == old(db.users)
    ensures old(db.Valid()) ==> db.Valid()
  {
    if pk !in db.users {
      return NotFound;
    }
    var current, liked := db.users[caller], db.users[pk];
    if caller == pk {
      return SelfRating;
    }
    if db.IsLover(pk, caller) {
      return AlreadyRated;
    }
    if db.IsLover(caller, pk) {
      SendLove(outbox, current, liked);
      SendLove(outbox, liked, current);
      db.RemoveLover(caller, pk);
      return Matched(liked.email);
    }
    db.AddLover(pk, caller);
    return Rated(liked.username);
  }
}
