/**
 * The older version of the client views: the same rating checks, but the
 * mutual branch only reports the match; it mails nobody and clears nothing.
 * Also the unfiltered user listing of that version.
 */
module LegacyLikes {
  import opened Profiles
  import opened Views
  import Likes

  /** The answer of one request and the relation after it. */
  datatype Step = Step(outcome: Outcome, lovers: set<Edge>)

  /** The older `LikeUserView.post` by `caller` for the target `pk`. */
  function Rate(s: Snapshot, caller: UserId, pk: UserId): (r: Step)
    requires caller in s.users
    ensures s.lovers <= r.lovers
    ensures r.lovers - s.lovers <= {(caller, pk)}
    ensures Consistent(s) ==> Consistent(s.(lovers := r.lovers))
    ensures r.lovers != s.lovers ==> r.outcome.Rated?
  {
    if pk !in s.users then Step(NotFound, s.lovers)
    else if caller == pk then Step(SelfRating, s.lovers)
    else if (caller, pk) in s.lovers then Step(AlreadyRated, s.lovers)
    else if (pk, caller) in s.lovers then Step(Matched(s.users[pk].email), s.lovers)
    else Step(Rated(s.users[pk].username), s.lovers + {(caller, pk)})
  }

  /**
   * The mutual branch changes nothing, so asking again gives the same
   * answer, and the target's earlier rating stays pending.
   */
  lemma MatchIsRepeatable(s: Snapshot, caller: UserId, pk: UserId)
    requires caller in s.users && pk in s.users && caller != pk
    requires (caller, pk) !in s.lovers && (pk, caller) in s.lovers
    ensures var r := Rate(s, caller, pk);
      && r == Step(Matched(s.users[pk].email), s.lovers)
      && Rate(s.(lovers := r.lovers), caller, pk) == r
      && (pk, caller) in r.lovers && (caller, pk) !in r.lovers
  {
  }

  /**
   * a rates b, then b rates a: the second request matches, yet a's rating
   * of b is kept, so a rating b again is forbidden.
   */
  lemma MatchLeavesRatingPending(s: Snapshot, a: UserId, b: UserId)
    requires a in s.users && b in s.users && a != b
    requires (a, b) !in s.lovers && (b, a) !in s.lovers
    ensures var first := Rate(s, a, b);
      var second := Rate(s.(lovers := first.lovers), b, a);
      var third := Rate(s.(lovers := second.lovers), a, b);
      && first == Step(Rated(s.users[b].username), s.lovers + {(a, b)})
      && second == Step(Matched(s.users[a].email), first.lovers)
      && third == Step(AlreadyRated, first.lovers)
  {
  }

  /** The two versions answer alike; they differ only in what a match clears. */
  lemma AgreesWithCurrentVersion(s: Snapshot, caller: UserId, pk: UserId)
    requires caller in s.users
    ensures var legacy, current := Rate(s, caller, pk), Likes.Rate(s, caller, pk);
      && legacy.outcome == current.outcome
      && (if legacy.outcome.Matched? then current.lovers == legacy.lovers - {(pk, caller)}
          else current.lovers == legacy.lovers)
  {
  }

  /** A rated user appears in the target's lover listing. */
  lemma RatedJoinsLoverList(s: Snapshot, caller: UserId, pk: UserId)
    requires Consistent(s) && caller in s.users
    requires Rate(s, caller, pk).outcome.Rated?
    ensures var t := s.(lovers := Rate(s, caller, pk).lovers);
      && LoverList(t, pk) == LoverList(s, pk)[caller := s.users[caller]]
      && caller !in LoverList(s, pk)
  {
    var t := s.(lovers := Rate(s, caller, pk).lovers);
    LoversDirected(s, caller, pk);
    assert Consistent(t);
  }

  /** `UserListView.get`: every user, unfiltered. */
  function UserList(s: Snapshot): map<UserId, User>
  {
    s.users
  }

  /**
   * The user listing is untouched by ratings, and everyone in a lover
   * listing appears in it with the same record.
   */
  lemma UserListCoversLovers(s: Snapshot, caller: UserId, pk: UserId)
    requires caller in s.users
    ensures UserList(s.(lovers := Rate(s, caller, pk).lovers)) == UserList(s)
    ensures forall u | u in LoverList(s, caller) :: u in UserList(s) && UserList(s)[u] == LoverList(s, caller)[u]
  {
  }

  /** The older `LikeUserView.post`, updating the profile table in place. */
  method Post(db: Database, caller: UserId, pk: UserId) returns (o: Outcome)
    requires caller in db.users
    modifies db
    ensures var r := Rate(old(db.State()), caller, pk);
      o == r.outcome && db.lovers == r.lovers
    ensures db.users == old(db.users)
    ensures old(db.Valid()) ==> db.Valid()
  {
    if pk !in db.users {
      return NotFound;
    }
    var liked := db.users[pk];
    if caller == pk {
      return SelfRating;
    }
    if db.IsLover(pk, caller) {
      return AlreadyRated;
    }
    if db.IsLover(caller, pk) {
      return Matched(liked.email);
    }
    db.AddLover(pk, caller);
    return Rated(liked.username);
  }
}
