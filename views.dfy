/**
 * Vocabulary shared by both versions of the client views: the answers of the
 * rating view and the "who rated me" listing, whose code is the same in both.
 */
module Views {
  import opened Profiles

  /** What a rating request answers. */
  datatype Outcome =
    | NotFound                      // no user with the requested pk
    | SelfRating                    // the caller tried to rate themselves
    | AlreadyRated                  // the caller is already among the target's lovers
    | Matched(loversEmail: string)  // mutual sympathy; carries the target's email
    | Rated(username: string)       // the rating was recorded; names the target

  /** The HTTP status each answer is sent with. */
  function Status(o: Outcome): (code: int)
    ensures code == 200 <==> o.Matched? || o.Rated?
    ensures o.NotFound? <==> code == 404
    ensures o.SelfRating? <==> code == 400
    ensures o.AlreadyRated? <==> code == 403
  {
    match o
    case NotFound => 404
    case SelfRating => 400
    case AlreadyRated => 403
    case _ => 200
  }

  /** `LoverListView.get`: the user records of everyone who rated the caller. */
  function LoverList(s: Snapshot, caller: UserId): (r: map<UserId, User>)
    ensures forall u | u in r :: (u, caller) in s.lovers && u in s.users && r[u] == s.users[u]
    ensures Consistent(s) ==> r.Keys == Lovers(s, caller) && caller !in r
  {
    map u | u in Lovers(s, caller) && u in s.users :: s.users[u]
  }
}
