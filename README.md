# Mutual-sympathy rating and profile validation

A Dafny model of the core of a small dating service built on Django REST
Framework. Users rate ("like") each other. A rating is recorded in the
directed `lovers` relation of the user profiles: `rater` is among
`rated.profile.lovers`. When a user rates someone who has already rated them,
the service reports a mutual sympathy. The current version also mails both
users and clears the pending rating. The older version only reports it.

The model covers:

- **Profile validation** (`clients/models.py`), in module `Profiles`:
  - the two gender choices `M` and `F`;
  - the latitude and longitude decimal fields. Each is a decimal with at most
    16 digits and at most 13 after the point, bounded by -180 and 180 on both
    axes, exactly as the code declares.
  - Decimals are modelled as Python's `decimal` module represents them: sign,
    coefficient digits, exponent. Stored coordinates are integers scaled by
    10^13.
- **The `lovers` relation**: a set of ordered pairs `(rater, rated)` held by
  the `Profiles.Database` class, with the in-place `add` and `remove` of a
  many-to-many field.
- **The current rating view** (`api/clients/views.py`), in module `Likes`:
  - `Likes.Rate` is the specification function;
  - `Likes.Post` updates the `Database` and an `Outbox` of sent letters in
    place and is proved against `Likes.Rate`;
  - `__send_love` is `Likes.SendLove`, which appends one letter to the outbox.
- **The older rating view** (`date_me_please/api/clients/views.py`), in module
  `LegacyLikes`, and its unfiltered user listing.
- **The "who rated me" listing**, in module `Views`. It has the same code in
  both versions.

The invariant both versions keep is `Profiles.Consistent`:

- nobody has rated themselves;
- no pair of users has rated each other in both directions;
- every pair joins existing users.

Requests are served one at a time.

Notes on the code's behaviour:

- The mutual branch removes only the target's rating of the caller
  (`api/clients/views.py:231`). The caller's rating of the target cannot
  exist at that point, because the 403 guard has already excluded it. So no
  edge is left either way, but the code removes only one.
- A repeated rating answers 403.
- Rating yourself answers 400. Only the view rejects it; the relation itself
  would accept a self pair.
- Latitude is bounded by ±180, the same as longitude.

## Model

| member | source | states |
|---|---|---|
| `Profiles.CleanGender` | clients/models.py:14-29 | a raw gender is accepted exactly when it is `M` or `F`; the accepted code fits the field's max length of 2 |
| `Profiles.GenderRoundTrip` | clients/models.py:14-18 | the stored code of each choice validates back to that same choice |
| `Profiles.ShapeErrors` | clients/models.py:30-32 | the decimal-shape check tests, in order, more than 16 digits, more than 13 places, more than 3 whole digits, and reports exactly the first rule broken (so at most one error); it reports nothing exactly when all three hold |
| `Profiles.CoordinateErrors` | clients/models.py:30-35 | a latitude is reported below the minimum exactly when its value is below -180 and above the maximum exactly when it is above 180 (so never both), together with exactly the shape error; it is free of errors exactly when it is well shaped and -180 <= value <= 180 |
| `Profiles.WellShapedBelowThousand` | clients/models.py:30-32 | every well-shaped decimal is strictly between -1000 and 1000, i.e. has at most 3 digits before the point |
| `Profiles.CleanCoordinate` | clients/models.py:39-43 | a longitude (the latitude field is declared the same way) validates exactly when well shaped and within ±180; the stored value is the same number scaled to 13 places and lies within ±180·10^13 |
| `Profiles.StoredRoundTrip` | clients/models.py:30-34 | every in-range stored coordinate, read back as a 13-place decimal, validates to itself |
| `Profiles.CleanProfile` | clients/models.py:25-47 | a profile is accepted exactly when its gender, latitude and longitude all are; the accepted profile keeps the given gender code and stores each coordinate as the same number scaled to 13 places, within range; a rejection carries a gender error exactly when the gender is not a choice, and each coordinate's errors |
| `Profiles.ProfileRoundTrip` | clients/models.py:25-47 | every valid stored profile re-validates to itself |
| `Profiles.Lovers` | clients/models.py:54-59 | v is among u's lovers exactly when the pair (v, u) is in the relation; in a consistent state u is not its own lover and all lovers are known users |
| `Profiles.LoversDirected` | clients/models.py:54-56 | putting a into b's lovers adds exactly a to b's lovers and leaves a's lovers unchanged (the relation is not symmetrical) |
| `Profiles.Database.constructor` | clients/models.py:57 | a new profile table has an empty relation (the field may be blank) and is consistent |
| `Profiles.Database.AddLover` | api/clients/views.py:239 | adding a lover adds exactly that one directed pair and leaves users unchanged |
| `Profiles.Database.RemoveLover` | api/clients/views.py:231 | removing a lover removes exactly that one directed pair and leaves users unchanged |
| `Views.Status` | api/clients/views.py:207-219 | not found answers 404, self-rating 400, a repeat 403; only a match or a recorded rating answer 200 |
| `Views.LoverList` | api/clients/views.py:159-165 | the listing holds only users who rated the caller, with their own records; in a consistent state it holds exactly the caller's raters and never the caller |
| `Likes.LoveLetter` | api/clients/views.py:191-196 | the mail goes to the beloved's address and names the lover's username and email (a field-by-field statement; `Likes.MutualMatch` states what the letters of a match say) |
| `Likes.SendLove` | api/clients/views.py:173-197 | sending appends exactly one letter to what the mail server has received |
| `Likes.Rate` | api/clients/views.py:199-241 | only pairs between caller and target ever change; consistency is preserved; every error answer leaves the relation unchanged and sends no mail; mail is sent exactly on a match |
| `Likes.UnknownTarget` | api/clients/views.py:204-209 | an unknown target answers not found, with the relation unchanged and no mail |
| `Likes.SelfRatingRejected` | api/clients/views.py:212-214 | rating oneself answers 400, changes nothing and never creates a self pair |
| `Likes.RepeatRatingForbidden` | api/clients/views.py:217-219 | if the caller already rated the target, the answer is 403 with nothing changed |
| `Likes.MutualMatch` | api/clients/views.py:224-236 | when the target rated the caller first: the answer carries the target's email; exactly the target's rating is removed; no pair is left either way; exactly two letters go out, the first to the caller's address naming the target's username and email, the second to the target's address naming the caller's; the caller loses the target as lover |
| `Likes.FreshRating` | api/clients/views.py:238-241 | a first rating adds exactly the pair caller→target and names the target; the target gains exactly the caller as lover, so its lover count grows by one; the caller's lovers are unchanged |
| `Likes.RateTwice` | api/clients/views.py:217-241 | rating the same user twice in a row is recorded, then answered 403 with nothing changed |
| `Likes.MatchRestoresRelation` | api/clients/tests.py:164-187 | a rates b, then b rates a: the second request matches, both users get one letter, and the relation is exactly what it was before the first rating |
| `Likes.RunKeepsConsistent` | api/clients/views.py:212-239 | any sequence of rating requests from a consistent state ends in a consistent state |
| `Likes.Post` | api/clients/views.py:199-241 | the in-place view answers, updates the relation and sends mail as `Likes.Rate` says, never changes users, and keeps the table consistent |
| `LegacyLikes.Rate` | date_me_please/api/clients/views.py:56-106 | the relation only grows, and by at most the pair caller→target; only a recorded rating changes it; consistency is preserved |
| `LegacyLikes.MatchIsRepeatable` | date_me_please/api/clients/views.py:79-101 | the mutual branch answers with the target's email, changes nothing, and so gives the same answer when repeated; the target's rating stays pending |
| `LegacyLikes.MatchLeavesRatingPending` | date_me_please/api/clients/views.py:74-106 | a rates b (recorded), b rates a (match, nothing cleared), a rates b again (403) |
| `LegacyLikes.AgreesWithCurrentVersion` | date_me_please/api/clients/views.py:56-106 | both versions give the same answer on every input; the relations differ only on a match, where the current version also removes the target's rating |
| `LegacyLikes.RatedJoinsLoverList` | date_me_please/api/clients/views.py:116-120 | after a recorded rating, the target's lover listing is the old one plus exactly the caller's record |
| `LegacyLikes.UserListCoversLovers` | date_me_please/api/clients/views.py:45-48 | about `LegacyLikes.UserList`, the model of `UserListView.get` (all users, unfiltered): the listing is unchanged by any rating, and every user in a lover listing appears in it with the same record |
| `LegacyLikes.Post` | date_me_please/api/clients/views.py:56-106 | the in-place view answers and updates the relation as `LegacyLikes.Rate` says, never changes users, and keeps the table consistent |

## Left out

- Distance filtering (`UserFilter.filter_distance` in `api/clients/views.py` and `api/clients/filters.py`) is left out. It is floating-point trigonometry evaluated by database functions. Both versions build a new queryset from all users instead of narrowing the incoming one. The distance filter is declared last among the filter fields (`api/clients/views.py:83-84`), so when a distance is given, the first-name, last-name and gender filters are discarded and only the distance applies. The filtered `UserListView.get` of the current version is not modelled.
- Mail delivery in `__send_love` is left out: the SMTP connection, the login from environment variables and the sender address. A letter is modelled as recipient address plus the other user's username and email. Sending always succeeds in the model. In the source, a failed send raises before the pending rating is removed, and that path is not modelled.
- The Russian message texts of the responses are left out, and so are their translation. An outcome carries only its data: the target's username or email.
- The order of the lover listing is left out. The database's iteration order is not specified, so the listing is a map keyed by user id.
- Concurrency is left out. The views check and then act without a transaction. The model serves one request at a time.
- Users without a profile are left out. Registration always creates one, and the views would raise on a user without one. The model keeps each user's single profile inside its user record.
- Deleting users (the cascade from user to profile) is left out.
- Registration, logout, JWT handling, image watermarking, the admin, URL configuration, the migration, and the generic `RegisterView`, `UserDetailView` and `LogoutView` are left out. They carry no logic of their own beyond framework calls.
- Django's field-validation machinery is not part of this model. `Profiles.ShapeErrors` follows the digit-counting rule of its decimal validator. Non-finite decimals (NaN, infinities) are not modelled. The digit counts are those of canonical decimals (`Profiles.Canonical`), the only ones Python produces. A zero coefficient with a positive exponent (such as `0E+20`) counts as 1 plus the exponent digits here; some Django versions count it as a single digit.
- CoordinateErrors: reports the errors of all three validators together, as model-field validation does. Profile input that arrives through the registration serializer is checked by the REST framework's own decimal field, which rejects a badly shaped value with its shape error before the minimum and maximum are looked at; that serializer path is not modelled.
- CleanGender: a blank gender is reported as an invalid choice, like any other non-choice. This is a simplification: Django skips the choices check for an empty value and reports that the field may not be blank.
- The avatar image field is left out.
