# Social-feed backend: sessions and write workflows

This project models the core of a small Go HTTP backend for a social feed
that stores users, posts and notifications in MongoDB. The model covers:

- the in-memory session store and authentication gate
  (`app/auth.handlers.go`): sign-in, logout, the middleware that resolves
  the `session` cookie and deletes expired entries on sight, and the
  generation of 16-byte random tokens written in lower-case hexadecimal;
- the four handlers that write to the store (`app/handlers.go`): profile
  creation, profile update, post creation and the like action;
- the documents of `app/models.go`.

Files and modules:

- `base.dfy` (`Base`): bytes, twelve-byte object ids, `Option`, and HTTP
  responses with their status codes.
- `hex.dfy` (`Hex`): lower-case Base16 encoding, as in section 8 of RFC 4648,
  and case-insensitive decoding, as the Go `encoding/hex` package does. Both
  round trips are proved.
- `models.dfy` (`Models`): the three documents, `$addToSet` on id lists, and
  parsing an object id from 24 hexadecimal digits.
- `store.dfy` (`Store`):
  - the three collections as a value;
  - the writes the handlers issue;
  - the class `Database`, whose three map fields `Execute` updates in place;
  - `Performed`, the number of writes a handler gets through when one store
    call fails and the handler returns early.
- `auth.dfy` (`Auth`): the class `SessionStore` (the process-wide token →
  session map) with `SignIn`, `Logout`, `Authenticate` and `StartSession`,
  and the token generator.
- `handlers.dfy` (`Handlers`): each handler has a specification function
  (`…Spec`) and an imperative method. The function gives the answer and the
  ordered writes the store performs. The method issues the store calls one
  by one against a `Database` and is proved to match the function.
- `properties.dfy` (`HandlerProperties`): what the handlers guarantee and
  what they do not. This covers the like guard and its idempotency, the
  prefix of writes left behind when a store call fails, and the invariant
  that a post's `likesCount` equals the number of users who liked it. A
  successful like, profile creation and profile update preserve that
  invariant, and so does post creation when no user already lists the new
  id among their liked posts. A like can be recorded against an id with no
  post yet, so that proviso is needed. A like that fails at its third write
  (`likedPosts`) after the counter of an existing post was raised breaks the
  invariant; one that fails at its fourth write (`notifications`) keeps it.

Time is a whole number of seconds passed in as `now`. The random bytes of a
token are passed in as `random`, which is None when the entropy source
fails. New object ids are passed in. A store failure is chosen by a `Fault`
naming the index of the failing store call within the request.

Modelling choices taken from the code:

- An insert whose `_id` already exists is refused, as a duplicate key is.
- An update whose filter matches nothing succeeds and changes nothing. So a
  like of a syntactically valid id with no post behind it succeeds: it
  creates a notification and increments nothing.
- Logout is routed without the authentication gate (`app/main.go:77`). It
  deletes whatever token the cookie carries, expired or unknown, and answers
  200.
- When the entropy source fails, the handlers ignore the error and store the
  session under the empty token.
- The like guard reads `likedPosts` from whatever the user lookup decoded
  before it looks at the lookup's error. A failed lookup therefore reaches
  the 500 of the lookup error, never the "already liked" answer.

## Model

| member | source | states |
|---|---|---|
| Hex.Encode | app/auth.handlers.go:169 | the encoding has two characters per byte, all lower-case hexadecimal digits |
| Hex.Decode | app/handlers.go:348 | a successful decoding has one byte per two characters |
| Hex.DecodeEncode | app/auth.handlers.go:169 | decoding the encoding of any bytes gives those bytes back |
| Hex.EncodeDecode | app/handlers.go:348 | a lower-case hex string that decodes is the encoding of what it decodes to |
| Hex.DecodeIffEncode | app/handlers.go:348 | a lower-case string decodes to given bytes exactly when it is their encoding |
| Hex.EncodeInjective | app/auth.handlers.go:169 | different byte strings have different encodings |
| Models.AddToSet | app/handlers.go:392 | `$addToSet`: membership is old membership or the new element, the old list is kept as prefix, an element already present leaves the list unchanged, an absent one is added once at the end, a duplicate-free list stays duplicate-free |
| Models.AddToSetIdempotent | app/handlers.go:398 | adding the same id twice is the same as adding it once |
| Models.ObjectIdFromHex | app/handlers.go:348-353 | an id parses exactly from a 24-character string that hex-decodes (either case), and then to the decoded bytes |
| Models.ObjectIdHexRoundTrip | app/models.go:8 | the hex form of an id parses back to it, and no other lower-case string does |
| Store.Performed | app/handlers.go:378-402 | the writes performed under an early return on the first error: at most all of them, and the first one not performed is refused or failed against the state the earlier ones left |
| Store.ApplyAllSnoc | app/handlers.go:378-402 | applying writes one after the other extends the effect at its end |
| Store.PerformedStep | app/handlers.go:378-402 | write j is performed exactly when it succeeds after the first j writes, and the state after it is that state with write j applied |
| Store.ApplyPreservesWellKeyed | app/models.go:7-29 | every write keeps each document stored under its own `_id` |
| Store.FindUserById | app/handlers.go:357-359 | `FindOne` by `_id` finds the document exactly when the call works and the id is present, and fails exactly when the call fails |
| Store.Database.constructor | app/models.go:7-29 | the database starts with three empty collections |
| Store.Database.Execute | app/handlers.go:70-74 | a write succeeds exactly when the call works and the store accepts it, and then has exactly its effect; otherwise nothing changes |
| Store.Database.ExecuteNext | app/handlers.go:378-402 | issuing write j of a handler's sequence, after the first j were performed, succeeds exactly when `Performed` counts it, and leaves the state of the performed prefix |
| Store.Database.FindUserByName | app/auth.handlers.go:146-159 | `getUserByName` returns an error exactly on failure, no documents exactly when the name is not taken, and otherwise some user with that name |
| Auth.GenerateRandomString | app/auth.handlers.go:161-172 | succeeds exactly when the entropy source does; the string has two lower-case hex digits per byte and decodes back to the random bytes |
| Auth.GenerateSessionToken | app/auth.handlers.go:174-176 | a session token is 32 lower-case hex digits |
| Auth.IssuedToken | app/auth.handlers.go:72 | the stored token is the hex of the random bytes, or the empty string when generation failed and its error was ignored |
| Auth.IssuedTokensDistinct | app/auth.handlers.go:161-176 | different random bytes give different tokens |
| Auth.Resolve | app/auth.handlers.go:126-139 | a token is admitted exactly when its entry exists and has not expired, with the entry's user id and name; an expired entry is deleted and nothing else changes |
| Auth.ValidUntilExpiry | app/auth.handlers.go:40-42 | a session is accepted up to and including its expiry instant and rejected strictly after it |
| Auth.ExpiredRejectedTwice | app/auth.handlers.go:128-133 | a token found expired is removed, and every later resolve of it rejects without change |
| Auth.ResolveTouchesOnlyItsToken | app/auth.handlers.go:127-131 | resolving adds no entry and leaves every other token's entry as it was |
| Auth.SessionStore.constructor | app/auth.handlers.go:22 | the session map starts empty |
| Auth.SessionStore.StartSession | app/auth.handlers.go:72-85 | the cookie carries the issued token and an expiry ten hours after now, and the map gains exactly that entry |
| Auth.SessionStore.SignIn | app/auth.handlers.go:51-88 | every failure is the same 401 "Invalid username or password" and adds no session; a success requires a stored user with that name and password and records its session; the right password for a name all of whose holders share it signs in, and a name no holder of which has that password is refused |
| Auth.SessionStore.Logout | app/auth.handlers.go:90-112 | no cookie gives 401 and an unreadable one 400, both without change; otherwise the cookie's token is deleted, whether or not it existed, and nothing else changes |
| Auth.SessionStore.Authenticate | app/auth.handlers.go:114-144 | a request without a readable cookie is refused without change; otherwise the gate answers and leaves the map as `Resolve` says |
| Auth.SessionLifecycle | app/auth.handlers.go:72-134 | a session just started is admitted until its expiry, and after logout its token is refused |
| Handlers.CreateProfile | app/handlers.go:40-93 | answer and store effect are those of `CreateProfileSpec`; a session for the new user is recorded exactly when the answer is a success |
| Handlers.UpdateFields | app/handlers.go:148-159 | the `$set` document holds name and avatar exactly when they are non-empty, with those values, and is empty exactly when both are |
| Handlers.UpdateProfile | app/handlers.go:132-175 | answer and store effect are those of `UpdateProfileSpec` |
| Handlers.CreatePost | app/handlers.go:185-226 | answer and store effect are those of `CreatePostSpec` |
| Handlers.TrimPrefix | app/handlers.go:337 | a present prefix is removed and the rest kept, otherwise the string is unchanged |
| Handlers.TrimSuffix | app/handlers.go:338 | a present suffix is removed and the rest kept, otherwise the string is unchanged |
| Handlers.LikeSpecAfterGuard | app/handlers.go:371-405 | once the id parses, the user is found and the post is not yet liked, the like's answer and writes depend only on how many of its four writes the store performs |
| Handlers.RecordLike | app/handlers.go:371-405 | the four writes issued as store calls 1 to 4 with an early return on the first error: 200 with the notification when all were performed, otherwise 500, and the store holds exactly the performed prefix |
| Handlers.LikePost | app/handlers.go:336-406 | answer and store effect are those of `LikeSpec` |
| HandlerProperties.ApplyAllPreservesWellKeyed | app/models.go:7-29 | any sequence of writes keeps each document under its own `_id` |
| HandlerProperties.PerformedUpToFault | app/handlers.go:378-402 | when the store accepts every write, all are performed unless a call in range fails, and then exactly those before it |
| HandlerProperties.LikePathOfId | app/handlers.go:337-348 | the path "/posts/<hex id>/like" yields the id |
| HandlerProperties.LikeGuard | app/handlers.go:348-369 | a bad id gives 400, an already-liked post 500 "Post is already liked by you", a failed lookup 500, none of them writing; any write implies the guard passed |
| HandlerProperties.LikeWritesInOrder | app/handlers.go:371-405 | a like's writes are a prefix of notification insert, counter increment, `likedPosts` add, `notifications` add, and it succeeds exactly when all four ran |
| HandlerProperties.LikeStopsAtFailingWrite | app/handlers.go:378-402 | a failure at write k keeps writes 1 to k-1 and runs none after; without a failure all four run and the notification is returned |
| HandlerProperties.LikePrefixIsStage | app/handlers.go:378-402 | the first k writes of a like leave exactly the k-th stage: the notification stored, the counter raised, the post liked, the notification listed, in that order |
| HandlerProperties.LikeStageStep | app/handlers.go:378-402 | write k of a like takes stage k to stage k + 1 |
| HandlerProperties.LikeStepEffects | app/handlers.go:378-402 | after the first k writes: the notification exists from k = 1, the counter is one higher from k = 2, the post is liked from k = 3, the notification is listed from k = 4, and nothing else changes |
| HandlerProperties.LikeCompletes | app/handlers.go:359-405 | a successful like passed the guard, used a fresh notification id, performed all four writes and answers with its notification |
| HandlerProperties.LikeSuccess | app/handlers.go:371-405 | a successful like returns the notification it inserted, stores it under its fresh id, raises the counter by one, and changes no other post or user |
| HandlerProperties.LikeSuccessLists | app/handlers.go:392-402 | after a successful like the user's `likedPosts` is the old list plus the post, their `notifications` holds the new notification, and neither list gains a duplicate |
| HandlerProperties.LikeTwice | app/handlers.go:359-364 | after a successful like, liking the same post again writes nothing and answers 500, "already liked" unless the lookup fails |
| HandlerProperties.LikersAfterUpdate | app/handlers.go:392 | replacing one user changes the likers of a post only by that user |
| HandlerProperties.OneMoreLikeKeepsLikesConsistent | app/handlers.go:386-392 | one user gaining one liked post while that post's counter rises by one keeps every counter equal to its likers |
| HandlerProperties.LikeKeepsLikesConsistent | app/handlers.go:371-405 | a successful like keeps every post's `likesCount` equal to the number of users who liked it |
| HandlerProperties.LikeFailureAfterIncrementBreaksConsistency | app/handlers.go:355-396 | without a transaction, a failure at the `likedPosts` write leaves the counter one above the number of likers |
| HandlerProperties.LikeFailureAtLastWriteKeepsLikesConsistent | app/handlers.go:392-402 | a like whose `notifications` write fails has already liked the post and raised its counter, so every counter still equals its likers |
| HandlerProperties.LikesUntouchedKeepsLikesConsistent | app/models.go:12-21 | writes that keep every counter and every `likedPosts`, and add only posts without likes or likers, keep the counters equal to the likers |
| HandlerProperties.CreateProfileOutcome | app/handlers.go:49-93 | a taken name gives 409 with no write; a free name with working store calls and a fresh id succeeds; a success inserts exactly one new user with empty lists and answers 201 with a ten-hour cookie; a failure writes nothing |
| HandlerProperties.CreateProfileKeepsNamesUnique | app/handlers.go:61-74 | profile creation keeps user names unique |
| HandlerProperties.CreateProfileKeepsLikesConsistent | app/handlers.go:49-74 | profile creation keeps every post's counter equal to its likers |
| HandlerProperties.UpdateProfileOutcome | app/handlers.go:141-175 | an undecodable body or both fields empty gives 400 with no write; a non-empty field with a working store call gives 200 and one `$set` of exactly the non-empty fields; a success sets exactly the non-empty fields of the caller's document and nothing else; a failure changes nothing |
| HandlerProperties.UpdateProfileCanDuplicateName | app/handlers.go:148-166 | renaming to another user's name succeeds and leaves two users with the same name |
| HandlerProperties.UpdateProfileKeepsLikesConsistent | app/handlers.go:148-166 | profile update keeps every post's counter equal to its likers |
| HandlerProperties.CreatePostOutcome | app/handlers.go:201-226 | with both store calls working and a fresh id the post is created, and performing both writes answers 200; a created post is the caller's with no likes and its id is added to the caller's `posts` without creating a duplicate; a failure of the second write leaves the post stored but unlisted; otherwise nothing changes |
| HandlerProperties.CreatePostKeepsLikesConsistent | app/handlers.go:201-222 | post creation keeps every post's counter equal to its likers, provided no user already lists the new id as liked |

## Left out

- HTTP plumbing is not modelled: JSON decoding is an `Option` input, cookies are the `Cookie` input, and the plain-text success bodies ("Signed in successfully", "Account created successfully", "Profile updated successfully") and JSON-encoded results are left out. The answers carry a status and either the returned value or the error text.
- The cookie that logout sets to clear the client's copy, and the `Set-Cookie` headers in general, are not modelled; only the token and expiry of the issued cookie are.
- The read-only handlers (`GetProfileHandler`, `GetMyPostsHandler`, `GetLikedPostsHandler`, `GetNotificationsHandler`) and the routing and start-up in `app/main.go` are not part of this model.
- Concurrency: requests run one at a time. The unsynchronised shared session map, and interleavings of two handlers' writes, are not modelled.
- The wall clock, the entropy source and `primitive.NewObjectID` are inputs (`now`, `random`, new ids).
- The MongoDB driver is modelled as a map per collection, with a duplicate-key refusal on insert and a no-match update that succeeds. The text of a driver error is the constant `StoreErrorMessage`. Timeouts, retries and partial network results are reduced to a `Fault` at one store call.
- Store.Database.Execute: a failed store call is modelled as writing nothing. A write that the server applied although the call reported an error (a timeout after the commit, say) cannot be represented, and the partial-failure lemmas (`LikeStopsAtFailingWrite`, `LikeFailureAfterIncrementBreaksConsistency`, `LikeFailureAtLastWriteKeepsLikesConsistent`, `CreatePostOutcome`) hold only under that assumption.
- `primitive.ObjectIDFromHex` is modelled after the driver's behaviour: exactly 24 hexadecimal digits of either case. The driver source is not part of this model.
- `likesCount` is an unbounded integer; the Go `int` never overflows for any realistic number of likes.
- The `userContextData == nil` checks of the gated handlers are left out: behind the gate the identity is always present.
