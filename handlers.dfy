/** The write workflows of app/handlers.go: profile creation, profile
    update, post creation and the like action. Each handler has a
    specification function giving its answer and the writes it performs, in
    order, against the collections it starts from, and an imperative method
    that issues the store calls one by one, with an early return on the first
    error, and is proved to follow it. The identity comes from the gate;
    request bodies that do not decode are None; new ids and "now" are
    inputs. */
module Handlers {
  import opened Base
  import opened Models
  import opened Store
  import opened Auth

  /** A handler's answer together with the writes the store performed, in the order issued. */
  datatype Outcome<+T> = Outcome(response: Response<T>, writes: seq<Write>)

  const InvalidBodyMessage := "Invalid request body"
  const UserExistsMessage := "User already exists"
  const ServerErrorMessage := "Server error"
  const CreateUserFailedMessage := "Error creating createUserProfileData"
  const InvalidPayloadMessage := "Invalid request payload"
  const NoUpdateFieldsMessage := "No update fields provided"
  const DecodeFailedMessage := "Failed to decode json"
  const InvalidPostIdMessage := "Invalid post ID"
  const AlreadyLikedMessage := "Post is already liked by you"

  // ---------------------------------------------------------------------
  // Profile creation

  /** The body of a profile-creation request. */
  datatype ProfileRequest = ProfileRequest(name: string, password: string, avatar: string)

  /** The user document a sign-up inserts: all three id lists empty. */
  function NewUser(id: ObjectId, req: ProfileRequest): User {
    User(id, req.name, req.password, req.avatar, [], [], [])
  }

  /** `CreateProfileHandler`: store call 0 looks the name up, call 1 inserts
      the user; a session is started only after the insert succeeded. */
  function CreateProfileSpec(c: Collections, request: Option<ProfileRequest>, newId: ObjectId,
                             now: int, random: Option<seq<byte>>, fault: Fault): Outcome<IssuedCookie>
    requires random.Some? ==> |random.value| == TokenBytes
  {
    match request
    case None => Outcome(Error(StatusBadRequest, InvalidBodyMessage), [])
    case Some(req) =>
      if Fails(fault, 0) then Outcome(Error(StatusInternalServerError, ServerErrorMessage), [])
      else if NameTaken(c.users, req.name) then Outcome(Error(StatusConflict, UserExistsMessage), [])
      else
        var ws := [InsertUser(NewUser(newId, req))];
        if Performed(c, ws, fault, 1) == 1
        then Outcome(Ok(StatusCreated, IssuedCookie(IssuedToken(random), now + SessionTtl)), ws)
        else Outcome(Error(StatusInternalServerError, CreateUserFailedMessage), [])
  }

  method CreateProfile(db: Database, store: SessionStore, request: Option<ProfileRequest>, newId: ObjectId,
                       now: int, random: Option<seq<byte>>, fault: Fault)
    returns (r: Response<IssuedCookie>)
    requires random.Some? ==> |random.value| == TokenBytes
    modifies db, store
    ensures var o := CreateProfileSpec(old(db.Snapshot()), request, newId, now, random, fault);
            r == o.response && db.Snapshot() == ApplyAll(old(db.Snapshot()), o.writes)
    ensures r.Ok? ==>
            request.Some? &&
            store.sessions == old(store.sessions)[r.body.token := Session(request.value.name, newId, r.body.expires)]
    ensures r.Error? ==> store.sessions == old(store.sessions)
  {
    if request.None? {
      return Error(StatusBadRequest, InvalidBodyMessage);
    }
    var req := request.value;
    var user := NewUser(newId, req);
    var lookup := db.FindUserByName(req.name, Fails(fault, 0));
    if lookup.Found? {
      return Error(StatusConflict, UserExistsMessage);
    } else if lookup.StoreFailed? {
      return Error(StatusInternalServerError, ServerErrorMessage);
    }
    ghost var c0 := db.Snapshot();
    ghost var ws := [InsertUser(user)];
    var ok := db.Execute(InsertUser(user), Fails(fault, 1));
    PerformedStep(c0, ws, fault, 1, 0);
    if !ok {
      return Error(StatusInternalServerError, CreateUserFailedMessage);
    }
    var cookie := store.StartSession(user.name, user.id, now, random);
    r := Ok(StatusCreated, cookie);
  }

  // ---------------------------------------------------------------------
  // Profile update

  /** The body of a profile-update request. */
  datatype ProfileUpdate = ProfileUpdate(name: string, avatar: string)

  /** The `$set` document: a field is included exactly when its new value is not empty. */
  function UpdateFields(name: string, avatar: string): (fields: map<string, string>)
    ensures "name" in fields <==> name != ""
    ensures "avatar" in fields <==> avatar != ""
    ensures "name" in fields ==> fields["name"] == name
    ensures "avatar" in fields ==> fields["avatar"] == avatar
    ensures fields.Keys <= {"name", "avatar"}
    ensures |fields| == 0 <==> name == "" && avatar == ""
  {
    var withName: map<string, string> := if name != "" then map["name" := name] else map[];
    var fields := if avatar != "" then withName["avatar" := avatar] else withName;
    assert "name" in fields ==> |fields| > 0;
    fields
  }

  /** `UpdateProfileHandler`: store call 0 is the `$set`. */
  function UpdateProfileSpec(c: Collections, user: UserContext, request: Option<ProfileUpdate>, fault: Fault): Outcome<()>
  {
    match request
    case None => Outcome(Error(StatusBadRequest, InvalidPayloadMessage), [])
    case Some(req) =>
      var fields := UpdateFields(req.name, req.avatar);
      if |fields| == 0 then Outcome(Error(StatusBadRequest, NoUpdateFieldsMessage), [])
      else
        var ws := [SetProfile(user.id, fields)];
        var k := Performed(c, ws, fault, 0);
        Outcome(if k == 1 then Ok(StatusOK, ()) else Error(StatusInternalServerError, StoreErrorMessage), ws[..k])
  }

  method UpdateProfile(db: Database, user: UserContext, request: Option<ProfileUpdate>, fault: Fault)
    returns (r: Response<()>)
    modifies db
    ensures var o := UpdateProfileSpec(old(db.Snapshot()), user, request, fault);
            r == o.response && db.Snapshot() == ApplyAll(old(db.Snapshot()), o.writes)
  {
    if request.None? {
      return Error(StatusBadRequest, InvalidPayloadMessage);
    }
    var req := request.value;
    var updateFields: map<string, string> := map[];
    if req.name != "" {
      updateFields := updateFields["name" := req.name];
    }
    if req.avatar != "" {
      updateFields := updateFields["avatar" := req.avatar];
    }
    assert updateFields == UpdateFields(req.name, req.avatar);
    if |updateFields| == 0 {
      return Error(StatusBadRequest, NoUpdateFieldsMessage);
    }
    ghost var c0 := db.Snapshot();
    ghost var ws := [SetProfile(user.id, updateFields)];
    var ok := db.Execute(SetProfile(user.id, updateFields), Fails(fault, 0));
    PerformedStep(c0, ws, fault, 0, 0);
    if !ok {
      assert ws[..0] == [];
      return Error(StatusInternalServerError, StoreErrorMessage);
    }
    assert ws[..1] == ws;
    r := Ok(StatusOK, ());
  }

  // ---------------------------------------------------------------------
  // Post creation

  /** The body of a post-creation request. */
  datatype PostRequest = PostRequest(content: string)

  /** The post a user creates: authored by them, with no likes. */
  function NewPost(id: ObjectId, author: ObjectId, content: string): Post {
    Post(id, content, author, 0)
  }

  function CreatePostWrites(userId: ObjectId, post: Post): seq<Write> {
    [InsertPost(post), AddPostId(userId, post.id)]
  }

  /** `CreatePostHandler`: store call 0 inserts the post, call 1 adds its id
      to the author's `posts`; a failure of call 1 leaves the post in place. */
  function CreatePostSpec(c: Collections, user: UserContext, request: Option<PostRequest>, newId: ObjectId, fault: Fault): Outcome<Post>
  {
    match request
    case None => Outcome(Error(StatusBadRequest, DecodeFailedMessage), [])
    case Some(req) =>
      var post := NewPost(newId, user.id, req.content);
      var ws := CreatePostWrites(user.id, post);
      var k := Performed(c, ws, fault, 0);
      Outcome(if k == 2 then Ok(StatusOK, post) else Error(StatusInternalServerError, StoreErrorMessage), ws[..k])
  }

  method CreatePost(db: Database, user: UserContext, request: Option<PostRequest>, newId: ObjectId, fault: Fault)
    returns (r: Response<Post>)
    modifies db
    ensures var o := CreatePostSpec(old(db.Snapshot()), user, request, newId, fault);
            r == o.response && db.Snapshot() == ApplyAll(old(db.Snapshot()), o.writes)
  {
    if request.None? {
      return Error(StatusBadRequest, DecodeFailedMessage);
    }
    var post := NewPost(newId, user.id, request.value.content);
    ghost var c0 := db.Snapshot();
    ghost var ws := CreatePostWrites(user.id, post);
    var ok := db.Execute(InsertPost(post), Fails(fault, 0));
    PerformedStep(c0, ws, fault, 0, 0);
    if !ok {
      assert ws[..0] == [];
      return Error(StatusInternalServerError, StoreErrorMessage);
    }
    ok := db.Execute(AddPostId(user.id, post.id), Fails(fault, 1));
    PerformedStep(c0, ws, fault, 0, 1);
    if !ok {
      return Error(StatusInternalServerError, StoreErrorMessage);
    }
    assert ws[..2] == ws;
    r := Ok(StatusOK, post);
  }

  // ---------------------------------------------------------------------
  // The like action

  function TrimPrefix(s: string, prefix: string): (r: string)
    ensures prefix <= s ==> prefix + r == s
    ensures !(prefix <= s) ==> r == s
  {
    if prefix <= s then s[|prefix|..] else s
  }

  predicate HasSuffix(s: string, suffix: string) {
    |suffix| <= |s| && s[|s| - |suffix|..] == suffix
  }

  function TrimSuffix(s: string, suffix: string): (r: string)
    ensures HasSuffix(s, suffix) ==> r + suffix == s
    ensures !HasSuffix(s, suffix) ==> r == s
  {
    if HasSuffix(s, suffix) then s[..|s| - |suffix|] else s
  }

  /** The post id of a like request: the path without its "/posts/" prefix and "/like" suffix. */
  function LikePathId(path: string): string {
    TrimSuffix(TrimPrefix(path, "/posts/"), "/like")
  }

  /** The post id a like request names, when the path parses. */
  function LikedPostId(path: string): Option<ObjectId> {
    ObjectIdFromHex(LikePathId(path))
  }

  /** The notification a like by this user of this post would insert. */
  function LikeNotification(user: UserContext, postId: ObjectId, newId: ObjectId): Notification {
    Notification(newId, LikeKind, postId, user.id)
  }

  /** The four writes of a like, in the order issued. */
  function LikeWrites(userId: ObjectId, n: Notification): seq<Write> {
    [InsertNotification(n), IncrementLikes(n.postId), AddLikedPost(userId, n.postId), AddNotificationId(userId, n.id)]
  }

  /** The answer and writes of a like whose guard passed and whose first k writes were performed. */
  function LikeOutcome(n: Notification, ws: seq<Write>, k: nat): Outcome<Notification>
    requires k <= |ws|
  {
    Outcome(if k == |ws| then Ok(StatusOK, n) else Error(StatusInternalServerError, StoreErrorMessage), ws[..k])
  }

  /** `LikePostHandler`: store call 0 fetches the user, calls 1 to 4 are the
      writes of LikeWrites. The guard reads the `likedPosts` of whatever the
      lookup decoded, which is empty when it failed, before the lookup's
      error is looked at. */
  function LikeSpec(c: Collections, user: UserContext, path: string, newId: ObjectId, fault: Fault): Outcome<Notification>
  {
    match LikedPostId(path)
    case None => Outcome(Error(StatusBadRequest, InvalidPostIdMessage), [])
    case Some(postId) =>
      var lookup := FindUserById(c.users, user.id, Fails(fault, 0));
      var likedPosts := if lookup.Found? then lookup.doc.likedPosts else [];
      if postId in likedPosts then Outcome(Error(StatusInternalServerError, AlreadyLikedMessage), [])
      else if !lookup.Found? then Outcome(Error(StatusInternalServerError, StoreErrorMessage), [])
      else
        var n := LikeNotification(user, postId, newId);
        var ws := LikeWrites(user.id, n);
        LikeOutcome(n, ws, Performed(c, ws, fault, 1))
  }

  /** Once the id parses, the user is found and the post is not yet liked,
      the like is decided by how many of its four writes the store performs. */
  lemma LikeSpecAfterGuard(c: Collections, user: UserContext, path: string, newId: ObjectId, fault: Fault)
    requires LikedPostId(path).Some? && !Fails(fault, 0) && user.id in c.users
    requires LikedPostId(path).value !in c.users[user.id].likedPosts
    ensures var n := LikeNotification(user, LikedPostId(path).value, newId);
            var ws := LikeWrites(user.id, n);
            LikeSpec(c, user, path, newId, fault) == LikeOutcome(n, ws, Performed(c, ws, fault, 1))
  {
  }

  /** The four writes of a like whose guard passed, issued as store calls 1
      to 4 with an early return on the first error. */
  method RecordLike(db: Database, userId: ObjectId, n: Notification, fault: Fault)
    returns (r: Response<Notification>)
    modifies db
    ensures var ws := LikeWrites(userId, n);
            var o := LikeOutcome(n, ws, Performed(old(db.Snapshot()), ws, fault, 1));
            r == o.response && db.Snapshot() == ApplyAll(old(db.Snapshot()), o.writes)
  {
    ghost var c0 := db.Snapshot();
    ghost var ws := LikeWrites(userId, n);
    assert ws[..0] == [];
    var ok := db.ExecuteNext(InsertNotification(n), c0, ws, fault, 1, 0);
    if !ok {
      return Error(StatusInternalServerError, StoreErrorMessage);
    }
    ok := db.ExecuteNext(IncrementLikes(n.postId), c0, ws, fault, 1, 1);
    if !ok {
      return Error(StatusInternalServerError, StoreErrorMessage);
    }
    ok := db.ExecuteNext(AddLikedPost(userId, n.postId), c0, ws, fault, 1, 2);
    if !ok {
      return Error(StatusInternalServerError, StoreErrorMessage);
    }
    ok := db.ExecuteNext(AddNotificationId(userId, n.id), c0, ws, fault, 1, 3);
    if !ok {
      return Error(StatusInternalServerError, StoreErrorMessage);
    }
    assert ws[..4] == ws;
    r := Ok(StatusOK, n);
  }

  method LikePost(db: Database, user: UserContext, path: string, newId: ObjectId, fault: Fault)
    returns (r: Response<Notification>)
    modifies db
    ensures var o := LikeSpec(old(db.Snapshot()), user, path, newId, fault);
            r == o.response && db.Snapshot() == ApplyAll(old(db.Snapshot()), o.writes)
  {
    var postIdFromPath := LikePathId(path);
    var parsed := ObjectIdFromHex(postIdFromPath);
    if parsed.None? {
      return Error(StatusBadRequest, InvalidPostIdMessage);
    }
    var postId := parsed.value;
    var lookup := FindUserById(db.users, user.id, Fails(fault, 0));
    var likedPosts := if lookup.Found? then lookup.doc.likedPosts else [];
    if postId in likedPosts {
      return Error(StatusInternalServerError, AlreadyLikedMessage);
    }
    if !lookup.Found? {
      return Error(StatusInternalServerError, StoreErrorMessage);
    }
    var notification := LikeNotification(user, postId, newId);
    LikeSpecAfterGuard(db.Snapshot(), user, path, newId, fault);
    r := RecordLike(db, user.id, notification, fault);
  }
}
