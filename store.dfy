/** The document store as the handlers see it: three collections keyed by
    `_id`, the writes the handlers issue (`InsertOne`, and `UpdateOne` with
    `$set`, `$inc` or `$addToSet`), and what a sequence of writes does when a
    store call may fail. */
module Store {
  import opened Base
  import opened Models

  /** The three collections as a value: each maps `_id` to the document. */
  datatype Collections = Collections(
    users: map<ObjectId, User>,
    posts: map<ObjectId, Post>,
    notifications: map<ObjectId, Notification>)

  /** Every document is stored under its own id. */
  predicate WellKeyed(c: Collections) {
    && (forall id :: id in c.users ==> c.users[id].id == id)
    && (forall id :: id in c.posts ==> c.posts[id].id == id)
    && (forall id :: id in c.notifications ==> c.notifications[id].id == id)
  }

  /** One write against the store. */
  datatype Write =
    | InsertUser(user: User)
    | InsertPost(post: Post)
    | InsertNotification(notification: Notification)
      /** `$set` of the profile fields named in `fields` ("name", "avatar") */
    | SetProfile(userId: ObjectId, fields: map<string, string>)
      /** `$inc` of `likesCount` by 1 */
    | IncrementLikes(postId: ObjectId)
      /** `$addToSet` into `posts`, `likedPosts` and `notifications` */
    | AddPostId(userId: ObjectId, postId: ObjectId)
    | AddLikedPost(userId: ObjectId, postId: ObjectId)
    | AddNotificationId(userId: ObjectId, notificationId: ObjectId)

  /** Whether a working store accepts the write: an insert whose `_id` is
      already taken is refused (duplicate key); an update whose filter matches
      no document is accepted and changes nothing. */
  predicate Accepts(c: Collections, w: Write) {
    match w
    case InsertUser(u) => u.id !in c.users
    case InsertPost(p) => p.id !in c.posts
    case InsertNotification(n) => n.id !in c.notifications
    case _ => true
  }

  function SetFields(u: User, fields: map<string, string>): User {
    u.(name := if "name" in fields then fields["name"] else u.name,
       avatar := if "avatar" in fields then fields["avatar"] else u.avatar)
  }

  /** The effect of a write the store accepted. */
  function Apply(c: Collections, w: Write): Collections {
    match w
    case InsertUser(u) => c.(users := c.users[u.id := u])
    case InsertPost(p) => c.(posts := c.posts[p.id := p])
    case InsertNotification(n) => c.(notifications := c.notifications[n.id := n])
    case SetProfile(uid, fields) =>
      if uid in c.users then c.(users := c.users[uid := SetFields(c.users[uid], fields)]) else c
    case IncrementLikes(pid) =>
      if pid in c.posts then c.(posts := c.posts[pid := c.posts[pid].(likesCount := c.posts[pid].likesCount + 1)]) else c
    case AddPostId(uid, pid) =>
      if uid in c.users then c.(users := c.users[uid := c.users[uid].(posts := AddToSet(c.users[uid].posts, pid))]) else c
    case AddLikedPost(uid, pid) =>
      if uid in c.users then c.(users := c.users[uid := c.users[uid].(likedPosts := AddToSet(c.users[uid].likedPosts, pid))]) else c
    case AddNotificationId(uid, nid) =>
      if uid in c.users then c.(users := c.users[uid := c.users[uid].(notifications := AddToSet(c.users[uid].notifications, nid))]) else c
  }

  /** The effect of writes applied one after the other. */
  function ApplyAll(c: Collections, ws: seq<Write>): Collections
    decreases |ws|
  {
    if ws == [] then c else ApplyAll(Apply(c, ws[0]), ws[1..])
  }

  /** Which store call of one request fails: `FailAt(k)` makes the call with
      index k (0 for the first call the handler issues) return an error, as a
      timeout or an unreachable server would. */
  datatype Fault = NoFault | FailAt(call: nat)

  predicate Fails(f: Fault, call: nat) {
    f.FailAt? && f.call == call
  }

  predicate Succeeds(c: Collections, w: Write, failing: bool) {
    !failing && Accepts(c, w)
  }

  /** How many of the writes `ws`, issued as calls `call`, `call + 1`, ...
      with an early return on the first error, the store performs. */
  function Performed(c: Collections, ws: seq<Write>, fault: Fault, call: nat): (k: nat)
    ensures k <= |ws|
    ensures k < |ws| ==> !Succeeds(ApplyAll(c, ws[..k]), ws[k], Fails(fault, call + k))
    decreases |ws|
  {
    if ws == [] || !Succeeds(c, ws[0], Fails(fault, call)) then 0
    else
      var k := 1 + Performed(Apply(c, ws[0]), ws[1..], fault, call + 1);
      assert k < |ws| ==> ws[..k][1..] == ws[1..][..k - 1];
      k
  }

  /** Applying one more write extends the fold at its end. */
  lemma {:induction false} ApplyAllSnoc(c: Collections, ws: seq<Write>, w: Write)
    ensures ApplyAll(c, ws + [w]) == Apply(ApplyAll(c, ws), w)
    decreases |ws|
  {
    if ws == [] {
      assert ApplyAll(c, [w]) == ApplyAll(Apply(c, w), []);
    } else {
      assert (ws + [w])[1..] == ws[1..] + [w];
      ApplyAllSnoc(Apply(c, ws[0]), ws[1..], w);
    }
  }

  /** Write j is performed exactly when the first j were and write j succeeds
      against the state they left; the state after it is that state with write
      j applied. */
  lemma {:induction false} PerformedStep(c: Collections, ws: seq<Write>, fault: Fault, call: nat, j: nat)
    requires j < |ws| && j <= Performed(c, ws, fault, call)
    ensures Performed(c, ws, fault, call) > j <==> Succeeds(ApplyAll(c, ws[..j]), ws[j], Fails(fault, call + j))
    ensures ApplyAll(c, ws[..j + 1]) == Apply(ApplyAll(c, ws[..j]), ws[j])
    decreases j
  {
    assert ws[..j + 1] == ws[..j] + [ws[j]];
    ApplyAllSnoc(c, ws[..j], ws[j]);
    if j > 0 {
      assert ws[..j][1..] == ws[1..][..j - 1];
      PerformedStep(Apply(c, ws[0]), ws[1..], fault, call + 1, j - 1);
    }
  }

  /** Every write keeps each document under its own id. */
  lemma ApplyPreservesWellKeyed(c: Collections, w: Write)
    requires WellKeyed(c)
    ensures WellKeyed(Apply(c, w))
  {
  }

  /** What a `FindOne` returns: the document, `mongo.ErrNoDocuments`, or another error. */
  datatype Lookup<T> = Found(doc: T) | NoDocuments | StoreFailed

  /** `FindOne` on the users collection by `_id`. */
  function FindUserById(users: map<ObjectId, User>, id: ObjectId, fail: bool): (r: Lookup<User>)
    ensures r.Found? <==> !fail && id in users
    ensures r.Found? ==> r.doc == users[id]
    ensures r.StoreFailed? <==> fail
  {
    if fail then StoreFailed else if id in users then Found(users[id]) else NoDocuments
  }

  predicate NameTaken(users: map<ObjectId, User>, name: string) {
    exists u :: u in users.Values && u.name == name
  }

  class Database {
    var users: map<ObjectId, User>
    var posts: map<ObjectId, Post>
    var notifications: map<ObjectId, Notification>

    function Snapshot(): Collections
      reads this
    {
      Collections(users, posts, notifications)
    }

    constructor ()
      ensures Snapshot() == Collections(map[], map[], map[])
    {
      users, posts, notifications := map[], map[], map[];
    }

    /** Issues one write; `fail` makes the store call return an error. On an
        error nothing changes. */
    method Execute(w: Write, fail: bool) returns (ok: bool)
      modifies this
      ensures ok == Succeeds(old(Snapshot()), w, fail)
      ensures Snapshot() == if ok then Apply(old(Snapshot()), w) else old(Snapshot())
    {
      if fail {
        return false;
      }
      match w {
        case InsertUser(u) =>
          if u.id in users { return false; }
          users := users[u.id := u];
        case InsertPost(p) =>
          if p.id in posts { return false; }
          posts := posts[p.id := p];
        case InsertNotification(n) =>
          if n.id in notifications { return false; }
          notifications := notifications[n.id := n];
        case SetProfile(uid, fields) =>
          if uid in users { users := users[uid := SetFields(users[uid], fields)]; }
        case IncrementLikes(pid) =>
          if pid in posts { posts := posts[pid := posts[pid].(likesCount := posts[pid].likesCount + 1)]; }
        case AddPostId(uid, pid) =>
          if uid in users { users := users[uid := users[uid].(posts := AddToSet(users[uid].posts, pid))]; }
        case AddLikedPost(uid, pid) =>
          if uid in users { users := users[uid := users[uid].(likedPosts := AddToSet(users[uid].likedPosts, pid))]; }
        case AddNotificationId(uid, nid) =>
          if uid in users {
            users := users[uid := users[uid].(notifications := AddToSet(users[uid].notifications, nid))];
          }
      }
      ok := true;
    }

    /** Issues `w` as write j of the sequence `ws` that a handler started
        from `c0`, as store call `call + j`, after the first j writes were
        performed; the outcome is the one `Performed` predicts. */
    method ExecuteNext(w: Write, ghost c0: Collections, ghost ws: seq<Write>, fault: Fault, call: nat, j: nat)
      returns (ok: bool)
      requires j < |ws| && w == ws[j] && j <= Performed(c0, ws, fault, call)
      requires Snapshot() == ApplyAll(c0, ws[..j])
      modifies this
      ensures ok <==> Performed(c0, ws, fault, call) > j
      ensures Snapshot() == ApplyAll(c0, ws[..if ok then j + 1 else j])
    {
      ok := Execute(w, Fails(fault, call + j));
      PerformedStep(c0, ws, fault, call, j);
    }

    /** `FindOne` on the users collection by name (`getUserByName`). When
        several users share the name, any one of them may be returned. */
    method FindUserByName(name: string, fail: bool) returns (r: Lookup<User>)
      ensures r.StoreFailed? <==> fail
      ensures r.NoDocuments? <==> !fail && !NameTaken(users, name)
      ensures r.Found? ==> r.doc in users.Values && r.doc.name == name
    {
      if fail {
        return StoreFailed;
      }
      if u :| u in users.Values && u.name == name {
        r := Found(u);
      } else {
        r := NoDocuments;
      }
    }
  }
}
