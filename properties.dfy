/** What the write workflows of app/handlers.go guarantee, and what they do
    not: the like action's guard, the order of its writes and what each
    prefix of them leaves behind, its idempotency, and the cross-collection
    invariant that a post's `likesCount` is the number of users who liked it. */
module HandlerProperties {
  import opened Base
  import Hex
  import opened Models
  import opened Store
  import opened Auth
  import opened Handlers

  // ---------------------------------------------------------------------
  // Invariants across the collections

  /** The users who have the post in their `likedPosts`. */
  function Likers(users: map<ObjectId, User>, postId: ObjectId): set<ObjectId> {
    set id | id in users && postId in users[id].likedPosts
  }

  /** Every post's `likesCount` is the number of users who liked it. */
  predicate LikesConsistent(c: Collections) {
    forall pid :: pid in c.posts ==> c.posts[pid].likesCount == |Likers(c.users, pid)|
  }

  /** No two users share a name. */
  predicate NamesUnique(users: map<ObjectId, User>) {
    forall a, b :: a in users && b in users && users[a].name == users[b].name ==> a == b
  }

  /** Any sequence of writes keeps each document under its own id. */
  lemma {:induction false} ApplyAllPreservesWellKeyed(c: Collections, ws: seq<Write>)
    requires WellKeyed(c)
    ensures WellKeyed(ApplyAll(c, ws))
    decreases |ws|
  {
    if ws != [] {
      ApplyPreservesWellKeyed(c, ws[0]);
      ApplyAllPreservesWellKeyed(Apply(c, ws[0]), ws[1..]);
    }
  }

  /** When the store accepts every write of `ws` in turn, the number performed
      is fixed by the fault alone: all of them, or those issued before the
      failing call. */
  lemma {:induction false} PerformedUpToFault(c: Collections, ws: seq<Write>, fault: Fault, call: nat)
    requires forall i :: 0 <= i < |ws| ==> Accepts(ApplyAll(c, ws[..i]), ws[i])
    ensures Performed(c, ws, fault, call) ==
            if fault.FailAt? && call <= fault.call < call + |ws| then fault.call - call else |ws|
    decreases |ws|
  {
    if ws != [] {
      assert ws[..0] == [];
      if !Fails(fault, call) {
        AcceptedTail(c, ws);
        PerformedUpToFault(Apply(c, ws[0]), ws[1..], fault, call + 1);
      }
    }
  }

  /** If the store accepts every write of `ws` in turn, it accepts every
      write of its tail in turn from the state after the first. */
  lemma AcceptedTail(c: Collections, ws: seq<Write>)
    requires ws != []
    requires forall i :: 0 <= i < |ws| ==> Accepts(ApplyAll(c, ws[..i]), ws[i])
    ensures forall i :: 0 <= i < |ws[1..]| ==> Accepts(ApplyAll(Apply(c, ws[0]), ws[1..][..i]), ws[1..][i])
  {
    forall i | 0 <= i < |ws[1..]|
      ensures Accepts(ApplyAll(Apply(c, ws[0]), ws[1..][..i]), ws[1..][i])
    {
      assert ws[..i + 1][1..] == ws[1..][..i];
      assert Accepts(ApplyAll(c, ws[..i + 1]), ws[i + 1]);
    }
  }

  // ---------------------------------------------------------------------
  // The like action

  /** The path "/posts/<id>/like" gives back the id, in its hexadecimal form. */
  lemma LikePathOfId(id: ObjectId)
    ensures LikePathId("/posts/" + Hex.Encode(id) + "/like") == Hex.Encode(id)
    ensures ObjectIdFromHex(LikePathId("/posts/" + Hex.Encode(id) + "/like")) == Some(id)
  {
    var hex := Hex.Encode(id);
    var path := "/posts/" + hex + "/like";
    assert "/posts/" <= path;
    assert path[|"/posts/"|..] == hex + "/like";
    assert HasSuffix(hex + "/like", "/like");
    assert (hex + "/like")[..|hex|] == hex;
    Hex.DecodeEncode(id);
  }

  /** Nothing is written unless the id parses, the user is found and the post
      is not among their liked posts. An id that does not parse gives 400; a
      post already liked gives 500 with its own message; a failed user lookup
      gives 500. */
  lemma LikeGuard(c: Collections, user: UserContext, path: string, newId: ObjectId, fault: Fault)
    ensures var o := LikeSpec(c, user, path, newId, fault);
      && (LikedPostId(path).None? ==> o == Outcome(Error(StatusBadRequest, InvalidPostIdMessage), []))
      && (LikedPostId(path).Some? && !Fails(fault, 0) && user.id in c.users &&
          LikedPostId(path).value in c.users[user.id].likedPosts
          ==> o == Outcome(Error(StatusInternalServerError, AlreadyLikedMessage), []))
      && (LikedPostId(path).Some? && (Fails(fault, 0) || user.id !in c.users)
          ==> o == Outcome(Error(StatusInternalServerError, StoreErrorMessage), []))
      && (o.writes != [] ==>
            LikedPostId(path).Some? && !Fails(fault, 0) && user.id in c.users &&
            LikedPostId(path).value !in c.users[user.id].likedPosts)
  {
  }

  /** The writes of a like are always a prefix of: insert the notification,
      increment the counter, add the post to `likedPosts`, add the
      notification to `notifications`. The like succeeds exactly when all four
      were performed. */
  lemma LikeWritesInOrder(c: Collections, user: UserContext, path: string, newId: ObjectId, fault: Fault)
    requires LikedPostId(path).Some?
    ensures var o := LikeSpec(c, user, path, newId, fault);
            var planned := LikeWrites(user.id, LikeNotification(user, LikedPostId(path).value, newId));
            && o.writes <= planned
            && (o.response.Ok? <==> o.writes == planned)
  {
  }

  /** When the store fails at write `call` (1 to 4) of a like whose guard
      passed, the writes before it stay performed and none after it runs; with
      no fault all four run and the like succeeds. */
  lemma LikeStopsAtFailingWrite(c: Collections, user: UserContext, path: string, newId: ObjectId, fault: Fault)
    requires LikedPostId(path).Some? && user.id in c.users
    requires LikedPostId(path).value !in c.users[user.id].likedPosts
    requires newId !in c.notifications
    requires !Fails(fault, 0)
    ensures var o := LikeSpec(c, user, path, newId, fault);
            var planned := LikeWrites(user.id, LikeNotification(user, LikedPostId(path).value, newId));
            && (fault.FailAt? && 1 <= fault.call <= 4 ==>
                  o == Outcome(Error(StatusInternalServerError, StoreErrorMessage), planned[..fault.call - 1]))
            && (!(fault.FailAt? && 1 <= fault.call <= 4) ==>
                  o == Outcome(Ok(StatusOK, LikeNotification(user, LikedPostId(path).value, newId)), planned))
  {
    var n := LikeNotification(user, LikedPostId(path).value, newId);
    var planned := LikeWrites(user.id, n);
    assert planned[..0] == [];
    forall i | 0 <= i < |planned| ensures Accepts(ApplyAll(c, planned[..i]), planned[i]) {
    }
    PerformedUpToFault(c, planned, fault, 1);
  }

  /** The collections after the first k writes of a like, written out. */
  function LikeStage(c: Collections, uid: ObjectId, n: Notification, k: nat): Collections
    requires uid in c.users
  {
    var u := c.users[uid];
    var pid := n.postId;
    Collections(
      c.users[uid := u.(likedPosts := if k >= 3 then AddToSet(u.likedPosts, pid) else u.likedPosts,
                        notifications := if k >= 4 then AddToSet(u.notifications, n.id) else u.notifications)],
      if k >= 2 && pid in c.posts then c.posts[pid := c.posts[pid].(likesCount := c.posts[pid].likesCount + 1)]
      else c.posts,
      if k >= 1 then c.notifications[n.id := n] else c.notifications)
  }

  /** Each prefix of a like's writes leaves the stage of its length. */
  lemma {:induction false} LikePrefixIsStage(c: Collections, uid: ObjectId, n: Notification, k: nat)
    requires k <= 4 && uid in c.users
    ensures ApplyAll(c, LikeWrites(uid, n)[..k]) == LikeStage(c, uid, n, k)
  {
    var ws := LikeWrites(uid, n);
    if k == 0 {
      assert ws[..0] == [];
      assert c.users[uid := c.users[uid]] == c.users;
    } else {
      LikePrefixIsStage(c, uid, n, k - 1);
      assert ws[..k] == ws[..k - 1] + [ws[k - 1]];
      ApplyAllSnoc(c, ws[..k - 1], ws[k - 1]);
      LikeStageStep(c, uid, n, k - 1);
    }
  }

  /** Write k of a like takes stage k to stage k + 1. */
  lemma LikeStageStep(c: Collections, uid: ObjectId, n: Notification, k: nat)
    requires k < 4 && uid in c.users
    ensures Apply(LikeStage(c, uid, n, k), LikeWrites(uid, n)[k]) == LikeStage(c, uid, n, k + 1)
  {
    var u := c.users[uid];
    var before := LikeStage(c, uid, n, k);
    if k == 2 {
      assert before.users == c.users;
    } else if k == 3 {
      var u3 := u.(likedPosts := AddToSet(u.likedPosts, n.postId));
      assert before.users[uid] == u3;
      assert c.users[uid := u3][uid := u3.(notifications := AddToSet(u.notifications, n.id))]
          == c.users[uid := u3.(notifications := AddToSet(u.notifications, n.id))];
    }
  }

  /** What the first k writes of a like leave behind, for each k: the
      notification exists from the first write on, the counter is one higher
      from the second, the post is in the user's `likedPosts` from the third
      and the notification in their `notifications` from the fourth. Nothing
      else changes. */
  lemma {:induction false} LikeStepEffects(c: Collections, uid: ObjectId, n: Notification, k: nat)
    requires k <= 4 && uid in c.users
    ensures var after := ApplyAll(c, LikeWrites(uid, n)[..k]);
            var u := c.users[uid];
      && after.notifications == (if k >= 1 then c.notifications[n.id := n] else c.notifications)
      && after.posts.Keys == c.posts.Keys
      && (forall pid :: pid in c.posts && pid != n.postId ==> after.posts[pid] == c.posts[pid])
      && (n.postId in c.posts ==>
            after.posts[n.postId] == c.posts[n.postId].(likesCount := c.posts[n.postId].likesCount + if k >= 2 then 1 else 0))
      && after.users.Keys == c.users.Keys
      && (forall id :: id in c.users && id != uid ==> after.users[id] == c.users[id])
      && after.users[uid] == u.(likedPosts := if k >= 3 then AddToSet(u.likedPosts, n.postId) else u.likedPosts,
                                notifications := if k >= 4 then AddToSet(u.notifications, n.id) else u.notifications)
  {
    LikePrefixIsStage(c, uid, n, k);
  }

  /** A successful like passed the guard, performed all four writes and
      answers with its notification. */
  lemma LikeCompletes(c: Collections, user: UserContext, path: string, newId: ObjectId, fault: Fault)
    requires LikeSpec(c, user, path, newId, fault).response.Ok?
    ensures LikedPostId(path).Some? && user.id in c.users && !Fails(fault, 0)
    ensures LikedPostId(path).value !in c.users[user.id].likedPosts && newId !in c.notifications
    ensures var o := LikeSpec(c, user, path, newId, fault);
            var n := LikeNotification(user, LikedPostId(path).value, newId);
            && o.response == Ok(StatusOK, n)
            && ApplyAll(c, o.writes) == LikeStage(c, user.id, n, 4)
  {
    var pid := LikedPostId(path).value;
    var n := LikeNotification(user, pid, newId);
    var ws := LikeWrites(user.id, n);
    assert !Fails(fault, 0) && user.id in c.users && pid !in c.users[user.id].likedPosts;
    LikeSpecAfterGuard(c, user, path, newId, fault);
    assert ws[..4] == ws;
    assert ws[..0] == [];
    LikePrefixIsStage(c, user.id, n, 4);
  }

  /** A successful like returns the notification it inserted, raises the
      post's counter by exactly one (when the post exists), and leaves every
      other post and every other user as they were. */
  lemma LikeSuccess(c: Collections, user: UserContext, path: string, newId: ObjectId, fault: Fault)
    requires LikeSpec(c, user, path, newId, fault).response.Ok?
    ensures var o := LikeSpec(c, user, path, newId, fault);
            var after := ApplyAll(c, o.writes);
            var pid := LikedPostId(path).value;
            var n := LikeNotification(user, pid, newId);
      && LikedPostId(path).Some? && user.id in c.users
      && o.response == Ok(StatusOK, n)
      && newId !in c.notifications && after.notifications == c.notifications[newId := n]
      && after.posts.Keys == c.posts.Keys && after.users.Keys == c.users.Keys
      && (pid in c.posts ==> after.posts[pid].likesCount == c.posts[pid].likesCount + 1)
      && (forall q :: q in c.posts && q != pid ==> after.posts[q] == c.posts[q])
      && (forall id :: id in c.users && id != user.id ==> after.users[id] == c.users[id])
  {
    LikeCompletes(c, user, path, newId, fault);
  }

  /** A successful like puts the post into the user's `likedPosts` and the
      notification into their `notifications`, each exactly once. */
  lemma LikeSuccessLists(c: Collections, user: UserContext, path: string, newId: ObjectId, fault: Fault)
    requires LikeSpec(c, user, path, newId, fault).response.Ok?
    ensures var after := ApplyAll(c, LikeSpec(c, user, path, newId, fault).writes);
            var pid := LikedPostId(path).value;
      && LikedPostId(path).Some? && user.id in c.users && user.id in after.users
      && after.users[user.id].likedPosts == c.users[user.id].likedPosts + [pid]
      && newId in after.users[user.id].notifications
      && (NoDuplicates(c.users[user.id].likedPosts) ==> NoDuplicates(after.users[user.id].likedPosts))
      && (NoDuplicates(c.users[user.id].notifications) ==> NoDuplicates(after.users[user.id].notifications))
  {
    LikeCompletes(c, user, path, newId, fault);
  }

  /** Liking the same post a second time writes nothing: after a successful
      like the guard finds the post in `likedPosts` (unless the lookup itself
      fails, which also writes nothing). */
  lemma LikeTwice(c: Collections, user: UserContext, path: string, firstId: ObjectId, secondId: ObjectId,
                  first: Fault, second: Fault)
    requires LikeSpec(c, user, path, firstId, first).response.Ok?
    ensures var after := ApplyAll(c, LikeSpec(c, user, path, firstId, first).writes);
            var again := LikeSpec(after, user, path, secondId, second);
      && again.writes == []
      && again.response.Error? && again.response.status == StatusInternalServerError
      && (!Fails(second, 0) ==> again.response.message == AlreadyLikedMessage)
  {
    LikeSuccessLists(c, user, path, firstId, first);
  }

  /** The likers of a post once one user has had their `likedPosts` replaced. */
  lemma LikersAfterUpdate(users: map<ObjectId, User>, uid: ObjectId, u: User, pid: ObjectId)
    ensures Likers(users[uid := u], pid) ==
            if pid in u.likedPosts then Likers(users, pid) + {uid} else Likers(users, pid) - {uid}
  {
  }

  /** One user gains one liked post whose counter goes up by one, and nothing
      else that counts changes: the counters stay equal to the likers. */
  lemma OneMoreLikeKeepsLikesConsistent(c: Collections, after: Collections, uid: ObjectId, pid: ObjectId)
    requires LikesConsistent(c)
    requires uid in c.users && pid !in c.users[uid].likedPosts
    requires uid in after.users && after.users == c.users[uid := after.users[uid]]
    requires forall q :: q in after.users[uid].likedPosts <==> q in c.users[uid].likedPosts || q == pid
    requires after.posts.Keys == c.posts.Keys
    requires forall q :: q in c.posts && q != pid ==> after.posts[q] == c.posts[q]
    requires pid in c.posts ==> after.posts[pid].likesCount == c.posts[pid].likesCount + 1
    ensures LikesConsistent(after)
  {
    forall q | q in after.posts
      ensures after.posts[q].likesCount == |Likers(after.users, q)|
    {
      LikersAfterUpdate(c.users, uid, after.users[uid], q);
      if q == pid {
        assert uid !in Likers(c.users, q);
        assert |Likers(c.users, q) + {uid}| == |Likers(c.users, q)| + 1;
      } else {
        assert q in after.users[uid].likedPosts <==> q in c.users[uid].likedPosts;
        assert q in c.users[uid].likedPosts ==> uid in Likers(c.users, q);
        assert Likers(after.users, q) == Likers(c.users, q);
      }
    }
  }

  /** A successful like keeps every post's `likesCount` equal to its number
      of likers. */
  lemma LikeKeepsLikesConsistent(c: Collections, user: UserContext, path: string, newId: ObjectId, fault: Fault)
    requires LikesConsistent(c)
    requires LikeSpec(c, user, path, newId, fault).response.Ok?
    ensures LikesConsistent(ApplyAll(c, LikeSpec(c, user, path, newId, fault).writes))
  {
    var after := ApplyAll(c, LikeSpec(c, user, path, newId, fault).writes);
    var pid := LikedPostId(path).value;
    var n := LikeNotification(user, pid, newId);
    LikeCompletes(c, user, path, newId, fault);
    assert after.users == c.users[user.id := after.users[user.id]];
    assert pid !in c.users[user.id].likedPosts;
    OneMoreLikeKeepsLikesConsistent(c, after, user.id, pid);
  }

  /** No rollback: a like whose third write (`likedPosts`) fails leaves the
      counter one above the number of likers. */
  lemma LikeFailureAfterIncrementBreaksConsistency(c: Collections, user: UserContext, path: string, newId: ObjectId)
    requires LikesConsistent(c)
    requires LikedPostId(path).Some? && LikedPostId(path).value in c.posts
    requires user.id in c.users && LikedPostId(path).value !in c.users[user.id].likedPosts
    requires newId !in c.notifications
    ensures var o := LikeSpec(c, user, path, newId, FailAt(3));
            o.response.Error? && |o.writes| == 2 && !LikesConsistent(ApplyAll(c, o.writes))
  {
    var pid := LikedPostId(path).value;
    var n := LikeNotification(user, pid, newId);
    LikeStopsAtFailingWrite(c, user, path, newId, FailAt(3));
    LikePrefixIsStage(c, user.id, n, 2);
    var after := LikeStage(c, user.id, n, 2);
    assert after.users == c.users;
    assert after.posts[pid].likesCount == |Likers(after.users, pid)| + 1;
  }

  /** A like whose last write (`notifications`) fails has already liked the
      post and raised its counter, so the counters stay consistent. */
  lemma LikeFailureAtLastWriteKeepsLikesConsistent(c: Collections, user: UserContext, path: string, newId: ObjectId)
    requires LikesConsistent(c)
    requires LikedPostId(path).Some?
    requires user.id in c.users && LikedPostId(path).value !in c.users[user.id].likedPosts
    requires newId !in c.notifications
    ensures var o := LikeSpec(c, user, path, newId, FailAt(4));
            o.response.Error? && |o.writes| == 3 && LikesConsistent(ApplyAll(c, o.writes))
  {
    var pid := LikedPostId(path).value;
    var n := LikeNotification(user, pid, newId);
    LikeStopsAtFailingWrite(c, user, path, newId, FailAt(4));
    LikePrefixIsStage(c, user.id, n, 3);
    var after := LikeStage(c, user.id, n, 3);
    assert after.users == c.users[user.id := after.users[user.id]];
    OneMoreLikeKeepsLikesConsistent(c, after, user.id, pid);
  }

  /** Every user of `before` keeps their `likedPosts` in `after`, and every
      user new in `after` has liked nothing. */
  predicate LikedPostsKept(before: map<ObjectId, User>, after: map<ObjectId, User>) {
    && before.Keys <= after.Keys
    && (forall id :: id in before ==> after[id].likedPosts == before[id].likedPosts)
    && (forall id :: id in after && id !in before ==> after[id].likedPosts == [])
  }

  /** Writes that keep every counter and every `likedPosts`, and add posts
      only with no likes and no likers, keep the counters consistent. */
  lemma LikesUntouchedKeepsLikesConsistent(c: Collections, after: Collections)
    requires LikesConsistent(c) && LikedPostsKept(c.users, after.users)
    requires c.posts.Keys <= after.posts.Keys
    requires forall q :: q in c.posts ==> after.posts[q].likesCount == c.posts[q].likesCount
    requires forall q :: q in after.posts && q !in c.posts ==>
               after.posts[q].likesCount == 0 && Likers(c.users, q) == {}
    ensures LikesConsistent(after)
  {
    forall q | q in after.posts ensures after.posts[q].likesCount == |Likers(after.users, q)| {
      assert Likers(after.users, q) == Likers(c.users, q);
    }
  }

  // ---------------------------------------------------------------------
  // Profile creation

  /** A taken name gives 409 and inserts nothing; a free name with working
      store calls and a fresh id is created; a created profile is one
      new user with empty lists, answered with 201 and a ten-hour cookie;
      any other outcome writes nothing. */
  lemma CreateProfileOutcome(c: Collections, request: Option<ProfileRequest>, newId: ObjectId,
                             now: int, random: Option<seq<byte>>, fault: Fault)
    requires random.Some? ==> |random.value| == TokenBytes
    ensures var o := CreateProfileSpec(c, request, newId, now, random, fault);
      && (request.Some? && !Fails(fault, 0) && NameTaken(c.users, request.value.name)
          ==> o == Outcome(Error(StatusConflict, UserExistsMessage), []))
      && (request.Some? && !Fails(fault, 0) && !Fails(fault, 1) && !NameTaken(c.users, request.value.name)
          && newId !in c.users
          ==> o.response.Ok?)
      && (o.response.Ok? ==>
            && request.Some? && !NameTaken(c.users, request.value.name) && newId !in c.users
            && o.response == Ok(StatusCreated, IssuedCookie(IssuedToken(random), now + SessionTtl))
            && ApplyAll(c, o.writes) == c.(users := c.users[newId := NewUser(newId, request.value)])
            && NewUser(newId, request.value).posts == []
            && NewUser(newId, request.value).likedPosts == []
            && NewUser(newId, request.value).notifications == [])
      && (o.response.Error? ==> o.writes == [])
  {
    var o := CreateProfileSpec(c, request, newId, now, random, fault);
    if request.Some? {
      var ws := [InsertUser(NewUser(newId, request.value))];
      assert ws[..0] == [];
    }
    if o.response.Ok? {
      var ws := [InsertUser(NewUser(newId, request.value))];
      assert ws[1..] == [];
      assert ApplyAll(c, ws) == Apply(c, ws[0]);
    }
  }

  /** Creating a profile keeps names unique. */
  lemma CreateProfileKeepsNamesUnique(c: Collections, request: Option<ProfileRequest>, newId: ObjectId,
                                      now: int, random: Option<seq<byte>>, fault: Fault)
    requires random.Some? ==> |random.value| == TokenBytes
    requires WellKeyed(c) && NamesUnique(c.users)
    ensures NamesUnique(ApplyAll(c, CreateProfileSpec(c, request, newId, now, random, fault).writes).users)
  {
    var o := CreateProfileSpec(c, request, newId, now, random, fault);
    CreateProfileOutcome(c, request, newId, now, random, fault);
    if o.response.Ok? {
      var users := ApplyAll(c, o.writes).users;
      forall a, b | a in users && b in users && users[a].name == users[b].name ensures a == b {
      }
    }
  }

  /** Creating a profile keeps every post's counter equal to its likers. */
  lemma CreateProfileKeepsLikesConsistent(c: Collections, request: Option<ProfileRequest>, newId: ObjectId,
                                          now: int, random: Option<seq<byte>>, fault: Fault)
    requires random.Some? ==> |random.value| == TokenBytes
    requires LikesConsistent(c)
    ensures LikesConsistent(ApplyAll(c, CreateProfileSpec(c, request, newId, now, random, fault).writes))
  {
    var o := CreateProfileSpec(c, request, newId, now, random, fault);
    CreateProfileOutcome(c, request, newId, now, random, fault);
    LikesUntouchedKeepsLikesConsistent(c, ApplyAll(c, o.writes));
  }

  // ---------------------------------------------------------------------
  // Profile update

  /** A body that does not decode or has both fields empty gives 400 and no
      write; a non-empty field with a working store call gives 200 and one
      `$set`; a successful update sets exactly the non-empty fields of the
      caller's own document and nothing else; a failed one changes nothing. */
  lemma UpdateProfileOutcome(c: Collections, user: UserContext, request: Option<ProfileUpdate>, fault: Fault)
    ensures var o := UpdateProfileSpec(c, user, request, fault);
            var after := ApplyAll(c, o.writes);
      && (request.None? ==> o == Outcome(Error(StatusBadRequest, InvalidPayloadMessage), []))
      && (request.Some? && request.value.name == "" && request.value.avatar == ""
          ==> o == Outcome(Error(StatusBadRequest, NoUpdateFieldsMessage), []))
      && (request.Some? && (request.value.name != "" || request.value.avatar != "") && !Fails(fault, 0)
          ==> o == Outcome(Ok(StatusOK, ()),
                           [SetProfile(user.id, UpdateFields(request.value.name, request.value.avatar))]))
      && (o.response.Error? ==> after == c)
      && (o.response.Ok? ==>
            && request.Some? && after.posts == c.posts && after.notifications == c.notifications
            && after.users.Keys == c.users.Keys
            && (forall id :: id in c.users && id != user.id ==> after.users[id] == c.users[id])
            && (user.id in c.users ==>
                  after.users[user.id] == c.users[user.id].(
                    name := if request.value.name != "" then request.value.name else c.users[user.id].name,
                    avatar := if request.value.avatar != "" then request.value.avatar else c.users[user.id].avatar)))
  {
    var o := UpdateProfileSpec(c, user, request, fault);
    if request.Some? {
      var ws := [SetProfile(user.id, UpdateFields(request.value.name, request.value.avatar))];
      assert ws[..0] == [];
    }
    if o.writes != [] {
      assert o.writes[1..] == [];
    }
  }

  /** Profile update does not re-check uniqueness: renaming to another user's
      name succeeds, and two users then share it. */
  lemma UpdateProfileCanDuplicateName(c: Collections, user: UserContext, other: ObjectId)
    requires user.id in c.users && other in c.users && other != user.id
    requires c.users[other].name != ""
    ensures var o := UpdateProfileSpec(c, user, Some(ProfileUpdate(c.users[other].name, "")), NoFault);
            o.response.Ok? && !NamesUnique(ApplyAll(c, o.writes).users)
  {
    UpdateProfileOutcome(c, user, Some(ProfileUpdate(c.users[other].name, "")), NoFault);
  }

  /** Updating a profile never touches `likedPosts`, so it keeps the counters consistent. */
  lemma UpdateProfileKeepsLikesConsistent(c: Collections, user: UserContext, request: Option<ProfileUpdate>, fault: Fault)
    requires LikesConsistent(c)
    ensures LikesConsistent(ApplyAll(c, UpdateProfileSpec(c, user, request, fault).writes))
  {
    var o := UpdateProfileSpec(c, user, request, fault);
    UpdateProfileOutcome(c, user, request, fault);
    LikesUntouchedKeepsLikesConsistent(c, ApplyAll(c, o.writes));
  }

  // ---------------------------------------------------------------------
  // Post creation

  /** With both store calls working and a fresh id the post is created, and
      a post whose two writes were performed is answered with 200. A created
      post is the caller's, with no likes, and its id is in the caller's
      `posts`, without duplicating an entry; when the second write fails the
      post is stored but missing from the author's `posts`; otherwise nothing
      changes. */
  lemma CreatePostOutcome(c: Collections, user: UserContext, request: Option<PostRequest>, newId: ObjectId, fault: Fault)
    ensures var o := CreatePostSpec(c, user, request, newId, fault);
            var after := ApplyAll(c, o.writes);
      && (o.response.Ok? ==>
            && request.Some? && newId !in c.posts
            && o.response.body == Post(newId, request.value.content, user.id, 0)
            && after.posts == c.posts[newId := o.response.body]
            && after.notifications == c.notifications
            && after.users.Keys == c.users.Keys
            && (user.id in c.users ==>
                  && after.users[user.id] == c.users[user.id].(posts := AddToSet(c.users[user.id].posts, newId))
                  && newId in after.users[user.id].posts
                  && (NoDuplicates(c.users[user.id].posts) ==> NoDuplicates(after.users[user.id].posts)))
            && (forall id :: id in c.users && id != user.id ==> after.users[id] == c.users[id]))
      && (|o.writes| == 2 ==> o.response.Ok?)
      && (request.Some? && !Fails(fault, 0) && !Fails(fault, 1) && newId !in c.posts ==> o.response.Ok?)
      && (|o.writes| == 1 ==>
            o.response.Error? && newId !in c.posts &&
            after == c.(posts := c.posts[newId := NewPost(newId, user.id, request.value.content)]))
      && (o.writes == [] ==> o.response.Error? && after == c)
  {
    var o := CreatePostSpec(c, user, request, newId, fault);
    if request.Some? {
      var post := NewPost(newId, user.id, request.value.content);
      var ws := CreatePostWrites(user.id, post);
      assert ws[..0] == [];
      if |o.writes| >= 1 {
        assert ws[..1] == [ws[0]];
        assert ApplyAll(c, [ws[0]]) == Apply(c, ws[0]);
      }
      if |o.writes| == 2 {
        assert ws[..2] == ws;
        ApplyAllSnoc(c, [ws[0]], ws[1]);
        assert [ws[0]] + [ws[1]] == ws;
      }
    }
  }

  /** Creating a post keeps the counters consistent, provided no user has
      already liked the new id. */
  lemma CreatePostKeepsLikesConsistent(c: Collections, user: UserContext, request: Option<PostRequest>, newId: ObjectId, fault: Fault)
    requires LikesConsistent(c) && Likers(c.users, newId) == {}
    ensures LikesConsistent(ApplyAll(c, CreatePostSpec(c, user, request, newId, fault).writes))
  {
    var o := CreatePostSpec(c, user, request, newId, fault);
    CreatePostOutcome(c, user, request, newId, fault);
    LikesUntouchedKeepsLikesConsistent(c, ApplyAll(c, o.writes));
  }
}
