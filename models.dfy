/** The documents of the three collections (`User`, `Post`, `Notification`),
    the `$addToSet` update on their id lists, and the parsing of an id from its
    hexadecimal form. */
module Models {
  import opened Base
  import Hex

  /** A user document; the three id lists are kept free of duplicates by `$addToSet`. */
  datatype User = User(
    id: ObjectId,
    name: string,
    password: string,
    avatar: string,
    posts: seq<ObjectId>,
    likedPosts: seq<ObjectId>,
    notifications: seq<ObjectId>)

  datatype Post = Post(id: ObjectId, content: string, author: ObjectId, likesCount: int)

  /** `kind` is the document's `type` field; the only value written is "like". */
  datatype Notification = Notification(id: ObjectId, kind: string, postId: ObjectId, likedBy: ObjectId)

  const LikeKind := "like"

  predicate NoDuplicates(s: seq<ObjectId>) {
    forall i, j :: 0 <= i < j < |s| ==> s[i] != s[j]
  }

  /** `$addToSet` on an array field: appends `x` unless it is already there. */
  function AddToSet(s: seq<ObjectId>, x: ObjectId): (r: seq<ObjectId>)
    ensures forall y :: y in r <==> y in s || y == x
    ensures |s| <= |r| <= |s| + 1 && r[..|s|] == s
    ensures x in s ==> r == s
    ensures NoDuplicates(s) ==> NoDuplicates(r)
  {
    if x in s then s else s + [x]
  }

  /** Adding the same element twice changes nothing the second time. */
  lemma AddToSetIdempotent(s: seq<ObjectId>, x: ObjectId)
    ensures AddToSet(AddToSet(s, x), x) == AddToSet(s, x)
  {
  }

  /** The id written as 24 hexadecimal digits (either case), as the MongoDB
      driver's `ObjectIDFromHex` parses it; None for any other string. */
  function ObjectIdFromHex(s: string): (r: Option<ObjectId>)
    ensures r.Some? <==> |s| == 24 && Hex.Decode(s).Some?
    ensures r.Some? ==> Hex.Decode(s) == Some(r.value)
  {
    if |s| != 24 then None
    else
      match Hex.Decode(s)
      case None => None
      case Some(bytes) => Some(bytes)
  }

  /** The hexadecimal form of an id (its JSON form) parses back to the id, and
      it is the only lower-case string that does. */
  lemma ObjectIdHexRoundTrip(id: ObjectId, s: string)
    requires Hex.IsLowerHex(s)
    ensures ObjectIdFromHex(Hex.Encode(id)) == Some(id)
    ensures ObjectIdFromHex(s) == Some(id) <==> s == Hex.Encode(id)
  {
    Hex.DecodeEncode(id);
    Hex.DecodeIffEncode(s, id);
  }
}
