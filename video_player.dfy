/** The watch page (src/components/VideoPlayer.tsx): like/dislike, subscribe,
    watch-later and comment-like handlers over the remote tables, the comment-menu
    state, and the split of the fetched comments into threads. */
module VideoPlayer {
  import opened Wrappers
  import opened Seqs
  import opened Types
  import opened Engagement
  import opened Database

  const AlreadySaved: string := "Este vídeo já está na sua lista \"Assistir mais tarde\""
  const AddedToWatchLater: string := "Vídeo adicionado à lista \"Assistir mais tarde\""
  const WatchLaterFailed: string := "Erro ao adicionar à lista"

  /** The outcome of the watch-later insert as the server reports it. */
  datatype InsertOutcome = Inserted | DuplicateKey | OtherError

  /** Whether a menu key is open: a missing key reads as `undefined`, i.e. closed. */
  predicate IsOpen(menus: map<CommentId, bool>, key: CommentId) {
    key in menus && menus[key]
  }

  /** `{...prev, [key]: !prev[key]}`. */
  function Flip(menus: map<CommentId, bool>, key: CommentId): map<CommentId, bool> {
    menus[key := !IsOpen(menus, key)]
  }

  /** Flipping a key negates that key and leaves every other key as it was; flipping
      it twice leaves every key open exactly when it was. */
  lemma FlipMeaning(menus: map<CommentId, bool>, key: CommentId, other: CommentId)
    ensures IsOpen(Flip(menus, key), key) == !IsOpen(menus, key)
    ensures other != key ==> (other in Flip(menus, key) <==> other in menus)
    ensures other != key && other in menus ==> Flip(menus, key)[other] == menus[other]
    ensures IsOpen(Flip(Flip(menus, key), key), other) == IsOpen(menus, other)
  {
  }

  /** `!comment.parent_id`: no parent, or an empty one. */
  predicate IsTopLevel(c: Comment) {
    c.parent_id.None? || c.parent_id == Some("")
  }

  function IsReplyTo(parent: CommentId): Comment -> bool {
    (c: Comment) => c.parent_id == Some(parent)
  }

  /** `comments.filter(comment => !comment.parent_id)`. */
  function TopLevel(comments: seq<Comment>): seq<Comment> {
    Filter(comments, IsTopLevel)
  }

  /** `comments.filter(comment => comment.parent_id === parentId)`. */
  function Replies(comments: seq<Comment>, parent: CommentId): seq<Comment> {
    Filter(comments, IsReplyTo(parent))
  }

  /** The threads are order-preserving selections of the fetched list: the top level is
      exactly the comments with no parent, the replies of `p` exactly those whose parent is `p`. */
  lemma ThreadsMeaning(comments: seq<Comment>, parent: CommentId, c: Comment)
    ensures c in TopLevel(comments) <==> c in comments && IsTopLevel(c)
    ensures c in Replies(comments, parent) <==> c in comments && c.parent_id == Some(parent)
    ensures IsGathered(TopLevel(comments), comments, KeepIf(IsTopLevel))
    ensures IsGathered(Replies(comments, parent), comments, KeepIf(IsReplyTo(parent)))
  {
    FilterMembership(comments, IsTopLevel, c);
    FilterMembership(comments, IsReplyTo(parent), c);
    CollectIsGathered(comments, KeepIf(IsTopLevel));
    CollectIsGathered(comments, KeepIf(IsReplyTo(parent)));
  }

  /** Every fetched comment lies in exactly one of the lists the page filters: the top
      level, or the replies of its (non-empty) parent and of no other comment id. Whether
      it is displayed is a different question, answered by `DisplayedMeaning`. */
  lemma ThreadsPartition(comments: seq<Comment>, c: Comment, parent: CommentId)
    requires c in comments
    ensures c in TopLevel(comments) || (c.parent_id.Some? && c in Replies(comments, c.parent_id.value))
    ensures c in TopLevel(comments) ==> c !in Replies(comments, parent) || parent == ""
    ensures c in Replies(comments, parent) && parent != "" ==> c !in TopLevel(comments)
    ensures c in Replies(comments, parent) ==> c.parent_id == Some(parent)
  {
    FilterMembership(comments, IsTopLevel, c);
    FilterMembership(comments, IsReplyTo(parent), c);
    if c.parent_id.Some? {
      FilterMembership(comments, IsReplyTo(c.parent_id.value), c);
    }
  }

  /** What the page renders: `topLevelComments.map(...)`, and inside each top-level
      comment `getReplies(comment.id).map(...)`. Replies of replies are never asked for. */
  predicate Displayed(comments: seq<Comment>, c: Comment) {
    c in TopLevel(comments) || exists t :: t in TopLevel(comments) && c in Replies(comments, t.id)
  }

  /** A fetched comment is displayed iff it is top level or its parent id names a fetched
      top-level comment. So a reply to a reply, or a reply whose parent was not fetched,
      is filtered into some reply list but never rendered. */
  lemma {:induction false} DisplayedMeaning(comments: seq<Comment>, c: Comment)
    ensures Displayed(comments, c) <==>
              c in comments &&
              (IsTopLevel(c) || exists t :: t in comments && IsTopLevel(t) && c.parent_id == Some(t.id))
  {
    FilterMembership(comments, IsTopLevel, c);
    if Displayed(comments, c) && !(c in TopLevel(comments)) {
      var t :| t in TopLevel(comments) && c in Replies(comments, t.id);
      FilterMembership(comments, IsTopLevel, t);
      FilterMembership(comments, IsReplyTo(t.id), c);
    }
    if c in comments && !IsTopLevel(c) && exists t :: t in comments && IsTopLevel(t) && c.parent_id == Some(t.id) {
      var t :| t in comments && IsTopLevel(t) && c.parent_id == Some(t.id);
      FilterMembership(comments, IsTopLevel, t);
      FilterMembership(comments, IsReplyTo(t.id), c);
    }
  }

  /** A reply whose parent is itself a reply (the parent's id is non-empty and not the id
      of any fetched top-level comment) is never displayed. */
  lemma NestedReplyHidden(comments: seq<Comment>, c: Comment)
    requires c in comments && c.parent_id.Some? && c.parent_id.value != ""
    requires forall t :: t in comments && t.id == c.parent_id.value ==> !IsTopLevel(t)
    ensures !Displayed(comments, c)
  {
    DisplayedMeaning(comments, c);
  }

  class VideoPlayerPage {
    /** The signed-in user, if any. */
    var currentUser: Option<UserId>
    /** The `id` route parameter. */
    var videoId: VideoId
    var video: Option<Video>
    var userLike: Option<bool>
    var isSubscribed: bool
    var subscriberCount: int
    var openMenus: map<CommentId, bool>
    var showMoreOptions: bool
    var comments: seq<Comment>

    constructor(user: Option<UserId>, id: VideoId)
      ensures currentUser == user && videoId == id && video == None
      ensures userLike == None && !isSubscribed && subscriberCount == 0
      ensures openMenus == map[] && !showMoreOptions && comments == []
    {
      currentUser := user;
      videoId := id;
      video := None;
      userLike := None;
      isSubscribed := false;
      subscriberCount := 0;
      openMenus := map[];
      showMoreOptions := false;
      comments := [];
    }

    /** The (video, user) key of the signed-in user's like row. */
    function LikeKey(): (VideoId, UserId)
      reads this
      requires currentUser.Some? && video.Some?
    {
      (video.value.id, currentUser.value)
    }

    /** The client's `userLike` shows the stored disposition of the signed-in user. */
    predicate LikeMirrors(db: Store)
      reads this, db
    {
      currentUser.Some? && video.Some? ==> userLike == Stored(db.videoLikes, LikeKey())
    }

    /** handleLike: with no user or no video nothing happens. Otherwise the client state
        becomes `Reconcile(userLike, isLike)` and the row of the pair is deleted (repeat)
        or upserted (any other click). The write's error is not checked, so the client
        state moves even when the write fails (`ok` false). */
    method HandleLike(db: Store, isLike: bool, ok: bool)
      modifies this`userLike, db`videoLikes
      ensures currentUser.None? || video.None? ==>
                userLike == old(userLike) && db.videoLikes == old(db.videoLikes)
      ensures currentUser.Some? && video.Some? ==>
                userLike == Reconcile(old(userLike), isLike)
                && db.videoLikes == (if ok then Apply(old(db.videoLikes), LikeKey(), userLike)
                                     else old(db.videoLikes))
      ensures ok && old(LikeMirrors(db)) ==> LikeMirrors(db)
    {
      if currentUser.None? || video.None? {
        return;
      }
      var key := (video.value.id, currentUser.value);
      var next := Reconcile(userLike, isLike);
      if ok {
        db.videoLikes := Apply(db.videoLikes, key, next);
      }
      userLike := next;
      if ok {
        ApplyStored(old(db.videoLikes), key, next, key);
      }
    }

    /** fetchUserLike: reads the signed-in user's row for the routed video and keeps
        `is_like || null`, so a stored dislike comes back as no disposition. A failed read
        (`readOk` false, any error but "no row") leaves `userLike` as it was. With no user
        the filter matches no row. */
    method FetchUserLike(db: Store, readOk: bool)
      modifies this`userLike
      ensures !readOk ==> userLike == old(userLike)
      ensures readOk && currentUser.None? ==> userLike == None
      ensures readOk && currentUser.Some? ==>
                userLike == ReadBack(Stored(db.videoLikes, (videoId, currentUser.value)))
      ensures readOk && currentUser.Some? && Stored(db.videoLikes, (videoId, currentUser.value)) == Some(false) ==>
                userLike == None
    {
      if !readOk {
        return;
      }
      if currentUser.None? {
        userLike := None;
      } else {
        userLike := ReadBack(Stored(db.videoLikes, (videoId, currentUser.value)));
      }
    }

    /** checkSubscription: with no video owner or no user nothing happens; otherwise
        `isSubscribed` becomes whether the (user, owner) row exists. */
    method CheckSubscription(db: Store, readOk: bool)
      modifies this`isSubscribed
      ensures video.None? || video.value.user_id == "" || currentUser.None? || !readOk ==>
                isSubscribed == old(isSubscribed)
      ensures video.Some? && video.value.user_id != "" && currentUser.Some? && readOk ==>
                (isSubscribed <==> (currentUser.value, video.value.user_id) in db.subscriptions)
    {
      if video.None? || video.value.user_id == "" || currentUser.None? || !readOk {
        return;
      }
      isSubscribed := (currentUser.value, video.value.user_id) in db.subscriptions;
    }

    /** The button and count mirror the owner's subscriptions: `isSubscribed` is the
        user's row and `subscriberCount` the owner's live count. */
    predicate FollowMirrors(db: Store)
      reads this, db
    {
      currentUser.Some? && video.Some? ==>
        Mirrors(Follow(isSubscribed, subscriberCount), db.subscriptions, currentUser.value, video.value.user_id)
    }

    /** handleSubscribe: with no user or no video nothing happens. Otherwise the row is
        deleted when subscribed and inserted when not, `isSubscribed` flips and the count
        moves by one. The write's error is not checked. A successful write keeps the
        client mirroring the table. */
    method HandleSubscribe(db: Store, ok: bool)
      modifies this`isSubscribed, this`subscriberCount, db`subscriptions
      ensures currentUser.None? || video.None? ==>
                isSubscribed == old(isSubscribed) && subscriberCount == old(subscriberCount)
                && db.subscriptions == old(db.subscriptions)
      ensures currentUser.Some? && video.Some? ==>
                Follow(isSubscribed, subscriberCount) == ToggleFollow(Follow(old(isSubscribed), old(subscriberCount)))
                && db.subscriptions == (if ok then ToggleRow(old(db.subscriptions), old(isSubscribed),
                                                             currentUser.value, video.value.user_id)
                                        else old(db.subscriptions))
      ensures ok && old(FollowMirrors(db)) ==> FollowMirrors(db)
    {
      if currentUser.None? || video.None? {
        return;
      }
      var user, channel := currentUser.value, video.value.user_id;
      var before := Follow(isSubscribed, subscriberCount);
      if ok {
        db.subscriptions := ToggleRow(db.subscriptions, isSubscribed, user, channel);
      }
      var after := ToggleFollow(before);
      isSubscribed, subscriberCount := after.subscribed, after.count;
      if ok && Mirrors(before, old(db.subscriptions), user, channel) {
        ToggleKeepsMirror(before, old(db.subscriptions), user, channel);
      }
    }

    /** addToWatchLater: with no user or no video nothing happens. Otherwise the
        (user, video) row is inserted; a duplicate key reports "already saved" and leaves
        the table as it was, any other error reports a failure. */
    method AddToWatchLater(db: Store, otherError: bool) returns (alert: Option<string>)
      modifies db`watchLater
      ensures currentUser.None? || video.None? ==> alert == None && db.watchLater == old(db.watchLater)
      ensures currentUser.Some? && video.Some? ==>
                var key := (currentUser.value, video.value.id);
                && (otherError ==> alert == Some(WatchLaterFailed) && db.watchLater == old(db.watchLater))
                && (!otherError && key in old(db.watchLater) ==>
                      alert == Some(AlreadySaved) && db.watchLater == old(db.watchLater))
                && (!otherError && key !in old(db.watchLater) ==>
                      alert == Some(AddedToWatchLater) && db.watchLater == old(db.watchLater) + {key})
                && (!otherError ==> key in db.watchLater)
    {
      if currentUser.None? || video.None? {
        return None;
      }
      var key := (currentUser.value, video.value.id);
      var outcome := if otherError then OtherError else if key in db.watchLater then DuplicateKey else Inserted;
      match outcome
      case Inserted =>
        db.watchLater := db.watchLater + {key};
        alert := Some(AddedToWatchLater);
      case DuplicateKey =>
        alert := Some(AlreadySaved);
      case OtherError =>
        alert := Some(WatchLaterFailed);
    }

    /** handleCommentLike: with no user nothing happens. Otherwise the existing row is read
        first (a failed read yields no row, since its error is ignored), then the pair's row
        is deleted when it already holds `isLike` and upserted with `isLike` otherwise. */
    method HandleCommentLike(db: Store, commentId: CommentId, isLike: bool, readOk: bool, ok: bool)
      modifies db`commentLikes
      ensures currentUser.None? || !ok ==> db.commentLikes == old(db.commentLikes)
      ensures currentUser.Some? && ok ==>
                var key := (commentId, currentUser.value);
                var existing := if readOk then Stored(old(db.commentLikes), key) else None;
                db.commentLikes == Apply(old(db.commentLikes), key, Reconcile(existing, isLike))
      ensures currentUser.Some? && ok && readOk ==>
                db.commentLikes == ClickOnTable(old(db.commentLikes), (commentId, currentUser.value), isLike)
    {
      if currentUser.None? {
        return;
      }
      var key := (commentId, currentUser.value);
      var existing := if readOk then Stored(db.commentLikes, key) else None;
      if ok {
        db.commentLikes := Apply(db.commentLikes, key, Reconcile(existing, isLike));
      }
    }

    /** toggleMenu: negates one comment's menu flag and keeps every other flag. */
    method ToggleMenu(commentId: CommentId)
      modifies this`openMenus
      ensures openMenus == Flip(old(openMenus), commentId)
      ensures IsOpen(openMenus, commentId) == !IsOpen(old(openMenus), commentId)
      ensures forall k :: k != commentId ==> IsOpen(openMenus, k) == IsOpen(old(openMenus), k)
    {
      openMenus := Flip(openMenus, commentId);
    }

    /** The document click handler: closes every comment menu and the options menu. */
    method CloseMenus()
      modifies this`openMenus, this`showMoreOptions
      ensures openMenus == map[] && !showMoreOptions
      ensures forall k :: !IsOpen(openMenus, k)
    {
      openMenus := map[];
      showMoreOptions := false;
    }

    /** The "more" button: flips the options menu. */
    method ToggleMoreOptions()
      modifies this`showMoreOptions
      ensures showMoreOptions == !old(showMoreOptions)
    {
      showMoreOptions := !showMoreOptions;
    }
  }
}
