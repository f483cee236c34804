/** The page of one discussion: its post, its replies and the reply box. */
module ForumPostView {
  import opened Common
  import Seqs
  import Text
  import opened Forum

  /** A reply to a discussion. */
  datatype Reply = Reply(id: string, postId: string, author: Author, content: string, createdAt: string, likes: int)

  /** `getDummyForumPost`: the first post with the identifier, or nothing. */
  function FindPost(posts: seq<ForumPost>, id: string): (r: Option<ForumPost>)
    ensures r.None? <==> forall i :: 0 <= i < |posts| ==> posts[i].id != id
    ensures r.Some? ==>
      exists i :: 0 <= i < |posts| && posts[i] == r.value && r.value.id == id && forall j :: 0 <= j < i ==> posts[j].id != id
  {
    var p := (x: ForumPost) => x.id == id;
    var r := Seqs.Find(p, posts);
    assert forall i :: 0 <= i < |posts| ==> (p(posts[i]) <==> posts[i].id == id);
    r
  }

  /** Every reply in the list answers the post `postId`. */
  predicate RepliesBelongTo(replies: seq<Reply>, postId: string)
  {
    forall i :: 0 <= i < |replies| ==> replies[i].postId == postId
  }

  /** The replies of one post, in their stored order. */
  function RepliesForPost(allReplies: seq<Reply>, postId: string): (r: seq<Reply>)
    ensures Seqs.IsSubsequence(r, allReplies)
    ensures forall x :: multiset(r)[x] == if x.postId == postId then multiset(allReplies)[x] else 0
  {
    var p := (x: Reply) => x.postId == postId;
    Seqs.FilterSelects(p, allReplies);
    Seqs.Filter(p, allReplies)
  }

  /** The list a page shows after loading holds only that post's replies. */
  lemma LoadedRepliesBelong(allReplies: seq<Reply>, postId: string)
    ensures RepliesBelongTo(RepliesForPost(allReplies, postId), postId)
  {
    var r := RepliesForPost(allReplies, postId);
    forall i | 0 <= i < |r| ensures r[i].postId == postId {
      assert multiset(r)[r[i]] > 0;
    }
  }

  /** The submit button is disabled exactly while the reply box holds only white space. */
  predicate SubmitDisabled(replyText: string)
  {
    Text.IsBlank(replyText)
  }

  /** The button's test is the page's `!replyText.trim()`: the trimmed text is empty. */
  lemma SubmitDisabledIffTrimEmpty(replyText: string)
    ensures SubmitDisabled(replyText) <==> Text.Trim(replyText) == ""
  {
    Text.TrimEmptyIffBlank(replyText);
  }

  /** The author every locally written reply carries. */
  const CurrentUser := Author("currentUser", "Current User", "https://i.pravatar.cc/150?img=8")

  /** The reply a submission creates: identifier `r` followed by the time stamp, the text as typed. */
  function NewReply(stamp: string, postId: string, content: string): (r: Reply)
    ensures r.postId == postId && r.content == content && r.likes == 0
    ensures r.id == "r" + stamp
    ensures r.author == CurrentUser && r.createdAt == "Just now"
  {
    Reply("r" + stamp, postId, CurrentUser, content, "Just now", 0)
  }

  /** The two pieces of page state the reply form touches. */
  datatype ReplyState = ReplyState(replies: seq<Reply>, replyText: string)

  /** `handleSubmitReply` on values: a non-blank text becomes a new reply at the top of the list, as
      typed, and the box clears; a blank text changes nothing. */
  function SubmitReplyTo(st: ReplyState, stamp: string, routeId: string): (r: ReplyState)
    ensures SubmitDisabled(st.replyText) ==> r == st
    ensures !SubmitDisabled(st.replyText) ==>
      r.replies == [NewReply(stamp, routeId, st.replyText)] + st.replies && r.replyText == ""
    ensures |r.replies| == |st.replies| + (if SubmitDisabled(st.replyText) then 0 else 1)
  {
    if SubmitDisabled(st.replyText) then st
    else ReplyState([NewReply(stamp, routeId, st.replyText)] + st.replies, "")
  }

  /** A submission on the routed post keeps the list answering that post. */
  lemma SubmitKeepsBelonging(st: ReplyState, stamp: string, routeId: string)
    requires RepliesBelongTo(st.replies, routeId)
    ensures RepliesBelongTo(SubmitReplyTo(st, stamp, routeId).replies, routeId)
  {
    var r := SubmitReplyTo(st, stamp, routeId).replies;
    if !SubmitDisabled(st.replyText) {
      forall i | 0 <= i < |r| ensures r[i].postId == routeId {
        if i > 0 {
          assert r[i] == st.replies[i - 1];
        }
      }
    }
  }

  /** The page's state, updated in place by its effect and handlers. */
  class PostView {
    var post: Option<ForumPost>
    var replies: seq<Reply>
    var isLoading: bool
    var replyText: string

    /** The page starts loading, with no post, no replies and an empty reply box. */
    constructor()
      ensures post.None? && replies == [] && isLoading && replyText == ""
    {
      post := None;
      replies := [];
      isLoading := true;
      replyText := "";
    }

    /** The loading effect: without a route identifier nothing happens and the page keeps loading;
        with one, the post and its replies are looked up and loading ends. */
    method Load(id: string, posts: seq<ForumPost>, allReplies: seq<Reply>)
      modifies this
      ensures id == "" ==> post == old(post) && replies == old(replies) && isLoading == old(isLoading)
      ensures id != "" ==> post == FindPost(posts, id) && replies == RepliesForPost(allReplies, id) && !isLoading
      ensures id != "" ==> RepliesBelongTo(replies, id)
      ensures replyText == old(replyText)
    {
      if id != "" {
        post := FindPost(posts, id);
        replies := RepliesForPost(allReplies, id);
        LoadedRepliesBelong(allReplies, id);
        isLoading := false;
      }
    }

    /** The reply box's `onChange`. */
    method SetReplyText(value: string)
      modifies this
      ensures replyText == value
      ensures post == old(post) && replies == old(replies) && isLoading == old(isLoading)
    {
      replyText := value;
    }

    /** `handleSubmitReply`: the transition `SubmitReplyTo` describes, which keeps the list answering
        the routed post. */
    method SubmitReply(stamp: string, routeId: string)
      modifies this`replies, this`replyText
      ensures ReplyState(replies, replyText) == SubmitReplyTo(ReplyState(old(replies), old(replyText)), stamp, routeId)
      ensures post == old(post) && isLoading == old(isLoading)
      ensures old(RepliesBelongTo(replies, routeId)) ==> RepliesBelongTo(replies, routeId)
    {
      ghost var before := ReplyState(replies, replyText);
      if !SubmitDisabled(replyText) {
        replies := [NewReply(stamp, routeId, replyText)] + replies;
        replyText := "";
      }
      if RepliesBelongTo(before.replies, routeId) {
        SubmitKeepsBelonging(before, stamp, routeId);
      }
    }
  }
}
