/** The comment thread under a movie (src/components/comments/CommentsSection.tsx).
    The component's React state is a class; each request to the comments service
    is a parameter holding its outcome, and `authService.isAuthenticated()` is a
    parameter of the load. */
module CommentsSection {
  import opened Base
  import opened JsText

  datatype Comment = Comment(id: string, userId: string, content: string, likes: int)

  /** One page of comments as the service returns it. */
  datatype CommentsResponse = CommentsResponse(items: seq<Comment>, totalItems: int, totalPages: int, currentPage: int)

  /** Comments are requested twenty at a time. */
  const PageSize := 20

  /** `!newComment.trim() || !isAuthenticated` turned round: when a submit is sent. */
  predicate SubmitAllowed(text: string, isAuthenticated: bool) {
    Trim(text) != [] && isAuthenticated
  }

  /** A submit is sent exactly when the user is signed in and the text has a
      character that is not white space. */
  lemma SubmitAllowedIff(text: string, isAuthenticated: bool)
    ensures SubmitAllowed(text, isAuthenticated) <==>
      isAuthenticated && exists i :: 0 <= i < |text| && !IsJsSpace(text[i])
  {
    TrimEmptyIff(text);
  }

  /** `currentlyLiked ? -1 : +1`. */
  function LikeDelta(currentlyLiked: bool): int {
    if currentlyLiked then -1 else 1
  }

  /** The `comments.map(...)` of `handleLike`. */
  function ApplyLike(comments: seq<Comment>, commentId: string, currentlyLiked: bool): (r: seq<Comment>)
    ensures |r| == |comments|
    ensures forall i :: 0 <= i < |comments| ==> r[i].id == comments[i].id
    ensures forall i :: 0 <= i < |comments| && comments[i].id != commentId ==> r[i] == comments[i]
    ensures forall i :: 0 <= i < |comments| && comments[i].id == commentId ==>
      r[i] == comments[i].(likes := comments[i].likes + LikeDelta(currentlyLiked))
  {
    if comments == [] then []
    else
      var c := comments[0];
      var c' := if c.id == commentId then c.(likes := c.likes + LikeDelta(currentlyLiked)) else c;
      [c'] + ApplyLike(comments[1..], commentId, currentlyLiked)
  }

  /** Unliking after liking restores every count. */
  lemma LikeUnlike(comments: seq<Comment>, commentId: string)
    ensures ApplyLike(ApplyLike(comments, commentId, false), commentId, true) == comments
  {
    var r := ApplyLike(ApplyLike(comments, commentId, false), commentId, true);
    assert forall i :: 0 <= i < |comments| ==> r[i] == comments[i];
  }

  function TotalLikes(comments: seq<Comment>): int {
    if comments == [] then 0 else comments[0].likes + TotalLikes(comments[1..])
  }

  function CountId(comments: seq<Comment>, commentId: string): nat {
    if comments == [] then 0 else (if comments[0].id == commentId then 1 else 0) + CountId(comments[1..], commentId)
  }

  /** The total of likes moves by one for every comment carrying the id, so by
      exactly one when ids are unique. */
  lemma {:induction false} LikeTotal(comments: seq<Comment>, commentId: string, currentlyLiked: bool)
    ensures TotalLikes(ApplyLike(comments, commentId, currentlyLiked)) ==
      TotalLikes(comments) + LikeDelta(currentlyLiked) * CountId(comments, commentId)
  {
    if comments != [] {
      LikeTotal(comments[1..], commentId, currentlyLiked);
      var r := ApplyLike(comments, commentId, currentlyLiked);
      assert r[1..] == ApplyLike(comments[1..], commentId, currentlyLiked);
    }
  }

  class CommentsState {
    var comments: seq<Comment>
    var loading: bool
    var newComment: string
    var isAuthenticated: bool
    var page: int
    var hasMore: bool

    /** The first render. */
    constructor ()
      ensures comments == [] && loading && newComment == [] && !isAuthenticated
      ensures page == 1 && hasMore
    {
      comments := [];
      loading := true;
      newComment := [];
      isAuthenticated := false;
      page := 1;
      hasMore := true;
    }

    /** The effect that runs on mount and whenever `page` changes: reads the
        sign-in state and runs `loadComments`, which requests `page` with twenty
        per page. The list is replaced, never appended to; a failed request
        keeps the list. */
    method LoadComments(signedIn: bool, response: Result<CommentsResponse>) returns (requestedPage: int, limit: int)
      modifies this
      ensures requestedPage == old(page) && limit == PageSize
      ensures isAuthenticated == signedIn && !loading
      ensures response.Ok? ==> (comments == response.value.items &&
        hasMore == (response.value.currentPage < response.value.totalPages))
      ensures response.Err? ==> comments == old(comments) && hasMore == old(hasMore)
      ensures page == old(page) && newComment == old(newComment)
    {
      isAuthenticated := signedIn;
      loading := true;
      requestedPage, limit := page, PageSize;
      if response.Ok? {
        comments := response.value.items;
        hasMore := response.value.currentPage < response.value.totalPages;
      }
      loading := false;
    }

    method TypeComment(text: string)
      modifies this
      ensures newComment == text
      ensures comments == old(comments) && loading == old(loading) && isAuthenticated == old(isAuthenticated)
      ensures page == old(page) && hasMore == old(hasMore)
    {
      newComment := text;
    }

    /** `handleSubmitComment`: `create` is the service's answer to a request with
        the given text. Returns the text sent, if a request was made. */
    method SubmitComment(create: string -> Result<Comment>) returns (sent: Option<string>)
      modifies this
      ensures sent.Some? <==> SubmitAllowed(old(newComment), isAuthenticated)
      ensures sent.Some? ==> sent.value == old(newComment)
      ensures sent.Some? && create(old(newComment)).Ok? ==>
        (comments == [create(old(newComment)).value] + old(comments) && newComment == [])
      ensures sent.None? || create(old(newComment)).Err? ==>
        (comments == old(comments) && newComment == old(newComment))
      ensures loading == old(loading) && isAuthenticated == old(isAuthenticated)
      ensures page == old(page) && hasMore == old(hasMore)
    {
      if Trim(newComment) == [] || !isAuthenticated {
        return None;
      }
      sent := Some(newComment);
      match create(newComment)
      case Ok(comment) =>
        comments := [comment] + comments;
        newComment := [];
      case Err(_) =>
    }

    /** `handleLike(commentId, currentlyLiked)`: the counts change only once the
        service accepted the toggle. */
    method HandleLike(commentId: string, currentlyLiked: bool, accepted: bool)
      modifies this
      ensures comments == if accepted then ApplyLike(old(comments), commentId, currentlyLiked) else old(comments)
      ensures loading == old(loading) && newComment == old(newComment) && isAuthenticated == old(isAuthenticated)
      ensures page == old(page) && hasMore == old(hasMore)
    {
      if accepted {
        comments := ApplyLike(comments, commentId, currentlyLiked);
      }
    }

    /** The heart button: it always passes `currentlyLiked = false`, so every
        accepted click adds a like. */
    method ClickLike(commentId: string, accepted: bool)
      modifies this
      ensures comments == if accepted then ApplyLike(old(comments), commentId, false) else old(comments)
      ensures accepted ==> forall i :: 0 <= i < |comments| && comments[i].id == commentId ==>
        comments[i].likes == old(comments)[i].likes + 1
      ensures loading == old(loading) && newComment == old(newComment) && isAuthenticated == old(isAuthenticated)
      ensures page == old(page) && hasMore == old(hasMore)
    {
      HandleLike(commentId, false, accepted);
    }

    /** "Load more", shown only while `hasMore`: asks for the next page, which
        the effect then loads in place of the current list. */
    method LoadMore()
      modifies this
      ensures page == if old(hasMore) then old(page) + 1 else old(page)
      ensures comments == old(comments) && loading == old(loading) && newComment == old(newComment)
      ensures isAuthenticated == old(isAuthenticated) && hasMore == old(hasMore)
    {
      if hasMore {
        page := page + 1;
      }
    }
  }
}
