/** The stored content item, whose comment counter grows as comments are attached. */
module ContentModel {
  import opened Wrappers
  import opened Records

  /**
   * A question or answer as stored: its record, and the denormalised
   * number of its comments.
   */
  class Content {
    var post: Post
    var commentCount: nat

    /** The counter agrees with the comments attached to the post. */
    ghost predicate Valid()
      reads this
    {
      commentCount == |post.comments|
    }

    constructor (post: Post)
      ensures this.post == post && commentCount == |post.comments|
      ensures Valid()
    {
      this.post := post;
      commentCount := |post.comments|;
    }

    /**
     * Attaches a comment written by `user`, dated `addedAt` or, when that
     * is absent, `now`. Both the comment and the user are required; an
     * empty comment text is accepted. On success the comment is appended
     * and the counter grows by one; nothing else changes.
     */
    method AddComment(comment: Option<string>, user: Option<User>, addedAt: Option<int>, now: int)
      returns (r: Result<Comment, Error>)
      modifies this
      ensures comment.None? || user.None? ==>
        r == Err(MissingArgument) && post == old(post) && commentCount == old(commentCount)
      ensures comment.Some? && user.Some? ==>
        r == Ok(Comment(user.value, addedAt.GetOr(now), comment.value))
        && commentCount == old(commentCount) + 1
        && post == old(post).(comments := old(post).comments + [r.value])
      ensures old(Valid()) ==> Valid()
      ensures old(Valid()) && r.Ok? ==> 0 < commentCount && post.comments[commentCount - 1] == r.value
    {
      var when := addedAt.GetOr(now);
      if comment.None? || user.None? {
        return Err(MissingArgument);
      }
      var c := Comment(user.value, when, comment.value);
      post := post.(comments := post.comments + [c]);
      commentCount := commentCount + 1;
      return Ok(c);
    }
  }
}
