/**
 * The records the content algorithms read: users with their tag
 * preferences, comments, questions and answers, and e-mail feed settings.
 * Database queries of the original become fields of these values.
 */
module Records {
  import opened Wrappers

  type Tag = string

  /** A user's mark on a tag; the reason is "good" (interesting) or "bad" (ignored). */
  datatype TagSelection = TagSelection(tag: Tag, reason: string)

  /**
   * A user, with the preference that decides how tags filter the posts
   * they see: `tagFilterSetting` is "interesting" or "ignored" when well
   * configured, and `tagSelections` are the user's marked tags.
   */
  datatype User = User(id: nat, tagFilterSetting: string, tagSelections: set<TagSelection>)

  /** A comment on a post: who wrote it, when, and its text. */
  datatype Comment = Comment(user: User, addedAt: int, text: string)

  /**
   * A content item, as a snapshot of its row and of the relations the
   * algorithms read. Times are integers. `revisionAuthors` lists the author
   * of every revision; `comments` are the attached comments in the order
   * the database returns them. Only a question has tags, followers and
   * answers.
   */
  datatype Post =
    | Question(author: User, addedAt: int,
               lastEditedAt: Option<int>, lastEditedBy: Option<User>,
               revisionAuthors: seq<User>, comments: seq<Comment>, deleted: bool,
               tags: set<Tag>, followers: set<User>, answers: seq<Post>)
    | Answer(author: User, addedAt: int,
             lastEditedAt: Option<int>, lastEditedBy: Option<User>,
             revisionAuthors: seq<User>, comments: seq<Comment>, deleted: bool)

  /**
   * One row of the e-mail feed settings: `subscriber` wants the feed
   * `feedType` ("m_and_c", "q_sel", "q_all", "q_ask", "q_ans") at the
   * given frequency ("i" is instant).
   */
  datatype FeedSetting = FeedSetting(subscriber: User, feedType: string, frequency: string)

  /** The errors the content operations raise. */
  datatype Error =
    | MissingArgument                              // add_comment without comment or user
    | UnexpectedTagFilterSetting(setting: string)  // ValueError of the tag filter
    | ExcludeListNone                              // set(None): no exclusion list given
}
