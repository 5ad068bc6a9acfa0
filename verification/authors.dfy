/** The distinct authors of a post: revisions, optionally comments and answers. */
module Authors {
  import opened Records
  import opened Lists

  /** `u` wrote a revision of `p` or, when comments count, one of its comments. */
  ghost predicate OwnAuthor(p: Post, includeComments: bool, u: User) {
    u in p.revisionAuthors || (includeComments && exists c :: c in p.comments && c.user == u)
  }

  /**
   * `u` is an author of `p` in the sense of the author list: an own author,
   * or, when recursive and `p` is a question, an own author of one of its
   * answers that is not deleted (comments of answers counting as for `p`).
   */
  ghost predicate IsAuthor(p: Post, includeComments: bool, recursive: bool, u: User) {
    OwnAuthor(p, includeComments, u)
    || (recursive && p.Question? &&
        exists i :: 0 <= i < |p.answers| && !p.answers[i].deleted && OwnAuthor(p.answers[i], includeComments, u))
  }

  /**
   * The author list of a post: every author exactly once, none from the
   * exclusion list. Answers are visited one level deep, with the same
   * choice about comments.
   */
  method GetAuthorList(p: Post, includeComments: bool, recursive: bool, exclude: seq<User>)
    returns (authors: seq<User>)
    ensures Distinct(authors)
    ensures forall u :: u in authors <==> IsAuthor(p, includeComments, recursive, u) && u !in exclude
    decreases recursive
  {
    var found: set<User> := Elems(p.revisionAuthors);
    if includeComments {
      found := found + set c | c in p.comments :: c.user;
    }
    assert forall u :: u in found <==> OwnAuthor(p, includeComments, u);
    if recursive && p.Question? {
      for i := 0 to |p.answers|
        invariant forall u :: u in found <==>
          OwnAuthor(p, includeComments, u)
          || exists j :: 0 <= j < i && !p.answers[j].deleted && OwnAuthor(p.answers[j], includeComments, u)
      {
        if !p.answers[i].deleted {
          var more := GetAuthorList(p.answers[i], includeComments, false, []);
          found := found + Elems(more);
        }
      }
    }
    assert forall u :: u in found <==> IsAuthor(p, includeComments, recursive, u);
    if |exclude| > 0 {
      found := found - Elems(exclude);
    }
    authors := ToList(found);
  }
}
