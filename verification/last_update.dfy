/** When a post was last touched, and by whom. */
module LastUpdate {
  import opened Wrappers
  import opened Records

  /** A candidate for the last update: a time and the user credited with it. */
  datatype Update = Update(when: int, who: Option<User>)

  /** The time of the last edit, or of creation when the post was never edited. */
  function GetTimeOfLastEdit(p: Post): (r: int)
    ensures p.lastEditedAt == Some(r) || (p.lastEditedAt.None? && r == p.addedAt)
  {
    if p.lastEditedAt.Some? then p.lastEditedAt.value else p.addedAt
  }

  /** Creation by the author, then the last edit when there is one. */
  function Opening(p: Post): seq<Update> {
    [Update(p.addedAt, Some(p.author))]
    + (if p.lastEditedAt.Some? then [Update(p.lastEditedAt.value, p.lastEditedBy)] else [])
  }

  /** Each comment as a candidate, in order. */
  function CommentUpdates(comments: seq<Comment>): seq<Update> {
    seq(|comments|, i requires 0 <= i < |comments| => Update(comments[i].addedAt, Some(comments[i].user)))
  }

  /**
   * The candidates in the order the attribution visits them: creation by
   * the author, the last edit when there is one, then every comment.
   */
  function Candidates(p: Post): (cs: seq<Update>)
    ensures Update(p.addedAt, Some(p.author)) in cs
    ensures p.lastEditedAt.Some? ==> Update(p.lastEditedAt.value, p.lastEditedBy) in cs
    ensures forall c :: c in p.comments ==> Update(c.addedAt, Some(c.user)) in cs
    ensures forall x :: x in cs ==>
      x == Update(p.addedAt, Some(p.author))
      || (p.lastEditedAt.Some? && x == Update(p.lastEditedAt.value, p.lastEditedBy))
      || exists c :: c in p.comments && x == Update(c.addedAt, Some(c.user))
  {
    CommentsAreCandidates(p.comments);
    Opening(p) + CommentUpdates(p.comments)
  }

  /** Every comment contributes its time and its writer as a candidate. */
  lemma CommentsAreCandidates(comments: seq<Comment>)
    ensures forall c :: c in comments ==> Update(c.addedAt, Some(c.user)) in CommentUpdates(comments)
  {
    forall c | c in comments
      ensures Update(c.addedAt, Some(c.user)) in CommentUpdates(comments)
    {
      var i :| 0 <= i < |comments| && comments[i] == c;
      assert CommentUpdates(comments)[i] == Update(c.addedAt, Some(c.user));
    }
  }

  /**
   * Left-to-right reduction that keeps the running best and replaces it
   * only by a strictly later candidate: a latest candidate.
   */
  function Latest(cs: seq<Update>): (r: Update)
    requires |cs| > 0
    ensures r in cs
    ensures forall j :: 0 <= j < |cs| ==> cs[j].when <= r.when
  {
    if |cs| == 1 then cs[0]
    else
      var best := Latest(cs[..|cs| - 1]);
      if cs[|cs| - 1].when > best.when then cs[|cs| - 1] else best
  }

  /** `cs[k]` is the first candidate that reaches the latest time of `cs`. */
  ghost predicate FirstLatest(cs: seq<Update>, k: int) {
    0 <= k < |cs|
    && (forall j :: 0 <= j < |cs| ==> cs[j].when <= cs[k].when)
    && (forall j :: 0 <= j < k ==> cs[j].when < cs[k].when)
  }

  /** Ties go to the earliest candidate: the reduction picks the first latest one. */
  lemma {:induction false} LatestIsFirstLatest(cs: seq<Update>) returns (k: int)
    requires |cs| > 0
    ensures FirstLatest(cs, k) && cs[k] == Latest(cs)
  {
    if |cs| == 1 {
      k := 0;
    } else {
      var n := |cs| - 1;
      var init := cs[..n];
      var best := Latest(init);
      var k' := LatestIsFirstLatest(init);
      assert forall j :: 0 <= j < n ==> init[j] == cs[j];
      if cs[n].when > best.when {
        k := n;
        assert forall j :: 0 <= j < n ==> cs[j].when <= best.when;
      } else {
        k := k';
      }
    }
  }

  /** Appending a candidate replaces the latest one only when strictly later. */
  lemma LatestSnoc(cs: seq<Update>, x: Update)
    requires |cs| > 0
    ensures Latest(cs + [x]) == if x.when > Latest(cs).when then x else Latest(cs)
  {
  }

  /** One more element of `b` on the prefix taken after `a`. */
  lemma PrefixStep(a: seq<Update>, b: seq<Update>, i: nat)
    requires i < |b|
    ensures a + b[..i + 1] == (a + b[..i]) + [b[i]]
  {
  }

  /**
   * The latest candidate is no earlier than creation, than the last edit
   * when there is one, and than any comment.
   */
  lemma LastUpdateBounds(p: Post)
    ensures Latest(Candidates(p)).when >= p.addedAt
    ensures p.lastEditedAt.Some? ==> Latest(Candidates(p)).when >= p.lastEditedAt.value
    ensures forall c :: c in p.comments ==> c.addedAt <= Latest(Candidates(p)).when
  {
  }

  /**
   * The last update of a post: the latest of creation, last edit and
   * comments, credited to whoever came first at that time.
   */
  method LastUpdateInfo(p: Post) returns (when: int, who: Option<User>)
    ensures Update(when, who) == Latest(Candidates(p))
    ensures when >= p.addedAt
    ensures p.lastEditedAt.Some? ==> when >= p.lastEditedAt.value
    ensures forall c :: c in p.comments ==> c.addedAt <= when
    ensures exists k :: FirstLatest(Candidates(p), k) && Candidates(p)[k] == Update(when, who)
  {
    ghost var opening, rest := Opening(p), CommentUpdates(p.comments);
    when, who := p.addedAt, Some(p.author);
    if p.lastEditedAt.Some? && p.lastEditedAt.value > when {
      when, who := p.lastEditedAt.value, p.lastEditedBy;
    }
    assert Update(when, who) == Latest(opening + rest[..0]) by {
      assert opening + rest[..0] == opening;
      if p.lastEditedAt.Some? {
        LatestSnoc(opening[..1], opening[1]);
        assert opening == opening[..1] + [opening[1]];
      }
    }
    if |p.comments| > 0 {
      for i := 0 to |p.comments|
        invariant Update(when, who) == Latest(opening + rest[..i])
      {
        var c := p.comments[i];
        PrefixStep(opening, rest, i);
        LatestSnoc(opening + rest[..i], rest[i]);
        if c.addedAt > when {
          when, who := c.addedAt, Some(c.user);
        }
      }
    }
    assert Update(when, who) == Latest(Candidates(p)) by {
      assert rest[..|rest|] == rest;
    }
    LastUpdateBounds(p);
    var k := LatestIsFirstLatest(Candidates(p));
  }

  /**
   * The last update is never earlier than the last edit, and without
   * comments, and with an edit no earlier than creation, it is at the time
   * of the last edit.
   */
  lemma LastUpdateCoversLastEdit(p: Post)
    ensures Latest(Candidates(p)).when >= GetTimeOfLastEdit(p)
    ensures p.comments == [] && (p.lastEditedAt.Some? ==> p.lastEditedAt.value >= p.addedAt) ==>
      Latest(Candidates(p)).when == GetTimeOfLastEdit(p)
  {
  }

  /** A post never edited nor commented was last updated at creation, by its author. */
  lemma UntouchedPostCreditsAuthor(p: Post)
    requires p.lastEditedAt.None? && p.comments == []
    ensures Latest(Candidates(p)) == Update(p.addedAt, Some(p.author))
  {
  }

  /**
   * Created at t0 by a, edited at t1 > t0 by b, commented at t2 > t1 by c:
   * the last update is the comment.
   */
  lemma CommentAfterEditExample(p: Post, t0: int, t1: int, t2: int, a: User, b: User, c: User, text: string)
    requires t0 < t1 < t2
    requires p.author == a && p.addedAt == t0
    requires p.lastEditedAt == Some(t1) && p.lastEditedBy == Some(b)
    requires p.comments == [Comment(c, t2, text)]
    ensures Latest(Candidates(p)) == Update(t2, Some(c))
  {
  }
}
