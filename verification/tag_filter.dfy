/** Whether a question passes a user's tag filter. */
module TagFilter {
  import opened Wrappers
  import opened Records

  const Interesting: string := "interesting"
  const Ignored: string := "ignored"
  const Good: string := "good"
  const Bad: string := "bad"

  /** The tags among `tags` that `user` has marked with `reason`. */
  function MarkedTags(user: User, tags: set<Tag>, reason: string): (r: set<Tag>)
    ensures forall t :: t in r <==> t in tags && TagSelection(t, reason) in user.tagSelections
  {
    var r := set s | s in user.tagSelections && s.tag in tags && s.reason == reason :: s.tag;
    assert forall t | t in tags && TagSelection(t, reason) in user.tagSelections :: t in r by {
      forall t | t in tags && TagSelection(t, reason) in user.tagSelections
        ensures t in r
      {
        var s := TagSelection(t, reason);
        assert s in user.tagSelections && s.tag == t;
      }
    }
    r
  }

  /**
   * The filter over the question's tags: under "interesting" it passes when
   * some tag is marked good, under "ignored" when no tag is marked bad; any
   * other setting is a configuration error.
   */
  function PassesTagFilterForUser(user: User, postTags: set<Tag>): (r: Result<bool, Error>)
    ensures r.Err? <==> user.tagFilterSetting != Interesting && user.tagFilterSetting != Ignored
    ensures r.Err? ==> r.error == UnexpectedTagFilterSetting(user.tagFilterSetting)
    ensures user.tagFilterSetting == Interesting ==>
      (r == Ok(true) <==> exists t :: t in postTags && TagSelection(t, Good) in user.tagSelections)
    ensures user.tagFilterSetting == Ignored ==>
      (r == Ok(true) <==> forall t :: t in postTags ==> TagSelection(t, Bad) !in user.tagSelections)
  {
    if user.tagFilterSetting == Interesting then
      Ok(MarkedTags(user, postTags, Good) != {})
    else if user.tagFilterSetting == Ignored then
      if MarkedTags(user, postTags, Bad) != {} then Ok(false) else Ok(true)
    else
      Err(UnexpectedTagFilterSetting(user.tagFilterSetting))
  }

  /**
   * More tags on a question can only help under "interesting" and only
   * hurt under "ignored".
   */
  lemma MoreTagsMonotone(user: User, fewer: set<Tag>, more: set<Tag>)
    requires fewer <= more
    ensures user.tagFilterSetting == Interesting && PassesTagFilterForUser(user, fewer) == Ok(true) ==>
      PassesTagFilterForUser(user, more) == Ok(true)
    ensures user.tagFilterSetting == Ignored && PassesTagFilterForUser(user, more) == Ok(true) ==>
      PassesTagFilterForUser(user, fewer) == Ok(true)
  {
  }

  /** A question tagged python and django, with django ignored by the user, is filtered out. */
  lemma IgnoredTagExample(user: User)
    requires user.tagFilterSetting == Ignored
    requires TagSelection("django", Bad) in user.tagSelections
    ensures PassesTagFilterForUser(user, {"python", "django"}) == Ok(false)
  {
  }
}
