/**
 * The users to notify at once about a new or edited question or answer:
 * the union of four subscription channels, minus an exclusion list.
 */
module Subscribers {
  import opened Wrappers
  import opened Records
  import opened Lists
  import TagFilter
  import Authors

  const MentionsAndComments: string := "m_and_c"
  const SelectiveQuestion: string := "q_sel"
  const AllQuestions: string := "q_all"
  const QuestionsAsked: string := "q_ask"
  const QuestionsAnswered: string := "q_ans"
  const Instant: string := "i"

  /** `u` has an instant setting for the feed `feedType`. */
  predicate HasInstant(settings: set<FeedSetting>, u: User, feedType: string) {
    FeedSetting(u, feedType, Instant) in settings
  }

  /** The subscribers of the instant settings for one feed. */
  function InstantSubscribers(settings: set<FeedSetting>, feedType: string): (r: set<User>)
    ensures forall u :: u in r <==> HasInstant(settings, u, feedType)
  {
    set s | s in settings && s.feedType == feedType && s.frequency == Instant :: s.subscriber
  }

  // The channels through which a user is admitted; `origin` is the question.

  ghost predicate ViaMention(settings: set<FeedSetting>, mentioned: seq<User>, u: User) {
    u in mentioned && HasInstant(settings, u, MentionsAndComments)
  }

  ghost predicate ViaSelective(settings: set<FeedSetting>, origin: Post, u: User) {
    origin.Question? && u in origin.followers && HasInstant(settings, u, SelectiveQuestion)
  }

  ghost predicate ViaGlobal(settings: set<FeedSetting>, u: User) {
    HasInstant(settings, u, AllQuestions)
  }

  ghost predicate ViaAsked(settings: set<FeedSetting>, origin: Post, u: User) {
    u == origin.author && HasInstant(settings, u, QuestionsAsked)
  }

  /** `u` wrote a revision of some answer of the question, deleted or not. */
  ghost predicate ViaAnswered(settings: set<FeedSetting>, origin: Post, u: User) {
    origin.Question? && HasInstant(settings, u, QuestionsAnswered)
    && exists i :: 0 <= i < |origin.answers| && u in origin.answers[i].revisionAuthors
  }

  ghost predicate Admitted(settings: set<FeedSetting>, origin: Post, mentioned: seq<User>, u: User) {
    ViaMention(settings, mentioned, u) || ViaSelective(settings, origin, u) || ViaGlobal(settings, u)
    || ViaAsked(settings, origin, u) || ViaAnswered(settings, origin, u)
  }

  /** Every channel admits only through an instant setting: a user without one is never admitted. */
  lemma OnlyInstantSettingsAdmit(settings: set<FeedSetting>, origin: Post, mentioned: seq<User>, u: User)
    requires forall s :: s in settings && s.subscriber == u ==> s.frequency != Instant
    ensures !Admitted(settings, origin, mentioned, u)
  {
  }

  /** The revision authors of the answers, deleted or not. */
  function AnswerRevisionAuthors(answers: seq<Post>): set<User> {
    set i, u | 0 <= i < |answers| && u in answers[i].revisionAuthors :: u
  }

  /** The users the five channels admit, as the queries compute them. */
  function AdmittedSet(settings: set<FeedSetting>, origin: Post, mentioned: seq<User>): set<User>
    requires origin.Question?
  {
    (InstantSubscribers(settings, MentionsAndComments) * Elems(mentioned))
    + (InstantSubscribers(settings, SelectiveQuestion) * origin.followers)
    + InstantSubscribers(settings, AllQuestions)
    + (if HasInstant(settings, origin.author, QuestionsAsked) then {origin.author} else {})
    + (InstantSubscribers(settings, QuestionsAnswered) * AnswerRevisionAuthors(origin.answers))
  }

  /** The computed channels admit exactly the users the channel definitions describe. */
  lemma AdmittedSetMembership(settings: set<FeedSetting>, origin: Post, mentioned: seq<User>)
    requires origin.Question?
    ensures forall u :: u in AdmittedSet(settings, origin, mentioned) <==> Admitted(settings, origin, mentioned, u)
  {
  }

  /** A selective subscriber whose tag filter setting is not understood. */
  ghost predicate FilterFails(settings: set<FeedSetting>, origin: Post, u: User) {
    ViaSelective(settings, origin, u) && TagFilter.PassesTagFilterForUser(u, origin.tags).Err?
  }

  /**
   * The selective channel: the followers of the question with an instant
   * selective setting. The tag filter runs over each of them and those it
   * passes are added, but then all of them are added; an unknown filter
   * setting aborts with its error.
   */
  method AddSelectiveSubscribers(settings: set<FeedSetting>, origin: Post, subscriberSet: set<User>)
    returns (r: Result<set<User>, Error>)
    requires origin.Question?
    ensures r.Err? <==> exists u :: FilterFails(settings, origin, u)
    ensures r.Err? ==> exists u :: FilterFails(settings, origin, u) && r.error == UnexpectedTagFilterSetting(u.tagFilterSetting)
    ensures r.Ok? ==> r.value == subscriberSet + InstantSubscribers(settings, SelectiveQuestion) * origin.followers
  {
    var result := subscriberSet;
    if origin.followers != {} {
      var selective := InstantSubscribers(settings, SelectiveQuestion) * origin.followers;
      var pending := selective;
      while pending != {}
        invariant pending <= selective
        invariant forall u :: u in selective - pending ==> TagFilter.PassesTagFilterForUser(u, origin.tags).Ok?
        invariant result == subscriberSet +
          set u | u in selective - pending && TagFilter.PassesTagFilterForUser(u, origin.tags) == Ok(true)
        decreases pending
      {
        var u :| u in pending;
        var passes := TagFilter.PassesTagFilterForUser(u, origin.tags);
        if passes.Err? {
          assert FilterFails(settings, origin, u);
          return Err(passes.error);
        }
        if passes.value {
          result := result + {u};
        }
        pending := pending - {u};
      }
      result := result + selective;
    }
    return Ok(result);
  }

  /** The revision authors of all the answers, deleted or not. */
  method AnswerAuthors(answers: seq<Post>) returns (authors: set<User>)
    ensures forall u :: u in authors <==> exists i :: 0 <= i < |answers| && u in answers[i].revisionAuthors
    ensures authors == AnswerRevisionAuthors(answers)
  {
    authors := {};
    for i := 0 to |answers|
      invariant forall u :: u in authors <==> exists j :: 0 <= j < i && u in answers[j].revisionAuthors
    {
      var list := Authors.GetAuthorList(answers[i], false, false, []);
      authors := authors + Elems(list);
    }
  }

  /**
   * The two self-authored channels: the author of the question when
   * subscribed to questions they asked, and the revision authors of the
   * answers subscribed to questions they answered.
   */
  method AddAuthorSubscribers(settings: set<FeedSetting>, origin: Post, subscriberSet: set<User>)
    returns (r: set<User>)
    requires origin.Question?
    ensures r == subscriberSet
      + (if HasInstant(settings, origin.author, QuestionsAsked) then {origin.author} else {})
      + InstantSubscribers(settings, QuestionsAnswered) * AnswerRevisionAuthors(origin.answers)
  {
    r := subscriberSet;
    if HasInstant(settings, origin.author, QuestionsAsked) {
      r := r + {origin.author};
    }
    var answerAuthors := AnswerAuthors(origin.answers);
    if answerAuthors != {} {
      r := r + (InstantSubscribers(settings, QuestionsAnswered) * answerAuthors);
    }
  }

  /**
   * Resolves the instant subscribers of a post whose origin question is
   * `origin`. The tag filter of each selective subscriber is consulted,
   * but every selective subscriber is added afterwards regardless, so only
   * its errors matter. Without an exclusion list the resolution fails.
   */
  method GetInstantNotificationSubscribers(
    settings: set<FeedSetting>, origin: Post, mentioned: seq<User>, exclude: Option<seq<User>>)
    returns (r: Result<seq<User>, Error>)
    requires origin.Question?
    ensures (exists u :: FilterFails(settings, origin, u)) ==>
      r.Err? && r.error.UnexpectedTagFilterSetting?
      && exists u :: FilterFails(settings, origin, u) && u.tagFilterSetting == r.error.setting
    ensures (forall u :: !FilterFails(settings, origin, u)) ==>
      if exclude.None? then r == Err(ExcludeListNone) else r.Ok?
    ensures r.Ok? ==> Distinct(r.value)
    ensures r.Ok? ==> forall u :: u in r.value <==>
      Admitted(settings, origin, mentioned, u) && u !in exclude.value
  {
    var subscriberSet: set<User> := {};

    // 1) mentioned users subscribed to mentions and comments
    if |mentioned| > 0 {
      subscriberSet := subscriberSet + (InstantSubscribers(settings, MentionsAndComments) * Elems(mentioned));
    }
    assert subscriberSet == InstantSubscribers(settings, MentionsAndComments) * Elems(mentioned);

    // 2) followers of the question subscribed to it selectively
    var selective := AddSelectiveSubscribers(settings, origin, subscriberSet);
    if selective.Err? {
      return Err(selective.error);
    }
    subscriberSet := selective.value;

    // 3) everybody subscribed to all questions, with no tag filter
    subscriberSet := subscriberSet + InstantSubscribers(settings, AllQuestions);

    // 4) the author of the question and the authors of its answers
    subscriberSet := AddAuthorSubscribers(settings, origin, subscriberSet);
    assert subscriberSet == AdmittedSet(settings, origin, mentioned);

    if exclude.None? {
      return Err(ExcludeListNone);
    }
    subscriberSet := subscriberSet - Elems(exclude.value);
    var list := ToList(subscriberSet);
    AdmittedSetMembership(settings, origin, mentioned);
    return Ok(list);
  }
}
