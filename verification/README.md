# Content items of a Q&A forum, modelled in Dafny

This project models the logic of `Content`, the shared base of questions
and answers in the askbot forum (`askbot/models/content.py`). Database
queries become explicit inputs: a post is a value holding its row and the
relations the algorithms read (revision authors, comments, tags,
followers, answers), the e-mail feed settings are a set of
`(subscriber, feed type, frequency)` rows, and every user carries their
tag filter setting and tag selections. Times are integers.

Five pieces of logic are modelled and proved:

- **Instant-notification subscribers** (`Subscribers`): the union of the
  mention, selective, all-questions, asked-by-me and answered-by-me
  channels, each admitting only users with an instant (`"i"`) setting
  for that feed, minus the exclusion list, returned as a list without
  duplicates. The code re-adds every selective subscriber after running
  the tag filter over them, so the filter does not decide membership; the
  model keeps that behaviour. The filter can still raise, and then the
  whole resolution raises. The exclusion list is passed to `set(...)`
  unconditionally, so leaving it out (`None`) is an error in the model.
  Answer authors come from each answer's default author list (revision
  authors only), over all answers, deleted ones included.
- **Tag filter** (`TagFilter`): "interesting" passes when some tag of the
  question is marked good, "ignored" passes when none is marked bad, any
  other setting is an error. The code reads the setting and the tag
  selections from `self` (the question) rather than from its `user`
  argument; the model takes them from the user, as the method's name,
  parameter and comments intend.
- **Author list** (`Authors`): revision authors, optionally comment
  authors, optionally the author lists of the non-deleted answers (one
  level deep, with the same choice about comments), minus the exclusion
  list, each once.
- **Last-update attribution** (`LastUpdate`): a left-to-right reduction
  over creation, the last edit and the comments that replaces the running
  best only by a strictly later time, so the result is the latest time,
  credited to the first candidate that reaches it.
- **Comment attachment** (`ContentModel.Content`): a class whose
  `AddComment` checks that a comment and a user are given, then appends
  the comment and increments `commentCount` by exactly one.

## Model

| member | source | states |
|---|---|---|
| `TagFilter.PassesTagFilterForUser` | askbot/models/content.py:213-231 | error exactly when the setting is neither "interesting" nor "ignored", carrying that setting; under "interesting" passes iff some post tag has a good selection; under "ignored" passes iff no post tag has a bad selection |
| `TagFilter.MarkedTags` | askbot/models/content.py:218-222 | a tag is in the result iff it is a post tag the user selected with the given reason |
| `TagFilter.MoreTagsMonotone` | askbot/models/content.py:213-231 | adding tags to a question can only make it pass under "interesting" and only make it fail under "ignored" |
| `TagFilter.IgnoredTagExample` | askbot/models/content.py:220-225 | a question tagged python and django is rejected for a user ignoring django |
| `Authors.GetAuthorList` | askbot/models/content.py:194-211 | the list has no duplicates; a user is in it iff not excluded and a revision author, or (with comments) a comment author, or (recursive, on a question) such an author of a non-deleted answer |
| `Lists.ToList` | askbot/models/content.py:163 | the list holds every element of the set exactly once |
| `LastUpdate.Candidates` | askbot/models/content.py:234-243 | the candidates are exactly creation by the author, the last edit when set, and every comment with its writer |
| `LastUpdate.Latest` | askbot/models/content.py:236-244 | the reduction returns one of the candidates, and no candidate is later |
| `LastUpdate.LatestIsFirstLatest` | askbot/models/content.py:236-244 | the reduction returns the first candidate that reaches the latest time (ties keep the earlier source) |
| `LastUpdate.LastUpdateBounds` | askbot/models/content.py:233-245 | the last update is no earlier than creation, than the last edit when set, or than any comment |
| `LastUpdate.LastUpdateInfo` | askbot/models/content.py:233-245 | the loop computes the reduction over creation, last edit and comments; its time bounds all three and it is the first latest candidate |
| `LastUpdate.GetTimeOfLastEdit` | askbot/models/content.py:188-192 | the last edit time when set, otherwise the creation time |
| `LastUpdate.LastUpdateCoversLastEdit` | askbot/models/content.py:188-192 | the last update is no earlier than the time of last edit (edit time if set, else creation), and equals it without comments when the edit is not before creation |
| `LastUpdate.UntouchedPostCreditsAuthor` | askbot/models/content.py:234-235 | with no edit and no comments the last update is (creation time, author) |
| `LastUpdate.CommentAfterEditExample` | askbot/models/content.py:236-244 | created at t0 by a, edited at t1 > t0 by b, commented at t2 > t1 by c gives (t2, c) |
| `Subscribers.InstantSubscribers` | askbot/models/content.py:124-130 | a user is in the result iff they hold an instant setting for the feed |
| `Subscribers.AddSelectiveSubscribers` | askbot/models/content.py:105-121 | fails iff some follower with an instant selective setting has an unknown filter setting, with that setting; otherwise adds every such follower, whatever the filter says |
| `Subscribers.AnswerAuthors` | askbot/models/content.py:146-149 | a user is in the result iff they wrote a revision of some answer, deleted or not |
| `Subscribers.AddAuthorSubscribers` | askbot/models/content.py:134-160 | adds the question author when subscribed instantly to asked questions, and the answer authors subscribed instantly to answered questions, and nothing else |
| `Subscribers.AdmittedSetMembership` | askbot/models/content.py:89-160 | the union of the five queried channels holds exactly the users admitted by the mention, selective, all-questions, asked or answered channel |
| `Subscribers.OnlyInstantSettingsAdmit` | askbot/models/content.py:93-160 | a user with no instant setting is admitted by no channel |
| `Subscribers.GetInstantNotificationSubscribers` | askbot/models/content.py:73-163 | a selective subscriber with an unknown filter setting makes it fail with that setting; otherwise it fails iff no exclusion list is given; on success the list has no duplicates and holds exactly the non-excluded users admitted by the mention, selective (whatever the filter says), all-questions, asked or answered channel through an instant setting |
| `ContentModel.Content.AddComment` | askbot/models/content.py:55-71 | without comment or user: error, nothing changes; otherwise returns the comment dated `addedAt` or now, appends it to the post's comments, increments the counter by exactly one and changes nothing else; a counter that matched the comments still does, and then counts the new comment as the last one |

## Left out

- The field declarations, `Meta` and the generic relations of the model are schema; the post value stands in for them.
- Persistence (`save`) and comment rendering (`parse_and_save`) are calls into the framework; only their effect on the post and its counter is modelled.
- `get_comments` and `get_text` only return stored data; `get_latest_revision` and `get_latest_revision_number` are database ordering and indexing.
- The first `passes_tag_filter_for_user` (lines 165-180) is replaced by the second definition in the class and is never called.
- The current time is a parameter (`now`) instead of a clock read.
- `get_origin_post` is an accessor into the framework; the resolution takes the origin question as its argument, and the unused `potential_subscribers` parameter is dropped.
- An omitted mention list and an empty one take the same branch and are both the empty sequence; likewise an omitted exclusion list of the author list.
- Timestamps are integers rather than dates; the database bounds of `comment_count` are not modelled.
- Subscribers.GetInstantNotificationSubscribers: when several selective subscribers have unknown settings, the model says only that the error names one of them, because the code reports the first in database order, which the model leaves open.
- TagFilter.PassesTagFilterForUser: reads the user's setting and tag selections, not the question's as the code literally does, because a question has neither and the call would fail for every selective subscriber; it also reads `tag_selections.exists(tag__in=..., reason=...)` as a filter followed by `exists()`, since `exists()` takes no filter arguments and the call as written would raise in both branches.
- Subscribers.GetInstantNotificationSubscribers: the feed-setting queries return subscriber ids while the asked channel adds the question author as a user object and the exclusion list holds what the caller passed (normally user objects); the model identifies an id with its user, so the no-duplicates and exclusion guarantees hold only under that identification.
