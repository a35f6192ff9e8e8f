/** The Submission document (models/Submission.js): the status enumeration
    and its default, the required and trimmed content fields, the list of
    assigned evaluators and the required deadline. */
module SubmissionSchema {
  import opened Base
  import Text

  datatype Status = Pending | UnderReview | Evaluated

  /** The strings of the `status` enum. */
  function StatusName(s: Status): string
  {
    match s
    case Pending => "pending"
    case UnderReview => "under_review"
    case Evaluated => "evaluated"
  }

  /** The `enum` validator: a string is accepted exactly when it names a status. */
  function ParseStatus(s: string): (r: Option<Status>)
    ensures r.Some? ==> StatusName(r.value) == s
    ensures r.None? ==> forall st: Status :: StatusName(st) != s
  {
    if s == "pending" then Some(Pending)
    else if s == "under_review" then Some(UnderReview)
    else if s == "evaluated" then Some(Evaluated)
    else None
  }

  lemma StatusNamesRoundTrip(st: Status)
    ensures ParseStatus(StatusName(st)) == Some(st)
  {
  }

  /** The status a Submission gets when none is given. */
  const DefaultStatus: Status := Pending

  /** The position of a status along pending -> under_review -> evaluated. */
  function Rank(s: Status): nat
  {
    match s
    case Pending => 0
    case UnderReview => 1
    case Evaluated => 2
  }

  /** The content fields a team sends (absent fields are `None`). */
  datatype Content = Content(
    videoLink: Option<string>,
    topic: Option<string>,
    learningOutcomes: Option<string>,
    description: Option<string>)

  datatype Submission = Submission(
    id: Id,
    team: Id,
    videoLink: Option<string>,
    topic: Option<string>,
    learningOutcomes: Option<string>,
    description: Option<string>,
    status: Status,
    assignedEvaluators: seq<Id>,
    submittedAt: int,
    updatedAt: int,
    deadline: Option<int>)

  /** What the setters store: `videoLink`, `topic` and `description` trimmed,
      `learningOutcomes` verbatim. */
  function Normalize(c: Content): (r: Content)
    ensures r.learningOutcomes == c.learningOutcomes
    ensures r.videoLink == Text.TrimOption(c.videoLink) && r.topic == Text.TrimOption(c.topic)
    ensures r.description == Text.TrimOption(c.description)
  {
    Content(Text.TrimOption(c.videoLink), Text.TrimOption(c.topic), c.learningOutcomes, Text.TrimOption(c.description))
  }

  /** A `required` string validator: present and not empty. */
  predicate Present(v: Option<string>)
  {
    v.Some? && |v.value| > 0
  }

  /** What `save()` checks of a Submission: the required content fields and
      the required deadline (`team` is always set; the status is an enum
      value by construction). */
  predicate ValidSubmission(s: Submission)
  {
    Present(s.videoLink) && Present(s.topic) && Present(s.learningOutcomes) && s.deadline.Some?
  }

  /** The content a request sends passes the required validators exactly when
      `videoLink` and `topic` have a non-space character and
      `learningOutcomes` is not empty: white space alone is trimmed away from
      the first two but kept in the third. */
  lemma ContentAccepted(c: Content)
    ensures var n := Normalize(c);
      (Present(n.videoLink) && Present(n.topic) && Present(n.learningOutcomes))
      <==> (&& c.videoLink.Some? && !Text.AllSpace(c.videoLink.value)
            && c.topic.Some? && !Text.AllSpace(c.topic.value)
            && Present(c.learningOutcomes))
  {
    if c.videoLink.Some? { Text.TrimEmptyIffBlank(c.videoLink.value); }
    if c.topic.Some? { Text.TrimEmptyIffBlank(c.topic.value); }
  }

  /** Overwrite the content fields and `updatedAt`, as the update branch does;
      nothing else changes. */
  function WithContent(s: Submission, c: Content, now: int): (r: Submission)
    ensures r.id == s.id && r.team == s.team && r.status == s.status
    ensures r.assignedEvaluators == s.assignedEvaluators
    ensures r.submittedAt == s.submittedAt && r.deadline == s.deadline
    ensures r.updatedAt == now
    ensures var n := Normalize(c);
      r.videoLink == n.videoLink && r.topic == n.topic
      && r.learningOutcomes == n.learningOutcomes && r.description == n.description
  {
    var n := Normalize(c);
    s.(videoLink := n.videoLink, topic := n.topic, learningOutcomes := n.learningOutcomes,
       description := n.description, updatedAt := now)
  }

  /** A submission whose content is overwritten passes `save()`'s checks
      exactly when the content passes the required validators and the
      submission has its deadline. */
  lemma ValidSubmissionContent(s: Submission, c: Content, now: int)
    ensures ValidSubmission(WithContent(s, c, now)) <==>
      (&& c.videoLink.Some? && !Text.AllSpace(c.videoLink.value)
       && c.topic.Some? && !Text.AllSpace(c.topic.value)
       && Present(c.learningOutcomes) && s.deadline.Some?)
  {
    ContentAccepted(c);
  }
}
