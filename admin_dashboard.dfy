/** The statistics of the admin overview (client/src/components/AdminDashboard.jsx),
    computed from the full submission list (GET /api/submissions, the
    submissions in store order) and the pending-evaluator list; the warning
    shown when too few evaluators are approved for automatic panels; and the
    five rows of the recent-submissions table. */
module AdminDashboard {
  import opened Base
  import opened UserSchema
  import opened SubmissionSchema
  import opened Store
  import Admin
  import Submissions

  datatype Stats = Stats(
    totalTeams: nat,
    totalSubmissions: nat,
    pendingEvaluations: nat,
    completedEvaluations: nat,
    pendingEvaluators: nat)

  /** `new Set(subs.map(s => s.team._id))`. */
  function TeamIds(subs: seq<Submission>): set<Id>
  {
    set k | 0 <= k < |subs| :: subs[k].team
  }

  predicate IsOpen(s: Submission)
  {
    s.status == Pending || s.status == UnderReview
  }

  predicate IsDone(s: Submission)
  {
    s.status == Evaluated
  }

  /** `loadStatistics`. */
  function LoadStatistics(subs: seq<Submission>, pending: seq<User>): (st: Stats)
    ensures st.totalSubmissions == |subs| && st.pendingEvaluators == |pending|
    ensures st.totalTeams <= st.totalSubmissions
    ensures st.pendingEvaluations + st.completedEvaluations == st.totalSubmissions
  {
    TeamIdsBound(subs);
    OpenAndDoneCover(subs);
    Stats(|TeamIds(subs)|, |subs|, Count(IsOpen, subs), Count(IsDone, subs), |pending|)
  }

  lemma {:induction false} TeamIdsCons(subs: seq<Submission>)
    requires subs != []
    ensures TeamIds(subs) == {subs[0].team} + TeamIds(subs[1..])
  {
    forall id | id in TeamIds(subs) ensures id in {subs[0].team} + TeamIds(subs[1..]) {
      var k :| 0 <= k < |subs| && subs[k].team == id;
      if k > 0 {
        assert subs[1..][k - 1].team == id;
      }
    }
    forall id | id in TeamIds(subs[1..]) ensures id in TeamIds(subs) {
      var k :| 0 <= k < |subs[1..]| && subs[1..][k].team == id;
      assert subs[k + 1].team == id;
    }
  }

  /** There are never more teams than submissions. */
  lemma {:induction false} TeamIdsBound(subs: seq<Submission>)
    ensures |TeamIds(subs)| <= |subs|
  {
    if subs != [] {
      TeamIdsCons(subs);
      TeamIdsBound(subs[1..]);
    }
  }

  /** With one submission per team, as the store keeps, the team count is the
      submission count. */
  lemma {:induction false} TeamIdsDistinct(subs: seq<Submission>)
    requires forall k, l :: 0 <= k < l < |subs| ==> subs[k].team != subs[l].team
    ensures |TeamIds(subs)| == |subs|
  {
    if subs != [] {
      TeamIdsCons(subs);
      TeamIdsDistinct(subs[1..]);
      forall k | 0 <= k < |subs[1..]| ensures subs[1..][k].team != subs[0].team {
        assert subs[1..][k] == subs[k + 1];
      }
    }
  }

  /** Every status value is either open or done, never both. */
  lemma {:induction false} OpenAndDoneCover(subs: seq<Submission>)
    ensures Count(IsOpen, subs) + Count(IsDone, subs) == |subs|
  {
    if subs != [] {
      OpenAndDoneCover(subs[1..]);
    }
  }

  /** Fed with the store's submissions and the server's pending list, the
      dashboard agrees with GET /api/admin/stats: completed is the evaluated
      count, pending is the pending and under-review counts together, the
      pending-evaluator count is the pending list's length, and with one
      submission per team there are as many teams as submissions. */
  lemma DashboardAgreesWithServer(users: seq<User>, subs: seq<Submission>)
    requires forall k, l :: 0 <= k < l < |subs| ==> subs[k].team != subs[l].team
    ensures var st, server := LoadStatistics(subs, Admin.PendingEvaluators(users)), Admin.StatsOf(users, subs);
      && st.completedEvaluations == server.evaluated
      && st.pendingEvaluations == server.pendingSubmissions + server.underReview
      && st.pendingEvaluators == server.pendingEvaluators
      && st.totalSubmissions == server.totalSubmissions
      && st.totalTeams == st.totalSubmissions
  {
    TeamIdsDistinct(subs);
    StatusCountsMatch(subs);
  }

  lemma {:induction false} StatusCountsMatch(subs: seq<Submission>)
    ensures Count(IsOpen, subs) == Count(Admin.IsPending, subs) + Count(Admin.IsUnderReview, subs)
    ensures Count(IsDone, subs) == Count(Admin.IsEvaluated, subs)
  {
    if subs != [] {
      StatusCountsMatch(subs[1..]);
    }
  }

  /** The line under the pending count: `stats.pendingEvaluators > 0`. */
  predicate ShowsPendingAlert(st: Stats)
  {
    st.pendingEvaluators > 0
  }

  /** The pending alert shows exactly when some evaluator awaits approval. */
  lemma PendingAlertIffPending(users: seq<User>, subs: seq<Submission>)
    ensures ShowsPendingAlert(LoadStatistics(subs, Admin.PendingEvaluators(users)))
      <==> exists k :: 0 <= k < |users| && users[k].role == Evaluator && !users[k].approved
  {
    var pending := Admin.PendingEvaluators(users);
    FilterMembers(Admin.IsPendingEvaluator, users);
    if exists k :: 0 <= k < |users| && users[k].role == Evaluator && !users[k].approved {
      var k :| 0 <= k < |users| && users[k].role == Evaluator && !users[k].approved;
      assert users[k] in pending;
    }
    if pending != [] {
      assert pending[0] in users;
    }
  }

  /** `approvedEvaluators.length < 3`. */
  predicate MinimumWarning(approved: seq<User>)
  {
    |approved| < 3
  }

  /** The warning shows exactly when a new submission would get no panel:
      the dashboard's threshold is the one panel selection uses. */
  lemma WarningIffNoPanel(users: seq<User>, perm: seq<nat>)
    requires Submissions.IsShuffle(perm, |Submissions.PoolIds(users)|)
    ensures MinimumWarning(ApprovedEvaluators(users)) <==> Submissions.SelectPanel(Submissions.PoolIds(users), perm).None?
  {
  }

  /** `submissions.slice(0, 5)`. */
  function Recent(subs: seq<Submission>): (r: seq<Submission>)
    ensures |r| <= 5 && |r| <= |subs| && r == subs[..|r|]
    ensures |r| == 5 || r == subs
  {
    if |subs| <= 5 then subs else subs[..5]
  }
}
