/** The public leaderboard (routes/leaderboard.js): one entry per evaluated
    submission, carrying its team, topic, evaluations and the mean of their
    totals rounded to two decimals (0 when it has none), ordered by that mean,
    highest first, with ties in store order (the sort is stable). */
module Leaderboard {
  import opened Base
  import opened SubmissionSchema
  import opened EvaluationSchema
  import Evaluations

  datatype Entry = Entry(team: Id, topic: Option<string>, avgScore: real, evaluations: seq<Evaluation>)

  /** The totals of a list of evaluations. */
  function Totals(evals: seq<Evaluation>): (r: seq<real>)
    ensures |r| == |evals|
    ensures forall k :: 0 <= k < |evals| ==> r[k] == evals[k].totalScore
  {
    seq(|evals|, k requires 0 <= k < |evals| => evals[k].totalScore)
  }

  /** The mean total, 0 for no evaluations. */
  function Average(evals: seq<Evaluation>): (a: real)
    ensures evals == [] ==> a == 0.0
    ensures evals != [] ==> a * |evals| as real == Sum(Totals(evals))
  {
    if evals == [] then 0.0 else Sum(Totals(evals)) / |evals| as real
  }

  /** The mean of totals within the schema's `[0, 100]` is within `[0, 100]`. */
  lemma AverageWithin(evals: seq<Evaluation>)
    requires forall k :: 0 <= k < |evals| ==> ValidEvaluation(evals[k])
    ensures 0.0 <= Average(evals) <= MaxTotal
  {
    if evals != [] {
      SumBounds(Totals(evals), 0.0, MaxTotal);
    }
  }

  /** `x.toFixed(2)` read back as a number, for `x >= 0`: `x` rounded to two
      decimals, halves up. */
  function ToFixed2(x: real): (r: real)
    requires x >= 0.0
    ensures -0.005 < r - x <= 0.005
    ensures r >= 0.0
    ensures (r * 100.0).Floor as real == r * 100.0
  {
    var n := (x * 100.0 + 0.5).Floor;
    assert n as real <= x * 100.0 + 0.5 < n as real + 1.0;
    n as real / 100.0
  }

  /** Rounding keeps a value within `[0, 100]` there. */
  lemma ToFixed2Within(x: real)
    requires 0.0 <= x <= MaxTotal
    ensures 0.0 <= ToFixed2(x) <= MaxTotal
  {
    var n := (x * 100.0 + 0.5).Floor;
    assert n as real <= x * 100.0 + 0.5;
    assert n <= 10000;
  }

  /** The rounded mean: an average of schema-valid totals is never negative;
      for a negative one `toFixed` rounds halves away from zero. */
  function Rounded(x: real): (r: real)
    ensures -0.005 <= r - x <= 0.005
  {
    if x >= 0.0 then ToFixed2(x) else -ToFixed2(-x)
  }

  /** The entry of one submission. */
  function EntryOf(s: Submission, evals: seq<Evaluation>): (e: Entry)
    ensures e.team == s.team && e.topic == s.topic
    ensures e.evaluations == Evaluations.ForSubmission(evals, s.id)
    ensures e.evaluations == [] ==> e.avgScore == 0.0
    ensures -0.005 <= e.avgScore - Average(e.evaluations) <= 0.005
  {
    var mine := Evaluations.ForSubmission(evals, s.id);
    Entry(s.team, s.topic, if mine == [] then 0.0 else Rounded(Average(mine)), mine)
  }

  /** `Submission.find({ status: 'evaluated' })`. */
  function EvaluatedSubmissions(subs: seq<Submission>): (r: seq<Submission>)
    ensures forall k :: 0 <= k < |r| ==> r[k] in subs && r[k].status == Evaluated
    ensures forall k :: 0 <= k < |subs| && subs[k].status == Evaluated ==> subs[k] in r
    ensures |r| == Count((s: Submission) => s.status == Evaluated, subs)
  {
    FilterMembers((s: Submission) => s.status == Evaluated, subs);
    Filter((s: Submission) => s.status == Evaluated, subs)
  }

  /** The entries before sorting, in store order. */
  function Unsorted(subs: seq<Submission>, evals: seq<Evaluation>): (r: seq<Entry>)
    ensures |r| == |EvaluatedSubmissions(subs)|
    ensures forall k :: 0 <= k < |r| ==> r[k] == EntryOf(EvaluatedSubmissions(subs)[k], evals)
  {
    var ev := EvaluatedSubmissions(subs);
    seq(|ev|, k requires 0 <= k < |ev| => EntryOf(ev[k], evals))
  }

  /** Highest average first. */
  predicate SortedDesc(s: seq<Entry>)
  {
    forall i, j :: 0 <= i < j < |s| ==> s[i].avgScore >= s[j].avgScore
  }

  /** Where a stable sort places `x` in a sorted list: after every entry whose
      average is at least its own. */
  function Position(x: Entry, t: seq<Entry>): (k: nat)
    ensures k <= |t|
    ensures forall i :: 0 <= i < k ==> t[i].avgScore >= x.avgScore
    ensures k < |t| ==> t[k].avgScore < x.avgScore
  {
    if t == [] || t[0].avgScore < x.avgScore then 0 else 1 + Position(x, t[1..])
  }

  function Insert(x: Entry, t: seq<Entry>): seq<Entry>
  {
    t[..Position(x, t)] + [x] + t[Position(x, t)..]
  }

  /** `leaderboard.sort((a, b) => b.avgScore - a.avgScore)`, a stable sort,
      as insertion of each entry in turn. */
  function Sort(s: seq<Entry>): (r: seq<Entry>)
    ensures SortedDesc(r)
    ensures multiset(r) == multiset(s)
  {
    if s == [] then []
    else
      var init := s[..|s| - 1];
      InsertSorted(s[|s| - 1], Sort(init));
      assert s == init + [s[|s| - 1]];
      Insert(s[|s| - 1], Sort(init))
  }

  /** The leaderboard the route answers: the entries of the evaluated
      submissions, highest average first. */
  function Board(subs: seq<Submission>, evals: seq<Evaluation>): (r: seq<Entry>)
    ensures SortedDesc(r)
    ensures multiset(r) == multiset(Unsorted(subs, evals))
    ensures |r| == |EvaluatedSubmissions(subs)|
  {
    var r := Sort(Unsorted(subs, evals));
    assert |r| == |multiset(r)|;
    r
  }

  /** The positions of `Insert(x, t)`: `t` before the insertion point, then
      `x`, then the rest of `t`. */
  lemma InsertAt(x: Entry, t: seq<Entry>, i: nat)
    requires i <= |t|
    ensures |Insert(x, t)| == |t| + 1
    ensures Insert(x, t)[i] == if i < Position(x, t) then t[i] else if i == Position(x, t) then x else t[i - 1]
  {
  }

  lemma InsertSorted(x: Entry, t: seq<Entry>)
    requires SortedDesc(t)
    ensures SortedDesc(Insert(x, t))
    ensures multiset(Insert(x, t)) == multiset(t) + multiset{x}
  {
    InsertKeepsOrder(x, t);
    var k := Position(x, t);
    assert t == t[..k] + t[k..];
  }

  lemma InsertKeepsOrder(x: Entry, t: seq<Entry>)
    requires SortedDesc(t)
    ensures SortedDesc(Insert(x, t))
  {
    var k := Position(x, t);
    var r := Insert(x, t);
    forall i | k <= i < |t| ensures t[i].avgScore < x.avgScore {
      assert t[k].avgScore >= t[i].avgScore;
    }
    forall i, j | 0 <= i < j < |r| ensures r[i].avgScore >= r[j].avgScore {
      InsertAt(x, t, i);
      InsertAt(x, t, j);
    }
  }

  /** The entries of `s` whose average is `v`, in order. */
  function WithAverage(s: seq<Entry>, v: real): seq<Entry>
  {
    Filter((e: Entry) => e.avgScore == v, s)
  }

  lemma WithAverageAppend(a: seq<Entry>, b: seq<Entry>, v: real)
    ensures WithAverage(a + b, v) == WithAverage(a, v) + WithAverage(b, v)
  {
    FilterAppend((e: Entry) => e.avgScore == v, a, b);
  }

  lemma WithAverageOne(x: Entry, v: real)
    ensures WithAverage([x], v) == if x.avgScore == v then [x] else []
  {
    assert [x][1..] == [];
  }

  lemma {:induction false} WithAverageNone(s: seq<Entry>, v: real)
    requires forall i :: 0 <= i < |s| ==> s[i].avgScore != v
    ensures WithAverage(s, v) == []
  {
    if s != [] {
      WithAverageNone(s[1..], v);
    }
  }

  lemma WithAverageSplit(lo: seq<Entry>, x: Entry, hi: seq<Entry>, v: real)
    ensures WithAverage(lo + [x] + hi, v) == WithAverage(lo, v) + WithAverage([x], v) + WithAverage(hi, v)
  {
    WithAverageAppend(lo + [x], hi, v);
    WithAverageAppend(lo, [x], v);
  }

  /** After the insertion point of `x` in a sorted list, every average is below `x`'s. */
  lemma AfterPosition(x: Entry, t: seq<Entry>)
    requires SortedDesc(t)
    ensures forall i :: Position(x, t) <= i < |t| ==> t[i].avgScore < x.avgScore
  {
    var k := Position(x, t);
    forall i | k <= i < |t| ensures t[i].avgScore < x.avgScore {
      assert t[k].avgScore >= t[i].avgScore;
    }
  }

  /** The entries with `x`'s average in `Insert(x, t)`: those of `t`, then `x`. */
  lemma InsertStableSame(x: Entry, t: seq<Entry>)
    requires SortedDesc(t)
    ensures WithAverage(Insert(x, t), x.avgScore) == WithAverage(t, x.avgScore) + [x]
  {
    var v, k := x.avgScore, Position(x, t);
    var lo, hi := t[..k], t[k..];
    NoneAfterPosition(x, t);
    assert t == lo + hi;
    WithAverageAppend(lo, hi, v);
    WithAverageSplit(lo, x, hi, v);
    WithAverageOne(x, v);
  }

  /** Nothing after the insertion point shares `x`'s average. */
  lemma NoneAfterPosition(x: Entry, t: seq<Entry>)
    requires SortedDesc(t)
    ensures WithAverage(t[Position(x, t)..], x.avgScore) == []
  {
    var k := Position(x, t);
    AfterPosition(x, t);
    forall i | 0 <= i < |t[k..]| ensures t[k..][i].avgScore != x.avgScore {
      assert t[k..][i] == t[k + i];
    }
    WithAverageNone(t[k..], x.avgScore);
  }

  /** The entries with another average are the same in `Insert(x, t)` and `t`. */
  lemma InsertStableOther(x: Entry, t: seq<Entry>, v: real)
    requires x.avgScore != v
    ensures WithAverage(Insert(x, t), v) == WithAverage(t, v)
  {
    var k := Position(x, t);
    var lo, hi := t[..k], t[k..];
    WithAverageSplit(lo, x, hi, v);
    WithAverageOne(x, v);
    assert t == lo + hi;
    WithAverageAppend(lo, hi, v);
  }

  /** Inserting `x` adds it at the end of the entries that share its average. */
  lemma InsertStable(x: Entry, t: seq<Entry>, v: real)
    requires SortedDesc(t)
    ensures WithAverage(Insert(x, t), v) == WithAverage(t, v) + (if x.avgScore == v then [x] else [])
  {
    if x.avgScore == v {
      InsertStableSame(x, t);
    } else {
      InsertStableOther(x, t, v);
    }
  }

  /** The sort is stable: entries with the same average keep their relative
      order (store order). */
  lemma {:induction false} SortStable(s: seq<Entry>, v: real)
    ensures WithAverage(Sort(s), v) == WithAverage(s, v)
  {
    if s != [] {
      var init := s[..|s| - 1];
      var x := s[|s| - 1];
      SortStable(init, v);
      InsertStable(x, Sort(init), v);
      assert s == init + [x];
      WithAverageAppend(init, [x], v);
      WithAverageOne(x, v);
    }
  }

  /** The leaderboard holds exactly one entry per evaluated submission, in
      order of average, ties in store order. */
  lemma BoardCorrect(subs: seq<Submission>, evals: seq<Evaluation>)
    ensures SortedDesc(Board(subs, evals))
    ensures multiset(Board(subs, evals)) == multiset(Unsorted(subs, evals))
    ensures |Board(subs, evals)| == |EvaluatedSubmissions(subs)|
    ensures forall v :: WithAverage(Board(subs, evals), v) == WithAverage(Unsorted(subs, evals), v)
  {
    forall v ensures WithAverage(Board(subs, evals), v) == WithAverage(Unsorted(subs, evals), v) {
      SortStable(Unsorted(subs, evals), v);
    }
  }

  /** With schema-valid evaluations every average shown is within `[0, 100]`. */
  lemma BoardScoresWithin(subs: seq<Submission>, evals: seq<Evaluation>)
    requires forall k :: 0 <= k < |evals| ==> ValidEvaluation(evals[k])
    ensures forall k :: 0 <= k < |Board(subs, evals)| ==> 0.0 <= Board(subs, evals)[k].avgScore <= MaxTotal
  {
    var u := Unsorted(subs, evals);
    forall k | 0 <= k < |u| ensures 0.0 <= u[k].avgScore <= MaxTotal {
      var mine := u[k].evaluations;
      forall j | 0 <= j < |mine| ensures ValidEvaluation(mine[j]) {
        assert mine[j] in evals;
      }
      AverageWithin(mine);
      ToFixed2Within(Average(mine));
    }
    forall k | 0 <= k < |Board(subs, evals)| ensures 0.0 <= Board(subs, evals)[k].avgScore <= MaxTotal {
      var b := Board(subs, evals)[k];
      assert b in multiset(u);
    }
  }
}
