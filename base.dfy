/** Value types shared by every part of the model: document ids, optional
    values, the outcome of a request handler, and the few sequence queries
    (find-first, filter, count, sum) that the handlers and the store use. */
module Base {

  /** A document id (a MongoDB ObjectId). Ids are handed out by the store. */
  type Id = nat

  datatype Option<+T> = None | Some(value: T)

  /** What a request handler answers: a value, or one of the failures below. */
  datatype Result<+T> = Ok(value: T) | Err(failure: Failure)

  /** The distinguishable error outcomes of the handlers. */
  datatype Failure =
    | NotInTeam               // "You must be part of a team"
    | InsufficientEvaluators  // fewer than three approved evaluators
    | ValidationFailed        // a schema validator rejected the document; nothing was written
    | DuplicateKey            // a unique index rejected the document; nothing was written
    | Crashed                 // an exception (e.g. a property read on null) caught by the handler
    | NotFound(what: string)  // "Team not found", "User not found", "Evaluator not found", ...
    | Forbidden               // the caller does not own the record or lacks the role
    | TeamFull                // "Team is full (maximum 5 members)"
    | AlreadyInTeam           // "User already in a team"
    | EmailTaken              // "Email already registered"
    | InvalidCredentials      // unknown email or wrong password
    | PendingApproval         // an evaluator who is not yet approved

  /** The HTTP status each failure is answered with. */
  function StatusCode(f: Failure): (code: nat)
    ensures 400 <= code < 500
    ensures code == 404 <==> f.NotFound?
    ensures code == 403 <==> f.Forbidden?
    ensures code == 401 <==> (f.InvalidCredentials? || f.PendingApproval?)
  {
    match f
    case NotFound(_) => 404
    case Forbidden => 403
    case InvalidCredentials => 401
    case PendingApproval => 401
    case _ => 400
  }

  /** JavaScript truthiness of an optional string (`undefined` and `""` are falsy). */
  predicate Truthy(v: Option<string>)
  {
    v.Some? && v.value != ""
  }

  /** The index of the first element satisfying `p` (a `findOne` in store order). */
  function Find<T>(s: seq<T>, p: T -> bool): (r: Option<nat>)
    ensures r.Some? ==> r.value < |s| && p(s[r.value]) && forall j :: 0 <= j < r.value ==> !p(s[j])
    ensures r.None? ==> forall j :: 0 <= j < |s| ==> !p(s[j])
  {
    if s == [] then None
    else if p(s[0]) then Some(0)
    else match Find(s[1..], p)
         case None => None
         case Some(k) => Some(k + 1)
  }

  /** The elements of `s` that satisfy `p`, in order (a `find` with a filter). */
  function Filter<T>(p: T -> bool, s: seq<T>): (r: seq<T>)
    ensures |r| <= |s|
  {
    if s == [] then [] else (if p(s[0]) then [s[0]] else []) + Filter(p, s[1..])
  }

  /** The filter keeps exactly the elements that satisfy `p`. */
  lemma {:induction false} FilterMembers<T>(p: T -> bool, s: seq<T>)
    ensures forall k :: 0 <= k < |Filter(p, s)| ==> Filter(p, s)[k] in s && p(Filter(p, s)[k])
    ensures forall k :: 0 <= k < |s| && p(s[k]) ==> s[k] in Filter(p, s)
  {
    if s != [] {
      FilterMembers(p, s[1..]);
      var r := Filter(p, s);
      var t := Filter(p, s[1..]);
      forall k | 0 <= k < |r| ensures r[k] in s && p(r[k]) {
        if p(s[0]) && k == 0 {
          assert r[k] == s[0];
        } else {
          var k' := if p(s[0]) then k - 1 else k;
          assert r[k] == t[k'];
          assert t[k'] in s[1..];
        }
      }
      forall k | 0 <= k < |s| && p(s[k]) ensures s[k] in r {
        if k > 0 {
          assert s[k] == s[1..][k - 1];
        }
      }
    }
  }

  lemma {:induction false} FilterAppend<T>(p: T -> bool, a: seq<T>, b: seq<T>)
    ensures Filter(p, a + b) == Filter(p, a) + Filter(p, b)
  {
    if a == [] {
      assert a + b == b;
    } else {
      var h := if p(a[0]) then [a[0]] else [];
      assert (a + b)[0] == a[0];
      assert (a + b)[1..] == a[1..] + b;
      FilterAppend(p, a[1..], b);
      calc {
        Filter(p, a + b);
        h + Filter(p, a[1..] + b);
        h + (Filter(p, a[1..]) + Filter(p, b));
        (h + Filter(p, a[1..])) + Filter(p, b);
      }
    }
  }

  /** Filtering by a predicate that holds of nothing in `s` leaves nothing. */
  lemma {:induction false} FilterNone<T>(p: T -> bool, s: seq<T>)
    requires forall k :: 0 <= k < |s| ==> !p(s[k])
    ensures Filter(p, s) == []
  {
    if s != [] {
      FilterNone(p, s[1..]);
    }
  }

  /** Filtering by a predicate that holds of everything in `s` keeps `s`. */
  lemma {:induction false} FilterAll<T>(p: T -> bool, s: seq<T>)
    requires forall k :: 0 <= k < |s| ==> p(s[k])
    ensures Filter(p, s) == s
  {
    if s != [] {
      FilterAll(p, s[1..]);
    }
  }

  /** No two elements of `s` share a key. */
  ghost predicate KeysDistinct<T, K>(key: T -> K, s: seq<T>)
  {
    forall i, j :: 0 <= i < j < |s| ==> key(s[i]) != key(s[j])
  }

  /** Filtering keeps a key that tells the elements of `s` apart telling the
      kept elements apart. */
  lemma {:induction false} FilterKeysDistinct<T, K>(p: T -> bool, key: T -> K, s: seq<T>)
    requires KeysDistinct(key, s)
    ensures KeysDistinct(key, Filter(p, s))
  {
    if s != [] {
      FilterKeysDistinct(p, key, s[1..]);
      FilterMembers(p, s[1..]);
      var t := Filter(p, s[1..]);
      forall k | 0 <= k < |t| ensures key(t[k]) != key(s[0]) {
        var j :| 0 <= j < |s[1..]| && s[1..][j] == t[k];
        assert s[j + 1] == t[k];
      }
      if p(s[0]) {
        var r := [s[0]] + t;
        assert Filter(p, s) == r;
        forall i, j | 0 <= i < j < |r| ensures key(r[i]) != key(r[j]) {
          assert r[j] == t[j - 1];
          if i == 0 { assert r[i] == s[0]; } else { assert r[i] == t[i - 1]; }
        }
      } else {
        assert Filter(p, s) == t;
      }
    }
  }

  /** The number of elements that satisfy `p` (a `countDocuments`), counted
      one element at a time; it is the length of the filtered list, so
      `.filter(..).length` counts the same. */
  function Count<T>(p: T -> bool, s: seq<T>): (n: nat)
    ensures n <= |s|
    ensures n == |Filter(p, s)|
  {
    if s == [] then 0 else (if p(s[0]) then 1 else 0) + Count(p, s[1..])
  }

  /** When two predicates never hold together, counting either one is counting
      their disjunction. */
  lemma {:induction false} CountDisjoint<T>(p: T -> bool, q: T -> bool, s: seq<T>)
    requires forall k :: 0 <= k < |s| ==> !(p(s[k]) && q(s[k]))
    ensures Count(p, s) + Count(q, s) == Count(x => p(x) || q(x), s)
  {
    if s != [] {
      CountDisjoint(p, q, s[1..]);
    }
  }

  /** `xs.reduce((sum, x) => sum + x, 0)`. */
  function Sum(xs: seq<real>): real
  {
    if xs == [] then 0.0 else xs[0] + Sum(xs[1..])
  }

  lemma {:induction false} SumAppend(a: seq<real>, b: seq<real>)
    ensures Sum(a + b) == Sum(a) + Sum(b)
  {
    if a == [] {
      assert a + b == b;
    } else {
      assert (a + b)[1..] == a[1..] + b;
      SumAppend(a[1..], b);
    }
  }

  /** A sum of values in `[lo, hi]` lies in `[|xs| * lo, |xs| * hi]`. */
  lemma {:induction false} SumBounds(xs: seq<real>, lo: real, hi: real)
    requires forall k :: 0 <= k < |xs| ==> lo <= xs[k] <= hi
    ensures |xs| as real * lo <= Sum(xs) <= |xs| as real * hi
  {
    if xs != [] {
      SumBounds(xs[1..], lo, hi);
    }
  }

  /** No element occurs twice. */
  predicate Distinct<T(==)>(s: seq<T>)
  {
    forall i, j :: 0 <= i < j < |s| ==> s[i] != s[j]
  }
}
