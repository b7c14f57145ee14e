/**
 * The destination side as the migration sees it: issue keys of the form
 * `SER-<n>`, the set of issues that exist, the reply to a create request, and
 * the workflow transitions offered for a new issue.
 */
module Jira {
  import opened Js
  import opened Mappers

  /** The project every migrated issue is created in. */
  const ProjectKey: string := "SER"

  /** The issue type every migrated issue gets. */
  const IssueType: string := "Task"

  /** The site the issues are browsed on. */
  const Site: string := "forgeappdevdemo.atlassian.net"

  /** The prefix of the browse link reported for an issue key. */
  const BrowseBase: string := "https://" + Site + "/browse/"

  function Digit(d: nat): (c: char)
    requires d < 10
    ensures '0' <= c <= '9'
  {
    ('0' as int + d) as char
  }

  /** The decimal numeral of `n`, without leading zeros. */
  function Decimal(n: nat): (s: string)
    ensures |s| >= 1
    ensures |s| == 1 <==> n < 10
  {
    if n < 10 then [Digit(n)] else Decimal(n / 10) + [Digit(n % 10)]
  }

  /** Different numbers have different numerals. */
  lemma {:induction false} DecimalDistinct(a: nat, b: nat)
    requires a != b
    ensures Decimal(a) != Decimal(b)
  {
    var sa, sb := Decimal(a), Decimal(b);
    if a < 10 && b < 10 {
      assert sa[0] != sb[0];
    } else if a >= 10 && b >= 10 {
      if a % 10 != b % 10 {
        assert sa[|sa| - 1] != sb[|sb| - 1];
      } else {
        DecimalDistinct(a / 10, b / 10);
        assert sa[..|sa| - 1] == Decimal(a / 10);
        assert sb[..|sb| - 1] == Decimal(b / 10);
      }
    }
  }

  /** The key of issue number `n` in the project. */
  function KeyOf(n: nat): (k: string)
    ensures |k| > |ProjectKey| + 1
    ensures k[..|ProjectKey| + 1] == ProjectKey + "-" && k[|ProjectKey| + 1..] == Decimal(n)
  {
    ProjectKey + "-" + Decimal(n)
  }

  /** Different issue numbers have different keys. */
  lemma KeyOfDistinct(a: nat, b: nat)
    requires a != b
    ensures KeyOf(a) != KeyOf(b)
  {
    DecimalDistinct(a, b);
    assert KeyOf(a)[4..] == Decimal(a);
    assert KeyOf(b)[4..] == Decimal(b);
  }

  /** The fields of a created issue. */
  datatype Fields = Fields(
    project: string,
    summary: string,
    description: Document,
    issueType: string,
    priority: string)

  /** Some issue among `issues` has the key `key`. */
  predicate IssueExists(issues: map<nat, Fields>, key: string)
  {
    exists n :: n in issues && KeyOf(n) == key
  }

  /** When every issue number is below `next`, the key of `next` is not in use. */
  lemma NextKeyIsFresh(issues: map<nat, Fields>, next: nat)
    requires forall n :: n in issues ==> n < next
    ensures !IssueExists(issues, KeyOf(next))
  {
    forall n | n in issues
      ensures KeyOf(n) != KeyOf(next)
    {
      KeyOfDistinct(n, next);
    }
  }

  /** The reply to a create request: accepted, or rejected with its error payload. */
  datatype CreateReply =
    | Accepted
    | Rejected(errorMessages: Option<seq<string>>, errors: string)

  /** The target state of a transition; its name may be missing. */
  datatype Target = Target(name: Option<string>)

  /** A workflow transition: its id and, when present, its target state. */
  datatype Transition = Transition(id: string, to: Option<Target>)

  /** The reply to listing a new issue's transitions. */
  datatype TransitionList = Listed(transitions: seq<Transition>) | Unavailable

  /**
   * Everything the destination answers while one record is migrated: whether
   * reading the mapped issue answers normally (`false` when the read fails for a
   * reason other than the issue being gone, such as a missing permission or a
   * server error), the create reply, the transition list, and whether executing
   * the chosen transition succeeds.
   */
  datatype Replies = Replies(readOk: bool, create: CreateReply, transitions: TransitionList, transitionOk: bool)

  /** The transition leads to a state whose name equals `target`, ignoring case. */
  predicate Hits(t: Transition, target: string)
  {
    t.to.Some? && t.to.value.name.Some? && ToLower(t.to.value.name.value) == ToLower(target)
  }

  /** The transition has a target without a name: lower-casing the missing name throws. */
  predicate Breaks(t: Transition)
  {
    t.to.Some? && t.to.value.name.None?
  }

  /** The search moves past this transition. */
  predicate Passes(t: Transition, target: string)
  {
    !Hits(t, target) && !Breaks(t)
  }

  /** What searching the transitions gives: a match, nothing, or a thrown error. */
  datatype Search = Match(id: string) | NoMatch | Fault

  /** The position of the first transition the search stops at, or `|ts|` when it stops at none. */
  function FirstStop(ts: seq<Transition>, target: string): (n: nat)
    ensures n <= |ts|
    ensures forall j :: 0 <= j < n ==> Passes(ts[j], target)
    ensures n == |ts| || !Passes(ts[n], target)
  {
    if ts == [] || !Passes(ts[0], target) then 0 else 1 + FirstStop(ts[1..], target)
  }

  /** Any position the search would stop at, with every earlier transition passed, is the first stop. */
  lemma FirstStopIs(ts: seq<Transition>, target: string, n: nat)
    requires n <= |ts|
    requires forall j :: 0 <= j < n ==> Passes(ts[j], target)
    requires n == |ts| || !Passes(ts[n], target)
    ensures FirstStop(ts, target) == n
  {
  }

  /** A transition to `target` with every earlier one passed is where the search stops. */
  lemma FirstMatchIsFirstStop(ts: seq<Transition>, target: string)
    ensures forall i :: 0 <= i < |ts| && Hits(ts[i], target) && (forall j :: 0 <= j < i ==> Passes(ts[j], target))
                        ==> FirstStop(ts, target) == i
  {
    forall i | 0 <= i < |ts| && Hits(ts[i], target) && (forall j :: 0 <= j < i ==> Passes(ts[j], target))
      ensures FirstStop(ts, target) == i
    {
      FirstStopIs(ts, target, i);
    }
  }

  /**
   * `transitions.find(...)`: scanning in order, the first transition to `target`,
   * unless a transition with a nameless target comes first and makes the scan throw.
   */
  function FindTransition(ts: seq<Transition>, target: string): (f: Search)
    ensures f == NoMatch <==> forall i :: 0 <= i < |ts| ==> Passes(ts[i], target)
    ensures f.Match? ==> exists i :: 0 <= i < |ts| && Hits(ts[i], target) && ts[i].id == f.id
                                     && forall j :: 0 <= j < i ==> Passes(ts[j], target)
    ensures f.Match? <== exists i :: 0 <= i < |ts| && Hits(ts[i], target)
                                     && forall j :: 0 <= j < i ==> Passes(ts[j], target)
    ensures f == Fault ==> exists i :: 0 <= i < |ts| && Breaks(ts[i])
                                       && forall j :: 0 <= j < i ==> Passes(ts[j], target)
  {
    var n := FirstStop(ts, target);
    FirstMatchIsFirstStop(ts, target);
    if n == |ts| then NoMatch
    else if Breaks(ts[n]) then Fault
    else Match(ts[n].id)
  }

  /**
   * The destination's issues. `next` is the number the next created issue gets;
   * every existing issue has a smaller one. Deleting issues happens outside
   * the migration, so no method here does it.
   */
  class Destination {
    var issues: map<nat, Fields>
    var next: nat

    ghost predicate Valid()
      reads this
    {
      forall n :: n in issues ==> n < next
    }

    constructor ()
      ensures Valid() && issues == map[] && next == 1
    {
      issues := map[];
      next := 1;
    }

    /**
     * Reading an issue by key answers ok exactly when the issue exists and the
     * read itself did not fail (`answered`).
     */
    method GetIssue(key: string, answered: bool) returns (ok: bool)
      ensures ok <==> answered && IssueExists(issues, key)
    {
      ok := answered && exists n :: n in issues && KeyOf(n) == key;
    }

    /**
     * A create request: when accepted the issue is stored under the next number
     * and its key, unused until now, is returned; when rejected nothing changes.
     */
    method CreateIssue(fields: Fields, reply: CreateReply) returns (key: Option<string>)
      requires Valid()
      modifies this
      ensures Valid()
      ensures key.None? <==> reply.Rejected?
      ensures reply.Accepted? ==> key == Some(KeyOf(old(next))) && !IssueExists(old(issues), key.value)
      ensures reply.Accepted? ==> issues == old(issues)[old(next) := fields] && next == old(next) + 1
      ensures reply.Rejected? ==> issues == old(issues) && next == old(next)
    {
      if reply.Accepted? {
        NextKeyIsFresh(issues, next);
        key := Some(KeyOf(next));
        issues := issues[next := fields];
        next := next + 1;
      } else {
        key := None;
      }
    }
  }
}
