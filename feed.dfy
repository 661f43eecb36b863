/**
 * The repository fetcher: how the reply of the repository-listing endpoint is
 * classified into one status, and how a good listing is narrowed to the nine
 * most recently pushed public, non-fork repositories.
 */
module Feed {
  import opened Common
  import opened Status

  /** At most this many repositories are shown. */
  const MaxProjects: nat := 9

  /**
   * A field of the listing whose absence and null value print differently
   * when interpolated into a template: `undefined` and `null`.
   */
  datatype UrlField = Absent | Null | Url(value: string)

  /**
   * One repository mapping of the listing. The three text fields are `None`
   * when the field is absent or null, which `||` treats alike. `fork` is
   * `Some(b)` only when the field holds a boolean. The timestamps are
   * already parsed, and they are `None` when the field is absent, null or
   * empty.
   */
  datatype Repo = Repo(
    name: Option<string>,
    description: Option<string>,
    language: Option<string>,
    htmlUrl: UrlField,
    fork: Option<bool>,
    pushedAt: Option<int>,
    updatedAt: Option<int>)

  /** The decoded body of a successful reply; an entry that is null or not an object is `None`. */
  datatype Body =
    | Unparseable
    | NotArray
    | Array(entries: seq<Option<Repo>>)

  /** What the request produced: a transport failure, or a reply with its ok flag, status code and body. */
  datatype Response =
    | TransportFailure
    | Received(ok: bool, code: nat, body: Body)


  /** The repositories a fetch returns together with the one status it sets. */
  datatype FetchResult = FetchResult(status: FeedStatus, repos: seq<Repo>)


  // ---------------------------------------------------------------------------
  // Selecting the projects of a good listing

  /** The filter test: the entry is an object whose `fork` is exactly `false`. */
  predicate IsKept(e: Option<Repo>) {
    e.Some? && e.value.fork == Some(false)
  }

  /** The recency a repository is ranked by: pushed, else updated, else the epoch. */
  function Time(r: Repo): int {
    if r.pushedAt.Some? then r.pushedAt.value
    else if r.updatedAt.Some? then r.updatedAt.value
    else 0
  }

  /** The fallback order of the ranking time: the push time, then the update time, then the epoch. */
  lemma TimeFallback(r: Repo)
    ensures r.pushedAt.Some? ==> Time(r) == r.pushedAt.value
    ensures r.pushedAt.None? && r.updatedAt.Some? ==> Time(r) == r.updatedAt.value
    ensures r.pushedAt.None? && r.updatedAt.None? ==> Time(r) == 0
  {
  }

  predicate SortedByRecency(s: seq<Repo>) {
    forall i, j :: 0 <= i < j < |s| ==> Time(s[i]) >= Time(s[j])
  }

  /** The non-fork repositories of a listing, in listing order. */
  function NonForks(entries: seq<Option<Repo>>): (r: seq<Repo>)
    ensures forall k :: 0 <= k < |r| ==> r[k].fork == Some(false)
    ensures forall x :: multiset(r)[x] == if x.fork == Some(false) then multiset(entries)[Some(x)] else 0
  {
    if entries == [] then []
    else
      assert entries == [entries[0]] + entries[1..];
      var rest := NonForks(entries[1..]);
      if IsKept(entries[0]) then [entries[0].value] + rest else rest
  }

  /** Inserts `x` before the first entry that is not newer than it. */
  function Insert(x: Repo, s: seq<Repo>): (r: seq<Repo>)
    ensures multiset(r) == multiset(s) + multiset{x}
    ensures |r| == |s| + 1
  {
    if s == [] then [x]
    else if Time(x) >= Time(s[0]) then [x] + s
    else
      assert s == [s[0]] + s[1..];
      [s[0]] + Insert(x, s[1..])
  }

  /** Every entry of `s` is no newer than `time`. */
  predicate NoNewerThan(s: seq<Repo>, time: int) {
    forall k :: 0 <= k < |s| ==> Time(s[k]) <= time
  }

  /** Inserting an entry no newer than a bound keeps every entry within it. */
  lemma {:induction false} InsertNoNewer(x: Repo, s: seq<Repo>, time: int)
    requires Time(x) <= time && NoNewerThan(s, time)
    ensures NoNewerThan(Insert(x, s), time)
  {
    if s != [] && Time(x) < Time(s[0]) {
      InsertNoNewer(x, s[1..], time);
    }
  }

  /** Inserting into a recency-sorted list keeps it sorted. */
  lemma {:induction false} InsertSorted(x: Repo, s: seq<Repo>)
    requires SortedByRecency(s)
    ensures SortedByRecency(Insert(x, s))
  {
    if s != [] && Time(x) < Time(s[0]) {
      var tail := s[1..];
      InsertSorted(x, tail);
      InsertNoNewer(x, tail, Time(s[0]));
      var t := Insert(x, tail);
      var r := [s[0]] + t;
      assert Insert(x, s) == r;
      forall i, j | 0 <= i < j < |r| ensures Time(r[i]) >= Time(r[j]) {
        assert r[j] == t[j - 1];
        if i > 0 {
          assert r[i] == t[i - 1];
        }
      }
    }
  }

  /**
   * The listing sorted newest first. Equal timestamps keep their listing
   * order, as the stable `Array.prototype.sort` does.
   */
  function SortByRecency(s: seq<Repo>): (r: seq<Repo>)
    ensures SortedByRecency(r)
    ensures multiset(r) == multiset(s)
    ensures |r| == |s|
  {
    if s == [] then []
    else
      assert s == [s[0]] + s[1..];
      var rest := SortByRecency(s[1..]);
      InsertSorted(s[0], rest);
      Insert(s[0], rest)
  }

  /** A sorted list's first `k` entries are at least as recent as all the others. */
  lemma PrefixIsMostRecent(s: seq<Repo>, k: nat, x: Repo, y: Repo)
    requires SortedByRecency(s) && k <= |s|
    requires x in s[..k] && y in multiset(s) - multiset(s[..k])
    ensures Time(y) <= Time(x)
  {
    assert s == s[..k] + s[k..];
    assert multiset(s) == multiset(s[..k]) + multiset(s[k..]);
    assert y in s[k..];
  }

  /** The facts about a prefix of a sorted list that the selection relies on. */
  lemma TopOfSorted(sorted: seq<Repo>, top: seq<Repo>, all: multiset<Repo>)
    requires SortedByRecency(sorted) && multiset(sorted) == all
    requires |top| <= |sorted| && top == sorted[..|top|]
    ensures SortedByRecency(top)
    ensures multiset(top) <= all
    ensures forall x, y :: x in top && y in all - multiset(top) ==> Time(y) <= Time(x)
  {
    assert sorted == top + sorted[|top|..];
    assert all == multiset(top) + multiset(sorted[|top|..]);
    forall x, y | x in top && y in all - multiset(top)
      ensures Time(y) <= Time(x)
    {
      PrefixIsMostRecent(sorted, |top|, x, y);
    }
  }

  /** Every repository drawn from the non-fork list is an entry of the listing. */
  lemma NonForksFromEntries(entries: seq<Option<Repo>>, top: seq<Repo>)
    requires multiset(top) <= multiset(NonForks(entries))
    ensures forall k :: 0 <= k < |top| ==> Some(top[k]) in entries
  {
    forall k | 0 <= k < |top| ensures Some(top[k]) in entries {
      assert top[k] in multiset(top);
      assert Some(top[k]) in multiset(entries);
    }
  }

  /**
   * The selection of a good listing: the nine most recent non-fork
   * repositories, newest first.
   */
  function SelectProjects(entries: seq<Option<Repo>>): (r: seq<Repo>)
    ensures forall k :: 0 <= k < |r| ==> r[k].fork == Some(false)
    ensures forall k :: 0 <= k < |r| ==> Some(r[k]) in entries
    ensures SortedByRecency(r)
    ensures |r| == Min(MaxProjects, |NonForks(entries)|)
    ensures multiset(r) <= multiset(NonForks(entries))
    ensures forall x, y :: x in r && y in multiset(NonForks(entries)) - multiset(r) ==> Time(y) <= Time(x)
  {
    var sorted := SortByRecency(NonForks(entries));
    var top := sorted[..Min(MaxProjects, |sorted|)];
    TopOfSorted(sorted, top, multiset(NonForks(entries)));
    NonForksFromEntries(entries, top);
    top
  }

  // ---------------------------------------------------------------------------
  // The fetch as a whole

  /** Sets exactly one status and returns the repositories to render. */
  function FetchGitHubRepos(resp: Response): (r: FetchResult)
    ensures r.status != Loading
    ensures r.status.IsError() ==> r.repos == []
    ensures r.status == Loaded <==> r.repos != []
    ensures !r.status.IsError() <==> resp.Received? && resp.ok && resp.body.Array?
    ensures resp.Received? && resp.ok && resp.body.Array? ==> r.repos == SelectProjects(resp.body.entries)
  {
    match resp
    case TransportFailure => FetchResult(NetworkError, [])
    case Received(ok, code, body) =>
      if !ok then
        if code == 404 then FetchResult(NotFound, [])
        else if code == 403 then FetchResult(RateLimited, [])
        else FetchResult(HttpError(code), [])
      else
        match body
        // A body that fails to decode rejects inside the same try block as the transport.
        case Unparseable => FetchResult(NetworkError, [])
        case NotArray => FetchResult(BadResponse, [])
        case Array(entries) =>
          var top := SelectProjects(entries);
          FetchResult(if |top| == 0 then NoProjects else Loaded, top)
  }

  /** How each kind of failed reply is classified; none of them yields repositories. */
  lemma FailureClassification(resp: Response)
    ensures resp.TransportFailure? ==> FetchGitHubRepos(resp) == FetchResult(NetworkError, [])
    ensures resp.Received? && !resp.ok && resp.code == 404 ==> FetchGitHubRepos(resp) == FetchResult(NotFound, [])
    ensures resp.Received? && !resp.ok && resp.code == 403 ==> FetchGitHubRepos(resp) == FetchResult(RateLimited, [])
    ensures resp.Received? && !resp.ok && resp.code != 404 && resp.code != 403
      ==> FetchGitHubRepos(resp) == FetchResult(HttpError(resp.code), [])
    ensures resp.Received? && resp.ok && resp.body.NotArray? ==> FetchGitHubRepos(resp) == FetchResult(BadResponse, [])
    ensures resp.Received? && resp.ok && resp.body.Unparseable?
      ==> FetchGitHubRepos(resp) == FetchResult(NetworkError, [])
  {
  }

  /** On a good listing the result is empty exactly when no entry is a non-fork object. */
  lemma GoodListingOutcome(entries: seq<Option<Repo>>, code: nat)
    ensures var r := FetchGitHubRepos(Received(true, code, Array(entries)));
      (r.status == NoProjects <==> forall k :: 0 <= k < |entries| ==> !IsKept(entries[k]))
      && (r.status == Loaded <==> exists k :: 0 <= k < |entries| && IsKept(entries[k]))
  {
    var nf := NonForks(entries);
    if exists k :: 0 <= k < |entries| && IsKept(entries[k]) {
      var k :| 0 <= k < |entries| && IsKept(entries[k]);
      var x := entries[k].value;
      assert Some(x) in multiset(entries);
      assert x in multiset(nf);
    }
  }

  /** A listing of one non-fork and one fork repository shows the non-fork one only. */
  lemma ForkIsDropped(a: Repo, b: Repo)
    requires a.fork == Some(false) && b.fork == Some(true)
    ensures FetchGitHubRepos(Received(true, 200, Array([Some(a), Some(b)]))) == FetchResult(Loaded, [a])
  {
    assert NonForks([Some(a), Some(b)]) == [a] by {
      assert [Some(a), Some(b)][1..] == [Some(b)];
      assert [Some(b)][1..] == [];
    }
  }
}
