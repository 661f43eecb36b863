/**
 * The status panel of the projects section: the states it can show and the
 * title and subtitle of each. The text is proved to identify the state, so
 * no two outcomes of a fetch look the same to a visitor.
 */
module Status {
  import opened Common

  /** The account whose repositories are listed; it appears in the not-found message. */
  const Username: string := "qassimAlsmadi"

  /** The status panel's state; each one is shown with its own title and subtitle. */
  datatype FeedStatus =
    | Loading
    | NotFound
    | RateLimited
    | HttpError(code: nat)
    | BadResponse
    | NetworkError
    | NoProjects
    | Loaded
  {
    predicate IsError() {
      NotFound? || RateLimited? || HttpError? || BadResponse? || NetworkError?
    }
  }

  datatype StatusText = StatusText(title: string, subtitle: string)

  // ---------------------------------------------------------------------------
  // Status codes as decimal text

  function DigitChar(d: nat): (c: char)
    requires d < 10
    ensures '0' <= c <= '9'
  {
    "0123456789"[d]
  }

  function DigitValue(c: char): nat {
    if '0' <= c <= '9' then (c - '0') as nat else 0
  }

  /** The decimal rendering of a status code, as a template literal prints it. */
  function Decimal(n: nat): (r: string)
    ensures |r| >= 1
    ensures forall k :: 0 <= k < |r| ==> '0' <= r[k] <= '9'
  {
    if n < 10 then [DigitChar(n)] else Decimal(n / 10) + [DigitChar(n % 10)]
  }

  /** Reads a string of decimal digits back as a number. */
  function DecimalValue(s: string): nat {
    if s == [] then 0 else DecimalValue(s[..|s| - 1]) * 10 + DigitValue(s[|s| - 1])
  }

  lemma {:induction false} DecimalRoundTrip(n: nat)
    ensures DecimalValue(Decimal(n)) == n
  {
    if n >= 10 {
      var s := Decimal(n);
      assert s[..|s| - 1] == Decimal(n / 10);
      DecimalRoundTrip(n / 10);
      assert DigitValue(DigitChar(n % 10)) == n % 10;
    } else {
      assert DigitValue(DigitChar(n)) == n;
    }
  }

  // ---------------------------------------------------------------------------
  // Status messages

  // The panel texts, as the page writes them.
  const LoadingTitle: string := "Fetching repositories…"
  const LoadingSubtitle: string := "Loading public, non-forked projects from GitHub."
  const NotFoundTitle: string := "GitHub user or repositories not found"
  const NotFoundSubtitle: string :=
    "GitHub returned 404. Verify the username \"" + Username + "\" and that you have public, non-fork repositories."
  const RateLimitedTitle: string := "GitHub API rate limit reached"
  const RateLimitedSubtitle: string := "Please refresh later or open the GitHub profile directly."
  const FailedTitle: string := "Could not load repositories"
  const BadResponseSubtitle: string := "Unexpected response from GitHub."
  const NetworkErrorTitle: string := "Network error"
  const NetworkErrorSubtitle: string := "Unable to reach GitHub. Check your connection and try again."
  const NoProjectsTitle: string := "No public non-fork repositories found"
  const NoProjectsSubtitle: string := "Visit GitHub for the latest activity."
  const LoadedTitle: string := "Latest projects"
  const LoadedSubtitle: string := "Up-to-date repositories loaded directly from GitHub."

  /**
   * The subtitle of an HTTP error. The status code sits between "(" and ")."
   * and reads back as the code, and the text differs from the subtitle of
   * the other error that shares its title.
   */
  function HttpErrorSubtitle(code: nat): (r: string)
    ensures |r| >= 28 && DecimalValue(r[26..|r| - 2]) == code
    ensures r != BadResponseSubtitle
  {
    var r := "GitHub returned an error (" + Decimal(code) + ").";
    assert r[26..|r| - 2] == Decimal(code);
    assert r[0] == 'G' && BadResponseSubtitle[0] == 'U';
    DecimalRoundTrip(code);
    r
  }

  /** The panel title of a status: the two failures of a good reply share one, every other status has its own. */
  function Title(s: FeedStatus): (t: string)
    ensures t == FailedTitle <==> s.HttpError? || s.BadResponse?
  {
    match s
    case Loading => LoadingTitle
    case NotFound => NotFoundTitle
    case RateLimited => RateLimitedTitle
    case HttpError(_) => FailedTitle
    case BadResponse => FailedTitle
    case NetworkError => NetworkErrorTitle
    case NoProjects => NoProjectsTitle
    case Loaded => LoadedTitle
  }

  /** The panel subtitle of a status; an HTTP error's names its status code. */
  function Subtitle(s: FeedStatus): (r: string)
    ensures s.HttpError? ==> |r| >= 28 && DecimalValue(r[26..|r| - 2]) == s.code
    ensures s.HttpError? || s.BadResponse? ==> (r == BadResponseSubtitle <==> s.BadResponse?)
  {
    match s
    case Loading => LoadingSubtitle
    case NotFound => NotFoundSubtitle
    case RateLimited => RateLimitedSubtitle
    case HttpError(code) => HttpErrorSubtitle(code)
    case BadResponse => BadResponseSubtitle
    case NetworkError => NetworkErrorSubtitle
    case NoProjects => NoProjectsSubtitle
    case Loaded => LoadedSubtitle
  }

  /**
   * The title and subtitle the panel shows for a status. The text identifies
   * the status: each outcome is told apart from every other, and an HTTP
   * error from every other code.
   */
  function Message(s: FeedStatus): (m: StatusText)
    ensures StatusOf(m) == Some(s)
  {
    StatusText(Title(s), Subtitle(s))
  }

  /**
   * Reads the status back from the text shown in the panel: by its title,
   * then, for the title two errors share, by its subtitle; an HTTP error's
   * code is read from the digits between "(" and ")." of its subtitle.
   */
  function StatusOf(m: StatusText): Option<FeedStatus> {
    var t, sub := m.title, m.subtitle;
    if t == LoadingTitle then Some(Loading)
    else if t == NotFoundTitle then Some(NotFound)
    else if t == RateLimitedTitle then Some(RateLimited)
    else if t == NetworkErrorTitle then Some(NetworkError)
    else if t == NoProjectsTitle then Some(NoProjects)
    else if t == LoadedTitle then Some(Loaded)
    else if t != FailedTitle then None
    else if sub == BadResponseSubtitle then Some(BadResponse)
    else if |sub| >= 28 then Some(HttpError(DecimalValue(sub[26..|sub| - 2])))
    else None
  }

  /** Different statuses never show the same text. */
  lemma MessageInjective(a: FeedStatus, b: FeedStatus)
    requires Message(a) == Message(b)
    ensures a == b
  {
  }
}
