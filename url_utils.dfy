/** Username resolution (src/url_utils.py): a username taken directly, or read from a
    profile URL of the form `http[s]://<host containing etoro.com>/people/<username>[/...]`.
    Each `raise ValueError(...)` becomes an `Err` carrying one `UsernameError`. */
module UrlUtils {
  import opened Wrappers
  import opened Strings

  datatype UsernameError =
    | UrlEmpty
    | InvalidIPv6Url
    | NotEtoroUrl
    | NotPeopleUrl
    | BadPeopleUrl
    | BadUrlUsername
    | UsernameEmpty
    | BadUsername
  {
    /** The text of the ValueError. */
    function Message(): string {
      match this
      case UrlEmpty => "URL cannot be empty"
      case InvalidIPv6Url => "Invalid IPv6 URL"
      case NotEtoroUrl => "Invalid eToro URL"
      case NotPeopleUrl => "URL must be an eToro people profile URL"
      case BadPeopleUrl => "Invalid people URL format"
      case BadUrlUsername => "Invalid username format"
      case UsernameEmpty => "Username cannot be empty"
      case BadUsername => "Invalid username format (only alphanumeric, underscore, dash allowed)"
    }
  }

  // ---------------------------------------------------------------------------
  // the username pattern ^[a-zA-Z0-9_-]+$

  predicate IsUsernameChar(c: char) {
    IsAsciiLetter(c) || IsAsciiDigit(c) || c == '_' || c == '-'
  }

  predicate AllUsernameChars(s: string) {
    forall i | 0 <= i < |s| :: IsUsernameChar(s[i])
  }

  /** A username as the specification means it: non-empty, letters, digits, `_` and `-` only. */
  predicate IsUsername(s: string) {
    s != [] && AllUsernameChars(s)
  }

  /** `re.match(r'^[a-zA-Z0-9_-]+$', s)`. Python's `$` also matches just before a final "\n",
      so one trailing newline is admitted. */
  predicate MatchesUsernamePattern(s: string) {
    || IsUsername(s)
    || (|s| >= 2 && s[|s| - 1] == '\n' && IsUsername(s[..|s| - 1]))
  }

  /** Without a newline in it, a string matches the pattern exactly when it is a username. */
  lemma PatternWithoutNewline(s: string)
    requires '\n' !in s
    ensures MatchesUsernamePattern(s) <==> IsUsername(s)
  {
    if |s| >= 2 {
      assert s[|s| - 1] in s;
    }
  }

  // ---------------------------------------------------------------------------
  // urlparse, reduced to what the extractor reads: scheme, netloc and path

  datatype ParsedUrl = ParsedUrl(scheme: string, netloc: string, path: string)

  /** The characters urlsplit strips from the front of a URL (C0 controls and space). */
  predicate IsC0OrSpace(c: char) { c <= ' ' }

  predicate IsSchemeChar(c: char) {
    IsAsciiLetter(c) || IsAsciiDigit(c) || c == '+' || c == '-' || c == '.'
  }

  predicate IsNetlocDelimiter(c: char) { c == '/' || c == '?' || c == '#' }

  /** The schemes for which urlparse splits `;params` off the path. */
  const UsesParams: seq<string> :=
    ["", "ftp", "hdl", "prospero", "http", "imap", "https", "shttp", "rtsp", "rtsps", "rtspu",
     "sip", "sips", "mms", "sftp", "tel"]

  /** The URL with leading C0 controls and spaces stripped and every tab, CR and LF removed. */
  function Sanitize(url: string): (r: string)
    ensures '\n' !in r
  {
    RemoveChar(RemoveChar(RemoveChar(TrimStart(url, IsC0OrSpace), '\t'), '\r'), '\n')
  }

  /** The scheme (lower-cased) and what follows its colon, or no scheme and the whole URL. */
  function SplitScheme(url: string): (r: (string, string))
    ensures forall x | x in r.1 :: x in url
  {
    match IndexOf(url, ':')
    case Some(i) =>
      if i > 0 && IsAsciiLetter(url[0]) && forall k | 0 <= k < i :: IsSchemeChar(url[k])
      then
        assert forall x | x in url[i + 1..] :: x in url;
        (Lower(url[..i]), url[i + 1..])
      else ("", url)
    case None => ("", url)
  }

  /** After `//`, the network location and the rest; otherwise no network location. */
  function SplitNetloc(s: string): (r: (string, string))
    ensures forall i | 0 <= i < |r.0| :: !IsNetlocDelimiter(r.0[i])
    ensures forall x | x in r.1 :: x in s
  {
    if StartsWith(s, "//") then
      var t := s[2..];
      var e := NetlocEnd(t);
      assert forall x | x in t[e..] :: x in s;
      (t[..e], t[e..])
    else ("", s)
  }

  /** Where the network location ends: the first `/`, `?` or `#`, or the end. */
  function NetlocEnd(s: string): (i: nat)
    ensures i <= |s| && (i < |s| ==> IsNetlocDelimiter(s[i]))
    ensures forall k | 0 <= k < i :: !IsNetlocDelimiter(s[k])
  {
    if s == [] || IsNetlocDelimiter(s[0]) then 0 else 1 + NetlocEnd(s[1..])
  }

  /** What precedes the first `c`, or all of `s`. */
  function Before(s: string, c: char): (r: string)
    ensures c !in r && StartsWith(s, r)
  {
    match IndexOf(s, c)
    case Some(i) => s[..i]
    case None => s
  }

  /** The index of the last `c` in `s`. */
  function LastIndexOf(s: string, c: char): (r: Option<nat>)
    ensures r.Some? ==> r.value < |s| && s[r.value] == c && c !in s[r.value + 1..]
    ensures r.None? ==> c !in s
  {
    if s == [] then None
    else if s[|s| - 1] == c then Some(|s| - 1)
    else
      assert s == s[..|s| - 1] + [s[|s| - 1]];
      LastIndexOf(s[..|s| - 1], c)
  }

  /** The path that `_splitparams` keeps: what precedes the first `;` after the last `/`. */
  function PathBeforeParams(url: string): (r: string)
    ensures StartsWith(url, r)
  {
    match LastIndexOf(url, '/')
    case Some(j) =>
      (match IndexOf(url[j..], ';')
       case Some(i) => url[..j + i]
       case None => url)
    case None => Before(url, ';')
  }

  /** `urlparse(url)`, keeping scheme, netloc and path. */
  function UrlParse(url: string): (r: Result<ParsedUrl, UsernameError>)
    ensures r.Err? ==> r.error == InvalidIPv6Url
    ensures r.Ok? ==> forall i | 0 <= i < |r.value.netloc| :: !IsNetlocDelimiter(r.value.netloc[i])
    ensures r.Ok? ==> '\n' !in r.value.path && '?' !in r.value.path && '#' !in r.value.path
  {
    var u := Sanitize(url);
    var (scheme, afterScheme) := SplitScheme(u);
    var (netloc, rest) := SplitNetloc(afterScheme);
    if ('[' in netloc) != (']' in netloc) then Err(InvalidIPv6Url)
    else Ok(ParsedUrl(scheme, netloc, PathOf(scheme, rest)))
  }

  /** The path: what follows the network location, cut at the fragment, the query and, for the
      schemes that have them, the `;` parameters of its last segment. */
  function PathOf(scheme: string, rest: string): (r: string)
    ensures forall x | x in r :: x in rest
    ensures '?' !in r && '#' !in r
  {
    var path := Before(Before(rest, '#'), '?');
    assert forall x | x in path :: x in rest;
    if scheme in UsesParams && ';' in path then
      var kept := PathBeforeParams(path);
      assert forall x | x in kept :: x in path;
      kept
    else path
  }

  // ---------------------------------------------------------------------------
  // the two validators

  predicate IsSlash(c: char) { c == '/' }

  /** `extract_username_from_url(url)`; `None` stands for Python's `None`. */
  function ExtractUsernameFromUrl(url: Option<string>): (r: Result<string, UsernameError>)
    ensures r == Err(UrlEmpty) <==> url.None? || url.value == ""
    ensures r.Ok? ==> IsUsername(r.value)
  {
    if url.None? || url.value == "" then Err(UrlEmpty)
    else match UrlParse(url.value)
      case Err(e) => Err(e)
      case Ok(parsed) => UsernameFromParsed(parsed)
  }

  /** The checks on a parsed URL: an http(s) eToro host, then a people path. */
  function UsernameFromParsed(parsed: ParsedUrl): (r: Result<string, UsernameError>)
    ensures r.Err? ==> r.error in {NotEtoroUrl, NotPeopleUrl, BadPeopleUrl, BadUrlUsername}
    ensures r == Err(NotEtoroUrl) <==> parsed.scheme !in ["http", "https"] || !Contains(parsed.netloc, "etoro.com")
    ensures r.Ok? ==> MatchesUsernamePattern(r.value) && forall x | x in r.value :: x in parsed.path
    ensures r.Ok? && '\n' !in parsed.path ==> IsUsername(r.value)
  {
    if parsed.scheme !in ["http", "https"] || !Contains(parsed.netloc, "etoro.com") then Err(NotEtoroUrl)
    else
      var r := UsernameFromPath(Trim(parsed.path, IsSlash));
      if r.Ok? && '\n' !in parsed.path then
        assert '\n' !in r.value;
        PatternWithoutNewline(r.value);
        r
      else r
  }

  /** The checks on the path stripped of its slashes: `people/<username>[/...]`. */
  function UsernameFromPath(path: string): (r: Result<string, UsernameError>)
    ensures r.Err? ==> r.error in {NotPeopleUrl, BadPeopleUrl, BadUrlUsername}
    ensures r == Err(NotPeopleUrl) <==> !StartsWith(path, "people/")
    ensures r.Ok? ==> MatchesUsernamePattern(r.value) && forall x | x in r.value :: x in path
  {
    if !StartsWith(path, "people/") then Err(NotPeopleUrl)
    else
      var parts := Split(path, '/');
      if |parts| < 2 || parts[0] != "people" then Err(BadPeopleUrl)
      else if !MatchesUsernamePattern(parts[1]) then Err(BadUrlUsername)
      else Ok(parts[1])
  }

  /** `validate_username(username)` as written: it accepts what `re.match` accepts, which
      includes a valid username followed by one newline. */
  function ValidateUsername(username: Option<string>): (r: Result<string, UsernameError>)
    ensures r.Ok? <==> username.Some? && MatchesUsernamePattern(username.value)
    ensures r.Ok? ==> r.value == username.value
    ensures r.Err? ==> r.error == (if username.None? || username.value == "" then UsernameEmpty else BadUsername)
  {
    if username.None? || username.value == "" then Err(UsernameEmpty)
    else if MatchesUsernamePattern(username.value) then Ok(username.value)
    else Err(BadUsername)
  }

  /** `validate_username` lets a newline through, against its own message. */
  lemma ValidateUsernameAcceptsNewline()
    ensures ValidateUsername(Some("user\n")) == Ok("user\n")
    ensures !IsUsername("user\n")
  {
    assert "user\n"[..4] == "user";
    assert !IsUsernameChar("user\n"[4]);
  }

  /** `validate_username` as its message describes it: letters, digits, `_` and `-` only. */
  function ValidateUsernameStrict(username: Option<string>): (r: Result<string, UsernameError>)
    ensures r.Ok? <==> username.Some? && IsUsername(username.value)
    ensures r.Ok? ==> r.value == username.value
    ensures r.Err? ==> r.error == (if username.None? || username.value == "" then UsernameEmpty else BadUsername)
  {
    if username.None? || username.value == "" then Err(UsernameEmpty)
    else if IsUsername(username.value) then Ok(username.value)
    else Err(BadUsername)
  }

  /** The two agree on every username without a newline. */
  lemma StrictAgreesWithoutNewline(username: string)
    requires '\n' !in username
    ensures ValidateUsernameStrict(Some(username)) == ValidateUsername(Some(username))
  {
    PatternWithoutNewline(username);
  }

  // ---------------------------------------------------------------------------
  // properties

  /** A stripped path that starts with `people/` always splits into at least two pieces, the
      first being `people`: the "Invalid people URL format" branch cannot be taken. */
  lemma PeoplePathSplits(path: string)
    requires StartsWith(path, "people/")
    ensures var parts := Split(path, '/'); |parts| >= 2 && parts[0] == "people"
  {
    assert path == "people" + ['/'] + path[7..];
    IndexOfAfterFree("people", '/', path[7..]);
  }

  /** `extract_username_from_url` never reports "Invalid people URL format". */
  lemma BadPeopleUrlUnreachable(url: Option<string>)
    ensures ExtractUsernameFromUrl(url) != Err(BadPeopleUrl)
  {
    if url.Some? && url.value != "" && UrlParse(url.value).Ok? {
      ParsedNeverBadPeople(UrlParse(url.value).value);
    }
  }

  lemma ParsedNeverBadPeople(parsed: ParsedUrl)
    ensures UsernameFromParsed(parsed) != Err(BadPeopleUrl)
  {
    PathNeverBadPeople(Trim(parsed.path, IsSlash));
  }

  lemma PathNeverBadPeople(path: string)
    ensures UsernameFromPath(path) != Err(BadPeopleUrl)
  {
    if StartsWith(path, "people/") {
      PeoplePathSplits(path);
    }
  }

  /** A host name as it may appear in an absolute URL without any effect on the parse. */
  predicate PlainHost(host: string) {
    && (forall i | 0 <= i < |host| :: !IsNetlocDelimiter(host[i]))
    && '[' !in host && ']' !in host
    && '\t' !in host && '\r' !in host && '\n' !in host
  }

  /** A path segment that neither ends the path nor is removed by the parse. */
  predicate PlainSegment(s: string) {
    && '/' !in s && '?' !in s && '#' !in s && ';' !in s
    && '\t' !in s && '\r' !in s && '\n' !in s
  }

  /** A path free of query, fragment, parameters and removed characters. */
  predicate PlainPath(s: string) {
    '?' !in s && '#' !in s && ';' !in s && '\t' !in s && '\r' !in s && '\n' !in s
  }

  /** A URL that starts with a visible character and holds no tab, CR or LF is left as it is. */
  lemma SanitizeKeeps(url: string)
    requires url != [] && !IsC0OrSpace(url[0])
    requires '\t' !in url && '\r' !in url && '\n' !in url
    ensures Sanitize(url) == url
  {
    RemoveCharAbsent(url, '\t');
    RemoveCharAbsent(url, '\r');
    RemoveCharAbsent(url, '\n');
  }

  /** `http:` and `https:` are read as the scheme. */
  lemma SplitHttpScheme(scheme: string, after: string)
    requires scheme == "http" || scheme == "https"
    ensures SplitScheme(scheme + ":" + after) == (scheme, after)
  {
    var url := scheme + ":" + after;
    assert forall k | 0 <= k < |scheme| :: 'a' <= scheme[k] <= 'z';
    IndexOfAfterFree(scheme, ':', after);
    assert forall k | 0 <= k < |scheme| :: url[k] == scheme[k];
    assert url[..|scheme|] == scheme;
    assert url[|scheme| + 1..] == after;
    assert Lower(scheme) == scheme;
  }

  /** `//<host><path>` is read as the network location `host` and the rest `path`. */
  lemma SplitPlainNetloc(host: string, path: string)
    requires forall i | 0 <= i < |host| :: !IsNetlocDelimiter(host[i])
    requires path != [] && path[0] == '/'
    ensures SplitNetloc("//" + host + path) == (host, path)
  {
    var t := host + path;
    assert ("//" + host + path)[2..] == t;
    assert forall i | 0 <= i < |host| :: t[i] == host[i];
    assert t[|host|] == '/';
  }

  /** `UrlParse` read off its stages. */
  lemma UrlParseStages(url: string, scheme: string, after: string, netloc: string, rest: string)
    requires SplitScheme(Sanitize(url)) == (scheme, after)
    requires SplitNetloc(after) == (netloc, rest)
    requires '[' !in netloc && ']' !in netloc
    ensures UrlParse(url) == Ok(ParsedUrl(scheme, netloc, PathOf(scheme, rest)))
  {
  }

  /** An `http` or `https` URL with a plain host and path parses into exactly those parts. */
  lemma ParseHttpUrl(url: string, scheme: string, host: string, path: string)
    requires url == scheme + "://" + host + path
    requires scheme == "http" || scheme == "https"
    requires PlainHost(host)
    requires path != [] && path[0] == '/' && PlainPath(path)
    ensures UrlParse(url) == Ok(ParsedUrl(scheme, host, path))
  {
    ParseHttpUrlAfter(url, scheme, "//" + host + path, host, path);
  }

  lemma ParseHttpUrlAfter(url: string, scheme: string, after: string, host: string, path: string)
    requires after == "//" + host + path
    requires url == scheme + ":" + after
    requires scheme == "http" || scheme == "https"
    requires PlainHost(host)
    requires path != [] && path[0] == '/' && PlainPath(path)
    ensures UrlParse(url) == Ok(ParsedUrl(scheme, host, path))
  {
    HttpUrlSanitized(url, scheme, after, host, path);
    SplitHttpScheme(scheme, after);
    SplitPlainNetloc(host, path);
    PlainPathKept(scheme, path);
    UrlParseStages(url, scheme, after, host, path);
  }

  /** A plain `http(s)://host/path` URL is left as it is by the sanitising step. */
  lemma HttpUrlSanitized(url: string, scheme: string, after: string, host: string, path: string)
    requires after == "//" + host + path
    requires url == scheme + ":" + after
    requires scheme == "http" || scheme == "https"
    requires PlainHost(host) && PlainPath(path)
    ensures Sanitize(url) == url
  {
    assert url[0] == 'h';
    assert url == (scheme + "://") + host + path;
    assert forall c | c in scheme + "://" :: c in "htps:/";
    SanitizeKeeps(url);
  }

  /** A plain path is the parsed path, whatever the scheme. */
  lemma PlainPathKept(scheme: string, path: string)
    requires PlainPath(path)
    ensures PathOf(scheme, path) == path
  {
  }

  /** Something other than slashes follows `people/`: a name, or a later segment. */
  predicate LeavesSegment(name: string, tail: string) {
    name != [] || exists k | 0 <= k < |tail| :: tail[k] != '/'
  }

  /** Stripping the slashes of `/people/<name><tail>` removes the leading slash and at most
      the trailing slashes of `tail`. */
  lemma StripProfilePath(s: string, name: string, tail: string) returns (tail': string)
    requires s == "/people/" + name + tail
    requires '/' !in name && LeavesSegment(name, tail)
    requires tail == [] || tail[0] == '/'
    ensures Trim(s, IsSlash) == "people/" + name + tail'
    ensures tail' == [] || tail'[0] == '/'
  {
    if name != [] {
      assert name[|name| - 1] in name;
      tail' := StripAfterSegment(s, name, tail);
    } else {
      var k :| 0 <= k < |tail| && tail[k] != '/';
      assert s == ['/'] + "people/" + tail;
      tail' := StripEmptyName(s, "people/", tail, k);
    }
  }

  /** With no name, `/<lead><tail>` strips to `lead` and a cut of `tail` that still begins
      with its slash, as long as `tail` holds something other than slashes. */
  lemma StripEmptyName(s: string, lead: string, tail: string, k: nat) returns (tail': string)
    requires s == ['/'] + lead + tail && lead != [] && lead[0] != '/'
    requires k < |tail| && tail[k] != '/' && tail[0] == '/'
    ensures Trim(s, IsSlash) == lead + tail'
    ensures tail' != [] && tail'[0] == '/'
  {
    var rest := TrimKeepsThrough('/', lead, tail, k, IsSlash);
    tail' := tail[..k + 1] + rest;
    assert lead + tail[..k + 1] + rest == lead + tail';
  }

  /** The common step: once `people/<seg>` ends with a character other than a slash, stripping
      keeps it whole. */
  lemma StripAfterSegment(s: string, seg: string, tail: string) returns (tail': string)
    requires s == "/people/" + seg + tail
    requires seg != [] && seg[|seg| - 1] != '/'
    ensures Trim(s, IsSlash) == "people/" + seg + tail'
    ensures tail' == [] || tail'[0] == tail[0]
  {
    var head := "people/" + seg;
    assert s == ['/'] + head + tail;
    assert head[0] == 'p' && head[|head| - 1] == seg[|seg| - 1];
    tail' := TrimAroundCore('/', head, tail, IsSlash);
  }

  /** The stripped path `people/<name><tail>` splits into `people`, then `name`. */
  lemma SplitProfilePath(path: string, name: string, tail: string)
    requires path == "people/" + name + tail
    requires '/' !in name
    requires tail == [] || tail[0] == '/'
    ensures var parts := Split(path, '/'); |parts| >= 2 && parts[0] == "people" && parts[1] == name
  {
    assert path == "people" + ['/'] + (name + tail);
    IndexOfAfterFree("people", '/', name + tail);
    assert path[7..] == name + tail;
    SplitFirstPiece(name, tail, '/');
  }

  /** A stripped path `people/<name><tail>` is judged by whether `name` matches the pattern. */
  lemma ProfilePathName(path: string, name: string, tail: string)
    requires path == "people/" + name + tail
    requires '/' !in name
    requires tail == [] || tail[0] == '/'
    ensures UsernameFromPath(path) == if MatchesUsernamePattern(name) then Ok(name) else Err(BadUrlUsername)
  {
    assert path[..7] == "people/";
    SplitProfilePath(path, name, tail);
  }

  /** The stripped path of `/people/<name><tail>` yields `name` if it is a valid username. */
  lemma NamedProfilePath(path: string, name: string, tail: string)
    requires path == "/people/" + name + tail
    requires PlainSegment(name) && LeavesSegment(name, tail)
    requires tail == [] || tail[0] == '/'
    ensures UsernameFromPath(Trim(path, IsSlash)) == if IsUsername(name) then Ok(name) else Err(BadUrlUsername)
  {
    var tail' := StripProfilePath(path, name, tail);
    ProfilePathName(Trim(path, IsSlash), name, tail');
    PatternWithoutNewline(name);
  }

  /** A URL that parses with an http(s) scheme and an eToro host is judged by its path alone. */
  lemma AcceptedEtoroUrl(url: string, parsed: ParsedUrl, e: Result<string, UsernameError>)
    requires url != [] && UrlParse(url) == Ok(parsed)
    requires parsed.scheme == "http" || parsed.scheme == "https"
    requires Contains(parsed.netloc, "etoro.com")
    requires UsernameFromPath(Trim(parsed.path, IsSlash)) == e
    ensures ExtractUsernameFromUrl(Some(url)) == e
  {
  }

  /** For a profile URL `http[s]://<host>/people/<name><tail>` on a host containing `etoro.com`,
      the extractor returns `name` exactly when it is a valid username, and otherwise reports an
      invalid username format; an empty name (`/people//x`) is reported the same way. */
  lemma ProfileUrlYieldsName(url: string, scheme: string, host: string, name: string, tail: string)
    requires url == scheme + "://" + host + "/people/" + name + tail
    requires scheme == "http" || scheme == "https"
    requires PlainHost(host) && Contains(host, "etoro.com")
    requires PlainSegment(name) && LeavesSegment(name, tail)
    requires (tail == [] || tail[0] == '/') && PlainPath(tail)
    ensures ExtractUsernameFromUrl(Some(url)) == if IsUsername(name) then Ok(name) else Err(BadUrlUsername)
  {
    var path := "/people/" + name + tail;
    var parsed := ParsedUrl(scheme, host, path);
    ParseHttpUrl(url, scheme, host, path);
    var expected := if IsUsername(name) then Ok(name) else Err(BadUrlUsername);
    NamedProfilePath(path, name, tail);
    AcceptedEtoroUrl(url, parsed, expected);
  }

  /** On every URL that parses, the extractor refuses a non-http(s) scheme or a network location
      without `etoro.com` as an invalid eToro URL, and nothing else; past that check, it refuses
      a stripped path outside `people/` as not a profile URL, and nothing else. */
  lemma EtoroUrlChecks(url: string)
    requires url != [] && UrlParse(url).Ok?
    ensures var p := UrlParse(url).value;
            ExtractUsernameFromUrl(Some(url)) == Err(NotEtoroUrl)
            <==> p.scheme !in ["http", "https"] || !Contains(p.netloc, "etoro.com")
    ensures var p := UrlParse(url).value;
            p.scheme in ["http", "https"] && Contains(p.netloc, "etoro.com") ==>
              (ExtractUsernameFromUrl(Some(url)) == Err(NotPeopleUrl) <==> !StartsWith(Trim(p.path, IsSlash), "people/"))
  {
  }

  /** An http(s) URL whose host lacks `etoro.com` is refused, whatever its path. */
  lemma ForeignHostRefused(url: string, scheme: string, host: string, path: string)
    requires url == scheme + "://" + host + path
    requires scheme == "http" || scheme == "https"
    requires PlainHost(host) && !Contains(host, "etoro.com")
    requires path != [] && path[0] == '/' && PlainPath(path)
    ensures ExtractUsernameFromUrl(Some(url)) == Err(NotEtoroUrl)
  {
    ParseHttpUrl(url, scheme, host, path);
  }

  /** An http(s) URL on an eToro host whose stripped path is not under `people/` is refused. */
  lemma NonProfilePathRefused(url: string, scheme: string, host: string, path: string)
    requires url == scheme + "://" + host + path
    requires scheme == "http" || scheme == "https"
    requires PlainHost(host) && Contains(host, "etoro.com")
    requires path != [] && path[0] == '/' && PlainPath(path)
    requires !StartsWith(Trim(path, IsSlash), "people/")
    ensures ExtractUsernameFromUrl(Some(url)) == Err(NotPeopleUrl)
  {
    ParseHttpUrl(url, scheme, host, path);
    EtoroUrlChecks(url);
  }

  /** Lower-case letters and dots make a plain host; add slashes and they make a plain path. */
  lemma LowerWordsPlain(s: string, slashes: bool)
    requires forall i | 0 <= i < |s| :: 'a' <= s[i] <= 'z' || s[i] == '.' || (slashes && s[i] == '/')
    ensures PlainPath(s)
    ensures !slashes ==> PlainHost(s)
  {
  }

  /** `https://www.google.com/people/user` is refused: the host is not eToro's. */
  lemma GoogleUrlRefused(url: string)
    requires url == "https" + "://" + "www.google.com" + "/people/user"
    ensures ExtractUsernameFromUrl(Some(url)) == Err(NotEtoroUrl)
  {
    GoogleHost("www.google.com");
    PeopleUserPath("/people/user");
    ForeignHostRefused(url, "https", "www.google.com", "/people/user");
  }

  lemma GoogleHost(host: string)
    requires host == "www.google.com"
    ensures PlainHost(host) && !Contains(host, "etoro.com")
  {
    LowerWordsPlain(host, false);
    NotContainsMissingChar(host, "etoro.com", 1);
  }

  lemma PeopleUserPath(path: string)
    requires path == "/people/user"
    ensures path[0] == '/' && PlainPath(path)
  {
    LowerWordsPlain(path, true);
  }

  /** `https://www.etoro.com/invest` is refused: the page is not a people profile. */
  lemma InvestUrlRefused(url: string)
    requires url == "https" + "://" + "www.etoro.com" + "/invest"
    ensures ExtractUsernameFromUrl(Some(url)) == Err(NotPeopleUrl)
  {
    EtoroHost("www.etoro.com");
    InvestPath("/invest");
    NonProfilePathRefused(url, "https", "www.etoro.com", "/invest");
  }

  lemma EtoroHost(host: string)
    requires host == "www.etoro.com"
    ensures PlainHost(host) && Contains(host, "etoro.com")
  {
    LowerWordsPlain(host, false);
    assert host[4..4 + |"etoro.com"|] == "etoro.com";
    ContainsAt(host, "etoro.com", 4);
  }

  lemma InvestPath(path: string)
    requires path == "/invest"
    ensures PlainPath(path) && !StartsWith(Trim(path, IsSlash), "people/")
  {
    LowerWordsPlain(path, true);
    TrimStartOne(path, IsSlash);
    assert |Trim(path, IsSlash)| <= 6;
  }
}
