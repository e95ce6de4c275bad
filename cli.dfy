/** The command-line entry point (main.py): the base directory, the username taken from
    `--user`, else from `--user-url`, else from `<base>/portfolio/person.txt`, and the download
    directory and profile page chosen for that person. The arguments, today's date and the files
    on disk are inputs; the printed lines are returned as a log. */
module Cli {
  import opened Wrappers
  import opened Strings
  import opened UrlUtils

  /** The parsed command line; an option not given is `None`. */
  datatype Args = Args(user: Option<string>, userUrl: Option<string>, baseDir: Option<string>)

  /** The files on disk: directories, and files with their contents. */
  datatype Disk = Disk(dirs: set<string>, files: map<string, string>) {
    /** `os.path.exists(p)`. */
    predicate Exists(p: string) {
      p in dirs || p in files
    }
  }

  /** How the run ends: stopped by a bad username or URL, without a person, or with the
      download of one person's pages. */
  datatype Outcome =
    | Aborted
    | NoPerson(baseDir: string)
    | Download(baseDir: string, person: string, downloadDir: string, profilePath: string)

  /** An optional argument that Python treats as true: given and not empty. */
  predicate Given(o: Option<string>) {
    o.Some? && o.value != ""
  }

  /** `os.path.join(a, b)` on POSIX: an absolute `b` replaces `a`; otherwise `b` is appended,
      after a slash unless `a` is empty or already ends in one. */
  function PathJoin(a: string, b: string): (r: string)
    ensures |r| >= |b| && r[|r| - |b|..] == b
    ensures !StartsWith(b, "/") ==> StartsWith(r, a)
    ensures StartsWith(b, "/") ==> r == b
  {
    if StartsWith(b, "/") then b
    else if a == "" || a[|a| - 1] == '/' then a + b
    else a + "/" + b
  }

  /** The two plain parts of a join are separated by exactly one slash. */
  lemma PathJoinPlain(a: string, b: string)
    requires a != "" && a[|a| - 1] != '/' && !StartsWith(b, "/")
    ensures PathJoin(a, b)[|a|] == '/' && PathJoin(a, b)[..|a|] == a && PathJoin(a, b)[|a| + 1..] == b
  {
  }

  // ---------------------------------------------------------------------------
  // the decisions, one function each

  /** `--base-dir` when given, else today's date. */
  function BaseDir(args: Args, today: string): string {
    if Given(args.baseDir) then args.baseDir.value else today
  }

  /** Where username resolution stops: with an error line and no run, or with the username
      found (if any) and the lines printed on the way. */
  datatype Resolution = Stop(line: string) | Resolved(username: Option<string>, lines: seq<string>)

  /** `--user`, validated by `validate_username` as written: the username, or the line printed
      before returning. A username followed by one newline passes, as it does in Python. */
  function UserResolution(user: Option<string>): (r: Resolution)
    ensures r.Resolved? <==> user.Some? && MatchesUsernamePattern(user.value)
    ensures r.Resolved? ==> r.username == user && r.lines == ["Using username: " + user.value]
    ensures r.Stop? ==> r.line == "Error with username: " + ValidateUsername(user).error.Message()
  {
    match ValidateUsername(user)
    case Err(e) => Stop("Error with username: " + e.Message())
    case Ok(u) => Resolved(Some(u), ["Using username: " + u])
  }

  /** `--user-url`: the username in the URL, or the line printed before returning. */
  function UrlResolution(url: Option<string>): (r: Resolution)
    ensures r.Resolved? ==> r.username.Some? && IsUsername(r.username.value)
  {
    match ExtractUsernameFromUrl(url)
    case Err(e) => Stop("Error parsing URL: " + e.Message())
    case Ok(u) => Resolved(Some(u), ["Extracted username from URL: " + u])
  }

  /** `--user` first, validated; `--user-url` only when `--user` gave no username. */
  function ResolveUsername(args: Args): (r: Resolution)
    ensures r.Resolved? && r.username.Some? ==> MatchesUsernamePattern(r.username.value)
    ensures !Given(args.user) && r.Resolved? && r.username.Some? ==> IsUsername(r.username.value)
    ensures Given(args.user) ==> (r.Resolved? <==> MatchesUsernamePattern(args.user.value))
    ensures Given(args.user) && r.Resolved? ==> r.username == args.user
    ensures !Given(args.user) && !Given(args.userUrl) ==> r == Resolved(None, [])
  {
    if Given(args.user) then UserResolution(args.user)
    else if Given(args.userUrl) then UrlResolution(args.userUrl)
    else Resolved(None, [])
  }

  const PersonFileDir := "portfolio"
  const PersonFile := "person.txt"

  /** The legacy fallback: the stripped contents of `<base>/portfolio/person.txt` when that
      directory and that file exist. */
  function PersonFromFile(baseDir: string, disk: Disk): Option<string> {
    var dir := PathJoin(baseDir, PersonFileDir);
    var file := PathJoin(dir, PersonFile);
    if disk.Exists(dir) && file in disk.files then Some(Strip(disk.files[file])) else None
  }

  /** The person to download: the resolved username, and only without one the file's. */
  function Person(username: Option<string>, baseDir: string, disk: Disk): Option<string> {
    if Given(username) then username else PersonFromFile(baseDir, disk)
  }

  /** `downloads/<person>/<date>`. */
  function DownloadDir(person: string, today: string): string {
    PathJoin(PathJoin("downloads", person), today)
  }

  /** `profile.html` in the download directory, or `<person>.html` when that is absent. */
  function ProfilePath(downloadDir: string, person: string, disk: Disk): (r: string)
    ensures disk.Exists(PathJoin(downloadDir, "profile.html")) ==> r == PathJoin(downloadDir, "profile.html")
    ensures !disk.Exists(PathJoin(downloadDir, "profile.html")) ==> r == PathJoin(downloadDir, person + ".html")
  {
    var profile := PathJoin(downloadDir, "profile.html");
    if disk.Exists(profile) then profile else PathJoin(downloadDir, person + ".html")
  }

  const NoUsernameLine := "No username provided via --user, --user-url or person.txt file found."

  /** The whole run as the method below performs it: the lines printed and the outcome. */
  function RunOf(args: Args, today: string, disk: Disk): (seq<string>, Outcome) {
    var baseDir := BaseDir(args, today);
    match ResolveUsername(args)
    case Stop(line) => ([line], Aborted)
    case Resolved(username, lines) =>
      var person := Person(username, baseDir, disk);
      if Given(person) then
        var downloadDir := DownloadDir(person.value, today);
        (lines + ["\nStarting person data download for " + person.value + "...",
                  "Saving to: " + downloadDir,
                  "Person data download process complete."],
         Download(baseDir, person.value, downloadDir, ProfilePath(downloadDir, person.value, disk)))
      else (lines + [NoUsernameLine], NoPerson(baseDir))
  }

  /** `validate_username(args.user)`, returning on its `ValueError`. */
  method CheckUser(user: Option<string>) returns (resolution: Resolution)
    ensures resolution == UserResolution(user)
  {
    var checked := ValidateUsername(user);
    if checked.Err? {
      return Stop("Error with username: " + checked.error.Message());
    }
    resolution := Resolved(Some(checked.value), ["Using username: " + checked.value]);
  }

  /** `extract_username_from_url(args.user_url)`, returning on its `ValueError`. */
  method CheckUrl(url: Option<string>) returns (resolution: Resolution)
    ensures resolution == UrlResolution(url)
  {
    var parsed := ExtractUsernameFromUrl(url);
    if parsed.Err? {
      return Stop("Error parsing URL: " + parsed.error.Message());
    }
    resolution := Resolved(Some(parsed.value), ["Extracted username from URL: " + parsed.value]);
  }

  /** The username steps of `main()`: `--user`, then `--user-url` when no username came from
      it, each returning early on a `ValueError`. */
  method ResolveStep(args: Args) returns (resolution: Resolution)
    ensures resolution == ResolveUsername(args)
  {
    var log := [];
    var username: Option<string> := None;
    if args.user.Some? && args.user.value != "" {
      var checked := CheckUser(args.user);
      if checked.Stop? {
        return checked;
      }
      username := checked.username;
      log := log + checked.lines;
    }
    if !(username.Some? && username.value != "") && args.userUrl.Some? && args.userUrl.value != "" {
      var parsed := CheckUrl(args.userUrl);
      if parsed.Stop? {
        return parsed;
      }
      username := parsed.username;
      log := log + parsed.lines;
    }
    resolution := Resolved(username, log);
  }

  /** The `person.txt` fallback of `main()`. */
  method PersonStep(username: Option<string>, baseDir: string, disk: Disk) returns (person: Option<string>)
    ensures person == Person(username, baseDir, disk)
  {
    person := username;
    if !(person.Some? && person.value != "") {
      person := None;
      var personDir := PathJoin(baseDir, PersonFileDir);
      if disk.Exists(personDir) {
        var personFile := PathJoin(personDir, PersonFile);
        if personFile in disk.files {
          person := Some(Strip(disk.files[personFile]));
        }
      }
    }
  }

  /** `main()`, from the arguments to the choice of the person's download directory and profile
      page. */
  method Run(args: Args, today: string, disk: Disk) returns (log: seq<string>, outcome: Outcome)
    ensures (log, outcome) == RunOf(args, today, disk)
  {
    var baseDir: string;
    if args.baseDir.Some? && args.baseDir.value != "" {
      baseDir := args.baseDir.value;
    } else {
      baseDir := today;
    }

    var resolution := ResolveStep(args);
    if resolution.Stop? {
      return [resolution.line], Aborted;
    }
    log := resolution.lines;

    var person := PersonStep(resolution.username, baseDir, disk);
    if person.Some? && person.value != "" {
      var downloadDir := PathJoin(PathJoin("downloads", person.value), today);
      log := log + ["\nStarting person data download for " + person.value + "...",
                    "Saving to: " + downloadDir,
                    "Person data download process complete."];
      var profilePath := PathJoin(downloadDir, "profile.html");
      if !disk.Exists(profilePath) {
        profilePath := PathJoin(downloadDir, person.value + ".html");
      }
      outcome := Download(baseDir, person.value, downloadDir, profilePath);
    } else {
      log := log + [NoUsernameLine];
      outcome := NoPerson(baseDir);
    }
  }

  // ---------------------------------------------------------------------------
  // what the entry point promises

  /** A `--user` that passes the check is the person, whatever `--user-url` and `person.txt`
      say, and no URL is parsed. */
  lemma UserWins(args: Args, today: string, disk: Disk)
    requires Given(args.user) && MatchesUsernamePattern(args.user.value)
    ensures RunOf(args, today, disk).1.Download?
    ensures RunOf(args, today, disk).1.person == args.user.value
    ensures RunOf(args, today, disk).0[0] == "Using username: " + args.user.value
  {
  }

  /** A `--user` that fails the check stops the run with its error line alone, even with a good
      URL. */
  lemma BadUserAborts(args: Args, today: string, disk: Disk)
    requires Given(args.user) && !MatchesUsernamePattern(args.user.value)
    ensures RunOf(args, today, disk) == (["Error with username: " + BadUsername.Message()], Aborted)
  {
  }

  /** Without `--user`, the URL decides: its username is the person, or its error stops the run. */
  lemma UrlDecidesWithoutUser(args: Args, today: string, disk: Disk)
    requires !Given(args.user) && Given(args.userUrl)
    ensures var r := ExtractUsernameFromUrl(args.userUrl);
            && (r.Err? ==> RunOf(args, today, disk) == (["Error parsing URL: " + r.error.Message()], Aborted))
            && (r.Ok? ==>
                  RunOf(args, today, disk).1 ==
                    Download(BaseDir(args, today), r.value, DownloadDir(r.value, today),
                             ProfilePath(DownloadDir(r.value, today), r.value, disk)))
  {
  }

  /** `person.txt` is read only when neither option is given; an empty or missing file leaves
      the run without a person, and the run says so. */
  lemma PersonFileFallback(args: Args, today: string, disk: Disk)
    requires !Given(args.user) && !Given(args.userUrl)
    ensures var p := PersonFromFile(BaseDir(args, today), disk);
            && (Given(p) ==> RunOf(args, today, disk).1.Download? && RunOf(args, today, disk).1.person == p.value)
            && (!Given(p) ==> RunOf(args, today, disk) == ([NoUsernameLine], NoPerson(BaseDir(args, today))))
  {
    assert ResolveUsername(args) == Resolved(None, []);
    assert Person(None, BaseDir(args, today), disk) == PersonFromFile(BaseDir(args, today), disk);
    var empty: seq<string> := [];
    assert empty + [NoUsernameLine] == [NoUsernameLine];
  }

  /** The run never aborts when neither option is given. */
  lemma AbortsOnlyOnOptions(args: Args, today: string, disk: Disk)
    requires RunOf(args, today, disk).1 == Aborted
    ensures Given(args.user) || Given(args.userUrl)
    ensures |RunOf(args, today, disk).0| == 1
  {
  }

  /** With a plain person and date, the download directory is `downloads/<person>/<date>`. */
  lemma DownloadDirLayout(person: string, today: string)
    requires person != "" && person[0] != '/' && person[|person| - 1] != '/'
    requires today != "" && today[0] != '/'
    ensures DownloadDir(person, today) == "downloads/" + person + "/" + today
  {
    assert !StartsWith(person, "/") && !StartsWith(today, "/");
    var inner := PathJoin("downloads", person);
    assert inner == "downloads/" + person;
    assert inner[|inner| - 1] == person[|person| - 1];
  }

  /** A username followed by one newline passes `--user` and becomes the person downloaded,
      newline included; the corrected check would have stopped the run instead. */
  lemma NewlineUserDownloaded(args: Args, today: string, disk: Disk, name: string)
    requires args.user == Some(name + "\n") && IsUsername(name)
    ensures RunOf(args, today, disk).1.Download?
    ensures RunOf(args, today, disk).1.person == name + "\n"
    ensures ValidateUsernameStrict(args.user).Err?
  {
    var user := name + "\n";
    assert user[..|user| - 1] == name;
    assert MatchesUsernamePattern(user);
    assert !AllUsernameChars(user) by {
      assert !IsUsernameChar(user[|user| - 1]);
    }
  }

  /** On a `--user` without a newline, the check as written and the corrected one agree. */
  lemma UserCheckAgreesWithoutNewline(user: string)
    requires '\n' !in user
    ensures UserResolution(Some(user)).Resolved? <==> ValidateUsernameStrict(Some(user)).Ok?
  {
    PatternWithoutNewline(user);
  }

  /** A resolved username needs no fallback: a username is never empty, so it is always the
      person downloaded. */
  lemma ResolvedUsernameIsPerson(args: Args, today: string, disk: Disk)
    requires ResolveUsername(args).Resolved? && ResolveUsername(args).username.Some?
    ensures RunOf(args, today, disk).1.Download?
    ensures RunOf(args, today, disk).1.person == ResolveUsername(args).username.value
    ensures RunOf(args, today, disk).1.baseDir == BaseDir(args, today)
  {
  }
}
