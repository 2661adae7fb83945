/**
 * `process_email_body` of downloader.py:16-124, the per-email state machine.
 * The links of one body are deduplicated and tried one at a time: a link
 * already in the shared `downloaded` set is skipped; otherwise cookies may be
 * extracted, yt-dlp fetches the post, the file it reports is checked, its
 * title is compared with the probed metadata title and, when they differ,
 * ffmpeg rewrites it through a temporary file. Each link that got a file is
 * added to `downloaded` and to the batch written to the ledger once at the
 * end, and the email is labelled done when the batch is not empty.
 *
 * The outside world is a `World` of oracles, each indexed by the number of
 * the attempt (one attempt per link that was not yet downloaded): whether
 * cookie extraction succeeds, what yt-dlp reports and which files it leaves,
 * what ffprobe prints, and how ffmpeg ends. The disk is the set `files` of
 * existing paths; what the program does to the mailbox and to the tools is
 * the `log` of events.
 */
module Downloader {
  import opened Optional
  import opened Text
  import Links
  import Ledger
  import ProcessOutput
  import Config
  import Paths
  import opened Traces

  const CookieFlag: string := "FIREFOX_CONTAINER_COOKIES"
  const CookieFileKey: string := "COOKIE_FILE"
  const DefaultCookieFile: string := "/app/cookies/cookies.txt"

  /**
   * One yt-dlp run: its return code, its standard output on its own, its
   * standard output and error interleaved, and the files it leaves behind.
   */
  datatype FetchReply = FetchReply(returnCode: int, stdout: string, combined: string, written: set<string>)

  /** One ffmpeg run: whether it exits with 0, and whether a failed run leaves its output file. */
  datatype TagReply = TagReply(ok: bool, leavesTemp: bool)

  datatype World = World(
    cookies: nat -> bool,
    fetch: nat -> FetchReply,
    probe: nat -> Option<string>,
    tag: nat -> TagReply)

  /** What the program does that can be seen from outside. */
  datatype Event =
    | Fetched(link: string, cookieFile: string, template: string)
    | Retagged(path: string, title: string, ok: bool)
    | Labelled(emailId: string)

  /** The yt-dlp runs, in order. */
  function Fetches(log: seq<Event>): seq<Event>
  {
    if log == [] then []
    else
      var e := log[|log| - 1];
      Fetches(log[..|log| - 1]) + (if e.Fetched? then [e] else [])
  }

  /** The emails labelled done, in order. */
  function Labels(log: seq<Event>): seq<string>
  {
    if log == [] then []
    else
      var e := log[|log| - 1];
      Labels(log[..|log| - 1]) + (if e.Labelled? then [e.emailId] else [])
  }

  predicate Distinct<T(==)>(s: seq<T>)
  {
    forall i, j :: 0 <= i < j < |s| ==> s[i] != s[j]
  }

  lemma EventSnoc(log: seq<Event>, e: Event)
    ensures Fetches(log + [e]) == Fetches(log) + (if e.Fetched? then [e] else [])
    ensures Labels(log + [e]) == Labels(log) + (if e.Labelled? then [e.emailId] else [])
  {
    assert (log + [e])[..|log|] == log;
  }

  /** `COOKIE_FILE`, with its default. */
  function CookieFile(env: map<string, string>): string
  {
    Config.EnvGet(env, CookieFileKey, DefaultCookieFile)
  }

  /** Whether cookies are taken from the Firefox profile before each fetch. */
  function UseFirefox(env: map<string, string>): bool
  {
    Config.EnvFlag(env, CookieFlag)
  }

  /** The file yt-dlp reports, as `stream_process_output` finds it. */
  function ReportedPath(r: FetchReply): Option<string>
  {
    ProcessOutput.LastPath(ProcessOutput.OutputLines(r.combined))
  }

  /** `get_ffmpeg_metadata_title`: the stripped probe output, or `None` when the probe could not run. */
  function ExistingTitle(probe: Option<string>): Option<string>
  {
    match probe
    case Some(out) => Some(Strip(out))
    case None => None
  }

  /** Links of a batch, in order. */
  function BatchLinks(batch: seq<(string, string)>): seq<string>
  {
    seq(|batch|, i requires 0 <= i < |batch| => batch[i].0)
  }

  /** A batch built from links in `done` that were not in `before`, each storable, none twice. */
  ghost predicate FreshBatch(batch: seq<(string, string)>, done: set<string>, before: set<string>)
  {
    (forall i :: 0 <= i < |batch| ==> batch[i].0 in done && batch[i].0 !in before && Ledger.IsStorable(batch[i]))
    && Distinct(BatchLinks(batch)) && Ledger.LinksOf(batch) <= done
  }

  /** One more link handled: the batch grows by the item, if any, and stays fresh. */
  lemma BatchStep(batch: seq<(string, string)>, item: Option<(string, string)>, link: string, done: set<string>, before: set<string>)
    requires FreshBatch(batch, done, before) && link !in done
    requires item.Some? ==> item.value.0 == link && link !in before && Ledger.IsStorable(item.value)
    ensures var next := if item.Some? then batch + [item.value] else batch;
            FreshBatch(next, done + {link}, before)
            && Ledger.LinksOf(next) == Ledger.LinksOf(batch) + (if item.Some? then {link} else {})
  {
    if item.Some? {
      var next := batch + [item.value];
      Ledger.LinksOfSnoc(batch, item.value);
      assert forall i :: 0 <= i < |batch| ==> next[i] == batch[i];
      assert BatchLinks(next) == BatchLinks(batch) + [link];
    }
  }

  /** yt-dlp runs for links in `done` that were not in `before`, with one cookie file and template, no link twice. */
  ghost predicate FreshFetches(fetched: seq<Event>, done: set<string>, before: set<string>, cookieFile: string, template: string)
  {
    Distinct(fetched)
    && forall e :: e in fetched ==>
         e.Fetched? && e.cookieFile == cookieFile && e.template == template && e.link in done && e.link !in before
  }

  lemma FetchStep(fetched: seq<Event>, link: string, fetchedNow: bool, done: set<string>, before: set<string>, cookieFile: string, template: string)
    requires FreshFetches(fetched, done, before, cookieFile, template) && link !in done
    requires fetchedNow ==> link !in before
    ensures FreshFetches(fetched + (if fetchedNow then [Fetched(link, cookieFile, template)] else []),
                         done + {link}, before, cookieFile, template)
  {
    var next := fetched + (if fetchedNow then [Fetched(link, cookieFile, template)] else []);
    assert forall e :: e in next ==> e in fetched || e == Fetched(link, cookieFile, template);
  }

  lemma UnionAssoc(a: set<string>, b: set<string>, c: set<string>)
    ensures (a + b) + c == a + (b + c)
  {
  }

  /** The disk after a download and `Session.Tag` is that of one attempt that got `out`. */
  lemma FetchDisk(s: Session, n: nat, out: Option<string>, ran: bool,
                  files0: set<string>, files1: set<string>, files2: set<string>)
    requires out.Some? ==> s.CookiesReady(n)
    requires files1 == (if s.CookiesReady(n) then files0 + s.world.fetch(n).written else files0)
    requires out.None? ==> !ran && files2 == files1
    requires out.Some? ==> (ran <==> ExistingTitle(s.world.probe(n)) != Some(Paths.Title(out.value)))
    requires out.Some? && !ran ==> files2 == files1
    requires out.Some? && ran ==> files2 == files1 - {Paths.TempPath(out.value)}
    ensures ran <==> s.Retitles(n, out)
    ensures files2 == s.DiskAfter(n, files0, out)
  {
  }

  /** The log after a download and `Session.Tag` is that of one attempt that got `out`. */
  lemma FetchLog(s: Session, link: string, template: string, n: nat, out: Option<string>, ran: bool,
                 log0: seq<Event>, log1: seq<Event>, log2: seq<Event>)
    requires ran <==> s.Retitles(n, out)
    requires log1 == log0 + (if s.CookiesReady(n) then [Fetched(link, CookieFile(s.env), template)] else [])
    requires !ran ==> log2 == log1
    requires ran ==> log2 == log1 + [Retagged(out.value, Paths.Title(out.value), s.world.tag(n).ok)]
    ensures log2 == log0 + s.AttemptLog(link, template, n, out)
  {
    var now := if s.CookiesReady(n) then [Fetched(link, CookieFile(s.env), template)] else [];
    if ran {
      var e := Retagged(out.value, Paths.Title(out.value), s.world.tag(n).ok);
      assert s.AttemptLog(link, template, n, out) == now + [e];
      ConcatAssoc(log0, now, [e]);
    } else {
      assert s.AttemptLog(link, template, n, out) == now + [];
    }
  }

  /** One attempt's events add no label and at most the one yt-dlp run of the attempt. */
  lemma AttemptEvents(s: Session, link: string, template: string, n: nat, out: Option<string>,
                      log0: seq<Event>)
    ensures log0 <= log0 + s.AttemptLog(link, template, n, out)
    ensures Labels(log0 + s.AttemptLog(link, template, n, out)) == Labels(log0)
    ensures Fetches(log0 + s.AttemptLog(link, template, n, out)) == Fetches(log0)
              + (if s.CookiesReady(n) then [Fetched(link, CookieFile(s.env), template)] else [])
  {
    var now := if s.CookiesReady(n) then [Fetched(link, CookieFile(s.env), template)] else [];
    var log1 := log0 + now;
    if s.CookiesReady(n) {
      EventSnoc(log0, now[0]);
    } else {
      assert log1 == log0;
    }
    if s.Retitles(n, out) {
      var e := Retagged(out.value, Paths.Title(out.value), s.world.tag(n).ok);
      assert s.AttemptLog(link, template, n, out) == now + [e];
      EventSnoc(log1, e);
      ConcatAssoc(log0, now, [e]);
    } else {
      assert s.AttemptLog(link, template, n, out) == now;
    }
  }

  /** A link moves from the links still to handle to those handled. */
  lemma MoveOne(todo: set<string>, done: set<string>, links: set<string>, link: string)
    requires todo !! done && todo + done == links && link in todo
    ensures (todo - {link}) !! (done + {link}) && (todo - {link}) + (done + {link}) == links
    ensures |todo - {link}| < |todo|
  {
  }

  /**
   * What the link loop of `Session.ProcessLinks` knows after handling the
   * links in `done`, stated on values: the links added to `downloaded` are
   * those of the batch; the handled links that were new are `order`, in the
   * order they were attempted, and the attempt counter, the files, the
   * batch and the log are what attempting them from `t0` gives; the yt-dlp
   * runs in the log since the loop began are `fetched`. `before`, `t0` and
   * `fetches0` are the state when the loop began.
   */
  ghost predicate LoopFacts(s: Session, downloaded: set<string>, attempt: nat, files: set<string>, log: seq<Event>,
                            batch: seq<(string, string)>, fetched: seq<Event>, order: seq<string>, done: set<string>,
                            before: set<string>, t0: Trace<Event>, fetches0: seq<Event>, template: string)
  {
    downloaded == before + Ledger.LinksOf(batch) && FreshBatch(batch, done, before)
    && Distinct(order) && (forall l :: l in order <==> l in done && l !in before)
    && attempt == t0.attempt + |order| && |order| == |done - before|
    && s.Attempts(order, template, t0) == Trace(attempt, files, batch, log)
    && Fetches(log) == fetches0 + fetched && fetched == s.Runs(order, template, t0.attempt)
    && FreshFetches(fetched, done, before, CookieFile(s.env), template)
  }

  /** A new link handled as `Session.Attempt` and `Session.Keep` report it keeps the loop's facts. */
  lemma NewStep(s: Session, attempt: nat, files: set<string>, log: seq<Event>,
                batch: seq<(string, string)>, fetched: seq<Event>, order: seq<string>, done: set<string>,
                before: set<string>, t0: Trace<Event>, fetches0: seq<Event>, template: string,
                link: string, saved: Option<string>, batch': seq<(string, string)>,
                downloaded': set<string>, attempt': nat, files': set<string>, log': seq<Event>)
    requires LoopFacts(s, before + Ledger.LinksOf(batch), attempt, files, log, batch, fetched, order, done, before, t0, fetches0, template)
    requires link !in done && link !in before
    requires saved == s.Outcome(attempt, files)
    requires attempt' == attempt + 1 && files' == s.DiskAfter(attempt, files, saved)
    requires log' == log + s.AttemptLog(link, template, attempt, saved)
    requires Fetches(log') == Fetches(log) + (if s.CookiesReady(attempt) then [Fetched(link, CookieFile(s.env), template)] else [])
    requires batch' == batch + (if saved.Some? then [(link, saved.value)] else [])
    requires downloaded' == before + Ledger.LinksOf(batch') && FreshBatch(batch', done + {link}, before)
    ensures LoopFacts(s, downloaded', attempt', files', log', batch',
                      fetched + (if s.CookiesReady(attempt) then [Fetched(link, CookieFile(s.env), template)] else []),
                      order + [link], done + {link}, before, t0, fetches0, template)
  {
    var now := if s.CookiesReady(attempt) then [Fetched(link, CookieFile(s.env), template)] else [];
    CountFresh(done, before, link);
    TraceStep(s, order, link, template, t0, Trace(attempt, files, batch, log), saved, attempt', files', log');
    RunsStep(s, order, link, template, t0.attempt, attempt);
    OrderStep(order, link, done, before);
    FetchStep(fetched, link, s.CookiesReady(attempt), done, before, CookieFile(s.env), template);
    ConcatAssoc(fetches0, fetched, now);
  }

  /** One more attempt, as `Session.Attempt` reports it, extends the attempts of `order` by `link`. */
  lemma TraceStep(s: Session, order: seq<string>, link: string, template: string, t0: Trace<Event>, t: Trace<Event>,
                  saved: Option<string>, attempt': nat, files': set<string>, log': seq<Event>)
    requires s.Attempts(order, template, t0) == t
    requires saved == s.Outcome(t.attempt, t.files)
    requires attempt' == t.attempt + 1 && files' == s.DiskAfter(t.attempt, t.files, saved)
    requires log' == t.log + s.AttemptLog(link, template, t.attempt, saved)
    ensures s.Attempts(order + [link], template, t0)
            == Trace(attempt', files', t.batch + (if saved.Some? then [(link, saved.value)] else []), log')
  {
    UpToAppend(s.StepFn(template), order, link, t0);
  }

  /** The yt-dlp runs of one more attempt extend those of `order`. */
  lemma RunsStep(s: Session, order: seq<string>, link: string, template: string, start: nat, n: nat)
    requires n == start + |order|
    ensures s.Runs(order + [link], template, start)
            == s.Runs(order, template, start) + (if s.CookiesReady(n) then [Fetched(link, CookieFile(s.env), template)] else [])
  {
    var next := order + [link];
    assert next[..|order|] == order && next[|order|] == link;
  }

  // ---------------------------------------------------------------------
  // What a sequence of attempts does

  /**
   * Every attempt uses up one number, keeps its link with the file it got
   * and nothing else, adds to the disk only what yt-dlp wrote, and leaves
   * no temporary file of its own.
   */
  lemma StepLaws(s: Session, template: string)
    ensures Counts(s.StepFn(template)) && Keeps(s.StepFn(template), s.Got())
    ensures Grows(s.StepFn(template), s.Wrote()) && Cleans(s.StepFn(template), s.Got(), s.Wrote(), Paths.TempPath)
  {
  }

  /**
   * The batch of a sequence of attempts grows by exactly the links whose
   * attempt got a file, each with that file: nothing that got a file is
   * missed and nothing else is added.
   */
  lemma AttemptsBatch(s: Session, order: seq<string>, template: string, t: Trace<Event>)
    ensures t.batch <= s.Attempts(order, template, t).batch
    ensures forall x :: x in s.Attempts(order, template, t).batch[|t.batch|..]
                        <==> Recorded(s.StepFn(template), s.Got(), order, |order|, t, x)
  {
    StepLaws(s, template);
    UpToBatch(s.StepFn(template), s.Got(), order, |order|, t);
  }

  /** Over a sequence of attempts, the disk only gains files that yt-dlp wrote. */
  lemma AttemptsFiles(s: Session, order: seq<string>, template: string, t: Trace<Event>)
    ensures s.Attempts(order, template, t).files <= t.files + Written(s.Wrote(), t.attempt, |order|)
  {
    StepLaws(s, template);
    UpToFiles(s.StepFn(template), s.Wrote(), order, 0, |order|, t, t.attempt, |order|);
  }

  /**
   * The temporary file of a download never survives the sequence of
   * attempts, unless it was on the disk at the start or yt-dlp itself
   * wrote a file of that name.
   */
  lemma AttemptsNoTemp(s: Session, order: seq<string>, template: string, t: Trace<Event>, k: nat)
    requires k < |order|
    requires s.Outcome(UpTo(s.StepFn(template), order, k, t).attempt, UpTo(s.StepFn(template), order, k, t).files).Some?
    ensures var u := UpTo(s.StepFn(template), order, k, t);
            Paths.TempPath(s.Outcome(u.attempt, u.files).value)
            !in s.Attempts(order, template, t).files - (t.files + Written(s.Wrote(), t.attempt, |order|))
  {
    StepLaws(s, template);
    var u := UpTo(s.StepFn(template), order, k, t);
    assert Paths.TempPath(s.Got()(order[k], u).value) !in s.StepFn(template)(order[k], u).files - (u.files + s.Wrote()(u.attempt));
    UpToNoTemp(s.StepFn(template), s.Got(), s.Wrote(), Paths.TempPath, order, k, t);
  }

  /** `e` is the yt-dlp run of one of the attempts: the one of link `k`, whose cookies were ready. */
  ghost predicate RunOfAttempt(s: Session, order: seq<string>, template: string, start: nat, e: Event)
  {
    exists k :: 0 <= k < |order| && s.CookiesReady(start + k) && e == Fetched(order[k], CookieFile(s.env), template)
  }

  /** The yt-dlp runs are exactly those of the attempts whose cookies were ready. */
  lemma {:induction false} RunsMembers(s: Session, order: seq<string>, template: string, start: nat)
    ensures forall e :: e in s.Runs(order, template, start) <==> RunOfAttempt(s, order, template, start, e)
    decreases |order|
  {
    if order != [] {
      var n := |order| - 1;
      var init := order[..n];
      RunsMembers(s, init, template, start);
      var now := if s.CookiesReady(start + n) then [Fetched(order[n], CookieFile(s.env), template)] else [];
      assert s.Runs(order, template, start) == s.Runs(init, template, start) + now;
      forall e
        ensures e in s.Runs(order, template, start) <==> RunOfAttempt(s, order, template, start, e)
      {
        RunOfAttemptLast(s, order, template, start, e);
      }
    }
  }

  /** A run of the attempts of `order` is one of all but its last link, or the last one's. */
  lemma RunOfAttemptLast(s: Session, order: seq<string>, template: string, start: nat, e: Event)
    requires order != []
    ensures var n := |order| - 1;
            RunOfAttempt(s, order, template, start, e)
            <==> RunOfAttempt(s, order[..n], template, start, e)
                 || (s.CookiesReady(start + n) && e == Fetched(order[n], CookieFile(s.env), template))
  {
    var n := |order| - 1;
    var init := order[..n];
    if RunOfAttempt(s, init, template, start, e) {
      var k :| 0 <= k < |init| && s.CookiesReady(start + k) && e == Fetched(init[k], CookieFile(s.env), template);
      assert order[k] == init[k];
    }
    if RunOfAttempt(s, order, template, start, e) {
      var k :| 0 <= k < |order| && s.CookiesReady(start + k) && e == Fetched(order[k], CookieFile(s.env), template);
      if k < n {
        assert init[k] == order[k];
        assert RunOfAttempt(s, init, template, start, e);
      }
    }
  }

  /** A link met for the first time joins the order of attempts. */
  lemma OrderStep(order: seq<string>, link: string, done: set<string>, before: set<string>)
    requires Distinct(order) && (forall l :: l in order <==> l in done && l !in before)
    requires link !in done && link !in before
    ensures Distinct(order + [link]) && (forall l :: l in order + [link] <==> l in done + {link} && l !in before)
  {
  }

  /** Handling a link not seen before adds one to the count of new links. */
  lemma CountFresh(done: set<string>, before: set<string>, link: string)
    requires link !in done && link !in before
    ensures |(done + {link}) - before| == |done - before| + 1
  {
    assert (done + {link}) - before == (done - before) + {link};
  }

  class Session {
    const world: World
    const env: map<string, string>
    const ledger: Ledger.LedgerFile
    var downloaded: set<string>
    var files: set<string>
    var log: seq<Event>
    var attempt: nat

    ghost predicate Valid()
      reads this, ledger
    {
      ledger.Valid()
    }

    /** The ledger on disk and the set in memory agree, and the next append starts on a fresh line. */
    ghost predicate Coherent()
      reads this, ledger
    {
      ledger.Valid() && WellTerminated(ledger.text) && Ledger.LedgerKeys(ledger.text) == downloaded
    }

    constructor (world: World, env: map<string, string>, ledger: Ledger.LedgerFile, files: set<string>)
      ensures this.world == world && this.env == env && this.ledger == ledger && this.files == files
      ensures downloaded == {} && log == [] && attempt == 0
    {
      this.world := world;
      this.env := env;
      this.ledger := ledger;
      this.files := files;
      downloaded := {};
      log := [];
      attempt := 0;
    }

    /** Cookie mode is off, or extraction succeeds for attempt `n`. */
    predicate CookiesReady(n: nat)
    {
      !UseFirefox(env) || world.cookies(n)
    }

    /**
     * One download attempt (downloader.py:40-72): cookies, then yt-dlp, then
     * the checks on its return code and on the file it reports.
     */
    method Download(link: string, template: string) returns (filename: Option<string>, n: nat)
      modifies this
      ensures n == old(attempt) && attempt == n + 1 && downloaded == old(downloaded)
      ensures !CookiesReady(n) ==> filename.None? && files == old(files) && log == old(log)
      ensures CookiesReady(n) ==> files == old(files) + world.fetch(n).written
                                  && log == old(log) + [Fetched(link, CookieFile(env), template)]
      ensures filename.Some? <==> CookiesReady(n) && world.fetch(n).returnCode == 0
                                  && ReportedPath(world.fetch(n)).Some?
                                  && ReportedPath(world.fetch(n)).value in files
      ensures filename.Some? ==> filename == ReportedPath(world.fetch(n)) && Ledger.IsStorableName(filename.value)
    {
      n := attempt;
      attempt := attempt + 1;
      if UseFirefox(env) && !world.cookies(n) {
        return None, n;
      }
      var reply := world.fetch(n);
      log := log + [Fetched(link, CookieFile(env), template)];
      files := files + reply.written;
      var filepath, _ := ProcessOutput.StreamOutput(reply.combined);
      if reply.returnCode != 0 {
        return None, n;
      }
      if filepath.None? || filepath.value == "" || filepath.value !in files {
        return None, n;
      }
      ProcessOutput.PathIsStorable(reply.combined);
      return filepath, n;
    }

    /**
     * The retagging step (downloader.py:78-111): nothing happens when the
     * probed title already equals the title taken from the file name;
     * otherwise ffmpeg writes the retagged copy to the temporary path, which
     * replaces the file on success and is removed on failure.
     */
    method Tag(filename: string, n: nat) returns (ran: bool)
      requires filename in files
      modifies this
      ensures downloaded == old(downloaded) && attempt == old(attempt)
      ensures ran <==> ExistingTitle(world.probe(n)) != Some(Paths.Title(filename))
      ensures !ran ==> files == old(files) && log == old(log)
      ensures ran ==> log == old(log) + [Retagged(filename, Paths.Title(filename), world.tag(n).ok)]
      ensures ran ==> files == old(files) - {Paths.TempPath(filename)}
      ensures filename in files && Paths.TempPath(filename) !in files - old(files)
    {
      var title := Paths.Title(filename);
      if ExistingTitle(world.probe(n)) == Some(title) {
        return false;
      }
      var temp := Paths.TempPath(filename);
      Paths.TempDiffers(filename);
      var reply := world.tag(n);
      if reply.ok || reply.leavesTemp {
        files := files + {temp};
      }
      log := log + [Retagged(filename, title, reply.ok)];
      if reply.ok {
        files := files - {temp} + {filename};
      } else if temp in files {
        files := files - {temp};
      }
      return true;
    }

    /**
     * The file recorded for attempt `n` when the disk held `disk` before it:
     * the cookies were ready, yt-dlp returned 0, and the last path it
     * printed names a file that exists.
     */
    function Outcome(n: nat, disk: set<string>): (r: Option<string>)
      ensures r.Some? ==> Ledger.IsStorableName(r.value) && r.value in disk + world.fetch(n).written
    {
      var reply := world.fetch(n);
      var path := ReportedPath(reply);
      if CookiesReady(n) && reply.returnCode == 0 && path.Some? && path.value in disk + reply.written then
        ProcessOutput.PathIsStorable(reply.combined);
        path
      else None
    }

    /** Attempt `n` got the file `out`, and its probed title differs from the one in the file name, so ffmpeg runs. */
    predicate Retitles(n: nat, out: Option<string>)
    {
      out.Some? && ExistingTitle(world.probe(n)) != Some(Paths.Title(out.value))
    }

    /**
     * The disk after attempt `n` from `disk` when it got `out`: yt-dlp's
     * files are added and, when ffmpeg ran, its temporary file is gone
     * (renamed over the download on success, removed on failure). Nothing
     * else appears, the temporary file of the download never survives, and
     * the download stays.
     */
    function DiskAfter(n: nat, disk: set<string>, out: Option<string>): (d: set<string>)
      ensures !CookiesReady(n) ==> d == disk
      ensures d <= disk + world.fetch(n).written
      ensures out.Some? ==> Paths.TempPath(out.value) !in d - (disk + world.fetch(n).written)
      ensures CookiesReady(n) && out.Some? && out.value in disk + world.fetch(n).written ==> out.value in d
    {
      if !CookiesReady(n) then disk
      else
        var grown := disk + world.fetch(n).written;
        if Retitles(n, out) then
          Paths.TempDiffers(out.value);
          grown - {Paths.TempPath(out.value)}
        else grown
    }

    /** The events of attempt `n` of `link` when it got `out`: the yt-dlp run once cookies are ready, then the ffmpeg run if any. */
    function AttemptLog(link: string, template: string, n: nat, out: Option<string>): seq<Event>
    {
      (if CookiesReady(n) then [Fetched(link, CookieFile(env), template)] else [])
      + (if Retitles(n, out) then [Retagged(out.value, Paths.Title(out.value), world.tag(n).ok)] else [])
    }

    /** One link not yet downloaded attempted from `t` (downloader.py:40-117). */
    function Step(link: string, template: string, t: Trace<Event>): Trace<Event>
    {
      var out := Outcome(t.attempt, t.files);
      Trace(t.attempt + 1, DiskAfter(t.attempt, t.files, out),
            t.batch + (if out.Some? then [(link, out.value)] else []),
            t.log + AttemptLog(link, template, t.attempt, out))
    }

    /** `Step` as a function value. */
    function StepFn(template: string): (string, Trace<Event>) -> Trace<Event>
    {
      (link, t) => Step(link, template, t)
    }

    /** The file the next attempt gets on a trace. */
    function Got(): (string, Trace<Event>) -> Option<string>
    {
      (link: string, t: Trace<Event>) => Outcome(t.attempt, t.files)
    }

    /** The files yt-dlp writes in attempt `n`. */
    function Wrote(): nat -> set<string>
    {
      (n: nat) => world.fetch(n).written
    }

    /** The links of `order`, none yet downloaded, attempted one after the other from `t`. */
    function Attempts(order: seq<string>, template: string, t: Trace<Event>): Trace<Event>
    {
      UpTo(StepFn(template), order, |order|, t)
    }

    /** The yt-dlp runs of those attempts, the first being attempt `start`: one per attempt whose cookies were ready. */
    function Runs(order: seq<string>, template: string, start: nat): (r: seq<Event>)
      ensures |r| <= |order|
      decreases |order|
    {
      if order == [] then []
      else
        var k := |order| - 1;
        Runs(order[..k], template, start) + (if CookiesReady(start + k) then [Fetched(order[k], CookieFile(env), template)] else [])
    }

    /**
     * One link that is not yet downloaded (downloader.py:40-117): download it
     * and, when a file came back, retag it. `saved` is the file to record.
     */
    method Attempt(link: string, template: string) returns (saved: Option<string>)
      modifies this
      ensures downloaded == old(downloaded) && attempt == old(attempt) + 1
      ensures saved == Outcome(old(attempt), old(files))
      ensures saved.Some? ==> Ledger.IsStorableName(saved.value)
      ensures files == DiskAfter(old(attempt), old(files), saved)
      ensures files <= old(files) + world.fetch(old(attempt)).written
      ensures saved.Some? ==> saved.value in files
                              && Paths.TempPath(saved.value) !in files - (old(files) + world.fetch(old(attempt)).written)
      ensures log == old(log) + AttemptLog(link, template, old(attempt), saved)
      ensures Labels(log) == Labels(old(log))
      ensures Fetches(log) == Fetches(old(log)) + (if CookiesReady(old(attempt)) then [Fetched(link, CookieFile(env), template)] else [])
    {
      var filename, n := Download(link, template);
      ghost var files1, log1 := files, log;
      if filename.None? {
        FetchDisk(this, n, filename, false, old(files), files1, files);
        FetchLog(this, link, template, n, filename, false, old(log), log1, log);
        AttemptEvents(this, link, template, n, filename, old(log));
        return None;
      }
      var ran := Tag(filename.value, n);
      FetchDisk(this, n, filename, ran, old(files), files1, files);
      FetchLog(this, link, template, n, filename, ran, old(log), log1, log);
      AttemptEvents(this, link, template, n, filename, old(log));
      return filename;
    }

    /** What the link loop knows after handling the links in `done` (see `LoopFacts`). */
    ghost predicate Progress(batch: seq<(string, string)>, fetched: seq<Event>, order: seq<string>, done: set<string>,
                             before: set<string>, t0: Trace<Event>, fetches0: seq<Event>, template: string)
      reads this
    {
      LoopFacts(this, downloaded, attempt, files, log, batch, fetched, order, done, before, t0, fetches0, template)
    }

    /**
     * One pass of the link loop (downloader.py:36-117): skip a link already
     * downloaded; otherwise attempt it. The ghost parameters carry what the
     * loop knows (see `Progress`).
     */
    method HandleLink(link: string, template: string, batch: seq<(string, string)>,
                      ghost done: set<string>, ghost before: set<string>, ghost fetched: seq<Event>,
                      ghost order: seq<string>, ghost t0: Trace<Event>, ghost fetches0: seq<Event>)
      returns (batch': seq<(string, string)>, ghost fetched': seq<Event>, ghost order': seq<string>)
      requires Ledger.IsKeyable(link) && link !in done
      requires Progress(batch, fetched, order, done, before, t0, fetches0, template)
      modifies this
      ensures Progress(batch', fetched', order', done + {link}, before, t0, fetches0, template)
      ensures link in old(downloaded) ==> batch' == batch && order' == order
                                          && attempt == old(attempt) && files == old(files) && log == old(log)
      ensures link !in old(downloaded) ==> order' == order + [link]
      ensures link !in old(downloaded) ==>
                batch' == batch + (if Outcome(old(attempt), old(files)).Some?
                                   then [(link, Outcome(old(attempt), old(files)).value)] else [])
      ensures old(log) <= log && Labels(log) == Labels(old(log))
    {
      if link in downloaded {
        // "Already downloaded"
        assert (done + {link}) - before == done - before;
        BatchStep(batch, None, link, done, before);
        FetchStep(fetched, link, false, done, before, CookieFile(env), template);
        return batch, fetched, order;
      }
      batch', fetched', order' := HandleNew(link, template, batch, done, before, fetched, order, t0, fetches0);
    }

    /**
     * A link not yet downloaded (downloader.py:40-117): attempt it and, when
     * a file came back, add the link to `downloaded` and the item to the
     * batch (`newly_downloaded`).
     */
    method HandleNew(link: string, template: string, batch: seq<(string, string)>,
                     ghost done: set<string>, ghost before: set<string>, ghost fetched: seq<Event>,
                     ghost order: seq<string>, ghost t0: Trace<Event>, ghost fetches0: seq<Event>)
      returns (batch': seq<(string, string)>, ghost fetched': seq<Event>, ghost order': seq<string>)
      requires Ledger.IsKeyable(link) && link !in done && link !in downloaded
      requires Progress(batch, fetched, order, done, before, t0, fetches0, template)
      modifies this
      ensures Progress(batch', fetched', order', done + {link}, before, t0, fetches0, template)
      ensures order' == order + [link]
      ensures batch' == batch + (if Outcome(old(attempt), old(files)).Some? then [(link, Outcome(old(attempt), old(files)).value)] else [])
      ensures old(log) <= log && Labels(log) == Labels(old(log))
    {
      ghost var a, f, l := attempt, files, log;
      var saved := Attempt(link, template);
      batch' := Keep(link, saved, batch, done, before);
      fetched' := fetched + (if CookiesReady(a) then [Fetched(link, CookieFile(env), template)] else []);
      order' := order + [link];
      NewStep(this, a, f, l, batch, fetched, order, done, before, t0, fetches0, template, link, saved, batch',
              downloaded, attempt, files, log);
    }

    /**
     * The end of one pass (downloader.py:74-117): a link whose attempt
     * produced a file joins `downloaded` and the batch.
     */
    method Keep(link: string, saved: Option<string>, batch: seq<(string, string)>, ghost done: set<string>, ghost before: set<string>)
      returns (batch': seq<(string, string)>)
      requires link !in done && link !in downloaded && Ledger.IsKeyable(link)
      requires saved.Some? ==> Ledger.IsStorableName(saved.value)
      requires downloaded == before + Ledger.LinksOf(batch) && FreshBatch(batch, done, before)
      modifies this`downloaded
      ensures downloaded == before + Ledger.LinksOf(batch') && FreshBatch(batch', done + {link}, before)
      ensures batch' == batch + (if saved.Some? then [(link, saved.value)] else [])
    {
      if saved.None? {
        BatchStep(batch, None, link, done, before);
        return batch;
      }
      // The second `link in downloaded` test (downloader.py:74-76) cannot
      // succeed: nothing since the first test has changed `downloaded`.
      assert link !in downloaded;
      var item := (link, saved.value);
      BatchStep(batch, Some(item), link, done, before);
      UnionAssoc(before, Ledger.LinksOf(batch), {link});
      downloaded := downloaded + {link};
      batch' := batch + [item];
    }

    /**
     * The link loop of downloader.py:35-117 over the deduplicated links, in
     * any order: `batch` is `newly_downloaded` and `fetched` the yt-dlp runs
     * started. `order` lists the links that were not yet downloaded, in the
     * order they were attempted; the attempts, the files, the batch and the
     * log are what attempting them one after the other gives.
     */
    method ProcessLinks(links: set<string>, template: string)
      returns (batch: seq<(string, string)>, successful: bool, ghost fetched: seq<Event>, ghost order: seq<string>)
      requires forall l :: l in links ==> Ledger.IsKeyable(l)
      modifies this
      ensures Distinct(order) && forall l :: l in order <==> l in links && l !in old(downloaded)
      ensures Attempts(order, template, Trace(old(attempt), old(files), [], old(log))) == Trace(attempt, files, batch, log)
      ensures fetched == Runs(order, template, old(attempt))
      ensures forall i :: 0 <= i < |batch| ==>
                batch[i].0 in links && batch[i].0 !in old(downloaded) && Ledger.IsStorable(batch[i])
      ensures Distinct(BatchLinks(batch))
      ensures successful <==> batch != []
      ensures downloaded == old(downloaded) + Ledger.LinksOf(batch)
      ensures attempt == old(attempt) + |links - old(downloaded)|
      ensures old(log) <= log && Labels(log) == Labels(old(log))
      ensures Fetches(log) == Fetches(old(log)) + fetched && Distinct(fetched)
      ensures forall e :: e in fetched ==>
                e.Fetched? && e.cookieFile == CookieFile(env) && e.template == template
                && e.link in links && e.link !in old(downloaded)
    {
      ghost var before, fetches0 := downloaded, Fetches(log);
      ghost var t0 := Trace(attempt, files, [], log);
      batch, successful, fetched, order := LinkLoop(links, template, before, t0, fetches0);
    }

    /** The loop of `ProcessLinks`, from the empty batch to every link handled. */
    method LinkLoop(links: set<string>, template: string, ghost before: set<string>, ghost t0: Trace<Event>, ghost fetches0: seq<Event>)
      returns (batch: seq<(string, string)>, successful: bool, ghost fetched: seq<Event>, ghost order: seq<string>)
      requires forall l :: l in links ==> Ledger.IsKeyable(l)
      requires Progress([], [], [], {}, before, t0, fetches0, template)
      modifies this
      ensures Progress(batch, fetched, order, links, before, t0, fetches0, template)
      ensures successful <==> batch != []
      ensures old(log) <= log && Labels(log) == Labels(old(log))
    {
      var todo := links;
      ghost var done: set<string> := {};
      fetched, order := [], [];
      successful := false;
      batch := [];
      while todo != {}
        invariant todo !! done && todo + done == links
        invariant Progress(batch, fetched, order, done, before, t0, fetches0, template)
        invariant successful <==> batch != []
        invariant old(log) <= log && Labels(log) == Labels(old(log))
        decreases |todo|
      {
        var link :| link in todo;
        var batch0 := batch;
        batch, fetched, order := HandleLink(link, template, batch, done, before, fetched, order, t0, fetches0);
        if |batch| > |batch0| {
          successful := true;
        }
        MoveOne(todo, done, links, link);
        todo := todo - {link};
        done := done + {link};
      }
    }

    /**
     * `process_email_body(body, mail, email_id, config, downloaded, sender_name)`.
     * `newly` is the batch written to the ledger (`newly_downloaded`),
     * `fetched` the yt-dlp runs it started and `order` the extracted links
     * that were not yet downloaded, in the order they were attempted.
     */
    method ProcessEmailBody(body: string, emailId: string, config: Config.Config, sender: Option<string>)
      returns (ghost newly: seq<(string, string)>, ghost fetched: seq<Event>, ghost order: seq<string>)
      requires Valid()
      modifies this, ledger
      ensures Valid()
      ensures Distinct(order) && forall l :: l in order <==> l in Links.ExtractValidLinks(body) && l !in old(downloaded)
      ensures var t := Attempts(order, Paths.OutputTemplate(Paths.OutputFolder(config.outputFolder, sender, config.autoMakeFolders)),
                                Trace(old(attempt), old(files), [], old(log)));
              newly == t.batch && attempt == t.attempt && files == t.files
              && log == t.log + (if newly != [] then [Labelled(emailId)] else [])
      ensures fetched == Runs(order, Paths.OutputTemplate(Paths.OutputFolder(config.outputFolder, sender, config.autoMakeFolders)),
                              old(attempt))
      ensures forall i :: 0 <= i < |newly| ==>
                newly[i].0 in Links.ExtractValidLinks(body) && newly[i].0 !in old(downloaded) && Ledger.IsStorable(newly[i])
      ensures Distinct(BatchLinks(newly))
      ensures downloaded == old(downloaded) + Ledger.LinksOf(newly)
      ensures newly == [] ==> ledger.present == old(ledger.present) && ledger.text == old(ledger.text)
      ensures newly != [] ==> ledger.present && ledger.text == old(ledger.text) + Ledger.Render(newly)
      ensures Labels(log) == Labels(old(log)) + (if newly != [] then [emailId] else [])
      ensures attempt == old(attempt) + |(set l | l in Links.ExtractValidLinks(body)) - old(downloaded)|
      ensures Fetches(log) == Fetches(old(log)) + fetched && Distinct(fetched)
      ensures forall e :: e in fetched ==>
                e.Fetched? && e.cookieFile == CookieFile(env)
                && e.template == Paths.OutputTemplate(Paths.OutputFolder(config.outputFolder, sender, config.autoMakeFolders))
                && e.link in Links.ExtractValidLinks(body) && e.link !in old(downloaded)
      ensures old(log) <= log
      ensures old(Coherent()) ==> Coherent()
    {
      var links := Links.ExtractValidLinks(body);
      Links.ExtractedLinksWellFormed(body);
      var unique := set l | l in links;
      assert forall l :: l in unique ==> Ledger.IsKeyable(l) by {
        forall l | l in unique ensures Ledger.IsKeyable(l) {
          assert Links.IsLink(l);
        }
      }
      var folder := Paths.OutputFolder(config.outputFolder, sender, config.autoMakeFolders);
      var template := Paths.OutputTemplate(folder);
      var batch, successful;
      batch, successful, fetched, order := ProcessLinks(unique, template);
      assert forall i :: 0 <= i < |batch| ==> batch[i].0 in links by {
        forall i | 0 <= i < |batch| ensures batch[i].0 in links {
          assert batch[i].0 in unique;
        }
      }
      ghost var coherent := old(Coherent());
      Record(batch, successful, emailId, coherent, old(downloaded));
      newly := batch;
    }

    /**
     * The end of `process_email_body`: the batch is appended to the ledger
     * in one write when it is not empty, and the email is labelled when a
     * link succeeded.
     */
    method Record(batch: seq<(string, string)>, successful: bool, emailId: string, ghost coherent: bool, ghost before: set<string>)
      requires Valid() && (successful <==> batch != [])
      requires forall i :: 0 <= i < |batch| ==> Ledger.IsStorable(batch[i])
      requires coherent ==> WellTerminated(ledger.text) && Ledger.LedgerKeys(ledger.text) == before
      requires downloaded == before + Ledger.LinksOf(batch)
      modifies this, ledger
      ensures Valid() && downloaded == old(downloaded) && attempt == old(attempt) && files == old(files)
      ensures batch == [] ==> ledger.present == old(ledger.present) && ledger.text == old(ledger.text)
      ensures batch != [] ==> ledger.present && ledger.text == old(ledger.text) + Ledger.Render(batch)
      ensures log == old(log) + (if successful then [Labelled(emailId)] else [])
      ensures Labels(log) == Labels(old(log)) + (if successful then [emailId] else [])
      ensures Fetches(log) == Fetches(old(log))
      ensures coherent ==> Coherent()
    {
      if batch != [] {
        ghost var text0 := ledger.text;
        ledger.SaveBatch(batch);
        if coherent {
          Ledger.RenderKeys(text0, batch);
        }
      }
      if successful {
        EventSnoc(log, Labelled(emailId));
        log := log + [Labelled(emailId)];
      }
    }
  }
}
