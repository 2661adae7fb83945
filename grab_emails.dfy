/**
 * The older single-file program (grabEmails.py:145-266). Its email loop and
 * body assembly are those of email_processor.py without per-sender folders;
 * its `process_email_body` differs from downloader.py:
 *   - the skip test uses a snapshot of the ledger's keys read once per
 *     email and never updated, and the links are not deduplicated, so a link
 *     repeated in a body is fetched again;
 *   - the file is the whole stripped stdout of yt-dlp;
 *   - every link with a file is saved at once with the guarded
 *     `save_downloaded`, so the ledger still gains a repeated link once;
 *   - `successful` is set only when ffmpeg ran, not on the path where the
 *     title was already right.
 * The oracles, the file set and the event log are those of
 * `Downloader.Session`; the shared `downloaded` set is not used.
 */
module GrabEmails {
  import opened Optional
  import opened Text
  import opened Traces
  import Config
  import Links
  import Ledger
  import Paths
  import Downloader
  import EmailProcessor

  // ---------------------------------------------------------------------
  // The ledger as the guarded saves leave it

  predicate AllStorableNames(items: seq<(string, string)>)
  {
    forall i :: 0 <= i < |items| ==> Ledger.IsStorableName(items[i].1)
  }

  /** Each appended link was keyable and not a key of the ledger text as it was when it was appended. */
  ghost predicate Guarded(text0: string, appended: seq<(string, string)>)
  {
    forall k :: 0 <= k < |appended| ==>
      Ledger.IsKeyable(appended[k].0) && appended[k].0 !in Ledger.LedgerKeys(text0 + Ledger.Render(appended[..k]))
  }

  /** When the starting text ends in a newline and every name is one line, the keys grew by exactly the appended links, none twice. */
  ghost predicate Clean(text: string, text0: string, appended: seq<(string, string)>)
  {
    WellTerminated(text0) && AllStorableNames(appended) ==>
      WellTerminated(text) && Ledger.LedgerKeys(text) == Ledger.LedgerKeys(text0) + Ledger.LinksOf(appended)
      && Downloader.Distinct(Downloader.BatchLinks(appended))
  }

  /** The ledger text after guarded saves appended `appended` to `text0`. */
  ghost predicate SaveFacts(text: string, text0: string, appended: seq<(string, string)>)
  {
    text == text0 + Ledger.Render(appended) && Guarded(text0, appended) && Clean(text, text0, appended)
  }

  lemma SaveFactsStart(text0: string)
    ensures SaveFacts(text0, text0, [])
  {
    assert text0 + Ledger.Render([]) == text0;
  }

  /** A guarded save that appends keeps the facts. */
  lemma SaveFactsStep(text: string, text0: string, appended: seq<(string, string)>, link: string, filename: string)
    requires SaveFacts(text, text0, appended) && Ledger.IsKeyable(link) && link !in Ledger.LedgerKeys(text)
    ensures SaveFacts(text + (Ledger.EntryLine(link, filename) + "\n"), text0, appended + [(link, filename)])
  {
    var item := (link, filename);
    var line := Ledger.EntryLine(link, filename) + "\n";
    assert text + line == text0 + Ledger.Render(appended + [item]) by {
      Ledger.RenderSnoc(appended, item);
      ConcatAssoc(text0, Ledger.Render(appended), line);
    }
    GuardedStep(text0, appended, item);
    CleanStep(text, text0, appended, item);
  }

  lemma GuardedStep(text0: string, appended: seq<(string, string)>, item: (string, string))
    requires Guarded(text0, appended) && Ledger.IsKeyable(item.0)
    requires item.0 !in Ledger.LedgerKeys(text0 + Ledger.Render(appended))
    ensures Guarded(text0, appended + [item])
  {
    var next := appended + [item];
    forall k | 0 <= k < |next|
      ensures Ledger.IsKeyable(next[k].0) && next[k].0 !in Ledger.LedgerKeys(text0 + Ledger.Render(next[..k]))
    {
      TakeConcat(appended, [item], k);
      if k < |appended| {
        GuardedAt(text0, appended, k);
      } else {
        assert next[..k] == appended;
      }
    }
  }

  lemma CleanStep(text: string, text0: string, appended: seq<(string, string)>, item: (string, string))
    requires Clean(text, text0, appended) && Ledger.IsKeyable(item.0) && item.0 !in Ledger.LedgerKeys(text)
    ensures Clean(text + (Ledger.EntryLine(item.0, item.1) + "\n"), text0, appended + [item])
  {
    var next := appended + [item];
    if WellTerminated(text0) && AllStorableNames(next) {
      assert AllStorableNames(appended) by {
        assert forall k :: 0 <= k < |appended| ==> appended[k] == next[k];
      }
      assert Ledger.IsStorableName(next[|appended|].1);
      Ledger.AppendEntryKeys(text, item.0, item.1);
      Ledger.LinksOfSnoc(appended, item);
      StorableStep(text, text0, appended, item);
    }
  }

  /** With one-line names the appended link is new among the appended links, and the text stays well terminated. */
  lemma StorableStep(text: string, text0: string, appended: seq<(string, string)>, item: (string, string))
    requires Ledger.LedgerKeys(text) == Ledger.LedgerKeys(text0) + Ledger.LinksOf(appended)
    requires WellTerminated(text) && Downloader.Distinct(Downloader.BatchLinks(appended))
    requires item.0 !in Ledger.LedgerKeys(text)
    ensures WellTerminated(text + (Ledger.EntryLine(item.0, item.1) + "\n"))
    ensures Downloader.Distinct(Downloader.BatchLinks(appended + [item]))
  {
    WellTerminatedAppend(text, Ledger.EntryLine(item.0, item.1));
    Ledger.LinksOfMembers(appended);
    var a := Downloader.BatchLinks(appended);
    forall k | 0 <= k < |a|
      ensures a[k] != item.0
    {
      assert a[k] == appended[k].0;
    }
    EmailProcessor.BatchLinksConcat(appended, [item]);
    EmailProcessor.DistinctConcat(a, [item.0]);
  }

  /** The guard alone decides the outcome: guarded appends always leave the keys clean. */
  lemma {:induction false} GuardedClean(text0: string, appended: seq<(string, string)>)
    requires Guarded(text0, appended)
    ensures Clean(text0 + Ledger.Render(appended), text0, appended)
    decreases |appended|
  {
    if appended == [] {
      assert text0 + Ledger.Render(appended) == text0;
      assert Ledger.LinksOf(appended) == {};
    } else {
      var n := |appended| - 1;
      var init, item := appended[..n], appended[n];
      SplitLast(appended);
      GuardedPrefix(text0, appended, n);
      GuardedClean(text0, init);
      GuardedAt(text0, appended, n);
      CleanStep(text0 + Ledger.Render(init), text0, init, item);
      Ledger.RenderSnoc(init, item);
      ConcatAssoc(text0, Ledger.Render(init), Ledger.EntryLine(item.0, item.1) + "\n");
    }
  }

  lemma GuardedAt(text0: string, appended: seq<(string, string)>, k: nat)
    requires Guarded(text0, appended) && k < |appended|
    ensures Ledger.IsKeyable(appended[k].0) && appended[k].0 !in Ledger.LedgerKeys(text0 + Ledger.Render(appended[..k]))
  {
  }

  /** The guard holds of every prefix of the appended entries. */
  lemma GuardedPrefix(text0: string, appended: seq<(string, string)>, n: nat)
    requires Guarded(text0, appended) && n <= |appended|
    ensures Guarded(text0, appended[..n])
  {
    var init := appended[..n];
    forall k | 0 <= k < |init|
      ensures Ledger.IsKeyable(init[k].0) && init[k].0 !in Ledger.LedgerKeys(text0 + Ledger.Render(init[..k]))
    {
      TakeTake(appended, n, k);
      GuardedAt(text0, appended, k);
    }
  }

  lemma SplitLast<T>(s: seq<T>)
    requires s != []
    ensures s == s[..|s| - 1] + [s[|s| - 1]]
  {
  }

  lemma TakeTake<T>(s: seq<T>, n: nat, k: nat)
    requires k < n <= |s|
    ensures s[..n][..k] == s[..k] && s[..n][k] == s[k]
  {
  }

  /** Two runs of guarded saves, one after the other, are one run that appended both batches. */
  lemma SaveFactsConcat(text0: string, text1: string, text2: string, a: seq<(string, string)>, b: seq<(string, string)>)
    requires SaveFacts(text1, text0, a) && SaveFacts(text2, text1, b)
    ensures SaveFacts(text2, text0, a + b)
  {
    RenderAfter(text0, a, b);
    GuardedConcat(text0, text1, a, b);
    GuardedClean(text0, a + b);
  }

  lemma GuardedConcat(text0: string, text1: string, a: seq<(string, string)>, b: seq<(string, string)>)
    requires text1 == text0 + Ledger.Render(a) && Guarded(text0, a) && Guarded(text1, b)
    ensures Guarded(text0, a + b)
  {
    var ab := a + b;
    forall k | 0 <= k < |ab|
      ensures Ledger.IsKeyable(ab[k].0) && ab[k].0 !in Ledger.LedgerKeys(text0 + Ledger.Render(ab[..k]))
    {
      if k < |a| {
        GuardedLeft(text0, a, b, k);
      } else {
        GuardedRight(text0, text1, a, b, k);
      }
    }
  }

  lemma GuardedLeft(text0: string, a: seq<(string, string)>, b: seq<(string, string)>, k: nat)
    requires Guarded(text0, a) && k < |a|
    ensures Ledger.IsKeyable((a + b)[k].0) && (a + b)[k].0 !in Ledger.LedgerKeys(text0 + Ledger.Render((a + b)[..k]))
  {
    TakeConcat(a, b, k);
  }

  lemma GuardedRight(text0: string, text1: string, a: seq<(string, string)>, b: seq<(string, string)>, k: nat)
    requires text1 == text0 + Ledger.Render(a) && Guarded(text1, b) && |a| <= k < |a| + |b|
    ensures Ledger.IsKeyable((a + b)[k].0) && (a + b)[k].0 !in Ledger.LedgerKeys(text0 + Ledger.Render((a + b)[..k]))
  {
    var j := k - |a|;
    TakeConcat(a, b, k);
    RenderAfter(text0, a, b[..j]);
    var t := text0 + Ledger.Render((a + b)[..k]);
    var u := text1 + Ledger.Render(b[..j]);
    assert t == u;
    assert Ledger.IsKeyable(b[j].0) && b[j].0 !in Ledger.LedgerKeys(u);
    assert (a + b)[k] == b[j];
  }

  /** A prefix of `a + b` is a prefix of `a`, or `a` and a prefix of `b`. */
  lemma TakeConcat<T>(a: seq<T>, b: seq<T>, k: nat)
    requires k <= |a| + |b|
    ensures k <= |a| ==> (a + b)[..k] == a[..k]
    ensures k >= |a| ==> (a + b)[..k] == a + b[..k - |a|]
  {
  }

  lemma RenderAfter(text0: string, a: seq<(string, string)>, b: seq<(string, string)>)
    ensures text0 + Ledger.Render(a + b) == (text0 + Ledger.Render(a)) + Ledger.Render(b)
  {
    Ledger.RenderConcat(a, b);
    ConcatAssoc(text0, Ledger.Render(a), Ledger.Render(b));
  }

  lemma WellTerminatedAppend(text: string, line: string)
    requires WellTerminated(text)
    ensures WellTerminated(text + (line + "\n"))
  {
    var t := text + (line + "\n");
    assert t[|t| - 1] == '\n';
  }

  // ---------------------------------------------------------------------
  // One link

  /** The file the older copy takes from yt-dlp: its whole stripped stdout. */
  function LegacyPath(reply: Downloader.FetchReply): string
  {
    Strip(reply.stdout)
  }

  /** The file recorded for attempt `n` when the disk held `disk` before it. */
  function LegacyOutcome(s: Downloader.Session, n: nat, disk: set<string>): Option<string>
  {
    var reply := s.world.fetch(n);
    var path := LegacyPath(reply);
    if s.CookiesReady(n) && reply.returnCode == 0 && path != "" && path in disk + reply.written then Some(path)
    else None
  }

  /** grabEmails.py:194-225: cookies, yt-dlp, and the checks on its return code and stdout. */
  method LegacyDownload(s: Downloader.Session, link: string, template: string) returns (filename: Option<string>, n: nat)
    modifies s
    ensures n == old(s.attempt) && s.attempt == n + 1 && s.downloaded == old(s.downloaded)
    ensures filename == LegacyOutcome(s, n, old(s.files))
    ensures filename.Some? ==> filename.value in s.files
    ensures !s.CookiesReady(n) ==> s.files == old(s.files) && s.log == old(s.log)
    ensures s.CookiesReady(n) ==> s.files == old(s.files) + s.world.fetch(n).written
    ensures s.CookiesReady(n) ==> s.log == old(s.log) + [Downloader.Fetched(link, Downloader.CookieFile(s.env), template)]
  {
    n := s.attempt;
    s.attempt := s.attempt + 1;
    if Downloader.UseFirefox(s.env) && !s.world.cookies(n) {
      return None, n;
    }
    var reply := s.world.fetch(n);
    s.log := s.log + [Downloader.Fetched(link, Downloader.CookieFile(s.env), template)];
    s.files := s.files + reply.written;
    var path := Strip(reply.stdout);
    if reply.returnCode != 0 {
      return None, n;
    }
    if path == "" || path !in s.files {
      return None, n;
    }
    return Some(path), n;
  }

  /** grabEmails.py:194-260 for one link outside the snapshot: download it and, when a file came back, retag it. */
  method LegacyFetch(s: Downloader.Session, link: string, template: string) returns (filename: Option<string>, ran: bool)
    modifies s
    ensures s.attempt == old(s.attempt) + 1 && s.downloaded == old(s.downloaded)
    ensures filename == LegacyOutcome(s, old(s.attempt), old(s.files))
    ensures ran <==> s.Retitles(old(s.attempt), filename)
    ensures s.files == s.DiskAfter(old(s.attempt), old(s.files), filename)
    ensures s.log == old(s.log) + s.AttemptLog(link, template, old(s.attempt), filename)
    ensures old(s.log) <= s.log && Downloader.Labels(s.log) == Downloader.Labels(old(s.log))
    ensures Downloader.Fetches(s.log) == Downloader.Fetches(old(s.log))
              + (if s.CookiesReady(old(s.attempt)) then [Downloader.Fetched(link, Downloader.CookieFile(s.env), template)] else [])
  {
    var n;
    filename, n := LegacyDownload(s, link, template);
    ghost var files1, log1 := s.files, s.log;
    if filename.None? {
      Downloader.FetchDisk(s, n, filename, false, old(s.files), files1, s.files);
      Downloader.FetchLog(s, link, template, n, filename, false, old(s.log), log1, s.log);
      Downloader.AttemptEvents(s, link, template, n, filename, old(s.log));
      return filename, false;
    }
    // The second `link in downloaded` test (grabEmails.py:227-229) reads the
    // same snapshot as the first and cannot succeed.
    ran := s.Tag(filename.value, n);
    Downloader.FetchDisk(s, n, filename, ran, old(s.files), files1, s.files);
    Downloader.FetchLog(s, link, template, n, filename, ran, old(s.log), log1, s.log);
    Downloader.AttemptEvents(s, link, template, n, filename, old(s.log));
  }

  /**
   * One pass of the link loop of grabEmails.py:189-263: skip a link in the
   * snapshot; otherwise download it and, when a file came back, retag it
   * and save it with the guarded `save_downloaded`. `ran` tells whether
   * ffmpeg ran, which is what sets `successful`.
   */
  method LegacyHandleLink(s: Downloader.Session, link: string, template: string, snapshot: set<string>,
                          ghost text0: string, ghost appended: seq<(string, string)>)
    returns (ran: bool, ghost appended': seq<(string, string)>)
    requires s.Valid() && Ledger.IsKeyable(link) && SaveFacts(s.ledger.text, text0, appended)
    modifies s, s.ledger
    ensures s.Valid() && SaveFacts(s.ledger.text, text0, appended') && s.downloaded == old(s.downloaded)
    ensures link in snapshot ==> s.attempt == old(s.attempt) && s.files == old(s.files) && s.log == old(s.log) && appended' == appended
    ensures link !in snapshot ==> s.attempt == old(s.attempt) + 1
    ensures var out := LegacyOutcome(s, old(s.attempt), old(s.files));
            link !in snapshot ==>
              s.files == s.DiskAfter(old(s.attempt), old(s.files), out)
              && s.log == old(s.log) + s.AttemptLog(link, template, old(s.attempt), out)
              && (ran <==> s.Retitles(old(s.attempt), out))
    ensures link !in snapshot ==>
              Trace(s.attempt, s.files, appended', s.log)
              == LegacyTurn(s, template, text0, link, Trace(old(s.attempt), old(s.files), appended, old(s.log)))
    ensures var out := LegacyOutcome(s, old(s.attempt), old(s.files));
            appended' == appended + (if link !in snapshot && out.Some? && link !in Ledger.LedgerKeys(old(s.ledger.text))
                                     then [(link, out.value)] else [])
    ensures ran ==> link !in snapshot && LegacyOutcome(s, old(s.attempt), old(s.files)).Some?
    ensures ran && appended == [] && link !in Ledger.LedgerKeys(text0) ==> appended' != []
    ensures old(s.log) <= s.log && Downloader.Labels(s.log) == Downloader.Labels(old(s.log))
    ensures Downloader.Fetches(s.log) == Downloader.Fetches(old(s.log))
              + (if link !in snapshot && s.CookiesReady(old(s.attempt))
                 then [Downloader.Fetched(link, Downloader.CookieFile(s.env), template)] else [])
  {
    if link in snapshot {
      // "Already downloaded"
      return false, appended;
    }
    ghost var before := Trace(s.attempt, s.files, appended, s.log);
    var filename;
    filename, ran := LegacyFetch(s, link, template);
    if filename.None? {
      appended' := appended;
    } else {
      if appended == [] {
        assert s.ledger.text == text0 + "" == text0;
      }
      appended' := LegacySave(s, link, filename.value, text0, appended);
    }
    TurnIs(s, template, text0, link, before, s.attempt, s.files, appended', s.log, filename);
  }

  /** The state one fresh link leaves, spelled out, is `LegacyTurn`. */
  lemma TurnIs(s: Downloader.Session, template: string, text0: string, link: string, before: Trace<Downloader.Event>,
               attempt: nat, files: set<string>, appended: seq<(string, string)>, log: seq<Downloader.Event>, out: Option<string>)
    requires out == LegacyOutcome(s, before.attempt, before.files)
    requires attempt == before.attempt + 1 && files == s.DiskAfter(before.attempt, before.files, out)
    requires log == before.log + s.AttemptLog(link, template, before.attempt, out)
    requires appended == before.batch + (if out.Some? && link !in Ledger.LedgerKeys(text0 + Ledger.Render(before.batch))
                                         then [(link, out.value)] else [])
    ensures Trace(attempt, files, appended, log) == LegacyTurn(s, template, text0, link, before)
  {
  }

  /** `save_downloaded(link, filename)` with the facts it keeps: it appends exactly when the link is not yet a key. */
  method LegacySave(s: Downloader.Session, link: string, filename: string, ghost text0: string, ghost appended: seq<(string, string)>)
    returns (ghost appended': seq<(string, string)>)
    requires s.Valid() && Ledger.IsKeyable(link) && SaveFacts(s.ledger.text, text0, appended)
    modifies s.ledger
    ensures s.Valid() && SaveFacts(s.ledger.text, text0, appended')
    ensures appended' == appended + (if link in Ledger.LedgerKeys(old(s.ledger.text)) then [] else [(link, filename)])
  {
    ghost var text := s.ledger.text;
    s.ledger.Save(link, filename);
    if link in Ledger.LedgerKeys(text) {
      appended' := appended;
    } else {
      SaveFactsStep(text, text0, appended, link, filename);
      appended' := appended + [(link, filename)];
    }
  }

  // ---------------------------------------------------------------------
  // One email

  /** How many links of the list are outside `snapshot`, counting repeats. */
  function NewCount(links: seq<string>, snapshot: set<string>): nat
  {
    if links == [] then 0
    else NewCount(links[..|links| - 1], snapshot) + (if links[|links| - 1] in snapshot then 0 else 1)
  }

  /** Every occurrence counts: a link outside the snapshot that appears twice is attempted twice. */
  lemma {:induction false} NewCountConcat(a: seq<string>, b: seq<string>, snapshot: set<string>)
    ensures NewCount(a + b, snapshot) == NewCount(a, snapshot) + NewCount(b, snapshot)
    decreases |b|
  {
    if b == [] {
      assert a + b == a;
    } else {
      var init := b[..|b| - 1];
      assert a + b == (a + init) + [b[|b| - 1]];
      assert (a + b)[..|a + b| - 1] == a + init;
      NewCountConcat(a, init, snapshot);
    }
  }

  lemma NewCountRepeat(l: string, snapshot: set<string>)
    requires l !in snapshot
    ensures NewCount([l, l], snapshot) == 2
  {
    assert [l, l][..1] == [l];
    assert [l][..0] == [];
    assert NewCount([l], snapshot) == 1;
  }

  /** The occurrences of `links` outside `snapshot`, in order and with repeats: the links the loop attempts. */
  function Fresh(links: seq<string>, snapshot: set<string>): (r: seq<string>)
    ensures |r| <= |links|
  {
    if links == [] then []
    else Fresh(links[..|links| - 1], snapshot) + (if links[|links| - 1] in snapshot then [] else [links[|links| - 1]])
  }

  /** One attempt per occurrence outside the snapshot, and exactly the links outside it. */
  lemma {:induction false} FreshFacts(links: seq<string>, snapshot: set<string>)
    ensures |Fresh(links, snapshot)| == NewCount(links, snapshot)
    ensures forall l :: l in Fresh(links, snapshot) <==> l in links && l !in snapshot
  {
    if links != [] {
      var init := links[..|links| - 1];
      FreshFacts(init, snapshot);
      assert links == init + [links[|links| - 1]];
    }
  }

  /** The occurrences outside the snapshot of two lists of links, one list after the other. */
  lemma {:induction false} FreshOfConcat(a: seq<string>, b: seq<string>, snapshot: set<string>)
    ensures Fresh(a + b, snapshot) == Fresh(a, snapshot) + Fresh(b, snapshot)
    decreases |b|
  {
    if b == [] {
      assert a + b == a;
    } else {
      var init := b[..|b| - 1];
      assert a + b == (a + init) + [b[|b| - 1]];
      assert (a + b)[..|a + b| - 1] == a + init;
      FreshOfConcat(a, init, snapshot);
    }
  }

  /**
   * Link `i` outside the snapshot is attempted as number
   * `NewCount(links[..i], snapshot)` of the fresh occurrences.
   */
  lemma FreshAt(links: seq<string>, i: nat, snapshot: set<string>)
    requires i < |links|
    ensures NewCount(links[..i], snapshot) <= |Fresh(links, snapshot)|
    ensures links[i] !in snapshot ==>
              NewCount(links[..i], snapshot) < |Fresh(links, snapshot)|
              && Fresh(links, snapshot)[NewCount(links[..i], snapshot)] == links[i]
  {
    var pre, rest := links[..i], links[i..];
    assert links == pre + rest;
    FreshOfConcat(pre, rest, snapshot);
    FreshFacts(pre, snapshot);
    assert rest == [links[i]] + rest[1..];
    FreshOfConcat([links[i]], rest[1..], snapshot);
    assert [links[i]][..0] == [];
  }

  lemma FreshAll(links: seq<string>, snapshot: set<string>)
    ensures NewCount(links[..|links|], snapshot) == |Fresh(links, snapshot)|
  {
    assert links[..|links|] == links;
    FreshFacts(links, snapshot);
  }

  // ---------------------------------------------------------------------
  // The link loop as a sequence of attempts

  /** What a guarded save keeps for `link` on trace `t`: the file it got, unless the link is a key of the ledger by then. */
  function LegacyKept(s: Downloader.Session, text0: string, link: string, t: Trace<Downloader.Event>): Option<string>
  {
    var out := LegacyOutcome(s, t.attempt, t.files);
    if out.Some? && link !in Ledger.LedgerKeys(text0 + Ledger.Render(t.batch)) then out else None
  }

  /**
   * One link outside the snapshot attempted from `t` (grabEmails.py:194-260):
   * the disk and the log change as for `Downloader.Session.Step`, with the
   * whole stdout as the file, and the batch gains what the guarded save keeps.
   */
  function LegacyTurn(s: Downloader.Session, template: string, text0: string, link: string,
                      t: Trace<Downloader.Event>): Trace<Downloader.Event>
  {
    var out := LegacyOutcome(s, t.attempt, t.files);
    var kept := LegacyKept(s, text0, link, t);
    Trace(t.attempt + 1, s.DiskAfter(t.attempt, t.files, out),
          t.batch + (if kept.Some? then [(link, kept.value)] else []),
          t.log + s.AttemptLog(link, template, t.attempt, out))
  }

  function LegacyFn(s: Downloader.Session, template: string, text0: string): (string, Trace<Downloader.Event>) -> Trace<Downloader.Event>
  {
    (link, t) => LegacyTurn(s, template, text0, link, t)
  }

  function KeptFn(s: Downloader.Session, text0: string): (string, Trace<Downloader.Event>) -> Option<string>
  {
    (link, t) => LegacyKept(s, text0, link, t)
  }

  function GotFn(s: Downloader.Session): (string, Trace<Downloader.Event>) -> Option<string>
  {
    (link: string, t: Trace<Downloader.Event>) => LegacyOutcome(s, t.attempt, t.files)
  }

  /** The attempt on trace `t` got a file whose probed title differs, so ffmpeg runs and `successful` is set. */
  function RetitlesFn(s: Downloader.Session): (string, Trace<Downloader.Event>) -> bool
  {
    (link: string, t: Trace<Downloader.Event>) => s.Retitles(t.attempt, LegacyOutcome(s, t.attempt, t.files))
  }

  /**
   * Every attempt of the older copy uses up one number, keeps its link
   * exactly when the guarded save appends it, adds to the disk only what
   * yt-dlp wrote, and leaves no temporary file of its own.
   */
  lemma LegacyLaws(s: Downloader.Session, template: string, text0: string)
    ensures Counts(LegacyFn(s, template, text0)) && Keeps(LegacyFn(s, template, text0), KeptFn(s, text0))
    ensures Grows(LegacyFn(s, template, text0), s.Wrote())
    ensures Cleans(LegacyFn(s, template, text0), GotFn(s), s.Wrote(), Paths.TempPath)
  {
  }

  /** The attempts of the fresh occurrences of `links` from `t0`. */
  function LegacyAttempts(s: Downloader.Session, links: seq<string>, snapshot: set<string>, template: string,
                          text0: string, t0: Trace<Downloader.Event>): Trace<Downloader.Event>
  {
    UpTo(LegacyFn(s, template, text0), Fresh(links, snapshot), |Fresh(links, snapshot)|, t0)
  }

  /**
   * The saves of the fresh occurrences are, after those already made, exactly
   * the occurrences whose attempt got a file while the link was not yet a
   * key of the ledger, each with that file.
   */
  lemma LegacySaves(s: Downloader.Session, links: seq<string>, snapshot: set<string>, template: string,
                    text0: string, t0: Trace<Downloader.Event>)
    ensures t0.batch <= LegacyAttempts(s, links, snapshot, template, text0, t0).batch
    ensures forall x :: x in LegacyAttempts(s, links, snapshot, template, text0, t0).batch[|t0.batch|..]
                        <==> Recorded(LegacyFn(s, template, text0), KeptFn(s, text0), Fresh(links, snapshot),
                                      |Fresh(links, snapshot)|, t0, x)
  {
    LegacyLaws(s, template, text0);
    UpToBatch(LegacyFn(s, template, text0), KeptFn(s, text0), Fresh(links, snapshot), |Fresh(links, snapshot)|, t0);
  }

  /** Over the fresh occurrences, the disk only gains files that yt-dlp wrote. */
  lemma LegacyFiles(s: Downloader.Session, links: seq<string>, snapshot: set<string>, template: string,
                    text0: string, t0: Trace<Downloader.Event>)
    ensures LegacyAttempts(s, links, snapshot, template, text0, t0).files
            <= t0.files + Written(s.Wrote(), t0.attempt, |Fresh(links, snapshot)|)
  {
    LegacyLaws(s, template, text0);
    var order := Fresh(links, snapshot);
    UpToFiles(LegacyFn(s, template, text0), s.Wrote(), order, 0, |order|, t0, t0.attempt, |order|);
  }

  /**
   * The `.tmp.mp4` file of an attempt that got a file never survives the
   * loop, unless it was on the disk at the start or yt-dlp itself wrote a
   * file of that name.
   */
  lemma LegacyNoTemp(s: Downloader.Session, links: seq<string>, snapshot: set<string>, template: string,
                     text0: string, t0: Trace<Downloader.Event>, k: nat)
    requires k < |Fresh(links, snapshot)|
    requires GotFn(s)(Fresh(links, snapshot)[k], UpTo(LegacyFn(s, template, text0), Fresh(links, snapshot), k, t0)).Some?
    ensures var u := UpTo(LegacyFn(s, template, text0), Fresh(links, snapshot), k, t0);
            Paths.TempPath(LegacyOutcome(s, u.attempt, u.files).value)
            !in LegacyAttempts(s, links, snapshot, template, text0, t0).files
                - (t0.files + Written(s.Wrote(), t0.attempt, |Fresh(links, snapshot)|))
  {
    LegacyLaws(s, template, text0);
    var order := Fresh(links, snapshot);
    var f := LegacyFn(s, template, text0);
    var u := UpTo(f, order, k, t0);
    assert Paths.TempPath(GotFn(s)(order[k], u).value) !in f(order[k], u).files - (u.files + s.Wrote()(u.attempt));
    UpToNoTemp(f, GotFn(s), s.Wrote(), Paths.TempPath, order, k, t0);
  }

  /**
   * The older program's labelling gap: when the only fresh occurrence in a
   * body gets a file whose probed title is already right, the guarded save
   * keeps it, yet no attempt ran ffmpeg, so `successful` stays false and
   * the email is not labelled done.
   */
  lemma SavedButUnlabelled(s: Downloader.Session, links: seq<string>, snapshot: set<string>, template: string,
                           text0: string, t0: Trace<Downloader.Event>, link: string)
    requires Fresh(links, snapshot) == [link]
    requires LegacyOutcome(s, t0.attempt, t0.files).Some? && !s.Retitles(t0.attempt, LegacyOutcome(s, t0.attempt, t0.files))
    requires link !in Ledger.LedgerKeys(text0 + Ledger.Render(t0.batch))
    ensures LegacyAttempts(s, links, snapshot, template, text0, t0).batch
            == t0.batch + [(link, LegacyOutcome(s, t0.attempt, t0.files).value)]
    ensures !Raised(LegacyFn(s, template, text0), RetitlesFn(s), Fresh(links, snapshot), |Fresh(links, snapshot)|, t0)
  {
  }

  /**
   * The loop has handled the first `i` links: `now`, the disk, counter,
   * saves and log, is what the step `f` leaves after the fresh occurrences
   * among them, and `successful` is set exactly when `flag` held for one of
   * those steps. The loop uses `LegacyFn` and `RetitlesFn`.
   */
  ghost predicate Traced(f: (string, Trace<Downloader.Event>) -> Trace<Downloader.Event>,
                         flag: (string, Trace<Downloader.Event>) -> bool, links: seq<string>, i: nat,
                         snapshot: set<string>, t0: Trace<Downloader.Event>, now: Trace<Downloader.Event>, successful: bool)
  {
    i <= |links| && NewCount(links[..i], snapshot) <= |Fresh(links, snapshot)|
    && now == UpTo(f, Fresh(links, snapshot), NewCount(links[..i], snapshot), t0)
    && (successful <==> Raised(f, flag, Fresh(links, snapshot), NewCount(links[..i], snapshot), t0))
  }

  /** One more link: a link in the snapshot changes nothing, a fresh one is one more step. */
  lemma TracedStep(f: (string, Trace<Downloader.Event>) -> Trace<Downloader.Event>,
                   flag: (string, Trace<Downloader.Event>) -> bool, links: seq<string>, i: nat,
                   snapshot: set<string>, t0: Trace<Downloader.Event>, now: Trace<Downloader.Event>, successful: bool,
                   ran: bool, now': Trace<Downloader.Event>)
    requires i < |links| && Traced(f, flag, links, i, snapshot, t0, now, successful)
    requires links[i] in snapshot ==> now' == now && !ran
    requires links[i] !in snapshot ==> now' == f(links[i], now) && (ran <==> flag(links[i], now))
    ensures Traced(f, flag, links, i + 1, snapshot, t0, now', successful || ran)
  {
    var order := Fresh(links, snapshot);
    var n := NewCount(links[..i], snapshot);
    PrefixStep(links, i, snapshot);
    FreshAt(links, i, snapshot);
    var next := NewCount(links[..i + 1], snapshot);
    if links[i] !in snapshot {
      TraceTake(f, flag, order, n, next, t0, now, successful, ran, now');
    }
  }

  /** Taking step `n` of a fixed order moves the trace and the flag on by that step. */
  lemma TraceTake(f: (string, Trace<Downloader.Event>) -> Trace<Downloader.Event>, flag: (string, Trace<Downloader.Event>) -> bool,
                  order: seq<string>, n: nat, next: nat, t0: Trace<Downloader.Event>, now: Trace<Downloader.Event>,
                  successful: bool, ran: bool, now': Trace<Downloader.Event>)
    requires n < |order| && next == n + 1
    requires now == UpTo(f, order, n, t0) && (successful <==> Raised(f, flag, order, n, t0))
    requires now' == f(order[n], now) && (ran <==> flag(order[n], now))
    ensures now' == UpTo(f, order, next, t0) && (successful || ran <==> Raised(f, flag, order, next, t0))
  {
    UpToLast(f, order, n, t0);
    RaisedStep(f, flag, order, n, t0);
  }

  /** What the link loop knows after the first `i` links, stated on values. */
  ghost predicate LinkFacts(links: seq<string>, i: nat, snapshot: set<string>, template: string, cookieFile: string,
                            text: string, text0: string, appended: seq<(string, string)>, fetched: seq<Downloader.Event>,
                            successful: bool, attempt: nat, attempt0: nat, log: seq<Downloader.Event>, log0: seq<Downloader.Event>)
  {
    i <= |links|
    && SaveFacts(text, text0, appended)
    && (forall k :: 0 <= k < |appended| ==> appended[k].0 in links[..i] && appended[k].0 !in snapshot)
    && attempt == attempt0 + NewCount(links[..i], snapshot)
    && log0 <= log && Downloader.Labels(log) == Downloader.Labels(log0)
    && Downloader.Fetches(log) == Downloader.Fetches(log0) + fetched
    && (forall e :: e in fetched ==>
          e.Fetched? && e.link in links[..i] && e.link !in snapshot && e.cookieFile == cookieFile && e.template == template)
    && (successful ==> appended != [])
  }

  /** The yt-dlp run a link leaves in the log: one exactly when it is outside the snapshot and the cookies were ready. */
  function RunOf(link: string, snapshot: set<string>, ready: bool, cookieFile: string, template: string): (run: seq<Downloader.Event>)
    ensures |run| <= 1 && (run != [] <==> link !in snapshot && ready)
    ensures forall e :: e in run ==> e == Downloader.Fetched(link, cookieFile, template) && link !in snapshot
  {
    if link !in snapshot && ready then [Downloader.Fetched(link, cookieFile, template)] else []
  }

  /** One link handled, as `LegacyHandleLink` reports it: `out` is the file yt-dlp named, `now` the run it logged. */
  lemma LinkFactsStep(links: seq<string>, i: nat, snapshot: set<string>, template: string, cookieFile: string,
                      text: string, text0: string, appended: seq<(string, string)>, fetched: seq<Downloader.Event>,
                      successful: bool, attempt: nat, attempt0: nat, log: seq<Downloader.Event>, log0: seq<Downloader.Event>,
                      out: Option<string>, now: seq<Downloader.Event>, ran: bool,
                      text': string, appended': seq<(string, string)>, attempt': nat, log': seq<Downloader.Event>)
    requires i < |links| && snapshot == Ledger.LedgerKeys(text0)
    requires LinkFacts(links, i, snapshot, template, cookieFile, text, text0, appended, fetched, successful, attempt, attempt0, log, log0)
    requires SaveFacts(text', text0, appended')
    requires appended' == appended + (if links[i] !in snapshot && out.Some? && links[i] !in Ledger.LedgerKeys(text)
                                      then [(links[i], out.value)] else [])
    requires links[i] in snapshot ==> attempt' == attempt
    requires links[i] !in snapshot ==> attempt' == attempt + 1
    requires ran ==> links[i] !in snapshot
    requires ran && appended == [] && links[i] !in Ledger.LedgerKeys(text0) ==> appended' != []
    requires log <= log' && Downloader.Labels(log') == Downloader.Labels(log)
    requires forall e :: e in now ==> e == Downloader.Fetched(links[i], cookieFile, template) && links[i] !in snapshot
    requires Downloader.Fetches(log') == Downloader.Fetches(log) + now
    ensures LinkFacts(links, i + 1, snapshot, template, cookieFile, text', text0, appended', fetched + now,
                      successful || ran, attempt', attempt0, log', log0)
  {
    PrefixStep(links, i, snapshot);
    ConcatAssoc(Downloader.Fetches(log0), fetched, now);
    FetchedGrows(links, i, snapshot, template, cookieFile, fetched, now);
    AppendedGrows(links, i, snapshot, appended, appended', out, Ledger.LedgerKeys(text));
    assert attempt' == attempt0 + NewCount(links[..i + 1], snapshot);
    assert log0 <= log';
  }

  lemma FetchedGrows(links: seq<string>, i: nat, snapshot: set<string>, template: string, cookieFile: string,
                     fetched: seq<Downloader.Event>, now: seq<Downloader.Event>)
    requires i < |links|
    requires forall e :: e in fetched ==>
               e.Fetched? && e.link in links[..i] && e.link !in snapshot && e.cookieFile == cookieFile && e.template == template
    requires forall e :: e in now ==> e == Downloader.Fetched(links[i], cookieFile, template) && links[i] !in snapshot
    ensures forall e :: e in fetched + now ==>
              e.Fetched? && e.link in links[..i + 1] && e.link !in snapshot && e.cookieFile == cookieFile && e.template == template
  {
    PrefixStep(links, i, snapshot);
    forall e | e in fetched + now
      ensures e.Fetched? && e.link in links[..i + 1] && e.link !in snapshot && e.cookieFile == cookieFile && e.template == template
    {
      if e !in fetched {
        assert e in now;
      }
    }
  }

  lemma AppendedGrows(links: seq<string>, i: nat, snapshot: set<string>, appended: seq<(string, string)>,
                      appended': seq<(string, string)>, out: Option<string>, keys: set<string>)
    requires i < |links|
    requires forall k :: 0 <= k < |appended| ==> appended[k].0 in links[..i] && appended[k].0 !in snapshot
    requires appended' == appended + (if links[i] !in snapshot && out.Some? && links[i] !in keys then [(links[i], out.value)] else [])
    ensures forall k :: 0 <= k < |appended'| ==> appended'[k].0 in links[..i + 1] && appended'[k].0 !in snapshot
  {
    PrefixStep(links, i, snapshot);
    forall k | 0 <= k < |appended'|
      ensures appended'[k].0 in links[..i + 1] && appended'[k].0 !in snapshot
    {
      if k >= |appended| {
        assert appended'[k].0 == links[i];
      } else {
        assert appended'[k] == appended[k];
      }
    }
  }

  /**
   * `process_email_body(body, mail, email_id, config)` of grabEmails.py.
   * `appended` are the entries the guarded saves wrote and `fetched` the
   * yt-dlp runs, in order.
   */
  method LegacyProcessEmailBody(s: Downloader.Session, body: string, emailId: string, config: Config.Config)
    returns (successful: bool, ghost appended: seq<(string, string)>, ghost fetched: seq<Downloader.Event>)
    requires s.Valid()
    modifies s, s.ledger
    ensures s.Valid() && s.downloaded == old(s.downloaded)
    ensures SaveFacts(s.ledger.text, old(s.ledger.text), appended)
    ensures forall k :: 0 <= k < |appended| ==>
              appended[k].0 in Links.ExtractValidLinks(body) && appended[k].0 !in old(Ledger.LedgerKeys(s.ledger.text))
    ensures s.attempt == old(s.attempt) + NewCount(Links.ExtractValidLinks(body), old(Ledger.LedgerKeys(s.ledger.text)))
    ensures old(s.log) <= s.log
    ensures Downloader.Labels(s.log) == Downloader.Labels(old(s.log)) + (if successful then [emailId] else [])
    ensures Downloader.Fetches(s.log) == Downloader.Fetches(old(s.log)) + fetched
    ensures forall e :: e in fetched ==>
              e.Fetched? && e.link in Links.ExtractValidLinks(body) && e.link !in old(Ledger.LedgerKeys(s.ledger.text))
              && e.cookieFile == Downloader.CookieFile(s.env)
              && e.template == Paths.OutputTemplate(config.outputFolder)
    ensures successful ==> appended != []
    ensures var links, snapshot := Links.ExtractValidLinks(body), old(Ledger.LedgerKeys(s.ledger.text));
            var t0 := Trace(old(s.attempt), old(s.files), [], old(s.log));
            var t := LegacyAttempts(s, links, snapshot, Paths.OutputTemplate(config.outputFolder), old(s.ledger.text), t0);
            appended == t.batch && s.attempt == t.attempt && s.files == t.files
            && s.log == t.log + (if successful then [Downloader.Labelled(emailId)] else [])
            && (successful <==> Raised(LegacyFn(s, Paths.OutputTemplate(config.outputFolder), old(s.ledger.text)), RetitlesFn(s),
                                       Fresh(links, snapshot), |Fresh(links, snapshot)|, t0))
  {
    var snapshot := s.ledger.Load();
    var links := Links.ExtractValidLinks(body);
    Links.ExtractedLinksWellFormed(body);
    assert forall l :: l in links ==> Ledger.IsKeyable(l) by {
      forall l | l in links ensures Ledger.IsKeyable(l) {
        assert Links.IsLink(l);
      }
    }
    var template := Paths.OutputTemplate(config.outputFolder);
    successful, appended, fetched := LegacyLinkLoop(s, links, snapshot, template);
    LegacyLabel(s, emailId, successful);
  }

  /** grabEmails.py:265-266: an email counts as done, and is labelled, when some attempt of its links ran ffmpeg. */
  method LegacyLabel(s: Downloader.Session, emailId: string, successful: bool)
    requires s.Valid()
    modifies s
    ensures s.Valid() && s.downloaded == old(s.downloaded) && s.attempt == old(s.attempt) && s.files == old(s.files)
    ensures s.log == old(s.log) + (if successful then [Downloader.Labelled(emailId)] else [])
    ensures Downloader.Labels(s.log) == Downloader.Labels(old(s.log)) + (if successful then [emailId] else [])
    ensures Downloader.Fetches(s.log) == Downloader.Fetches(old(s.log))
  {
    if successful {
      Downloader.EventSnoc(s.log, Downloader.Labelled(emailId));
      s.log := s.log + [Downloader.Labelled(emailId)];
    } else {
      assert s.log + [] == s.log;
    }
  }

  /** The link loop of grabEmails.py:189-263 over the extracted links, skipping those in `snapshot`. */
  method LegacyLinkLoop(s: Downloader.Session, links: seq<string>, snapshot: set<string>, template: string)
    returns (successful: bool, ghost appended: seq<(string, string)>, ghost fetched: seq<Downloader.Event>)
    requires s.Valid() && snapshot == Ledger.LedgerKeys(s.ledger.text)
    requires forall l :: l in links ==> Ledger.IsKeyable(l)
    modifies s, s.ledger
    ensures s.Valid() && s.downloaded == old(s.downloaded)
    ensures SaveFacts(s.ledger.text, old(s.ledger.text), appended)
    ensures forall k :: 0 <= k < |appended| ==> appended[k].0 in links && appended[k].0 !in snapshot
    ensures s.attempt == old(s.attempt) + NewCount(links, snapshot)
    ensures old(s.log) <= s.log && Downloader.Labels(s.log) == Downloader.Labels(old(s.log))
    ensures Downloader.Fetches(s.log) == Downloader.Fetches(old(s.log)) + fetched
    ensures forall e :: e in fetched ==>
              e.Fetched? && e.link in links && e.link !in snapshot
              && e.cookieFile == Downloader.CookieFile(s.env) && e.template == template
    ensures successful ==> appended != []
    ensures var t0 := Trace(old(s.attempt), old(s.files), [], old(s.log));
            Trace(s.attempt, s.files, appended, s.log) == LegacyAttempts(s, links, snapshot, template, old(s.ledger.text), t0)
            && (successful <==> Raised(LegacyFn(s, template, old(s.ledger.text)), RetitlesFn(s), Fresh(links, snapshot),
                                       |Fresh(links, snapshot)|, t0))
  {
    ghost var text0 := s.ledger.text;
    ghost var log0 := s.log;
    ghost var t0 := Trace(s.attempt, s.files, [], s.log);
    successful := false;
    appended, fetched := [], [];
    SaveFactsStart(text0);
    TracedStart(LegacyFn(s, template, text0), RetitlesFn(s), links, snapshot, t0);
    var i := 0;
    while i < |links|
      invariant i <= |links|
      invariant s.Valid() && s.downloaded == old(s.downloaded) && snapshot == Ledger.LedgerKeys(text0)
      invariant LinkFacts(links, i, snapshot, template, Downloader.CookieFile(s.env), s.ledger.text, text0, appended, fetched,
                          successful, s.attempt, old(s.attempt), s.log, log0)
      invariant Traced(LegacyFn(s, template, text0), RetitlesFn(s), links, i, snapshot, t0,
                       Trace(s.attempt, s.files, appended, s.log), successful)
    {
      assert links[i] in links;
      successful, appended, fetched :=
        LegacyStep(s, links, i, snapshot, template, text0, appended, fetched, successful, old(s.attempt), log0, t0);
      i := i + 1;
    }
    FreshAll(links, snapshot);
    LinkFactsAll(links, snapshot, template, Downloader.CookieFile(s.env), s.ledger.text, text0, appended, fetched,
                 successful, s.attempt, old(s.attempt), s.log, log0);
  }

  /** Before the first link nothing is attempted and nothing is raised. */
  lemma TracedStart(f: (string, Trace<Downloader.Event>) -> Trace<Downloader.Event>,
                    flag: (string, Trace<Downloader.Event>) -> bool, links: seq<string>, snapshot: set<string>,
                    t0: Trace<Downloader.Event>)
    ensures Traced(f, flag, links, 0, snapshot, t0, t0, false)
  {
    assert links[..0] == [];
  }

  /** Once every link is handled, the facts speak of the whole list. */
  lemma LinkFactsAll(links: seq<string>, snapshot: set<string>, template: string, cookieFile: string,
                     text: string, text0: string, appended: seq<(string, string)>, fetched: seq<Downloader.Event>,
                     successful: bool, attempt: nat, attempt0: nat, log: seq<Downloader.Event>, log0: seq<Downloader.Event>)
    requires LinkFacts(links, |links|, snapshot, template, cookieFile, text, text0, appended, fetched, successful, attempt, attempt0, log, log0)
    ensures forall k :: 0 <= k < |appended| ==> appended[k].0 in links && appended[k].0 !in snapshot
    ensures attempt == attempt0 + NewCount(links, snapshot)
    ensures forall e :: e in fetched ==>
              e.Fetched? && e.link in links && e.link !in snapshot && e.cookieFile == cookieFile && e.template == template
  {
    assert links[..|links|] == links;
  }

  /** One turn of the link loop of grabEmails.py:189-263, with what the loop knows before and after it. */
  method LegacyStep(s: Downloader.Session, links: seq<string>, i: nat, snapshot: set<string>, template: string,
                    ghost text0: string, ghost appended: seq<(string, string)>, ghost fetched: seq<Downloader.Event>,
                    successful: bool, ghost attempt0: nat, ghost log0: seq<Downloader.Event>, ghost t0: Trace<Downloader.Event>)
    returns (successful': bool, ghost appended': seq<(string, string)>, ghost fetched': seq<Downloader.Event>)
    requires i < |links| && Ledger.IsKeyable(links[i]) && snapshot == Ledger.LedgerKeys(text0) && s.Valid()
    requires LinkFacts(links, i, snapshot, template, Downloader.CookieFile(s.env), s.ledger.text, text0, appended, fetched,
                       successful, s.attempt, attempt0, s.log, log0)
    requires Traced(LegacyFn(s, template, text0), RetitlesFn(s), links, i, snapshot, t0,
                    Trace(s.attempt, s.files, appended, s.log), successful)
    modifies s, s.ledger
    ensures s.Valid() && s.downloaded == old(s.downloaded)
    ensures LinkFacts(links, i + 1, snapshot, template, Downloader.CookieFile(s.env), s.ledger.text, text0, appended', fetched',
                      successful', s.attempt, attempt0, s.log, log0)
    ensures Traced(LegacyFn(s, template, text0), RetitlesFn(s), links, i + 1, snapshot, t0,
                   Trace(s.attempt, s.files, appended', s.log), successful')
  {
    var link := links[i];
    ghost var ready := s.CookiesReady(s.attempt);
    ghost var out := LegacyOutcome(s, s.attempt, s.files);
    ghost var text, attempt, log := s.ledger.text, s.attempt, s.log;
    ghost var before := Trace(s.attempt, s.files, appended, s.log);
    var ran;
    ran, appended' := LegacyHandleLink(s, link, template, snapshot, text0, appended);
    ghost var now := RunOf(link, snapshot, ready, Downloader.CookieFile(s.env), template);
    LinkFactsStep(links, i, snapshot, template, Downloader.CookieFile(s.env), text, text0, appended, fetched,
                  successful, attempt, attempt0, log, log0, out, now, ran, s.ledger.text, appended', s.attempt, s.log);
    ghost var after := Trace(s.attempt, s.files, appended', s.log);
    if link !in snapshot {
      assert after == LegacyFn(s, template, text0)(link, before);
      assert ran <==> RetitlesFn(s)(link, before);
    }
    TracedStep(LegacyFn(s, template, text0), RetitlesFn(s), links, i, snapshot, t0, before, successful, ran, after);
    fetched' := fetched + now;
    successful' := successful || ran;
  }

  /** The prefix of links handled grows by one link. */
  lemma PrefixStep(links: seq<string>, i: nat, snapshot: set<string>)
    requires i < |links|
    ensures links[..i + 1] == links[..i] + [links[i]]
    ensures forall l :: l in links[..i] ==> l in links[..i + 1]
    ensures NewCount(links[..i + 1], snapshot) == NewCount(links[..i], snapshot) + (if links[i] in snapshot then 0 else 1)
  {
    assert links[..i + 1][..i] == links[..i];
  }

  // ---------------------------------------------------------------------
  // The email loop

  /** What the email loop knows: the guarded saves so far, and the labels added, each for a processed email. */
  ghost predicate EmailFacts(text: string, log: seq<Downloader.Event>, text0: string, log0: seq<Downloader.Event>,
                             appended: seq<(string, string)>, labelled: seq<string>, processed: seq<string>)
  {
    SaveFacts(text, text0, appended)
    && log0 <= log && Downloader.Labels(log) == Downloader.Labels(log0) + labelled
    && (forall id :: id in labelled ==> id in processed)
  }

  /** One more email processed: its saves follow the earlier ones and its label, if any, the earlier labels. */
  lemma EmailFactsStep(text: string, log: seq<Downloader.Event>, text0: string, log0: seq<Downloader.Event>,
                       appended: seq<(string, string)>, labelled: seq<string>, processed: seq<string>,
                       text': string, log': seq<Downloader.Event>, more: seq<(string, string)>, successful: bool, emailId: string)
    requires EmailFacts(text, log, text0, log0, appended, labelled, processed)
    requires SaveFacts(text', text, more) && log <= log'
    requires Downloader.Labels(log') == Downloader.Labels(log) + (if successful then [emailId] else [])
    ensures EmailFacts(text', log', text0, log0, appended + more, labelled + (if successful then [emailId] else []),
                       processed + [emailId])
  {
    SaveFactsConcat(text0, text, text', appended, more);
    ConcatAssoc(Downloader.Labels(log0), labelled, if successful then [emailId] else []);
    EmailProcessor.PrefixTrans(log0, log, log');
  }

  /**
   * One email of the older program's run: its id, the links extracted from
   * its body, the ledger text it started from (whose keys are its
   * snapshot), the state it started from, the state its link loop left, and
   * whether it was labelled done.
   */
  datatype LegacyRun = LegacyRun(emailId: string, links: seq<string>, text0: string,
                                 start: Trace<Downloader.Event>, finish: Trace<Downloader.Event>, successful: bool)

  /**
   * The email was processed as the older `process_email_body` does: its
   * fresh occurrences were attempted in order from `start`, leaving
   * `finish`, and it is labelled exactly when one of those attempts ran
   * ffmpeg.
   */
  ghost predicate LegacyProcessed(s: Downloader.Session, template: string, r: LegacyRun)
  {
    var snapshot := Ledger.LedgerKeys(r.text0);
    r.start.batch == []
    && r.finish == LegacyAttempts(s, r.links, snapshot, template, r.text0, r.start)
    && (r.successful <==> Raised(LegacyFn(s, template, r.text0), RetitlesFn(s), Fresh(r.links, snapshot),
                                 |Fresh(r.links, snapshot)|, r.start))
  }

  /** The disk, counter and log after one email, the label included. */
  function LegacyAfter(r: LegacyRun): Trace<Downloader.Event>
  {
    Trace(r.finish.attempt, r.finish.files, [], r.finish.log + (if r.successful then [Downloader.Labelled(r.emailId)] else []))
  }

  /** The state after the emails of `runs`, from `t0`. */
  function LegacyNow(runs: seq<LegacyRun>, t0: Trace<Downloader.Event>): Trace<Downloader.Event>
  {
    if runs == [] then t0 else LegacyAfter(runs[|runs| - 1])
  }

  /** The ledger text after the emails of `runs`, from `text0`. */
  function LegacyTextNow(runs: seq<LegacyRun>, text0: string): string
  {
    if runs == [] then text0 else runs[|runs| - 1].text0 + Ledger.Render(runs[|runs| - 1].finish.batch)
  }

  /**
   * Each email started where the previous one ended, from `t0` and
   * `text0` for the first: the snapshot of each is the ledger as the
   * earlier emails left it.
   */
  ghost predicate LegacyChained(s: Downloader.Session, template: string, runs: seq<LegacyRun>,
                                text0: string, t0: Trace<Downloader.Event>)
    decreases |runs|
  {
    runs == []
    || var init, last := runs[..|runs| - 1], runs[|runs| - 1];
       LegacyChained(s, template, init, text0, t0) && LegacyProcessed(s, template, last)
       && last.start == LegacyNow(init, t0) && last.text0 == LegacyTextNow(init, text0)
  }

  /** The emails labelled done, in order: those whose attempts ran ffmpeg. */
  function LegacyLabelled(runs: seq<LegacyRun>): seq<string>
  {
    if runs == [] then []
    else LegacyLabelled(runs[..|runs| - 1]) + (if runs[|runs| - 1].successful then [runs[|runs| - 1].emailId] else [])
  }

  /** The processed emails are the selected ones, in order, each with the links of its body. */
  ghost predicate LegacyHandles(runs: seq<LegacyRun>, selected: seq<EmailProcessor.Message>)
  {
    |runs| == |selected|
    && forall i :: 0 <= i < |runs| ==>
         runs[i].emailId == selected[i].id && runs[i].links == Links.ExtractValidLinks(EmailProcessor.Body(selected[i]))
  }

  /** One more email that started where the run stands keeps the run chained. */
  lemma LegacyChainStep(s: Downloader.Session, template: string, runs: seq<LegacyRun>, text0: string,
                        t0: Trace<Downloader.Event>, r: LegacyRun)
    requires LegacyChained(s, template, runs, text0, t0) && LegacyProcessed(s, template, r)
    requires r.start == LegacyNow(runs, t0) && r.text0 == LegacyTextNow(runs, text0)
    ensures LegacyChained(s, template, runs + [r], text0, t0)
    ensures LegacyNow(runs + [r], t0) == LegacyAfter(r)
    ensures LegacyTextNow(runs + [r], text0) == r.text0 + Ledger.Render(r.finish.batch)
    ensures LegacyLabelled(runs + [r]) == LegacyLabelled(runs) + (if r.successful then [r.emailId] else [])
  {
    var runs' := runs + [r];
    assert runs'[..|runs'| - 1] == runs && runs'[|runs'| - 1] == r;
  }

  /** One more selected email handled keeps the processed emails in step with the selected ones. */
  lemma LegacyHandlesStep(runs: seq<LegacyRun>, selected: seq<EmailProcessor.Message>, m: EmailProcessor.Message, r: LegacyRun)
    requires LegacyHandles(runs, selected)
    requires r.emailId == m.id && r.links == Links.ExtractValidLinks(EmailProcessor.Body(m))
    ensures LegacyHandles(runs + [r], selected + [m])
  {
  }

  /**
   * What the email loop of the older program knows after the first `i`
   * messages of the search result: the emails processed are the selected
   * ones among them, chained from `t0` and `text0`, and `now` and `text` are
   * the state and the ledger text the last one left.
   */
  ghost predicate LegacyLoopFacts(s: Downloader.Session, config: Config.Config, msgs: seq<EmailProcessor.Message>, i: nat,
                                  runs: seq<LegacyRun>, processed: seq<string>, labelled: seq<string>,
                                  appended: seq<(string, string)>, text0: string, t0: Trace<Downloader.Event>,
                                  text: string, now: Trace<Downloader.Event>)
  {
    i <= |msgs|
    && LegacyHandles(runs, EmailProcessor.Matching(msgs[..i], config.subjectKeywords))
    && processed == EmailProcessor.Ids(EmailProcessor.Matching(msgs[..i], config.subjectKeywords))
    && LegacyChained(s, Paths.OutputTemplate(config.outputFolder), runs, text0, t0)
    && now == LegacyNow(runs, t0) && text == LegacyTextNow(runs, text0)
    && labelled == LegacyLabelled(runs)
    && EmailFacts(text, now.log, text0, t0.log, appended, labelled, processed)
  }

  /**
   * `get_filtered_emails(config)` of grabEmails.py: the same search and
   * subject filter as email_processor.py, then `process_email_body` for each
   * selected email. `runs` lists the emails processed with what each did;
   * `processed` are their ids, `labelled` the ids marked done and
   * `appended` the ledger entries written, in order. Each email reads the
   * ledger as the earlier ones left it, and the session ends in the state
   * the last one left.
   */
  method LegacyGetFilteredEmails(s: Downloader.Session, config: Config.Config, inbox: string -> seq<EmailProcessor.Message>)
    returns (ghost runs: seq<LegacyRun>, ghost processed: seq<string>, ghost labelled: seq<string>,
             ghost appended: seq<(string, string)>)
    requires s.Valid()
    modifies s, s.ledger
    ensures s.Valid() && s.downloaded == old(s.downloaded)
    ensures var selected := EmailProcessor.Matching(inbox(EmailProcessor.SearchCriteria(config.senderFilter)), config.subjectKeywords);
            LegacyHandles(runs, selected) && processed == EmailProcessor.Ids(selected)
    ensures var t0 := Trace(old(s.attempt), old(s.files), [], old(s.log));
            LegacyChained(s, Paths.OutputTemplate(config.outputFolder), runs, old(s.ledger.text), t0)
            && Trace(s.attempt, s.files, [], s.log) == LegacyNow(runs, t0)
            && s.ledger.text == LegacyTextNow(runs, old(s.ledger.text))
    ensures labelled == LegacyLabelled(runs)
    ensures EmailFacts(s.ledger.text, s.log, old(s.ledger.text), old(s.log), appended, labelled, processed)
  {
    ghost var text0 := s.ledger.text;
    ghost var t0 := Trace(s.attempt, s.files, [], s.log);
    var msgs := inbox(EmailProcessor.SearchCriteria(config.senderFilter));
    runs, processed, labelled, appended := [], [], [], [];
    LegacyLoopStart(s, config, msgs, text0, t0);
    var i := 0;
    while i < |msgs|
      invariant 0 <= i <= |msgs| && s.Valid() && s.downloaded == old(s.downloaded)
      invariant LegacyLoopFacts(s, config, msgs, i, runs, processed, labelled, appended, text0, t0,
                                s.ledger.text, Trace(s.attempt, s.files, [], s.log))
    {
      runs, processed, labelled, appended := LegacyVisit(s, config, msgs, i, runs, processed, labelled, appended, text0, t0);
      i := i + 1;
    }
    assert msgs[..i] == msgs;
  }

  /** Before the first message nothing is processed. */
  lemma LegacyLoopStart(s: Downloader.Session, config: Config.Config, msgs: seq<EmailProcessor.Message>,
                        text0: string, t0: Trace<Downloader.Event>)
    requires t0.batch == []
    ensures LegacyLoopFacts(s, config, msgs, 0, [], [], [], [], text0, t0, text0, t0)
  {
    assert msgs[..0] == [];
    SaveFactsStart(text0);
  }

  /** The `for` body of grabEmails.py:159-177: skip the email, or assemble and process it. */
  method LegacyVisit(s: Downloader.Session, config: Config.Config, msgs: seq<EmailProcessor.Message>, i: nat,
                     ghost runs: seq<LegacyRun>, ghost processed: seq<string>, ghost labelled: seq<string>,
                     ghost appended: seq<(string, string)>, ghost text0: string, ghost t0: Trace<Downloader.Event>)
    returns (ghost runs': seq<LegacyRun>, ghost processed': seq<string>, ghost labelled': seq<string>,
             ghost appended': seq<(string, string)>)
    requires i < |msgs| && s.Valid()
    requires LegacyLoopFacts(s, config, msgs, i, runs, processed, labelled, appended, text0, t0,
                             s.ledger.text, Trace(s.attempt, s.files, [], s.log))
    modifies s, s.ledger
    ensures s.Valid() && s.downloaded == old(s.downloaded)
    ensures LegacyLoopFacts(s, config, msgs, i + 1, runs', processed', labelled', appended', text0, t0,
                            s.ledger.text, Trace(s.attempt, s.files, [], s.log))
  {
    var m := msgs[i];
    runs', processed', labelled', appended' := runs, processed, labelled, appended;
    if EmailProcessor.Selected(config.subjectKeywords, m.subject) {
      ghost var text, now := s.ledger.text, Trace(s.attempt, s.files, [], s.log);
      ghost var r;
      ghost var more;
      var successful;
      successful, r, more := LegacyEmail(s, m, config, runs, text0, t0);
      LegacyLoopStep(s, config, msgs, i, runs, processed, labelled, appended, text0, t0, text, now,
                     r, more, s.ledger.text, Trace(s.attempt, s.files, [], s.log));
      runs' := runs + [r];
      appended' := appended + more;
      labelled' := labelled + (if successful then [m.id] else []);
      processed' := processed + [m.id];
    } else {
      LegacyLoopSkip(s, config, msgs, i, runs, processed, labelled, appended, text0, t0,
                     s.ledger.text, Trace(s.attempt, s.files, [], s.log));
    }
  }

  /** A message the filter does not select changes nothing. */
  lemma LegacyLoopSkip(s: Downloader.Session, config: Config.Config, msgs: seq<EmailProcessor.Message>, i: nat,
                       runs: seq<LegacyRun>, processed: seq<string>, labelled: seq<string>,
                       appended: seq<(string, string)>, text0: string, t0: Trace<Downloader.Event>,
                       text: string, now: Trace<Downloader.Event>)
    requires i < |msgs| && !EmailProcessor.Selected(config.subjectKeywords, msgs[i].subject)
    requires LegacyLoopFacts(s, config, msgs, i, runs, processed, labelled, appended, text0, t0, text, now)
    ensures LegacyLoopFacts(s, config, msgs, i + 1, runs, processed, labelled, appended, text0, t0, text, now)
  {
    EmailProcessor.MatchingStep(msgs, i, config.subjectKeywords);
    assert EmailProcessor.Matching(msgs[..i + 1], config.subjectKeywords) == EmailProcessor.Matching(msgs[..i], config.subjectKeywords);
  }

  /** A selected message processed as `LegacyEmail` promises moves the email loop on. */
  lemma LegacyLoopStep(s: Downloader.Session, config: Config.Config, msgs: seq<EmailProcessor.Message>, i: nat,
                       runs: seq<LegacyRun>, processed: seq<string>, labelled: seq<string>,
                       appended: seq<(string, string)>, text0: string, t0: Trace<Downloader.Event>,
                       text: string, now: Trace<Downloader.Event>,
                       r: LegacyRun, more: seq<(string, string)>, text': string, now': Trace<Downloader.Event>)
    requires i < |msgs| && EmailProcessor.Selected(config.subjectKeywords, msgs[i].subject)
    requires LegacyLoopFacts(s, config, msgs, i, runs, processed, labelled, appended, text0, t0, text, now)
    requires r.emailId == msgs[i].id && r.links == Links.ExtractValidLinks(EmailProcessor.Body(msgs[i]))
    requires LegacyChained(s, Paths.OutputTemplate(config.outputFolder), runs + [r], text0, t0)
    requires now' == LegacyNow(runs + [r], t0) && text' == LegacyTextNow(runs + [r], text0)
    requires LegacyLabelled(runs + [r]) == LegacyLabelled(runs) + (if r.successful then [r.emailId] else [])
    requires SaveFacts(text', text, more) && now.log <= now'.log
    requires Downloader.Labels(now'.log) == Downloader.Labels(now.log) + (if r.successful then [r.emailId] else [])
    ensures LegacyLoopFacts(s, config, msgs, i + 1, runs + [r], processed + [r.emailId],
                            labelled + (if r.successful then [r.emailId] else []), appended + more, text0, t0, text', now')
  {
    var m := msgs[i];
    EmailProcessor.MatchingStep(msgs, i, config.subjectKeywords);
    EmailProcessor.IdsSnoc(EmailProcessor.Matching(msgs[..i], config.subjectKeywords), m);
    LegacyHandlesStep(runs, EmailProcessor.Matching(msgs[..i], config.subjectKeywords), m, r);
    EmailFactsStep(text, now.log, text0, t0.log, appended, labelled, processed, text', now'.log, more, r.successful, m.id);
  }

  /** One selected email of the older program: assemble its body and process it. */
  method LegacyEmail(s: Downloader.Session, m: EmailProcessor.Message, config: Config.Config, ghost runs: seq<LegacyRun>,
                     ghost text0: string, ghost t0: Trace<Downloader.Event>)
    returns (successful: bool, ghost r: LegacyRun, ghost more: seq<(string, string)>)
    requires s.Valid() && LegacyChained(s, Paths.OutputTemplate(config.outputFolder), runs, text0, t0)
    requires Trace(s.attempt, s.files, [], s.log) == LegacyNow(runs, t0) && s.ledger.text == LegacyTextNow(runs, text0)
    modifies s, s.ledger
    ensures s.Valid() && s.downloaded == old(s.downloaded)
    ensures r.emailId == m.id && r.links == Links.ExtractValidLinks(EmailProcessor.Body(m)) && r.successful == successful
    ensures r.start == LegacyNow(runs, t0) && r.text0 == LegacyTextNow(runs, text0)
    ensures LegacyChained(s, Paths.OutputTemplate(config.outputFolder), runs + [r], text0, t0)
    ensures Trace(s.attempt, s.files, [], s.log) == LegacyNow(runs + [r], t0)
    ensures s.ledger.text == LegacyTextNow(runs + [r], text0)
    ensures LegacyLabelled(runs + [r]) == LegacyLabelled(runs) + (if successful then [m.id] else [])
    ensures SaveFacts(s.ledger.text, old(s.ledger.text), more) && old(s.log) <= s.log
    ensures Downloader.Labels(s.log) == Downloader.Labels(old(s.log)) + (if successful then [m.id] else [])
  {
    var body := EmailProcessor.AssembleBody(m);
    ghost var text := s.ledger.text;
    ghost var start := Trace(s.attempt, s.files, [], s.log);
    var template := Paths.OutputTemplate(config.outputFolder);
    var links := Links.ExtractValidLinks(body);
    ghost var fetched;
    successful, more, fetched := LegacyProcessEmailBody(s, body, m.id, config);
    r := LegacyRun(m.id, links, text, start, LegacyAttempts(s, links, Ledger.LedgerKeys(text), template, text, start), successful);
    LegacyChainStep(s, template, runs, text0, t0, r);
  }
}
