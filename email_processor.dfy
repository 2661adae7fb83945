/**
 * The run loop (`get_filtered_emails` in email_processor.py:13-56): build the
 * IMAP search criteria, walk the matching emails in the order the server
 * returns them, skip those whose subject holds none of the keywords, join
 * the `text/plain` parts into a body, and hand each body to
 * `process_email_body` with one `downloaded` set loaded from the ledger once
 * and shared by every email of the run.
 *
 * The mailbox is an input: `inbox(criteria)` is the list of messages the
 * search and the fetches return, each already parsed into its headers and
 * parts.
 */
module EmailProcessor {
  import opened Optional
  import opened Text
  import opened Traces
  import Config
  import Sender
  import Ledger
  import Downloader
  import Links
  import Paths

  /** One MIME part as `msg.walk()` yields it, already decoded. */
  datatype Part = Part(contentType: string, text: string)

  /** A fetched email: missing `Subject` and `From` headers are `""`. */
  datatype Message = Message(id: string, subject: string, from: string, multipart: bool, parts: seq<Part>, payload: string)

  const PlainType: string := "text/plain"
  const AllCriteria: string := "(ALL)"
  const FromOpen: string := "(FROM \""
  const FromClose: string := "\")"

  // ---------------------------------------------------------------------
  // Search criteria

  /** `(ALL)` without a sender filter, `(FROM "<filter>")` with one. */
  function SearchCriteria(senderFilter: string): string
  {
    if senderFilter == "" then AllCriteria else FromOpen + senderFilter + FromClose
  }

  /** The sender filter a criteria string was built from. */
  function FilterOf(criteria: string): string
  {
    if |criteria| >= |FromOpen| + |FromClose| && FromOpen <= criteria
    then criteria[|FromOpen|..|criteria| - |FromClose|]
    else ""
  }

  /** The criteria string determines the filter, so distinct filters search for distinct mail. */
  lemma SearchCriteriaRoundTrip(senderFilter: string)
    ensures FilterOf(SearchCriteria(senderFilter)) == senderFilter
    ensures (SearchCriteria(senderFilter) == AllCriteria) <==> senderFilter == ""
  {
    var c := SearchCriteria(senderFilter);
    if senderFilter != "" {
      assert |c| == |senderFilter| + 9;
      assert c[..|FromOpen|] == FromOpen;
      assert c[|FromOpen|..|c| - |FromClose|] == senderFilter;
    } else {
      assert !(FromOpen <= c) by { assert c[1] != FromOpen[1]; }
    }
  }

  lemma SearchCriteriaInjective(f: string, g: string)
    requires SearchCriteria(f) == SearchCriteria(g)
    ensures f == g
  {
    SearchCriteriaRoundTrip(f);
    SearchCriteriaRoundTrip(g);
  }

  // ---------------------------------------------------------------------
  // Subject filter

  /** `any(k in text for k in keywords)`, in list order. */
  function AnyKeyword(keywords: seq<string>, text: string): bool
  {
    keywords != [] && (Contains(text, keywords[0]) || AnyKeyword(keywords[1..], text))
  }

  /** The email is processed: no keywords are configured, or one occurs in the lowercased subject. */
  predicate Selected(keywords: seq<string>, subject: string)
  {
    keywords == [] || AnyKeyword(keywords, Lower(subject))
  }

  lemma {:induction false} AnyKeywordIff(keywords: seq<string>, text: string)
    ensures AnyKeyword(keywords, text) <==> exists k :: k in keywords && Contains(text, k)
  {
    if keywords != [] {
      AnyKeywordIff(keywords[1..], text);
      assert forall k :: k in keywords <==> k == keywords[0] || k in keywords[1..];
    }
  }

  /** An email is skipped exactly when keywords are configured and none occurs in the lowercased subject. */
  lemma SkippedIff(keywords: seq<string>, subject: string)
    ensures !Selected(keywords, subject) <==> keywords != [] && forall k :: k in keywords ==> !Contains(Lower(subject), k)
  {
    AnyKeywordIff(keywords, Lower(subject));
  }

  lemma LowerIsLower(s: string)
    ensures IsLower(Lower(s))
  {
    forall i | 0 <= i < |s|
      ensures !('A' <= Lower(s)[i] <= 'Z')
    {
      Config.LowerCharFacts(s[i]);
    }
  }

  /** The filter does not see the subject's case. */
  lemma SelectedIgnoresCase(keywords: seq<string>, subject: string)
    ensures Selected(keywords, Lower(subject)) == Selected(keywords, subject)
  {
    LowerIsLower(subject);
    Config.LowerOfLower(Lower(subject));
  }

  /** The emails of `msgs` that pass the filter, in order. */
  function Matching(msgs: seq<Message>, keywords: seq<string>): (r: seq<Message>)
    ensures |r| <= |msgs|
  {
    if msgs == [] then []
    else
      var last := msgs[|msgs| - 1];
      Matching(msgs[..|msgs| - 1], keywords) + (if Selected(keywords, last.subject) then [last] else [])
  }

  lemma {:induction false} MatchingMembers(msgs: seq<Message>, keywords: seq<string>)
    ensures forall m :: m in Matching(msgs, keywords) <==> m in msgs && Selected(keywords, m.subject)
  {
    if msgs != [] {
      var init := msgs[..|msgs| - 1];
      MatchingMembers(init, keywords);
      assert msgs == init + [msgs[|msgs| - 1]];
    }
  }

  /** Without keywords every email is processed. */
  lemma {:induction false} MatchingAll(msgs: seq<Message>)
    ensures Matching(msgs, []) == msgs
  {
    if msgs != [] {
      MatchingAll(msgs[..|msgs| - 1]);
      assert msgs == msgs[..|msgs| - 1] + [msgs[|msgs| - 1]];
    }
  }

  // ---------------------------------------------------------------------
  // Body

  /** The `text/plain` parts of a walk, joined in order. */
  function PlainText(parts: seq<Part>): string
  {
    if parts == [] then ""
    else
      var last := parts[|parts| - 1];
      PlainText(parts[..|parts| - 1]) + (if last.contentType == PlainType then last.text else "")
  }

  /** The body `process_email_body` receives: the plain parts of a multipart message, else the whole payload. */
  function Body(m: Message): string
  {
    if m.multipart then PlainText(m.parts) else m.payload
  }

  lemma {:induction false} PlainTextConcat(a: seq<Part>, b: seq<Part>)
    ensures PlainText(a + b) == PlainText(a) + PlainText(b)
    decreases |b|
  {
    if b == [] {
      assert a + b == a;
    } else {
      var init := b[..|b| - 1];
      var last := b[|b| - 1];
      var x := if last.contentType == PlainType then last.text else "";
      assert a + b == (a + init) + [last];
      assert b == init + [last];
      PlainTextPart(a + init, last);
      PlainTextPart(init, last);
      PlainTextConcat(a, init);
      assert (PlainText(a) + PlainText(init)) + x == PlainText(a) + (PlainText(init) + x);
    }
  }

  /** Parts of any other type add nothing, and a plain part adds its text. */
  lemma PlainTextPart(parts: seq<Part>, part: Part)
    ensures PlainText(parts + [part]) == PlainText(parts) + (if part.contentType == PlainType then part.text else "")
  {
    assert (parts + [part])[..|parts|] == parts;
  }

  /** A walk with no plain part gives an empty body. */
  lemma {:induction false} NoPlainText(parts: seq<Part>)
    requires forall i :: 0 <= i < |parts| ==> parts[i].contentType != PlainType
    ensures PlainText(parts) == ""
  {
    if parts != [] {
      NoPlainText(parts[..|parts| - 1]);
    }
  }

  /** The `body +=` loop of email_processor.py:46-52. */
  method AssembleBody(m: Message) returns (body: string)
    ensures body == Body(m)
  {
    body := "";
    if !m.multipart {
      body := body + m.payload;
      return;
    }
    var i := 0;
    while i < |m.parts|
      invariant 0 <= i <= |m.parts|
      invariant body == PlainText(m.parts[..i])
    {
      var part := m.parts[i];
      assert m.parts[..i + 1] == m.parts[..i] + [part];
      PlainTextPart(m.parts[..i], part);
      if part.contentType == PlainType {
        body := body + part.text;
      }
      i := i + 1;
    }
    assert m.parts[..i] == m.parts;
  }

  // ---------------------------------------------------------------------
  // Sender

  /** `sender_name`: only with per-sender folders, and then never empty. */
  function SenderOf(config: Config.Config, m: Message): (sender: Option<string>)
    ensures sender.Some? <==> config.autoMakeFolders
    ensures sender.Some? ==> sender.value != ""
  {
    Sender.SenderNameShape(m.from);
    if config.autoMakeFolders then Some(Sender.ExtractSenderName(m.from)) else None
  }

  // ---------------------------------------------------------------------
  // The run

  /**
   * What one processed email did: the entries it added to the ledger and
   * the yt-dlp runs it started, with what it started from: the links of its
   * body, the output template, the links already known, the state of the
   * disk, counter and log, the order in which its new links were tried, and the state that trying
   * them left.
   */
  datatype Run = Run(emailId: string, added: seq<(string, string)>, fetched: seq<Downloader.Event>,
                     links: seq<string>, template: string, known: set<string>,
                     start: Trace<Downloader.Event>, order: seq<string>, finish: Trace<Downloader.Event>)

  /** The output template of `process_email_body` for this email. */
  function TemplateFor(config: Config.Config, m: Message): string
  {
    Paths.OutputTemplate(Paths.OutputFolder(config.outputFolder, SenderOf(config, m), config.autoMakeFolders))
  }

  /** The processed emails are the selected ones, in order, each with the links of its body and its template. */
  ghost predicate Handles(runs: seq<Run>, selected: seq<Message>, config: Config.Config)
  {
    |runs| == |selected|
    && forall i :: 0 <= i < |runs| ==>
         runs[i].emailId == selected[i].id && runs[i].links == Links.ExtractValidLinks(Body(selected[i]))
         && runs[i].template == TemplateFor(config, selected[i])
  }

  /**
   * One email was processed as `process_email_body` does: every link of the
   * body not yet known was tried exactly once, and the entries and the runs
   * are those of trying them in that order.
   */
  ghost predicate Processed(s: Downloader.Session, r: Run)
  {
    r.start.batch == []
    && Downloader.Distinct(r.order) && (forall l :: l in r.order <==> l in r.links && l !in r.known)
    && r.finish == s.Attempts(r.order, r.template, r.start) && r.added == r.finish.batch
    && r.fetched == s.Runs(r.order, r.template, r.start.attempt)
  }

  /** The disk, counter and log after one email, the label included. */
  function After(r: Run): Trace<Downloader.Event>
  {
    Trace(r.finish.attempt, r.finish.files, [], r.finish.log + (if r.added != [] then [Downloader.Labelled(r.emailId)] else []))
  }

  /** The state after the emails of `runs`, from `t0`. */
  function Now(runs: seq<Run>, t0: Trace<Downloader.Event>): Trace<Downloader.Event>
  {
    if runs == [] then t0 else After(runs[|runs| - 1])
  }

  /** The links known after the emails of `runs`, from the ledger keys `keys0`. */
  function KnownNow(runs: seq<Run>, keys0: set<string>): set<string>
  {
    if runs == [] then keys0 else runs[|runs| - 1].known + Ledger.LinksOf(runs[|runs| - 1].added)
  }

  /**
   * Each email started where the previous one ended: from `t0` and the
   * ledger keys for the first, and otherwise from the state and the
   * known links the previous email left.
   */
  ghost predicate Chained(s: Downloader.Session, runs: seq<Run>, keys0: set<string>, t0: Trace<Downloader.Event>)
    decreases |runs|
  {
    runs == []
    || var init, last := runs[..|runs| - 1], runs[|runs| - 1];
       Chained(s, init, keys0, t0) && Processed(s, last)
       && last.start == Now(init, t0) && last.known == KnownNow(init, keys0)
  }

  /** One more email that started where the run stands keeps the run chained. */
  lemma ChainStep(s: Downloader.Session, runs: seq<Run>, keys0: set<string>, t0: Trace<Downloader.Event>, r: Run)
    requires Chained(s, runs, keys0, t0) && Processed(s, r)
    requires r.start == Now(runs, t0) && r.known == KnownNow(runs, keys0)
    ensures Chained(s, runs + [r], keys0, t0)
    ensures Now(runs + [r], t0) == After(r)
    ensures KnownNow(runs + [r], keys0) == r.known + Ledger.LinksOf(r.added)
  {
    var runs' := runs + [r];
    assert runs'[..|runs'| - 1] == runs && runs'[|runs'| - 1] == r;
  }

  /** The ledger entries of a run, email by email. */
  function Added(runs: seq<Run>): seq<(string, string)>
  {
    if runs == [] then [] else Added(runs[..|runs| - 1]) + runs[|runs| - 1].added
  }

  function AllFetched(runs: seq<Run>): seq<Downloader.Event>
  {
    if runs == [] then [] else AllFetched(runs[..|runs| - 1]) + runs[|runs| - 1].fetched
  }

  /** The emails labelled done: those that added an entry. */
  function Labelled(runs: seq<Run>): seq<string>
  {
    if runs == [] then []
    else Labelled(runs[..|runs| - 1]) + (if runs[|runs| - 1].added != [] then [runs[|runs| - 1].emailId] else [])
  }

  function Ids(msgs: seq<Message>): seq<string>
  {
    seq(|msgs|, i requires 0 <= i < |msgs| => msgs[i].id)
  }

  lemma IdsSnoc(msgs: seq<Message>, m: Message)
    ensures Ids(msgs + [m]) == Ids(msgs) + [m.id]
  {
  }

  /** No email fetches a link that an earlier email of the run recorded. */
  ghost predicate NoRefetch(runs: seq<Run>)
  {
    forall i, j :: 0 <= i < j < |runs| ==>
      forall e :: e in runs[j].fetched ==> e.Fetched? && e.link !in Ledger.LinksOf(runs[i].added)
  }

  /**
   * What holds after the emails of `runs`, given the shared set, the ledger
   * text and the log: `keys0`, `text0` and `log0` are the ledger's keys, its
   * text and the log when the run began. The set grew by exactly the
   * entries added, no link was added twice or was already a key, the
   * ledger gained exactly those entries, the emails labelled are those that
   * added an entry, and no email fetched a link that was a key at the start
   * or was recorded by an earlier email.
   */
  ghost predicate RunFacts(downloaded: set<string>, text: string, log: seq<Downloader.Event>, runs: seq<Run>,
                           keys0: set<string>, text0: string, log0: seq<Downloader.Event>)
  {
    downloaded == keys0 + Ledger.LinksOf(Added(runs))
    && (forall i :: 0 <= i < |runs| ==> Ledger.LinksOf(runs[i].added) <= downloaded)
    && Downloader.Distinct(Downloader.BatchLinks(Added(runs)))
    && (forall i :: 0 <= i < |Added(runs)| ==> Added(runs)[i].0 !in keys0 && Ledger.IsStorable(Added(runs)[i]))
    && text == text0 + Ledger.Render(Added(runs))
    && log0 <= log
    && Downloader.Labels(log) == Downloader.Labels(log0) + Labelled(runs)
    && Downloader.Fetches(log) == Downloader.Fetches(log0) + AllFetched(runs)
    && (forall i :: 0 <= i < |runs| ==> forall e :: e in runs[i].fetched ==> e.Fetched? && e.link !in keys0)
    && NoRefetch(runs)
  }

  /** The facts carry over one more email whose processing obeys the contract of `process_email_body`. */
  lemma RunStep(downloaded: set<string>, text: string, log: seq<Downloader.Event>, runs: seq<Run>,
                keys0: set<string>, text0: string, log0: seq<Downloader.Event>,
                run: Run, downloaded': set<string>, text': string, log': seq<Downloader.Event>)
    requires RunFacts(downloaded, text, log, runs, keys0, text0, log0)
    requires forall i :: 0 <= i < |run.added| ==> run.added[i].0 !in downloaded && Ledger.IsStorable(run.added[i])
    requires Downloader.Distinct(Downloader.BatchLinks(run.added))
    requires downloaded' == downloaded + Ledger.LinksOf(run.added)
    requires text' == text + Ledger.Render(run.added)
    requires log <= log'
    requires Downloader.Labels(log') == Downloader.Labels(log) + (if run.added != [] then [run.emailId] else [])
    requires Downloader.Fetches(log') == Downloader.Fetches(log) + run.fetched
    requires forall e :: e in run.fetched ==> e.Fetched? && e.link !in downloaded
    ensures RunFacts(downloaded', text', log', runs + [run], keys0, text0, log0)
  {
    var runs' := runs + [run];
    assert runs'[..|runs|] == runs;
    AddedStep(downloaded, runs, keys0, run, downloaded');
    assert Added(runs') == Added(runs) + run.added;
    Ledger.RenderConcat(Added(runs), run.added);
    ConcatAssoc(text0, Ledger.Render(Added(runs)), Ledger.Render(run.added));
    var mark := if run.added != [] then [run.emailId] else [];
    assert Labelled(runs') == Labelled(runs) + mark;
    ConcatAssoc(Downloader.Labels(log0), Labelled(runs), mark);
    assert AllFetched(runs') == AllFetched(runs) + run.fetched;
    ConcatAssoc(Downloader.Fetches(log0), AllFetched(runs), run.fetched);
    PrefixTrans(log0, log, log');
    FetchedStep(downloaded, runs, keys0, run);
  }

  /**
   * `RunStep` with its premises in the words of the contract of
   * `Downloader.Session.ProcessEmailBody`: the ledger text is unchanged when
   * nothing was added.
   */
  lemma BodyStep(downloaded: set<string>, text: string, log: seq<Downloader.Event>, runs: seq<Run>,
                 keys0: set<string>, text0: string, log0: seq<Downloader.Event>, run: Run, cookieFile: string,
                 downloaded': set<string>, text': string, log': seq<Downloader.Event>)
    requires RunFacts(downloaded, text, log, runs, keys0, text0, log0)
    requires forall i :: 0 <= i < |run.added| ==>
               run.added[i].0 in run.links && run.added[i].0 !in downloaded && Ledger.IsStorable(run.added[i])
    requires Downloader.Distinct(Downloader.BatchLinks(run.added))
    requires downloaded' == downloaded + Ledger.LinksOf(run.added)
    requires run.added == [] ==> text' == text
    requires run.added != [] ==> text' == text + Ledger.Render(run.added)
    requires Downloader.Labels(log') == Downloader.Labels(log) + (if run.added != [] then [run.emailId] else [])
    requires Downloader.Fetches(log') == Downloader.Fetches(log) + run.fetched && Downloader.Distinct(run.fetched)
    requires forall e :: e in run.fetched ==>
               e.Fetched? && e.cookieFile == cookieFile && e.template == run.template
               && e.link in run.links && e.link !in downloaded
    requires log <= log'
    ensures RunFacts(downloaded', text', log', runs + [run], keys0, text0, log0)
  {
    if run.added == [] {
      assert text + Ledger.Render(run.added) == text;
    }
    RunStep(downloaded, text, log, runs, keys0, text0, log0, run, downloaded', text', log');
  }
  /** The entries of one more email join the run's entries: `downloaded` grows by exactly their links. */
  lemma AddedStep(downloaded: set<string>, runs: seq<Run>, keys0: set<string>, run: Run, downloaded': set<string>)
    requires downloaded == keys0 + Ledger.LinksOf(Added(runs))
    requires forall i :: 0 <= i < |runs| ==> Ledger.LinksOf(runs[i].added) <= downloaded
    requires Downloader.Distinct(Downloader.BatchLinks(Added(runs)))
    requires forall i :: 0 <= i < |Added(runs)| ==> Added(runs)[i].0 !in keys0 && Ledger.IsStorable(Added(runs)[i])
    requires forall i :: 0 <= i < |run.added| ==> run.added[i].0 !in downloaded && Ledger.IsStorable(run.added[i])
    requires Downloader.Distinct(Downloader.BatchLinks(run.added))
    requires downloaded' == downloaded + Ledger.LinksOf(run.added)
    ensures var runs' := runs + [run];
            downloaded' == keys0 + Ledger.LinksOf(Added(runs'))
            && (forall i :: 0 <= i < |runs'| ==> Ledger.LinksOf(runs'[i].added) <= downloaded')
            && Downloader.Distinct(Downloader.BatchLinks(Added(runs')))
            && (forall i :: 0 <= i < |Added(runs')| ==> Added(runs')[i].0 !in keys0 && Ledger.IsStorable(Added(runs')[i]))
  {
    var runs' := runs + [run];
    assert runs'[..|runs|] == runs;
    assert Added(runs') == Added(runs) + run.added;
    Ledger.LinksOfConcat(Added(runs), run.added);
    assert forall i :: 0 <= i < |runs| ==> runs'[i] == runs[i];
    FreshConcat(Added(runs), run.added, downloaded, keys0);
  }

  /** Entries fresh with respect to `downloaded`, appended to entries whose links it holds, keep the whole list fresh and free of repeats. */
  lemma FreshConcat(before: seq<(string, string)>, added: seq<(string, string)>, downloaded: set<string>, keys0: set<string>)
    requires Ledger.LinksOf(before) <= downloaded
    requires Downloader.Distinct(Downloader.BatchLinks(before))
    requires forall i :: 0 <= i < |before| ==> before[i].0 !in keys0 && Ledger.IsStorable(before[i])
    requires forall i :: 0 <= i < |added| ==> added[i].0 !in downloaded && added[i].0 !in keys0 && Ledger.IsStorable(added[i])
    requires Downloader.Distinct(Downloader.BatchLinks(added))
    ensures Downloader.Distinct(Downloader.BatchLinks(before + added))
    ensures forall i :: 0 <= i < |before + added| ==> (before + added)[i].0 !in keys0 && Ledger.IsStorable((before + added)[i])
  {
    BatchLinksConcat(before, added);
    Ledger.LinksOfMembers(before);
    var a, b := Downloader.BatchLinks(before), Downloader.BatchLinks(added);
    forall i, j | 0 <= i < |a| && 0 <= j < |b|
      ensures a[i] != b[j]
    {
      assert before[i].0 in Ledger.LinksOf(before);
    }
    DistinctConcat(a, b);
  }

  /** The fetches of one more email avoid the starting keys and every link recorded before it. */
  lemma FetchedStep(downloaded: set<string>, runs: seq<Run>, keys0: set<string>, run: Run)
    requires downloaded == keys0 + Ledger.LinksOf(Added(runs))
    requires forall i :: 0 <= i < |runs| ==> Ledger.LinksOf(runs[i].added) <= downloaded
    requires forall i :: 0 <= i < |runs| ==> forall e :: e in runs[i].fetched ==> e.Fetched? && e.link !in keys0
    requires NoRefetch(runs)
    requires forall e :: e in run.fetched ==> e.Fetched? && e.link !in downloaded
    ensures var runs' := runs + [run];
            (forall i :: 0 <= i < |runs'| ==> forall e :: e in runs'[i].fetched ==> e.Fetched? && e.link !in keys0)
            && NoRefetch(runs')
  {
    var runs' := runs + [run];
    assert forall i :: 0 <= i < |runs| ==> runs'[i] == runs[i];
    assert runs'[|runs|] == run;
  }

  lemma PrefixTrans(a: seq<Downloader.Event>, b: seq<Downloader.Event>, c: seq<Downloader.Event>)
    requires a <= b && b <= c
    ensures a <= c
  {
  }

  lemma BatchLinksConcat(a: seq<(string, string)>, b: seq<(string, string)>)
    ensures Downloader.BatchLinks(a + b) == Downloader.BatchLinks(a) + Downloader.BatchLinks(b)
  {
  }

  lemma DistinctConcat(a: seq<string>, b: seq<string>)
    requires Downloader.Distinct(a) && Downloader.Distinct(b)
    requires forall i, j :: 0 <= i < |a| && 0 <= j < |b| ==> a[i] != b[j]
    ensures Downloader.Distinct(a + b)
  {
  }

  /**
   * Where a run stands after the emails of `runs`: the facts of `RunFacts`,
   * each email chained to the one before, and `now`, the disk, counter and
   * log, is where the last email left them.
   */
  ghost predicate Reached(s: Downloader.Session, runs: seq<Run>, keys0: set<string>, text0: string,
                          log0: seq<Downloader.Event>, t0: Trace<Downloader.Event>,
                          downloaded: set<string>, text: string, now: Trace<Downloader.Event>)
  {
    RunFacts(downloaded, text, now.log, runs, keys0, text0, log0)
    && t0.batch == [] && Chained(s, runs, keys0, t0) && downloaded == KnownNow(runs, keys0)
    && now == Now(runs, t0)
  }

  /** Before any email, the run stands where it began. */
  lemma ReachedStart(s: Downloader.Session, keys0: set<string>, text0: string, log0: seq<Downloader.Event>,
                     t0: Trace<Downloader.Event>)
    requires t0.batch == [] && t0.log == log0
    ensures Reached(s, [], keys0, text0, log0, t0, keys0, text0, t0)
  {
    assert text0 + Ledger.Render([]) == text0;
  }

  /** One more email processed as `process_email_body` promises moves the run on. */
  lemma EmailStep(s: Downloader.Session, runs: seq<Run>, keys0: set<string>, text0: string,
                  log0: seq<Downloader.Event>, t0: Trace<Downloader.Event>,
                  downloaded: set<string>, text: string, r: Run, cookieFile: string,
                  downloaded': set<string>, text': string, now': Trace<Downloader.Event>)
    requires Reached(s, runs, keys0, text0, log0, t0, downloaded, text, r.start)
    requires r.known == downloaded && Processed(s, r) && now' == After(r)
    requires forall i :: 0 <= i < |r.added| ==>
               r.added[i].0 in r.links && r.added[i].0 !in downloaded && Ledger.IsStorable(r.added[i])
    requires Downloader.Distinct(Downloader.BatchLinks(r.added))
    requires downloaded' == downloaded + Ledger.LinksOf(r.added)
    requires r.added == [] ==> text' == text
    requires r.added != [] ==> text' == text + Ledger.Render(r.added)
    requires Downloader.Labels(now'.log) == Downloader.Labels(r.start.log) + (if r.added != [] then [r.emailId] else [])
    requires Downloader.Fetches(now'.log) == Downloader.Fetches(r.start.log) + r.fetched && Downloader.Distinct(r.fetched)
    requires forall e :: e in r.fetched ==>
               e.Fetched? && e.cookieFile == cookieFile && e.template == r.template
               && e.link in r.links && e.link !in downloaded
    requires r.start.log <= now'.log
    ensures Reached(s, runs + [r], keys0, text0, log0, t0, downloaded', text', now')
  {
    BodyStep(downloaded, text, r.start.log, runs, keys0, text0, log0, r, cookieFile, downloaded', text', now'.log);
    ChainStep(s, runs, keys0, t0, r);
  }

  /**
   * `get_filtered_emails(config)`: `runs` lists the emails handed to
   * `process_email_body`, in search order, with what each of them did.
   * The ledger is read once; `downloaded` then holds its keys and every
   * link recorded since. Each email starts from the disk, counter, log and
   * known links the previous one left, and the session ends in the state
   * the last one left. A ledger that ends in a newline at the start keeps
   * agreeing with `downloaded`.
   */
  method GetFilteredEmails(s: Downloader.Session, config: Config.Config, inbox: string -> seq<Message>)
    returns (ghost runs: seq<Run>)
    requires s.Valid()
    modifies s, s.ledger
    ensures s.Valid()
    ensures Handles(runs, Matching(inbox(SearchCriteria(config.senderFilter)), config.subjectKeywords), config)
    ensures RunFacts(s.downloaded, s.ledger.text, s.log, runs, old(Ledger.LedgerKeys(s.ledger.text)), old(s.ledger.text), old(s.log))
    ensures var t0 := Trace(old(s.attempt), old(s.files), [], old(s.log));
            Chained(s, runs, old(Ledger.LedgerKeys(s.ledger.text)), t0)
            && Trace(s.attempt, s.files, [], s.log) == Now(runs, t0)
    ensures old(WellTerminated(s.ledger.text)) ==> s.Coherent()
  {
    var keys := s.ledger.Load();
    s.downloaded := keys;
    ghost var text0 := s.ledger.text;
    ghost var coherent0 := WellTerminated(text0);
    ghost var log0 := s.log;
    ghost var t0 := Trace(s.attempt, s.files, [], s.log);
    var criteria := SearchCriteria(config.senderFilter);
    var msgs := inbox(criteria);
    runs := [];
    ReachedStart(s, keys, text0, log0, t0);
    var i := 0;
    while i < |msgs|
      invariant 0 <= i <= |msgs| && s.Valid()
      invariant Handles(runs, Matching(msgs[..i], config.subjectKeywords), config)
      invariant Reached(s, runs, keys, text0, log0, t0, s.downloaded, s.ledger.text, Trace(s.attempt, s.files, [], s.log))
      invariant coherent0 ==> s.Coherent()
    {
      runs := VisitEmail(s, config, msgs, i, runs, keys, text0, log0, t0, coherent0);
      i := i + 1;
    }
    assert msgs[..i] == msgs;
  }

  /** The `for` body of email_processor.py:33-56: skip the email, or assemble and process it. */
  method VisitEmail(s: Downloader.Session, config: Config.Config, msgs: seq<Message>, i: nat, ghost runs: seq<Run>,
                    ghost keys0: set<string>, ghost text0: string, ghost log0: seq<Downloader.Event>,
                    ghost t0: Trace<Downloader.Event>, ghost coherent0: bool)
    returns (ghost runs': seq<Run>)
    requires i < |msgs| && s.Valid()
    requires Handles(runs, Matching(msgs[..i], config.subjectKeywords), config)
    requires Reached(s, runs, keys0, text0, log0, t0, s.downloaded, s.ledger.text, Trace(s.attempt, s.files, [], s.log))
    requires coherent0 ==> s.Coherent()
    modifies s, s.ledger
    ensures s.Valid()
    ensures Handles(runs', Matching(msgs[..i + 1], config.subjectKeywords), config)
    ensures Reached(s, runs', keys0, text0, log0, t0, s.downloaded, s.ledger.text, Trace(s.attempt, s.files, [], s.log))
    ensures coherent0 ==> s.Coherent()
  {
    var m := msgs[i];
    MatchingStep(msgs, i, config.subjectKeywords);
    runs' := runs;
    if Selected(config.subjectKeywords, m.subject) {
      ghost var r := HandleEmail(s, config, m, runs, keys0, text0, log0, t0, coherent0);
      HandlesStep(runs, Matching(msgs[..i], config.subjectKeywords), config, m, r);
      runs' := runs + [r];
    }
  }

  /** One more selected email handled as `HandleEmail` promises keeps the processed emails in step with the selected ones. */
  lemma HandlesStep(runs: seq<Run>, selected: seq<Message>, config: Config.Config, m: Message, r: Run)
    requires Handles(runs, selected, config)
    requires r.emailId == m.id && r.links == Links.ExtractValidLinks(Body(m)) && r.template == TemplateFor(config, m)
    ensures Handles(runs + [r], selected + [m], config)
  {
  }

  /** One more email of the search result joins the processed emails when it passes the filter. */
  lemma MatchingStep(msgs: seq<Message>, i: nat, keywords: seq<string>)
    requires i < |msgs|
    ensures Matching(msgs[..i + 1], keywords)
            == Matching(msgs[..i], keywords) + (if Selected(keywords, msgs[i].subject) then [msgs[i]] else [])
  {
    assert msgs[..i + 1][..i] == msgs[..i];
  }

  /** One selected email: assemble its body and process it with the shared `downloaded` set. */
  method HandleEmail(s: Downloader.Session, config: Config.Config, m: Message, ghost runs: seq<Run>,
                     ghost keys0: set<string>, ghost text0: string, ghost log0: seq<Downloader.Event>,
                     ghost t0: Trace<Downloader.Event>, ghost coherent0: bool)
    returns (ghost r: Run)
    requires s.Valid()
    requires Reached(s, runs, keys0, text0, log0, t0, s.downloaded, s.ledger.text, Trace(s.attempt, s.files, [], s.log))
    requires coherent0 ==> s.Coherent()
    modifies s, s.ledger
    ensures s.Valid()
    ensures Reached(s, runs + [r], keys0, text0, log0, t0, s.downloaded, s.ledger.text, Trace(s.attempt, s.files, [], s.log))
    ensures coherent0 ==> s.Coherent()
    ensures r.emailId == m.id && r.links == Links.ExtractValidLinks(Body(m)) && r.template == TemplateFor(config, m)
  {
    var body := AssembleBody(m);
    var sender := SenderOf(config, m);
    ghost var downloaded, text := s.downloaded, s.ledger.text;
    ghost var start := Trace(s.attempt, s.files, [], s.log);
    var added, fetched, order := s.ProcessEmailBody(body, m.id, config, sender);
    r := Run(m.id, added, fetched, Links.ExtractValidLinks(body), TemplateFor(config, m), downloaded, start, order,
                       s.Attempts(order, TemplateFor(config, m), start));
    EmailStep(s, runs, keys0, text0, log0, t0, downloaded, text, r, Downloader.CookieFile(s.env),
              s.downloaded, s.ledger.text, Trace(s.attempt, s.files, [], s.log));
  }
}
