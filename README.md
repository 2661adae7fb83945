# patreon-email-dl: the link-to-ledger pipeline in Dafny

This project models the part of patreon-email-dl that turns mail into downloads. The program searches a mailbox and keeps the emails whose subject holds a configured keyword. It takes the `text/plain` body of each and extracts the Patreon post links. yt-dlp fetches every link not yet in the download ledger, and ffmpeg rewrites the title metadata when the probed title differs from the file name. The program then appends the links to the ledger (`downloaded.txt`) and labels the email done. The model covers both copies of this pipeline:

- the current modules: `config.py`, `utils.py`, `downloader.py` and `email_processor.py`;
- the older single-file program `grabEmails.py`.

Everything outside the program is an input:

- A `World` of oracles, indexed by the attempt number, answers four questions: whether cookie extraction succeeds, what yt-dlp reports and writes, what ffprobe prints, and how ffmpeg ends.
- The disk is a set of existing paths.
- The ledger is a `LedgerFile` object holding the file's text and whether it exists.
- The mailbox is a function from search criteria to parsed messages.
- What the program does to the outside (a yt-dlp run, an ffmpeg run, a "done" label) is appended to an event log.

The modules, one per file:

- `text.dfy`: `Optional` (an `Option` datatype) and `Text`, the Python string operations the program relies on:
  - `strip`, `split` and `join`;
  - line iteration with universal newlines;
  - ASCII `lower`;
  - substring search.
- `links.dfy` (`Links`): `extract_valid_links`.
  - `re.findall` is written out as a leftmost, longest-match scanner.
  - The marker filter, the `open` to `www` host rewrite and the cut at `?` follow it.
  - `grabEmails.py:101-106` is the same function, and the same members model it.
- `ledger.dfy` (`Ledger`): the ledger text format, `load_downloaded`, `save_downloaded` and `save_downloaded_batch`. The copies in `grabEmails.py:49-70` are identical.
- `process_output.dfy` (`ProcessOutput`): how `stream_process_output` folds the output lines.
- `sender.dfy` (`Sender`): `extract_sender_name`, its two regular expressions written out as scans.
- `config.py`'s two functions are in `config.dfy` (`Config`), together with `get_config` of `grabEmails.py`.
- `paths.dfy` (`Paths`): the sender subfolder with `safe_name`, `os.path.join`, the output template, the title (`basename` then `splitext`) and the temporary path.
- `downloader.dfy` (`Downloader`): a `Session` class holding the shared `downloaded` set, the disk, the attempt counter, the log and the ledger. `process_email_body` is its method `ProcessEmailBody`.
- `email_processor.dfy` (`EmailProcessor`): `get_filtered_emails`, covering search criteria, the subject filter, the sender name, body assembly and the run over all emails.
- `grab_emails.dfy` (`GrabEmails`): `get_filtered_emails` and `process_email_body` of `grabEmails.py`.

The proved behaviour that is easy to miss when reading the source:

- **The marker test and the cut.** `extract_valid_links` tests for `patreon.com/posts/` on the raw token, before cutting at `?`. So `http://a?patreon.com/posts/` gives the link `http://a`, which no longer holds the marker (`Links.MarkerInQueryExample`).
- **No deduplication in extraction.** Repeated links are kept and counted (`Links.KeepPostsCount`).
- **Dead rechecks.** The second `link in downloaded` test (`downloader.py:74-76`, and `grabEmails.py:227-229` in the older program) can never succeed. Nothing changes the set between the two tests.
- **Dots in sender names.** `safe_name` leaves dots alone, so a sender named `..` writes to the parent of the output folder (`Paths.DotsSurvive`).
- **The older program's skip test.** It uses a snapshot of the ledger keys taken once per email and never updated. A link repeated in one body is fetched once per occurrence (`GrabEmails.NewCountRepeat`). On a ledger that is empty or ends in a newline, and when every saved file name is one line, the guarded save still writes it only once (`GrabEmails.GuardedClean`). A name that spans lines is admitted under Left out.
- **The older program's labelling.** When the title is already right, the older program saves the link without setting `successful`. An email whose only new link took that path gets its ledger entry but is never labelled done (`GrabEmails.SavedButUnlabelled`; `GrabEmails.LegacyProcessEmailBody` labels exactly when some attempt ran ffmpeg).
- **Unterminated ledgers.** When the ledger text does not end in a newline, the next appended entry is written onto its last line.
  - If that line is `link --> path`, it keeps its key `link`, and the appended link gets no key (`Ledger.JoinedAfterPath`; `Ledger.JoinedExample`: `a --> f` then `b --> g` gives the keys `{a}`).
  - If that line is a bare link, the two links fuse into one key and neither is a key on its own (`Ledger.JoinedAfterBareLink`: `a` then `b --> g` gives the key `ab`).
  - In `downloader.py` the appended link stays in `downloaded` for the rest of the run but is not a key of the ledger, so the next run fetches it again. In the older program the guarded save does not see it either, so a second occurrence in the same body is saved a second time.
  - So "the keys loaded after an append are the old keys plus the new links" is proved only for text that is empty or ends in a newline (`Ledger.RenderKeys`, `Ledger.SaveRoundTrip`). `Downloader.Session.Coherent` carries this condition from email to email.

## Model

| member | source | states |
|---|---|---|
| Links.ExtractValidLinks | utils.py:108-113 | `extract_valid_links` (and its copy at grabEmails.py:101-106): the canonical forms of the tokens holding `patreon.com/posts/`, in order; its contract gives at most one link per token and no `?` in any link, and `KeepPostsMembers`, `KeepPostsCount`, `KeepPostsConcat` and `ExtractedLinksWellFormed` characterise it |
| Links.Tokens | utils.py:109 | `re.findall` of the URL pattern over the whole body: every token is `http://` or `https://` followed by URL characters; the scan lemmas below fix which tokens and in what order |
| Links.Canonicalize | utils.py:111 | the host rewrite then the cut at the first `?`: the result holds no `?`; `OpenHostRewrite`, `CanonicalFixpoint`, `CanonicalizeIdempotent` and `CanonicalizeToken` characterise it |
| Links.TokensFrom | utils.py:109 | every match the scan returns is a token: `http://` or `https://` followed by at least one character, all outside whitespace, `<`, `>`, `"`; with `TokensFromNone`, `TokensFromLeftmost` and `MatchAt` this fixes the result completely |
| Links.MatchAt | utils.py:109 | a match at an index is a token and ends where the run of URL characters ends, so no longer token starts there; no match exactly when no token of any length starts there |
| Links.TokensFromNone | utils.py:109 | the scan finds nothing exactly when no match starts at or after the index |
| Links.TokensFromLeftmost | utils.py:109 | a non-empty scan starts with the match at the first position where one starts, and goes on with the scan from that match's end: matches are leftmost and never overlap |
| Links.TokensOccur | utils.py:109 | every token returned is a piece of the scanned text |
| Links.WholeToken | utils.py:109 | a body that is one URL from end to end gives exactly that URL as its only match |
| Links.KeepPostsMembers | utils.py:110-113 | a link is extracted if and only if it is the canonical form of some token containing `patreon.com/posts/` |
| Links.KeepPostsCount | utils.py:110-113 | the number of links equals the number of tokens containing the marker: nothing is dropped as a duplicate |
| Links.KeepPostsConcat | utils.py:110-113 | the comprehension works token by token: the links of two token lists are the links of each, in order |
| Links.CanonicalizeToken | utils.py:111 | the canonical form of a token keeps its scheme, has only URL characters, has no `?` and is never on the `open` host |
| Links.ExtractedLinksWellFormed | utils.py:108-113 | every extracted link has a scheme, no whitespace, `<`, `>`, `"` or `?`, is not on the `open` host, and is its own canonical form |
| Links.OpenHostRewrite | utils.py:111 | a URL `https://open.patreon.com/posts/` + rest becomes `https://www.patreon.com/posts/` + rest cut at its first `?` |
| Links.HostsAgree | utils.py:111 | the `open` and `www` forms of the same post path give the same link |
| Links.CanonicalFixpoint | utils.py:111 | a URL not on the `open` host and without `?` is left unchanged |
| Links.CanonicalizeIdempotent | utils.py:111 | canonicalising twice is canonicalising once |
| Links.MarkerInQueryOnly | utils.py:111-112 | a URL whose marker sits only after its `?` still yields a link, the part before the `?`, which lacks the marker |
| Links.MarkerInQueryExample | utils.py:108-113 | `http://a?patreon.com/posts/` yields exactly the link `http://a`, which does not contain the marker |
| Ledger.LedgerKeys | utils.py:58-67 | the keys `load_downloaded` reads from a text: for each non-blank line, the stripped line up to its first ` --> `; `KeysOfConcat`, `AppendEntryKeys`, `RenderKeys` and the `Joined` lemmas characterise it |
| Ledger.EntryLine | utils.py:75-78 | the line written for an entry starts with the link, and is the bare link exactly when there is no filename; `KeyOfEntry` reads it back as the link |
| Ledger.Render | utils.py:80-86 | the text a batch appends is empty exactly for an empty batch and otherwise ends in a newline; `RenderKeys` and `RenderConcat` characterise it |
| Ledger.LedgerFile.Load | utils.py:58-67 | the keys returned are those of the file's text: empty when the file is absent, each non-blank line contributing its stripped text before the first ` --> ` |
| Ledger.LedgerFile.Append | utils.py:74 | opening in append mode creates the file if needed and adds the text at the end |
| Ledger.LedgerFile.Save | utils.py:69-78 | a link that is already a key leaves the file as it was; otherwise exactly one line is appended, `link --> filename` or `link` for an empty filename |
| Ledger.LedgerFile.SaveBatch | utils.py:80-86 | the file ends up present, with one line per item appended in item order, without deduplication |
| Ledger.KeyOfEntry | utils.py:64-65 | the line written for a whitespace-free link reads back as exactly that link, with or without a filename |
| Ledger.KeyOfLinkWithPath | utils.py:65 | a line `link --> path` has the link as its key |
| Ledger.KeyOfBareLink | utils.py:64-65 | a line holding only the link has the link as its key |
| Ledger.AppendEntryKeys | utils.py:58-78 | appending one entry to text that ends in a newline makes the keys the old keys plus the link |
| Ledger.SaveRoundTrip | utils.py:58-78 | after a guarded save of a whitespace-free link into text ending in a newline, the loaded keys are the old keys plus that link, and the text still ends in a newline |
| Ledger.RenderKeys | utils.py:80-86 | appending a batch to text ending in a newline adds exactly the batch's links to the keys and keeps the text newline-terminated |
| Ledger.RenderConcat | utils.py:80-86 | two batches written one after the other give the same text as the two written as one batch |
| Ledger.KeysOfConcat | utils.py:62-66 | the keys of two runs of lines are the union of the keys of each |
| Ledger.JoinedAfterPath | utils.py:62-86 | after text ending in an unterminated `link --> path` line, an appended entry leaves the keys as the old keys plus `link`: the appended link gets no key |
| Ledger.JoinedAfterBareLink | utils.py:62-86 | after text ending in an unterminated bare link, an appended entry fuses with it into one key, the two links joined |
| Ledger.JoinedExample | utils.py:62-86 | `a --> f` without its newline, then the entry `b --> g`, loads as the keys `{a}` |
| ProcessOutput.StreamOutput | utils.py:39-55 | the loop returns the last path line of the stripped output lines and the stripped lines joined by `\n` |
| ProcessOutput.LastPath | utils.py:50-51 | there is no path exactly when no line is non-empty and free of a leading `[`; otherwise the path is one of the lines that are |
| ProcessOutput.LastPathAt | utils.py:43-51 | the path is the last line that qualifies |
| ProcessOutput.ProgressLinesIgnored | utils.py:50-51 | `[...]` progress lines and blank lines after the file name do not change the path found |
| ProcessOutput.PathIsStorable | utils.py:44-51 | the path found is a single stripped non-blank line, so it is written to and read back from the ledger intact |
| ProcessOutput.TextSplitsIntoLines | utils.py:55 | splitting the returned text at `\n` gives back the stripped output lines |
| Sender.ExtractSenderName | utils.py:88-106 | `extract_sender_name`: `Unknown` for an empty header, else the stripped display name when it is not blank, else the address part, else `Unknown`; its contract: never empty; `SenderNameShape`, `NamedSender`, `AngleOnlySender` and `BareSender` characterise it |
| Sender.SenderNameShape | utils.py:88-106 | the sender name is never empty, is stripped and holds no `<` or newline; it is `Unknown` for an empty header and otherwise `Unknown` or a piece of the header |
| Sender.NameEnd | utils.py:94 | the lazy group ends at the first position followed by optional whitespace and `<`, with no newline before it; it fails exactly when every such position has a newline before it |
| Sender.DisplayNameShape | utils.py:94-96 | a display name is a stripped piece of the header free of `<` and newlines |
| Sender.FirstAddress | utils.py:101 | an address found is a non-empty run of `[\w.-]` characters followed by `@`, taken at the leftmost position where one starts; none is found exactly when no position has one |
| Sender.FirstAddressWholeRun | utils.py:101 | the address found is a whole run of address characters: it starts at the start of the header or after a character that is not an address character |
| Sender.NamedSender | utils.py:94-98 | for `Name <...>` with a one-line name free of `<`, the name is returned |
| Sender.AngleOnlySender | utils.py:94-103 | for `<address@...`, the display name is blank and the address part is returned |
| Sender.BareSender | utils.py:101-103 | for a bare `address@...` without `<`, the address part is returned |
| Config.SecretsOf | config.py:10-13 | the dictionary a run of lines builds, one assignment per line holding `=`, later lines overriding earlier ones; `SecretsDomain`, `SecretsLastWins` and `AppendSecret` characterise it |
| Config.LoadEnvSecrets | config.py:6-16 | an unreadable file gives no secrets; otherwise the loop builds the dictionary the lines define |
| Config.SecretsDomain | config.py:10-13 | a key is defined exactly when some line containing `=` has it as its stripped text before the first `=` |
| Config.SecretsLastWins | config.py:13 | a key's value comes from the last line that assigns it |
| Config.ReadAssignment | config.py:11-13 | the line `key=value` assigns everything after the first `=`, trimmed at the end only, to the key |
| Config.AppendSecret | config.py:10-13 | appending a `key=value` line sets that key and leaves every other key as it was |
| Config.Keywords | config.py:26 | the comma-separated pieces, stripped and lowercased, blank ones dropped; `KeywordsWellFormed` and `KeywordsRoundTrip` characterise it |
| Config.KeywordsWellFormed | config.py:26 | every subject keyword is non-empty, lowercase, stripped and free of commas |
| Config.KeywordsRoundTrip | config.py:26 | a list of such keywords written comma-separated reads back as the same list, in order |
| Config.SubjectKeywords | config.py:26 | without `SUBJECT_KEYWORDS` there are no keywords |
| Config.EnvFlag | config.py:28 | an unset variable makes the flag false; a set one makes it true exactly when its lowercased value is `true` |
| Config.GetConfig | config.py:19-29 | each field is its secret or variable when defined and its default otherwise (empty, `imap.gmail.com`, no keywords, off); the output folder is always `/downloads`; every keyword is well formed |
| Config.LegacyGetConfig | grabEmails.py:38-47 | the older configuration has no per-sender folders and takes the output folder from `OUTPUT_FOLDER`, default `/downloads`; every other field equals that of the current one |
| Paths.SafeName | downloader.py:25 | the sender name with each of the nine characters replaced by `_`: same length, none of them left; `SafeNameClean` and `SafeNameIdempotent` characterise it |
| Paths.OutputFolder | downloader.py:22-26 | the configured folder, or the sanitised sender's subfolder of it: the result always starts with the configured folder (as text; `DotsSurvive` shows `..` still escapes it) |
| Paths.OutputTemplate | downloader.py:30 | the folder joined with `%(title)s.%(ext)s`: it starts with the folder and is longer; `TitleOfDownload` reads a title back from a file it names |
| Paths.Title | downloader.py:79-80 | `splitext(basename(filename))[0]`: it holds no `/` and is no longer than the path; `BasenameOfJoin`, `StemOfName` and `StemWithoutExtension` characterise it |
| Paths.TempPath | downloader.py:94 | the temporary path strictly extends the file's path, so it is never the file itself |
| Paths.SafeNameClean | downloader.py:25 | the sanitised name has the same length, holds none of the nine characters the pattern names (backslash, slash, star, question mark, colon, double quote, angle brackets, vertical bar), and changes only those, each to `_` |
| Paths.SafeNameOfSafe | downloader.py:25 | a name without those characters is unchanged |
| Paths.SafeNameIdempotent | downloader.py:25 | sanitising twice is sanitising once |
| Paths.SenderFolderInside | downloader.py:23-26 | with per-sender folders on and a named sender, the folder is the output folder, `/`, and the sanitised name, which has no `/` |
| Paths.NoSenderFolder | downloader.py:22-26 | without per-sender folders or without a sender name, the output folder is used as it is |
| Paths.DotsSurvive | downloader.py:25-26 | a sender named `..` is left as `..`, giving the folder `/downloads/..` |
| Paths.BasenameOfJoin | downloader.py:79 | the basename of `dir/name` is the name |
| Paths.StemOfName | downloader.py:80 | `splitext` removes exactly the one extension after the last dot |
| Paths.StemWithoutExtension | downloader.py:80 | a name without a dot, or a hidden name with only its leading dot, is its own stem |
| Paths.TitleOfDownload | downloader.py:79-80 | the title taken from a file `folder/title.ext` that the output template produced is `title` |
| Paths.TempDiffers | downloader.py:94 | the temporary path is never the file's own path |
| Downloader.Session.Outcome | downloader.py:40-72 | the file attempt `n` records: only a path that exists after yt-dlp's run, and one that can be stored in the ledger; `Download` and `Attempt` return it |
| Downloader.Session.Step | downloader.py:40-117 | one new link attempted from a trace: the next attempt number, the disk `DiskAfter`, the batch gaining `(link, file)` when `Outcome` gives a file, the log gaining `AttemptLog`; `StepLaws` states the laws every step keeps |
| Downloader.StepLaws | downloader.py:40-117 | every step uses up one attempt number, keeps its link with the file it got and nothing else, adds to the disk only what yt-dlp wrote, and leaves no temporary file of its own |
| Downloader.Session.Attempts | downloader.py:35-117 | the links of an order attempted one after the other by `Step`; `AttemptsBatch`, `AttemptsFiles` and `AttemptsNoTemp` characterise it |
| Downloader.Session.Runs | downloader.py:41-64 | the yt-dlp runs of those attempts: at most one per attempt; `RunsMembers` says which |
| Downloader.Session.Download | downloader.py:40-72 | cookie extraction failing means no fetch; otherwise yt-dlp runs once with the cookie file and template; a file comes back exactly when the return code is 0 and the last path it printed exists, and that path can be stored in the ledger |
| Downloader.Session.Tag | downloader.py:78-111 | ffmpeg runs exactly when the probed title differs from the title of the file name; the file stays, and the temporary file does not survive whether ffmpeg succeeds or fails |
| Downloader.Session.Attempt | downloader.py:40-111 | the file recorded is the one the cookies, the return code 0 and the existing last reported path give; the disk is `DiskAfter`: only yt-dlp's files are added, and ffmpeg's temporary file is gone whenever ffmpeg ran; the log gains the yt-dlp run when the cookies were ready, and a `Retagged` event exactly when the probed title differs from the file's title; nothing is labelled |
| Downloader.Session.DiskAfter | downloader.py:94-111 | after one attempt the disk holds only what it held and what yt-dlp wrote; the temporary file of the download does not survive unless it was there before or yt-dlp wrote it; the downloaded file stays |
| Downloader.Session.Keep | downloader.py:74-117 | a link that got a file is appended to the batch and added to `downloaded`; the batch stays free of repeats and of links downloaded before |
| Downloader.Session.HandleNew | downloader.py:40-117 | a new link is attempted next in the order, and the batch gains `(link, file)` exactly when that attempt got a file; the loop facts carry over |
| Downloader.Session.HandleLink | downloader.py:35-117 | a link already in `downloaded` changes nothing; a new link is attempted next in the order, and the batch gains `(link, file)` exactly when that attempt got a file; the loop facts (`LoopFacts`) carry over |
| Downloader.Session.ProcessLinks | downloader.py:32-117 | the links not yet downloaded are attempted once each, in some order; the counter, disk, batch and log are exactly those of `Attempts` over that order; `successful` holds exactly when the batch is non-empty; `downloaded` grows by exactly the batch's links; the yt-dlp runs are `Runs` of that order, none twice |
| Downloader.Session.LinkLoop | downloader.py:35-117 | after every link is handled the loop facts hold for the whole set, and `successful` holds exactly when the batch is non-empty |
| Downloader.AttemptsBatch | downloader.py:74-117 | the batch of a sequence of attempts grows by exactly the links whose attempt got a file, each with that file |
| Downloader.AttemptsFiles | downloader.py:53-111 | over a sequence of attempts the disk gains only files yt-dlp wrote |
| Downloader.AttemptsNoTemp | downloader.py:94-111 | the temporary file of each attempt that got a file is gone after the whole sequence, unless it was on the disk at the start or yt-dlp wrote a file of that name |
| Downloader.RunsMembers | downloader.py:41-64 | the yt-dlp runs of a sequence of attempts are exactly those of the attempts whose cookies were ready, with the cookie file and template |
| Downloader.Session.Record | downloader.py:119-124 | the batch is written exactly when it is non-empty, and the email is labelled done exactly when `successful` |
| Downloader.Session.ProcessEmailBody | downloader.py:16-124 | the extracted links not downloaded before are attempted once each, and the counter, disk and batch are those of `Attempts` over them; the log is theirs plus a `Labelled` event exactly when the batch is non-empty; `downloaded` grows by exactly the batch's links; the ledger is unchanged without new entries and otherwise gains exactly their lines; each fetch uses the sender folder's template; a ledger in step with `downloaded` stays in step |
| EmailProcessor.SearchCriteria | email_processor.py:21-23 | `(ALL)`, or `(FROM "filter")` for a sender filter; `SearchCriteriaRoundTrip` and `SearchCriteriaInjective` characterise it |
| EmailProcessor.Selected | email_processor.py:43-44 | no keywords, or one of them in the lowercased subject; `SkippedIff`, `AnyKeywordIff` and `SelectedIgnoresCase` characterise it |
| EmailProcessor.Matching | email_processor.py:28-44 | the search results the filter selects, in order: at most one per result; `MatchingMembers`, `MatchingStep` and `MatchingAll` characterise it |
| EmailProcessor.Body | email_processor.py:46-52 | the plain parts of a multipart message, or the payload of a single-part one; `AssembleBody`, `PlainTextPart` and `NoPlainText` characterise it |
| EmailProcessor.SearchCriteriaRoundTrip | email_processor.py:21-23 | the criteria are `(ALL)` exactly when there is no sender filter, and the filter can be read back from the criteria |
| EmailProcessor.SearchCriteriaInjective | email_processor.py:21-23 | different sender filters give different criteria |
| EmailProcessor.AnyKeywordIff | email_processor.py:43 | `any(...)` holds exactly when some keyword occurs in the text |
| EmailProcessor.SkippedIff | email_processor.py:43-44 | an email is skipped exactly when keywords are configured and none occurs in the lowercased subject |
| EmailProcessor.SelectedIgnoresCase | email_processor.py:43 | the filter does not depend on the case of the subject |
| EmailProcessor.MatchingMembers | email_processor.py:28-44 | an email is processed exactly when the search returned it and the filter selects it |
| EmailProcessor.MatchingAll | email_processor.py:43-44 | without keywords every email found is processed, in order |
| EmailProcessor.MatchingStep | email_processor.py:28-44 | each email of the search result, in order, adds its id to the processed ids exactly when the filter selects it |
| EmailProcessor.PlainTextConcat | email_processor.py:48-50 | the plain text of two runs of parts is the two texts concatenated in order |
| EmailProcessor.PlainTextPart | email_processor.py:48-50 | a `text/plain` part adds its text and any other part adds nothing |
| EmailProcessor.NoPlainText | email_processor.py:47-50 | a multipart message without plain parts has an empty body |
| EmailProcessor.AssembleBody | email_processor.py:46-52 | the `body +=` loop builds the plain parts of a multipart message in order, or the payload of a single-part one |
| EmailProcessor.SenderOf | email_processor.py:35-41 | there is a sender name exactly when per-sender folders are on, and then it is not empty |
| EmailProcessor.RunStep | email_processor.py:14-54 | the run facts carry over one more email processed with the shared set |
| EmailProcessor.HandleEmail | email_processor.py:46-54 | one selected email: its body is assembled and processed with the shared `downloaded` set, and the run facts are kept |
| EmailProcessor.VisitEmail | email_processor.py:28-54 | one message of the search result: the processed emails stay the selected ones so far, and the run facts and the chaining of states carry over |
| EmailProcessor.GetFilteredEmails | email_processor.py:13-56 | the emails processed are the search results the filter selects, in order, each with its body's links and its template; each starts from the state and the known links the previous one left, and is processed as `Processed` says (its new links attempted once each, as `Attempts` gives); `downloaded` is the ledger's keys plus the links recorded; no link is recorded twice or fetched after an earlier email recorded it; the ledger gains exactly the recorded entries; the emails labelled are those that recorded something |
| GrabEmails.LegacyOutcome | grabEmails.py:194-225 | the file the older copy records for attempt `n`: the whole stripped stdout, when cookies were ready, yt-dlp returned 0 and that path is non-empty and exists; `LegacyDownload` returns it |
| GrabEmails.LegacyTurn | grabEmails.py:194-262 | one link outside the snapshot attempted from a trace: the disk and log as in `Step`, the batch gaining `(link, file)` when the guarded save appends it; `LegacyLaws` states the laws every turn keeps |
| GrabEmails.LegacyLaws | grabEmails.py:194-262 | every turn uses up one attempt number, keeps its link exactly when the guarded save appends it, adds to the disk only what yt-dlp wrote, and leaves no temporary file of its own |
| GrabEmails.LegacyAttempts | grabEmails.py:189-263 | the occurrences outside the snapshot taken one after the other by `LegacyTurn`; `LegacySaves`, `LegacyFiles` and `LegacyNoTemp` characterise it |
| GrabEmails.Fresh | grabEmails.py:189-192 | the listed links outside the snapshot, one per occurrence, in order: no more than the links listed; `FreshFacts` and `NewCountRepeat` characterise it |
| GrabEmails.LegacyDownload | grabEmails.py:194-225 | the file is the whole stripped stdout, kept only for return code 0 when it is non-empty and exists |
| GrabEmails.LegacyFetch | grabEmails.py:194-260 | the file is the whole stripped stdout, kept for return code 0 when it exists; ffmpeg runs exactly when a file came back and its probed title differs; the disk and the log change as in the current program (`DiskAfter`, `AttemptLog`), with one yt-dlp run when cookies were ready and no label |
| GrabEmails.LegacySave | grabEmails.py:61-70 | the guarded save appends the entry exactly when the link is not yet a key |
| GrabEmails.LegacyHandleLink | grabEmails.py:189-263 | a link in the snapshot changes nothing; otherwise it is attempted, and its file is saved whether or not ffmpeg ran, unless the link is already a key of the ledger; `ran`, which sets `successful`, holds exactly when ffmpeg ran; the new state is `LegacyTurn` of the old one |
| GrabEmails.FreshFacts | grabEmails.py:189-192 | the attempted occurrences are exactly the listed links outside the snapshot, one per occurrence |
| GrabEmails.SaveFactsStep | grabEmails.py:61-70 | a guarded append keeps the ledger equal to the start text plus the appended entries |
| GrabEmails.GuardedClean | grabEmails.py:49-70 | after guarded saves with one-line names into text ending in a newline, the keys are the old keys plus the appended links, and no link was appended twice |
| GrabEmails.SaveFactsConcat | grabEmails.py:61-70 | two rounds of guarded saves read as one |
| GrabEmails.NewCountConcat | grabEmails.py:189-192 | the attempts of a list of links are the attempts of its parts: every occurrence outside the snapshot counts |
| GrabEmails.NewCountRepeat | grabEmails.py:182-192 | a new link listed twice is attempted twice |
| GrabEmails.LegacyLinkLoop | grabEmails.py:189-263 | the state after the loop is `LegacyAttempts`: each occurrence outside the snapshot attempted in order, each saved when it got a file and was not yet a key; `successful` holds exactly when one of those attempts ran ffmpeg; the saves are guarded and the fetches are of extracted links outside the snapshot |
| GrabEmails.LegacySaves | grabEmails.py:237-262 | the saves of the loop are exactly the occurrences whose attempt got a file while the link was not yet a key, each with that file: a file saved on the title-already-right path counts as much as one retagged |
| GrabEmails.LegacyFiles | grabEmails.py:207-260 | over the loop the disk gains only files yt-dlp wrote |
| GrabEmails.LegacyNoTemp | grabEmails.py:243-260 | the `.tmp.mp4` file of each attempt that got a file is gone after the loop, unless it was on the disk at the start or yt-dlp wrote a file of that name |
| GrabEmails.SavedButUnlabelled | grabEmails.py:237-266 | an email whose only new link gets a file with the right title has that link saved, but no attempt ran ffmpeg, so it is not labelled done |
| GrabEmails.LegacyProcessEmailBody | grabEmails.py:181-266 | the counter, disk, saves and log are those of `LegacyAttempts` over the occurrences outside the snapshot, plus a `Labelled` event exactly when `successful`; `successful` holds exactly when one of the attempts ran ffmpeg; the ledger gains the saves through the guarded `save_downloaded`; one attempt per occurrence outside the snapshot |
| GrabEmails.LegacyLabel | grabEmails.py:265-266 | the log gains a `Labelled` event for the email exactly when `successful`, and nothing else changes |
| GrabEmails.EmailFactsStep | grabEmails.py:159-177 | the saves and labels of one more email follow those of the earlier ones |
| GrabEmails.LegacyGetFilteredEmails | grabEmails.py:145-179 | the emails processed are the search results the filter selects, in order, each with its body's links; each reads the ledger and starts from the state the previous one left, and is processed as `LegacyProcessed` says; the emails labelled are exactly those of which some attempt ran ffmpeg, in order; the ledger gains only guarded saves |
| GrabEmails.LegacyEmail | grabEmails.py:169-177 | one selected email: its body is assembled and processed from the state and ledger the earlier emails left, and the chain grows by its run |
| GrabEmails.LegacyVisit | grabEmails.py:159-177 | one message of the search result: the processed emails stay the selected ones so far, and the chained runs, labels and guarded saves carry over |

## Left out

- IMAP plumbing: login, select, search, fetch, `ensure_done_label_exists` and the copy/store/expunge of `label_as_done`. These are network client calls. The search is an input function from criteria to messages, and labelling is a `Labelled` event in the log.
- MIME parsing and `decode(errors="ignore")`: each message is a record of id, subject, sender header, parts and payload, already decoded.
- The yt-dlp, ffprobe and ffmpeg processes, `Popen` streaming, `print` and logging: the processes are oracles of the `World` datatype. `get_ffmpeg_metadata_title` (media_utils.py:6-17 and grabEmails.py:72-83) is the probe oracle, stripped.
- `extract_firefox_cookies` (sqlite copy, cookie jar writing): a yes/no oracle per attempt.
- `os.makedirs`: no effect in the model. `os.replace` and `os.remove` are updates of the set of existing paths.
- main.py: the single-instance file lock and exit handling are operating-system concurrency control.
- Exceptions that end the run. The model's oracles and file operations always return, so a run aborted by an exception is not modelled. These calls can raise in the source:
  - starting a missing yt-dlp or ffmpeg (`Popen` at utils.py:29; `subprocess.run` at downloader.py:104 and at grabEmails.py:207 and 253);
  - `os.replace` when ffmpeg returned 0 without writing the temporary file (downloader.py:106, grabEmails.py:255);
  - errors inside `extract_firefox_cookies` (the sqlite copy and read, the expiry conversion);
  - errors writing the ledger.
  Such an exception leaves `process_email_body` and `get_filtered_emails`. An `OSError` (a missing binary, the failed `os.replace`, a ledger write error, a failed cookie-database copy) is caught at main.py:28 as `IOError`, which is the same class, and re-raised at main.py:32 because its errno is not `EWOULDBLOCK`: the run ends with an uncaught traceback, after the `finally` at main.py:35-39 releases the lock. Other exceptions (an sqlite error, the expiry conversion, a decoding error) are logged at main.py:33-34 and the run ends. The older script has no handler and stops. In downloader.py the email's `newly_downloaded` batch, written only at line 121, is then lost, while the files already downloaded stay on disk unrecorded.
- Downloader.Session.Tag: an ffmpeg run that returns 0 always leaves the temporary file for `os.replace`. The case where it does not, and `os.replace` raises, is excluded, as the line above says.
- Unicode: `\w`, `\s`, `strip` and `lower` are modelled on ASCII (and the whitespace characters Python strips). Non-ASCII letters and case mappings are not captured.
- Config.LoadEnvSecrets: a read error in the middle of the file (for instance a decoding error) returns the pairs collected so far. The model treats the file as either unreadable (no pairs) or read in full.
- Downloader.Session.ProcessLinks: `list(set(links))` has an unspecified order. The loop picks any remaining link, so every contract holds for every order, but no particular order is modelled.
- Downloader.Session.ProcessEmailBody: the agreement between the ledger's keys and `downloaded` is carried only when the ledger text is empty or ends in a newline. On a ledger whose last line is unterminated, the first appended entry is written onto that line and its link does not become a key (`Ledger.JoinedAfterPath`, `Ledger.JoinedAfterBareLink`), so no agreement is stated then.
- GrabEmails.LegacyProcessEmailBody: the key set of the ledger after the guarded saves is stated only when the ledger text ends in a newline and every saved name is one line. The older program takes the whole stripped stdout as the file name, which may span lines.
- Message numbers after `label_as_done`: it flags the message deleted and expunges the mailbox (mail_utils.py:14-16), while the loops of email_processor.py:25-28 and grabEmails.py:156-160 go on fetching by the sequence numbers the search returned. After an expunge the later numbers name other messages. The model takes the search result as a fixed list of messages, so this shift, and any email skipped or fetched twice through it, is not modelled.
