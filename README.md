# AutoStack-AI bot core, modelled in Dafny

AutoStack-AI is a bot that answers Stack Exchange questions with a language model, plus a small
web dashboard that starts and stops it. This project models the parts that decide what the bot
does and what it remembers:

- the eligibility filter for questions;
- the history file `comment_history.txt`: its header, the record appended after each answer, the
  daily counter that reads it back, and the dedup loader that collects question ids from it;
- the fetch of a site's questions, with its three attempts and its dedup filter, and the result
  logic of posting an answer;
- the start-up check of `sites.txt` and of the seven environment variables;
- one cycle of the main loop: the daily-quota gate, the site list, and per question the filter,
  the dedup check, the generation, the post, the record, the pacing sleep and the rate-limit
  back-off;
- the dashboard: its status and child process, its bounded output buffer fed by the reader
  thread, the start/stop/status handlers, and the site form whose normalised text the bot loads.

Everything outside the program is an input of the model. This covers the HTTP responses, the
model's completion, the clock, `random.randint`, whether a file write or a sleep succeeds, the
environment, the file contents, Popen and the reader thread's `readline`/`poll`. The outside
world of one cycle is a value of `Orchestrator.Env`. A cycle results in a trace of events (sleeps,
posts, saved records) and the history file it leaves behind. `Orchestrator.Trace` states the rules
every event keeps with the events before it, and the lemmas after it draw the consequences.

The modules follow the program: `Config` holds `BOT_CONFIG` and the literal delays; `Questions`,
`History`, `StackApi`, `Setup`, `Sites` and `Orchestrator` model `stackexchange_bot.py`; `App`
models `app.py`. `Text` and `Timestamps` model the Python string operations and the
`strftime`/`strptime` pair the program relies on. The functions of the pure parts are Dafny
functions. The loops (`get_daily_comment_count`, `load_commented_questions`, the retry loop of
`get_stack_questions`, the variable check of `verify_setup`, the site and question loops of the
main loop, the reader loop of `run_bot`) are methods with loop invariants. Each method's result
equals that of a recursive function that specifies it: `StackApi.Fetch` for the retries,
`Orchestrator.QuestionLoop`, `Orchestrator.SiteRun`, `Orchestrator.SitesLoop` and
`Orchestrator.Cycle` for the main loop. The lemmas about those functions state the
guarantees. The loop bodies of the main loop are passed to the loop functions as function values
(`Orchestrator.Handler`, `Orchestrator.SiteHandler`). `QuestionHandler` and `SiteHandlerOf` are
the bodies the program runs. The dashboard's globals are fields of the class `App.Dashboard`.

Points where the code does something other than what a reader might expect, all modelled as the
code does them:

- The daily limit is checked once at the start of a cycle. Nothing in the cycle caps the number of
  answers, and `max_comments_per_site` is never read.
- `handle_rate_limit` returns False only when its try block raises, in its warning log or in its
  sleep. Only then does the question loop break. It breaks the loop of the current site only, and the next site is still processed.
- The saved link has the form `https://{site}.com/a/{answer_id}`. The dedup loader only reads
  lines that hold `stackexchange.com/q/` or `stackoverflow.com/q/`. So an answered question is not
  in the dedup set of the next cycle (`Orchestrator.NextCycleForgets`,
  `Orchestrator.AnsweredIsForgotten`). Within one cycle the in-memory set still prevents a second
  answer (`Orchestrator.NoRepeatedAnswer`).
- The reader thread trims the buffer to 100 lines after every kept line. The error line of a failing
  loop is appended without trimming, so the buffer can hold 101 lines (`App.DrainBound`).
- `stop_bot` terminates the process and sets the status to stopped, but leaves `bot_process` set
  (`App.Dashboard.StopBot`).

## Model

| member | source | states |
|---|---|---|
| Questions.IsValidQuestion | stackexchange_bot.py:214-236 | a question is eligible exactly when it has a title, no blacklisted phrase occurs in its lower-cased title, the title has at most 300 characters, it has a score of at least 5 and neither locked_date nor closed_date is truthy; a missing title or score makes it ineligible |
| Questions.BlacklistedPhraseRejects | stackexchange_bot.py:217-219 | an occurrence of any blacklisted phrase in the lower-cased title rejects the question whatever its other fields |
| Questions.PhrasesAreLower | stackexchange_bot.py:57-60 | the configured phrases are their own lower case, so phrase.lower() matches them as written |
| Questions.IdKeyInjective | stackexchange_bot.py:277 | str(question_id) keys are equal exactly when the ids are equal |
| Text.DecimalRoundTrip | stackexchange_bot.py:277 | the decimal text of an id reads back as that id |
| Text.TrimLeftShape | stackexchange_bot.py:113 | lstrip() leaves a suffix of the input that is empty or starts with non-whitespace, is empty exactly on all-whitespace input, and everything it drops is whitespace |
| Text.TrimRightShape | stackexchange_bot.py:113 | rstrip() leaves a prefix of the input that is empty or ends with non-whitespace, is empty exactly on all-whitespace input, and everything it drops is whitespace |
| Text.StripShape | stackexchange_bot.py:113 | strip() is empty exactly on all-whitespace input, otherwise starts and ends with non-whitespace; it is a piece s[i..j] of the input whose prefix before i and suffix after j are all whitespace |
| Text.LinesConcat | stackexchange_bot.py:153-154 | iterating a file's lines loses and adds nothing: the lines concatenate to the file's text |
| Text.LinesShape | stackexchange_bot.py:153-154 | every line is non-empty, holds a newline only at its end, and every line but the last ends with one |
| Text.SplitJoin | app.py:83-86 | joining the pieces of str.split(sep) with sep gives back the string |
| Text.SplitPiecesFree | app.py:83 | no piece of a split on a character contains that character |
| Sites.LoadSites | stackexchange_bot.py:110-115 | every loaded site is non-empty and stripped |
| Sites.LoadSitesMembers | stackexchange_bot.py:110-115 | a site is loaded exactly when some non-blank line of sites.txt strips to it |
| Sites.KeepStrippedMembers | stackexchange_bot.py:113 | the list comprehension keeps a string exactly when it is the strip of a non-blank element |
| Timestamps.Parse | stackexchange_bot.py:157-158 | strptime with "%Y-%m-%d %H:%M:%S" succeeds exactly on the zero-padded layout with field values datetime accepts, and what it parses formats back to the same text (the other layouts strptime accepts are under Left out) |
| Timestamps.ParseFormat | stackexchange_bot.py:293 | parsing what strftime wrote gives back the timestamp |
| Timestamps.FormatFields | stackexchange_bot.py:157-158 | formatting the fields of a well-formed stamp gives back that stamp |
| History.DailyCommentCount | stackexchange_bot.py:148-165 | the loop counts exactly the lines holding '[' and ']' whose characters 1 to 19 parse as a timestamp of today; a missing file counts 0 |
| History.CountTodayAppend | stackexchange_bot.py:154-162 | the count of two blocks of lines is the sum of their counts |
| History.CountIgnoresLine | stackexchange_bot.py:156-162 | a line that does not count (malformed, or of another day) changes no count wherever it stands |
| History.LoadCommentedQuestions | stackexchange_bot.py:238-249 | the loop collects exactly the keys of the question-link lines; a missing file gives the empty set |
| History.DedupKeysMembers | stackexchange_bot.py:243-246 | a key is in the dedup set exactly when some line is a question-link line with that key |
| History.QuestionKeyIsSegment | stackexchange_bot.py:245 | line.split('/q/')[1].split('/')[0] is the text after the first "/q/" up to the next '/' or the end of the line |
| History.InitializeHistory | stackexchange_bot.py:301-312 | an existing file is left as it is; a missing one gets the four header lines, or stays missing when the write fails |
| History.HeaderIsInert | stackexchange_bot.py:305-309 | the header's lines are not counted by the daily counter and give no dedup key |
| History.WritesEndLines | stackexchange_bot.py:296 | the header and a record both end with a newline, so a file that ends a line still does |
| History.SaveCommentLink | stackexchange_bot.py:291-299 | a successful write leaves an existing file holding its old text followed by the record's text, the record's being newline, title line, link, newline (mode 'a' creates a missing file); a failed write leaves the file as it was |
| History.SaveCount | stackexchange_bot.py:291-299 | appending a record with an answer link to a file that ends a line raises the daily count by one exactly when the record is dated today, for any site and title excerpt without a newline, and the file still ends a line |
| History.SaveRoundTrip | stackexchange_bot.py:291-299 | for a site without a newline or '/' and a title excerpt without a newline, appending a record with an answer link to a file that ends a line raises the daily count by one exactly when the record is dated today, and only its title line can add a dedup key |
| History.RecordCount | stackexchange_bot.py:296 | for a record with an answer link whose site and title excerpt hold no newline, of the record's three lines only the title line counts, and only on the record's day |
| History.AnswerLinkNotCounted | stackexchange_bot.py:450 | the answer link line, for any site, is never counted by the daily counter |
| History.TitleLineCounts | stackexchange_bot.py:155-159 | a record's title line counts exactly when its timestamp falls on today |
| History.AnswerLinkLineIsInert | stackexchange_bot.py:450 | for a site without '/', an answer link line holds no "/q/", is not a question-link line and does not count |
| History.TitleLineIsLink | stackexchange_bot.py:244-245 | for a site without '/', a record's title line reads as a question-link line exactly when its 50-character title excerpt holds one of the two patterns |
| History.SavedAnswerAddsNoKey | stackexchange_bot.py:244-245 | appending a record with an answer link to a file that ends a line adds no dedup key when the site holds neither a newline nor a '/' and the title excerpt holds neither a newline nor a question-link pattern |
| History.SaveAllCount | stackexchange_bot.py:291-299 | appending any number of records with answer links, whose sites and title excerpts hold no newline, to a file that ends a line raises the daily count by the number of records dated today, and the file still ends a line |
| History.SaveAllKeys | stackexchange_bot.py:238-249 | appending any number of records with answer links to a file that ends a line leaves the dedup set as it was, when no site holds a newline or a '/' and no title excerpt holds a newline or a question-link pattern |
| StackApi.FilterUnseen | stackexchange_bot.py:276-278 | the loop over the items returns exactly the unseen items, in order |
| StackApi.GetStackQuestions | stackexchange_bot.py:251-289 | the retry loop returns the result and the pauses that the recursive specification Fetch gives, one pause per attempt made |
| StackApi.FetchPauses | stackexchange_bot.py:251-289 | the fetch makes one to three attempts, every attempt but the last failed, and each attempt's pause is 30 seconds after a raised attempt other than the third and 0 otherwise |
| StackApi.FetchResult | stackexchange_bot.py:251-289 | the result is None exactly when none of the three attempts got a 200 response, and then all three were made; otherwise the last attempt succeeded and the result is its unseen items in the API's order |
| StackApi.UnseenMembers | stackexchange_bot.py:276-278 | a question is returned exactly when it is among the items and its key is not in the dedup set |
| StackApi.UnseenAppend | stackexchange_bot.py:276-278 | the filter distributes over concatenation, so it keeps the API's order |
| StackApi.PostAnswer | stackexchange_bot.py:349-381 | an answer id is returned exactly for a 200 response whose items are present and non-empty and whose first item has an answer_id, and it is that id |
| Setup.VerifySetup | stackexchange_bot.py:314-347 | the items reported are the sites.txt item, then one per unset variable in the dict's order; the check passes exactly when sites.txt holds a non-whitespace character and all seven variables are set and non-empty |
| Setup.CheckVars | stackexchange_bot.py:337-339 | the loop reports the unset variables, in order |
| Setup.MissingVarsMembers | stackexchange_bot.py:337-339 | a variable is reported exactly when it is listed and unset |
| Setup.SetupPasses | stackexchange_bot.py:341-347 | nothing is reported exactly when sites.txt holds a non-whitespace character and every required variable is set |
| Orchestrator.MissingBodyIsNotRateLimit | stackexchange_bot.py:441 | the KeyError of a question without a body is not taken for a rate-limit error |
| Orchestrator.OnError | stackexchange_bot.py:465-472 | the except branch breaks exactly for a rate-limit message whose back-off raised, and then adds no event; any other message sleeps 60 seconds; a rate-limit message with a working back-off sleeps the rate-limit time; the dedup set and file are unchanged |
| Orchestrator.MissingBodyIsError | stackexchange_bot.py:441-472 | the KeyError of a missing body takes the except branch's error path: a 60-second sleep, no break |
| Orchestrator.PostAndRecord | stackexchange_bot.py:447-463 | posting never breaks the loop, starts with the post, and posts on the current site for the current question |
| Orchestrator.HandleQuestionStops | stackexchange_bot.py:433-472 | the question loop breaks exactly for an eligible, unseen question with a body whose generation raised a rate-limit error and whose back-off sleep raised |
| Orchestrator.HandleQuestionPosts | stackexchange_bot.py:439-463 | an eligible, unseen question with a body and a non-empty completion is posted with that text; a non-zero answer_id adds the saved record of the clock's timestamp, site, title and answer link, appends it to the file when the write succeeds, and adds the pacing sleep and the question's key; otherwise only the post happens |
| Orchestrator.HandleQuestionTrace | stackexchange_bot.py:433-472 | handling one question keeps the trace rules, adds to the dedup set exactly the answered keys, and appends to the history exactly the records whose write succeeded |
| Orchestrator.TraceConcat | stackexchange_bot.py:425-474 | a settled trace followed by a trace that starts from the dedup set it reached is a trace: the loops' pieces compose |
| Orchestrator.AnswerQuestions | stackexchange_bot.py:433-472 | the question loop's events, dedup set, file and break flag are those of the recursive specification QuestionLoop |
| Orchestrator.QuestionLoopTrace | stackexchange_bot.py:433-472 | the question loop keeps the trace rules, grows the dedup set by the answered keys and the file by the written records, posts on its own site only, and breaks only after a failed back-off for one of its questions |
| Orchestrator.ProcessSite | stackexchange_bot.py:425-474 | one site's fetch and question loop give what the specification SiteRun gives |
| Orchestrator.SiteRunTrace | stackexchange_bot.py:425-474 | one site's fetch sleeps and question loop keep the trace rules, post on that site only, and break only after a failed back-off |
| Orchestrator.ProcessSites | stackexchange_bot.py:425-474 | the site loop gives what the specification SitesLoop gives, each site starting from the dedup set and file the previous ones left |
| Orchestrator.SiteHandlerKeepsRules | stackexchange_bot.py:425-474 | the body of the site loop keeps the trace rules for every listed site, from any dedup set and file, and posts only on listed sites |
| Orchestrator.SitesLoopTrace | stackexchange_bot.py:425-474 | a site loop whose body keeps the rules keeps them across all sites, a broken question loop moving on to the next site |
| Orchestrator.CycleGates | stackexchange_bot.py:411-488 | a reached daily limit sleeps an hour and leaves the file alone; a missing sites.txt only sleeps as after a crash |
| Orchestrator.CycleRunTrace | stackexchange_bot.py:425-480 | the sites of a cycle and the pause after them keep the trace rules from the loaded dedup set, post only to listed sites, append exactly the written records and end with the 180-minute sleep |
| Orchestrator.CycleTrace | stackexchange_bot.py:411-480 | a cycle under the limit with a site list keeps the trace rules from the dedup set of the history file, posts only to loaded sites, writes exactly the successful records and ends with the 180-minute sleep |
| Orchestrator.RunCycle | stackexchange_bot.py:411-488 | one pass of the main loop gives what the specification Cycle gives for the program's site loop body |
| Orchestrator.PostsAreEligible | stackexchange_bot.py:435-447 | every post is for an eligible question not in the loaded dedup set, with a non-empty answer |
| Orchestrator.NoRepeatedAnswer | stackexchange_bot.py:435-456 | a question answered in a cycle is not posted to again in that cycle |
| Orchestrator.SavedOnlyAfterAnswer | stackexchange_bot.py:448-455 | a record is saved only right after an answered post, and it is that post's record |
| Orchestrator.AnswerIsRecordedAndPaced | stackexchange_bot.py:448-463 | every answered post is followed by its record and by a pause of one to two hours |
| Orchestrator.NextCycleCount | stackexchange_bot.py:412-413 | when the history file ends a line and no posted site or title excerpt holds a newline, the next cycle's daily count is the old count plus the records this cycle wrote dated today |
| Orchestrator.NextCycleForgets | stackexchange_bot.py:420 | when the history file ends a line, no posted site holds a newline or a '/' and no title excerpt holds a newline or a question-link pattern, the next cycle loads the same dedup set as this one |
| Orchestrator.AnsweredIsForgotten | stackexchange_bot.py:450-456 | under the conditions of NextCycleForgets, a question answered in this cycle is not in the next cycle's dedup set |
| App.FeedWindow | app.py:35-40 | a buffer of at most 100 lines, fed any number of lines, holds exactly the last min(100, total) of all its lines |
| App.DrainOutput | app.py:31-47 | the reader loop keeps the log lines of the passes before the one that ends it, through the bounded buffer, adds the error line without trimming when that pass raised, and ends as exited, failed or still reading accordingly |
| App.DrainBound | app.py:35-47 | the buffer stays within 100 lines unless the loop raised; after an exception it holds at most 101, and exactly 101 when it was full |
| App.StartThenRunBound | app.py:53-62 | a started bot's buffer holds at most 101 lines, and at most 100 unless the reader failed |
| App.Dashboard.constructor | app.py:11-14 | no process, status stopped, empty buffer |
| App.Dashboard.StartBot | app.py:53-62 | unless the bot runs, the buffer is cleared and a reader thread is started; a running bot is left alone; either way status and process are unchanged |
| App.Dashboard.StopBot | app.py:64-71 | with a process and a running status the process is terminated and the status becomes stopped, the process field staying set; otherwise nothing changes |
| App.Dashboard.StatusView | app.py:77 | the status view is the last min(50, length) lines of the buffer |
| App.Dashboard.RunBot | app.py:16-47 | a failed spawn records an error line and the error status; otherwise the buffer ends as the reader-loop specification says, with the status and process stopped/None on exit, error/kept on an exception, and running while the passes last |
| App.NormalizeSites | app.py:83-84 | the submitted sites are non-empty, stripped and hold no newline |
| App.LoadJoined | app.py:86 | non-blank, stripped, one-line sites joined by newlines are read back by load_sites as they were |
| App.SitesRoundTrip | app.py:83-86 | the sites saved through the form are exactly the sites the bot loads (a lone '\r' inside a site is under Left out) |

## Left out

- HTTP requests, the Stack Exchange SDK object, the language-model client, the clock,
  `random.randint`, `time.sleep` and the file system are not called. What they return is an input
  of the model (`Orchestrator.Env`, `StackApi.FetchOutcome`, `StackApi.PostOutcome`, file texts,
  the environment map). A sleep is an event with its length.
- The endless `while True` of `main`, `KeyboardInterrupt`, `cycle_count` and the
  `successful_comments` counter are left out. The last two are only logged. One pass of the loop
  is `Orchestrator.RunCycle`.
- Logging and colours are not modelled: the `Tee` of stdout/stderr, colorama, the banner and every
  `log_*` message.
- `verify_account_status`, the SDK initialisation in `main` and at start-up, and the query
  parameters of the question request are not modelled. These are `pagesize`, sort, filter and
  keys; the reply is an input.
- `get_chatgpt_answer`'s prompt text and model name are left out; its return value is an input.
- `get_token_simple.py` is not part of this model.
- `max_comments_per_site` and `min_reputation` are configured but never read by the code, so they
  have no effect to model.
- The Flask routes as HTTP, the HTML page, threads and their interleaving are not modelled.
  `App.Dashboard` runs one handler at a time. The reader thread is a method that runs its passes
  to the end, and a started thread is counted in `launches`.
- The GET branch of `manage_sites`, which returns the raw file, is left out.
- `Timestamps.Parse` accepts only the zero-padded layout that strftime writes. Other forms
  strptime also accepts, such as single-digit fields, read as a failure.
- Timestamps.Format: pads a year below 1000 to four digits. The platform's strftime may write
  fewer digits there; timestamps of `datetime.now()` never have such a year.
- Text-mode universal newlines are not modelled: CRLF and a lone '\r' are not line ends here.
  `lower()` covers ASCII and the two non-ASCII capitals that matter for ASCII phrases. `strip()`
  uses Python's whitespace set.
- Files that are not valid UTF-8 and the resulting exceptions are left out.
- Questions always carry `question_id`. The fetch exception for a missing one is a raised attempt
  (`FetchRaised`).
- Orchestrator.HandleQuestion: its own contract states only where it posts and when it breaks.
  Its effect on the events, the dedup set and the history file is stated by
  `Orchestrator.HandleQuestionStops`, `Orchestrator.HandleQuestionPosts` and
  `Orchestrator.HandleQuestionTrace`.
- Orchestrator.NextCycleForgets: stated only for a history file that ends a line (`EndsLine`),
  sites without a '/' and title excerpts holding neither question-link pattern (`LinkFreePosts`),
  on one line (`PlainPosts`). A title excerpt holding "stackexchange.com/q/" gives a key of its
  own. A last line `…/q/123` without a newline gives the key "123" before an append and "123\n"
  after it.
- Orchestrator.NextCycleCount: stated only for a history file that ends a line and posts whose
  site and title excerpt hold no newline (`PlainPosts`). A title excerpt holding a newline followed
  by a timestamp line counts twice.
- A JSON `null` body is `Some("None")` in `Questions.Question`, since the f-string of the prompt
  renders it as "None" and the question is posted; JSON nulls are not otherwise distinguished.
- InitializeHistory, SaveCommentLink: a write either happens in full or not at all. A partial or
  empty write after `open()` succeeded is not modelled.
- App.SitesRoundTrip: text-mode reading turns a lone '\r' inside a submitted site into a line end,
  which the model, with '\n' as the only line end, does not capture.
- Orchestrator.RunCycle: a missing `sites.txt` stands for the exception that the loop's outer
  `except` catches before any site is processed. Other exceptions escaping a cycle are not
  modelled.
