# Job monitor pipeline, modelled in Dafny

The job monitor is a small script. It collects job listings from employer
career pages (HTML) and JSON APIs. It keeps the listings whose title holds
one of the configured keywords and whose location holds one of the
configured locations. It compares them with the listings seen on earlier
runs, e-mails the new ones and appends them to the seen list.

This project models the pure part of that pipeline and proves its
properties:

- `Jobs`: the `Job` record (firm, title, location, link, compared
  structurally). It also holds `FilterJobs` (`filter_jobs`) and
  `IdentifyNewJobs` (`identify_new_jobs`).
- `Seqs`: `Where`, the list comprehension with a condition that both of those
  are built from, plus subsequences and flattening.
- `Text`: ASCII lower-casing, the substring test behind Python's `in` on
  strings, and joining and splitting on a character.
- `Api`: the decoded API payload as a tagged value (an object holding arrays
  under keys, or a bare array), the field mapping, and `ProcessApiResponse`
  (`process_api_response`). That one is a method with a loop, proved against
  the specification function `Normalized`.
- `Notify`: the e-mail body and the "nothing new means nothing is sent"
  guard of `send_email_notification`.
- `Monitor`: the accumulate / diff / merge logic of the script's main block.
  It is a method with one loop over the HTML targets and one over the API
  targets. The fetched data are its inputs. It returns the collected
  listings, the new listings, the message (if any) and the list to be saved.
- `Scenarios`: worked examples of the monitor's behaviour, stated on the model.

Nothing here performs I/O. The HTTP responses, HTML pages, configuration and
stored listings are parameters. The message and the list to save are
results.

At main.py:66 the `link` entry must be present in the target's
configuration. A missing key raises `KeyError`, and a falsy value gives `""`.
`Api.Params.link == ""` stands for a falsy configured value. The `KeyError`
case cannot be expressed, because the record always has a `link` field.

At main.py:212-217 the e-mail is sent before the seen list is extended and
saved. A failed send (an SMTP error, or a missing `MAIL_*` variable at
main.py:164-165 or 178-179) raises and ends the run, so nothing is saved.
`Monitor.Run` takes the send's outcome as the input `sent`. When there are new
listings and the send fails, the list to save is `previous` unchanged, the
store on disk is left as it was, and the same listings count as new on the
next run.

## Model

| member | source | states |
|---|---|---|
| Text.ToLower | main.py:114-115 | lower-casing keeps the length, leaves no ASCII capital, turns each capital into its small letter and keeps every other character |
| Text.ContainsIsSubstring | main.py:114-115 | the left-to-right search used for `in` on strings holds exactly when the needle occurs at some offset of the text |
| Jobs.MatchesIsSelected | main.py:114-115 | a listing matches iff some lower-cased keyword occurs in its lower-cased title and some lower-cased location occurs in its lower-cased location |
| Jobs.FilterJobsMembership | main.py:111-117 | a listing is in the filter's output iff it is in the input and meets that criterion |
| Jobs.FilterJobsOrder | main.py:111-117 | the output is a subsequence of the input; a selected listing keeps all its occurrences, any other listing has none |
| Jobs.FilterJobsEmptyCriteria | main.py:114-115 | an empty keyword list or an empty location list keeps nothing, for any listings |
| Jobs.FilterJobsIdempotent | main.py:111-117 | filtering the output again with the same criteria returns it unchanged |
| Jobs.FilterJobsAppend | main.py:111-117 | filtering a concatenation is concatenating the filtered parts |
| Jobs.FilterJobsCaseInsensitive | main.py:114-115 | lower-casing the keywords and locations beforehand does not change the result |
| Jobs.IdentifyNewJobsMembership | main.py:152 | a listing is new iff it is a current listing and is not among the seen ones |
| Jobs.IdentifyNewJobsOrder | main.py:152 | the new listings are a subsequence of the current ones; an unseen listing keeps all its occurrences (no deduplication) |
| Jobs.IdentifyNewJobsNothingSeen | main.py:152 | against an empty seen list every listing is new |
| Jobs.IdentifyNewJobsAllSeen | main.py:152 | against itself no listing is new |
| Jobs.IdentifyNewJobsAfterMerge | main.py:209-216 | after the new listings are appended to the seen list, the same current listings yield nothing new |
| Api.Normalized | main.py:56-70 | the normalised list has one listing per element of the listing array |
| Api.ProcessApiResponse | main.py:46-70 | an object payload is read through the configured key and a bare array is used as it is; the output has one listing per element, in order; each has the target's firm, the configured title and location fields, and the configured link field or `""` when the configured link field name is falsy |
| Notify.Notification | main.py:161-162 | there is a message iff the list of new listings is non-empty; the message carries the fixed subject |
| Notify.BodyCons | main.py:166-171 | the body is the first listing's entry, a newline, then the body of the rest |
| Notify.BodyAppend | main.py:166-171 | the body of a concatenation is the two bodies joined by a newline |
| Notify.EntryLines | main.py:168 | a listing's entry splits into the line "firm - title - location" and the line holding its link |
| Notify.BodyLines | main.py:166-171 | when no field holds a newline, splitting the body on newlines gives each listing's header and link, in order |
| Notify.NotificationLines | main.py:161-171 | a non-empty list yields a message whose body splits into each listing's header and link, in order |
| Monitor.FilterEachIsFilterOfAll | main.py:192-205 | filtering target by target and concatenating equals filtering all targets' listings at once |
| Monitor.FilterEachMembership | main.py:192-205 | a listing is collected iff some target produced it and it meets the selection criterion |
| Monitor.CollectJobs | main.py:192-205 | the collected listings are the filtered listings of each HTML target, then of each API target, concatenated in configuration order |
| Monitor.Run | main.py:192-217 | the new listings are the collected ones not seen before; a message exists iff there are new listings; when the send succeeds or there is nothing to send, the saved list is the previous list with the new listings appended, so the previous list is an unchanged prefix, the length is the sum, and every collected listing is saved; when a needed send fails, the store stays the previous list and the same listings are new again on the next run |
| Scenarios.FilterScenario | main.py:111-117 | keyword "engineer" with location "remote" keeps "Software Engineer" at "Remote, US" and drops "Sales Rep" |
| Scenarios.DiffScenario | main.py:152 | with one stored listing, a scrape of it and one other gives exactly the other as new, and the stored list becomes both listings in order |
| Scenarios.ApiScenario | main.py:57-58 | a payload `{"results": [...]}` with key "results" normalises exactly like the bare array |

## Left out

- Network access: `call_job_listing_api` and the page fetch in `scrape_job_listings` (main.py:28-43, 80). The decoded payloads and the listings already scraped are inputs of `Monitor.Run`.
- A failed API call returns `None`, and `process_api_response` then fails on it. The model's payload is always a decoded response, so that failure path is not represented.
- HTML extraction in `scrape_job_listings` (main.py:81-98). It is a thin layer over BeautifulSoup's `find_all`, `find` and `get_text`, whose behaviour is not part of this model. Each HTML target arrives as a sequence of listings.
- The SMTP session, the MIME object and the environment-variable lookups in `send_email_notification` (main.py:164-165, 173-184). The model stops at the message (subject and body). Sender, recipient and host are not modelled.
- `load_yaml`, `load_jobs` and `save_jobs` (main.py:15-25, 120-140). They are file I/O over the `yaml` and `json` libraries, so a save/load round trip cannot be proved from this code. The previous listings are an input and the list to save is a result.
- Payload values: a JSON object's values are modelled as arrays of string-valued records, and a record's fields as strings. Other JSON value types are not represented.
- Missing keys: a missing listing key, title, location or link field raises `KeyError` in the source. In the model it is excluded by the precondition `Api.WellFormed`.
- Text.ToLower: ASCII only. Python's `str.lower()` also folds non-ASCII letters, and that is not modelled.
- The monitor's in-place `extend` calls are modelled as building new sequence values. Aliasing of the Python lists is not captured.
