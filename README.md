# AI workspace: a verified model of its record-shaping core

The AI workspace is a personal assistant. It has a Next.js frontend and a FastAPI backend.

- It ingests Gmail messages, uploaded files, Google Docs and Slack links into a vector store.
- It lets the user browse, search and delete what was stored.

Most of the code is glue around external services. This project models the parts that compute something definite:

- **Email record normaliser.** The inbox page's `parseEmailContent` turns a loosely shaped record into a display record. This covers:
  - the LinkedIn sender repair;
  - the three-tier header search for each field;
  - `"Name" <addr>` splitting and local-part names;
  - body cleanup.
  - The module also models the record mapping of `fetchEmails`, the sort and de-duplication of `filteredEmails`, and `handleEmailClick`. It lives in `EmailScan`, `EmailPage` and `EmailList`.
- **Email search route.** The backend builds the vector-store filter and re-derives sender, subject and preview from the stored text (`EmailSearch`). Its fast path parses headers, picks the sender and subject, and filters by query, date and limit (`EmailFastSearch`). The fast path keeps the source's function-local `import re`, so it skips every message read before the first invitation message (see Findings). A date whose formatting raises an uncaught error drops that search result.
- **Documents.** This covers:
  - the frontend's newest-per-key de-duplication and search mapping (`DocumentService`);
  - the documents page's highlight choice, filters, delete and "Part N" labels (`DocumentsPage`);
  - the backend's delete-by-name chunk matching (`DeleteRoute`).
- **Ingestion helpers.** This covers:
  - Slack link extraction and file classification (`Slack`);
  - the Google Docs URL-to-id extraction and paragraph flattening (`GoogleDocsUtils`);
  - the imported-doc naming and per-URL grouping (`GoogleDocs`);
  - upload naming and whitelisting (`UploadUtils`, `Upload`);
  - parser dispatch (`FileParser`);
  - the listing and search shaping of the query routes (`QueryRoutes`).
- **Gmail ingestion service.** `EmailIngestionService` keeps a processed-id set with a save cadence, a retry/backoff connect and a stop flag (`EmailIngestion`). The account registry of the email routes is `EmailRegistry`.
- **Dashboard widgets.** This covers the activity timeline's icon, route, label and message (`ActivityTimeline`), and the semantic-search filter chips and badge (`SemanticSearch`).

Shared modules:

- `Wrappers`: `Option` and `Result`.
- `Text`: character classes of JavaScript and Python, ASCII case mapping, trimming, splitting, joining and searching.
- `PyPath`: `pathlib` and `os.path`.
- `Json`: scalar JSON values.

## How the model is built

The model follows the form of each source file:

- **State updated in place is a class.** The inbox's `emails` array, the loosely typed input record that `parseEmailContent` writes back into, `EmailIngestionService` and `EmailServiceManager` are each a class whose methods change their fields.
- **Loops are methods.** Each loop of the source is a `method` with a `while` or `for` loop. It is proved equal to a specification function, and the properties are proved about that function.
- **Expressions are functions.** Code written as expressions is a function with lemmas.

Regular expressions are hand-written scanners. Each one follows the backtracking order of the engine that runs it: the greedy `[^\s]+` that gives characters back, the lazy `.*?` with its look-ahead, and the leftmost match.

Several things become parameters or values:

- Clocks, date parsing, the random UUID and the embedding service are parameters.
- The file system, vector store and HTTP responses are input values.
- Calls into them are returned as records.

Absent JavaScript or Python string fields are the empty string, and an absent timestamp is 0. In both languages an absent field and an empty one are equally falsy.

## Model

| member | source | states |
|---|---|---|
| EmailScan.LinkHead | ai-assistant-frontend/app/emails/page.tsx:80 | `View profile:https?:\/\/` matched at a position ends at least 20 characters later, inside the text |
| EmailScan.LastMarker | ai-assistant-frontend/app/emails/page.tsx:80 | the `/in/` chosen is the last one in range followed by a slug character; none lies after it, and None means none lies in range |
| EmailScan.SlugAt | ai-assistant-frontend/app/emails/page.tsx:80 | a match attempted at `p` starts at `p`, follows a `/in/` marker and captures the maximal run of characters other than '?' and '/' after it |
| EmailScan.SlugFromLeftmost | ai-assistant-frontend/app/emails/page.tsx:80 | the match found is the one attempted at its start, and no earlier start position matches |
| EmailScan.SlugFromFound | ai-assistant-frontend/app/emails/page.tsx:80 | the match found stands after a marker and captures the slug-character run after it |
| EmailScan.SlugShape | ai-assistant-frontend/app/emails/page.tsx:80-82 | the captured slug is non-empty, holds no '?' or '/', stands right after `/in/` (any letter case), and ends at the text's end or before a '?' or '/'; it may span spaces and newlines |
| EmailScan.SlugFollowsLastMarker | ai-assistant-frontend/app/emails/page.tsx:80 | the slug's `/in/` is reached from the link head without whitespace, and no later `/in/` with a slug character is reachable without crossing whitespace: the greedy `[^\s]+` picks the last one |
| EmailScan.CapitalizeWordsJs | ai-assistant-frontend/app/emails/page.tsx:84 | `replace(/\b\w/g, toUpperCase)`: same length, each character at a word start upper-cased and every other character kept |
| EmailScan.CapitalizeWordsJsCaseOnly | ai-assistant-frontend/app/emails/page.tsx:84 | the capitalisation changes only letter case (the lower-cased texts agree) and a second pass changes nothing |
| EmailScan.VanityFrom | ai-assistant-frontend/app/emails/page.tsx:92 | `inviterVanityName=([^&]+)`: a capture is non-empty and holds no '&' |
| EmailScan.VanityValue | ai-assistant-frontend/app/emails/page.tsx:92 | the capture after the key is non-empty, holds no '&', is the text right after the key, and ends at an '&' or at the end of the text |
| EmailScan.VanityFromLeftmost | ai-assistant-frontend/app/emails/page.tsx:92 | the capture is the value at the leftmost key occurrence at or after the start that a character other than '&' follows, and None means no such occurrence exists |
| EmailScan.FieldAfter | ai-assistant-frontend/app/emails/page.tsx:129 | the lazy header value is exactly the text after the whitespace run that follows the key, up to the first line terminator or the end; it holds no line terminator and does not start with whitespace |
| EmailScan.HeaderAnywhere | ai-assistant-frontend/app/emails/page.tsx:129 | `Key:…` anywhere matches exactly when the key occurs in the text in any letter case |
| EmailScan.KeyAtLineStartFrom | ai-assistant-frontend/app/emails/page.tsx:131 | the `^Key:` match found is a case-insensitive occurrence at a line start at or after the search position, no earlier position has one, and None means there is none |
| EmailScan.BackOff | ai-assistant-frontend/app/emails/page.tsx:204 | backtracking the greedy class run: the capture starts at the largest allowed position up to the greedy end, is non-empty, free of the excluded characters and runs to the end of the class run; None means every candidate start is excluded |
| EmailScan.ClassFieldFrom | ai-assistant-frontend/app/emails/page.tsx:204 | `To:[\s\r\n]*([^<\r\n]+)` captures a non-empty value free of the excluded characters |
| EmailScan.ClassFieldFromLeftmost | ai-assistant-frontend/app/emails/page.tsx:204 | the capture is the one attempted at the leftmost position where an attempt succeeds, and None means no attempt at or after the start succeeds |
| EmailScan.LastTld | ai-assistant-frontend/app/emails/page.tsx:135 | the `\.[a-zA-Z]{2,}` chosen by backtracking is the last top-level-domain start in range, and None means there is none in range |
| EmailScan.AddressEndAt | ai-assistant-frontend/app/emails/page.tsx:135 | an address match starting at `p` ends inside the text and contains '@' |
| EmailScan.AddressEndAtMatch | ai-assistant-frontend/app/emails/page.tsx:135 | the match end comes from an address match at `p` with the last possible top-level-domain dot, and None means no address match starts at `p` |
| EmailScan.AddressFrom | ai-assistant-frontend/app/emails/page.tsx:135 | the address found contains '@' and is the match at the leftmost position at or after `p` where one starts; None means none starts there |
| EmailScan.FirstAddress | ai-assistant-frontend/app/emails/page.tsx:135 | the first bare address in the text contains '@' and starts at the leftmost position where one starts; None means the text has none |
| EmailScan.AngleAddressAt | ai-assistant-frontend/app/emails/page.tsx:150 | `<([^>]+)>` captures a non-empty address without '>' |
| EmailScan.NameSearch | ai-assistant-frontend/app/emails/page.tsx:150 | the lazy name group holds no '"' and the address is non-empty without '>' |
| EmailScan.NameAndAddress | ai-assistant-frontend/app/emails/page.tsx:150 | `^\s*"?([^"]*?)"?\s*<([^>]+)>` splits a sender into a name without '"' and a non-empty address without '>' |
| EmailScan.RemoveBracketed | ai-assistant-frontend/app/emails/page.tsx:166-167 | removing `<…>` or `(…)` never lengthens the text and leaves a text without the opening bracket unchanged |
| EmailScan.RemoveBracketedKeepsPrefix | ai-assistant-frontend/app/emails/page.tsx:166-167 | text before the first opening bracket is kept as it is |
| EmailScan.RemoveBracketedDropsSpan | ai-assistant-frontend/app/emails/page.tsx:166-167 | a bracketed span with no closing bracket inside and at least the minimum inner length is removed entirely |
| EmailScan.RemoveBracketedKeepsUnmatched | ai-assistant-frontend/app/emails/page.tsx:166-167 | an opening bracket that no closing bracket follows within reach is kept |
| EmailScan.AnglesDropped | ai-assistant-frontend/app/emails/page.tsx:166 | `replace(/<[^>]+>/g, '')` turns `front<address>` into `front` |
| EmailScan.ParensDropped | ai-assistant-frontend/app/emails/page.tsx:167 | `replace(/\([^)]*\)/g, '')` turns `front(comment)` into `front` |
| EmailScan.NewlineEnd | ai-assistant-frontend/app/emails/page.tsx:102 | `\r?\n` at a position ends after it, inside the text |
| EmailScan.BlankLineEnd | ai-assistant-frontend/app/emails/page.tsx:102 | `\r?\n\r?\n` at a position is at least two characters long |
| EmailScan.FirstBlankLine | ai-assistant-frontend/app/emails/page.tsx:102 | the separator found is a blank-line match and no earlier position starts one |
| EmailScan.SplitBlankLines | ai-assistant-frontend/app/emails/page.tsx:102-103 | `split(/\r?\n\r?\n/)` gives at least one piece, the first a prefix of the text, and exactly one piece (the text) when there is no separator |
| EmailScan.NormalizeCrLf | ai-assistant-frontend/app/emails/page.tsx:261 | CRLF normalisation keeps non-empty text non-empty |
| EmailScan.NormalizeCrLfNoCr | ai-assistant-frontend/app/emails/page.tsx:261 | text without '\r' is unchanged |
| EmailScan.NormalizeCrLfAppend | ai-assistant-frontend/app/emails/page.tsx:261 | normalisation distributes over concatenation unless the join splits a CRLF pair |
| EmailScan.NormalizeCrLfPair | ai-assistant-frontend/app/emails/page.tsx:261 | every CRLF pair becomes one '\n' |
| EmailScan.NormalizeCrLfLoneCr | ai-assistant-frontend/app/emails/page.tsx:261 | a '\r' not followed by '\n' is kept |
| EmailScan.StripQuotedFrom | ai-assistant-frontend/app/emails/page.tsx:262 | after blanking quoted lines no line starts with '>', the text is no longer, and an unquoted first character is kept |
| EmailScan.StripQuotedKeepsRest | ai-assistant-frontend/app/emails/page.tsx:262 | the rest of a line that was not at a line start is kept as it is |
| EmailScan.StripQuotedLine | ai-assistant-frontend/app/emails/page.tsx:262 | a whole line is emptied when it starts with '>' and kept otherwise, its terminator kept, and the rest processed the same way |
| EmailScan.StripQuotedLastLine | ai-assistant-frontend/app/emails/page.tsx:262 | a last line is emptied when it starts with '>' and kept otherwise |
| EmailScan.StripQuotedNone | ai-assistant-frontend/app/emails/page.tsx:262 | text with no line starting with '>' is unchanged |
| EmailScan.StripQuotedLines | ai-assistant-frontend/app/emails/page.tsx:262 | `replace(/^>.*$/gm, '')` leaves no line starting with '>' and keeps an unquoted first character |
| EmailScan.CollapseBlankRuns | ai-assistant-frontend/app/emails/page.tsx:263 | `replace(/\n{3,}/g, '\n\n')` leaves no three newlines in a row, never lengthens, and adds no leading newline |
| EmailScan.CollapseBlankRunsKeepsText | ai-assistant-frontend/app/emails/page.tsx:263 | only newlines are removed: the characters other than '\n' are the same, in order |
| EmailScan.CollapseBlankRunsFixed | ai-assistant-frontend/app/emails/page.tsx:263 | text with no three newlines in a row is unchanged |
| EmailScan.TitlePy | ai-assistant-backend/routes/email_search.py:409 | Python `str.title()`: same length, the first letter of each letter run upper-cased, later letters lower-cased, other characters kept |
| EmailScan.TitlePyCaseOnly | ai-assistant-backend/routes/email_search.py:409 | `title()` changes only letter case and a second pass changes nothing |
| EmailScan.LastTail | ai-assistant-backend/routes/email_search.py:413 | the ` would like to connect` chosen by backtracking is the last occurrence in range after the name start, and None means there is none |
| EmailScan.NameEndAt | ai-assistant-backend/routes/email_search.py:413 | the name group starting at a position ends at the largest possible end, and None means no name group starts there |
| EmailScan.ConnectNameBack | ai-assistant-backend/routes/email_search.py:413 | the connect-name group is non-empty and holds no newline |
| EmailScan.ConnectNameBackLargest | ai-assistant-backend/routes/email_search.py:413 | the group starts at the largest start within the backtracking range where a name group exists, and None means none exists there |
| EmailScan.ConnectNameFrom | ai-assistant-backend/routes/email_search.py:413 | `Hi [^,]+,\s*([^\n]+) would like to connect` captures a non-empty name without newline |
| EmailScan.ConnectNameFromLeftmost | ai-assistant-backend/routes/email_search.py:413 | the capture is the attempt at the leftmost position where one succeeds, and None means no attempt succeeds |
| EmailScan.PyFromField | ai-assistant-backend/routes/email_search.py:425 | `From:\s*([^\n<]+)` (ignoring case) captures a non-empty value without newline or '<' |
| EmailScan.PyFromFieldLeftmost | ai-assistant-backend/routes/email_search.py:425 | the capture is the attempt at the leftmost position where one succeeds, and None means no attempt succeeds |
| EmailScan.PyAddressEndAt | ai-assistant-backend/routes/email_search.py:217 | an address match starting at `p` is non-empty and lies in the text |
| EmailScan.PyAddressEndAtMatch | ai-assistant-backend/routes/email_search.py:217 | the match end comes from an address match at `p`, and None means no address match starts at `p` |
| EmailScan.PyAddressFrom | ai-assistant-backend/routes/email_search.py:217 | `re.search` of the address pattern gives a non-empty address |
| EmailScan.PyAddressFromLeftmost | ai-assistant-backend/routes/email_search.py:217 | the address is the match at the leftmost position at or after `p` where one starts, and None means none starts there |
| EmailPage.PreviewOf | ai-assistant-frontend/app/emails/page.tsx:52 | the preview ends with '...' and is at most 203 characters: the whole text plus '...' for at most 200 characters, else the first 200 plus '...' |
| EmailPage.LinkedInName | ai-assistant-frontend/app/emails/page.tsx:82-85 | the name is no longer than the slug and is trimmed of JavaScript whitespace |
| EmailPage.LinkedInNameSpelling | ai-assistant-frontend/app/emails/page.tsx:82-85 | the name is the trimmed slug with each '-' turned into a space and each word start upper-cased, every other character kept |
| EmailPage.VanityAddress | ai-assistant-frontend/app/emails/page.tsx:92-95 | the address is empty exactly when the text has no `inviterVanityName=` value; otherwise it is the leftmost value plus '@linkedin.com' |
| EmailPage.FromSearch | ai-assistant-frontend/app/emails/page.tsx:125-136 | a 'from:' anywhere in the raw text always yields a match; with no 'from:' in the headers or the text, the match is the first bare address |
| EmailPage.TrimCollapsedIsTidy | ai-assistant-frontend/app/emails/page.tsx:196-198 | trimming whitespace-collapsed text leaves no leading, trailing or doubled whitespace |
| EmailPage.CollapseSpaces | ai-assistant-frontend/app/emails/page.tsx:197 | `replace(/\s+/g, ' ')` leaves only single spaces as whitespace, keeps all other characters in order, and changes the text exactly when it was not already collapsed |
| EmailPage.SettledText | ai-assistant-frontend/app/emails/page.tsx:196-198 | tidy text is kept by collapsing and trimming, even with a space after it |
| EmailPage.CleanSubject | ai-assistant-frontend/app/emails/page.tsx:195-198 | a cleaned subject is tidy and keeps every non-whitespace character of the subject once its wrapping brackets and quotes are stripped |
| EmailPage.CleanSubjectUnwraps | ai-assistant-frontend/app/emails/page.tsx:195-198 | a plain subject is kept, and one wrapped in '[…]' or in quotes is unwrapped |
| EmailPage.CleanDisplay | ai-assistant-frontend/app/emails/page.tsx:207-212 | a cleaned sender or recipient is tidy and keeps every non-whitespace character left once quotes, `<…>` and `(…)` are removed |
| EmailPage.CleanDisplayUnquotes | ai-assistant-frontend/app/emails/page.tsx:207-212 | a plain name is kept, and a quoted one is unquoted |
| EmailPage.CleanDisplayDropsAddress | ai-assistant-frontend/app/emails/page.tsx:209 | `Name <address>` is cleaned to `Name` |
| EmailPage.CleanDisplayDropsComment | ai-assistant-frontend/app/emails/page.tsx:210 | `Name (comment)` is cleaned to `Name` |
| EmailPage.LocalPartName | ai-assistant-frontend/app/emails/page.tsx:171-178 | the name made from an address's local part holds no '@' or separator and is trimmed |
| EmailPage.SenderParts | ai-assistant-frontend/app/emails/page.tsx:145-187 | a `Name <addr>` sender gives the trimmed address; otherwise the address is the first bare address or ''; and the name is tidy or is the local-part name of the address |
| EmailPage.SubjectFallbackFrom | ai-assistant-frontend/app/emails/page.tsx:234-253 | a subject set by the fallback loop is tidy |
| EmailPage.CleanBody | ai-assistant-frontend/app/emails/page.tsx:260-264 | the cleaned body has no three newlines in a row |
| EmailPage.CleanBodyKeepsCleanText | ai-assistant-frontend/app/emails/page.tsx:260-264 | a body already free of CR, quoted lines and triple newlines, and trimmed, is kept |
| EmailPage.CleanBodyCrLf | ai-assistant-frontend/app/emails/page.tsx:261 | a CRLF pair in the body is cleaned exactly like a lone '\n' |
| EmailPage.BodyText | ai-assistant-frontend/app/emails/page.tsx:256-259 | no blank line gives an empty body; the body is trimmed; with a single blank-line separator it is the trimmed text after it |
| EmailPage.Shortcut | ai-assistant-frontend/app/emails/page.tsx:46-58 | an already parsed record keeps its content as content and raw text, is unread, keeps the sender address, keeps a given sender, and defaults an empty sender, recipient or subject |
| EmailPage.Initial | ai-assistant-frontend/app/emails/page.tsx:61-97 | the parse starts from the raw text as content, the given recipient and subject, and an empty preview; the sender changes only through the LinkedIn repair of an empty or unknown sender, and a sender address only to the vanity address |
| EmailPage.Parsed | ai-assistant-frontend/app/emails/page.tsx:25-282 | the result always has content and is unread; the shortcut keeps the given content as content and raw text and fills from/to/subject; the full parse keeps the raw text and, for non-empty raw text, always has a sender |
| EmailPage.FromStep | ai-assistant-frontend/app/emails/page.tsx:139-187 | the sender step changes only sender and sender address and always leaves a sender: a LinkedIn name wins; with no match it is 'Unknown Sender' and the address is kept; otherwise the parts of the match, each defaulting |
| EmailPage.SubjectStep | ai-assistant-frontend/app/emails/page.tsx:189-199 | the Subject step changes only the subject |
| EmailPage.ToStep | ai-assistant-frontend/app/emails/page.tsx:201-213 | the To step changes only the recipient |
| EmailPage.DateStep | ai-assistant-frontend/app/emails/page.tsx:215-231 | the Date step changes only date and timestamp |
| EmailPage.FallbackStep | ai-assistant-frontend/app/emails/page.tsx:233-254 | the subject fallback changes only the subject |
| EmailPage.BodyStep | ai-assistant-frontend/app/emails/page.tsx:256-272 | the body step changes only content and preview and always leaves content: the cleaned body, or the body when cleaning empties it, with its preview; without a body the CRLF-normalised raw text and its preview |
| EmailPage.FullParse | ai-assistant-frontend/app/emails/page.tsx:61-282 | the full parse always has content, is unread, keeps the raw text and has a sender when the raw text is non-empty |
| EmailPage.ShortcutFields | ai-assistant-frontend/app/emails/page.tsx:46-58 | already parsed records keep content, get the defaults 'Unknown Sender', 'Unknown Recipient', 'No Subject', are unread, and keep the given sender address or '' |
| EmailPage.LinkedInWins | ai-assistant-frontend/app/emails/page.tsx:109-144 | in the full parse a non-empty LinkedIn name is the sender whatever the From headers say, and a vanity address is the sender address |
| EmailPage.BareAngleSender | ai-assistant-frontend/app/emails/page.tsx:145-184 | a bare `<addr>` sender keeps '<addr>' as its display text and takes the trimmed address |
| EmailPage.NamedSender | ai-assistant-frontend/app/emails/page.tsx:150-155 | a `"Name" <addr>` sender with a non-blank name gives the trimmed name and the trimmed address |
| EmailPage.NoBlankLineKeepsRawText | ai-assistant-frontend/app/emails/page.tsx:268-272 | without a blank line the content is the whole raw text with CRLF normalised, and the preview its first 200 characters plus '...' |
| EmailPage.EmptyRecord | ai-assistant-frontend/app/emails/page.tsx:275-279 | a record without content or body gets 'No content available' as content and preview |
| EmailPage.FetchRecord | ai-assistant-frontend/app/emails/page.tsx:339-370 | every record has a sender, a subject and content, is unread and has no sender address, and its id defaults; a record with content keeps content, raw text, recipient and a defaulted preview, sender, subject, date and timestamp; a record without content takes the parser's fields with the same defaults and '' as raw text |
| EmailPage.FetchEmails | ai-assistant-frontend/app/emails/page.tsx:332-370 | a response without an `emails` array gives the empty list; otherwise one mapped record per input record, in order |
| EmailPage.EmailInput.ParseSender | ai-assistant-frontend/app/emails/page.tsx:105-187 | the sender block computes the From step |
| EmailPage.EmailInput.SubjectFallback | ai-assistant-frontend/app/emails/page.tsx:233-254 | the subject pattern loop computes the fallback step |
| EmailPage.EmailInput.RepairSender | ai-assistant-frontend/app/emails/page.tsx:27-44 | the shortcut writes the LinkedIn repair back into the input object |
| EmailPage.EmailInput.InitialResult | ai-assistant-frontend/app/emails/page.tsx:61-97 | the initial result computes the given fields, raw text as content and the LinkedIn repair |
| EmailPage.EmailInput.ParseHeaderFields | ai-assistant-frontend/app/emails/page.tsx:189-231 | the Subject, To and Date blocks compute their steps in order |
| EmailPage.EmailInput.ParseBody | ai-assistant-frontend/app/emails/page.tsx:256-272 | the body block computes the body step |
| EmailPage.EmailInput.ParseRaw | ai-assistant-frontend/app/emails/page.tsx:61-282 | the full parse, statement by statement, computes the full-parse function |
| EmailPage.EmailInput.ParseEmailContent | ai-assistant-frontend/app/emails/page.tsx:25-282 | `parseEmailContent` returns the parsed record of the original input and leaves the input repaired |
| EmailList.Insert | ai-assistant-frontend/app/emails/page.tsx:383 | inserting one entry lengthens the list by one |
| EmailList.SortNewestFirst | ai-assistant-frontend/app/emails/page.tsx:383 | the sort keeps the length |
| EmailList.InsertIsPermutation | ai-assistant-frontend/app/emails/page.tsx:383 | insertion adds exactly the new entry |
| EmailList.InsertKeepsOrder | ai-assistant-frontend/app/emails/page.tsx:383 | insertion keeps a newest-first list newest first |
| EmailList.InsertIsStable | ai-assistant-frontend/app/emails/page.tsx:383 | insertion keeps the order among equal timestamps |
| EmailList.SortIsOrdered | ai-assistant-frontend/app/emails/page.tsx:383 | after the sort the timestamps are descending |
| EmailList.SortIsPermutation | ai-assistant-frontend/app/emails/page.tsx:383 | the sort is a permutation of the input |
| EmailList.SortIsStable | ai-assistant-frontend/app/emails/page.tsx:383 | entries with equal timestamps keep their relative order |
| EmailList.SortByTimestamp | ai-assistant-frontend/app/emails/page.tsx:382-383 | the in-place sort of the array computes the newest-first sort |
| EmailList.InsertNext | ai-assistant-frontend/app/emails/page.tsx:383 | one insertion pass moves the next entry into place and leaves the rest of the array unchanged |
| EmailList.InsertLandsAt | ai-assistant-frontend/app/emails/page.tsx:383 | the entry lands after the entries at least as new and before the strictly older ones |
| EmailList.IndexOfId | ai-assistant-frontend/app/emails/page.tsx:384 | the position found holds the id; None means no entry has it |
| EmailList.IdsSnoc | ai-assistant-frontend/app/emails/page.tsx:384 | one more entry adds its id to the set of ids |
| EmailList.DedupeIdsUnique | ai-assistant-frontend/app/emails/page.tsx:381-385 | the displayed list has unique ids |
| EmailList.DedupeKeepsIds | ai-assistant-frontend/app/emails/page.tsx:381-385 | the displayed list has exactly the ids of the input |
| EmailList.LastOfItsIdSnoc | ai-assistant-frontend/app/emails/page.tsx:384 | an earlier entry stays last of its id exactly when the appended entry has another id |
| EmailList.DedupeKeepsLastOfEachId | ai-assistant-frontend/app/emails/page.tsx:381-385 | the displayed entries are exactly the last entry of each id |
| EmailList.FirstIndexOfId | ai-assistant-frontend/app/emails/page.tsx:384 | the first position of an id holds it and no earlier position does |
| EmailList.FirstIndexOfPresentId | ai-assistant-frontend/app/emails/page.tsx:384 | an id that occurs has a first position in the list |
| EmailList.DedupeKeepsFirstOrder | ai-assistant-frontend/app/emails/page.tsx:381-385 | displayed ids follow the order of their first appearance |
| EmailList.MarkRead | ai-assistant-frontend/app/emails/page.tsx:390-392 | marking keeps the length; an entry is read exactly when it was or has the clicked id, and nothing else changes |
| EmailList.Inbox.SetEmails | ai-assistant-frontend/app/emails/page.tsx:372 | the state holds the fetched list and keeps the selection |
| EmailList.Inbox.FilteredEmails | ai-assistant-frontend/app/emails/page.tsx:381-385 | `emails` is sorted in place and the list shown is its de-duplication, with unique ids |
| EmailList.Inbox.HandleEmailClick | ai-assistant-frontend/app/emails/page.tsx:387-393 | the clicked record is selected and `emails` becomes the marked list |
| EmailSearch.RegexEscape | ai-assistant-backend/routes/email_search.py:64 | `re.escape` never shortens the value |
| EmailSearch.EscapeRoundTrip | ai-assistant-backend/routes/email_search.py:63-64 | read back as a literal, the escaped value is exactly the value: the filter matches the user's text and nothing the regex syntax would add |
| EmailSearch.Filters | ai-assistant-backend/routes/email_search.py:57-88 | the filter list holds one to six conditions and always starts with the gmail-source condition |
| EmailSearch.ConditionOnAppendIf | ai-assistant-backend/routes/email_search.py:66-88 | a conditional append leaves the first condition on a field in place, or supplies it when there was none |
| EmailSearch.AppendOther | ai-assistant-backend/routes/email_search.py:66-88 | appending a condition on another field does not change the first condition on a field |
| EmailSearch.AppendFirst | ai-assistant-backend/routes/email_search.py:66-88 | with no condition on its field yet, an appended condition becomes that field's condition |
| EmailSearch.FiltersByField | ai-assistant-backend/routes/email_search.py:57-88 | each field's condition is the expected one: source is 'gmail'; from, to and subject are case-insensitive escaped patterns exactly when given non-empty; read is the negation of `unread` exactly when given; date is '>= threshold' exactly when `days > 0` and a threshold was computed |
| EmailSearch.FiltersOnSource | ai-assistant-backend/routes/email_search.py:60 | the source condition is always 'gmail' |
| EmailSearch.FiltersOnFrom | ai-assistant-backend/routes/email_search.py:66-67 | a sender condition exists exactly for a non-empty `from_email` |
| EmailSearch.FiltersOnTo | ai-assistant-backend/routes/email_search.py:69-70 | a recipient condition exists exactly for a non-empty `to` |
| EmailSearch.FiltersOnSubject | ai-assistant-backend/routes/email_search.py:72-73 | a subject condition exists exactly for a non-empty `subject` |
| EmailSearch.FiltersOnRead | ai-assistant-backend/routes/email_search.py:75-76 | a read condition exists exactly when `unread` is given, and asks for `not unread` |
| EmailSearch.FiltersOnDate | ai-assistant-backend/routes/email_search.py:80-88 | a date condition exists exactly when `days > 0` and the threshold was computed |
| EmailSearch.BuildFilters | ai-assistant-backend/routes/email_search.py:57-88 | the appends of the route build the specified filter list |
| EmailSearch.WhereClause | ai-assistant-backend/routes/email_search.py:106-107 | no where clause exactly for no filters; one filter is sent bare; several go under '$and' in order |
| EmailSearch.WhereShape | ai-assistant-backend/routes/email_search.py:57-107 | with no optional filter the where clause is the bare gmail condition; otherwise it is '$and' over all filters, source first |
| EmailSearch.PlanFor | ai-assistant-backend/routes/email_search.py:97-103 | the query is embedded exactly when it is non-empty and not 'all' in any letter case; otherwise the store is asked for '*' |
| EmailSearch.AllInAnyCase | ai-assistant-backend/routes/email_search.py:97 | 'ALL', 'All' and '' ask for everything, while 'alls' is embedded |
| EmailSearch.BuildRequest | ai-assistant-backend/routes/email_search.py:90-107 | the request asks for `limit` results with the query plan and always carries a where clause |
| EmailSearch.Preview | ai-assistant-backend/routes/email_search.py:144 | text up to 200 characters is its own preview; longer text gives its first 200 characters plus '...' |
| EmailSearch.DateText | ai-assistant-backend/routes/email_search.py:146-162 | a missing, zero or empty date gives ''; a non-numeric date string gives 'date_str' when it is non-empty and the string itself otherwise; a number is given its formatted text, or 'date_str' when formatting raises the caught `ValueError`; there is no text exactly when a number's formatting raises an error the handler does not catch |
| EmailSearch.DateTextDigitString | ai-assistant-backend/routes/email_search.py:150-154 | a string of digits is dated like the number it spells, except that a zero string is formatted while the number 0 gives '' |
| EmailSearch.NormalizeNewlines | ai-assistant-backend/routes/email_search.py:173 | after normalising no '\r' remains, non-empty text stays non-empty, and text without '\r' is unchanged |
| EmailSearch.NormalizeNewlinesCrLf | ai-assistant-backend/routes/email_search.py:173 | a CRLF pair becomes one '\n' |
| EmailSearch.NormalizeNewlinesLoneCr | ai-assistant-backend/routes/email_search.py:173 | a '\r' not followed by '\n' also becomes '\n' |
| EmailSearch.HeaderPrefixesExclusive | ai-assistant-backend/routes/email_search.py:207-212 | a line starts with at most one of 'from:', 'to:', 'subject:' |
| EmailSearch.HeaderStep | ai-assistant-backend/routes/email_search.py:207-212 | a header line fills its field with the stripped value only while that field is empty; a filled field is never changed |
| EmailSearch.AddressStep | ai-assistant-backend/routes/email_search.py:215-219 | the address search only touches an empty sender |
| EmailSearch.SubjectStep | ai-assistant-backend/routes/email_search.py:222-225 | a meaningful line becomes the subject only while there is none; other fields are kept |
| EmailSearch.Scan | ai-assistant-backend/routes/email_search.py:203-225 | the header scan over all lines only fills empty fields: a sender, recipient or subject already set is kept |
| EmailSearch.ScanFindsSubject | ai-assistant-backend/routes/email_search.py:203-225 | any meaningful line anywhere gives the scan a subject |
| EmailSearch.FromLineAlsoBecomesSubject | ai-assistant-backend/routes/email_search.py:207-225 | a meaningful 'From:' line fills the sender and also becomes the subject, since the subject check is not an `elif` |
| EmailSearch.ScanStep | ai-assistant-backend/routes/email_search.py:204-225 | one scanned line never replaces a subject already found, and a meaningful stripped line leaves a subject |
| EmailSearch.ScanLines | ai-assistant-backend/routes/email_search.py:203-225 | the scan loop computes the left fold of the line step and leaves the shared `i` at the last line |
| EmailSearch.ScanLine | ai-assistant-backend/routes/email_search.py:204-225 | one iteration computes the line step |
| EmailSearch.PinterestSubject | ai-assistant-backend/routes/email_search.py:182-200 | a Pinterest subject is longer than 5 and shorter than 100 characters and contains no footer term |
| EmailSearch.PinterestLoop | ai-assistant-backend/routes/email_search.py:177-200 | the loop keeps an existing subject and otherwise takes the first candidate of the first 20 lines |
| EmailSearch.BodyStart | ai-assistant-backend/routes/email_search.py:229-233 | the body start lies within the lines |
| EmailSearch.BodyStartFollowsFirstBlank | ai-assistant-backend/routes/email_search.py:229-233 | the body starts right after the first blank line, or at the top when there is none |
| EmailSearch.FallbackSubject | ai-assistant-backend/routes/email_search.py:236-241 | a fallback subject is shorter than 100 characters and has no decorated start |
| EmailSearch.FindBodyStart | ai-assistant-backend/routes/email_search.py:229-233 | the blank-line loop computes the body start and leaves the shared `i` at the blank line or the last line |
| EmailSearch.FirstFallbackLine | ai-assistant-backend/routes/email_search.py:236-241 | the window loop returns the first candidate, stripped, or '' |
| EmailSearch.FallbackLoops | ai-assistant-backend/routes/email_search.py:228-241 | the two loops compute the fallback subject |
| EmailSearch.CapitalizeAll | ai-assistant-backend/routes/email_search.py:254 | each dot part is capitalised in place, the count unchanged |
| EmailSearch.CleanFrom | ai-assistant-backend/routes/email_search.py:244-254 | a cleaned sender is never a lone dotted address, so the rewrite cannot apply twice |
| EmailSearch.PySettledKept | ai-assistant-backend/routes/email_search.py:246-249 | settled text (single spaces, none at the ends) survives strip, collapse and strip again, even with a space after it |
| EmailSearch.CleanFromKeepsName | ai-assistant-backend/routes/email_search.py:244-254 | a settled name without '<' or '@' is kept, and an `<address>` after it is removed |
| EmailSearch.CleanFromDottedAddress | ai-assistant-backend/routes/email_search.py:250-254 | a lone address without spaces or '<' whose local part has a '.' becomes the capitalised dot parts of that local part |
| EmailSearch.DottedNameHasNoAt | ai-assistant-backend/routes/email_search.py:251-254 | the name made from an '@'-free local part holds no '@' |
| EmailSearch.CapitalizedPartsHaveNoAt | ai-assistant-backend/routes/email_search.py:254 | capitalising '@'-free parts adds no '@' |
| EmailSearch.JoinHasNoAt | ai-assistant-backend/routes/email_search.py:254 | joining '@'-free parts with an '@'-free separator gives no '@' |
| EmailSearch.ReplyPrefixEnd | ai-assistant-backend/routes/email_search.py:259 | `^(re|fw|fwd):\s*` ignoring case: after 're:' or 'fw:' the prefix ends after the following whitespace, likewise after 'fwd:', and with no prefix it is empty |
| EmailSearch.ReplyPrefixSkipped | ai-assistant-backend/routes/email_search.py:259 | a reply prefix with at most one space before a non-space text ends exactly at that text |
| EmailSearch.CleanSubject | ai-assistant-backend/routes/email_search.py:257-264 | the cleaned subject is at most 100 characters and neither starts nor ends with whitespace |
| EmailSearch.CleanSubjectKeepsPlain | ai-assistant-backend/routes/email_search.py:257-264 | a settled subject of at most 100 characters without a reply prefix is kept |
| EmailSearch.CleanSubjectDropsReplyPrefix | ai-assistant-backend/routes/email_search.py:257-264 | a reply prefix is dropped from a settled subject of at most 100 characters |
| EmailSearch.PinterestIsClean | ai-assistant-backend/routes/email_search.py:177-200 | the 'Pinterest' sender set for Pinterest emails survives the sender cleanup |
| EmailSearch.Extract | ai-assistant-backend/routes/email_search.py:170-264 | empty content changes nothing; otherwise the subject is at most 100 characters, and content mentioning 'pinterest.com' has 'Pinterest' as sender |
| EmailSearch.HitAt | ai-assistant-backend/routes/email_search.py:137-284 | there is no record exactly when the date's formatting raises an uncaught error; a record has a sender and a subject, each the extracted value or its default, and the date text; Pinterest emails have 'Pinterest' as sender; the subject of non-empty content is at most 100 characters; empty content keeps the id and the metadata recipient; the preview is the content's, and the raw content is the content |
| EmailSearch.ParseContent | ai-assistant-backend/routes/email_search.py:170-264 | the loops over the lines of non-empty content compute exactly the specified extraction |
| EmailSearch.ProcessResult | ai-assistant-backend/routes/email_search.py:139-284 | one iteration of the results loop appends the result's record, or nothing when the result is dropped |
| EmailSearch.HitsStep | ai-assistant-backend/routes/email_search.py:136-284 | after one more iteration the kept records are those before it plus this result's record, if it has one |
| EmailSearch.FormatResults | ai-assistant-backend/routes/email_search.py:136-284 | the records of the stored documents in the store's order, leaving out each one whose date raises an error the date handler does not catch; at most one per document (`HitsCount` gives one per document when no date raises) |
| EmailSearch.HitsCount | ai-assistant-backend/routes/email_search.py:136-284 | at most one record per document, and when no date formatting raises, the record of every document at its own position |
| EmailSearch.SingleLineResultsGetFirstId | ai-assistant-backend/routes/email_search.py:203-274 | a one-line, non-Pinterest document's record gets the id of the first result, whatever its own position |
| EmailSearch.SingleLineParseEndsAtZero | ai-assistant-backend/routes/email_search.py:203-241 | on a one-line document the inner loops leave the shared `i` at 0 |
| EmailSearch.NormalizedWithoutCr | ai-assistant-backend/routes/email_search.py:173 | text without '\r' is left unchanged by the normalisation |
| EmailSearch.IntendedHitAt | ai-assistant-backend/routes/email_search.py:274 | the intended record exists exactly when the written one does, and carries the id of its own position |
| EmailSearch.IntendedIdsAreDistinct | ai-assistant-backend/routes/email_search.py:274 | with distinct store ids, the intended records of two positions have different ids |
| EmailFastSearch.HeaderEntrySplitsAtFirstColon | ai-assistant-backend/routes/email_search.py:392-394 | a header line is split at its first ':', so the value keeps later colons; the key is stripped and lower-cased |
| EmailFastSearch.OverwriteKeys | ai-assistant-backend/routes/email_search.py:391-394 | a key is in the header dictionary exactly when some header line has it |
| EmailFastSearch.OverwriteLastWins | ai-assistant-backend/routes/email_search.py:391-394 | a key's value comes from the last header line with that key |
| EmailFastSearch.Sender | ai-assistant-backend/routes/email_search.py:397-427 | the precedence of the source: a usable stored 'from' (non-empty, not 'Unknown Sender', without brackets or invitation link) is the sender; with no 'from', a usable 'sender' field; with neither, a usable 'from' header; with none of them, the stripped `From:` line of the text, else ''; a stored 'Unknown Sender' gives way to a `From:` line; and whatever the repair leaves, an empty or 'Unknown Sender' value gives way to a `From:` line while any other value is kept |
| EmailFastSearch.NoBlankLineNoHeaders | ai-assistant-backend/routes/email_search.py:388-389 | text without a blank line, or starting with one, yields no headers |
| EmailFastSearch.ParseHeaders | ai-assistant-backend/routes/email_search.py:385-394 | the header parse computes the header dictionary of the raw text |
| EmailFastSearch.HeaderLoop | ai-assistant-backend/routes/email_search.py:391-394 | the line loop builds the dictionary where later lines overwrite earlier keys |
| EmailFastSearch.UnbracketRemovesBrackets | ai-assistant-backend/routes/email_search.py:418-419 | a sender holding '<' and '>' comes out free of both; any other sender is unchanged |
| EmailFastSearch.UnbracketValue | ai-assistant-backend/routes/email_search.py:418-419 | the cleaned sender is the stripped text between the last '<' and the first '>' after it (or the end when none follows) |
| EmailFastSearch.UnbracketIdempotent | ai-assistant-backend/routes/email_search.py:418-419 | the bracket cleanup applied twice is the cleanup applied once |
| EmailFastSearch.CleanSubject | ai-assistant-backend/routes/email_search.py:440-441 | the cleaned subject is never longer than the subject |
| EmailFastSearch.Subject | ai-assistant-backend/routes/email_search.py:437-441 | a stored subject is the cleaned stored subject, never longer; without one, a 'subject' header gives the cleaned header (empty for an empty header); with neither the subject is 'No Subject' |
| EmailFastSearch.NoSubjectKept | ai-assistant-backend/routes/email_search.py:437-441 | the default 'No Subject' comes through the cleanup unchanged |
| EmailFastSearch.OnePrefixDropped | ai-assistant-backend/routes/email_search.py:441 | one leading 'Re:' or 'Fwd:' is removed and the rest stripped; a second prefix stays |
| EmailFastSearch.UnprefixedSubjectIsStripped | ai-assistant-backend/routes/email_search.py:441 | a subject without 'Re:' or 'Fwd:' (case-sensitive) is only stripped |
| EmailFastSearch.NumericMsReading | ai-assistant-backend/routes/email_search.py:450-455 | a number above 10^12 is milliseconds and any other is seconds; the date is kept exactly when that instant lies in the years 1 to 9999 (otherwise `fromtimestamp` raises `ValueError`), and a kept instant is in that range |
| EmailFastSearch.SecondsPastYear9999Rejected | ai-assistant-backend/routes/email_search.py:452-455 | every number past year 9999 in seconds but not above 10^12, such as the 1995 millisecond stamp 800000000000, loses its date |
| EmailFastSearch.DateStep | ai-assistant-backend/routes/email_search.py:444-468 | a message is dropped by the date filter only when `days > 0` |
| EmailFastSearch.NumericDateStep | ai-assistant-backend/routes/email_search.py:447-468 | a numeric date out of range leaves the timestamp at 0 and the message unfiltered, because the `ValueError` is caught; one in range gives its instant as timestamp |
| EmailFastSearch.EntryFor | ai-assistant-backend/routes/email_search.py:471-480 | the entry carries the file stem as id, the raw text as content and the computed timestamp |
| EmailFastSearch.Process | ai-assistant-backend/routes/email_search.py:367-494 | once `re` is bound: unreadable files are skipped; a kept entry has the file's stem and text, was not dropped by the date filter, and matches a non-empty query |
| EmailFastSearch.ProcessAsWritten | ai-assistant-backend/routes/email_search.py:406-441 | while the function-local `re` is unbound, a file that does not bind it (no readable invitation message) is skipped, by the `UnboundLocalError` caught at lines 499-501; otherwise the outcome is the one once `re` is bound |
| EmailFastSearch.ProcessComplete | ai-assistant-backend/routes/email_search.py:367-501 | with `re` bound, or bound by the file itself, a readable file kept by the date filter whose entry matches the query is kept |
| EmailFastSearch.ReBoundByStep | ai-assistant-backend/routes/email_search.py:363-406 | `re` is bound after one more file exactly when it was before, or that file binds it |
| Wrappers.SomesSnoc | ai-assistant-backend/routes/email_search.py:363-494 | one more outcome appends its entry when present and changes nothing otherwise |
| Wrappers.SomesPrefix | ai-assistant-backend/routes/email_search.py:363-494 | the entries of a prefix of the outcomes are a prefix of the entries |
| Wrappers.SomesFrom | ai-assistant-backend/routes/email_search.py:363-494 | every entry is the value of some present outcome |
| Wrappers.SomesAllNone | ai-assistant-backend/routes/email_search.py:363-501 | with no present outcome there are no entries |
| Wrappers.SomesHas | ai-assistant-backend/routes/email_search.py:363-494 | every present outcome contributes its entry |
| EmailFastSearch.Outcomes | ai-assistant-backend/routes/email_search.py:363-494 | as intended, one outcome per file, in file order, each the processing of that file with `re` bound |
| EmailFastSearch.AsWrittenOutcomes | ai-assistant-backend/routes/email_search.py:363-501 | as written, one outcome per file, in file order, each processed with `re` bound exactly when an earlier file has bound it |
| EmailFastSearch.OutcomesPrefix | ai-assistant-backend/routes/email_search.py:363-501 | the outcomes of the first `k` files are the first `k` outcomes, as intended and as written |
| EmailFastSearch.SelectedPrefix | ai-assistant-backend/routes/email_search.py:363-501 | the entries of the first `k` files are a prefix of all entries, as intended and as written |
| EmailFastSearch.SelectedGrows | ai-assistant-backend/routes/email_search.py:363-494 | the file after the first `k` adds its entry at the end when it is kept, and nothing otherwise |
| EmailFastSearch.AsWrittenSelectedGrows | ai-assistant-backend/routes/email_search.py:363-501 | as written, the file after the first `k` adds its entry at the end when it is kept with `re` as the earlier files left it |
| EmailFastSearch.SelectedMatch | ai-assistant-backend/routes/email_search.py:363-494 | every entry comes from some file and matches a non-empty query |
| EmailFastSearch.AsWrittenSelectedMatch | ai-assistant-backend/routes/email_search.py:363-501 | every entry kept as written comes from some file and matches a non-empty query |
| EmailFastSearch.SelectedKeepsEveryMatch | ai-assistant-backend/routes/email_search.py:367-494 | as intended, every readable message kept by the date filter whose entry matches the query is listed |
| EmailFastSearch.NoInvitationNothingKept | ai-assistant-backend/routes/email_search.py:406-441 | as written, a listing without an invitation message keeps no entry |
| EmailFastSearch.AsWrittenAfterInvitation | ai-assistant-backend/routes/email_search.py:406 | from the first invitation message on, every file is processed as intended |
| EmailFastSearch.FastSearch | ai-assistant-backend/routes/email_search.py:348-501 | the route as written returns at most `limit` entries (none for a negative limit or a missing directory): all entries kept as written when there are no more than `limit`, else exactly the first `limit` of them |
| EmailFastSearch.IntendedFastSearch | ai-assistant-backend/routes/email_search.py:348-494 | the intended route returns the same cut of the entries kept as intended |
| EmailFastSearch.FastSearchMatches | ai-assistant-backend/routes/email_search.py:348-494 | every entry the route returns matches a non-empty query |
| EmailFastSearch.PlainMessageSkipped | ai-assistant-backend/routes/email_search.py:406-441 | with the one file `{"subject":"Hello","content":"hi"}`, no query and no day filter, the route as written returns nothing while the intended route returns one entry |
| EmailFastSearch.FastSearchEmails | ai-assistant-backend/routes/email_search.py:346-501 | the route's loop, with its early break and the binding state of `re`, returns nothing for a missing directory and otherwise the first `limit` entries kept as written, in file order |
| EmailFastSearch.ProcessFile | ai-assistant-backend/routes/email_search.py:367-501 | one loop iteration computes the as-written entry or skip, and binds `re` exactly when the file holds a readable invitation message |
| DocumentService.SourceName | ai-assistant-frontend/services/documentService.ts:45 | the name taken from the source is its last path segment and holds no '/' |
| DocumentService.SourceType | ai-assistant-frontend/services/documentService.ts:47 | the type taken from the source is the lower-cased text after its last '.', which holds no '.' |
| DocumentService.ProcessedFields | ai-assistant-frontend/services/documentService.ts:43-56 | a stored document keeps id, path, date and content; its name and type are never empty and are the given ones when given; a missing size is 0; its metadata is the input metadata plus 'original_id' (the id) and 'document_id' (the given one when truthy, else the id) |
| DocumentService.StepValid | ai-assistant-frontend/services/documentService.ts:36-60 | one `forEach` step keeps the stored keys distinct and equal to the map's keys |
| DocumentService.FoldValid | ai-assistant-frontend/services/documentService.ts:33-60 | after any records the stored keys are distinct and equal to the map's keys |
| DocumentService.Values | ai-assistant-frontend/services/documentService.ts:62 | `Array.from(values())` gives one document per stored key |
| DocumentService.MapValues | ai-assistant-frontend/services/documentService.ts:62 | mapping over a map keeps its keys and applies the function to each value |
| DocumentService.ProcessDocumentsLoop | ai-assistant-frontend/services/documentService.ts:33-63 | the `forEach` over a map of processed documents computes the specified list |
| DocumentService.Distinct | ai-assistant-frontend/services/documentService.ts:34-62 | the keys in order of first appearance are duplicate-free, have the same members and are no more |
| DocumentService.FoldKeys | ai-assistant-frontend/services/documentService.ts:36-62 | the map's keys are the input keys (`path \|\| name \|\| id`) in order of first appearance, since re-setting a key keeps its place |
| DocumentService.OutputShape | ai-assistant-frontend/services/documentService.ts:33-63 | one document per distinct key, at most one per record, in first-appearance order, each the processed stored record |
| DocumentService.StepAt | ai-assistant-frontend/services/documentService.ts:40-59 | a step stores the record under its key exactly when the key is new or its date is strictly later, and leaves other keys alone |
| DocumentService.StoredComesFromInput | ai-assistant-frontend/services/documentService.ts:36-60 | every stored record is an input record with that key |
| DocumentService.StoredIsNewest | ai-assistant-frontend/services/documentService.ts:40-41 | when all dates under a key parse, the stored record is at least as recent as every record with that key |
| DocumentService.StepStoresNewest | ai-assistant-frontend/services/documentService.ts:40-58 | a record with a valid date leaves a record at least as recent under its key |
| DocumentService.StepKeepsNewest | ai-assistant-frontend/services/documentService.ts:40-58 | a step never replaces a stored record by one with an earlier or invalid date |
| DocumentService.FirstSticks | ai-assistant-frontend/services/documentService.ts:40-41 | a first record with no strictly later record of its key is the one kept |
| DocumentService.UnparseableFirstSticks | ai-assistant-frontend/services/documentService.ts:40-41 | a first record whose date is invalid is never replaced, because every comparison with an invalid date is false |
| DocumentService.FromSearchHit | ai-assistant-frontend/services/documentService.ts:72-84 | a search document has size 0, the hit's content, the current time, the source as path, a non-empty '/'-free name, a non-empty type, and the hit's metadata plus its score |
| DocumentService.SearchIdPrecedence | ai-assistant-frontend/services/documentService.ts:73 | the id is the stored document id when it is a non-empty string, else the hit's id when non-empty, else the fallback |
| DocumentService.SearchDocuments | ai-assistant-frontend/services/documentService.ts:72-84 | one document per hit, in order |
| DocumentService.DocumentsUrl | ai-assistant-frontend/services/documentService.ts:20 | the listing URL always starts with the API base and '/documents' |
| DocumentService.ZeroLimitIsNoLimit | ai-assistant-frontend/services/documentService.ts:20 | a zero limit gives the same URL as none; any other limit appends '?limit=' and its numeral |
| DocumentService.FetchDocuments | ai-assistant-frontend/services/documentService.ts:18-31 | a failed status is the error 'Failed to fetch documents'; a missing list gives the empty list; otherwise the processed documents |
| DocumentsPage.Highlight | ai-assistant-frontend/app/documents/page.tsx:102-168 | nothing is highlighted for an empty value or no documents; a highlighted id belongs to a document whose name equals or contains the value, or whose id is the value |
| DocumentsPage.ExactNameWins | ai-assistant-frontend/app/documents/page.tsx:118-128 | the first document whose name equals the value (ignoring case) wins over any partial or id match |
| DocumentsPage.PartialNameNext | ai-assistant-frontend/app/documents/page.tsx:130-147 | without an exact name match, the first name containing the value wins, one match or several |
| DocumentsPage.IdMatchLast | ai-assistant-frontend/app/documents/page.tsx:149-160 | ids are consulted only when no name matches |
| DocumentsPage.NoMatchClears | ai-assistant-frontend/app/documents/page.tsx:162-164 | with no match the highlight is cleared |
| DocumentsPage.SearchFilter | ai-assistant-frontend/app/documents/page.tsx:230-240 | the search never adds documents |
| DocumentsPage.SearchKeepsExactlyMatches | ai-assistant-frontend/app/documents/page.tsx:230-240 | a non-blank search keeps exactly the documents whose name or content contains the trimmed, lower-cased query |
| DocumentsPage.BlankSearchKeepsAll | ai-assistant-frontend/app/documents/page.tsx:233 | a blank query keeps the list as it is |
| DocumentsPage.TypeFilter | ai-assistant-frontend/app/documents/page.tsx:243-248 | 'all' keeps the list; otherwise every kept document has the chosen extension |
| DocumentsPage.TypeFilterKeepsExactly | ai-assistant-frontend/app/documents/page.tsx:243-248 | a document is kept exactly when its source's extension, else its type, is the chosen one |
| DocumentsPage.DocumentsList | ai-assistant-frontend/app/documents/page.tsx:184-251 | a failed load shows nothing; otherwise the search filter then the type filter |
| DocumentsPage.AfterDelete | ai-assistant-frontend/app/documents/page.tsx:280-297 | an unconfirmed or failed delete changes nothing; a successful one leaves no document of that name and closes the viewer if it showed one |
| DocumentsPage.DeleteKeepsOthers | ai-assistant-frontend/app/documents/page.tsx:293 | the delete keeps exactly the documents with another name |
| DocumentsPage.RegexEscape | ai-assistant-frontend/app/documents/page.tsx:206 | escaping never shortens the query |
| DocumentsPage.RegexEscapeRoundTrip | ai-assistant-frontend/app/documents/page.tsx:206-207 | the escaped pattern denotes the query literally |
| DocumentsPage.SplitOnKey | ai-assistant-frontend/app/documents/page.tsx:213 | splitting on a capturing pattern gives an odd number of pieces |
| DocumentsPage.SplitOnKeyJoins | ai-assistant-frontend/app/documents/page.tsx:213 | the pieces rejoin to the line |
| DocumentsPage.SplitOnKeyStep | ai-assistant-frontend/app/documents/page.tsx:213 | the split cuts at the first case-insensitive occurrence and keeps the match as its own piece |
| DocumentsPage.NoEarlierOccurrence | ai-assistant-frontend/app/documents/page.tsx:213-214 | text before the first occurrence does not itself equal the query |
| DocumentsPage.SplitOnKeyMarksOdd | ai-assistant-frontend/app/documents/page.tsx:213-214 | a piece equals the query (ignoring case) exactly at the odd positions, the captured matches |
| DocumentsPage.MarkLine | ai-assistant-frontend/app/documents/page.tsx:213-217 | one displayed piece per split piece |
| DocumentsPage.MarkLineShape | ai-assistant-frontend/app/documents/page.tsx:213-217 | exactly the odd pieces are marked, and the pieces rejoin to the line |
| DocumentsPage.LowerStrIdempotent | ai-assistant-frontend/app/documents/page.tsx:214 | lower-casing twice is lower-casing once |
| DocumentsPage.HighlightMatchingContent | ai-assistant-frontend/app/documents/page.tsx:203-223 | empty content or a blank query leaves the content untouched; otherwise no more lines than the content has |
| DocumentsPage.ShownLinesAreMatches | ai-assistant-frontend/app/documents/page.tsx:209-222 | a line is shown exactly when it contains the query ignoring case, and each shown line is marked |
| DocumentsPage.ToNumber | ai-assistant-frontend/app/documents/page.tsx:506 | `Number` of a blank string is 0; any other integer comes from an optionally signed digit run and is its value, always within 2^53 - 1; `NaN` only for a non-blank string without digits |
| DocumentsPage.PartLabel | ai-assistant-frontend/app/documents/page.tsx:503-508 | an id without '_' has no label |
| DocumentsPage.LabelOfSuffix | ai-assistant-frontend/app/documents/page.tsx:504-507 | the label depends only on the last '_' piece |
| DocumentsPage.EmptyPieceLabel | ai-assistant-frontend/app/documents/page.tsx:506-507 | an empty last piece reads as 0 and gives 'Part 1' |
| DocumentsPage.TrailingUnderscoreIsPartOne | ai-assistant-frontend/app/documents/page.tsx:504-507 | an id ending in '_' is labelled 'Part 1' |
| DocumentsPage.UnsignedNumber | ai-assistant-frontend/app/documents/page.tsx:506 | a run of digits whose value is at most 2^53 - 1 converts to that value |
| DocumentsPage.LongNumeralUndecided | ai-assistant-frontend/app/documents/page.tsx:506 | a run of digits past 2^53 - 1, which JavaScript rounds, is left undecided |
| DocumentsPage.NumeralLabel | ai-assistant-frontend/app/documents/page.tsx:506-507 | a last piece that is the numeral of n, with 0 < n <= 2^53 - 1, gives 'Part n+1' |
| DocumentsPage.NumberedChunkLabel | ai-assistant-frontend/app/documents/page.tsx:504-507 | an id ending in '_n', with 0 < n <= 2^53 - 1, is labelled 'Part n+1' |
| DocumentsPage.ZeroChunkHasNoLabel | ai-assistant-frontend/app/documents/page.tsx:506 | the first chunk '_0' has no label |
| DocumentsPage.DoubleZeroPieceLabel | ai-assistant-frontend/app/documents/page.tsx:506-507 | '00' reads as 0 but is not the string '0', so it is labelled 'Part 1' |
| DocumentsPage.DoubleZeroIsPartOne | ai-assistant-frontend/app/documents/page.tsx:504-507 | an id ending in '_00' is labelled 'Part 1' |
| DeleteRoute.Get | ai-assistant-backend/routes/delete.py:65-69 | an absent metadata key reads as null |
| DeleteRoute.Candidates | ai-assistant-backend/routes/delete.py:64-70 | one candidate per name field, in the order tried |
| DeleteRoute.FindMatches | ai-assistant-backend/routes/delete.py:57-83 | the matching loop computes the matching indices |
| DeleteRoute.MatchingIndicesExact | ai-assistant-backend/routes/delete.py:57-83 | the recorded indices are exactly those of the matching chunks, strictly increasing, so none twice |
| DeleteRoute.EmptyMetadataNeverMatches | ai-assistant-backend/routes/delete.py:60-61 | null or empty metadata never matches |
| DeleteRoute.SourcePathMatches | ai-assistant-backend/routes/delete.py:66-81 | a chunk whose source is a path ending in the name matches it |
| DeleteRoute.SlashedNameNeedsExactField | ai-assistant-backend/routes/delete.py:78-81 | a name holding '/' only matches a field equal to it |
| DeleteRoute.DocIds | ai-assistant-backend/routes/delete.py:89 | at most one id per matched index |
| DeleteRoute.DocIdsExact | ai-assistant-backend/routes/delete.py:89 | the ids are exactly the in-range ids at the matched indices, one per index when all are in range |
| DeleteRoute.FindSource | ai-assistant-backend/routes/delete.py:92-97 | the source loop computes the source scan |
| DeleteRoute.SourceScanFirst | ai-assistant-backend/routes/delete.py:92-97 | the scan yields the source of the first matched chunk that has a truthy one, and a falsy value when none has |
| DeleteRoute.DeletedCount | ai-assistant-backend/routes/delete.py:113 | the deleted count is the number of ids deleted |
| DeleteRoute.DeleteDocument | ai-assistant-backend/routes/delete.py:41-121 | the route's steps compute the specified outcome |
| DeleteRoute.NotFoundIffNoMatch | ai-assistant-backend/routes/delete.py:85-86 | the route answers 404 exactly when no chunk matches |
| DeleteRoute.DeletedIdsAreMatches | ai-assistant-backend/routes/delete.py:89-103 | the deleted ids are exactly the in-range ids of the matching chunks |
| DeleteRoute.DeletedCountIsMatchCount | ai-assistant-backend/routes/delete.py:89-113 | when every matching chunk has an id, the count is the number of matching chunks |
| DeleteRoute.RemovedFileIsFirstSource | ai-assistant-backend/routes/delete.py:92-109 | the removed file is 'uploads' joined with the source of the first matched chunk that has one, and it existed |
| DeleteRoute.SourcelessDeleteFails | ai-assistant-backend/routes/delete.py:106-107 | a matched chunk without a source makes the request fail after the chunks were deleted |
| DeleteRoute.IntendedSucceedsOnMatch | ai-assistant-backend/routes/delete.py:102-113 | as intended, a name that matches some chunk always gives a success |
| DeleteRoute.IntendedAgreesWithStringSource | ai-assistant-backend/routes/delete.py:106-113 | with a string source the intended route and the route as written agree |
| Slack.PrefixEnd | ai-assistant-backend/routes/slack.py:184 | a link prefix found at a position ends after it, inside the text |
| Slack.LinkEnd | ai-assistant-backend/routes/slack.py:184 | a link matched at a position ends after it, inside the text |
| Slack.LinkEndShape | ai-assistant-backend/routes/slack.py:184 | a matched link starts with 'https://', 'http://' or 'www.' followed by at least one URL character, consists of URL characters, and cannot be extended |
| Slack.Spans | ai-assistant-backend/routes/slack.py:184-185 | `findall` reports left-to-right, non-overlapping matches, each a link at its start |
| Slack.ExtractLinks | ai-assistant-backend/routes/slack.py:181-185 | one link per match span |
| Slack.SpansComplete | ai-assistant-backend/routes/slack.py:184-185 | every position where a link could start lies inside some reported match |
| Slack.WholeTextIsOneLink | ai-assistant-backend/routes/slack.py:184-185 | a message that is one link and nothing else yields exactly that link |
| Slack.ClassifiersAgree | ai-assistant-backend/routes/slack.py:187-195 | the two extension lists hold the same ten extensions, so a URL is a document link exactly when it is a supported file name |
| Slack.DocumentLinkIgnoresCase | ai-assistant-backend/routes/slack.py:190 | the classification ignores letter case |
| Slack.UpperCasePdfIsSupported | ai-assistant-backend/routes/slack.py:195 | a name ending in '.PDF' is supported |
| Slack.FileName | ai-assistant-backend/routes/slack.py:205 | the file name is never empty and holds no '/' or '?' |
| Slack.TrailingSlashIsDefaultName | ai-assistant-backend/routes/slack.py:205 | a URL ending in '/' gets the name 'document' |
| Slack.FileNameOfPlainSegment | ai-assistant-backend/routes/slack.py:205 | the last segment of a URL without a query is its file name |
| Slack.DocId | ai-assistant-backend/routes/slack.py:221 | the store id starts with 'slack_' |
| Slack.DocIdInjective | ai-assistant-backend/routes/slack.py:221 | for channels without '_', distinct messages get distinct ids |
| Slack.LinkJobsExact | ai-assistant-backend/routes/slack.py:160-165 | a link fetch is started exactly for each document link, named after its URL and filed under the message's id |
| Slack.FileJobsExact | ai-assistant-backend/routes/slack.py:170-174 | a file fetch is started exactly for each attachment with a supported name; one without a name is skipped |
| Slack.MessageJobsExact | ai-assistant-backend/routes/slack.py:137-174 | a message with team, channel, ts and a stored token fetches exactly its document links and supported attachments; any other message fetches nothing |
| Slack.DocumentLinkJobs | ai-assistant-backend/routes/slack.py:160-167 | the link loop computes the link fetches |
| Slack.AttachmentJobs | ai-assistant-backend/routes/slack.py:170-176 | the attachment loop computes the file fetches |
| Slack.SlackTokens.constructor | ai-assistant-backend/routes/slack.py:40 | the token store starts empty |
| Slack.SlackTokens.Status | ai-assistant-backend/routes/slack.py:42-48 | connected exactly when some team has a token; the teams are listed in insertion order |
| Slack.SlackTokens.Callback | ai-assistant-backend/routes/slack.py:85-112 | a failed exchange answers 500 and stores nothing; a successful one stores the token under the team, keeping the team's first place in the order |
| Slack.SlackTokens.ProcessMessage | ai-assistant-backend/routes/slack.py:137-179 | the message handler starts exactly the specified fetches for the current tokens |
| GoogleDocsUtils.Clean | ai-assistant-backend/google_docs_utils.py:49 | the cleaned URL holds no tab or line break |
| GoogleDocsUtils.SplitOnce | ai-assistant-backend/google_docs_utils.py:49 | the part before the separator does not hold it |
| GoogleDocsUtils.FirstValue | ai-assistant-backend/google_docs_utils.py:59 | a `parse_qs` value is never empty |
| GoogleDocsUtils.SplitStartsWithD | ai-assistant-backend/google_docs_utils.py:55-56 | text starting 'd/' splits into 'd' and at least one more piece |
| GoogleDocsUtils.SplitShift | ai-assistant-backend/google_docs_utils.py:55 | the pieces after the first separator are the remaining pieces, shifted by one |
| GoogleDocsUtils.SplitHasD | ai-assistant-backend/google_docs_utils.py:53-56 | a path containing '/d/' has a piece 'd' that is not the last, so `parts[parts.index('d') + 1]` is in range |
| GoogleDocsUtils.ExtractDocumentId | ai-assistant-backend/google_docs_utils.py:46-65 | every failure is the one error 'Could not extract document ID from URL'; a success comes from a parsed URL whose host contains 'docs.google.com' |
| GoogleDocsUtils.PathFormWins | ai-assistant-backend/google_docs_utils.py:52-56 | a Google Docs URL whose path holds '/document/d/' gives the piece after the first 'd', whatever its query says |
| GoogleDocsUtils.QueryIdNotEmpty | ai-assistant-backend/google_docs_utils.py:57-59 | an id taken from the query is never empty |
| GoogleDocsUtils.JoinDocumentPath | ai-assistant-backend/google_docs_utils.py:54 | '/document/d/<id>' is the '/'-join of its pieces |
| GoogleDocsUtils.SplitDocumentPath | ai-assistant-backend/google_docs_utils.py:55 | '/document/d/<id>' splits into '', 'document', 'd' and the id |
| GoogleDocsUtils.JoinEditPath | ai-assistant-backend/google_docs_utils.py:54 | '/document/d/<id>/edit' is the '/'-join of its pieces |
| GoogleDocsUtils.PathIdAfterD | ai-assistant-backend/google_docs_utils.py:55-56 | in '/document/d/<id>' the id is the piece after 'd' |
| GoogleDocsUtils.PathIdEditForm | ai-assistant-backend/google_docs_utils.py:54-56 | in the usual '/document/d/<id>/edit' the id is the piece after 'd' |
| GoogleDocsUtils.CleanKeeps | ai-assistant-backend/google_docs_utils.py:49 | a URL starting with a visible character and without tab or line break is left as it is |
| GoogleDocsUtils.SchemeSplits | ai-assistant-backend/google_docs_utils.py:49 | a scheme of scheme characters before ':' is split off and lower-cased |
| GoogleDocsUtils.NetlocSplits | ai-assistant-backend/google_docs_utils.py:49 | after '//' a host without '/', '?' or '#' is the network location and the path follows |
| GoogleDocsUtils.PlainUrlSafe | ai-assistant-backend/google_docs_utils.py:49 | a URL built from pieces without tab or line break holds none |
| GoogleDocsUtils.UrlParsePlain | ai-assistant-backend/google_docs_utils.py:49 | '<scheme>://<host><path>' without query, fragment or params parses into exactly those parts |
| GoogleDocsUtils.HostUnbracketed | ai-assistant-backend/google_docs_utils.py:49 | a host of the plain form has no '[' or ']', so parsing does not raise |
| GoogleDocsUtils.PathUnsplit | ai-assistant-backend/google_docs_utils.py:49 | a path without '#', '?' or ';' is left whole by the fragment, query and params splits |
| GoogleDocsUtils.RunTextsMembers | ai-assistant-backend/google_docs_utils.py:94-96 | a text is collected exactly when some run carries it |
| GoogleDocsUtils.ElementTextsMembers | ai-assistant-backend/google_docs_utils.py:91-96 | a text is collected exactly when some run of some paragraph carries it |
| GoogleDocsUtils.ElementTextsAppend | ai-assistant-backend/google_docs_utils.py:92-96 | the collected texts of two parts of a body are the two collections one after the other |
| GoogleDocsUtils.FlattenParagraphs | ai-assistant-backend/google_docs_utils.py:90-96 | the nested loops collect the run contents paragraph by paragraph, in order |
| GoogleDocsUtils.GetDocumentContent | ai-assistant-backend/google_docs_utils.py:67-98 | the title is the file's name or 'Untitled Document'; the text is the collected run contents joined by newlines, empty when the body is missing |
| GoogleDocsUtils.TextSplitsIntoRuns | ai-assistant-backend/google_docs_utils.py:98 | when no run holds a line break, splitting the text on newlines gives back the runs |
| GoogleDocs.GetOr | ai-assistant-backend/routes/google_docs.py:95-98 | `get` returns the stored value of a present key and the default otherwise |
| GoogleDocs.StemHasNoSlash | ai-assistant-backend/routes/google_docs.py:23 | a title's stem holds no '/' |
| GoogleDocs.SavedPathShape | ai-assistant-backend/routes/google_docs.py:22-30 | the file is written directly under 'uploaded_docs' as the stem with spaces turned into '_' plus '.txt', a name without ' ' or '/' |
| GoogleDocs.DirectoryIsDropped | ai-assistant-backend/routes/google_docs.py:23 | titles that differ only in a directory part are saved to the same file |
| GoogleDocs.ChunkIdsDistinct | ai-assistant-backend/routes/google_docs.py:50 | chunk ids hold no space, and chunks of one title get distinct ids |
| GoogleDocs.StoreChunks | ai-assistant-backend/routes/google_docs.py:49-62 | one store call per chunk that has an embedding, in order, each with its id, text and metadata |
| GoogleDocs.ImportGoogleDoc | ai-assistant-backend/routes/google_docs.py:37-69 | the response reports the title, one chunk and the saved path; the content is stored as chunk 0 when it got an embedding |
| GoogleDocs.Count | ai-assistant-backend/routes/google_docs.py:102 | a url's chunk count is at most the number of records |
| GoogleDocs.UrlsExact | ai-assistant-backend/routes/google_docs.py:93-101 | a url is listed exactly when some record has it, and none twice |
| GoogleDocs.FirstTitleExists | ai-assistant-backend/routes/google_docs.py:96-101 | a url has a first title exactly when some record carries it, and then a positive count |
| GoogleDocs.FirstTitleIsEarliest | ai-assistant-backend/routes/google_docs.py:96-101 | the listed title is that of the earliest record with the url |
| GoogleDocs.NoEarlierTitle | ai-assistant-backend/routes/google_docs.py:96 | a url no record carries has no title |
| GoogleDocs.SumCountsSnoc | ai-assistant-backend/routes/google_docs.py:102 | one more record raises the counts' sum by how often its url is counted |
| GoogleDocs.OccurrencesDistinct | ai-assistant-backend/routes/google_docs.py:93-102 | in a duplicate-free url list a url occurs once or not at all |
| GoogleDocs.CountAbsent | ai-assistant-backend/routes/google_docs.py:102 | an unlisted url has count 0 |
| GoogleDocs.CountsSumToRecords | ai-assistant-backend/routes/google_docs.py:93-102 | the chunk counts of the listing add up to the number of records |
| GoogleDocs.ListImportedDocs | ai-assistant-backend/routes/google_docs.py:93-106 | the listing has one entry per distinct url, in first-appearance order, with the first record's title and the url's record count |
| GoogleDocs.ValuesInOrder | ai-assistant-backend/routes/google_docs.py:106 | `list(docs.values())` gives the entries in the insertion order of their keys |
| EmailIngestion.SafeEmail | ai-assistant-backend/email_ingestion.py:41 | the safe name has the account address's length |
| EmailIngestion.SafeEmailShape | ai-assistant-backend/email_ingestion.py:41 | the safe name holds neither '@' nor '.' and keeps every other character in place |
| EmailIngestion.StateFilesCanCollide | ai-assistant-backend/email_ingestion.py:39-42 | 'a.b@x.com' and 'a_b@x.com' share one state file |
| EmailIngestion.BatchProcessedExact | ai-assistant-backend/email_ingestion.py:230-261 | after a batch an id is processed exactly when it was before or some message with it was stored |
| EmailIngestion.BatchCounts | ai-assistant-backend/email_ingestion.py:229-261 | the batch only adds ids, and its count is the number of ids added |
| EmailIngestion.BatchSaves | ai-assistant-backend/email_ingestion.py:263-265 | the set is saved once for every 10 newly stored ids, and every save holds only processed ids |
| EmailIngestion.KnownIdsAreSkipped | ai-assistant-backend/email_ingestion.py:236-237 | the store is never called for an id processed before the batch |
| EmailIngestion.AsWrittenStoresNothing | ai-assistant-backend/email_ingestion.py:254-257 | as written, the store call lacks its required arguments and always raises, so a batch stores nothing and never saves |
| EmailIngestion.IntendedStoresEveryId | ai-assistant-backend/email_ingestion.py:230-261 | with the intended call and a working store, every message's id ends up processed |
| EmailIngestion.Pow2 | ai-assistant-backend/email_ingestion.py:107 | powers of two are at least 1 |
| EmailIngestion.FirstStopIsFirst | ai-assistant-backend/email_ingestion.py:81-117 | the attempt that ends the loop lies in range, ends it, and no earlier attempt does; with none, no attempt in range ends it |
| EmailIngestion.ServiceBuiltExact | ai-assistant-backend/email_ingestion.py:84 | the service was assigned exactly when some attempt got past building it |
| EmailIngestion.Backoff | ai-assistant-backend/email_ingestion.py:106-109 | one sleep per retried attempt |
| EmailIngestion.BackoffSnoc | ai-assistant-backend/email_ingestion.py:106-109 | each further retry adds a sleep of the next power of two |
| EmailIngestion.BackoffTotal | ai-assistant-backend/email_ingestion.py:106-109 | the total wait before attempt n+1 is 2^(n+1) - 2 seconds |
| EmailIngestion.AuthErrorRaisesAsWritten | ai-assistant-backend/email_ingestion.py:96-104 | as written, an authentication error on the first attempt raises a NameError for the missing `os` import instead of returning False, after one attempt |
| EmailIngestion.ConnectSucceedsIff | ai-assistant-backend/email_ingestion.py:70-122 | `connect` returns True exactly when some attempt within the budget connects and no earlier attempt connected or hit an authentication error |
| EmailIngestion.IngestionService.constructor | ai-assistant-backend/email_ingestion.py:25-37 | a new service has its address, is running, has no Gmail service, and starts from the ids of its state file (none when absent or unreadable) |
| EmailIngestion.IngestionService.IsRunning | ai-assistant-backend/email_ingestion.py:288-290 | running exactly when not stopped |
| EmailIngestion.IngestionService.Stop | ai-assistant-backend/email_ingestion.py:282-286 | stopping sets the stop flag and saves the processed ids once, changing nothing else |
| EmailIngestion.IngestionService.HandleMessages | ai-assistant-backend/email_ingestion.py:228-274 | a stopped service handles nothing; otherwise the batch's ids, count, store calls and saves, plus a final save when something was stored |
| EmailIngestion.IngestionService.ProcessNewEmails | ai-assistant-backend/email_ingestion.py:212-280 | as written, a batch leaves the processed ids and the saves unchanged and counts 0 |
| EmailIngestion.IngestionService.ProcessNewEmailsIntended | ai-assistant-backend/email_ingestion.py:212-280 | with the intended store call, the batch result of the intended call |
| EmailIngestion.IngestionService.Connect | ai-assistant-backend/email_ingestion.py:70-122 | the loop computes the connection result, the number of attempts and the back-off sleeps, assigns the service when an attempt got past building it, and changes nothing else |
| EmailRegistry.ServiceManager.constructor | ai-assistant-backend/routes/emails.py:36-38 | the manager starts with no services |
| EmailRegistry.ServiceManager.GetService | ai-assistant-backend/routes/emails.py:40-42 | the service of a registered account, else None |
| EmailRegistry.ServiceManager.AddService | ai-assistant-backend/routes/emails.py:44-46 | the account maps to the new service and no other entry changes |
| EmailRegistry.ServiceManager.RemoveService | ai-assistant-backend/routes/emails.py:48-51 | the account is removed; removing an absent account changes nothing |
| EmailRegistry.ServiceManager.GetAllServices | ai-assistant-backend/routes/emails.py:53-55 | the copy holds exactly the registered services |
| EmailRegistry.ServiceManager.AuthCallback | ai-assistant-backend/routes/emails.py:70-92 | a new account gets a fresh running service for its address and nothing else changes; a known account keeps its service |
| EmailRegistry.ServiceManager.Disconnect | ai-assistant-backend/routes/emails.py:122-137 | the account is no longer registered, and its service, if any, was stopped |
| EmailRegistry.ServiceManager.ConnectedAccounts | ai-assistant-backend/routes/emails.py:99-117 | one account per readable token file, in order, named by the file's stem and active exactly when it has a service |
| UploadUtils.FileExtension | ai-assistant-backend/utils.py:12-14 | the extension is empty or starts with '.', and is as long as the `splitext` extension |
| UploadUtils.DisallowedTypeIs500 | ai-assistant-backend/utils.py:29-53 | as written every failure is a 500, a disallowed type always fails, and a failed write reports 'Failed to save file: ' and its exception's text |
| UploadUtils.MarkdownUploadStatus | ai-assistant-backend/utils.py:32-36 | a '.md' upload ends in a 500 whose detail wraps the 400 and its list of extensions, in whatever order the set iterates, where a 400 was intended |
| UploadUtils.TypeMessageListsAllowed | ai-assistant-backend/utils.py:10-35 | whatever order the set iterates in, the type error names '.txt', '.pdf' and '.eml' once each, joined by ', ' |
| UploadUtils.AcceptedIffAllowed | ai-assistant-backend/utils.py:29-47 | both versions save a file exactly when its extension is allowed and the write succeeds, agree on every allowed file, and the intended one answers a disallowed type with the 400 |
| UploadUtils.ExtensionHasNoSlash | ai-assistant-backend/utils.py:14 | the extension holds no '/' |
| UploadUtils.StoredPathShape | ai-assistant-backend/utils.py:39-40 | the saved file lies directly inside 'uploads', named by the UUID and the original extension |
| UploadUtils.UpperCaseAccepted | ai-assistant-backend/utils.py:14 | 'REPORT.PDF' has extension '.pdf' and is accepted |
| UploadUtils.DotFileRejected | ai-assistant-backend/utils.py:14 | a dot file such as '.txt' has no extension and is rejected |
| Upload.SanitizeFilename | ai-assistant-backend/routes/upload.py:20-21 | the sanitised name is a single component: no '/' and not '.' |
| Upload.SanitizeIdempotent | ai-assistant-backend/routes/upload.py:20-21 | sanitising twice is sanitising once |
| Upload.SanitizeKeepsDotDot | ai-assistant-backend/routes/upload.py:21 | '..' survives sanitising |
| Upload.SavedPathInsideDir | ai-assistant-backend/routes/upload.py:23-25 | the file is saved directly inside 'uploaded_docs' under its sanitised name |
| Upload.ChunkIdsDistinct | ai-assistant-backend/routes/upload.py:49 | documents of one file get distinct ids |
| Upload.StoreDocuments | ai-assistant-backend/routes/upload.py:48-55 | one store call per document that has an embedding, in order, with the unsanitised name, the index and the text, stopping after the call that raises; the loop finishes exactly when no call in range raises |
| Upload.UploadFile | ai-assistant-backend/routes/upload.py:34-70 | a failed save, parse or embedding ends in a 500 with the fixed detail and stores nothing; otherwise the file's one document is stored when it got an embedding, and the reply names the file unless that store call raised, which gives the 500 |
| Upload.DotTxtParses | ai-assistant-backend/routes/upload.py:23-41 | a file named '.txt' is saved and parsed as text |
| Upload.DotTxtNotAllowed | ai-assistant-backend/utils.py:32 | the whitelist refuses '.txt' |
| Upload.WhitelistBypassed | ai-assistant-backend/routes/upload.py:23-41 | the upload route saves and parses '.txt', which the whitelist would refuse |
| FileParser.PageTexts | ai-assistant-backend/file_parser.py:33-41 | every kept page text is non-empty |
| FileParser.PageTextsMembers | ai-assistant-backend/file_parser.py:34-41 | a text is kept exactly when some page extracts to it and it is not empty |
| FileParser.PageTextsAppend | ai-assistant-backend/file_parser.py:34-41 | the kept texts of two runs of pages are kept in page order |
| FileParser.CollectPages | ai-assistant-backend/file_parser.py:33-41 | the page loop computes the kept page texts |
| FileParser.ParsePdf | ai-assistant-backend/file_parser.py:6-52 | `parse_pdf` computes the specified result |
| FileParser.PdfTextIsPages | ai-assistant-backend/file_parser.py:43-47 | a parsed PDF has kept pages, and its text is them joined by blank lines |
| FileParser.NoTextIsPlainException | ai-assistant-backend/file_parser.py:43-52 | a readable PDF without text fails with a plain `Exception`, since the `ValueError` is re-wrapped |
| FileParser.KindOf | ai-assistant-backend/file_parser.py:75-87 | the reader is chosen exactly by the lower-cased ending '.txt', '.pdf' or '.eml' |
| FileParser.ParseFile | ai-assistant-backend/file_parser.py:60-90 | a parse gives one string for a supported ending (the joined page texts for a PDF); every failure is a `ValueError` starting 'Failed to parse file <path>: ' |
| FileParser.TextFileParses | ai-assistant-backend/file_parser.py:75-77 | a readable text file parses to its whole content, whatever the case of its ending |
| QueryRoutes.SliceBound | ai-assistant-backend/routes/query.py:92 | a Python slice bound lies in `[0, n]` and a bound already in range is kept |
| QueryRoutes.PageContents | ai-assistant-backend/routes/query.py:91-92 | the page `all[offset:offset+limit]` holds at most `limit` documents, exactly `limit` when enough follow, none past the end, and each is the document at `offset + k` |
| QueryRoutes.PagesTile | ai-assistant-backend/routes/query.py:92 | consecutive pages join to the larger page: paging skips and repeats nothing |
| QueryRoutes.NegativeOffsetPage | ai-assistant-backend/routes/query.py:92 | a negative offset counts from the end, so `offset=-2, limit=10` on twelve or more documents gives an empty page |
| QueryRoutes.LessIrreflexive | ai-assistant-backend/routes/query.py:61 | no name sorts before itself |
| QueryRoutes.LessTransitive | ai-assistant-backend/routes/query.py:61 | the name order of `sorted` is transitive |
| QueryRoutes.LessTotal | ai-assistant-backend/routes/query.py:61 | any two different names are ordered one way or the other |
| QueryRoutes.LessAsymmetric | ai-assistant-backend/routes/query.py:61 | no two names each sort before the other |
| QueryRoutes.LeastName | ai-assistant-backend/routes/query.py:61 | the chosen name is in the set and sorts before every other name of it |
| QueryRoutes.SortNames | ai-assistant-backend/routes/query.py:61 | the directory's names come out strictly increasing, each exactly once, and no other |
| QueryRoutes.SortedUnique | ai-assistant-backend/routes/query.py:61 | two strictly sorted lists of the same names are equal, so the sorted order is unique |
| QueryRoutes.LStripDots | ai-assistant-backend/routes/query.py:64 | `lstrip('.')` leaves a suffix of the text that does not start with a dot |
| QueryRoutes.TypeShape | ai-assistant-backend/routes/query.py:64 | the type is empty without a suffix, and otherwise the lower-cased suffix after its dot, non-empty and dot-free |
| QueryRoutes.FirstPagesText | ai-assistant-backend/routes/query.py:70-74 | the page loop reads only the first two pages and gives their concatenated text or the first page failure |
| QueryRoutes.PdfPreview | ai-assistant-backend/routes/query.py:69-75 | a successful PDF preview is never empty, since blank text becomes the 'No content extracted' note |
| QueryRoutes.PdfPreviewReadsTwoPages | ai-assistant-backend/routes/query.py:72 | pages after the second never change the preview |
| QueryRoutes.ExtractPdfPreview | ai-assistant-backend/routes/query.py:69-75 | the imperative reader, page loop and strip compute exactly the PDF preview |
| QueryRoutes.PreviewCases | ai-assistant-backend/routes/query.py:66-79 | a txt preview is a prefix of the file of at most 1000 characters (exactly 1000 for long files); a PDF preview is the stripped text of its first pages or the note; a failure gives 'Could not extract content: ' and the message; other types keep the default |
| QueryRoutes.CatalogueMembers | ai-assistant-backend/routes/query.py:61-89 | a document is listed exactly when it describes a regular file of the directory |
| QueryRoutes.CatalogueStep | ai-assistant-backend/routes/query.py:62-89 | each further name adds its own document, when it is a regular file, and nothing else |
| QueryRoutes.CatalogueSorted | ai-assistant-backend/routes/query.py:61-89 | the listing is in strictly increasing name order |
| QueryRoutes.CatalogueDetermined | ai-assistant-backend/routes/query.py:61-89 | the listing depends on the directory alone, not on how its names were gathered |
| QueryRoutes.ListDocuments | ai-assistant-backend/routes/query.py:45-99 | a missing directory gives an empty listing with total 0; otherwise the total counts every regular file and the page is the slice of the sorted catalogue |
| QueryRoutes.FormatResults | ai-assistant-backend/routes/query.py:21-33 | no answer gives no results; otherwise formatting succeeds exactly when there is a first document list and the metadata and distance lists are long enough, each result being the document at its index, and fails with 'list index out of range' otherwise |
| QueryRoutes.SearchDocuments | ai-assistant-backend/routes/query.py:12-37 | `/search` echoes the query with one result per matched document, its content being that document; an embedding or store failure, or a short list, becomes the 500 detail |
| QueryRoutes.SearchSimilar | ai-assistant-backend/routes/query.py:104-156 | `/search-similar` answers 'no relevant information' exactly when there is no answer or no document lists; otherwise it asks the chat model with the prompt built from the matched documents, or fails on a short list; every failure is prefixed 'Error in similarity search: ' |
| QueryRoutes.SimilarIntended | ai-assistant-backend/routes/query.py:113-140 | with the early exit also taken for an empty first list, 'no relevant information' is given exactly when nothing matched, and every prompt sent quotes the first matched document |
| QueryRoutes.PromptHoldsFirstDocument | ai-assistant-backend/routes/query.py:132-140 | the prompt quotes the first matched document |
| QueryRoutes.EmptyMatchAsksModel | ai-assistant-backend/routes/query.py:113-133 | an answer whose first list is empty passes the early check and would send an empty context to the model, where the corrected route says 'no relevant information' |
| ActivityTimeline.RouteLabelIconAgree | ai-assistant-frontend/components/ActivityTimeline.tsx:48-112 | for every type, the link, the button label and the icon name the same section: chats, documents, emails or the default |
| ActivityTimeline.CardIconMatchesRoute | ai-assistant-frontend/components/ActivityTimeline.tsx:202-215 | with a type the card's icon is the generic one exactly when its link is "/"; without a type the link is "/" with 'View' while the icon follows the page |
| ActivityTimeline.SpaceBeforeCapitals | ai-assistant-frontend/components/ActivityTimeline.tsx:76 | every capital letter of the result has a space right before it, and nothing is removed |
| ActivityTimeline.SpacingOnlyAddsSpaces | ai-assistant-frontend/components/ActivityTimeline.tsx:76 | the replacement inserts only spaces, exactly one per capital letter |
| ActivityTimeline.SpacedAppend | ai-assistant-frontend/components/ActivityTimeline.tsx:76 | the global replacement works piece by piece: spacing a concatenation spaces each part |
| ActivityTimeline.NoCapitalsUnspaced | ai-assistant-frontend/components/ActivityTimeline.tsx:76 | a text without capitals is left unchanged |
| ActivityTimeline.CapitalWordSpaced | ai-assistant-frontend/components/ActivityTimeline.tsx:76 | a capitalised word gains exactly one space in front |
| ActivityTimeline.UpperFirst | ai-assistant-frontend/components/ActivityTimeline.tsx:77 | only the first character may change; the length and the rest are kept |
| ActivityTimeline.PageTitleStartsCapitalised | ai-assistant-frontend/components/ActivityTimeline.tsx:75-78 | a page name starting with a letter gives a message starting with that letter in upper case |
| ActivityTimeline.TrimmedStartsAt | ai-assistant-frontend/components/ActivityTimeline.tsx:78 | the trimmed text begins with the first character that is not white space |
| ActivityTimeline.DocumentAndEmailShowPage | ai-assistant-frontend/components/ActivityTimeline.tsx:63-96 | the types 'document' and 'email' have no fixed message, show the page's title and still link to their own section |
| ActivityTimeline.Fetched | ai-assistant-frontend/components/ActivityTimeline.tsx:24-42 | once the request ends loading stops; a body clears the error and sets the activities (an empty list when the data is not an array); a failure sets the error and keeps the old activities |
| SemanticSearch.ToggleFilter | ai-assistant-frontend/components/SemanticSearch.tsx:57-64 | a toggle changes only the named list, and the dates are kept |
| SemanticSearch.ToggleMembers | ai-assistant-frontend/components/SemanticSearch.tsx:60-62 | after a toggle the value is selected exactly when it was not before, and every other value keeps its state |
| SemanticSearch.FilterOutAbsent | ai-assistant-frontend/components/SemanticSearch.tsx:61 | removing a value the list does not hold keeps the list |
| SemanticSearch.Isolate | ai-assistant-frontend/components/SemanticSearch.tsx:61 | a value held once splits its list in two parts, and removing it joins them |
| SemanticSearch.ToggleKeepsDistinct | ai-assistant-frontend/components/SemanticSearch.tsx:60-62 | toggling never makes a list hold a value twice |
| SemanticSearch.ToggleTwicePermutes | ai-assistant-frontend/components/SemanticSearch.tsx:60-62 | toggling a value twice gives back the same selections, possibly with that value moved to the end |
| SemanticSearch.ToggleTwiceRestores | ai-assistant-frontend/components/SemanticSearch.tsx:60-62 | toggling twice restores the exact list when the value was absent or last |
| SemanticSearch.ActiveCountParts | ai-assistant-frontend/components/SemanticSearch.tsx:76-81 | the badge counts one for the dates when either is set, plus each non-empty selection of the three lists |
| SemanticSearch.ClearedCountsNothing | ai-assistant-frontend/components/SemanticSearch.tsx:66-81 | cleared filters show a count of zero |
| SemanticSearch.ToggleSelectedStep | ai-assistant-frontend/components/SemanticSearch.tsx:60-62 | toggling a non-empty value held at most once moves that list's count by exactly one, down when it was held and up otherwise |
| SemanticSearch.ToggleCountStep | ai-assistant-frontend/components/SemanticSearch.tsx:57-81 | toggling a non-empty chip moves the badge by exactly one in the matching direction |

## Left out

- Network, vector store, database, Gmail, Google, Slack and Ollama calls: their answers are inputs, and the calls the code makes are returned as records. The Slack store internals (`process_document`, `process_slack_file`), the events route's signature check, the OAuth connect URL, `get_credentials` and the Gmail fetch are not part of this model.
- Clocks and date parsing: each date parser is a parameter returning optional milliseconds. `utcnow`, `isoformat` output and date-fns formatting are not modelled. The listing's `last_modified` is the raw modification time.
- Random UUIDs: the stored upload name and the listed document's `id` take the UUID as a parameter, or leave it out.
- Case mapping is ASCII only. JavaScript `toUpperCase`/`toLowerCase` and Python `lower`/`capitalize`/`title` also map other letters, such as accented ones, which this model leaves unchanged.
- JSON values are scalars: nested objects and arrays inside metadata are not modelled.
- DateText (EmailSearch): the digit test accepts only '0'..'9', where `str.isdigit()` at email_search.py:153 also accepts other Unicode digits. For other decimal digits, such as Arabic-Indic "١٢٣", the source formats the number they spell (`int("١٢٣") == 123`). For digit characters that are not decimal, such as "²", `int()` raises the `ValueError` caught at lines 160-162, and the source gives the stored `date_str`, or '' when there is none. The model takes the non-numeric branch for both and gives a non-empty `date_str` or the timestamp string itself.
- Process (EmailFastSearch): only string field values of a stored message are modelled. The source handles other JSON values differently. A numeric 'from' makes `'<' in from_email` at email_search.py:418 raise `TypeError`, and the handler at lines 499-501 skips the file. A numeric 'subject' skips the cleanup at lines 440-441 and is returned as it is. While `re` is unbound, a file with a numeric subject and a usable sender never reaches `re`, so the source keeps it, where `ProcessAsWritten` skips every file that does not bind `re`.
- ToNumber (DocumentsPage): JavaScript `Number(...)` in the "Part N" label is decided only for the empty string, an optionally signed run of decimal digits whose value lies within 2^53 - 1, and strings with no digit at all. Longer digit runs (which JavaScript rounds, and whose label prints in exponent form from 10^21 up), fractions, exponents, hexadecimal and `Infinity` are `Undecided`, so the label is `None` for them.
- VanityFrom (EmailScan): its own contract states only that a capture is non-empty and holds no '&'; `EmailScan.VanityFromLeftmost` and `EmailScan.VanityValue` state which value is captured.
- RemoveBracketed (EmailScan): its own contract states only that the text does not grow and that text without the opening bracket is unchanged; `RemoveBracketedKeepsPrefix`, `RemoveBracketedDropsSpan` and `RemoveBracketedKeepsUnmatched` state what is removed and what is kept.
- NormalizeCrLf (EmailScan): its own contract states only that non-empty text stays non-empty; `NormalizeCrLfPair`, `NormalizeCrLfLoneCr`, `NormalizeCrLfNoCr` and `NormalizeCrLfAppend` state the CRLF to LF rule.
- StripQuotedFrom (EmailScan): its own contract states that no line starts with '>' afterwards; `StripQuotedLine`, `StripQuotedLastLine`, `StripQuotedKeepsRest` and `StripQuotedNone` state that unquoted lines are kept.
- StripQuotedLines (EmailScan): as for `StripQuotedFrom`, whose lemmas state the kept lines.
- CollapseBlankRuns (EmailScan): its own contract states the bound on newlines; `CollapseBlankRunsKeepsText` and `CollapseBlankRunsFixed` state that the other characters are kept.
- ConnectNameFrom (EmailScan): its own contract states the shape of the name; `ConnectNameFromLeftmost` and `ConnectNameBackLargest` state which name is captured.
- PyAddressFrom (EmailScan): its own contract states only that an address is non-empty; `PyAddressFromLeftmost` and `PyAddressEndAtMatch` state which address is found.
- LinkedInName (EmailPage): its own contract states the length and trimming; `LinkedInNameSpelling` states that each '-' becomes a space and each word start is upper-cased.
- CleanBody (EmailPage): its own contract states only the triple-newline bound; `CleanBodyKeepsCleanText` and `CleanBodyCrLf` add that clean text is kept and that CRLF is read as LF. The blanking of quoted lines is proved of its stage (`EmailScan.StripQuotedLine`, `EmailScan.StripQuotedNone`), not of the whole cleanup.
- NumericMs (EmailFastSearch): the years 1 to 9999 are taken in UTC, while `datetime.fromtimestamp` works in local time, so the bounds move by the zone offset. A number too large for the platform's `time_t` raises `OverflowError`, which the handler does not catch; the model reads it as out of range.
- DateStep (EmailFastSearch): a float `date` value is not modelled; a stored date is an integer, a string or absent.
- PreviewOf (EmailPage): the cut at 200 counts code points, while JavaScript's `substring` counts UTF-16 units. Text with characters outside the Basic Multilingual Plane is cut later here, and the source can split a surrogate pair that the model keeps whole.
- Floating point: the relevance percentage, file sizes and store distances are not computed. Scores are carried as opaque values.
- Concurrency and timers: `run_continuous`, its thread, `threading.Event` waits, the poll interval, the registry lock, `Promise.all` and DOM timeouts. The back-off sleeps are returned as a list of durations.
- EmailIngestion: the legacy `process_email`, `load_processed_emails` and `save_processed_email` path is not modelled. The token-file removal on an authentication error and the `scopes` field are not modelled either.
- Connect (EmailIngestion.IngestionService): the `hasService` field is set as soon as a service is built, even if the test call later fails; the model records this but no other state of the Gmail client.
- Python `parse_qs` percent-decoding and `+`-to-space in the Google Docs id query form are not modelled, and neither is `urlparse`'s validation of bracketed hosts and NFKC netlocs. Such URLs are taken as the plain text between the delimiters.
- Python dictionary key equality of `1` and `True` is not modelled: metadata keys are strings.
- ImportGoogleDoc (GoogleDocs): describes a successful import only. The file write and its failure (for example a title whose stem is `..`) are not modelled.
- UploadUtils: the file write and the clean-up of a partly written file are an input outcome.
- The query routes' outer 500 handler of `list_documents` is not modelled (no modelled step raises there). `search_similar` also builds `formatted_results` and then never returns them, so the model leaves that list out.
- The email search route's chat-model answer (`email_search.py` from line 287) is not modelled. The records it returns are.
- ActivityTimeline: a missing `type` or `page` is the empty string. The rendering, the relative time and the fetch itself are left out; only the state after the request is modelled.
- Message (ActivityTimeline): an activity without a `type` makes `type.toLowerCase()` throw while the timeline renders (ActivityTimeline.tsx lines 65 and 49, the latter when `page` is missing too); the model reads the missing `type` as the empty string and renders the card.
- SaveUploadedFile (UploadUtils): an upload whose `filename` is `None` makes `os.path.splitext` raise `TypeError`, which the generic handler turns into a 500; the model's file name is always a string, so that path is not modelled.
- SourceName (DocumentService): a `source` that is present but not a string (a number, say) has no `split`, so the mapping throws in the source; the model reads it as absent, as `SourceType` does.
- SemanticSearch: the date inputs, the search request and the result cards are not modelled.
- ToggleTwiceRestores (SemanticSearch): the exact list comes back only when the value was absent or last; a value held elsewhere moves to the end, which SemanticSearch.ToggleTwicePermutes states as equality of multisets.
- Regular expressions are modelled as the specific patterns the code uses, each as a hand-written scanner; no general regex engine is modelled.
- PDF extraction internals: each page's text, or the message its extraction raises, is an input.

## Findings

| source | as written | input that shows it | evidently intended | confidence | as-written member | corrected member |
|---|---|---|---|---|---|---|
| ai-assistant-backend/routes/email_search.py:274 | the id is read at the index the inner loops left in the shared variable `i` | any one-line, non-Pinterest result at position 1 or later gets `ids[0]` | each result gets the id at its own position | high, not executed | EmailSearch.SingleLineResultsGetFirstId | EmailSearch.IntendedIdsAreDistinct |
| ai-assistant-backend/routes/delete.py:106-107 | `os.path.exists(None)` raises when no matched chunk has a `source`, after the chunks were deleted | one chunk `a.txt_0` with metadata `{filename: "a.txt"}`, name `a.txt` | the file check is skipped when there is no source, and the delete succeeds | high, not executed | DeleteRoute.SourcelessDeleteFails | DeleteRoute.IntendedSucceedsOnMatch |
| ai-assistant-backend/email_ingestion.py:254-257 | `add_to_chroma` is called without its required `doc_id` and `embedding`, so every call raises and is swallowed | any batch of new messages | each new message is stored and its id recorded | high, not executed | EmailIngestion.AsWrittenStoresNothing | EmailIngestion.IntendedStoresEveryId |
| ai-assistant-backend/email_ingestion.py:98 | `os` is used without being imported, so an authentication error raises `NameError` | a first attempt failing with 'invalid_grant' | `connect` returns False without retrying | high, not executed | EmailIngestion.AuthErrorRaisesAsWritten | EmailIngestion.ConnectSucceedsIff |
| ai-assistant-backend/utils.py:32-53 | the 400 for a disallowed type is caught by the generic handler and becomes a 500 | a file named `notes.md` | a 400 'File type not allowed' | high, not executed | UploadUtils.MarkdownUploadStatus | UploadUtils.AcceptedIffAllowed |
| ai-assistant-backend/routes/email_search.py:406 | the `import re` inside the invitation branch makes `re` a local name of the whole function, so until a readable invitation message has run it, every other readable message whose fields are strings raises `UnboundLocalError`: at the `From:` search (line 425) when no usable sender is found, else at the subject cleanup (line 441). The handler at lines 499-501 then skips it | one file `a.json` holding `{"subject":"Hello","content":"hi"}`, query '' and days 0 | every readable message is processed with the module's `re` | high, not executed | EmailFastSearch.PlainMessageSkipped | EmailFastSearch.SelectedKeepsEveryMatch |
| ai-assistant-backend/routes/query.py:113-114 | the early exit tests only that `documents` is non-empty, so an empty first list passes it | an answer `{documents: [[]], metadatas: [[]], distances: [[]]}` | 'No relevant information found.' when nothing matched | medium, not executed | QueryRoutes.EmptyMatchAsksModel | QueryRoutes.SimilarIntended |
