# Movie bot handlers — a Dafny model

This project models the three handler modules of a Telegram movie bot:

- **Registration** (`src/handlers/start.py`). `/start` opens a three-step conversation that asks for a name, an age in [0, 120] and a sex (`мужской`/`женский`). After the last step it stores exactly one user row.
- **Movie search** (`src/handlers/search.py`):
  - normalising the film records of the Kinopoisk API;
  - keeping the first five search hits;
  - the film caption and its choice buttons;
  - the `film_<id>` / `genre_<name>` callback data;
  - the genre filter of the random-movie request.
- **Admin panel** (`src/handlers/admin.py`):
  - the admin filter;
  - the mailing conversation (`WAITING_TEXT` → `WAITING_CONFIRM`);
  - the broadcast loop of `execute_mailing`, with its success and failure counters and its progress edits;
  - `send_message_with_retry`.

The Python string operations these handlers depend on live in `PyText`, modelled with CPython's semantics:
- `strip`, with the full `isspace` set;
- `lower`;
- `int(str)`, with sign and `_` digit groups. The surrounding whitespace it skips is its own set: ASCII space and `\t\n\v\f\r`, plus the non-ASCII whitespace;
- `str(int)`, `split`, `'\n'.join`, `filter(None, …)` and `capitalize`.

**Modelling choices:**
- The bot framework's FSM storage becomes fields keyed by Telegram id, one set of fields for each conversation. The registration and mailing conversations keep a map of states and a map of stored data; the title search keeps the set of users waiting for a title.
- The user table is a sequence of rows whose `telegram_id` is unique.
- Everything that comes from the outside is a parameter: the answers of the HTTP API, what the messenger answers to each send, and the random draws. `None` stands for a request that raised.

Files:
- `pytext.dfy`: module `PyText`.
- `registration.dfy`: module `Registration`.
- `search.dfy`: module `Search`.
- `admin.dfy`: module `Admin`.

## Model

| member | source | states |
|---|---|---|
| `PyText.StripWith` | src/handlers/search.py:155 | stripping removes exactly the surrounding whitespace: the result is the infix of the input at `Leading`, everything cut off on either side is whitespace, the result neither starts nor ends with whitespace, and a text without whitespace is unchanged |
| `PyText.StripIsTrims` | src/handlers/search.py:155 | `strip()` is `rstrip()` applied to the result of `lstrip()` |
| `PyText.TrimStart` | src/handlers/search.py:155 | `lstrip()`: a suffix of the input, everything dropped is whitespace, and it does not start with whitespace |
| `PyText.TrimEnd` | src/handlers/search.py:155 | `rstrip()`: a prefix of the input, everything dropped is whitespace, and it does not end with whitespace |
| `PyText.ParseIntOfIntToString` | src/handlers/start.py:45 | `int(str(n)) == n` for every integer: the age parser reads back every decimal it could be given |
| `PyText.ParseInt` | src/handlers/start.py:45 | `int(text)` succeeds exactly when, after dropping the whitespace `int()` skips, an optional sign and well-formed `_`-grouped digits remain; a negative result has a `-` sign |
| `PyText.StripRemovesSeparator` | src/handlers/search.py:155 | `strip()` removes the separator U+001C, turning `"\x1c5"` into `"5"` |
| `PyText.IntRejectsSeparator` | src/handlers/start.py:45 | `int("\x1c5")` is a `ValueError`: `int()` does not skip U+001C |
| `PyText.IntSkipsNoBreakSpace` | src/handlers/start.py:45 | `int()` skips a no-break space before the digits |
| `PyText.IntToString` | src/handlers/search.py:42 | `str(n)` is non-empty and made of digits and `-` only |
| `PyText.Lower` | src/handlers/start.py:58 | `text.lower()` keeps the length and lower-cases each character |
| `PyText.Capitalize` | src/handlers/search.py:206 | `genre.capitalize()` keeps the length, upper-cases the first character and lower-cases the rest |
| `PyText.LowerOfCapitalize` | src/handlers/search.py:206 | capitalising a genre name changes only its case |
| `PyText.Split` | src/handlers/search.py:182 | `split("_")` yields at least one piece and no piece contains the separator |
| `PyText.SplitHasTwo` | src/handlers/search.py:182 | `split("_")` yields a second piece exactly when the text holds `_` |
| `PyText.SplitAfterPiece` | src/handlers/search.py:182 | splitting `a + "_" + b` yields `a` followed by the pieces of `b` when `a` has no separator |
| `PyText.NonEmpty` | src/handlers/search.py:135 | `filter(None, info)` keeps exactly the non-empty lines: a line is in the result exactly when it is a non-empty line of the input |
| `PyText.NonEmptyAppend` | src/handlers/search.py:135 | the filter keeps the order: filtering a concatenation concatenates the filtered parts |
| `PyText.NonEmptySingle` | src/handlers/search.py:135 | a non-empty line is kept |
| `PyText.Join` | src/handlers/search.py:135 | `"\n".join(lines)` has the length of the lines plus one separator between each two; the join of no lines is empty |
| `PyText.JoinEnds` | src/handlers/search.py:135 | `"\n".join(lines)` starts with the first line and ends with the last |
| `PyText.IsCommand` | src/handlers/start.py:19 | the `Command` filter: a matching text starts, after its leading whitespace, with `/name`, followed by its end, whitespace or `@`; for a name without whitespace every such text matches |
| `PyText.BareCommand` | src/handlers/start.py:19 | `/start` is the `start` command |
| `PyText.MentionedCommand` | src/handlers/start.py:19 | `/start@MovieBot` is the `start` command |
| `PyText.CommandWithArgument` | src/handlers/start.py:19 | ` /start now` is the `start` command |
| `PyText.LongerWordIsNoCommand` | src/handlers/start.py:19 | `/starts` is not the `start` command |
| `Registration.CheckAge` | src/handlers/start.py:44-53 | a text is "not a number" exactly when `int()` rejects it; otherwise the age is out of range exactly when it is below 0 or above 120, and accepted with its parsed value otherwise |
| `Registration.CheckAgeOfDecimal` | src/handlers/start.py:45-51 | a decimal age is accepted exactly when it lies in [0, 120] |
| `Registration.CheckSex` | src/handlers/start.py:58-61 | accepted exactly when the lower-cased text is `мужской` or `женский`, and the lower-cased text is what is kept |
| `Registration.KeyboardSexesAccepted` | src/keyboards/keyboards.py:30-39 | both capitalised labels of the sex keyboard would be accepted and stored in lower case (the sex question at start.py:50 is sent without this keyboard) |
| `Registration.Conversation.constructor` | src/handlers/start.py:13-16 | the conversation starts with no state and no data, over a user table with unique ids |
| `Registration.Conversation.CmdStart` | src/handlers/start.py:19-32 | a registered user is refused and nothing changes; anyone else (in any state) is moved to `waiting_for_name`, keeping the data; the invariant is kept |
| `Registration.Conversation.ProcessName` | src/handlers/start.py:35-39 | any text is stored as the name, the age is asked for, and the state becomes `waiting_for_age` |
| `Registration.Conversation.ProcessAge` | src/handlers/start.py:42-53 | a non-number or an out-of-range age is answered and changes nothing; an accepted age is stored and the state becomes `waiting_for_sex` |
| `Registration.Conversation.ProcessSex` | src/handlers/start.py:56-81 | an unknown sex changes nothing; an accepted one appends exactly the row (id, username, stored name, stored age, lower-cased sex) and clears the user's state and data; ids stay unique |
| `Registration.Conversation.OnMessage` | src/handlers/start.py:19-81 | a message is handled exactly when it is `/start` or its sender has a registration state; `/start` is matched first, whatever the state, and has the effect of `cmd_start`; otherwise the effect is that of the handler for the sender's state (name stored; age stored, or nothing changed with the not-a-number or out-of-range reply; user created, thanked by the stored name and state cleared, or nothing changed); at most one row is added and none for a registered user |
| `Registration.AppendKeepsDistinct` | src/handlers/start.py:71-78 | creating the user of an unregistered id keeps telegram ids unique |
| `Registration.StoreAgeKeepsConsistent` | src/handlers/start.py:49-51 | storing an accepted age and moving to `waiting_for_sex` keeps every step able to find the data it reads |
| `Search.Or` | src/handlers/search.py:42-46 | `a or b`: the first value when it is truthy, else the second |
| `Search.FromSearchRecord` | src/handlers/search.py:40-47 | the name falls back from `nameRu` to `nameEn` to `Без названия` and is always truthy; the id is `filmId` when truthy, else `kinopoiskId`, printed |
| `Search.FromDetailsRecord` | src/handlers/search.py:50-57 | the details branch: id from `kinopoiskId`, name falling back from `nameRu` to `nameOriginal` to `Без названия`, rating falling back from `ratingKinopoisk` to `ratingImdb` to `нет данных`; name and rating always truthy |
| `Search.NormalizeFilmData` | src/handlers/search.py:34-59 | None exactly for an empty record or one with neither id key; otherwise the search-branch film, whose rating is `rating` or `нет данных` |
| `Search.SearchKeysOnly` | src/handlers/search.py:40-47 | the search branch reads only `filmId`, `kinopoiskId`, `nameRu`, `nameEn`, `year`, `rating`, `posterUrlPreview` and `posterUrl`: two records that agree on those give the same film |
| `Search.DetailsKeysIgnored` | src/handlers/search.py:49-57 | `nameOriginal`, `ratingKinopoisk` and `ratingImdb` never affect the result: the details branch is unreachable |
| `Search.IdOfIntegerFilmId` | src/handlers/search.py:42 | a non-zero integer `filmId` becomes the id in decimal |
| `Search.NormalizeAll` | src/handlers/search.py:72-74 | keeping the records that normalise gives no more films than records, each with a truthy name |
| `Search.NormalizeAllAppend` | src/handlers/search.py:72-74 | normalising a list distributes over concatenation |
| `Search.NormalizeAllFromInput` | src/handlers/search.py:72-74 | every kept film is the normalisation of some input record, and no more films than records are kept |
| `Search.NormalizeAllKeepsIdentified` | src/handlers/search.py:72-74 | records that all carry `filmId` or `kinopoiskId` are all kept, one film each, in order |
| `Search.SearchResults` | src/handlers/search.py:61-79 | at most five films come back |
| `Search.SearchMovies` | src/handlers/search.py:61-79 | the loop returns the normalised first five records (nothing when the request raised); each film comes from one of the first five records |
| `Search.CaptionLayout` | src/handlers/search.py:128-135 | the caption is the name line, the year line only when the year is truthy, the rating line and the link line, separated by newlines |
| `Search.CaptionLines` | src/handlers/search.py:128-135 | only the empty year placeholder is filtered out |
| `Search.Caption` | src/handlers/search.py:128-135 | the caption starts with the name line and ends with the link to the film's page |
| `Search.SendMovieInfo` | src/handlers/search.py:122-141 | a missing film gets "unavailable"; a film is sent as a photo exactly when its poster is truthy; the caption is always the film's caption |
| `Search.FilmLabel` | src/handlers/search.py:170-172 | the button text is the name, followed by ` (year)` exactly when the year is truthy |
| `Search.FilmButton` | src/handlers/search.py:170-173 | a choice button's text is the label `FilmLabel`, which starts with the name, and its callback data is `film_` followed by the film's id |
| `Search.BuildFilmButtons` | src/handlers/search.py:168-173 | one button per film, in order, labelled with the name (and the year when truthy) and carrying `film_<id>` |
| `Search.CallbackArgument` | src/handlers/search.py:182 | `data.split("_")[1]` is separator-free, and None exactly when the data has no `_`, where Python raises `IndexError` |
| `Search.CallbackRoundTrip` | src/handlers/search.py:173-182 | callback data built as `prefix_argument` gives back the argument |
| `Search.ArgumentAfterPrefix` | src/handlers/search.py:182 | data that starts with `film_` or `genre_` always has an argument, which is the whole rest when the rest has no `_` |
| `Search.FilmButtonRoundTrip` | src/handlers/search.py:173-182 | a film with an integer id is found again from its button |
| `Search.ResultsReply` | src/handlers/search.py:163-176 | no films: "not found"; one film: its info; several: button `k` is the choice button of film `k` |
| `Search.AnswerResults` | src/handlers/search.py:163-176 | the branch of `process_search` answers exactly `ResultsReply` of the films found |
| `Search.TitleSearch.constructor` | src/handlers/search.py:17-18 | nobody starts in `waiting_for_title` |
| `Search.TitleSearch.StartSearch` | src/handlers/search.py:147-151 | the user enters `waiting_for_title` |
| `Search.TitleSearch.ProcessSearch` | src/handlers/search.py:153-178 | a stripped title under two characters is refused and the state is kept; otherwise the stripped title is searched, the results are answered and the state is cleared |
| `Search.ShowMovieDetails` | src/handlers/search.py:180-190 | the id requested is `data.split("_")[1]`, the whole rest of the data when that has no `_`; the film is shown exactly when the details request succeeded and normalised, with `send_movie_info`'s answer |
| `Search.Lookup` | src/handlers/search.py:103-104 | a key is found exactly when the table holds it, with that entry's value |
| `Search.GenreId` | src/handlers/search.py:21-32 | `MAIN_GENRES[genre]` exists exactly for the ten listed genres |
| `Search.RandomMovieParams` | src/handlers/search.py:97-104 | order `RATING`, type `FILM`, the drawn page, and a genre filter exactly for a listed genre |
| `Search.RandomMovie` | src/handlers/search.py:94-120 | None when the request raised or found nothing; otherwise the drawn record, normalised |
| `Search.SendRandomMovie` | src/handlers/search.py:193-200 | the parameters of `RandomMovieParams` with no genre filter (order `RATING`, type `FILM`, the drawn page); a film is shown exactly when one was found |
| `Search.GenreNamesWellFormed` | src/handlers/search.py:21-32 | genre names are non-empty, distinct and free of `_` |
| `Search.LookupFindsEntry` | src/handlers/search.py:103-104 | with distinct keys, a lookup finds the entry's own value |
| `Search.GenreButtonsRoundTrip` | src/handlers/search.py:206-213 | every genre's callback data gives back the genre, whose filter id is its own |
| `Search.ShowGenres` | src/handlers/search.py:202-209 | one button per genre, in order, whose text is the capitalised genre (equal to it up to case) and whose data leads back to the genre's own filter id |
| `Search.MovieByGenre` | src/handlers/search.py:211-219 | the request carries the drawn page and the genre filter of `data.split("_")[1]`; a film is shown exactly when one was found, with `send_movie_info`'s answer, otherwise the failure names that same genre |
| `Admin.IsAdminFilter` | src/handlers/admin.py:24-29 | allowed exactly when the sender is an admin, whatever the text |
| `Admin.SendWithRetry` | src/handlers/admin.py:112-124 | true exactly when the first answer that is not "retry after" is a success |
| `Admin.RetryAttempts` | src/handlers/admin.py:112-124 | the sends made are all the "retry after" answers and the first other one |
| `Admin.RetryStopsAtError` | src/handlers/admin.py:120-124 | a forbidden or other error ends the retries at once with False |
| `Admin.DeliveredAgreesWithRetry` | src/handlers/admin.py:149-173 | the loop's inline single retry counts a recipient exactly as `send_message_with_retry` would when the retry is not asked to wait again |
| `Admin.Recipients` | src/handlers/admin.py:141 | the admin is never a recipient, and there are no more recipients than stored ids |
| `Admin.RecipientsKeepOthers` | src/handlers/admin.py:141 | every other stored id is kept, as often as it is stored |
| `Admin.RecipientsAppend` | src/handlers/admin.py:141 | the filter distributes over concatenation, so order is kept |
| `Admin.CountDelivered` | src/handlers/admin.py:144-173 | `success` over a list of recipients never exceeds their number |
| `Admin.CountDeliveredIsCardinality` | src/handlers/admin.py:144-173 | `success` counts each delivered recipient once, so it is the number of delivered positions |
| `Admin.CountRetries` | src/handlers/admin.py:159-161 | at most one wait per recipient |
| `Admin.SendsTo` | src/handlers/admin.py:148-170 | one recipient gets one send, or two when the first was asked to wait, all to its own chat |
| `Admin.SendLog` | src/handlers/admin.py:148-170 | the loop makes one send per recipient plus one per wait |
| `Admin.SendLogSingle` | src/handlers/admin.py:148-170 | the sends for a single recipient are exactly its own |
| `Admin.SendLogAppend` | src/handlers/admin.py:148-170 | the sends for consecutive recipients follow each other, so each recipient's sends sit in its own place, in order |
| `Admin.SendLogToRecipients` | src/handlers/admin.py:148-170 | every send goes to a recipient |
| `Admin.Filled` | src/handlers/admin.py:177-180 | the bar never has more than ten filled cells and is full at the last recipient |
| `Admin.Bar` | src/handlers/admin.py:180 | the bar has eleven cells, filled up to the count |
| `Admin.FilledMonotone` | src/handlers/admin.py:176-180 | the number of filled cells never decreases as the loop advances |
| `Admin.ProgressAt` | src/handlers/admin.py:176-183 | the edit after the `i`-th recipient shows `i`, the total, `Filled(i, total)` cells (at most ten), `success` over the first `i` recipients and `success + failed == i` |
| `Admin.ProgressLog` | src/handlers/admin.py:176-183 | at most one edit per recipient so far |
| `Admin.ProgressLogSound` | src/handlers/admin.py:176-183 | every progress edit is made at a checkpoint, shows `success + failed == i`, and edits come in increasing order |
| `Admin.ProgressLogComplete` | src/handlers/admin.py:176 | every checkpoint gets its edit |
| `Admin.LastProgress` | src/handlers/admin.py:176-183 | the last edit is for the last recipient, with a full bar and the final success count |
| `Admin.ProgressLogBatches` | src/handlers/admin.py:146-176 | before the last recipient there is one edit per full batch of fifty |
| `Admin.BroadcastStep` | src/handlers/admin.py:148-183 | one more recipient extends the send log by that recipient's sends, raises the success count by one exactly when the recipient is delivered, and adds a progress edit exactly at a checkpoint |
| `Admin.RunBroadcast` | src/handlers/admin.py:144-183 | the loop's counters are the delivered count and the rest, its sends are the send log, and its edits are the progress log |
| `Admin.MailingPanel.constructor` | src/handlers/admin.py:85-87 | no admin starts in a mailing state |
| `Admin.MailingPanel.OnMessage` | src/handlers/admin.py:34-110 | the message handlers the admin filter and `handle_admin_command_anywhere` (lines 34-50) and `process_mailing_text` (lines 99-110): non-admins are not handled; `/admin` clears the state from anywhere and shows the panel; in `WAITING_TEXT` the HTML text is stored and confirmation asked for |
| `Admin.MailingPanel.Mailing` | src/handlers/admin.py:89-97 | an admin is moved to `WAITING_TEXT`; nothing else changes |
| `Admin.MailingPanel.ExecuteMailing` | src/handlers/admin.py:127-204 | handled exactly for an admin in `WAITING_CONFIRM`; the stored text is broadcast to every stored id but the admin's, with the loop's counts, and the state is cleared |

## Left out

- The network: the HTTP requests to the Kinopoisk API, every send and edit of a Telegram message, and `asyncio.sleep` are not modelled. The answers of the HTTP requests and of the broadcast's sends are parameters; every other send and every edit is assumed to succeed; each sleep is dropped.
- Admin.MailingPanel.ExecuteMailing: assumes that the callback answer and every edit of the progress message (`admin.py:134`, `admin.py:178`, `admin.py:197`) succeed. In the source, an exception from one of them ends `execute_mailing` early, with no report and without clearing the state.
- Randomness: `random.randint(1, 5)` and `random.choice` are parameters (`page`, `choice`).
- Admin.Filled: computes `int(progress // 10)` in exact integer arithmetic. It does not model the floating-point division `i / total_users * 100` or the printed percentage; for some totals the float result could round across a multiple of ten.
- Messages without text: every handler is modelled for a text message. For a message without text (a photo, a sticker), `process_age`, `process_sex` and `process_search` raise on `message.text` being `None`. `process_name` does not raise: it stores `None` as the name, and the user is later created with that name and thanked as `None` (`start.py:37`, `start.py:71-80`); the model does not cover this. `process_mailing_text` reads `message.html_text`, the formatted text or caption, which the model takes to be the message's text.
- PyText.ParseInt: accepts ASCII digits only. `int()` also accepts other Unicode decimal digits in a text that holds some non-ASCII character.
- PyText.Lower and PyText.Capitalize: cover the Latin and Cyrillic alphabets only. That is all the sex check and the genre names need.
- FSM storage: the framework keeps one state slot per chat and user (the default `USER_IN_CHAT` strategy of aiogram 3), shared by all routers. The model keys each conversation by Telegram id alone and gives each conversation its own fields, so one conversation's entry never overwrites another's, and one user cannot be in two chats' conversations at once.
- Registration.Conversation.ProcessSex: does not model one user registering from two chats at once. In the source, both chats can reach `waiting_for_sex`; the second `crud_user.create` (`start.py:71`) then breaks the unique `telegram_id` column (`models.py:20`) and raises, and that chat stays in `waiting_for_sex`, because `/start` answers "already registered" without clearing the state. The model's invariant (no user with a registration state is registered) rules this path out, since states are keyed by Telegram id.
- Command mentions: a `/start@name` or `/admin@name` command is taken to name this bot.
- `go_back` and `show_statistics`: these only show constant text or the number of stored users, and are not modelled.
- The photo-send exception fallback (`search.py:142-144`) is not modelled. It resends the same caption as plain text.
- The database: `CRUDUser` and the SQLAlchemy session are replaced by the user sequence and by the list of stored ids. Database failures are not modelled.
- `get_movie_details`: its request is a parameter (`fetched`); only its normalisation is modelled.
- JSON values: floats, arrays and objects keep only their printed form and their truthiness.
- A record with a falsy `filmId` and no `kinopoiskId` gets the id `None`. This follows from `Str(JNull)` and needs no separate treatment.
- Admin.SendWithRetry: requires the given answers to end in one that is not "retry after". The source recurses for as long as the messenger asks it to wait.
- Admin.RunBroadcast: `execute_mailing` retries only once, inline; a second "retry after" counts as a failure, exactly as the source does.
