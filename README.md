# Clues and Confessions backend: retry, clue lookup and prompt filling

This project models the core of the murder-mystery game's Python backend
(`backend/server.py`). It covers three parts:

- **The resilient model call** (`call_openai_with_retry`). The call makes up to three
  attempts. Each failure is classified:
  - status 401, 429 or 402 ends the call at once with its own message;
  - a failure whose lower-cased text mentions a connection, timeout, network or
    fetch failure, or whose status is 500 or more, is retried;
  - any other failure is raised again unchanged.

  Between attempts the call sleeps `min(1000 * 2^attempt, 10000)` ms. When the
  retries run out, it fails with "failed after 3 attempts".
- **Clue lookup** (`load_clue_data`, `capitalize_first_letter`). The day's
  directory is tried as `day{N}` and then as `day {N}`. In each one, the first
  regular file, in listing order, whose lower-cased name starts with the
  lower-cased suspect name and ends in `.json` or `.txt` is used. A JSON file gives the
  first truthy of its `clue`, `text` and `content` fields, printed as `str()`
  prints it. A text file gives its
  stripped text. When neither spelling yields a clue, the result is
  `No new clues for <Name> today.`
- **Profile loading and prompt filling** (`load_suspect_data` and the chained
  `.replace` calls in `ask_endpoint`). A missing or undecodable profile is `{}`.
  Seven placeholders are replaced in a fixed order, with defaults for missing
  fields. The replacements are sequential, so a value that contains a later
  placeholder has that placeholder replaced as well.

Files:
- `wrappers.dfy`: `Option` and `Result`.
- `text.dfy`: Python's `lower`, `upper`, `in`, `startswith`, `endswith`, `strip`,
  `replace` and integer printing.
- `json.dfy`: decoded JSON values and their truthiness.
- `retry.dfy`: the retry loop.
- `clues.dfy`: clue lookup.
- `prompt.dfy`: profiles and prompt filling.

The model does not do any I/O. These pieces are parameters instead:
- **The outbound call** is `answer: nat -> Outcome<T>`, the outcome of the k-th call.
  An outcome is a completion, or a failure with the exception's text and its
  optional HTTP status.
- **Each `sleep(ms)`** appends `ms` to a list of waits, which the method returns
  together with the number of calls it made.
- **The clue directories** are a map from directory name to its listing. A
  listing entry has a name, a flag saying whether it is a regular file, and the
  text a read gives, or `None` when the read fails. A missing key is a missing
  path, and a `None` listing is a path that cannot be listed.
- **The suspect profiles** are a map from file name to read result.
- **JSON decoding** (`parse`) and Python's `str()` of a decoded object
  (`showObject`) are function parameters. A decoded number, boolean, `null` or
  array carries its truthiness and the text `str()` prints for it.

A day directory that exists but yields no clue does not end the search: the
loop goes on to the second spelling. This happens when the directory has no
matching file (`if matching_files:` at server.py:171 is false), when it cannot
be listed (the exception caught at server.py:189-190), and when its first match
cannot be read or decoded (the exception caught at server.py:187-188). Only a
missing directory takes the `continue` at server.py:155.
`ClueLookup.FirstSpellingFallsThrough` states this.

## Model

| member | source | states |
|---|---|---|
| `Text.Lower` | backend/server.py:87 | `str.lower()` keeps the length and maps each character on its own, ASCII letters to lower case |
| `Text.Contains` | backend/server.py:88-92 | `sub in s` holds exactly when `sub` occurs at some index of `s` |
| `Text.ReplaceAll` | backend/server.py:216-222 | `str.replace`: occurrences are found left to right, never overlapping, and each is replaced (stated by `ReplaceFirstOccurrence`, with `ReplaceAbsent` for the end of the search) |
| `Text.ReplaceFirstOccurrence` | backend/server.py:216-222 | the earliest occurrence of the pattern is replaced, the text before it is kept, and the replacing continues on the text after that occurrence |
| `Text.CapitalizeFirst` | backend/server.py:118-120 | the empty string is returned unchanged; otherwise the length is kept and only index 0 changes, to its upper-case form |
| `Text.TrimStart` | backend/server.py:184 | the result is a suffix of the input, everything dropped is whitespace, and the result does not start with whitespace |
| `Text.TrimEnd` | backend/server.py:184 | the result is a prefix of the input, everything dropped is whitespace, and the result does not end with whitespace |
| `Text.Strip` | backend/server.py:184 | `strip()` never lengthens its input, and its result neither starts nor ends with whitespace |
| `Text.StripSlice` | backend/server.py:184 | `strip()` returns a contiguous slice `s[i..j]`, only whitespace is cut on either side, and the result has none at either end |
| `Text.ReplaceAbsent` | backend/server.py:216-222 | `replace` leaves a string in which the pattern does not occur unchanged |
| `Text.ReplaceBySelf` | backend/server.py:216-222 | replacing a pattern by itself leaves any string unchanged |
| `Text.ReplaceWhole` | backend/server.py:216-222 | a string that is exactly the pattern becomes exactly the replacement |
| `Text.NatToDecimal` | backend/server.py:147 | an f-string prints a natural number as a non-empty string of decimal digits with no leading zero |
| `Text.DecimalRoundTrip` | backend/server.py:147 | reading the printed digits back gives the number |
| `Text.IntToDecimal` | backend/server.py:147 | a printed integer starts with `-` exactly when it is negative |
| `Text.IntToDecimalInjective` | backend/server.py:147 | different day numbers are printed differently |
| `JsonValue.GetOr` | backend/server.py:211-214 | `d.get(key, default)` gives the stored value when the key is present and the default otherwise |
| `JsonValue.FirstTruthy` | backend/server.py:180 | a chain of `or` over `.get` gives a present, truthy value stored under one of the keys, or reports that none of the keys holds a truthy value |
| `JsonValue.FirstTruthyIsEarliest` | backend/server.py:180 | the value picked is the one under the earliest key that holds a truthy value |
| `Retry.Backoff` | backend/server.py:107 | every wait lies between 1000 ms and the 10000 ms cap |
| `Retry.BackoffDoubles` | backend/server.py:107 | each wait is twice the previous one until the cap is reached |
| `Retry.BackoffMonotone` | backend/server.py:107 | waits never shrink as the attempt number grows |
| `Retry.Backoffs` | backend/server.py:106-110 | one wait is recorded for each earlier attempt |
| `Retry.BackoffsUpToLast` | backend/server.py:27-29 | with these constants the possible wait lists are empty, [1000] and [1000, 2000] |
| `Retry.Message` | backend/server.py:73-104 | the text each ending exception carries: the three fixed status texts, the exhaustion text, and a re-raised error's own text |
| `Retry.FixedMessagesDistinct` | backend/server.py:73-84 | the texts for 401, 429 and 402 are pairwise different, so the caller can tell these endings apart |
| `Retry.ExhaustedMessageDistinct` | backend/server.py:73-104 | the exhaustion text differs from each of the three status texts |
| `Retry.ExhaustedMessageNamesAttempts` | backend/server.py:104 | the exhaustion error's exact text, naming 3 attempts |
| `Retry.StatusError` | backend/server.py:73-84 | status 401, 429 and 402, and only those, each end the call with their own error |
| `Retry.IsRetryable` | backend/server.py:86-94 | a failure is retryable exactly when its status is 500 or more, or one of "connection", "timeout", "network", "fetch failed" occurs in its lower-cased text |
| `Retry.Classify` | backend/server.py:73-99 | the special statuses decide first, whatever the text says; otherwise a failure is retried iff it is retryable and is raised again unchanged iff it is not; exhaustion is never a classification |
| `Retry.StopFrom` | backend/server.py:55-104 | the attempt that ends the call: every earlier attempt was a retryable failure, and it is itself not one unless it is the last attempt |
| `Retry.CallWithRetry` | backend/server.py:51-112 | the attempt loop returns exactly the result, wait list and call count of `Expected`, and the trailing `raise last_error` is unreachable |
| `Retry.RunShape` | backend/server.py:55-112 | every call makes 1 to 3 outbound calls and one wait fewer; waits are capped and strictly increasing; it succeeds iff its last call succeeded; exhaustion only happens after 3 calls |
| `Retry.FirstSuccessReturned` | backend/server.py:55-66 | if outcome k is the first success after retryable failures, its completion is returned after the k waits `Backoffs(k)` and k+1 calls |
| `Retry.SpecialStatusEndsCall` | backend/server.py:73-84 | a 401, 429 or 402 failure ends the call on that attempt with its own error and no further wait, even if its text says "timeout" |
| `Retry.NonRetryableReraised` | backend/server.py:96-99 | a failure that is neither special nor retryable is raised again unchanged on that attempt, with no further attempt |
| `Retry.ExhaustedAfterMaxRetries` | backend/server.py:101-104 | three retryable failures give the exhaustion error after exactly 3 calls and waits of 1000 ms then 2000 ms |
| `ClueLookup.DayFormatsDistinct` | backend/server.py:147 | the two spellings of a day differ, and different days never share a directory name |
| `ClueLookup.MatchingFiles` | backend/server.py:160-167 | the matching list holds exactly the regular files whose lower-cased names start with the suspect's name and end in `.json` or `.txt` |
| `ClueLookup.MatchingHead` | backend/server.py:171-173 | the file used is the earliest matching regular file in listing order |
| `ClueLookup.MatchingHeadIndex` | backend/server.py:171-173 | a non-empty matching list starts with an entry that matches and has no matching entry before it |
| `ClueLookup.FileClue` | backend/server.py:176-188 | the matched file gives a clue exactly when it can be read and, for a `.json` name, decodes to an object; every such clue starts with the clue header |
| `ClueLookup.FromDirectory` | backend/server.py:149-190 | a spelling yields a clue only from an existing, listable directory with a matching file, and that clue starts with the clue header |
| `ClueLookup.LoadClueData` | backend/server.py:142-193 | the loop over the day spellings, with `continue` and early return, gives exactly `ClueFor` |
| `ClueLookup.FromDirectoryUsesFirstMatch` | backend/server.py:149-186 | a clue found in a directory comes from an existing, listable directory, from its first matching regular file |
| `ClueLookup.TwoSpellings` | backend/server.py:147-193 | the result is the first spelling's clue, else the second spelling's clue, else the fallback |
| `ClueLookup.ClueForShape` | backend/server.py:176-193 | the answer is exactly the fallback, or the clue of the first spelling that yields one; every clue starts with the clue header and the fallback never does |
| `ClueLookup.NoDirectoryNoClue` | backend/server.py:149-193 | when neither day directory exists the answer is exactly `No new clues for <Name> today.` |
| `ClueLookup.FirstSpellingFallsThrough` | backend/server.py:149-191 | a missing, unlistable or matchless first directory, or an unreadable or undecodable first match, passes the search on to the second spelling |
| `ClueLookup.JsonClueLoaded` | backend/server.py:176-182 | a JSON match in `day{N}` whose first truthy field among `clue`, `text`, `content` is the string x gives `🧩 Clue about <Name>: x` |
| `ClueLookup.JsonClueTextIsEarliest` | backend/server.py:180-182 | the clue text is the value under the earliest truthy key among `clue`, `text`, `content`: a string as it is, a number or other value as `str()` prints it |
| `ClueLookup.JsonClueWithoutText` | backend/server.py:180 | a JSON clue with none of the three fields truthy gives `No clue text found in JSON` |
| `ClueLookup.TextClueLoaded` | backend/server.py:183-186 | a `.txt` match in `day{N}` gives the clue header followed by its stripped text |
| `PromptComposer.LoadSuspectData` | backend/server.py:130-140 | a file that exists, can be read and decodes gives exactly what it decodes to; a missing, unreadable or undecodable profile file gives `{}` |
| `PromptComposer.ProfileNameCaseInsensitive` | backend/server.py:132 | names that lower-case alike load the same profile |
| `PromptComposer.Location` | backend/server.py:221 | `claimed_location` is used whenever it is truthy; otherwise `location`, or the empty string |
| `PromptComposer.AsText` | backend/server.py:216-222 | a replacement value is accepted exactly when it is a string |
| `PromptComposer.PromptValues` | backend/server.py:209-222 | the values exist exactly when the profile is usable; they are the capitalized name, the question, then each profile string (`tone`, `backstory`, the timeline's `time_range`, the location, `relationship_to_victim`) or its default when absent |
| `PromptComposer.ReplaceInOrder` | backend/server.py:216-222 | the seven `.replace` calls applied one after another, each on the previous output (stated by `ReplaceInOrderStep` and `ReplaceInOrderPlain`) |
| `PromptComposer.ComposePrompt` | backend/server.py:209-222 | filling succeeds exactly when the profile is usable, as `UsableProfile` states (an object whose `tone`, `backstory` and `relationship_to_victim` are absent or strings, and whose `timeline`, if present, is an object with a string or absent `time_range` and a string location); a profile that is not an object fails |
| `PromptComposer.ComposeFillsProfileFields` | backend/server.py:209-222 | for a usable profile, each placeholder is replaced by the profile's string when the field is present and by its default ("neutral", "", "", "", "Unknown relationship") when absent |
| `PromptComposer.LocationPrefersClaimed` | backend/server.py:221 | a non-empty `claimed_location` string is the `{location}` value, whatever `location` holds |
| `PromptComposer.BracePatternAbsent` | backend/server.py:216-222 | a placeholder cannot be found in text that has no `{` |
| `PromptComposer.ReplaceInOrderPlain` | backend/server.py:216-222 | text without `{` passes through the whole replace chain unchanged |
| `PromptComposer.ReplaceInOrderStep` | backend/server.py:216-222 | the chain is the first replacement followed by the rest of the chain on its output |
| `PromptComposer.ComposeKeepsPlainTemplate` | backend/server.py:216-222 | a template without placeholders is returned as it is |
| `PromptComposer.ComposeWithoutProfile` | backend/server.py:211-222 | without a profile the placeholders get the capitalized name, the question, "neutral", "", "", "" and "Unknown relationship", in that order |
| `PromptComposer.ComposeRewritesInsertedQuestion` | backend/server.py:216-222 | the replacements run one after another: a question put in by the `{question}` replacement then goes through the five replacements that follow it |
| `PromptComposer.ComposeRewritesToneInQuestion` | backend/server.py:216-218 | so the question `{tone}` comes back as the default tone "neutral" |

## Left out

- Flask routing, CORS, request parsing, `jsonify` and the 400 checks of the two endpoints that take input (server.py:14-23, 195-263) are HTTP glue. The model starts from the suspect, question and day those handlers pass on.
- The startup check of the API key, `.env` loading, the client's construction and the listening port (server.py:19-45, 298-312) are process bootstrap.
- The OpenAI client is not modelled. It is replaced by the outcome function `answer`, and the messages and temperature it is given are not modelled. Reading `completion.choices[0].message.content.strip()` from a success is not modelled either: a success carries an opaque completion.
- `sleep` converts milliseconds to float seconds and really blocks (server.py:47-49). The model records the integer milliseconds instead.
- `load_prompt_template` (server.py:122-128) is not modelled. The template is a string parameter, and a missing template file, a fatal error in the source, is not represented.
- The path building through `get_base_dir` (server.py:114-116) is not modelled. Directories and profile files are looked up by name in the given maps.
- Case mapping is ASCII only. Python's Unicode `lower()` and `upper()` are not modelled, including upper-case forms that are longer than one character.
- `json.loads`, UTF-8 decoding and newline translation of `read_text` are not modelled: the model gets the text a read returns, and `parse` stands in for the decoder.
- A JSON number, boolean, null or array is represented by its truthiness and the text `str()` prints for it, which is all the prompt and clue code uses. Python's `str()` of a decoded object used as a clue is the parameter `showObject`, since the model's objects do not keep key order.
- The texts of the `TypeError` and `AttributeError` that a badly typed profile raises are not modelled. `PromptComposer.PromptError` names only the kind of failure, and only the first one in evaluation order.
- The model selects a clue file by its listing entry; the source selects it by name and then opens that path. The two agree because names in a directory are unique.
- An exception whose `status_code` attribute exists but is `None` is not modelled. In the source, comparing it with 500 would raise a `TypeError`.
- The `/health` endpoint, its timestamp and all `print` logging (server.py:265-296) are diagnostics with no statable logic of their own.
