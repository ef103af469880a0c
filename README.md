# Indico time pickers and HTTP API request handling, in Dafny

This project models two small pieces of Indico and proves properties of them.

- **The time pickers** of the React front end:
  - the `Time` value (minutes since midnight, or NaN) with its lenient parser `fromString` in the `24h`, `12h` and `any` grammars, its formatters and `duration`;
  - `timeList`, which lists the times a picker offers;
  - the shared picker logic of `shared.js`: `formatDuration`, `getOptions`, the repair of the typed text on blur, and the text box state, which follows the `value` prop and the user's typing;
  - the `timeString` prop-type validator and its `isRequired` variant.
- **The HTTP API** request handling of `handlers.py`:
  - `normalizeQuery`, the canonical text a request signature covers;
  - `validateSignature`, which accepts the HMAC of three five-minute windows;
  - the API-mode decision table of `getAK`;
  - `getExportHandler`, which matches `/export/(event|categ)/<ids>.<format>`;
  - the record limit and the completeness flag of `handler_event_categ`.

File by file:

| file | module | what |
|---|---|---|
| `wrappers.dfy` | `Wrappers` | `Option` and `Result` |
| `text.dfy` | `Text` | character classes, decimal digits and numerals |
| `time_value.dfy` | `TimeValue` | the `Time` value, its parser and its formatters |
| `time_value_lemmas.dfy` | `TimeValueLemmas` | grammar laws and round trips |
| `time_value_examples.dfy` | `TimeValueExamples` | the examples the time value's test-suite states |
| `time_list.dfy` | `TimeList` | `timeList` and its shape |
| `time_list_examples.dfy` | `TimeListExamples` | the `timeList` examples |
| `picker.dfy` | `Picker` | `shared.js`; the text box is the class `TimeInput` |
| `prop_types.dfy` | `PropTypes` | `timeString` and `timeString.isRequired` |
| `api_query.dfy` | `ApiQuery` | `normalizeQuery` |
| `api_auth.dfy` | `ApiAuth` | `validateSignature` and `getAK` |
| `api_export.dfy` | `ApiExport` | `getExportHandler` and `handler_event_categ` |

`time_value.js` itself is not part of this model. Its behaviour is rebuilt from its test-suite (`time_value.test.js`) and from how `shared.js` and `prop_types.js` use it.

- The parser first normalises the input: it drops whitespace and lower-cases A-Z.
- A 24-hour reading is a clock part with no meridiem marker, hour 0-23 and minute 0-59.
- A 12-hour reading accepts hour 1-12 and an optional marker: `a`, `am`, `a.m.`, `p`, `pm` or `p.m.`.
- `any` reads the 24-hour grammar first and falls back to the 12-hour one.
- A clock part is either:
  - one or two digits, a separator (`:`, `.` or `h`) and two digits; or
  - a compact run of one to four digits.
- An invalid time is `Invalid`. Every formatter renders it as `Invalid time`.

JavaScript's NaN becomes the constructor `Num.NaN`. An absent option or prop becomes the empty string or `PropValue.Undefined`. Python's raised `HTTPAPIError` becomes a `Result.Err` or `Option.Some` carrying an `ApiError` (its message and HTTP status).

Imperative parts stay imperative:

- `Picker.TimeInput` is a class whose methods update the box text and the pending notice.
- The loops of `normalizeQuery`, `validateSignature` and `handler_event_categ` are methods with loop invariants, each proved equal to a specification function.

## Model

| member | source | states |
|---|---|---|
| `TimeValue.FromString` | indico/web/client/js/react/components/time/time_value.test.js:113-260 | every valid reading, in any grammar, is a time of the day (0 to 1439 minutes) |
| `TimeValue.ClockHour12` | indico/web/client/js/react/components/time/time_value.test.js:157-164 | the hour a 12-hour clock shows is between 1 and 12 |
| `TimeValueLemmas.ConstructFromMinutes` | indico/web/client/js/react/components/time/time_value.test.js:29-40 | `new Time(x)` keeps `x` as its value; NaN has NaN hour and minute; a non-negative number `x` has numeric hour and minute, the minute in 0..59, with `hour * 60 + minute == x`; a negative one has a negative hour and a minute in -59..0 congruent to `x` modulo 60 (JavaScript's remainder) |
| `TimeValueLemmas.ConstructFromHour` | indico/web/client/js/react/components/time/time_value.test.js:42-65 | `fromHour(h, m)` with numeric `h` and `m` in 0..59 is `h * 60 + m` with hour `h`; its minute is `m` when `h >= 0`, and `m - 60` (0 for `m == 0`) for a negative `h`, which is not refused; anything else equals `fromHour(NaN, NaN)` |
| `TimeValueLemmas.DurationSymmetric` | indico/web/client/js/react/components/time/time_value.test.js:103-111 | `duration` is the same in both directions, valid exactly when both ends are, and is the later minus the earlier |
| `TimeValueLemmas.SeparatorsEquivalent` | indico/web/client/js/react/components/time/time_value.test.js:123-138 | `:`, `.`, `h` and `H`, with any whitespace around the separator and the time, read like `:` in every grammar |
| `TimeValueLemmas.HourMinute24` | indico/web/client/js/react/components/time/time_value.test.js:113-121 | `H:MM` or `HH:MM` reads in the 24-hour grammar as `h * 60 + m` when the hour is at most 23 and the minute at most 59, and as invalid otherwise |
| `TimeValueLemmas.HourMinute12` | indico/web/client/js/react/components/time/time_value.test.js:157-189 | `H:MM` with an optional marker reads in the 12-hour grammar as `(h % 12 + 12 if PM) * 60 + m` for hour 1..12 and minute at most 59, and as invalid otherwise; a marked clock is invalid in the 24-hour grammar |
| `TimeValueLemmas.NoMeridiem12` | indico/web/client/js/react/components/time/time_value.test.js:166-169 | without a marker the 12-hour grammar reads `12:MM` as `0:MM`, and refuses hour 0 or an hour above 12 |
| `TimeValueLemmas.CompactDigits24` | indico/web/client/js/react/components/time/time_value.test.js:140-148 | one to four bare digits, with blanks around them, read as `H`, `HH` (or `H` and a one-digit minute when `HH` is above 23), `HMM` and `HHMM`, and as invalid when the minute or the hour is out of range |
| `TimeValueLemmas.CompactDigits12` | indico/web/client/js/react/components/time/time_value.test.js:191-198 | one to four bare digits, then blanks and an optional marker, read in the 12-hour grammar as `H`, `HH` when it is 1..12 (otherwise `H` and a one-digit minute, so `13 PM` is 1:03 PM), `HMM` and `HHMM`, each as `(hour % 12 + 12 if PM) * 60 + minute` when the hour is 1..12 and the minute at most 59 and as invalid otherwise; with a marker they are invalid in the 24-hour grammar |
| `TimeValueLemmas.NoLeadingDigit` | indico/web/client/js/react/components/time/time_value.test.js:207-260 | an input whose first non-blank character is not a digit is invalid in every grammar |
| `TimeValueLemmas.BlankIsInvalid` | indico/web/client/js/react/components/time/time_value.test.js:220 | the empty or blank input is invalid in both grammars |
| `TimeValueLemmas.ToStringRoundTrip` | indico/web/client/js/react/components/time/time_value.test.js:67-79 | the `HH:MM` string of every time of day reads back as that time, in the 24-hour and the default grammar |
| `TimeValueLemmas.Formatted12RoundTrip` | indico/web/client/js/react/components/time/time_value.test.js:157-164 | the `H:MM AM/PM` string of every time of day reads back as that time, in the 12-hour and the default grammar |
| `TimeValueLemmas.InvalidTextIsInvalid` | indico/web/client/js/react/components/time/time_value.test.js:81-84 | the text `Invalid time` reads as invalid in every grammar |
| `TimeValueLemmas.FormattedRoundTrip` | indico/web/client/js/react/components/time/shared.js:131-139 | a time formatted in either format, or the invalid time, reads back as itself in the default grammar |
| `TimeValueLemmas.ShortStringRoundTrip` | indico/web/client/js/react/components/time/shared.js:28-29 | the short `H:MM` string of every time of day reads back as that time |
| `TimeValueLemmas.DurationStringMeaning` | indico/web/client/js/react/components/time/time_value.test.js:270-281 | whole hours render as `Nh`, half hours as `N.5h`, and any other duration as a clock string that reads back as itself |
| `TimeValueExamples.ConstructExamples` | indico/web/client/js/react/components/time/time_value.test.js:29-65 | `new Time(202)` and `fromHour(3, 22)` are 3:22 with value 202; NaN arguments give NaN hours and minutes |
| `TimeValueExamples.SerializeExamples` | indico/web/client/js/react/components/time/time_value.test.js:67-84 | 16:05 renders as `16:05` and coerces to `965`; 5:12 renders as `05:12`; NaN renders as `Invalid time` |
| `TimeValueExamples.DurationExample` | indico/web/client/js/react/components/time/time_value.test.js:103-111 | 12:30 to 14:00 is 90 minutes, in either direction |
| `TimeValueExamples.Valid24Examples` | indico/web/client/js/react/components/time/time_value.test.js:113-155 | each accepted 24-hour input of the test table reads as its hour and minute |
| `TimeValueExamples.Valid12Examples` | indico/web/client/js/react/components/time/time_value.test.js:157-205 | each accepted 12-hour input of the test table reads as its hour and minute |
| `TimeValueExamples.Invalid24Examples` | indico/web/client/js/react/components/time/time_value.test.js:207-235 | each refused 24-hour input of the test table is invalid |
| `TimeValueExamples.Invalid12Examples` | indico/web/client/js/react/components/time/time_value.test.js:237-260 | each refused 12-hour input of the test table is invalid |
| `TimeValueExamples.DurationStringExamples` | indico/web/client/js/react/components/time/time_value.test.js:270-281 | the six duration strings of the test table |
| `TimeValueExamples.NegativeMinutes` | indico/web/client/js/react/components/time/time_value.test.js:29-34 | `new Time(-1)` has hour -1 and minute -1; `fromHour(-1, 30)` has minute -30 |
| `TimeValueExamples.SpaceInsideHour` | indico/web/client/js/react/components/time/time_value.test.js:150-152 | `1 2:00` reads as 12:00, since every whitespace character is dropped |
| `TimeValueExamples.TwoDigitsAboveHour` | indico/web/client/js/react/components/time/time_value.test.js:140-148 | `24` reads in the 24-hour grammar as 2:04, like `56` as 5:06 |
| `TimeValueExamples.DefaultExamples` | indico/web/client/js/react/components/time/time_value.test.js:270-278 | the inputs of the duration-string table read, in the default grammar, as their hour and minute |
| `TimeList.MinutesOr` | indico/web/client/js/react/components/time/shared.js:32-39 | an option that parses gives its minutes, and an absent or unparsable one the default |
| `TimeList.GridShape` | indico/web/client/js/react/components/time/time_value.test.js:309-320 | the minutes start at the start time, climb by the step, stay within the day and stop at the last step before its end |
| `TimeList.GenerateShape` | indico/web/client/js/react/components/time/time_value.test.js:284-320 | the list fails exactly for a non-positive step; otherwise it starts at the start time, each entry is one step after the previous one, all lie within the day, and each entry has the fields `MakeEntry` gives its time |
| `TimeList.EntryMeaning` | indico/web/client/js/react/components/time/shared.js:40-58 | an entry carries its value, its `HH:MM` time and its label; it is current exactly when `markCurrent` reads as it, disabled exactly outside `[minTime, maxTime]`, and has a duration from the start time exactly when a start time is given and it is not the start |
| `TimeList.ValueAt` | indico/web/client/js/react/components/time/time_value.test.js:309-320 | entry `i` is at the start time plus `i` steps |
| `TimeList.Ascending` | indico/web/client/js/react/components/time/time_value.test.js:309-320 | the entries are strictly increasing |
| `TimeList.CurrentIsUnique` | indico/web/client/js/react/components/time/time_value.test.js:328-334 | at most one entry is marked current |
| `TimeList.OffGrid` | indico/web/client/js/react/components/time/time_value.test.js:336-341 | a current time strictly between two steps marks no entry |
| `TimeList.OnGrid` | indico/web/client/js/react/components/time/time_value.test.js:328-334 | a current time on a step marks that entry and no other |
| `TimeListExamples.DefaultLength` | indico/web/client/js/react/components/time/time_value.test.js:285-288 | the default list has 96 entries, 15 minutes apart |
| `TimeListExamples.DefaultFirst` | indico/web/client/js/react/components/time/time_value.test.js:290-297 | the first default entry is `12:00 AM` / `00:00` / 0, with no duration and not current |
| `TimeListExamples.DefaultLast` | indico/web/client/js/react/components/time/time_value.test.js:299-306 | the last default entry is `11:45 PM` / `23:45` / 1425, with no duration and not current |
| `TimeListExamples.HalfHourSteps` | indico/web/client/js/react/components/time/time_value.test.js:315-320 | a 30-minute step gives 48 entries, 30 minutes apart |
| `TimeListExamples.TwentyFourHourLabel` | indico/web/client/js/react/components/time/time_value.test.js:322-326 | in the 24-hour label format the first label is `00:00` |
| `TimeListExamples.MarkCurrent` | indico/web/client/js/react/components/time/time_value.test.js:328-334 | marking `12:45` marks exactly the entry whose time is `12:45` |
| `TimeListExamples.MarkCurrentOffGrid` | indico/web/client/js/react/components/time/time_value.test.js:336-341 | marking `12:03` marks no entry |
| `TimeListExamples.UnboundedLength` | indico/web/client/js/react/components/time/time_value.test.js:285-320 | with no start or bounds, the list holds exactly as many entries as steps are needed to reach the end of the day |
| `Picker.FormatDurationMeaning` | indico/web/client/js/react/components/time/shared.js:14-30 | under an hour the label is the exact count of minutes; from an hour on, a multiple of 30 minutes is that many exact (half) hours; any other duration is a short `H:MM` string that reads back as the duration |
| `Picker.DurationTextExamples` | indico/web/client/js/react/components/time/shared.js:16-29 | 1 and 45 minutes read `1 min` and `45 mins`, 60 and 90 minutes `1 hr` and `1.5 hrs`, and 75 minutes `1:15` |
| `Picker.GetOptionsMeaning` | indico/web/client/js/react/components/time/shared.js:32-63 | option `i` has its list entry's time as key and `data-time`, its label as `data-value` and text, `aria-disabled` exactly for a disabled entry, and a formatted duration exactly when the entry has one |
| `Picker.KeysAreUnique` | indico/web/client/js/react/components/time/shared.js:50 | no two options share a `key` |
| `Picker.BlurFixMeaning` | indico/web/client/js/react/components/time/shared.js:83-86 | the repaired text denotes the same time as the typed text, is empty exactly when that is invalid, is its own repair, and reports the same value |
| `Picker.FormattedIsNotEmpty` | indico/web/client/js/react/components/time/shared.js:97-101 | a formatted time is never empty, so a repaired valid time is announced as formatted and never as cleared |
| `Picker.InitialInSync` | indico/web/client/js/react/components/time/shared.js:127-139 | the initial box text agrees with the `value` prop under the syncing comparison |
| `Picker.ChangeValueMeaning` | indico/web/client/js/react/components/time/shared.js:151-155 | the reported value is empty exactly when the typed text is invalid, and otherwise reads in the 24-hour grammar as the typed time |
| `Picker.EchoInSync` | indico/web/client/js/react/components/time/shared.js:131-155 | a parent that passes the reported value back as `value` does not reset the box |
| `Picker.TimeInput.constructor` | indico/web/client/js/react/components/time/shared.js:126-129 | the box starts with the formatted prop (empty for an empty prop) and no notice, in sync with the prop |
| `Picker.TimeInput.HandleBlur` | indico/web/client/js/react/components/time/shared.js:73-105 | a text already repaired stays and nothing is announced; otherwise the box takes the repaired text and announces it, or that the time was cleared; the time and the reported value do not change |
| `Picker.TimeInput.SyncFromProp` | indico/web/client/js/react/components/time/shared.js:131-149 | the box is reset to the formatted prop exactly when the two disagree, and they agree afterwards |
| `Picker.TimeInput.HandleChange` | indico/web/client/js/react/components/time/shared.js:151-155 | the box takes the typed text as it is and the value reported is its `HH:MM` string or empty |
| `Picker.TimeInput.ExpireNotice` | indico/web/client/js/react/components/time/shared.js:110-121 | the timer clears the notice and leaves the text |
| `Picker.TypeAndEcho` | indico/web/client/js/react/components/time/shared.js:131-155 | typing and then receiving the reported value as the prop leaves the typed text in the box |
| `PropTypes.PatternMeaning` | indico/web/client/js/react/components/time/prop_types.js:8 | the pattern accepts exactly one or two hour digits denoting at most 23, a colon, and two minute digits denoting at most 59 |
| `PropTypes.PatternReads` | indico/web/client/js/react/components/time/prop_types.js:8 | an accepted string reads, in the 24-hour and the default grammar, as the hour and minute its digits denote |
| `PropTypes.TimeStringMeaning` | indico/web/client/js/react/components/time/prop_types.js:10-22 | the validator passes exactly the falsy and the clock-shaped props, and a failure names the prop, the component and the value |
| `PropTypes.RequiredMeaning` | indico/web/client/js/react/components/time/prop_types.js:25-32 | the required variant fails on each falsy prop with the required message, agrees with the plain validator otherwise, and passes exactly the clock-shaped props |
| `PropTypes.ToStringMatches` | indico/web/client/js/react/components/time/prop_types.js:8 | the `HH:MM` string of every time of day passes the pattern |
| `PropTypes.ReportedValuesPass` | indico/web/client/js/react/components/time/shared.js:151-155 | every value a picker reports passes `timeString` when used as a prop |
| `PropTypes.AcceptedExamples` | indico/web/client/js/react/components/time/prop_types.js:8 | `0:00`, `7:05`, `09:30` and `23:59` pass the pattern |
| `PropTypes.RejectedExamples` | indico/web/client/js/react/components/time/prop_types.js:8 | `24:00`, `12:60`, `7:5`, `123:00`, `7:05pm` and `07.05` fail the pattern |
| `PropTypes.InvalidExample` | indico/web/client/js/react/components/time/prop_types.js:17-21 | `25:00` fails with the invalid-format message |
| `PropTypes.RequiredExample` | indico/web/client/js/react/components/time/prop_types.js:26-30 | an absent required prop fails with the required message naming `undefined` |
| `ApiQuery.Pop` | indico/web/http_api/handlers.py:77-79 | popping a key keeps exactly the parameters with another key |
| `ApiQuery.NormalizeQuery` | indico/web/http_api/handlers.py:70-86 | the loop builds the text `NormalizedQuery` specifies |
| `ApiQuery.SortMeaning` | indico/web/http_api/handlers.py:82 | the sort orders the parameters by key and is a permutation of them |
| `ApiQuery.LexLeTotal` | indico/web/http_api/handlers.py:82 | any two keys are ordered one way or the other |
| `ApiQuery.LexLeTransitive` | indico/web/http_api/handlers.py:82 | the key order is transitive |
| `ApiQuery.PopAllMeaning` | indico/web/http_api/handlers.py:76-79 | removing the keys keeps exactly the parameters whose key is not removed |
| `ApiQuery.PutMeaning` | indico/web/http_api/handlers.py:80-81 | setting the timestamp adds it and replaces any previous `timestamp` parameter |
| `ApiQuery.QueryItemsMeaning` | indico/web/http_api/handlers.py:76-82 | the signed parameters are sorted by key; they are the request's parameters outside the removed keys, plus the given timestamp; and a removed key survives only as that timestamp |
| `ApiQuery.NormalizedQueryMeaning` | indico/web/http_api/handlers.py:83-86 | the text is the bare path exactly when no parameter is left, and otherwise the path, `?` and the encoded parameters; with a timestamp some parameter is always left |
| `ApiQuery.IgnoresRemovedParameters` | indico/web/http_api/handlers.py:70-79 | parameters with removed keys, such as `timestamp` and `signature`, do not change the normalised text |
| `ApiAuth.ValidateSignature` | indico/web/http_api/handlers.py:89-98 | the timestamp defaults to the clock, and the outcome is the one `SignatureCheck` specifies |
| `ApiAuth.CollectWindows` | indico/web/http_api/handlers.py:93-96 | the loop collects the digests of the windows `ts - 1`, `ts` and `ts + 1`, in that order |
| `ApiAuth.SignatureCheckMeaning` | indico/web/http_api/handlers.py:89-98 | a signature is accepted exactly when it is the digest of the request for a window within one of `timestamp / 300`; a rejection is the 403 error asking to check the clock |
| `ApiAuth.ClockSkew` | indico/web/http_api/handlers.py:92-96 | a signature made at one time is accepted at every time whose window is at most one away |
| `ApiAuth.GetAKErrors` | indico/web/http_api/handlers.py:101-122 | every error is a 403: a missing key exactly in the modes that need one, an unknown key, a blocked key, a bad signature, and a missing signature exactly in the signed modes |
| `ApiAuth.GetAKGrants` | indico/web/http_api/handlers.py:104-122 | an anonymous request sees only public data; a keyed one carries the known, unblocked key; it is restricted to public data exactly when unsigned in the only-key-signed mode; in the signed modes every key had a good signature |
| `ApiExport.Find` | indico/web/http_api/handlers.py:61 | the first occurrence of a character, or the end |
| `ApiExport.Split` | indico/web/http_api/handlers.py:153 | `split` gives at least one piece |
| `ApiExport.SplitJoin` | indico/web/http_api/handlers.py:153 | the pieces of `split` join back to the string and contain no separator |
| `ApiExport.IdListPieces` | indico/web/http_api/handlers.py:61 | a string matches `\w+(?:-\w+)*` exactly when every `-`-separated piece is a non-empty word |
| `ApiExport.IdListChars` | indico/web/http_api/handlers.py:61 | an id list is non-empty, made of word characters and `-`, and ends in a word character |
| `ApiExport.MatchSound` | indico/web/http_api/handlers.py:60-65 | a matched path is exactly the export path of its type, ids and format, possibly followed by one newline (which Python's `$` allows) |
| `ApiExport.MatchComplete` | indico/web/http_api/handlers.py:60-65 | the export path of every well-formed type, id list and format matches, with or without a final newline |
| `ApiExport.GetExportHandler` | indico/web/http_api/handlers.py:136-149 | there is no handler exactly when the path does not match or its format is not allowed; otherwise the match is returned |
| `ApiExport.FormatNotAllowed` | indico/web/http_api/handlers.py:146-148 | a well-formed export path with a format that is not allowed has no handler |
| `ApiExport.HandlerFound` | indico/web/http_api/handlers.py:146-149 | a well-formed export path with an allowed format yields its type, ids and format |
| `ApiExport.MatchedIds` | indico/web/http_api/handlers.py:61 | the ids of a matched path, split at `-`, are words that join back to the id list |
| `ApiExport.MaxRecords` | indico/web/http_api/handlers.py:52-57 | every detail level has a positive maximum |
| `ApiExport.MaxRecordsValues` | indico/web/http_api/handlers.py:52-57 | the maxima are 10000 for events, 500 for contributions and subcontributions, 100 for sessions, and 10000 for any other level |
| `ApiExport.RecordLimitMeaning` | indico/web/http_api/handlers.py:169-175 | a requested limit above the maximum is a 400 error naming the maximum and the level; otherwise the limit is positive, at most the maximum, the requested one when positive and the maximum when not |
| `ApiExport.HandlerEventCateg` | indico/web/http_api/handlers.py:152-191 | the loop returns the result `ExportResult` specifies |
| `ApiExport.CompletenessMeaning` | indico/web/http_api/handlers.py:169-191 | the result is incomplete exactly when no positive limit was requested and the export hit the maximum; a positive limit within the maximum is handed to the export and gives a complete result |
| `ApiExport.ExportMeaning` | indico/web/http_api/handlers.py:169-191 | the export fails exactly when the limit is exceeded; otherwise it returns every record fetched, and it is complete unless the hard limit cut the result short with no limit requested |

## Left out

- `time_value.js` is not part of this model. The parser above is what its test-suite and its callers require. The choices it does not pin down are made here:
  - `any` tries the 24-hour grammar first and then the 12-hour one;
  - an invalid time renders as `Invalid time` in every format;
  - the pickers call `fromString` without a mode, and that is taken to be `any`;
  - TimeValue.Normalize drops every whitespace character, including those between digits, so `1 2:00` reads as 12:00 and `7 30` as 7:30 (`TimeValueExamples.SpaceInsideHour`); the tests only fix whitespace around the time and the separator;
  - TimeValue.Compact reads two bare digits that are no hour of the grammar as an hour and a one-digit minute for every such pair, so `24` is 2:04 (`TimeValueExamples.TwoDigitsAboveHour`); the tests fix this only for `56` and `13 PM`.
- TimeValue.FromValue and TimeValue.FromHour take a `Num`, an integer or NaN. Fractional numbers and ±Infinity are left out: `new Time(1.5)` (valid in the source) and `new Time(Infinity)` (invalid) cannot be expressed. The pickers only build times from whole minutes.
- TimeValue.Minute follows JavaScript's truncating `%` and TimeValue.Hour `Math.floor`, so negative values, which the constructors do not refuse, give a negative hour and a non-positive minute. How `toString` and the other formatters render a negative value is not fixed by the source and is left out: the model formats only times of the day.
- TimeList.Generate: the error for a step that is not positive is modelled as an `Err`, because the source's behaviour there is not stated. `minTime`/`maxTime` mark entries as disabled rather than removing them, as `getOptions` expects. An entry that is not disabled carries `disabled: false` where the source leaves the field out.
- Labels come in two formats only. The `en-US` label is the 12-hour one and the `de` label the 24-hour one. `toLocaleString` with any other locale and options, `toDate`, `setTimeFor` and `timePlaceholder` are left out: they depend on the host's `Intl` and `Date`.
- `PluralTranslate` is modelled only by its English forms, in `Picker.DurationText`. Translation catalogues are outside the model.
- `useNotice`'s ten-second timer is modelled as the method `ExpireNotice`, without time. React rendering, JSX markup, `useMemo`/`useCallback` and the picker components (`TimePicker.jsx`, `TimeRangePicker.jsx`) are left out. They wire these functions into the UI and add no logic of their own.
- `PropTypes.PropValue` covers `undefined`, `null` and strings. Props of other types (numbers, objects) are left out.
- `ApiQuery.NormalizeQuery`: the query string is taken as the single-valued items of the parsed dictionary (`parse_qs` followed by `remove_lists`), in that dictionary's iteration order. Query-string parsing and the percent-escaping of `urlencode` are left out; `UrlEncode` joins `key=value` pairs with `&`. `lower()` is applied to A-Z only.
- ApiQuery.Put replaces an existing `timestamp` in place and otherwise appends it at the end. Python 2 leaves the dictionary's order unspecified, so the model fixes one order. The order only shows in the output when two keys differ only in case (say `Timestamp` and the added `timestamp`), because the stable sort keeps such keys in their dictionary order.
- `ApiAuth.ValidateSignature`: HMAC-SHA1 is an uninterpreted function, and `time.time()` is the parameter `now`.
- `ApiAuth.GetAKErrors`: the API mode and the key store are parameters. `HelperMaKaCInfo` and `APIKeyHolder` are databases outside the model, and an empty string stands for a missing key or signature.
- `buildAW`, the request `handler` and `get_query_parameter` are left out. They read the request and the database.
- `ApiExport.HandlerEventCateg`: the export iterator is a parameter `Fetch` returning the finite run of records it yields and whether it then raised `LimitExceededException`; the loop appends that run record by record, and the iterator's laziness (records produced on demand) is not modelled. The time zone, offset, order and direction are passed on to it without being modelled.
- `ApiExport.IsWord`: `\w` is the ASCII class `[A-Za-z0-9_]` (Python 2 `str` patterns without `re.UNICODE`).
- `ApiExport.LimitMessage` keeps the source's unbalanced quote after the detail level.
