# termux_api core, modelled in Dafny

`termux_api.py` wraps the Termux:API command-line tools. Each capability
function builds an argument list, runs the tool, and turns its output into a
`(value, error)` pair. A one-shot call runs the tool once through `_run`. One of
five interpreters then reads the output: JSON, silence-means-success, a prefix
that marks success or error, a prefix-to-value table, or a regular expression.
A streaming call starts a long-lived child with `_run_updates`. It accumulates
the child's output line by line and yields every buffer that decodes as JSON.
It keeps the child in the module-level list `_all_popen`, and
`_kill_all_popen` kills whatever is still in that list when the interpreter
exits. `SayTime.py` uses the library to speak the time in Chinese. Its two pure
helpers, `num_to_chinese` and `get_chinese_time`, are modelled too.

Modules:

- `Builtins` (`builtins.dfy`): the parts of Python's runtime that the core relies on.
  - None, truthiness, `str()`, and `int()` on a run of ASCII digits.
  - `str.strip`, and `str.split` / `str.join` with a one-character separator.
  - `list.remove`, and the exceptions the modelled code raises.
- `Arguments` (`arguments.dfy`):
  - `_construct_args`, as a method that appends to a mutable list object, so that aliasing of the `command` list is kept;
  - `_join_list`;
  - the invocation that `dialog_text` builds.
- `Interpreters` (`interpreters.dfy`):
  - `_run`, as a function of the exit status and the captured output;
  - `_run_json`, `_run_error`, `_run_startswith_error`, `_run_startswith_map` and `_run_regex`, the last with the pattern `media_scan` uses;
  - `media_player_play` and `media_player_pause`.
- `Streaming` (`streaming.dfy`):
  - `readline` splitting and the accumulate-and-decode loop, as a method proved against a specification function;
  - the `_all_popen` registry, as a class whose methods append, remove and kill;
  - `_run_updates` consumed to the end.
- `MediaInfo` (`media_info.dfy`): `media_player_info`. This includes the ValueError that `dict()` raises on a line that holds a ':' but no ": ".
- `SayTime` (`say_time.dfy`): `num_to_chinese` and `get_chinese_time`. Each has a reader that recovers the number or the time from the spoken text.

How the environment enters the model:

- The child process is an input. `_run` receives the exit status, stdout and stderr. `_run_updates` receives the text the child writes and its exit status.
- JSON decoding is a parameter `decode: string -> Option<J>`. `None` stands for JSONDecodeError.
- A Python exception that escapes a call is a `Raising<T>` result: `Return(v)` or `Raise(exc)`.
- Python's None in the error slot of a `(value, error)` pair is `None`. The value slot has two spellings of it. `None` means the code returned nothing. `Some(PyNone)`, or a decoded JSON null, means None is the value the code chose, as in `media_player_pause`.
- The clock, the speech engine and spawning itself are not modelled.

## Model

| member | source | states |
|---|---|---|
| Builtins.Truthy | termux_api.py:124 | `if v:` is false exactly for None, False, 0 and "" |
| Builtins.DigitsValue | termux_api.py:97 | `int()` of ASCII digits: its last decimal digit is the last character's, and all zeros give 0 |
| Builtins.Digits | termux_api.py:97 | the decimal digits of n: non-empty, all ASCII digits, at least two exactly when n >= 10, and starting with '0' only for 0 itself (no leading zero) |
| Builtins.DigitsRoundTrip | termux_api.py:97 | `int()` of the digits `str()` writes for n gives n back |
| Builtins.Str | termux_api.py:29 | `str(v)`: a string is itself; a non-negative integer prints as digits that `int()` reads back as it, a negative one as '-' and the digits of its magnitude; None prints as "None", True as "True" and False as "False" |
| Builtins.StrAll | termux_api.py:29 | `str` of every argument, position by position |
| Builtins.StripLeft | termux_api.py:55 | the result is a suffix of s, what was cut is all whitespace, and it starts with a non-space |
| Builtins.StripRight | termux_api.py:55 | the result is a prefix of s, what was cut is all whitespace, and it ends with a non-space |
| Builtins.LeadingSpace | termux_api.py:55 | the count of leading whitespace: what it covers is blank, and the next character is not a space |
| Builtins.Strip | termux_api.py:55 | `s.strip()` is the slice of s after its leading whitespace, what follows it is blank, and it neither starts nor ends with a space |
| Builtins.StripEmptyIffBlank | termux_api.py:55 | `s.strip()` is empty exactly when every character of s is whitespace |
| Builtins.Split | termux_api.py:333 | `str.split(sep)` gives at least one piece, and no piece holds the separator |
| Builtins.Join | termux_api.py:143 | `sep.join([])` is "", and the joined text starts with the first part |
| Builtins.JoinSnoc | termux_api.py:143 | joining one more part appends the separator and that part |
| Builtins.SplitJoin | termux_api.py:143 | splitting a join of separator-free pieces gives the pieces back |
| Builtins.JoinSplit | termux_api.py:333 | joining the pieces of a split gives the string back |
| Builtins.RemoveFirst | termux_api.py:116 | `list.remove(x)` takes out the element at the first index holding x and keeps the rest in order |
| Builtins.RemoveFirstMultiset | termux_api.py:116 | `list.remove(x)` on a list holding x removes exactly one occurrence of x and nothing else |
| Builtins.RemoveFirstAppended | termux_api.py:105-116 | removing x after appending x to a list that did not hold it restores the list |
| Arguments.OptionValue | termux_api.py:130-135 | True becomes "true", False becomes "false", and any other value is appended as it is; never None, never a bool |
| Arguments.Invocation | termux_api.py:121-137 | the invocation starts with the base command and ends with the positionals, with one token per truthy flag and two per option that is not None in between |
| Arguments.ConstructArgs | termux_api.py:121-137 | returns the very list passed as `command`, which now holds the old contents, then the truthy flags, then the options that are not None, then the positionals |
| Arguments.AppendFlags | termux_api.py:123-125 | appends to the list in place exactly the keys of the truthy flags, in mapping order |
| Arguments.AppendOptions | termux_api.py:126-135 | appends to the list in place, for each option that is not None, its key then its rendered value, in mapping order |
| Arguments.FlagTokensLength | termux_api.py:123-125 | one token for each truthy flag |
| Arguments.FlagTokensAt | termux_api.py:123-125 | the key of the i-th flag, when truthy, stands after exactly the truthy flags before it: order is kept |
| Arguments.FlagTokensFromTruthy | termux_api.py:123-125 | every flag token is the key of some truthy flag |
| Arguments.FlagTokensAppend | termux_api.py:123-125 | the flag tokens of two mappings side by side are those of each, in order |
| Arguments.OptionTokensAppend | termux_api.py:126-135 | the option tokens of two mappings side by side are those of each, in order |
| Arguments.OptionTokensLength | termux_api.py:126-135 | two tokens for each option that is not None |
| Arguments.OptionTokensAt | termux_api.py:126-135 | an option that is not None contributes its key and then its rendered value, placed after the options before it |
| Arguments.OptionTokensNoNoneNoBool | termux_api.py:126-135 | no option token is None or a bool |
| Arguments.AllNoneOptionsVanish | termux_api.py:127-128 | options that are all None contribute nothing |
| Arguments.JoinList | termux_api.py:140-143 | None maps to None and a list maps to a string; an empty list gives "" and a single item gives its `str` |
| Arguments.JoinListSplits | termux_api.py:140-143 | splitting the joined string at commas gives the `str` of each item back, when no item's `str` holds a comma |
| Arguments.DialogTextArgs | termux_api.py:238-244 | the `dialog_text` invocation: base command, then -m/-n/-p for the true flags in that order, then -t title and -i hint when given |
| Interpreters.Run | termux_api.py:28-36 | stdout with no error exactly when the exit status is 0; otherwise a CalledProcessError that carries the status, the stringified command, the captured stdout as its `output` and the stderr |
| Interpreters.RunJson | termux_api.py:39-48 | a runner error passes unchanged; otherwise there is no error exactly when stdout decodes, the value is the decoded document, and a decoding failure carries the document; never both a value and an error |
| Interpreters.RunJsonOfEncoded | termux_api.py:45-46 | whatever an encoder writes and the decoder reads back comes out as that value with no error |
| Interpreters.RunError | termux_api.py:51-58 | the value is always None; no error exactly when stdout is all whitespace, and otherwise the whole stdout is the error |
| Interpreters.RunStartswithError | termux_api.py:61-70 | the value is always None; stdout is the error exactly when "stdout starts with the prefix" equals `is_error` |
| Interpreters.MediaPlayerPlay | termux_api.py:338-340 | success exactly when the reply starts with "Now Playing" |
| Interpreters.FirstPrefix | termux_api.py:79-81 | the value of the first key, in table order, that is a prefix of stdout; None exactly when no key is |
| Interpreters.RunStartswithMap | termux_api.py:73-82 | never an error of its own; the first matching key's value, or the default when no key matches |
| Interpreters.MediaPlayerPause | termux_api.py:343-351 | a runner error passes unchanged; otherwise there is no error and the value is True, None or False |
| Interpreters.MediaPlayerPauseReplies | termux_api.py:343-351 | "Paused playback…" gives True, "Playback already paused…" gives None, "No track to pause…" gives False, and any text that starts with none of the three gives the default None |
| Interpreters.PausedReply | termux_api.py:347 | a reply starting "Paused playback" selects True |
| Interpreters.AlreadyPausedReply | termux_api.py:347-348 | a reply starting "Playback already paused" passes over the first key and selects None |
| Interpreters.NoTrackReply | termux_api.py:347-349 | a reply starting "No track to pause" passes over the first two keys and selects False |
| Interpreters.UnknownReply | termux_api.py:79-82 | any reply that starts with none of the three keys matches no entry, so `media_player_pause` returns the default None with no error |
| Interpreters.UnexpectedTextReply | termux_api.py:343-351 | the reply "Unexpected text" is such a reply and gives None |
| Interpreters.ScanGroup | termux_api.py:91 | a group, when found, is a digit run that the pattern matches at the start of the text |
| Interpreters.ScanMatchesFound | termux_api.py:91 | whenever the pattern matches at the start with a digit group, that group is the one found |
| Interpreters.ScanGroupIffMatches | termux_api.py:91 | the group is found exactly when `Finished scanning ([0-9]+) file` matches at the start with that group, so at most one group fits |
| Interpreters.RunScan | termux_api.py:85-97 | no error exactly when the runner succeeded; a count, when there is one, is a non-negative integer |
| Interpreters.ScanDigitsRoundTrip | termux_api.py:85-97 | for every match, leading zeros included, the value is `int()` of the digit group, with no error |
| Interpreters.ScanRoundTrip | termux_api.py:375-381 | for "Finished scanning N file…", whatever follows, `media_scan` returns N |
| Interpreters.ScanUnmatchedIsEmpty | termux_api.py:91-93 | text the pattern rejects gives `(None, None)` |
| Streaming.ReadLines | termux_api.py:107 | `readline` gives non-empty lines with no newline inside, and every line but the last ends in one |
| Streaming.ReadLinesConcat | termux_api.py:107 | the lines, concatenated, are exactly the child's output |
| Streaming.Frames | termux_api.py:106-113 | every yielded document decodes to the value yielded with it |
| Streaming.ConcatPrefix | termux_api.py:108 | the first k lines read are the first line, then the first k - 1 of the rest |
| Streaming.FramesNone | termux_api.py:106-113 | while no prefix of the lines decodes together with the buffer, nothing is yielded and every line stays in the buffer |
| Streaming.FramesFirst | termux_api.py:106-113 | a document is yielded as soon as the buffer decodes: when the first n lines are the shortest prefix that decodes, that text is the first document, and the rest is what the loop yields from an empty buffer on the remaining lines |
| Streaming.FramesConserve | termux_api.py:106-113 | the yielded documents followed by the leftover buffer are the starting buffer and every line, in order: nothing is dropped or duplicated |
| Streaming.FramesLeftover | termux_api.py:106-113 | after at least one line, the leftover buffer is empty or does not decode |
| Streaming.FramesOnePerLine | termux_api.py:106-113 | when every line decodes by itself, each line is one event, in order, and nothing is left over |
| Streaming.UpdateEvents | termux_api.py:100-118 | every event carries exactly one of a value and an error, and no event is an error exactly when the exit status is 0 |
| Streaming.EventsShape | termux_api.py:100-118 | every event but the last carries a value and no error; a non-zero exit adds exactly one final CalledProcessError event, and exit 0 adds none |
| Streaming.DecodeLines | termux_api.py:106-113 | the loop yields exactly the events and leaves exactly the buffer that the specification `Frames` gives |
| Streaming.Registry.constructor | termux_api.py:17 | the list starts empty and nothing has been killed |
| Streaming.Registry.Append | termux_api.py:105 | the child is appended at the end of the list |
| Streaming.Registry.Remove | termux_api.py:116 | the first occurrence of the child is removed, and the list is unchanged when the child is absent |
| Streaming.Registry.KillAll | termux_api.py:20-22 | `kill()` reaches every registered child once, in list order; the list itself stays as it is |
| Streaming.StartUpdates | termux_api.py:100-105 | a fresh child with the stringified arguments is appended to the registry before any output is read |
| Streaming.FinishUpdates | termux_api.py:114-118 | after `wait`, a registered child's first occurrence is removed and the tail is one CalledProcessError exactly when the exit status is not 0; a child missing from the list raises ValueError, yields nothing more and leaves the list as it is |
| Streaming.RunUpdates | termux_api.py:100-118 | a fresh child with the stringified arguments; the registry ends as it began and no longer holds the child (registering it while streaming is the contract of StartUpdates, removing it the contract of FinishUpdates); the events are `UpdateEvents` of its output lines and exit status |
| MediaInfo.SplitOnce | termux_api.py:333 | `split(": ", maxsplit=1)` gives two pieces exactly when the line holds ": ": the line is the first piece, ": " and the second, and the first piece holds no ": "; otherwise the whole line alone |
| MediaInfo.Kept | termux_api.py:333 | the kept lines all hold ':', and every line that holds ':' is kept |
| MediaInfo.KeptAppend | termux_api.py:333 | the filter keeps order: filtering a concatenation filters each part in turn |
| MediaInfo.KeptCons | termux_api.py:333 | a first line is kept in front of the rest exactly when it holds ':' |
| MediaInfo.KeptSingle | termux_api.py:333 | a single line is kept exactly when it holds ':' |
| MediaInfo.ToDict | termux_api.py:332-334 | `dict()` raises ValueError exactly when some item does not have two elements |
| MediaInfo.SplitAll | termux_api.py:333 | one split per kept line, in order |
| MediaInfo.ParseInfo | termux_api.py:330-331 | text starting "No track currently" gives `{"Track": None}` |
| MediaInfo.MediaPlayerInfo | termux_api.py:325-335 | a runner error passes unchanged; on success, the reply is a dictionary with no error |
| MediaInfo.ParseInfoRaisesIff | termux_api.py:330-334 | the call raises exactly when the text is not the no-track reply and one of its lines holds ':' but no ": " |
| MediaInfo.KeptMalformed | termux_api.py:333 | some kept line fails to split in two exactly when some line holds ':' but no ": " |
| MediaInfo.SplitOnceEntry | termux_api.py:333 | the line "key: value" splits back into key and value when the key holds no ": " |
| MediaInfo.ToDictOfEntries | termux_api.py:332-334 | the dictionary of the split entry lines is that of the entries, a later key overwriting an earlier one |
| MediaInfo.RenderedLines | termux_api.py:333 | the kept lines of a rendered entry list are its entry lines |
| MediaInfo.InfoRoundTrip | termux_api.py:325-335 | text made of "Key: value" lines, when it is not the no-track reply, reads back as the dictionary of those entries |
| MediaInfo.NewlineOnlyLines | termux_api.py:333 | a lone newline splits into two empty lines, and neither is kept |
| MediaInfo.KeptJoinedNewline | termux_api.py:333 | lines that hold ':' and no newline, joined and ended with a newline, are kept as they are; the empty piece after the last newline is dropped |
| MediaInfo.RenderedLinesNewline | termux_api.py:333 | the kept lines of a rendered entry list followed by a newline are its entry lines |
| MediaInfo.InfoRoundTripNewline | termux_api.py:325-335 | the same text ended by a newline, as the tool prints it, reads back as the same dictionary |
| MediaInfo.KeptAll | termux_api.py:333 | lines that all hold ':' are all kept |
| SayTime.NumToChinese | SayTime.py:13-24 | returns exactly for -11..99; raises ValueError from 100 up and IndexError below -11; the numeral has 1, 2 or 3 characters as the number's form requires, all from the table |
| SayTime.NegativeIndexing | SayTime.py:17 | n in -11..-1 reads the same numeral as n + 11, because of Python's negative indexing |
| SayTime.ChineseRoundTrip | SayTime.py:13-24 | reading back the numeral for 0..99 gives the number |
| SayTime.NumToChineseInjective | SayTime.py:13-24 | no two numbers in 0..99 share a numeral |
| SayTime.DialHour | SayTime.py:32-33 | the dial hour lies in 1..12 and agrees with h modulo 12 |
| SayTime.HourWord | SayTime.py:35-36 | the hour word is "兩" exactly when the dial hour is 2, and otherwise the one- or two-character numeral of the dial hour |
| SayTime.GetChineseTime | SayTime.py:31-46 | raises exactly when the minute is 100 or more, or below -11; otherwise the phrase starts with the hour word and "點" |
| SayTime.HalfDayPeriodic | SayTime.py:32-33 | h and h + 12 are spoken alike |
| SayTime.TimeSuffix | SayTime.py:39-44 | the phrase ends in "整" exactly on the hour, in "半" exactly at half past, and in "分" otherwise |
| SayTime.PhraseShape | SayTime.py:35-44 | for a minute of 0..99, the phrase is the hour word, "點", then the minute part |
| SayTime.HourWordRoundTrip | SayTime.py:35-36 | the hour word holds no "點" and reads back as the dial hour, with "兩" read as 2 |
| SayTime.MinuteRoundTrip | SayTime.py:39-44 | the minute part reads back as the minute, for 0..99 |
| SayTime.TimeRoundTrip | SayTime.py:31-46 | reading back the phrase for any hour and a minute of 0..99 gives the dial hour and the minute, so two times on one dial never sound alike |

## Left out

- Spawning, reaping and the `**kwargs` passed to `subprocess` (a timeout, stdin) are left out. The child is an input, so a TimeoutExpired from `_run` is not modelled.
- The JSON grammar is left out. `json.loads` is the parameter `decode`.
- `re.match` in general is left out. Only the `media_scan` pattern is modelled, with its greedy digit group. The list-of-types branch of `_run_regex` (line 94-95) is not modelled, because no modelled caller uses it.
- The `atexit` registration is left out. `Registry.KillAll` is what runs at exit.
- Streaming.Registry.Remove: where Python raises ValueError for a child that is absent, the method returns `found == false`. `FinishUpdates` turns that into the ValueError, and `RunUpdates` never meets that case.
- Option and argument values are limited to None, bool, int and str. Floats, such as the `pitch` and `rate` of `tts_speak`, are left out, and so is what `str()` writes for them.
- Streaming.Registry.KillAll: kills every listed child but neither clears the list nor records which children were already killed. This matches `_kill_all_popen`. A second call kills them all again, so it is not idempotent, as a "killed exactly once" design would require.
- There is no cancellation and no `Cancelled` error. The generator can only be consumed to the end, and `close()`, or a child killed mid-stream, is not modelled.
- There is no `Unmatched` outcome. A text the scan pattern rejects gives `(None, None)`, and a text no prefix matches gives the default, both as the code does.
- A buffer that never decodes is not reported as an error at the end of a stream; it is dropped, as the code drops it.
- Universal-newline translation of the child's output is left out. The text is taken as already translated.
- The `ProcessFailed` error of a stream carries neither output nor stderr (`None`), because `_run_updates` builds CalledProcessError from the status and the arguments only.
- Arguments.ConstructArgs: models the aliasing of `command`, but not the case where `args` is that same list object being extended with itself.
- The dictionaries of `media_player_info` are maps, so Python's key order is left out.
- SayTime.NumToChinese: `int(n)` on a value that is not an integer (and the ValueError it raises) is left out; n is an integer.
- The `types` converter of `_run_regex` is `int` on the digit run.
- The capability wrappers that only feed one of these interpreters are left out, apart from `dialog_text`, `media_player_play`, `media_player_pause`, `media_scan` and `media_player_info`. They are the same pattern with other constants.
- `tts_speak_init`, the `__main__` block and `get_current_chinese_time` are left out, because they are I/O: stdin, speech and the clock.
