/** The one-shot runner `_run` of termux_api.py, taken as a function of what the
    finished child process produced, and the five interpreters that turn its
    `(stdout, err)` pair into a `(value, error)` pair. */
module Interpreters {
  import opened Builtins

  /** `subprocess.CalledProcessError`: the non-zero exit status, the command
      (as strings) and, when they were captured, the standard output and
      standard error text. */
  datatype CalledProcessError = CalledProcessError(returnCode: int, cmd: seq<string>, output: Option<string>, stderr: Option<string>)

  /** What `_run` hands to an interpreter: the captured stdout, or the error. */
  datatype RunOutcome = Completed(stdout: string) | Failed(err: CalledProcessError)

  /** The second element of every `(value, error)` pair. */
  datatype Error =
    | ProcessFailed(process: CalledProcessError)  // the runner's CalledProcessError, passed on unchanged
    | DecodeFailed(doc: string)                   // json.loads raised JSONDecodeError on this document
    | Reported(message: string)                   // the tool's own output, returned as the error string

  /** A `(value, error)` pair. An error slot holding Python's None is `None`.
      The value slot has two spellings of Python's None: `None` where the code
      returns None for "nothing", and `Some(PyNone)` (or a decoded JSON null)
      where None is itself the value chosen, as in `media_player_pause`. */
  datatype Reply<+T> = Reply(value: Option<T>, error: Option<Error>)

  /** No reply carries both a value and an error. */
  predicate NeverBoth<T>(r: Reply<T>) {
    !(r.value.Some? && r.error.Some?)
  }

  /** The reply every interpreter gives when the runner failed. */
  function Propagated<T>(e: CalledProcessError): Reply<T> {
    Reply(None, Some(ProcessFailed(e)))
  }

  /** `_run(args)`, given the exit status and the captured output of the child
      (`check=True`: a non-zero status raises CalledProcessError, which `_run`
      returns as the error). */
  function Run(args: seq<PyValue>, returnCode: int, stdout: string, stderr: string): (o: RunOutcome)
    ensures o.Completed? <==> returnCode == 0
    ensures o.Completed? ==> o.stdout == stdout
    ensures o.Failed? ==> o.err.returnCode == returnCode && o.err.output == Some(stdout) && o.err.stderr == Some(stderr)
    ensures o.Failed? ==> |o.err.cmd| == |args| && forall k :: 0 <= k < |args| ==> o.err.cmd[k] == Str(args[k])
  {
    if returnCode == 0 then Completed(stdout)
    else Failed(CalledProcessError(returnCode, StrAll(args), Some(stdout), Some(stderr)))
  }

  // ---------------------------------------------------------------------------
  // _run_json
  // ---------------------------------------------------------------------------

  /** `_run_json`: decode stdout; a decoding failure is reported with the document. */
  function RunJson<J>(o: RunOutcome, decode: string -> Option<J>): (r: Reply<J>)
    ensures NeverBoth(r)
    ensures o.Failed? ==> r == Propagated(o.err)
    ensures o.Completed? ==> (r.error == None <==> decode(o.stdout).Some?)
    ensures o.Completed? && r.value.Some? ==> decode(o.stdout) == Some(r.value.value)
    ensures o.Completed? && r.error.Some? ==> r.error == Some(DecodeFailed(o.stdout))
  {
    match o
    case Failed(e) => Propagated(e)
    case Completed(stdout) =>
      match decode(stdout)
      case Some(v) => Reply(Some(v), None)
      case None => Reply(None, Some(DecodeFailed(stdout)))
  }

  /** Whatever an encoder writes that the decoder reads back comes out of
      `_run_json` as that value. */
  lemma RunJsonOfEncoded<J>(encode: J -> string, decode: string -> Option<J>, x: J)
    requires decode(encode(x)) == Some(x)
    ensures RunJson(Completed(encode(x)), decode) == Reply(Some(x), None)
  {
  }

  // ---------------------------------------------------------------------------
  // _run_error and _run_startswith_error
  // ---------------------------------------------------------------------------

  /** `_run_error`: the call succeeded exactly when stdout strips to nothing;
      otherwise the whole stdout is the error. The value is always None. */
  function RunError(o: RunOutcome): (r: Reply<()>)
    ensures r.value == None
    ensures o.Failed? ==> r == Propagated(o.err)
    ensures o.Completed? ==> (r.error == None <==> Blank(o.stdout))
    ensures o.Completed? && r.error.Some? ==> r.error == Some(Reported(o.stdout))
  {
    match o
    case Failed(e) => Propagated(e)
    case Completed(stdout) =>
      StripEmptyIffBlank(stdout);
      if Strip(stdout) != [] then Reply(None, Some(Reported(stdout))) else Reply(None, None)
  }

  /** `_run_startswith_error(args, startswith, is_error)`: stdout is the error
      exactly when "stdout starts with the prefix" equals `isError`. */
  function RunStartswithError(o: RunOutcome, startswith: string, isError: bool): (r: Reply<()>)
    ensures r.value == None
    ensures o.Failed? ==> r == Propagated(o.err)
    ensures o.Completed? ==> (r.error.Some? <==> ((exists rest :: o.stdout == startswith + rest) == isError))
    ensures o.Completed? && r.error.Some? ==> r.error == Some(Reported(o.stdout))
  {
    match o
    case Failed(e) => Propagated(e)
    case Completed(stdout) =>
      if startswith <= stdout then
        assert stdout == startswith + stdout[|startswith|..];
        if isError then Reply(None, Some(Reported(stdout))) else Reply(None, None)
      else
        if isError then Reply(None, None) else Reply(None, Some(Reported(stdout)))
  }

  /** `media_player_play`: only a reply that starts "Now Playing" is a success. */
  function MediaPlayerPlay(o: RunOutcome): (r: Reply<()>)
    ensures o.Failed? ==> r == Propagated(o.err)
    ensures o.Completed? ==> (r.error == None <==> "Now Playing" <= o.stdout)
  {
    RunStartswithError(o, "Now Playing", false)
  }

  // ---------------------------------------------------------------------------
  // _run_startswith_map
  // ---------------------------------------------------------------------------

  /** The value of the first key, in table order, that is a prefix of `s`. */
  function FirstPrefix<V>(table: seq<(string, V)>, s: string): (r: Option<V>)
    ensures r.None? <==> forall i :: 0 <= i < |table| ==> !(table[i].0 <= s)
    ensures r.Some? ==> exists i :: 0 <= i < |table| && table[i].0 <= s && r.value == table[i].1
                                    && forall j :: 0 <= j < i ==> !(table[j].0 <= s)
  {
    if table == [] then None
    else if table[0].0 <= s then
      Some(table[0].1)
    else
      var r := FirstPrefix(table[1..], s);
      assert forall i :: 1 <= i < |table| ==> table[i] == table[1..][i - 1];
      r
  }

  /** Entry `i` is the first whose key is a prefix of `s`. */
  predicate FirstMatchAt<V>(table: seq<(string, V)>, s: string, i: nat)
    requires i < |table|
  {
    table[i].0 <= s && forall j :: 0 <= j < i ==> !(table[j].0 <= s)
  }

  /** `_run_startswith_map(args, mapping, default)`: the value of the first
      matching key, or `default` when none matches; never an error of its own. */
  function RunStartswithMap<V>(o: RunOutcome, mapping: seq<(string, V)>, default: V): (r: Reply<V>)
    ensures o.Failed? ==> r == Propagated(o.err)
    ensures o.Completed? ==> r.error == None && r.value.Some?
    ensures o.Completed? && (forall i :: 0 <= i < |mapping| ==> !(mapping[i].0 <= o.stdout)) ==>
              r.value == Some(default)
    ensures o.Completed? ==>
              forall i :: 0 <= i < |mapping| && FirstMatchAt(mapping, o.stdout, i) ==> r.value == Some(mapping[i].1)
  {
    match o
    case Failed(e) => Propagated(e)
    case Completed(stdout) =>
      var m := FirstPrefix(mapping, stdout);
      if m.Some? then Reply(m, None) else Reply(Some(default), None)
  }

  /** The table `media_player_pause` passes. */
  function PauseTable(): seq<(string, PyValue)> {
    [("Paused playback", PyBool(true)),
     ("Playback already paused", PyNone),
     ("No track to pause", PyBool(false))]
  }

  /** `media_player_pause`: the table above with the default None; the reply is
      always one of True, None and False. */
  function MediaPlayerPause(o: RunOutcome): (r: Reply<PyValue>)
    ensures o.Failed? ==> r == Propagated(o.err)
    ensures o.Completed? ==> r.error == None && r.value.Some? && r.value.value in {PyBool(true), PyNone, PyBool(false)}
  {
    RunStartswithMap(o, PauseTable(), PyNone)
  }

  /** Each of the tool's replies selects its own entry, and unknown text the default. */
  lemma MediaPlayerPauseReplies(rest: string, other: string)
    ensures MediaPlayerPause(Completed("Paused playback" + rest)) == Reply(Some(PyBool(true)), None)
    ensures MediaPlayerPause(Completed("Playback already paused" + rest)) == Reply(Some(PyNone), None)
    ensures MediaPlayerPause(Completed("No track to pause" + rest)) == Reply(Some(PyBool(false)), None)
    ensures (forall i :: 0 <= i < |PauseTable()| ==> !(PauseTable()[i].0 <= other)) ==>
              MediaPlayerPause(Completed(other)) == Reply(Some(PyNone), None)
  {
    PausedReply(rest);
    AlreadyPausedReply(rest);
    NoTrackReply(rest);
    if forall i :: 0 <= i < |PauseTable()| ==> !(PauseTable()[i].0 <= other) {
      UnknownReply(other);
    }
  }

  lemma PausedReply(rest: string)
    ensures FirstPrefix(PauseTable(), "Paused playback" + rest) == Some(PyBool(true))
  {
    assert PauseTable()[0].0 <= "Paused playback" + rest;
  }

  lemma AlreadyPausedReply(rest: string)
    ensures FirstPrefix(PauseTable(), "Playback already paused" + rest) == Some(PyNone)
  {
    var t := PauseTable();
    var s := "Playback already paused" + rest;
    assert s[1] != t[0].0[1];
    assert t[1].0 <= s;
    assert FirstPrefix(t, s) == FirstPrefix(t[1..], s);
  }

  lemma NoTrackReply(rest: string)
    ensures FirstPrefix(PauseTable(), "No track to pause" + rest) == Some(PyBool(false))
  {
    var t := PauseTable();
    var s := "No track to pause" + rest;
    assert s[0] != t[0].0[0] && s[0] != t[1].0[0];
    assert t[2].0 <= s;
    assert FirstPrefix(t, s) == FirstPrefix(t[1..], s) == FirstPrefix(t[2..], s);
  }

  /** Text that starts with none of the three replies gives the default None. */
  lemma UnknownReply(s: string)
    requires forall i :: 0 <= i < |PauseTable()| ==> !(PauseTable()[i].0 <= s)
    ensures MediaPlayerPause(Completed(s)) == Reply(Some(PyNone), None)
  {
  }

  /** "Unexpected text" is such a text. */
  lemma UnexpectedTextReply()
    ensures MediaPlayerPause(Completed("Unexpected text")) == Reply(Some(PyNone), None)
  {
    var t := PauseTable();
    var s := "Unexpected text";
    assert s[0] != t[0].0[0] && s[1] != t[1].0[1] && s[0] != t[2].0[0];
    UnknownReply(s);
  }

  // ---------------------------------------------------------------------------
  // _run_regex with the media-scan pattern "Finished scanning ([0-9]+) file"
  // ---------------------------------------------------------------------------

  const ScanPrefix: string := "Finished scanning "
  const ScanSuffix: string := " file"

  /** The longest run of ASCII digits at the start of `s`. */
  function DigitRun(s: string): (d: string)
    ensures d <= s && AllDigits(d)
    ensures |d| < |s| ==> !IsDigit(s[|d|])
  {
    if s != [] && IsDigit(s[0]) then
      var d := [s[0]] + DigitRun(s[1..]);
      assert s == [s[0]] + s[1..];
      d
    else
      []
  }

  /** What the anchored pattern accepts with `d` as its group: the prefix, a
      non-empty digit run, then " file", at the very start of `s`. */
  predicate ScanMatches(s: string, d: string) {
    d != [] && AllDigits(d) && ScanPrefix + d + ScanSuffix <= s
  }

  /** `re.match(pattern, s)` and its group: the greedy digit run, which matches
      only when " file" follows it (a shorter run would be followed by a digit). */
  function ScanGroup(s: string): (g: Option<string>)
    ensures g.Some? ==> ScanMatches(s, g.value)
  {
    if ScanPrefix <= s then
      var d := DigitRun(s[|ScanPrefix|..]);
      if d != [] && ScanSuffix <= s[|ScanPrefix| + |d|..] then Some(d) else None
    else
      None
  }

  /** A match of the pattern is the group that ScanGroup finds. */
  lemma ScanMatchesFound(s: string, d: string)
    requires ScanMatches(s, d)
    ensures ScanGroup(s) == Some(d)
  {
    var p := |ScanPrefix|;
    assert s[..p] == (ScanPrefix + d + ScanSuffix)[..p];
    assert ScanPrefix <= s;
    var rest := s[p..];
    assert d <= rest by {
      assert rest[..|d|] == (ScanPrefix + d + ScanSuffix)[p..p + |d|];
    }
    assert rest[|d|] == ' ' by {
      assert rest[|d|] == (ScanPrefix + d + ScanSuffix)[p + |d|];
    }
    var g := DigitRun(rest);
    assert g == rest[..|d|] == d;
    assert s[p + |d|..][..|ScanSuffix|] == (ScanPrefix + d + ScanSuffix)[p + |d|..];
  }

  /** The group is found exactly when the pattern accepts `s` with that group,
      and the pattern accepts `s` with at most one group. */
  lemma ScanGroupIffMatches(s: string, d: string)
    ensures ScanGroup(s) == Some(d) <==> ScanMatches(s, d)
  {
    if ScanMatches(s, d) {
      ScanMatchesFound(s, d);
    }
  }

  /** `_run_regex(args, "Finished scanning ([0-9]+) file", int)`: the scanned
      count, or `(None, None)` when the text does not match. */
  function RunScan(o: RunOutcome): (r: Reply<int>)
    ensures r.error == None <==> o.Completed?
    ensures o.Failed? ==> r == Propagated(o.err)
    ensures o.Completed? && r.value.Some? ==> r.value.value >= 0
  {
    match o
    case Failed(e) => Propagated(e)
    case Completed(stdout) =>
      match ScanGroup(stdout)
      case None => Reply(None, None)
      case Some(d) => Reply(Some(DigitsValue(d) as int), None)
  }

  /** `media_scan` reads back the count the tool printed, whatever follows
      " file" ("s", a newline, ...); text the pattern rejects gives `(None, None)`. */
  lemma ScanRoundTrip(n: nat, rest: string)
    ensures RunScan(Completed(ScanPrefix + Digits(n) + ScanSuffix + rest)) == Reply(Some(n), None)
  {
    var s := ScanPrefix + Digits(n) + ScanSuffix + rest;
    assert ScanPrefix + Digits(n) + ScanSuffix <= s;
    ScanGroupIffMatches(s, Digits(n));
    DigitsRoundTrip(n);
  }

  /** Every match, leading zeros included, gives `int()` of its digit group. */
  lemma ScanDigitsRoundTrip(d: string, rest: string)
    requires d != [] && AllDigits(d)
    ensures RunScan(Completed(ScanPrefix + d + ScanSuffix + rest)) == Reply(Some(DigitsValue(d) as int), None)
  {
    var s := ScanPrefix + d + ScanSuffix + rest;
    assert ScanPrefix + d + ScanSuffix <= s;
    ScanGroupIffMatches(s, d);
  }

  /** Without a match the reply is empty: no value and no error. */
  lemma ScanUnmatchedIsEmpty(s: string)
    requires forall d :: !ScanMatches(s, d)
    ensures RunScan(Completed(s)) == Reply(None, None)
  {
  }
}
