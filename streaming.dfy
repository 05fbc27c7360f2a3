/** The streaming path of termux_api.py: `_run_updates` reads the child's output
    line by line into a buffer and yields every buffer that decodes, and the
    module-level list `_all_popen` keeps the long-lived children so that
    `_kill_all_popen` can kill them at interpreter exit. */
module Streaming {
  import opened Builtins
  import opened Interpreters

  // ---------------------------------------------------------------------------
  // Reading lines: iter(popen.stdout.readline, "")
  // ---------------------------------------------------------------------------

  /** The concatenation of a list of strings. */
  function Concat(xs: seq<string>): string {
    if xs == [] then "" else xs[0] + Concat(xs[1..])
  }

  /** The lines `readline` returns until it returns "": each ends with its
      newline, except a last line the child did not terminate. */
  function ReadLines(out: string): (lines: seq<string>)
    ensures forall k :: 0 <= k < |lines| ==> lines[k] != "" && '\n' !in lines[k][..|lines[k]| - 1]
    ensures forall k :: 0 <= k < |lines| - 1 ==> lines[k][|lines[k]| - 1] == '\n'
    decreases |out|
  {
    if out == [] then []
    else if '\n' in out then
      var i := IndexOf(out, '\n');
      var line := out[..i + 1];
      assert line[..|line| - 1] == out[..i];
      [line] + ReadLines(out[i + 1..])
    else
      [out]
  }

  /** Reading lines loses and reorders nothing. */
  lemma {:induction false} ReadLinesConcat(out: string)
    ensures Concat(ReadLines(out)) == out
    decreases |out|
  {
    if out != [] && '\n' in out {
      var i := IndexOf(out, '\n');
      ReadLinesConcat(out[i + 1..]);
      var lines := ReadLines(out);
      assert lines[1..] == ReadLines(out[i + 1..]);
      assert out == out[..i + 1] + out[i + 1..];
    }
  }

  // ---------------------------------------------------------------------------
  // The accumulate-and-decode loop, as a function
  // ---------------------------------------------------------------------------

  /** One yielded document: the buffer that decoded and its value. */
  datatype Frame<J> = Frame(doc: string, value: J)

  /** The documents the loop yields and the buffer it is left with, given the
      buffer so far and the lines still to read. */
  function Frames<J>(decode: string -> Option<J>, buffer: string, lines: seq<string>): (r: (seq<Frame<J>>, string))
    ensures forall k :: 0 <= k < |r.0| ==> decode(r.0[k].doc) == Some(r.0[k].value)
    decreases |lines|
  {
    if lines == [] then ([], buffer)
    else
      var b := buffer + lines[0];
      match decode(b)
      case Some(v) =>
        var rest := Frames(decode, "", lines[1..]);
        ([Frame(b, v)] + rest.0, rest.1)
      case None => Frames(decode, b, lines[1..])
  }

  /** The documents of a list of frames, and their values as `(value, None)` events. */
  function Docs<J>(fs: seq<Frame<J>>): seq<string> {
    if fs == [] then [] else [fs[0].doc] + Docs(fs[1..])
  }

  lemma YieldsCons<J>(f: Frame<J>, fs: seq<Frame<J>>)
    ensures Yields([f] + fs) == [Reply(Some(f.value), None)] + Yields(fs)
  {
    assert ([f] + fs)[1..] == fs;
  }

  function Yields<J>(fs: seq<Frame<J>>): (r: seq<Reply<J>>)
    ensures |r| == |fs|
    ensures forall k :: 0 <= k < |fs| ==> r[k] == Reply(Some(fs[k].value), None)
  {
    if fs == [] then [] else [Reply(Some(fs[0].value), None)] + Yields(fs[1..])
  }

  /** The error event that ends a stream whose child exited with a non-zero
      status (`CalledProcessError(return_code, args)`: neither output nor stderr was captured). */
  function ExitEvent<J>(cmd: seq<string>, returnCode: int): seq<Reply<J>> {
    if returnCode != 0 then [Reply(None, Some(ProcessFailed(CalledProcessError(returnCode, cmd, None, None))))] else []
  }

  /** Everything `_run_updates` yields for a child that prints `lines` and exits
      with `returnCode`. */
  function UpdateEvents<J>(decode: string -> Option<J>, cmd: seq<string>, lines: seq<string>, returnCode: int): (r: seq<Reply<J>>)
    ensures forall k :: 0 <= k < |r| ==> (r[k].value.Some? <==> r[k].error == None)
    ensures (forall k :: 0 <= k < |r| ==> r[k].error == None) <==> returnCode == 0
  {
    var r := Yields(Frames(decode, "", lines).0) + ExitEvent(cmd, returnCode);
    assert returnCode != 0 ==> r[|r| - 1] == ExitEvent<J>(cmd, returnCode)[0];
    r
  }

  /** The yielded documents followed by the leftover buffer are exactly the
      starting buffer followed by every line read: the loop drops nothing,
      duplicates nothing and keeps the order. */
  lemma {:induction false} FramesConserve<J>(decode: string -> Option<J>, buffer: string, lines: seq<string>)
    ensures Concat(Docs(Frames(decode, buffer, lines).0)) + Frames(decode, buffer, lines).1 == buffer + Concat(lines)
    decreases |lines|
  {
    if lines != [] {
      var b := buffer + lines[0];
      assert buffer + Concat(lines) == b + Concat(lines[1..]);
      match decode(b)
      case Some(v) =>
        FramesConserve(decode, "", lines[1..]);
        var rest := Frames(decode, "", lines[1..]);
        assert Docs([Frame(b, v)] + rest.0) == [b] + Docs(rest.0) by {
          assert ([Frame(b, v)] + rest.0)[1..] == rest.0;
        }
        assert "" + Concat(lines[1..]) == Concat(lines[1..]);
      case None =>
        FramesConserve(decode, b, lines[1..]);
    }
  }

  /** After at least one line the leftover buffer is empty (the last attempt
      decoded) or does not decode: an undecodable tail is never yielded. */
  lemma {:induction false} FramesLeftover<J>(decode: string -> Option<J>, buffer: string, lines: seq<string>)
    requires lines != []
    ensures Frames(decode, buffer, lines).1 == "" || decode(Frames(decode, buffer, lines).1) == None
    decreases |lines|
  {
    if |lines| > 1 {
      var b := buffer + lines[0];
      if decode(b).Some? {
        FramesLeftover(decode, "", lines[1..]);
      } else {
        FramesLeftover(decode, b, lines[1..]);
      }
    }
  }

  /** When every line is a complete document on its own, each line is one
      event, in order, and nothing is left over. */
  lemma {:induction false} FramesOnePerLine<J>(decode: string -> Option<J>, lines: seq<string>)
    requires forall k :: 0 <= k < |lines| ==> decode(lines[k]).Some?
    ensures |Frames(decode, "", lines).0| == |lines|
    ensures forall k :: 0 <= k < |lines| ==> Frames(decode, "", lines).0[k] == Frame(lines[k], decode(lines[k]).value)
    ensures Frames(decode, "", lines).1 == ""
    decreases |lines|
  {
    if lines != [] {
      assert "" + lines[0] == lines[0];
      FramesOnePerLine(decode, lines[1..]);
      var rest := Frames(decode, "", lines[1..]);
      var fs := Frames(decode, "", lines).0;
      assert fs == [Frame(lines[0], decode(lines[0]).value)] + rest.0;
      forall k | 1 <= k < |lines| ensures fs[k] == Frame(lines[k], decode(lines[k]).value) {
        assert fs[k] == rest.0[k - 1];
        assert lines[k] == lines[1..][k - 1];
      }
    }
  }

  /** The first `k` lines, after the first one, are the first `k - 1` lines of the rest. */
  lemma ConcatPrefix(lines: seq<string>, k: nat)
    requires 1 <= k <= |lines|
    ensures Concat(lines[..k]) == lines[0] + Concat(lines[1..][..k - 1])
  {
    assert lines[..k][1..] == lines[1..][..k - 1];
  }

  /** While no prefix of the lines decodes together with the buffer, nothing is
      yielded and everything stays in the buffer. */
  lemma {:induction false} FramesNone<J>(decode: string -> Option<J>, buffer: string, lines: seq<string>)
    requires forall k :: 1 <= k <= |lines| ==> decode(buffer + Concat(lines[..k])) == None
    ensures Frames(decode, buffer, lines) == ([], buffer + Concat(lines))
    decreases |lines|
  {
    if lines == [] {
      assert buffer + Concat(lines) == buffer;
    } else {
      var b := buffer + lines[0];
      ConcatPrefix(lines, 1);
      assert lines[1..][..0] == [];
      assert b == buffer + Concat(lines[..1]);
      assert decode(b) == None;
      forall k | 1 <= k <= |lines| - 1
        ensures decode(b + Concat(lines[1..][..k])) == None
      {
        ConcatPrefix(lines, k + 1);
        assert lines[1..][..k] == lines[1..][..(k + 1) - 1];
        assert b + Concat(lines[1..][..k]) == buffer + Concat(lines[..k + 1]);
      }
      FramesNone(decode, b, lines[1..]);
      assert buffer + Concat(lines) == b + Concat(lines[1..]);
    }
  }

  /** A document is yielded as soon as the buffer decodes: when the first `n`
      lines are the shortest prefix that decodes together with the buffer, that
      text is the first document, and the loop goes on from an empty buffer. */
  lemma {:induction false} FramesFirst<J>(decode: string -> Option<J>, buffer: string, lines: seq<string>, n: nat)
    requires 1 <= n <= |lines|
    requires decode(buffer + Concat(lines[..n])).Some?
    requires forall k :: 1 <= k < n ==> decode(buffer + Concat(lines[..k])) == None
    ensures var doc := buffer + Concat(lines[..n]);
            var rest := Frames(decode, "", lines[n..]);
            Frames(decode, buffer, lines) == ([Frame(doc, decode(doc).value)] + rest.0, rest.1)
    decreases n
  {
    var b := buffer + lines[0];
    ConcatPrefix(lines, 1);
    assert lines[1..][..0] == [];
    assert b == buffer + Concat(lines[..1]);
    if n > 1 {
      assert decode(b) == None;
      forall k | 1 <= k < n - 1
        ensures decode(b + Concat(lines[1..][..k])) == None
      {
        ConcatPrefix(lines, k + 1);
        assert lines[1..][..k] == lines[1..][..(k + 1) - 1];
        assert b + Concat(lines[1..][..k]) == buffer + Concat(lines[..k + 1]);
      }
      ConcatPrefix(lines, n);
      assert b + Concat(lines[1..][..n - 1]) == buffer + Concat(lines[..n]);
      FramesFirst(decode, b, lines[1..], n - 1);
      assert lines[1..][n - 1..] == lines[n..];
    }
  }

  /** Every event but the last carries a value and no error; a non-zero exit
      status adds exactly one final error event, and status 0 adds none. */
  lemma EventsShape<J>(decode: string -> Option<J>, cmd: seq<string>, lines: seq<string>, returnCode: int)
    ensures var events := UpdateEvents(decode, cmd, lines, returnCode);
            var n := |Frames(decode, "", lines).0|;
            && |events| == n + (if returnCode != 0 then 1 else 0)
            && (forall k :: 0 <= k < n ==> events[k].value.Some? && events[k].error == None)
            && (returnCode != 0 ==> events[n] == Reply(None, Some(ProcessFailed(CalledProcessError(returnCode, cmd, None, None)))))
  {
  }

  // ---------------------------------------------------------------------------
  // The loop itself
  // ---------------------------------------------------------------------------

  /** The body of `_run_updates` between start and close: append each line to
      the buffer, try to decode, and on success yield and reset the buffer. */
  method DecodeLines<J>(lines: seq<string>, decode: string -> Option<J>) returns (events: seq<Reply<J>>, buffer: string)
    ensures events == Yields(Frames(decode, "", lines).0)
    ensures buffer == Frames(decode, "", lines).1
  {
    events := [];
    buffer := "";
    var i := 0;
    while i < |lines|
      invariant 0 <= i <= |lines|
      invariant events + Yields(Frames(decode, buffer, lines[i..]).0) == Yields(Frames(decode, "", lines).0)
      invariant Frames(decode, buffer, lines[i..]).1 == Frames(decode, "", lines).1
    {
      ghost var cur := Frames(decode, buffer, lines[i..]);
      assert lines[i..][0] == lines[i] && lines[i..][1..] == lines[i + 1..];
      buffer := buffer + lines[i];
      var decoded := decode(buffer);
      if decoded.Some? {
        ghost var rest := Frames(decode, "", lines[i + 1..]);
        var r := Reply(Some(decoded.value), None);
        assert cur == ([Frame(buffer, decoded.value)] + rest.0, rest.1);
        YieldsCons(Frame(buffer, decoded.value), rest.0);
        assert (events + [r]) + Yields(rest.0) == events + ([r] + Yields(rest.0));
        events := events + [r];
        buffer := "";
      } else {
        assert cur == Frames(decode, buffer, lines[i + 1..]);
      }
      i := i + 1;
    }
    assert lines[|lines|..] == [];
  }

  // ---------------------------------------------------------------------------
  // The registry of long-lived children: _all_popen and _kill_all_popen
  // ---------------------------------------------------------------------------

  /** A `subprocess.Popen` object; only its identity and its arguments matter here. */
  class Popen {
    const args: seq<string>

    constructor (args: seq<string>)
      ensures this.args == args
    {
      this.args := args;
    }
  }

  /** The list `_all_popen`, and the `kill()` calls made so far, in order. */
  class Registry {
    var procs: seq<Popen>
    var signalled: seq<Popen>

    constructor ()
      ensures procs == [] && signalled == []
    {
      procs := [];
      signalled := [];
    }

    /** `_all_popen.append(p)`. */
    method Append(p: Popen)
      modifies this
      ensures procs == old(procs) + [p]
      ensures signalled == old(signalled)
    {
      procs := procs + [p];
    }

    /** `_all_popen.remove(p)`: the first occurrence goes; `found` is false where
        Python would raise ValueError, and then nothing changes. */
    method Remove(p: Popen) returns (found: bool)
      modifies this
      ensures found <==> p in old(procs)
      ensures found ==> procs == RemoveFirst(old(procs), p)
      ensures !found ==> procs == old(procs)
      ensures signalled == old(signalled)
    {
      found := p in procs;
      if found {
        procs := RemoveFirst(procs, p);
      }
    }

    /** `_kill_all_popen`: `kill()` on every registered child, in list order;
        the list itself is left as it is. */
    method KillAll()
      modifies this
      ensures procs == old(procs)
      ensures signalled == old(signalled) + old(procs)
    {
      var i := 0;
      while i < |procs|
        invariant 0 <= i <= |procs|
        invariant procs == old(procs)
        invariant signalled == old(signalled) + procs[..i]
      {
        signalled := signalled + [procs[i]];
        i := i + 1;
      }
      assert procs[..|procs|] == procs;
    }
  }

  // ---------------------------------------------------------------------------
  // _run_updates
  // ---------------------------------------------------------------------------

  /** The start of `_run_updates(args)`: spawn the child with the arguments
      as strings and append it to `_all_popen`. */
  method StartUpdates(registry: Registry, args: seq<PyValue>) returns (popen: Popen)
    modifies registry
    ensures fresh(popen) && popen.args == StrAll(args)
    ensures registry.procs == old(registry.procs) + [popen]
    ensures registry.signalled == old(registry.signalled)
  {
    popen := new Popen(StrAll(args));
    registry.Append(popen);
  }

  /** The end of `_run_updates` once the output is exhausted: wait, remove the
      child from `_all_popen`, and yield the exit error when the status is not 0.
      A child missing from the list makes `remove` raise ValueError, and then
      nothing more is yielded. */
  method FinishUpdates<J>(registry: Registry, popen: Popen, returnCode: int) returns (tail: Raising<seq<Reply<J>>>)
    modifies registry
    ensures popen in old(registry.procs) ==>
              registry.procs == RemoveFirst(old(registry.procs), popen) && tail == Return(ExitEvent(popen.args, returnCode))
    ensures popen !in old(registry.procs) ==> registry.procs == old(registry.procs) && tail == Raise(ValueError)
    ensures registry.signalled == old(registry.signalled)
  {
    var found := registry.Remove(popen);
    if !found {
      return Raise(ValueError);
    }
    var events := [];
    if returnCode != 0 {
      events := [Reply(None, Some(ProcessFailed(CalledProcessError(returnCode, popen.args, None, None))))];
    }
    tail := Return(events);
  }

  /** `_run_updates(args)`, consumed to the end, for a child that writes `output`
      and exits with `returnCode`: StartUpdates registers the child, DecodeLines
      reads its output, and FinishUpdates deregisters it, so the registry ends as
      it began. The events are the decoded documents and, after a non-zero exit,
      one final error. */
  method RunUpdates<J>(registry: Registry, args: seq<PyValue>, output: string, returnCode: int, decode: string -> Option<J>)
    returns (events: seq<Reply<J>>, popen: Popen)
    modifies registry
    ensures fresh(popen) && popen.args == StrAll(args)
    ensures registry.procs == old(registry.procs) && popen !in registry.procs
    ensures registry.signalled == old(registry.signalled)
    ensures events == UpdateEvents(decode, StrAll(args), ReadLines(output), returnCode)
  {
    popen := StartUpdates(registry, args);
    var buffer;
    events, buffer := DecodeLines(ReadLines(output), decode);
    RemoveFirstAppended(old(registry.procs), popen);
    var tail := FinishUpdates(registry, popen, returnCode);
    events := events + tail.value;
  }
}
