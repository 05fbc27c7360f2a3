/** `media_player_info` of termux_api.py: the "Key: value" lines that
    `termux-media-player info` prints, read into a dictionary. */
module MediaInfo {
  import opened Builtins
  import opened Interpreters

  /** The dictionary it returns; `{"Track": None}` is the one entry with a None value. */
  type Info = map<string, Option<string>>

  const NoTrack: string := "No track currently"

  /** Whether ": " starts at index `j` of `s`. */
  predicate ColonSpaceAt(s: string, j: int) {
    0 <= j < |s| - 1 && s[j] == ':' && s[j + 1] == ' '
  }

  /** `s` holds no ": " at all. */
  predicate NoColonSpace(s: string) {
    forall j :: 0 <= j < |s| ==> !ColonSpaceAt(s, j)
  }

  /** A line that `dict()` rejects: it passes the `":" in line` filter but does
      not split into two pieces. */
  predicate Malformed(line: string) {
    ':' in line && NoColonSpace(line)
  }

  /** The first index at which ": " occurs in `s`, searching from `from`. */
  function FindColonSpace(s: string, from: nat): (r: Option<nat>)
    requires from <= |s|
    ensures r.Some? ==> from <= r.value && ColonSpaceAt(s, r.value)
    ensures forall j :: from <= j && (r.None? || j < r.value) ==> !ColonSpaceAt(s, j)
    decreases |s| - from
  {
    if from + 1 >= |s| then None
    else if s[from] == ':' && s[from + 1] == ' ' then Some(from)
    else FindColonSpace(s, from + 1)
  }

  /** `line.split(": ", maxsplit=1)`: two pieces around the first ": ", or the
      whole line alone when there is none. */
  function SplitOnce(line: string): (parts: seq<string>)
    ensures 1 <= |parts| <= 2
    ensures |parts| == 2 <==> exists j :: ColonSpaceAt(line, j)
    ensures |parts| != 2 <==> NoColonSpace(line)
    ensures |parts| == 1 ==> parts == [line]
    ensures |parts| == 2 ==> line == parts[0] + ": " + parts[1]
    ensures |parts| == 2 ==> forall j :: 0 <= j < |parts[0]| ==> !ColonSpaceAt(line, j)
  {
    match FindColonSpace(line, 0)
    case Some(i) =>
      assert line == line[..i] + ": " + line[i + 2..];
      [line[..i], line[i + 2..]]
    case None => [line]
  }

  /** The lines that hold a ':' somewhere, in order (KeptAppend and KeptSingle:
      a filter that keeps the order). */
  function Kept(lines: seq<string>): (r: seq<string>)
    ensures forall k :: 0 <= k < |r| ==> ':' in r[k]
    ensures forall k :: 0 <= k < |lines| && ':' in lines[k] ==> lines[k] in r
    ensures forall k :: 0 <= k < |r| ==> r[k] in lines
  {
    if lines == [] then []
    else
      var rest := Kept(lines[1..]);
      assert forall k :: 1 <= k < |lines| ==> lines[k] == lines[1..][k - 1];
      if ':' in lines[0] then [lines[0]] + rest else rest
  }

  /** `dict(items)`: every item must have exactly two elements (ValueError
      otherwise); a later key overwrites an earlier one. */
  function ToDict(items: seq<seq<string>>): (r: Raising<Info>)
    ensures r.Raise? ==> r.exc == ValueError
    ensures r.Raise? <==> exists k :: 0 <= k < |items| && |items[k]| != 2
  {
    if items == [] then Return(map[])
    else
      var init := items[..|items| - 1];
      var last := items[|items| - 1];
      assert forall k :: 0 <= k < |init| ==> init[k] == items[k];
      match ToDict(init)
      case Raise(e) => Raise(e)
      case Return(d) => if |last| == 2 then Return(d[last[0] := Some(last[1])]) else Raise(ValueError)
  }

  /** The pieces of every kept line. */
  function SplitAll(lines: seq<string>): (r: seq<seq<string>>)
    ensures |r| == |lines| && forall k :: 0 <= k < |lines| ==> r[k] == SplitOnce(lines[k])
  {
    if lines == [] then [] else [SplitOnce(lines[0])] + SplitAll(lines[1..])
  }

  /** What `media_player_info` makes of the text the tool printed. */
  function ParseInfo(res: string): (r: Raising<Info>)
    ensures NoTrack <= res ==> r == Return(map["Track" := None])
  {
    if NoTrack <= res then Return(map["Track" := None])
    else ToDict(SplitAll(Kept(Split(res, '\n'))))
  }

  /** `media_player_info()`: the runner's error passed on, or the dictionary; the
      dict() call itself raises ValueError on a line with ':' but no ": ". */
  function MediaPlayerInfo(o: RunOutcome): (r: Raising<Reply<Info>>)
    ensures o.Failed? ==> r == Return(Propagated(o.err))
    ensures o.Completed? && r.Return? ==> r.value.error == None && r.value.value.Some?
  {
    match o
    case Failed(e) => Return(Propagated(e))
    case Completed(res) =>
      match ParseInfo(res)
      case Raise(e) => Raise(e)
      case Return(d) => Return(Reply(Some(d), None))
  }

  // ---------------------------------------------------------------------------
  // Properties
  // ---------------------------------------------------------------------------

  /** The call raises exactly when the text is not the "no track" reply and one
      of its lines holds a ':' that is never followed by a space. */
  lemma ParseInfoRaisesIff(res: string)
    ensures ParseInfo(res).Raise? ==>
              !(NoTrack <= res) && exists k :: 0 <= k < |Split(res, '\n')| && Malformed(Split(res, '\n')[k])
    ensures (!(NoTrack <= res) && exists k :: 0 <= k < |Split(res, '\n')| && Malformed(Split(res, '\n')[k])) ==>
              ParseInfo(res).Raise?
  {
    if !(NoTrack <= res) {
      var lines := Split(res, '\n');
      var kept := Kept(lines);
      var items := SplitAll(kept);
      assert ParseInfo(res) == ToDict(items);
      assert (exists k :: 0 <= k < |items| && |items[k]| != 2)
         <==> (exists k :: 0 <= k < |kept| && |SplitOnce(kept[k])| != 2);
      KeptMalformed(lines);
    }
  }

  /** Some kept line fails to split in two exactly when some line is malformed. */
  lemma KeptMalformed(lines: seq<string>)
    ensures (exists k :: 0 <= k < |Kept(lines)| && |SplitOnce(Kept(lines)[k])| != 2)
        <==> (exists k :: 0 <= k < |lines| && Malformed(lines[k]))
  {
    var kept := Kept(lines);
    if exists k :: 0 <= k < |kept| && |SplitOnce(kept[k])| != 2 {
      var k :| 0 <= k < |kept| && |SplitOnce(kept[k])| != 2;
      assert kept[k] in lines;
      var j :| 0 <= j < |lines| && lines[j] == kept[k];
      assert 0 <= j < |lines| && Malformed(lines[j]);
    }
    if exists k :: 0 <= k < |lines| && Malformed(lines[k]) {
      var k :| 0 <= k < |lines| && Malformed(lines[k]);
      assert lines[k] in kept;
      var j :| 0 <= j < |kept| && kept[j] == lines[k];
      assert 0 <= j < |Kept(lines)| && |SplitOnce(Kept(lines)[j])| != 2;
    }
  }

  /** The "Key: value" text for a list of entries, one per line. */
  function EntryLines(entries: seq<(string, string)>): (r: seq<string>)
    ensures |r| == |entries| && forall k :: 0 <= k < |entries| ==> r[k] == entries[k].0 + ": " + entries[k].1
  {
    if entries == [] then [] else [entries[0].0 + ": " + entries[0].1] + EntryLines(entries[1..])
  }

  function Render(entries: seq<(string, string)>): string {
    Join(EntryLines(entries), '\n')
  }

  /** The dictionary of a list of entries, a later key overwriting an earlier one. */
  function DictOf(entries: seq<(string, string)>): Info {
    if entries == [] then map[]
    else
      var last := entries[|entries| - 1];
      DictOf(entries[..|entries| - 1])[last.0 := Some(last.1)]
  }

  /** An entry whose key holds no ": " and which holds no newline prints as one line. */
  predicate Printable(e: (string, string)) {
    && (forall j :: 0 <= j < |e.0| ==> !ColonSpaceAt(e.0, j))
    && '\n' !in e.0 && '\n' !in e.1
  }

  lemma SplitOnceEntry(e: (string, string))
    requires Printable(e)
    ensures SplitOnce(e.0 + ": " + e.1) == [e.0, e.1]
  {
    var line := e.0 + ": " + e.1;
    assert ColonSpaceAt(line, |e.0|);
    forall j | 0 <= j < |e.0| ensures !ColonSpaceAt(line, j) {
      if j + 1 < |e.0| {
        assert line[j] == e.0[j] && line[j + 1] == e.0[j + 1];
        assert !ColonSpaceAt(e.0, j);
      } else {
        assert line[j + 1] == ':';
      }
    }
    var i := FindColonSpace(line, 0).value;
    assert line[..i] == e.0;
    assert line[i + 2..] == e.1;
  }

  lemma {:induction false} ToDictOfEntries(entries: seq<(string, string)>)
    requires forall k :: 0 <= k < |entries| ==> Printable(entries[k])
    ensures ToDict(SplitAll(EntryLines(entries))) == Return(DictOf(entries))
  {
    if entries != [] {
      var n := |entries|;
      var init := entries[..n - 1];
      var last := entries[n - 1];
      var items := SplitAll(EntryLines(entries));
      var initItems := SplitAll(EntryLines(init));
      forall k | 0 <= k < n - 1 ensures items[..n - 1][k] == initItems[k] {
        assert init[k] == entries[k];
      }
      assert items[..n - 1] == initItems;
      SplitOnceEntry(last);
      assert items[n - 1] == [last.0, last.1];
      ToDictOfEntries(init);
      assert DictOf(entries) == DictOf(init)[last.0 := Some(last.1)];
    }
  }

  lemma EntryLineShape(e: (string, string))
    requires Printable(e)
    ensures '\n' !in e.0 + ": " + e.1 && ':' in e.0 + ": " + e.1
  {
    assert (e.0 + ": " + e.1)[|e.0|] == ':';
  }

  /** The kept lines of a rendered list of entries are its entry lines. */
  lemma RenderedLines(entries: seq<(string, string)>)
    requires forall k :: 0 <= k < |entries| ==> Printable(entries[k])
    ensures Kept(Split(Render(entries), '\n')) == EntryLines(entries)
  {
    var lines := EntryLines(entries);
    if entries == [] {
      assert Split(Render(entries), '\n') == [""];
    } else {
      forall k | 0 <= k < |lines| ensures '\n' !in lines[k] && ':' in lines[k] {
        EntryLineShape(entries[k]);
      }
      SplitJoin(lines, '\n');
      KeptAll(lines);
    }
  }

  /** Reading back what the tool prints: text made of "Key: value" lines gives
      the dictionary of those entries, whenever it is not the "no track" reply. */
  lemma InfoRoundTrip(entries: seq<(string, string)>)
    requires forall k :: 0 <= k < |entries| ==> Printable(entries[k])
    requires !(NoTrack <= Render(entries))
    ensures MediaPlayerInfo(Completed(Render(entries))) == Return(Reply(Some(DictOf(entries)), None))
  {
    RenderedLines(entries);
    ToDictOfEntries(entries);
  }

  /** Filtering a concatenation filters each part. */
  lemma {:induction false} KeptAppend(a: seq<string>, b: seq<string>)
    ensures Kept(a + b) == Kept(a) + Kept(b)
  {
    if a != [] {
      var pre := if ':' in a[0] then [a[0]] else [];
      assert a + b == [a[0]] + (a[1..] + b);
      KeptCons(a[0], a[1..] + b);
      assert a == [a[0]] + a[1..];
      KeptCons(a[0], a[1..]);
      KeptAppend(a[1..], b);
      assert pre + (Kept(a[1..]) + Kept(b)) == (pre + Kept(a[1..])) + Kept(b);
    } else {
      assert a + b == b;
    }
  }

  lemma KeptCons(line: string, rest: seq<string>)
    ensures Kept([line] + rest) == (if ':' in line then [line] else []) + Kept(rest)
  {
    assert ([line] + rest)[1..] == rest;
  }

  /** One line is kept exactly when it holds a ':'. */
  lemma KeptSingle(line: string)
    ensures Kept([line]) == if ':' in line then [line] else []
  {
    assert [line][1..] == [];
  }

  /** A lone newline splits into two empty pieces, neither of them kept. */
  lemma NewlineOnlyLines()
    ensures Kept(Split("\n", '\n')) == []
  {
    assert IndexOf("\n", '\n') == 0;
    assert Split("\n", '\n') == ["", ""];
    KeptSingle("");
    KeptAppend([""], [""]);
    assert [""] + [""] == ["", ""];
  }

  /** Lines that each hold a ':' and no newline, joined and ended with a
      newline, are kept as they are. */
  lemma KeptJoinedNewline(lines: seq<string>)
    requires |lines| >= 1
    requires forall k :: 0 <= k < |lines| ==> '\n' !in lines[k] && ':' in lines[k]
    ensures Kept(Split(Join(lines, '\n') + "\n", '\n')) == lines
  {
    var pieces := lines + [""];
    JoinSnoc(lines, "", '\n');
    assert Join(lines, '\n') + "\n" == Join(pieces, '\n');
    assert forall k :: 0 <= k < |pieces| ==> '\n' !in pieces[k];
    SplitJoin(pieces, '\n');
    KeptAppend(lines, [""]);
    KeptSingle("");
    KeptAll(lines);
    assert lines + [] == lines;
  }

  /** The kept lines of a rendered list followed by a newline are its entry lines. */
  lemma RenderedLinesNewline(entries: seq<(string, string)>)
    requires forall k :: 0 <= k < |entries| ==> Printable(entries[k])
    ensures Kept(Split(Render(entries) + "\n", '\n')) == EntryLines(entries)
  {
    var lines := EntryLines(entries);
    if entries == [] {
      assert Render(entries) + "\n" == "\n";
      NewlineOnlyLines();
    } else {
      forall k | 0 <= k < |lines| ensures '\n' !in lines[k] && ':' in lines[k] {
        EntryLineShape(entries[k]);
      }
      KeptJoinedNewline(lines);
    }
  }

  /** The tool's output usually ends with a newline: the empty last piece after
      it holds no ':' and is dropped, so the dictionary is the same. */
  lemma InfoRoundTripNewline(entries: seq<(string, string)>)
    requires forall k :: 0 <= k < |entries| ==> Printable(entries[k])
    requires !(NoTrack <= Render(entries) + "\n")
    ensures MediaPlayerInfo(Completed(Render(entries) + "\n")) == Return(Reply(Some(DictOf(entries)), None))
  {
    RenderedLinesNewline(entries);
    ToDictOfEntries(entries);
  }

  lemma {:induction false} KeptAll(lines: seq<string>)
    requires forall k :: 0 <= k < |lines| ==> ':' in lines[k]
    ensures Kept(lines) == lines
  {
    if lines != [] {
      KeptAll(lines[1..]);
    }
  }
}
