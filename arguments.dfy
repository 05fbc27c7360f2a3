/** The argument builder of termux_api.py: `_construct_args`, which appends to
    the caller's own command list, and `_join_list`, which pre-joins list-valued
    options with commas. */
module Arguments {
  import opened Builtins

  /** A Python dict literal, as its items in insertion order. */
  type Mapping = seq<(string, PyValue)>

  /** A Python list object: a reference, so that appending to it is seen by every alias. */
  class PyList {
    var items: seq<PyValue>

    constructor (items: seq<PyValue>)
      ensures this.items == items
    {
      this.items := items;
    }
  }

  // ---------------------------------------------------------------------------
  // What the builder appends, as functions of its inputs
  // ---------------------------------------------------------------------------

  /** The keys of the truthy flags, in mapping order. */
  function FlagTokens(flags: Mapping): seq<PyValue> {
    if flags == [] then []
    else
      var last := flags[|flags| - 1];
      FlagTokens(flags[..|flags| - 1]) + (if Truthy(last.1) then [PyStr(last.0)] else [])
  }

  /** How many flags are truthy. */
  function TruthyCount(flags: Mapping): nat {
    if flags == [] then 0
    else TruthyCount(flags[..|flags| - 1]) + (if Truthy(flags[|flags| - 1].1) then 1 else 0)
  }

  /** The token that follows an option's key: `True`/`False` become the strings
      "true"/"false"; anything else (0, "", a string) is passed unchanged. */
  function OptionValue(v: PyValue): (t: PyValue)
    requires v != PyNone
    ensures t != PyNone && !t.PyBool?
    ensures v.PyBool? ==> t == PyStr(if v.b then "true" else "false")
    ensures !v.PyBool? ==> t == v
  {
    match v
    case PyBool(b) => if b then PyStr("true") else PyStr("false")
    case _ => v
  }

  /** The key/value token pairs of the options whose value is not None, in mapping order. */
  function OptionTokens(kwargs: Mapping): seq<PyValue> {
    if kwargs == [] then []
    else
      var last := kwargs[|kwargs| - 1];
      OptionTokens(kwargs[..|kwargs| - 1])
        + (if last.1 == PyNone then [] else [PyStr(last.0), OptionValue(last.1)])
  }

  /** How many options have a value other than None. */
  function PresentCount(kwargs: Mapping): nat {
    if kwargs == [] then 0
    else PresentCount(kwargs[..|kwargs| - 1]) + (if kwargs[|kwargs| - 1].1 == PyNone then 0 else 1)
  }

  /** The whole invocation: base command, then flags, then options, then
      positionals; one token per truthy flag and two per option that is not None. */
  function Invocation(command: seq<PyValue>, flags: Mapping, kwargs: Mapping, args: seq<PyValue>): (r: seq<PyValue>)
    ensures |r| == |command| + TruthyCount(flags) + 2 * PresentCount(kwargs) + |args|
    ensures command <= r
    ensures r[|r| - |args|..] == args
  {
    FlagTokensLength(flags);
    OptionTokensLength(kwargs);
    command + FlagTokens(flags) + OptionTokens(kwargs) + args
  }

  // ---------------------------------------------------------------------------
  // _construct_args
  // ---------------------------------------------------------------------------

  /** `_construct_args(command, flags, kwargs, args)`: appends to `command` itself
      (the result is the same list object) the truthy flags, the option pairs and
      the positionals. */
  method ConstructArgs(command: PyList, flags: Mapping, kwargs: Mapping, args: seq<PyValue>)
    returns (res: PyList)
    modifies command
    ensures res == command
    ensures res.items == Invocation(old(command.items), flags, kwargs, args)
  {
    res := command;
    AppendFlags(res, flags);
    AppendOptions(res, kwargs);
    res.items := res.items + args;
  }

  /** The first loop of `_construct_args`: the key of every truthy flag. */
  method AppendFlags(res: PyList, flags: Mapping)
    modifies res
    ensures res.items == old(res.items) + FlagTokens(flags)
  {
    var i := 0;
    while i < |flags|
      invariant 0 <= i <= |flags|
      invariant res.items == old(res.items) + FlagTokens(flags[..i])
    {
      var (k, v) := flags[i];
      FlagTokensSnoc(flags, i);
      if Truthy(v) {
        res.items := res.items + [PyStr(k)];
      }
      i := i + 1;
    }
    assert flags[..|flags|] == flags;
  }

  /** The second loop of `_construct_args`: a None option is skipped, any other
      contributes its key and then its value, with True and False spelled out. */
  method AppendOptions(res: PyList, kwargs: Mapping)
    modifies res
    ensures res.items == old(res.items) + OptionTokens(kwargs)
  {
    var j := 0;
    while j < |kwargs|
      invariant 0 <= j <= |kwargs|
      invariant res.items == old(res.items) + OptionTokens(kwargs[..j])
    {
      var (k, v) := kwargs[j];
      OptionTokensSnoc(kwargs, j);
      if v == PyNone {
        j := j + 1;
        continue;
      }
      ghost var before := res.items;
      res.items := res.items + [PyStr(k)];
      if v == PyBool(true) {
        res.items := res.items + [PyStr("true")];
      } else if v == PyBool(false) {
        res.items := res.items + [PyStr("false")];
      } else {
        res.items := res.items + [v];
      }
      assert res.items == before + [PyStr(k), OptionValue(v)];
      j := j + 1;
    }
    assert kwargs[..|kwargs|] == kwargs;
  }

  lemma FlagTokensSnoc(flags: Mapping, i: nat)
    requires i < |flags|
    ensures FlagTokens(flags[..i + 1])
         == FlagTokens(flags[..i]) + (if Truthy(flags[i].1) then [PyStr(flags[i].0)] else [])
  {
    assert flags[..i + 1][..i] == flags[..i];
  }

  lemma OptionTokensSnoc(kwargs: Mapping, j: nat)
    requires j < |kwargs|
    ensures OptionTokens(kwargs[..j + 1])
         == OptionTokens(kwargs[..j])
            + (if kwargs[j].1 == PyNone then [] else [PyStr(kwargs[j].0), OptionValue(kwargs[j].1)])
  {
    assert kwargs[..j + 1][..j] == kwargs[..j];
  }

  // ---------------------------------------------------------------------------
  // Properties of the flag and option tokens
  // ---------------------------------------------------------------------------

  /** One token per truthy flag and nothing else. */
  lemma {:induction false} FlagTokensLength(flags: Mapping)
    ensures |FlagTokens(flags)| == TruthyCount(flags)
  {
    if flags != [] {
      FlagTokensLength(flags[..|flags| - 1]);
    }
  }

  /** The i-th truthy flag's key stands at the position given by the number of
      truthy flags before it: keys keep their mapping order. */
  lemma {:induction false} FlagTokensAt(flags: Mapping, i: nat)
    requires i < |flags| && Truthy(flags[i].1)
    ensures TruthyCount(flags[..i]) < |FlagTokens(flags)|
    ensures FlagTokens(flags)[TruthyCount(flags[..i])] == PyStr(flags[i].0)
  {
    var n := |flags|;
    var init := flags[..n - 1];
    FlagTokensLength(init);
    if i == n - 1 {
      assert flags[..i] == init;
    } else {
      assert init[..i] == flags[..i];
      FlagTokensAt(init, i);
    }
  }

  /** Every flag token is the key of a truthy flag. */
  lemma {:induction false} FlagTokensFromTruthy(flags: Mapping, t: PyValue)
    requires t in FlagTokens(flags)
    ensures exists i :: 0 <= i < |flags| && Truthy(flags[i].1) && t == PyStr(flags[i].0)
  {
    var n := |flags|;
    var init := flags[..n - 1];
    if t in FlagTokens(init) {
      FlagTokensFromTruthy(init, t);
      var i :| 0 <= i < |init| && Truthy(init[i].1) && t == PyStr(init[i].0);
      assert flags[i] == init[i];
    } else {
      assert Truthy(flags[n - 1].1) && t == PyStr(flags[n - 1].0);
    }
  }

  lemma SingleFlag(kv: (string, PyValue))
    ensures FlagTokens([kv]) == if Truthy(kv.1) then [PyStr(kv.0)] else []
  {
    assert [kv][..0] == [];
  }

  lemma SingleOption(kv: (string, PyValue))
    ensures OptionTokens([kv]) == if kv.1 == PyNone then [] else [PyStr(kv.0), OptionValue(kv.1)]
  {
    assert [kv][..0] == [];
  }

  /** The flag tokens of two mappings side by side are those of each, in order. */
  lemma {:induction false} FlagTokensAppend(f: Mapping, g: Mapping)
    ensures FlagTokens(f + g) == FlagTokens(f) + FlagTokens(g)
  {
    if g != [] {
      var h := g[..|g| - 1];
      assert (f + g)[..|f + g| - 1] == f + h;
      FlagTokensAppend(f, h);
    } else {
      assert f + g == f;
    }
  }

  /** The option tokens of two mappings side by side are those of each, in order. */
  lemma {:induction false} OptionTokensAppend(f: Mapping, g: Mapping)
    ensures OptionTokens(f + g) == OptionTokens(f) + OptionTokens(g)
  {
    if g != [] {
      var h := g[..|g| - 1];
      assert (f + g)[..|f + g| - 1] == f + h;
      OptionTokensAppend(f, h);
    } else {
      assert f + g == f;
    }
  }

  /** Two tokens per option that is not None. */
  lemma {:induction false} OptionTokensLength(kwargs: Mapping)
    ensures |OptionTokens(kwargs)| == 2 * PresentCount(kwargs)
  {
    if kwargs != [] {
      OptionTokensLength(kwargs[..|kwargs| - 1]);
    }
  }

  /** An option that is not None contributes its key and then its rendered value,
      at the position fixed by the options before it. */
  lemma {:induction false} OptionTokensAt(kwargs: Mapping, i: nat)
    requires i < |kwargs| && kwargs[i].1 != PyNone
    ensures 2 * PresentCount(kwargs[..i]) + 1 < |OptionTokens(kwargs)|
    ensures OptionTokens(kwargs)[2 * PresentCount(kwargs[..i])] == PyStr(kwargs[i].0)
    ensures OptionTokens(kwargs)[2 * PresentCount(kwargs[..i]) + 1] == OptionValue(kwargs[i].1)
  {
    var n := |kwargs|;
    var init := kwargs[..n - 1];
    OptionTokensLength(init);
    if i == n - 1 {
      assert kwargs[..i] == init;
    } else {
      assert init[..i] == kwargs[..i];
      OptionTokensAt(init, i);
    }
  }

  /** A None option never shows up: no token is None and no token is a bool. */
  lemma {:induction false} OptionTokensNoNoneNoBool(kwargs: Mapping)
    ensures forall k :: 0 <= k < |OptionTokens(kwargs)| ==>
              OptionTokens(kwargs)[k] != PyNone && !OptionTokens(kwargs)[k].PyBool?
  {
    if kwargs != [] {
      OptionTokensNoNoneNoBool(kwargs[..|kwargs| - 1]);
    }
  }

  /** Options that are all None contribute nothing at all. */
  lemma {:induction false} AllNoneOptionsVanish(kwargs: Mapping)
    requires forall k :: 0 <= k < |kwargs| ==> kwargs[k].1 == PyNone
    ensures OptionTokens(kwargs) == []
  {
    if kwargs != [] {
      AllNoneOptionsVanish(kwargs[..|kwargs| - 1]);
    }
  }

  // ---------------------------------------------------------------------------
  // _join_list
  // ---------------------------------------------------------------------------

  /** `_join_list(lis)`: None stays None; a list becomes the comma-joined `str` of
      its items, so the empty list becomes "" (which is still passed as an option). */
  function JoinList(lis: Option<seq<PyValue>>): (r: PyValue)
    ensures r == PyNone <==> lis.None?
    ensures lis.Some? ==> r.PyStr? && (lis.value == [] ==> r.s == "")
    ensures lis.Some? && |lis.value| == 1 ==> r == PyStr(Str(lis.value[0]))
  {
    match lis
    case None => PyNone
    case Some(xs) => PyStr(Join(StrAll(xs), ','))
  }

  /** Splitting the joined option at commas recovers the `str` of each item,
      when no item's `str` holds a comma. */
  lemma JoinListSplits(xs: seq<PyValue>)
    requires xs != []
    requires forall k :: 0 <= k < |xs| ==> ',' !in Str(xs[k])
    ensures JoinList(Some(xs)).PyStr?
    ensures Split(JoinList(Some(xs)).s, ',') == StrAll(xs)
  {
    SplitJoin(StrAll(xs), ',');
  }

  // ---------------------------------------------------------------------------
  // One capability wrapper, as a worked example
  // ---------------------------------------------------------------------------

  /** The tokens of `dialog_text`'s three flags. */
  lemma DialogTextFlags(multiLine: bool, number: bool, password: bool)
    ensures FlagTokens([("-m", PyBool(multiLine)), ("-n", PyBool(number)), ("-p", PyBool(password))])
         == (if multiLine then [PyStr("-m")] else [])
            + (if number then [PyStr("-n")] else [])
            + (if password then [PyStr("-p")] else [])
  {
    var flags := [("-m", PyBool(multiLine)), ("-n", PyBool(number)), ("-p", PyBool(password))];
    SingleFlag(flags[0]);
    SingleFlag(flags[1]);
    SingleFlag(flags[2]);
    FlagTokensAppend([flags[0]] + [flags[1]], [flags[2]]);
    FlagTokensAppend([flags[0]], [flags[1]]);
    assert flags == [flags[0]] + [flags[1]] + [flags[2]];
  }

  /** The tokens of `dialog_text`'s title and hint options. */
  lemma DialogTextOptions(t: PyValue, h: PyValue)
    ensures OptionTokens([("-t", t), ("-i", h)])
         == (if t == PyNone then [] else [PyStr("-t"), OptionValue(t)])
            + (if h == PyNone then [] else [PyStr("-i"), OptionValue(h)])
  {
    var kwargs := [("-t", t), ("-i", h)];
    SingleOption(kwargs[0]);
    SingleOption(kwargs[1]);
    OptionTokensAppend([kwargs[0]], [kwargs[1]]);
    assert kwargs == [kwargs[0]] + [kwargs[1]];
  }

  /** The invocation `dialog_text` builds: three boolean flags, then the title and
      hint options. */
  method DialogTextArgs(title: Option<string>, hint: Option<string>, multiLine: bool, number: bool, password: bool)
    returns (tokens: seq<PyValue>)
    ensures tokens ==
      [PyStr("termux-dialog"), PyStr("text")]
      + ((if multiLine then [PyStr("-m")] else [])
         + (if number then [PyStr("-n")] else [])
         + (if password then [PyStr("-p")] else []))
      + ((if title.Some? then [PyStr("-t"), PyStr(title.value)] else [])
         + (if hint.Some? then [PyStr("-i"), PyStr(hint.value)] else []))
  {
    var command := new PyList([PyStr("termux-dialog"), PyStr("text")]);
    var t := if title.Some? then PyStr(title.value) else PyNone;
    var h := if hint.Some? then PyStr(hint.value) else PyNone;
    var flags := [("-m", PyBool(multiLine)), ("-n", PyBool(number)), ("-p", PyBool(password))];
    var kwargs := [("-t", t), ("-i", h)];
    var res := ConstructArgs(command, flags, kwargs, []);
    DialogTextFlags(multiLine, number, password);
    DialogTextOptions(t, h);
    tokens := res.items;
  }
}
