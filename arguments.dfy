/**
  The script's option loop (rspamc.js lines 21-36). Each argument it examines
  loses its leading dashes in place; `d`/`dest` and `p`/`port` then take the
  next argument as their value, and that value is skipped over, never examined
  as an option. Reading past the last argument yields `undefined`.
 */
module Arguments {
  import opened JsValues

  /** The settings the loop updates: `address` and `tcp_port`. */
  datatype Options = Options(address: JsString, port: JsNumber)

  const DefaultAddress := "127.0.0.1"
  const DefaultPort := 11333

  const Defaults := Options(Text(DefaultAddress), Finite(DefaultPort))

  /** The loop's whole state: the array, the index and the settings. */
  datatype ArgState = ArgState(argv: seq<string>, index: nat, options: Options)

  /** `s` with every leading '-' removed. */
  function StripDashes(s: string): (r: string)
    ensures r == [] || r[0] != '-'
  {
    if |s| > 0 && s[0] == '-' then StripDashes(s[1..]) else s
  }

  function Dashes(n: nat): (s: string)
    ensures |s| == n && forall k :: 0 <= k < n ==> s[k] == '-'
  {
    if n == 0 then "" else "-" + Dashes(n - 1)
  }

  predicate IsDest(opt: string) { opt == "d" || opt == "dest" }

  predicate IsPort(opt: string) { opt == "p" || opt == "port" }

  /** `argv[i]`, which is `undefined` past the end. */
  function ArgAt(argv: seq<string>, i: nat): JsString
  {
    if i < |argv| then Text(argv[i]) else Undefined
  }

  /** The loop run from index `i` on the array contents `argv` with settings `o`. */
  function ProcessFrom(argv: seq<string>, i: nat, o: Options): (r: ArgState)
    requires i <= |argv| + 1
    ensures |r.argv| == |argv|
    decreases |argv| + 1 - i
  {
    if i >= |argv| then ArgState(argv, i, o)
    else
      var opt := StripDashes(argv[i]);
      var stripped := argv[i := opt];
      if IsDest(opt) then ProcessFrom(stripped, i + 2, o.(address := ArgAt(stripped, i + 1)))
      else if IsPort(opt) then ProcessFrom(stripped, i + 2, o.(port := ToNumber(ArgAt(stripped, i + 1))))
      else ProcessFrom(stripped, i + 1, o)
  }

  /** The settings the script ends up with for the argument list `args`. */
  function ParseArgs(args: seq<string>): Options
  {
    ProcessFrom(args, 0, Defaults).options
  }

  /** The argument loop itself, on the argument array it edits in place. */
  method ParseArguments(argv: array<string>) returns (address: JsString, tcpPort: JsNumber)
    modifies argv
    ensures argv[..] == ProcessFrom(old(argv[..]), 0, Defaults).argv
    ensures Options(address, tcpPort) == ParseArgs(old(argv[..]))
  {
    ghost var goal := ProcessFrom(argv[..], 0, Defaults);
    address, tcpPort := Text(DefaultAddress), Finite(DefaultPort);
    var i := 0;
    while i < argv.Length
      invariant 0 <= i <= argv.Length + 1
      invariant ProcessFrom(argv[..], i, Options(address, tcpPort)) == goal
      decreases argv.Length + 1 - i
    {
      ghost var before := argv[..];
      // Strip any prepended dashes
      while |argv[i]| > 0 && argv[i][0] == '-'
        invariant argv[..] == before[i := argv[i]]
        invariant StripDashes(argv[i]) == StripDashes(before[i])
        decreases |argv[i]|
      {
        argv[i] := argv[i][1..];
      }
      ghost var opt := StripDashes(before[i]);
      assert argv[i] == opt;
      ghost var o := Options(address, tcpPort);
      assert ProcessFrom(before, i, o) == goal;
      if argv[i] == "d" || argv[i] == "dest" {
        i := i + 1;
        address := if i < argv.Length then Text(argv[i]) else Undefined;
        assert Options(address, tcpPort) == o.(address := ArgAt(argv[..], i));
      } else if argv[i] == "p" || argv[i] == "port" {
        i := i + 1;
        tcpPort := ToNumber(if i < argv.Length then Text(argv[i]) else Undefined);
        assert Options(address, tcpPort) == o.(port := ToNumber(ArgAt(argv[..], i)));
      }
      i := i + 1;
    }
  }

  // ---------------------------------------------------------------------------
  // Properties of the loop

  /** Leading dashes are ignored: `d`, `-d` and `--d` are the same option. */
  lemma {:induction false} DashesIgnored(n: nat, s: string)
    ensures StripDashes(Dashes(n) + s) == StripDashes(s)
  {
    if n > 0 {
      assert (Dashes(n) + s)[1..] == Dashes(n - 1) + s;
      DashesIgnored(n - 1, s);
    } else {
      assert Dashes(n) + s == s;
    }
  }

  /** Stripping removes a run of leading dashes and nothing else. */
  lemma {:induction false} StripDashesShape(s: string)
    ensures |StripDashes(s)| <= |s|
    ensures s == Dashes(|s| - |StripDashes(s)|) + StripDashes(s)
  {
    if |s| > 0 && s[0] == '-' {
      StripDashesShape(s[1..]);
      assert s == [s[0]] + s[1..];
    }
  }

  /** The loop always stops at the end of the array or one past it. */
  lemma {:induction false} ProcessBounds(argv: seq<string>, i: nat, o: Options)
    requires i <= |argv| + 1
    ensures i <= |argv| ==> |argv| <= ProcessFrom(argv, i, o).index <= |argv| + 1
    decreases |argv| + 1 - i
  {
    if i < |argv| {
      var opt := StripDashes(argv[i]);
      var stripped := argv[i := opt];
      if IsDest(opt) {
        ProcessBounds(stripped, i + 2, o.(address := ArgAt(stripped, i + 1)));
      } else if IsPort(opt) {
        ProcessBounds(stripped, i + 2, o.(port := ToNumber(ArgAt(stripped, i + 1))));
      } else {
        ProcessBounds(stripped, i + 1, o);
      }
    }
  }

  /** Updating an element of `x + q` that lies in `q`. */
  lemma UpdateRight(x: seq<string>, q: seq<string>, j: nat, v: string)
    requires j < |q|
    ensures (x + q)[|x| + j := v] == x + q[j := v]
  {
    var a, b := (x + q)[|x| + j := v], x + q[j := v];
    assert forall k :: 0 <= k < |a| ==> a[k] == b[k];
  }

  /** Updating an element of `x + q` that lies in `x`. */
  lemma UpdateLeft(x: seq<string>, q: seq<string>, i: nat, v: string)
    requires i < |x|
    ensures (x + q)[i := v] == x[i := v] + q
  {
    var a, b := (x + q)[i := v], x[i := v] + q;
    assert forall k :: 0 <= k < |a| ==> a[k] == b[k];
  }

  /** Running the loop over `x + q` from inside `q` is running it over `q` alone. */
  lemma {:induction false} ProcessShift(x: seq<string>, q: seq<string>, j: nat, o: Options)
    requires j <= |q| + 1
    ensures var r := ProcessFrom(q, j, o);
      ProcessFrom(x + q, |x| + j, o) == ArgState(x + r.argv, |x| + r.index, r.options)
    decreases |q| + 1 - j
  {
    if j < |q| {
      var opt := StripDashes(q[j]);
      var stripped := q[j := opt];
      assert (x + q)[|x| + j] == q[j];
      UpdateRight(x, q, j, opt);
      assert ArgAt(x + stripped, |x| + j + 1) == ArgAt(stripped, j + 1);
      if IsDest(opt) {
        ProcessShift(x, stripped, j + 2, o.(address := ArgAt(stripped, j + 1)));
      } else if IsPort(opt) {
        ProcessShift(x, stripped, j + 2, o.(port := ToNumber(ArgAt(stripped, j + 1))));
      } else {
        ProcessShift(x, stripped, j + 1, o);
      }
    }
  }

  /** If the loop finishes `x` exactly at its end (no option is left waiting for
      its value), then running it over `x + q` is running it over `x` and then
      over `q`, starting from the settings `x` left. */
  lemma {:induction false} ProcessAppend(x: seq<string>, q: seq<string>, i: nat, o: Options)
    requires i <= |x| && ProcessFrom(x, i, o).index == |x|
    ensures var p := ProcessFrom(x, i, o);
      var r := ProcessFrom(q, 0, p.options);
      ProcessFrom(x + q, i, o) == ArgState(p.argv + r.argv, |x| + r.index, r.options)
    decreases |x| - i
  {
    if i == |x| {
      ProcessShift(x, q, 0, o);
      assert x + q == x + q;
    } else {
      var opt := StripDashes(x[i]);
      var stripped := x[i := opt];
      assert (x + q)[i] == x[i];
      UpdateLeft(x, q, i, opt);
      if IsDest(opt) || IsPort(opt) {
        assert ArgAt(stripped + q, i + 1) == ArgAt(stripped, i + 1);
        if IsDest(opt) {
          ProcessAppend(stripped, q, i + 2, o.(address := ArgAt(stripped, i + 1)));
        } else {
          ProcessAppend(stripped, q, i + 2, o.(port := ToNumber(ArgAt(stripped, i + 1))));
        }
      } else {
        ProcessAppend(stripped, q, i + 1, o);
      }
    }
  }

  /** The arguments `p` leave no option waiting for its value. */
  predicate Consumed(p: seq<string>)
  {
    ProcessFrom(p, 0, Defaults).index == |p|
  }

  /** The settings an option with value `v` produces from `o`. */
  function Apply(o: Options, opt: string, v: JsString): Options
  {
    if IsDest(StripDashes(opt)) then o.(address := v)
    else if IsPort(StripDashes(opt)) then o.(port := ToNumber(v))
    else o
  }

  /** An option takes the argument after it as its value: that value is left
      as it is in the array and never examined as an option, and the loop
      carries on with the arguments after it. */
  lemma OptionTakesNextArgument(p: seq<string>, opt: string, v: string, q: seq<string>)
    requires Consumed(p)
    requires IsDest(StripDashes(opt)) || IsPort(StripDashes(opt))
    ensures ParseArgs(p + [opt, v] + q)
      == ProcessFrom(q, 0, Apply(ParseArgs(p), opt, Text(v))).options
    ensures ProcessFrom(p + [opt, v] + q, 0, Defaults).argv[|p| + 1] == v
  {
    var P := ProcessFrom(p, 0, Defaults);
    var rest := [opt, v] + q;
    assert p + [opt, v] + q == p + rest;
    ProcessAppend(p, rest, 0, Defaults);
    ProcessBounds(p, 0, Defaults);
    var stripped := rest[0 := StripDashes(opt)];
    var o' := Apply(P.options, opt, Text(v));
    assert stripped == [StripDashes(opt), v] + q;
    assert ArgAt(stripped, 1) == Text(v);
    assert ProcessFrom(rest, 0, P.options) == ProcessFrom(stripped, 2, o');
    ProcessShift([StripDashes(opt), v], q, 0, o');
    assert [StripDashes(opt), v] + q == stripped;
  }

  /** A later occurrence of an option overrides an earlier one. */
  lemma LastOptionWins(p: seq<string>, opt: string, v: string)
    requires Consumed(p)
    requires IsDest(StripDashes(opt)) || IsPort(StripDashes(opt))
    ensures IsDest(StripDashes(opt)) ==> ParseArgs(p + [opt, v]) == ParseArgs(p).(address := Text(v))
    ensures IsPort(StripDashes(opt)) ==> ParseArgs(p + [opt, v]) == ParseArgs(p).(port := ToNumber(Text(v)))
  {
    OptionTakesNextArgument(p, opt, v, []);
    assert p + [opt, v] + [] == p + [opt, v];
  }

  /** An option given as the last argument reads its value past the end of
      `argv`: the address becomes `undefined`, the port NaN. */
  lemma DanglingOption(p: seq<string>, opt: string)
    requires Consumed(p)
    requires IsDest(StripDashes(opt)) || IsPort(StripDashes(opt))
    ensures ParseArgs(p + [opt]) == Apply(ParseArgs(p), opt, Undefined)
    ensures IsDest(StripDashes(opt)) ==> ParseArgs(p + [opt]).address == Undefined
    ensures IsPort(StripDashes(opt)) ==> ParseArgs(p + [opt]).port == NaN
  {
    var P := ProcessFrom(p, 0, Defaults);
    ProcessAppend(p, [opt], 0, Defaults);
    ProcessBounds(p, 0, Defaults);
    var stripped := [opt][0 := StripDashes(opt)];
    assert ArgAt(stripped, 1) == Undefined;
  }

  /** Arguments that are not options, from index `i` on, change no setting. */
  lemma {:induction false} NoOptionsFrom(argv: seq<string>, i: nat, o: Options)
    requires i <= |argv| + 1
    requires forall k :: i <= k < |argv| ==> !IsDest(StripDashes(argv[k])) && !IsPort(StripDashes(argv[k]))
    ensures ProcessFrom(argv, i, o).options == o
    decreases |argv| + 1 - i
  {
    if i < |argv| {
      var stripped := argv[i := StripDashes(argv[i])];
      assert forall k :: i + 1 <= k < |stripped| ==> stripped[k] == argv[k];
      NoOptionsFrom(stripped, i + 1, o);
    }
  }

  /** Without a `d`/`dest` or `p`/`port` argument (in particular with no
      arguments at all) the destination is 127.0.0.1 and the port 11333. */
  lemma DefaultsWithoutOptions(args: seq<string>)
    requires forall k :: 0 <= k < |args| ==> !IsDest(StripDashes(args[k])) && !IsPort(StripDashes(args[k]))
    ensures ParseArgs(args) == Options(Text("127.0.0.1"), Finite(11333))
  {
    NoOptionsFrom(args, 0, Defaults);
  }

  /** An argument that is not an option can be removed without changing the settings. */
  lemma UnrecognisedIgnored(p: seq<string>, x: string, q: seq<string>)
    requires Consumed(p)
    requires !IsDest(StripDashes(x)) && !IsPort(StripDashes(x))
    ensures ParseArgs(p + [x] + q) == ParseArgs(p + q)
  {
    var P := ProcessFrom(p, 0, Defaults);
    ProcessAppend(p, [x] + q, 0, Defaults);
    ProcessAppend(p, q, 0, Defaults);
    assert p + [x] + q == p + ([x] + q);
    var stripped := ([x] + q)[0 := StripDashes(x)];
    assert stripped == [StripDashes(x)] + q;
    ProcessShift([StripDashes(x)], q, 0, P.options);
  }

  /** A single option followed by its value. */
  lemma SingleOption(opt: string, v: string)
    requires IsDest(StripDashes(opt)) || IsPort(StripDashes(opt))
    ensures ParseArgs([opt, v]) == Apply(Defaults, opt, Text(v))
  {
    assert Consumed([]);
    OptionTakesNextArgument([], opt, v, []);
    assert [] + [opt, v] + [] == [opt, v];
  }

  /** `d`, `-d`, `--d`, `dest`, `-dest`, `--dest` ... all set the address, and
      `p`, `-p`, `port`, `--port` ... all set the port. */
  lemma OptionSpellings(n: nat, v: string)
    ensures ParseArgs([Dashes(n) + "d", v]) == Options(Text(v), Finite(11333))
    ensures ParseArgs([Dashes(n) + "dest", v]) == Options(Text(v), Finite(11333))
    ensures ParseArgs([Dashes(n) + "p", v]) == Options(Text("127.0.0.1"), ToNumber(Text(v)))
    ensures ParseArgs([Dashes(n) + "port", v]) == Options(Text("127.0.0.1"), ToNumber(Text(v)))
  {
    assert StripDashes("d") == "d" && StripDashes("dest") == "dest";
    assert StripDashes("p") == "p" && StripDashes("port") == "port";
    DashesIgnored(n, "d");
    SingleOption(Dashes(n) + "d", v);
    DashesIgnored(n, "dest");
    SingleOption(Dashes(n) + "dest", v);
    DashesIgnored(n, "p");
    SingleOption(Dashes(n) + "p", v);
    DashesIgnored(n, "port");
    SingleOption(Dashes(n) + "port", v);
  }
}
