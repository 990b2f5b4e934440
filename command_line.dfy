/**
 * `parse_args` of the relay's `main.rs`: the deprecated positional form
 * `audio-proxy <in> <out> [buffer_ms]` and the named form with
 * `--speaker-in`, `--speaker-out`, `--mic-in`, `--mic-out` and `--buffer`.
 * `args[0]` is the program name, as with `std::env::args`.
 */
module CommandLine {
  import opened Wrappers

  /** Default buffer size in milliseconds (`DEFAULT_BUFFER_MS`). */
  const DEFAULT_BUFFER_MS: nat := 10

  const U32_LIMIT: nat := 0x1_0000_0000

  /** The parsed command line (`struct Args`). */
  datatype Args = Args(
    speakerIn: string,
    speakerOut: string,
    micIn: Option<string>,
    micOut: Option<string>,
    bufferMs: nat)

  /**
   * What `parse_args` leads to: the arguments, the usage text and exit code 0
   * for `--help`/`-h`, or an error message.
   */
  datatype ParseOutcome = Parsed(args: Args) | HelpRequested | Failed(message: string)

  predicate StartsWith(s: string, prefix: string) {
    |prefix| <= |s| && s[..|prefix|] == prefix
  }

  // ---------------------------------------------------------------------
  // `str::parse::<u32>`

  predicate IsDigit(c: char) {
    '0' <= c <= '9'
  }

  predicate AllDigits(s: string) {
    forall k :: 0 <= k < |s| ==> IsDigit(s[k])
  }

  /** The value of a string of decimal digits. */
  function DigitsValue(s: string): nat
    requires AllDigits(s)
  {
    if s == [] then 0
    else 10 * DigitsValue(s[..|s| - 1]) + (s[|s| - 1] as int - '0' as int)
  }

  /**
   * Rust's `u32::from_str`: an optional `+`, then at least one ASCII digit,
   * and a value that fits in 32 bits; anything else is an error.
   */
  function ParseU32(s: string): (r: Option<nat>)
    ensures r.Some? ==> r.value < U32_LIMIT
  {
    var digits := if |s| > 0 && s[0] == '+' then s[1..] else s;
    if digits == [] || !AllDigits(digits) then None
    else if DigitsValue(digits) < U32_LIMIT then Some(DigitsValue(digits))
    else None
  }

  /** `s.parse().unwrap_or(DEFAULT_BUFFER_MS)` for the buffer length. */
  function BufferOrDefault(s: string): (ms: nat)
    ensures ParseU32(s).None? ==> ms == DEFAULT_BUFFER_MS
    ensures ParseU32(s).Some? ==> ms == ParseU32(s).value
  {
    ParseU32(s).UnwrapOr(DEFAULT_BUFFER_MS)
  }

  lemma ParseU32Examples()
    ensures ParseU32("10") == Some(10)
    ensures ParseU32("+25") == Some(25)
    ensures ParseU32("") == None && ParseU32("+") == None
    ensures ParseU32("-5") == None && ParseU32("5ms") == None
  {
    assert DigitsValue("10") == 10 by {
      assert "10"[..1] == "1";
      assert DigitsValue("1") == 1 by { assert "1"[..0] == ""; }
    }
    assert "+25"[1..] == "25";
    assert DigitsValue("25") == 25 by {
      assert "25"[..1] == "2";
      assert DigitsValue("2") == 2 by { assert "2"[..0] == ""; }
    }
    assert !AllDigits("-5") by { assert !IsDigit("-5"[0]); }
    assert !AllDigits("5ms") by { assert !IsDigit("5ms"[1]); }
    assert "+"[1..] == "";
  }

  // ---------------------------------------------------------------------
  // The named form, as the loop of `parse_args` walks it

  /** The five `Option`/`u32` locals of the named-argument loop. */
  datatype NamedState = NamedState(
    speakerIn: Option<string>,
    speakerOut: Option<string>,
    micIn: Option<string>,
    micOut: Option<string>,
    bufferMs: nat)

  const INITIAL: NamedState := NamedState(None, None, None, None, DEFAULT_BUFFER_MS)

  /** The flags that take a value. */
  predicate IsSettable(flag: string) {
    flag == "--speaker-in" || flag == "--speaker-out" || flag == "--mic-in" || flag == "--mic-out" || flag == "--buffer"
  }

  predicate IsHelp(flag: string) {
    flag == "--help" || flag == "-h"
  }

  /** `args.get(i).cloned()`. */
  function Get(args: seq<string>, i: nat): (r: Option<string>)
    ensures r.Some? <==> i < |args|
    ensures r.Some? ==> r.value == args[i]
  {
    if i < |args| then Some(args[i]) else None
  }

  /**
   * The effect of one settable flag whose value slot holds `value` (`None`
   * when the flag was the last argument): a string option is overwritten,
   * even with `None`; `--buffer` changes only when a value is there.
   */
  function Assign(st: NamedState, flag: string, value: Option<string>): NamedState
    requires IsSettable(flag)
  {
    if flag == "--speaker-in" then st.(speakerIn := value)
    else if flag == "--speaker-out" then st.(speakerOut := value)
    else if flag == "--mic-in" then st.(micIn := value)
    else if flag == "--mic-out" then st.(micOut := value)
    else if value.Some? then st.(bufferMs := BufferOrDefault(value.value))
    else st
  }

  /** The checks after the loop: both speaker devices are required. */
  function Finish(st: NamedState): (r: ParseOutcome)
    ensures r.Parsed? <==> st.speakerIn.Some? && st.speakerOut.Some?
    ensures r.Parsed? ==> r.args == Args(st.speakerIn.value, st.speakerOut.value, st.micIn, st.micOut, st.bufferMs)
    ensures st.speakerIn.None? ==> r == Failed("Missing required argument: --speaker-in")
    ensures st.speakerIn.Some? && st.speakerOut.None? ==> r == Failed("Missing required argument: --speaker-out")
  {
    if st.speakerIn.None? then Failed("Missing required argument: --speaker-in")
    else if st.speakerOut.None? then Failed("Missing required argument: --speaker-out")
    else Parsed(Args(st.speakerIn.value, st.speakerOut.value, st.micIn, st.micOut, st.bufferMs))
  }

  /** The error messages `parse_args` can produce. */
  predicate IsParseError(message: string) {
    || message == "Missing required argument: --speaker-in"
    || message == "Missing required argument: --speaker-out"
    || StartsWith(message, "Unknown argument: ")
  }

  /**
   * What the named-argument loop yields from index `i` on, with its locals
   * in `st`: the buffer length is the one it started with or a parsed `u32`,
   * and every failure is one of the three error messages.
   */
  function ScanNamed(args: seq<string>, i: nat, st: NamedState): (r: ParseOutcome)
    ensures r.Parsed? ==> r.args.bufferMs == st.bufferMs || r.args.bufferMs < U32_LIMIT
    ensures r.Failed? ==> IsParseError(r.message)
    decreases |args| - i
  {
    if i >= |args| then Finish(st)
    else if IsSettable(args[i]) then ScanNamed(args, i + 2, Assign(st, args[i], Get(args, i + 1)))
    else if IsHelp(args[i]) then HelpRequested
    else
      assert ("Unknown argument: " + args[i])[..|"Unknown argument: "|] == "Unknown argument: ";
      Failed("Unknown argument: " + args[i])
  }

  /** The positional form applies to three or more arguments whose first is not a flag. */
  predicate IsLegacy(args: seq<string>) {
    |args| >= 3 && !StartsWith(args[1], "--")
  }

  /**
   * `parse_args` as a function of the argument vector: the positional form
   * always parses, the buffer length is a `u32`, and every failure is one of
   * the three error messages.
   */
  function ParseArgsSpec(args: seq<string>): (r: ParseOutcome)
    ensures IsLegacy(args) ==> r.Parsed?
    ensures r.Parsed? ==> r.args.bufferMs < U32_LIMIT
    ensures r.Failed? ==> IsParseError(r.message)
  {
    if IsLegacy(args) then
      Parsed(Args(args[1], args[2], None, None,
                  if |args| > 3 then BufferOrDefault(args[3]) else DEFAULT_BUFFER_MS))
    else ScanNamed(args, 1, INITIAL)
  }

  /** `parse_args`, with the argument vector passed in. */
  method ParseArgs(args: seq<string>) returns (r: ParseOutcome)
    ensures r == ParseArgsSpec(args)
  {
    if |args| >= 3 && !StartsWith(args[1], "--") {
      var bufferMs := if 3 < |args| then BufferOrDefault(args[3]) else DEFAULT_BUFFER_MS;
      return Parsed(Args(args[1], args[2], None, None, bufferMs));
    }
    var speakerIn: Option<string> := None;
    var speakerOut: Option<string> := None;
    var micIn: Option<string> := None;
    var micOut: Option<string> := None;
    var bufferMs := DEFAULT_BUFFER_MS;
    var i := 1;
    while i < |args|
      invariant 1 <= i
      invariant ScanNamed(args, i, NamedState(speakerIn, speakerOut, micIn, micOut, bufferMs))
             == ScanNamed(args, 1, INITIAL)
      decreases |args| - i
    {
      var arg := args[i];
      if arg == "--speaker-in" {
        i := i + 1;
        speakerIn := Get(args, i);
      } else if arg == "--speaker-out" {
        i := i + 1;
        speakerOut := Get(args, i);
      } else if arg == "--mic-in" {
        i := i + 1;
        micIn := Get(args, i);
      } else if arg == "--mic-out" {
        i := i + 1;
        micOut := Get(args, i);
      } else if arg == "--buffer" {
        i := i + 1;
        if i < |args| {
          bufferMs := BufferOrDefault(args[i]);
        }
      } else if arg == "--help" || arg == "-h" {
        return HelpRequested;
      } else {
        return Failed("Unknown argument: " + arg);
      }
      i := i + 1;
    }
    if speakerIn.None? {
      return Failed("Missing required argument: --speaker-in");
    }
    if speakerOut.None? {
      return Failed("Missing required argument: --speaker-out");
    }
    r := Parsed(Args(speakerIn.value, speakerOut.value, micIn, micOut, bufferMs));
  }

  // ---------------------------------------------------------------------
  // Properties of the named form

  /** Flag/value pairs laid out one after the other. */
  function Flatten(ps: seq<(string, string)>): (r: seq<string>)
    ensures |r| == 2 * |ps|
  {
    if ps == [] then [] else [ps[0].0, ps[0].1] + Flatten(ps[1..])
  }

  predicate AllSettable(ps: seq<(string, string)>) {
    forall k :: 0 <= k < |ps| ==> IsSettable(ps[k].0)
  }

  /** The locals after the loop has walked the pairs `ps`, from `st`. */
  function AssignAll(st: NamedState, ps: seq<(string, string)>): NamedState
    requires AllSettable(ps)
    decreases ps
  {
    if ps == [] then st else AssignAll(Assign(st, ps[0].0, Some(ps[0].1)), ps[1..])
  }

  /** The value of the last pair for `flag` in `ps`, if there is one. */
  function LastValue(ps: seq<(string, string)>, flag: string): Option<string> {
    if ps == [] then None
    else
      var later := LastValue(ps[1..], flag);
      if later.Some? then later else if ps[0].0 == flag then Some(ps[0].1) else None
  }

  /** Walking complete flag/value pairs is assigning their values in order. */
  lemma {:induction false} ScanPairs(args: seq<string>, i: nat, st: NamedState, ps: seq<(string, string)>)
    requires AllSettable(ps)
    requires i + 2 * |ps| <= |args| && args[i..i + 2 * |ps|] == Flatten(ps)
    ensures ScanNamed(args, i, st) == ScanNamed(args, i + 2 * |ps|, AssignAll(st, ps))
    decreases ps
  {
    if ps != [] {
      assert args[i] == Flatten(ps)[0] && args[i + 1] == Flatten(ps)[1];
      assert IsSettable(ps[0].0);
      assert args[i + 2..i + 2 * |ps|] == Flatten(ps[1..]) by {
        assert args[i + 2..i + 2 * |ps|] == args[i..i + 2 * |ps|][2..];
      }
      assert AllSettable(ps[1..]) by {
        forall k | 0 <= k < |ps| - 1 ensures IsSettable(ps[1..][k].0) {
          assert ps[1..][k] == ps[k + 1];
        }
      }
      ScanPairs(args, i + 2, Assign(st, ps[0].0, Some(ps[0].1)), ps[1..]);
    }
  }

  /** Each value the pairs assign is the last one given for its flag. */
  lemma {:induction false} AssignAllLastValue(st: NamedState, ps: seq<(string, string)>)
    requires AllSettable(ps)
    ensures var end := AssignAll(st, ps);
      && end.speakerIn == (if LastValue(ps, "--speaker-in").Some? then LastValue(ps, "--speaker-in") else st.speakerIn)
      && end.speakerOut == (if LastValue(ps, "--speaker-out").Some? then LastValue(ps, "--speaker-out") else st.speakerOut)
      && end.micIn == (if LastValue(ps, "--mic-in").Some? then LastValue(ps, "--mic-in") else st.micIn)
      && end.micOut == (if LastValue(ps, "--mic-out").Some? then LastValue(ps, "--mic-out") else st.micOut)
      && end.bufferMs == (if LastValue(ps, "--buffer").Some? then BufferOrDefault(LastValue(ps, "--buffer").value) else st.bufferMs)
    decreases ps
  {
    if ps != [] {
      assert AllSettable(ps[1..]) by {
        forall k | 0 <= k < |ps| - 1 ensures IsSettable(ps[1..][k].0) {
          assert ps[1..][k] == ps[k + 1];
        }
      }
      AssignAllLastValue(Assign(st, ps[0].0, Some(ps[0].1)), ps[1..]);
    }
  }

  /** The named form's result from the locals it ends with. */
  function NamedOutcome(ps: seq<(string, string)>): ParseOutcome {
    var si := LastValue(ps, "--speaker-in");
    var so := LastValue(ps, "--speaker-out");
    var b := LastValue(ps, "--buffer");
    if si.None? then Failed("Missing required argument: --speaker-in")
    else if so.None? then Failed("Missing required argument: --speaker-out")
    else Parsed(Args(si.value, so.value, LastValue(ps, "--mic-in"), LastValue(ps, "--mic-out"),
                     if b.Some? then BufferOrDefault(b.value) else DEFAULT_BUFFER_MS))
  }

  /**
   * A command line of complete flag/value pairs: the last value of each flag
   * wins, an unparsable `--buffer` gives the default, a missing speaker
   * device is an error, and the mic devices stay `None` unless given.
   */
  lemma NamedPairsParse(prog: string, ps: seq<(string, string)>)
    requires AllSettable(ps)
    ensures ParseArgsSpec([prog] + Flatten(ps)) == NamedOutcome(ps)
  {
    var args := [prog] + Flatten(ps);
    assert !IsLegacy(args) by {
      if |ps| > 0 {
        assert args[1] == ps[0].0;
        assert IsSettable(ps[0].0);
      }
    }
    assert args[1..1 + 2 * |ps|] == Flatten(ps);
    ScanPairs(args, 1, INITIAL, ps);
    assert ScanNamed(args, 1 + 2 * |ps|, AssignAll(INITIAL, ps)) == Finish(AssignAll(INITIAL, ps));
    FinishAfterPairs(ps);
  }

  /** The checks after the loop, applied to the locals the pairs leave. */
  lemma FinishAfterPairs(ps: seq<(string, string)>)
    requires AllSettable(ps)
    ensures Finish(AssignAll(INITIAL, ps)) == NamedOutcome(ps)
  {
    AssignAllLastValue(INITIAL, ps);
  }

  /** The locals with the option of a dangling last `flag` cleared (`--buffer` keeps its value). */
  function Dangling(st: NamedState, flag: string): NamedState
    requires IsSettable(flag)
  {
    Assign(st, flag, None)
  }

  /** A settable flag in last position, with no value after it, leaves its option `None`. */
  lemma TrailingFlagHasNoValue(prog: string, ps: seq<(string, string)>, flag: string)
    requires AllSettable(ps) && IsSettable(flag)
    ensures ParseArgsSpec([prog] + Flatten(ps) + [flag]) == Finish(Dangling(AssignAll(INITIAL, ps), flag))
    ensures flag == "--speaker-in" ==> ParseArgsSpec([prog] + Flatten(ps) + [flag]) == Failed("Missing required argument: --speaker-in")
  {
    var args := [prog] + Flatten(ps) + [flag];
    assert !IsLegacy(args) by {
      if |ps| > 0 {
        assert args[1] == ps[0].0;
        assert IsSettable(ps[0].0);
      } else {
        assert |args| == 2;
      }
    }
    assert args[1..1 + 2 * |ps|] == Flatten(ps);
    ScanPairs(args, 1, INITIAL, ps);
    var i := 1 + 2 * |ps|;
    assert args[i] == flag;
    assert ScanNamed(args, i, AssignAll(INITIAL, ps)) == ScanNamed(args, i + 2, Dangling(AssignAll(INITIAL, ps), flag));
  }

  /**
   * An argument that is neither a settable flag nor `--help`/`-h`, met where
   * a flag is expected, is an error naming it; whatever follows is not looked at.
   */
  lemma UnknownArgumentFails(prog: string, ps: seq<(string, string)>, arg: string, rest: seq<string>)
    requires AllSettable(ps) && !IsSettable(arg) && !IsHelp(arg)
    requires ps != [] || StartsWith(arg, "--") || rest == []
    ensures ParseArgsSpec([prog] + Flatten(ps) + [arg] + rest) == Failed("Unknown argument: " + arg)
  {
    var args := [prog] + Flatten(ps) + [arg] + rest;
    assert !IsLegacy(args) by {
      if |ps| > 0 {
        assert args[1] == ps[0].0;
        assert IsSettable(ps[0].0);
      } else {
        assert args[1] == arg;
      }
    }
    assert args[1..1 + 2 * |ps|] == Flatten(ps);
    ScanPairs(args, 1, INITIAL, ps);
    assert args[1 + 2 * |ps|] == arg;
  }

  /**
   * `--help` or `-h` where a flag is expected ends parsing with the usage
   * text; `-h` is not a `--` flag, so as the first of three or more
   * arguments it is read positionally instead (see `ShortHelpAsDevice`).
   */
  lemma HelpStopsParsing(prog: string, ps: seq<(string, string)>, arg: string, rest: seq<string>)
    requires AllSettable(ps) && IsHelp(arg)
    requires ps != [] || arg == "--help" || rest == []
    ensures ParseArgsSpec([prog] + Flatten(ps) + [arg] + rest) == HelpRequested
  {
    var args := [prog] + Flatten(ps) + [arg] + rest;
    assert !IsLegacy(args) by {
      if |ps| > 0 {
        assert args[1] == ps[0].0;
        assert IsSettable(ps[0].0);
      } else {
        assert args[1] == arg;
        assert arg == "--help" ==> arg[..2] == "--";
      }
    }
    assert args[1..1 + 2 * |ps|] == Flatten(ps);
    ScanPairs(args, 1, INITIAL, ps);
    assert args[1 + 2 * |ps|] == arg;
  }

  /**
   * The positional form: speaker input and output from the first two
   * arguments, no mic devices, and the buffer from the third if it parses.
   */
  lemma LegacyForm(args: seq<string>)
    requires |args| >= 3 && !StartsWith(args[1], "--")
    ensures ParseArgsSpec(args).Parsed?
    ensures var a := ParseArgsSpec(args).args;
      && a.speakerIn == args[1] && a.speakerOut == args[2]
      && a.micIn == None && a.micOut == None
      && a.bufferMs == (if |args| > 3 && ParseU32(args[3]).Some? then ParseU32(args[3]).value else DEFAULT_BUFFER_MS)
  {
  }

  /** A later `--speaker-in` replaces an earlier one. */
  lemma LaterFlagOverrides(prog: string, a: string, b: string, c: string)
    ensures ParseArgsSpec([prog, "--speaker-in", a, "--speaker-out", b, "--speaker-in", c])
         == Parsed(Args(c, b, None, None, DEFAULT_BUFFER_MS))
  {
    var ps := [("--speaker-in", a), ("--speaker-out", b), ("--speaker-in", c)];
    assert ps[1..][1..][1..] == [];
    assert Flatten(ps[1..][1..]) == ["--speaker-in", c];
    assert Flatten(ps[1..]) == ["--speaker-out", b, "--speaker-in", c];
    assert Flatten(ps) == ["--speaker-in", a, "--speaker-out", b, "--speaker-in", c];
    assert [prog] + Flatten(ps) == [prog, "--speaker-in", a, "--speaker-out", b, "--speaker-in", c];
    NamedPairsParse(prog, ps);
    LastValuesOfThree(a, b, c);
  }

  /** The last values of the three pairs `--speaker-in a`, `--speaker-out b`, `--speaker-in c`. */
  lemma LastValuesOfThree(a: string, b: string, c: string)
    ensures var ps := [("--speaker-in", a), ("--speaker-out", b), ("--speaker-in", c)];
      && LastValue(ps, "--speaker-in") == Some(c) && LastValue(ps, "--speaker-out") == Some(b)
      && LastValue(ps, "--mic-in") == None && LastValue(ps, "--mic-out") == None && LastValue(ps, "--buffer") == None
  {
    var ps := [("--speaker-in", a), ("--speaker-out", b), ("--speaker-in", c)];
    var tail := ps[1..][1..];
    assert tail[1..] == [];
    assert LastValue(tail, "--speaker-in") == Some(c);
    assert LastValue(ps[1..], "--speaker-in") == Some(c);
    assert LastValue(tail, "--speaker-out") == None;
    assert LastValue(ps[1..], "--speaker-out") == Some(b);
    forall f | f in ["--mic-in", "--mic-out", "--buffer"]
      ensures LastValue(ps, f) == None
    {
      assert LastValue(tail, f) == None;
      assert LastValue(ps[1..], f) == None;
    }
  }

  /** `audio-proxy -h X` is the positional form, with `-h` as the speaker input device. */
  lemma ShortHelpAsDevice(prog: string, x: string)
    ensures ParseArgsSpec([prog, "-h", x]) == Parsed(Args("-h", x, None, None, DEFAULT_BUFFER_MS))
  {
    assert !StartsWith("-h", "--") by { assert "-h"[..2] == "-h"; }
  }
}
