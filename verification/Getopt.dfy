/**
 * The option parser: `getopt()` of the System Interfaces volume of IEEE Std
 * 1003.1-2004 with optional arguments, and `getopt_long()`.
 *
 * A pointer into a word is the text from there to the end of the word; the
 * terminating NUL is the empty text.  No element of `argv` before `argc` is null.
 */
module Getopt {
  import opened Wrappers

  /** `optind`, `optcursor`, `optarg` and `optopt` (absent for 0). */
  datatype Cursor = Cursor(index: nat, text: Option<string>, arg: Option<string>, opt: Option<char>)

  /** `strchr`: the text from the first occurrence of `c` on. */
  function FindChar(s: string, c: char): (r: Option<string>)
    ensures r.Some? <==> c in s
    ensures r.Some? ==> |r.value| > 0 && r.value[0] == c
  {
    if s == "" then None else if s[0] == c then Some(s) else FindChar(s[1..], c)
  }

  // ---- One call of getopt ----

  /** A word that holds options: it starts with '-' and is neither "-" nor "--". */
  predicate OptionWord(w: string) {
    |w| >= 2 && w[0] == '-' && w != "--"
  }

  /** The unread options of the current word. */
  function Unread(s: Cursor, argv: seq<string>): string
    requires s.index < |argv| && OptionWord(argv[s.index])
  {
    if s.text.None? || s.text.value == "" then argv[s.index][1..] else s.text.value
  }

  datatype Kind = Unknown | NoArgument | Required | Optional

  /** How the option string declares a letter: by what follows its first occurrence. */
  function KindOf(optstring: string, c: char): Kind {
    var d := FindChar(optstring, c);
    if d.None? then Unknown
    else if |d.value| < 2 || d.value[1] != ':' then NoArgument
    else if |d.value| < 3 || d.value[2] != ':' then Required
    else Optional
  }

  /** One call; no result stands for -1. */
  function Step(s: Cursor, argv: seq<string>, optstring: string): (Cursor, Option<char>) {
    if s.index >= |argv| || (!OptionWord(argv[s.index]) && argv[s.index] != "--") then
      (Cursor(s.index, None, None, None), None)
    else if argv[s.index] == "--" then
      (Cursor(s.index + 1, None, None, None), None)
    else
      var unread := Unread(s, argv);
      var c, rest := unread[0], unread[1..];
      match KindOf(optstring, c)
      case Unknown => (Cursor(if rest == "" then s.index + 1 else s.index, Some(rest), None, Some(c)), Some('?'))
      case NoArgument => (Cursor(if rest == "" then s.index + 1 else s.index, Some(rest), None, Some(c)), Some(c))
      case Optional => (Cursor(s.index + 1, None, if rest == "" then None else Some(rest), Some(c)), Some(c))
      case Required =>
        if rest != "" then (Cursor(s.index + 1, None, Some(rest), Some(c)), Some(c))
        else if s.index + 1 < |argv| then (Cursor(s.index + 2, None, Some(argv[s.index + 1]), Some(c)), Some(c))
        else (Cursor(s.index + 2, None, None, Some(c)), Some(if optstring[0] == ':' then ':' else '?'))
  }

  /** A long option; `flagged` when `flag` points to a variable. */
  datatype LongOption = LongOption(name: string, hasArg: Kind, flagged: bool, val: int)

  /**
   * The result of a call; `which` and `only` are the one option that matches, whose
   * variable is set and whose index is stored.
   */
  datatype LongResult = End | Short(c: char) | Long(which: nat, code: int) | Invalid(only: Option<nat>, c: char)

  predicate LongWord(w: string) {
    |w| >= 3 && w[..2] == "--"
  }

  /** The name part of a long word, up to the first '='. */
  function NameOf(text: string): (n: string)
    ensures n <= text && '=' !in n
  {
    if text == "" || text[0] == '=' then "" else [text[0]] + NameOf(text[1..])
  }

  /** Options that the name abbreviates, by increasing index. */
  function Matches(opts: seq<LongOption>, name: string): (m: seq<nat>)
    ensures forall j :: 0 <= j < |m| ==> m[j] < |opts|
  {
    if opts == [] then []
    else
      var k := |opts| - 1;
      var m := Matches(opts[..k], name);
      if name <= opts[k].name then m + [k] else m
  }

  /** The text after the first '=' of a word. */
  function Assigned(w: string): Option<string> {
    var d := FindChar(w, '=');
    if d.Some? then Some(d.value[1..]) else None
  }

  function LongStep(s: Cursor, argv: seq<string>, optstring: string, opts: seq<LongOption>): (Cursor, LongResult) {
    if s.index >= |argv| then (Cursor(s.index, s.text, None, None), End)
    else if !LongWord(argv[s.index]) then
      var (t, r) := Step(s, argv, optstring);
      (t, if r.Some? then Short(r.value) else End)
    else
      var w := argv[s.index];
      var m := Matches(opts, NameOf(w[2..]));
      if |m| != 1 then (Cursor(s.index + 1, s.text, None, None), Invalid(None, '?'))
      else
        var o := opts[m[0]];
        var code := if o.flagged then 0 else o.val;
        match o.hasArg
        case Required =>
          if Assigned(w).Some? then (Cursor(s.index + 1, s.text, Assigned(w), None), Long(m[0], code))
          else if s.index + 1 < |argv| then
            (Cursor(s.index + 2, s.text, Some(argv[s.index + 1]), None), Long(m[0], code))
          else (Cursor(s.index + 2, s.text, None, None), Invalid(Some(m[0]), ':'))
        case Optional => (Cursor(s.index + 1, s.text, Assigned(w), None), Long(m[0], code))
        case _ =>
          (Cursor(s.index + 1, s.text, None, None), if '=' in w then Invalid(Some(m[0]), '?') else Long(m[0], code))
  }

  // ---- The parser with its globals ----

  class Parser {
    var optarg: Option<string>
    var optopt: Option<char>
    var optind: nat
    var optcursor: Option<string>

    function View(): Cursor
      reads this
    {
      Cursor(optind, optcursor, optarg, optopt)
    }

    constructor ()
      ensures View() == Cursor(1, None, None, None)
    {
      optarg, optopt, optind, optcursor := None, None, 1, None;
    }

    method Getopt(argv: seq<string>, optstring: string) returns (r: Option<char>)
      modifies this
      ensures (View(), r) == Step(old(View()), argv, optstring)
    {
      optarg, optopt := None, None;
      if optind >= |argv| || argv[optind] == "" || argv[optind][0] != '-' || argv[optind] == "-" {
        optcursor := None;
        return None;
      }
      if argv[optind] == "--" {
        optind := optind + 1;
        optcursor := None;
        return None;
      }
      if optcursor.None? || optcursor.value == "" {
        optcursor := Some(argv[optind][1..]);
      }
      r := TakeLetter(argv, optstring);
    }

    /** The rest of `getopt`, from the letter under the cursor on. */
    method TakeLetter(argv: seq<string>, optstring: string) returns (r: Option<char>)
      requires optind < |argv| && OptionWord(argv[optind]) && optarg.None?
      requires optcursor.Some? && optcursor.value != ""
      modifies this
      ensures (View(), r) == Step(old(View()), argv, optstring)
    {
      var c := optcursor.value[0];
      var rest := optcursor.value[1..];
      r := Some(c);
      optopt := Some(c);
      var decl := FindChar(optstring, c);
      if decl.Some? {
        if |decl.value| > 1 && decl.value[1] == ':' {
          optcursor := Some(rest);
          optarg := optcursor;
          if optarg.value == "" {
            if |decl.value| <= 2 || decl.value[2] != ':' {
              optind := optind + 1;
              if optind < |argv| {
                optarg := Some(argv[optind]);
              } else {
                optarg := None;
                r := Some(if optstring[0] == ':' then ':' else '?');
              }
            } else {
              optarg := None;
            }
          }
          optcursor := None;
        }
      } else {
        r := Some('?');
      }
      if optcursor.Some? {
        optcursor := Some(rest);
      }
      if optcursor.None? || rest == "" {
        optind := optind + 1;
      }
    }

    /** The loop of `getopt_long` over the long options: how many match, and the last that does. */
    static method CountMatches(opts: seq<LongOption>, name: string) returns (count: nat, found: nat)
      ensures count == |Matches(opts, name)|
      ensures count > 0 ==> found < |opts| && found == Matches(opts, name)[count - 1]
    {
      count, found := 0, 0;
      for i := 0 to |opts|
        invariant count == |Matches(opts[..i], name)|
        invariant count > 0 ==> found < |opts| && found == Matches(opts[..i], name)[count - 1]
      {
        assert opts[..i + 1][..i] == opts[..i];
        if name <= opts[i].name {
          count, found := count + 1, i;
        }
      }
      assert opts[..|opts|] == opts;
    }

    /** `getopt_long`; the result says through which option `flag` and `longindex` are stored. */
    method GetoptLong(argv: seq<string>, optstring: string, opts: seq<LongOption>) returns (r: LongResult)
      modifies this
      ensures (View(), r) == LongStep(old(View()), argv, optstring, opts)
    {
      optarg, optopt := None, None;
      if optind >= |argv| {
        return End;
      }
      var w := argv[optind];
      if !LongWord(w) {
        var c := Getopt(argv, optstring);
        return if c.Some? then Short(c.value) else End;
      }
      var count, found := CountMatches(opts, NameOf(w[2..]));
      if count == 1 {
        var o := opts[found];
        r := Long(found, if o.flagged then 0 else o.val);
        if o.hasArg == Required || o.hasArg == Optional {
          optarg := Assigned(w);
          if o.hasArg == Required {
            if optarg.None? {
              optind := optind + 1;
              if optind < |argv| {
                optarg := Some(argv[optind]);
              }
            }
            if optarg.None? {
              r := Invalid(Some(found), ':');
            }
          }
        } else if '=' in w {
          r := Invalid(Some(found), '?');
        }
      } else {
        r := Invalid(None, '?');
      }
      optind := optind + 1;
    }
  }

  // ---- Termination and bounds ----

  /** Words and a bit left. */
  function WordsLeft(s: Cursor, argv: seq<string>): nat {
    if s.index <= |argv| then |argv| + 1 - s.index else 0
  }

  /** Characters left at the cursor. */
  function CharsLeft(s: Cursor, argv: seq<string>): nat {
    if s.text.Some? && s.text.value != "" then |s.text.value|
    else if s.index < |argv| then |argv[s.index]|
    else 0
  }

  /** The words left, then the characters left at the cursor, decrease lexicographically. */
  predicate Advances(s: Cursor, t: Cursor, argv: seq<string>) {
    t.index > s.index || (t.index == s.index && CharsLeft(t, argv) < CharsLeft(s, argv))
  }

  /** Every call that returns an option makes progress, and no call moves past `argc + 1`. */
  lemma StepProgress(s: Cursor, argv: seq<string>, optstring: string)
    ensures var (t, r) := Step(s, argv, optstring);
            && (r.Some? ==> s.index < |argv| && Advances(s, t, argv))
            && (s.index <= |argv| + 1 ==> s.index <= t.index <= |argv| + 1)
  {
  }

  lemma LongStepProgress(s: Cursor, argv: seq<string>, optstring: string, opts: seq<LongOption>)
    ensures var (t, r) := LongStep(s, argv, optstring, opts);
            && (!r.End? ==> s.index < |argv| && Advances(s, t, argv))
            && (s.index <= |argv| + 1 ==> s.index <= t.index <= |argv| + 1)
  {
    StepProgress(s, argv, optstring);
  }

  /**
   * `optind` beyond `argc` is the sign of a missing argument: it gets there just
   * when the last letter of the last word requires one, and the call then
   * returns ':' if the option string starts with a colon and '?' otherwise.
   */
  lemma MissingArgument(s: Cursor, argv: seq<string>, optstring: string)
    requires s.index <= |argv|
    ensures var (t, r) := Step(s, argv, optstring);
            && (t.index > |argv| <==>
                  && s.index + 1 == |argv| && OptionWord(argv[s.index]) && |Unread(s, argv)| == 1
                  && KindOf(optstring, Unread(s, argv)[0]).Required?)
            && (t.index > |argv| ==>
                  && t.arg.None? && t.opt == Some(Unread(s, argv)[0])
                  && r == Some(if optstring[..1] == ":" then ':' else '?'))
  {
  }

  /**
   * How a letter is declared: the first occurrence counts, no colon behind it means
   * no argument, one a required and two an optional one.
   */
  lemma {:induction false} KindDeclared(before: string, c: char, after: string)
    requires c !in before
    ensures KindOf(before + [c] + after, c) ==
            if |after| >= 2 && after[..2] == "::" then Optional
            else if |after| >= 1 && after[..1] == ":" then Required
            else NoArgument
    ensures KindOf(before, c) == Unknown
  {
    FindsFirst(before, c, after);
  }

  lemma {:induction false} FindsFirst(before: string, c: char, after: string)
    requires c !in before
    ensures FindChar(before + [c] + after, c) == Some([c] + after)
  {
    if before == "" {
      assert before + [c] + after == [c] + after;
    } else {
      FindsFirst(before[1..], c, after);
      assert (before + [c] + after)[1..] == before[1..] + [c] + after;
    }
  }

  /** An option as the caller sees it: the result, `optarg` and `optopt`. */
  datatype Opt = Opt(c: char, arg: Option<string>, letter: Option<char>)

  /** The same for the long parser. */
  datatype LongOpt = LongOpt(r: LongResult, arg: Option<string>, letter: Option<char>)

  /** All options up to the call that returns -1, and the state after that call. */
  function ParseAll(s: Cursor, argv: seq<string>, optstring: string): (seq<Opt>, Cursor)
    decreases WordsLeft(s, argv), CharsLeft(s, argv)
  {
    var (t, r) := Step(s, argv, optstring);
    StepProgress(s, argv, optstring);
    if r.None? then ([], t)
    else
      var (rest, end) := ParseAll(t, argv, optstring);
      ([Opt(r.value, t.arg, t.opt)] + rest, end)
  }

  function ParseAllLong(s: Cursor, argv: seq<string>, optstring: string, opts: seq<LongOption>)
    : (seq<LongOpt>, Cursor)
    decreases WordsLeft(s, argv), CharsLeft(s, argv)
  {
    var (t, r) := LongStep(s, argv, optstring, opts);
    LongStepProgress(s, argv, optstring, opts);
    if r.End? then ([], t)
    else
      var (rest, end) := ParseAllLong(t, argv, optstring, opts);
      ([LongOpt(r, t.arg, t.opt)] + rest, end)
  }

  /**
   * Repeated calls reach -1 for every `argv` and option string, and from
   * `optind = 1` with `argc >= 1` never leave `optind` above `argc + 1`.
   */
  lemma {:induction false} ParseEnds(s: Cursor, argv: seq<string>, optstring: string)
    requires s.index <= |argv| + 1
    ensures var (opts, end) := ParseAll(s, argv, optstring);
            s.index <= end.index <= |argv| + 1
    decreases WordsLeft(s, argv), CharsLeft(s, argv)
  {
    var (t, r) := Step(s, argv, optstring);
    StepProgress(s, argv, optstring);
    if r.Some? {
      ParseEnds(t, argv, optstring);
    }
  }

  // ---- Rendering options as words ----

  /** How a word ends: nothing more, an argument in the same word or in the next, or an omitted optional argument. */
  datatype Tail = NoTail | Attached(c: char, arg: string) | Separate(c: char, arg: string) | Omitted(c: char)

  /** A cluster of flags and its tail. */
  datatype Word = Word(flags: string, tail: Tail)

  function TailText(t: Tail): string {
    match t
    case NoTail => ""
    case Attached(c, arg) => [c] + arg
    case Separate(c, _) => [c]
    case Omitted(c) => [c]
  }

  function TailWords(t: Tail): seq<string> {
    if t.Separate? then [t.arg] else []
  }

  function TailOpts(t: Tail): seq<Opt> {
    match t
    case NoTail => []
    case Attached(c, arg) => [Opt(c, Some(arg), Some(c))]
    case Separate(c, arg) => [Opt(c, Some(arg), Some(c))]
    case Omitted(c) => [Opt(c, None, Some(c))]
  }

  predicate ValidTail(t: Tail, optstring: string) {
    match t
    case NoTail => true
    case Attached(c, arg) => (KindOf(optstring, c).Required? || KindOf(optstring, c).Optional?) && arg != ""
    case Separate(c, _) => KindOf(optstring, c).Required?
    case Omitted(c) => KindOf(optstring, c).Optional?
  }

  /** Letters without an argument, and letters that the option string does not have. */
  predicate ValidFlags(flags: string, optstring: string) {
    forall i :: 0 <= i < |flags| ==> Single(flags[i], optstring)
  }

  predicate Single(c: char, optstring: string) {
    KindOf(optstring, c).NoArgument? || KindOf(optstring, c).Unknown?
  }

  /** An unknown letter is answered with '?' and left in `optopt`. */
  function FlagOpt(c: char, optstring: string): Opt {
    Opt(if c in optstring then c else '?', None, Some(c))
  }

  function Text(w: Word): string {
    "-" + (w.flags + TailText(w.tail))
  }

  /** A rendering of at least one option, declared as it is used, that does not read "--". */
  predicate ValidWord(w: Word, optstring: string) {
    ValidFlags(w.flags, optstring) && ValidTail(w.tail, optstring) && OptionWord(Text(w))
  }

  function FlagOpts(flags: string, optstring: string): seq<Opt> {
    if flags == "" then [] else [FlagOpt(flags[0], optstring)] + FlagOpts(flags[1..], optstring)
  }

  function WordOpts(w: Word, optstring: string): seq<Opt> {
    FlagOpts(w.flags, optstring) + TailOpts(w.tail)
  }

  function Print(words: seq<Word>): seq<string> {
    if words == [] then [] else [Text(words[0])] + TailWords(words[0].tail) + Print(words[1..])
  }

  function Meaning(words: seq<Word>, optstring: string): seq<Opt> {
    if words == [] then [] else WordOpts(words[0], optstring) + Meaning(words[1..], optstring)
  }

  /** The words after the options: none, "--" and anything, or operands. */
  predicate Terminated(rest: seq<string>) {
    rest == [] || !OptionWord(rest[0])
  }

  /** Where the parser stops: behind a "--", with nothing left over from the last option. */
  function Stopped(index: nat, rest: seq<string>): Cursor {
    Cursor(if rest != [] && rest[0] == "--" then index + 1 else index, None, None, None)
  }

  /** Between two words. */
  predicate Between(s: Cursor) {
    s.text.None? || s.text.value == ""
  }

  // ---- Parsing undoes printing ----

  /** The call that reads the tail of a word. */
  lemma ParseTail(s: Cursor, argv: seq<string>, optstring: string, tail: Tail)
    requires s.index < |argv| && OptionWord(argv[s.index]) && !tail.NoTail?
    requires Unread(s, argv) == TailText(tail) && ValidTail(tail, optstring)
    requires tail.Separate? ==> s.index + 1 < |argv| && argv[s.index + 1] == tail.arg
    ensures var (t, r) := Step(s, argv, optstring);
            && r.Some? && Between(t) && t.index == s.index + 1 + |TailWords(tail)|
            && TailOpts(tail) == [Opt(r.value, t.arg, t.opt)]
  {
    assert TailText(tail)[1..] == if tail.Attached? then tail.arg else "";
  }

  /** The call that reads a flag. */
  lemma ParseFlag(s: Cursor, argv: seq<string>, optstring: string, c: char, rest: string)
    requires s.index < |argv| && OptionWord(argv[s.index])
    requires Unread(s, argv) == [c] + rest && Single(c, optstring)
    ensures var (t, r) := Step(s, argv, optstring);
            && r.Some? && Opt(r.value, t.arg, t.opt) == FlagOpt(c, optstring)
            && (if rest == "" then Between(t) && t.index == s.index + 1
                else t.index == s.index && Unread(t, argv) == rest)
  {
    assert ([c] + rest)[1..] == rest;
  }

  /** The calls that read word `k` from `s` to `t` give these options. */
  predicate Reads(s: Cursor, t: Cursor, argv: seq<string>, optstring: string, k: nat, opts: seq<Opt>)
    decreases |opts|
  {
    if opts == [] then s == t
    else
      var (u, r) := Step(s, argv, optstring);
      && s.index == k && r.Some? && opts[0] == Opt(r.value, u.arg, u.opt)
      && Reads(u, t, argv, optstring, k, opts[1..])
  }

  lemma {:induction false} ReadsJoin(
      s: Cursor, u: Cursor, t: Cursor, argv: seq<string>, optstring: string, k: nat, a: seq<Opt>, b: seq<Opt>)
    requires Reads(s, u, argv, optstring, k, a) && Reads(u, t, argv, optstring, k, b)
    ensures Reads(s, t, argv, optstring, k, a + b)
    decreases |a|
  {
    if a == [] {
      assert a + b == b;
    } else {
      ReadsJoin(Step(s, argv, optstring).0, u, t, argv, optstring, k, a[1..], b);
      assert (a + b)[1..] == a[1..] + b;
    }
  }

  /** Parsing from `s` gives these options and then what parsing from `t` gives. */
  predicate Parses(s: Cursor, t: Cursor, argv: seq<string>, optstring: string, opts: seq<Opt>) {
    && ParseAll(s, argv, optstring).0 == opts + ParseAll(t, argv, optstring).0
    && ParseAll(s, argv, optstring).1 == ParseAll(t, argv, optstring).1
  }

  lemma ParsesOne(s: Cursor, argv: seq<string>, optstring: string)
    requires Step(s, argv, optstring).1.Some?
    ensures var (t, r) := Step(s, argv, optstring); Parses(s, t, argv, optstring, [Opt(r.value, t.arg, t.opt)])
  {
  }

  lemma ParsesJoin(s: Cursor, u: Cursor, t: Cursor, argv: seq<string>, optstring: string, a: seq<Opt>, b: seq<Opt>)
    requires Parses(s, u, argv, optstring, a) && Parses(u, t, argv, optstring, b)
    ensures Parses(s, t, argv, optstring, a + b)
  {
    Regroup(a, b, ParseAll(t, argv, optstring).0);
  }

  lemma {:induction false} ReadsParse(
      s: Cursor, t: Cursor, argv: seq<string>, optstring: string, k: nat, opts: seq<Opt>)
    requires Reads(s, t, argv, optstring, k, opts)
    ensures Parses(s, t, argv, optstring, opts)
    decreases |opts|
  {
    if opts == [] {
      assert [] + ParseAll(t, argv, optstring).0 == ParseAll(t, argv, optstring).0;
    } else {
      var u := Step(s, argv, optstring).0;
      ParsesOne(s, argv, optstring);
      ReadsParse(u, t, argv, optstring, k, opts[1..]);
      ParsesJoin(s, u, t, argv, optstring, [opts[0]], opts[1..]);
      assert [opts[0]] + opts[1..] == opts;
    }
  }

  /** The state after the tail of a word, and what is parsed from there. */
  lemma AfterTail(s: Cursor, argv: seq<string>, optstring: string, tail: Tail) returns (t: Cursor)
    requires s.index < |argv| && OptionWord(argv[s.index]) && !tail.NoTail?
    requires Unread(s, argv) == TailText(tail) && ValidTail(tail, optstring)
    requires tail.Separate? ==> s.index + 1 < |argv| && argv[s.index + 1] == tail.arg
    ensures Between(t) && t.index == s.index + 1 + |TailWords(tail)|
    ensures Reads(s, t, argv, optstring, s.index, TailOpts(tail))
  {
    ParseTail(s, argv, optstring, tail);
    t := Step(s, argv, optstring).0;
  }

  /** The state after a flag, and what is parsed from there. */
  lemma AfterFlag(s: Cursor, argv: seq<string>, optstring: string, c: char, rest: string) returns (t: Cursor)
    requires s.index < |argv| && OptionWord(argv[s.index])
    requires Unread(s, argv) == [c] + rest && Single(c, optstring)
    ensures if rest == "" then Between(t) && t.index == s.index + 1 else t.index == s.index && Unread(t, argv) == rest
    ensures Reads(s, t, argv, optstring, s.index, [FlagOpt(c, optstring)])
  {
    ParseFlag(s, argv, optstring, c, rest);
    t := Step(s, argv, optstring).0;
  }

  lemma HeadOff(a: string, b: string)
    requires a != ""
    ensures a + b == [a[0]] + (a[1..] + b)
  {
    assert a == [a[0]] + a[1..];
    Regroup([a[0]], a[1..], b);
  }

  /** The state after some flags that `rest` follows in the word. */
  predicate Past(s: Cursor, t: Cursor, argv: seq<string>, rest: string)
    requires s.index < |argv| && OptionWord(argv[s.index])
  {
    if rest == "" then Between(t) && t.index == s.index + 1 else t.index == s.index && Unread(t, argv) == rest
  }

  /** Reading the flags of a word from any of them on. */
  lemma {:induction false} ParseFlags(s: Cursor, argv: seq<string>, optstring: string, flags: string, rest: string)
    returns (t: Cursor)
    requires s.index < |argv| && OptionWord(argv[s.index])
    requires flags != "" && ValidFlags(flags, optstring) && Unread(s, argv) == flags + rest
    ensures Past(s, t, argv, rest) && Reads(s, t, argv, optstring, s.index, FlagOpts(flags, optstring))
    decreases |flags|
  {
    var c, more := flags[0], flags[1..];
    HeadOff(flags, rest);
    t := AfterFlag(s, argv, optstring, c, more + rest);
    if more == "" {
      assert more + rest == rest && FlagOpts(flags, optstring) == [FlagOpt(c, optstring)];
    } else {
      var u := t;
      t := ParseFlags(u, argv, optstring, more, rest);
      ReadsJoin(s, u, t, argv, optstring, s.index, [FlagOpt(c, optstring)], FlagOpts(more, optstring));
    }
  }

  /** Reading a word gives its options and moves past it. */
  lemma ParseWord(s: Cursor, argv: seq<string>, optstring: string, flags: string, tail: Tail) returns (t: Cursor)
    requires s.index < |argv| && OptionWord(argv[s.index])
    requires flags + TailText(tail) != "" && Unread(s, argv) == flags + TailText(tail)
    requires ValidFlags(flags, optstring) && ValidTail(tail, optstring)
    requires tail.Separate? ==> s.index + 1 < |argv| && argv[s.index + 1] == tail.arg
    ensures Between(t) && t.index == s.index + 1 + |TailWords(tail)|
    ensures Reads(s, t, argv, optstring, s.index, FlagOpts(flags, optstring) + TailOpts(tail))
  {
    if flags == "" {
      assert "" + TailText(tail) == TailText(tail) && FlagOpts("", optstring) + TailOpts(tail) == TailOpts(tail);
      t := AfterTail(s, argv, optstring, tail);
    } else {
      var u := ParseFlags(s, argv, optstring, flags, TailText(tail));
      if tail.NoTail? {
        t := u;
        assert FlagOpts(flags, optstring) + TailOpts(tail) == FlagOpts(flags, optstring);
      } else {
        t := AfterTail(u, argv, optstring, tail);
        ReadsJoin(s, u, t, argv, optstring, s.index, FlagOpts(flags, optstring), TailOpts(tail));
      }
    }
  }

  lemma PrintedFront(words: seq<Word>, rest: seq<string>)
    requires words != []
    ensures Print(words) + rest == ([Text(words[0])] + TailWords(words[0].tail)) + (Print(words[1..]) + rest)
  {
  }

  /** Where the first of the printed words sits in `argv`, and what follows it. */
  lemma PrintedAt(argv: seq<string>, k: nat, words: seq<Word>, rest: seq<string>)
    requires k <= |argv| && words != [] && argv[k..] == Print(words) + rest
    ensures var tail := words[0].tail;
            var next := k + 1 + |TailWords(tail)|;
            && next <= |argv| && argv[k] == Text(words[0]) && (tail.Separate? ==> argv[k + 1] == tail.arg)
            && argv[next..] == Print(words[1..]) + rest
  {
    PrintedFront(words, rest);
    HeadAt(argv, k, Text(words[0]), TailWords(words[0].tail), Print(words[1..]) + rest);
  }

  lemma HeadAt(argv: seq<string>, k: nat, head: string, more: seq<string>, back: seq<string>)
    requires k <= |argv| && argv[k..] == ([head] + more) + back
    ensures k + 1 + |more| <= |argv| && argv[k] == head && argv[k + 1 + |more|..] == back
    ensures more != [] ==> argv[k + 1] == more[0]
  {
    SliceAt(argv, k, [head] + more, back);
    assert argv[k + 0] == ([head] + more)[0];
    assert more != [] ==> argv[k + 1] == ([head] + more)[1];
  }

  lemma Regroup<T>(a: seq<T>, b: seq<T>, c: seq<T>)
    ensures (a + b) + c == a + (b + c)
  {
  }

  lemma SliceAt(argv: seq<string>, k: nat, front: seq<string>, back: seq<string>)
    requires k <= |argv| && argv[k..] == front + back
    ensures k + |front| <= |argv| && argv[k + |front|..] == back
    ensures forall i :: 0 <= i < |front| ==> argv[k + i] == front[i]
  {
    assert |argv[k..]| == |front| + |back|;
    forall i | 0 <= i < |front|
      ensures argv[k + i] == front[i]
    {
      assert argv[k..][i] == argv[k + i];
    }
    assert argv[k + |front|..] == argv[k..][|front|..];
  }

  predicate AllValid(words: seq<Word>, optstring: string) {
    forall k :: 0 <= k < |words| ==> ValidWord(words[k], optstring)
  }

  /** Reading the first of the printed words. */
  lemma ParseFirst(s: Cursor, argv: seq<string>, optstring: string, words: seq<Word>, rest: seq<string>)
    returns (t: Cursor)
    requires Between(s) && s.index <= |argv| && argv[s.index..] == Print(words) + rest
    requires words != [] && ValidWord(words[0], optstring)
    ensures Between(t) && t.index == s.index + 1 + |TailWords(words[0].tail)| <= |argv|
    ensures argv[t.index..] == Print(words[1..]) + rest
    ensures Reads(s, t, argv, optstring, s.index, WordOpts(words[0], optstring))
  {
    var w := words[0];
    PrintedAt(argv, s.index, words, rest);
    assert Text(w)[1..] == w.flags + TailText(w.tail);
    t := ParseWord(s, argv, optstring, w.flags, w.tail);
  }

  lemma EndOfWords(s: Cursor, argv: seq<string>, optstring: string, rest: seq<string>)
    requires s.index <= |argv| && argv[s.index..] == [] + rest && Terminated(rest)
    ensures ParseAll(s, argv, optstring) == ([], Stopped(s.index, rest))
  {
    assert rest != [] ==> argv[s.index] == rest[0];
  }

  lemma {:induction false} ParseWords(
      s: Cursor, argv: seq<string>, optstring: string, words: seq<Word>, rest: seq<string>, stop: Cursor)
    requires Between(s) && s.index <= |argv| && argv[s.index..] == Print(words) + rest
    requires AllValid(words, optstring) && Terminated(rest)
    requires |rest| <= |argv| && stop == Stopped(|argv| - |rest|, rest)
    ensures ParseAll(s, argv, optstring) == (Meaning(words, optstring), stop)
    decreases |words|
  {
    if words == [] {
      EndOfWords(s, argv, optstring, rest);
    } else {
      var t := ParseFirst(s, argv, optstring, words, rest);
      ReadsParse(s, t, argv, optstring, s.index, WordOpts(words[0], optstring));
      ParseWords(t, argv, optstring, words[1..], rest, stop);
    }
  }

  /**
   * Round trip.  Whatever the option string, any rendering of an option list
   * (clustered flags, unknown letters among them, attached nonempty arguments,
   * separate required arguments, omitted or attached optional arguments), followed by the end, by "--", or
   * by a first operand that is "-", empty or does not start with '-', is parsed
   * back to exactly that list, `optopt` included, and `optind` ends at the first operand.
   */
  lemma ParseUndoesPrint(program: string, words: seq<Word>, rest: seq<string>, optstring: string)
    requires AllValid(words, optstring) && Terminated(rest)
    ensures var argv := [program] + Print(words) + rest;
            var (opts, end) := ParseAll(Cursor(1, None, None, None), argv, optstring);
            && opts == Meaning(words, optstring)
            && end == Stopped(1 + |Print(words)|, rest)
  {
    AfterProgram(program, Print(words), rest);
    var argv := [program] + Print(words) + rest;
    ParseWords(Cursor(1, None, None, None), argv, optstring, words, rest, Stopped(1 + |Print(words)|, rest));
  }

  lemma AfterProgram(program: string, a: seq<string>, b: seq<string>)
    ensures ([program] + a + b)[1..] == a + b
  {
  }

  // ---- Long options ----

  /** The long option loop also ends, within the same bound, missing arguments included. */
  lemma {:induction false} ParseLongEnds(s: Cursor, argv: seq<string>, optstring: string, opts: seq<LongOption>)
    requires s.index <= |argv| + 1
    ensures var (_, end) := ParseAllLong(s, argv, optstring, opts); s.index <= end.index <= |argv| + 1
    decreases WordsLeft(s, argv), CharsLeft(s, argv)
  {
    var (t, r) := LongStep(s, argv, optstring, opts);
    LongStepProgress(s, argv, optstring, opts);
    if !r.End? {
      ParseLongEnds(t, argv, optstring, opts);
    }
  }

  /** The name part of a word is what precedes the '='. */
  lemma {:induction false} NameBefore(name: string, tail: string)
    requires '=' !in name && (tail == "" || tail[0] == '=')
    ensures NameOf(name + tail) == name
  {
    if name != "" {
      NameBefore(name[1..], tail);
      assert (name + tail)[1..] == name[1..] + tail;
    } else {
      assert name + tail == tail;
    }
  }

  /** The name begins the name of option `k` and of no other. */
  predicate Names(opts: seq<LongOption>, name: string, k: nat) {
    && k < |opts| && name <= opts[k].name
    && forall i: nat :: i < |opts| && name <= opts[i].name ==> i == k
  }

  function Result(opts: seq<LongOption>, k: nat): LongResult
    requires k < |opts|
  {
    Long(k, if opts[k].flagged then 0 else opts[k].val)
  }

  /** How far a call moves, what it returns, and the argument it finds. */
  predicate Answers(s: Cursor, t: Cursor, moves: nat, arg: Option<string>) {
    t == Cursor(s.index + moves, s.text, arg, None)
  }

  /**
   * The whole answer to a long option, with or without "=value".  A name that
   * begins no option, or several, is refused.  Else the option takes what follows
   * the '=', or, if it requires an argument, the next word; it is refused when
   * that is missing, or when it takes none and one is given.
   */
  lemma LongAnswer(
      s: Cursor, argv: seq<string>, optstring: string, opts: seq<LongOption>, name: string, tail: string, k: nat)
    requires s.index < |argv| && argv[s.index] == "--" + (name + tail)
    requires name + tail != "" && '=' !in name && (tail == "" || tail[0] == '=')
    ensures var (t, r) := LongStep(s, argv, optstring, opts);
            && (!(exists i :: Names(opts, name, i)) ==> Answers(s, t, 1, None) && r == Invalid(None, '?'))
            && (Names(opts, name, k) ==> Answered(s, argv, opts, tail, k, t, r))
  {
    var w := argv[s.index];
    assert w[..2] == "--" && w[2..] == name + tail;
    NameBefore(name, tail);
    MatchedOnce(opts, name, k);
    if Names(opts, name, k) {
      OneMatch(s, argv, optstring, opts, name, tail, k);
    }
  }

  /** The answer once it is known that option `k` is meant. */
  predicate Answered(
    s: Cursor, argv: seq<string>, opts: seq<LongOption>, tail: string, k: nat, t: Cursor, r: LongResult)
    requires k < |opts|
  {
    var kind := opts[k].hasArg;
    if tail != "" && (kind.Required? || kind.Optional?) then Answers(s, t, 1, Some(tail[1..])) && r == Result(opts, k)
    else if tail != "" then Answers(s, t, 1, None) && r == Invalid(Some(k), '?')
    else if !kind.Required? then Answers(s, t, 1, None) && r == Result(opts, k)
    else if s.index + 1 < |argv| then Answers(s, t, 2, Some(argv[s.index + 1])) && r == Result(opts, k)
    else Answers(s, t, 2, None) && r == Invalid(Some(k), ':')
  }

  lemma OneMatch(
      s: Cursor, argv: seq<string>, optstring: string, opts: seq<LongOption>, name: string, tail: string, k: nat)
    requires s.index < |argv| && argv[s.index] == "--" + (name + tail) && k < |opts|
    requires LongWord(argv[s.index]) && Matches(opts, NameOf(argv[s.index][2..])) == [k]
    requires name + tail != "" && '=' !in name && (tail == "" || tail[0] == '=')
    ensures var (t, r) := LongStep(s, argv, optstring, opts); Answered(s, argv, opts, tail, k, t, r)
  {
    AssignedWord(argv[s.index], name, tail);
  }

  lemma MatchedOnce(opts: seq<LongOption>, name: string, k: nat)
    ensures |Matches(opts, name)| == 1 <==> exists i :: Names(opts, name, i)
    ensures Names(opts, name, k) ==> Matches(opts, name) == [k]
  {
    var m := Matches(opts, name);
    if |m| == 1 {
      MatchesOnce(opts, name, m[0]);
      assert Names(opts, name, m[0]);
    }
    forall i: nat | Names(opts, name, i)
      ensures m == [i]
    {
      MatchesOnce(opts, name, i);
    }
  }

  /** An option takes what follows its name in the word, or the next word, as it declares. */
  predicate TakesArgument(o: LongOption, tail: string, more: bool) {
    if tail == "" then o.hasArg.Required? ==> more
    else o.hasArg.Required? || o.hasArg.Optional?
  }

  /**
   * Exactly when a long option is recognised: its name is the only one that the
   * given name begins, and it takes the argument that is there and has the
   * argument it requires.
   */
  lemma LongRecognised(
      s: Cursor, argv: seq<string>, optstring: string, opts: seq<LongOption>, name: string, tail: string, k: nat)
    requires s.index < |argv| && argv[s.index] == "--" + (name + tail)
    requires name + tail != "" && '=' !in name && (tail == "" || tail[0] == '=')
    requires k < |opts|
    ensures LongStep(s, argv, optstring, opts).1 == Result(opts, k) <==>
            Names(opts, name, k) && TakesArgument(opts[k], tail, s.index + 1 < |argv|)
  {
    LongAnswer(s, argv, optstring, opts, name, tail, k);
    if i: nat :| Names(opts, name, i) {
      LongAnswer(s, argv, optstring, opts, name, tail, i);
    }
  }

  /** A word assigns what follows the '=' after the name. */
  lemma AssignedWord(w: string, name: string, tail: string)
    requires w == "--" + (name + tail) && '=' !in name && (tail == "" || tail[0] == '=')
    ensures '=' in w <==> tail != ""
    ensures Assigned(w) == if tail == "" then None else Some(tail[1..])
  {
    if tail == "" {
      assert w == "--" + name;
    } else {
      FindsFirst("--" + name, '=', tail[1..]);
      assert w == ("--" + name) + ['='] + tail[1..];
      assert (['='] + tail[1..])[1..] == tail[1..];
    }
  }

  /** The matches are all the options the name begins, in increasing order. */
  lemma {:induction false} MatchesAre(opts: seq<LongOption>, name: string)
    ensures var m := Matches(opts, name);
            && (forall j :: 0 <= j < |m| ==> name <= opts[m[j]].name)
            && (forall i, j :: 0 <= i < j < |m| ==> m[i] < m[j])
            && (forall i: nat :: i < |opts| && name <= opts[i].name ==> i in m)
  {
    if opts != [] {
      MatchesAre(opts[..|opts| - 1], name);
    }
  }

  lemma MatchesOnce(opts: seq<LongOption>, name: string, k: nat)
    requires k < |opts|
    ensures Matches(opts, name) == [k] <==>
            (name <= opts[k].name && forall i: nat :: i < |opts| && name <= opts[i].name ==> i == k)
  {
    var m := Matches(opts, name);
    MatchesAre(opts, name);
    if m == [k] {
      assert m[0] == k;
    } else if name <= opts[k].name && forall i: nat :: i < |opts| && name <= opts[i].name ==> i == k {
      assert k in m;
      assert |m| > 1 ==> m[0] < m[1];
    }
  }

  /** An exact name is not preferred over a longer one that it begins. */
  lemma ExactNameCanBeAmbiguous(s: Cursor, argv: seq<string>, optstring: string)
    requires s.index < |argv| && argv[s.index] == "--all"
    ensures var opts := [LongOption("all", NoArgument, false, 1), LongOption("allow", NoArgument, false, 2)];
            LongStep(s, argv, optstring, opts).1 == Invalid(None, '?')
  {
    var opts := [LongOption("all", NoArgument, false, 1), LongOption("allow", NoArgument, false, 2)];
    var w := argv[s.index];
    assert w[2..] == "all" && w[..2] == "--";
    NameBefore("all", "");
    assert "all" + "" == "all";
    assert "all" <= opts[0].name && "all" <= opts[1].name;
    var m := Matches(opts, "all");
    assert 0 in m && 1 in m;
  }

  // ---- Parsing undoes printing, long options included ----

  /** A word of letters, or a long option with no value, one behind '=', or one in the next word. */
  datatype Item =
    | Cluster(w: Word)
    | Bare(name: string, k: nat)
    | Given(name: string, k: nat, value: string)
    | Ahead(name: string, k: nat, value: string)

  function Head(i: Item): string {
    match i
    case Cluster(w) => Text(w)
    case Bare(name, _) => "--" + (name + "")
    case Given(name, _, value) => "--" + (name + (['='] + value))
    case Ahead(name, _, _) => "--" + (name + "")
  }

  function More(i: Item): seq<string> {
    match i
    case Cluster(w) => TailWords(w.tail)
    case Ahead(_, _, value) => [value]
    case _ => []
  }

  /** Long options may be abbreviated, and are used as they are declared. */
  predicate ValidItem(i: Item, optstring: string, opts: seq<LongOption>) {
    match i
    case Cluster(w) => ValidWord(w, optstring) && !LongWord(Text(w))
    case Bare(name, k) => ValidName(name, k, opts) && !opts[k].hasArg.Required?
    case Given(name, k, _) => ValidName(name, k, opts) && (opts[k].hasArg.Required? || opts[k].hasArg.Optional?)
    case Ahead(name, k, _) => ValidName(name, k, opts) && opts[k].hasArg.Required?
  }

  predicate ValidName(name: string, k: nat, opts: seq<LongOption>) {
    name != "" && '=' !in name && Names(opts, name, k)
  }

  predicate AllItems(items: seq<Item>, optstring: string, opts: seq<LongOption>) {
    forall k :: 0 <= k < |items| ==> ValidItem(items[k], optstring, opts)
  }

  function AsLong(opts: seq<Opt>): seq<LongOpt> {
    if opts == [] then [] else [LongOpt(Short(opts[0].c), opts[0].arg, opts[0].letter)] + AsLong(opts[1..])
  }

  function ItemOpts(i: Item, optstring: string, opts: seq<LongOption>): seq<LongOpt>
    requires ValidItem(i, optstring, opts)
  {
    match i
    case Cluster(w) => AsLong(WordOpts(w, optstring))
    case Bare(_, k) => [LongOpt(Result(opts, k), None, None)]
    case Given(_, k, value) => [LongOpt(Result(opts, k), Some(value), None)]
    case Ahead(_, k, value) => [LongOpt(Result(opts, k), Some(value), None)]
  }

  function PrintItems(items: seq<Item>): seq<string> {
    if items == [] then [] else [Head(items[0])] + More(items[0]) + PrintItems(items[1..])
  }

  function ItemsMeaning(items: seq<Item>, optstring: string, opts: seq<LongOption>): seq<LongOpt>
    requires AllItems(items, optstring, opts)
  {
    if items == [] then [] else ItemOpts(items[0], optstring, opts) + ItemsMeaning(items[1..], optstring, opts)
  }

  /** Parsing from `s` gives these options and then what parsing from `t` gives. */
  predicate ParsesLong(
    s: Cursor, t: Cursor, argv: seq<string>, optstring: string, opts: seq<LongOption>, read: seq<LongOpt>)
  {
    && ParseAllLong(s, argv, optstring, opts).0 == read + ParseAllLong(t, argv, optstring, opts).0
    && ParseAllLong(s, argv, optstring, opts).1 == ParseAllLong(t, argv, optstring, opts).1
  }

  lemma ParsesOneLong(s: Cursor, argv: seq<string>, optstring: string, opts: seq<LongOption>)
    requires !LongStep(s, argv, optstring, opts).1.End?
    ensures var (t, r) := LongStep(s, argv, optstring, opts);
            ParsesLong(s, t, argv, optstring, opts, [LongOpt(r, t.arg, t.opt)])
  {
  }

  lemma ParsesJoinLong(
      s: Cursor, u: Cursor, t: Cursor, argv: seq<string>, optstring: string, opts: seq<LongOption>,
      a: seq<LongOpt>, b: seq<LongOpt>)
    requires ParsesLong(s, u, argv, optstring, opts, a) && ParsesLong(u, t, argv, optstring, opts, b)
    ensures ParsesLong(s, t, argv, optstring, opts, a + b)
  {
    Regroup(a, b, ParseAllLong(t, argv, optstring, opts).0);
  }

  /** The long parser reads a word of letters as the short one does. */
  lemma {:induction false} ReadsParseLong(
      s: Cursor, t: Cursor, argv: seq<string>, optstring: string, opts: seq<LongOption>, k: nat, read: seq<Opt>)
    requires Reads(s, t, argv, optstring, k, read) && k < |argv| && !LongWord(argv[k])
    ensures ParsesLong(s, t, argv, optstring, opts, AsLong(read))
    decreases |read|
  {
    if read == [] {
      assert [] + ParseAllLong(t, argv, optstring, opts).0 == ParseAllLong(t, argv, optstring, opts).0;
    } else {
      var u := Step(s, argv, optstring).0;
      LetterStep(s, argv, optstring, opts);
      ParsesOneLong(s, argv, optstring, opts);
      ReadsParseLong(u, t, argv, optstring, opts, k, read[1..]);
      var first := LongOpt(Short(read[0].c), read[0].arg, read[0].letter);
      ParsesJoinLong(s, u, t, argv, optstring, opts, [first], AsLong(read[1..]));
    }
  }

  lemma LetterStep(s: Cursor, argv: seq<string>, optstring: string, opts: seq<LongOption>)
    requires s.index < |argv| && !LongWord(argv[s.index]) && Step(s, argv, optstring).1.Some?
    ensures var (t, r) := Step(s, argv, optstring); LongStep(s, argv, optstring, opts) == (t, Short(r.value))
  {
  }

  lemma ParseNamed(
      s: Cursor, argv: seq<string>, optstring: string, opts: seq<LongOption>, name: string, tail: string, i: Item)
    returns (t: Cursor)
    requires Between(s) && s.index < |argv| && argv[s.index] == Head(i) == "--" + (name + tail)
    requires !i.Cluster? && ValidItem(i, optstring, opts) && name == i.name
    requires tail == if i.Given? then ['='] + i.value else ""
    requires i.Ahead? ==> s.index + 1 < |argv| && argv[s.index + 1] == i.value
    ensures Between(t) && t.index == s.index + 1 + |More(i)|
    ensures ParsesLong(s, t, argv, optstring, opts, ItemOpts(i, optstring, opts))
  {
    LongAnswer(s, argv, optstring, opts, name, tail, i.k);
    assert i.Given? ==> tail[1..] == i.value;
    ParsesOneLong(s, argv, optstring, opts);
    t := LongStep(s, argv, optstring, opts).0;
  }

  /** Reading the first of the printed items. */
  lemma ParseItem(
      s: Cursor, argv: seq<string>, optstring: string, opts: seq<LongOption>, i: Item) returns (t: Cursor)
    requires Between(s) && s.index < |argv| && argv[s.index] == Head(i) && ValidItem(i, optstring, opts)
    requires More(i) != [] ==> s.index + 1 < |argv| && argv[s.index + 1] == More(i)[0]
    ensures Between(t) && t.index == s.index + 1 + |More(i)|
    ensures ParsesLong(s, t, argv, optstring, opts, ItemOpts(i, optstring, opts))
  {
    match i
    case Cluster(w) =>
      assert Text(w)[1..] == w.flags + TailText(w.tail);
      t := ParseWord(s, argv, optstring, w.flags, w.tail);
      ReadsParseLong(s, t, argv, optstring, opts, s.index, WordOpts(w, optstring));
    case Given(name, _, value) =>
      t := ParseNamed(s, argv, optstring, opts, name, ['='] + value, i);
    case _ =>
      t := ParseNamed(s, argv, optstring, opts, i.name, "", i);
  }

  lemma ItemsFront(items: seq<Item>, rest: seq<string>)
    requires items != []
    ensures PrintItems(items) + rest == ([Head(items[0])] + More(items[0])) + (PrintItems(items[1..]) + rest)
  {
    assert PrintItems(items) == [Head(items[0])] + More(items[0]) + PrintItems(items[1..]);
    Regroup([Head(items[0])] + More(items[0]), PrintItems(items[1..]), rest);
  }

  lemma EndOfItems(s: Cursor, argv: seq<string>, optstring: string, opts: seq<LongOption>, rest: seq<string>)
    requires s.index <= |argv| && argv[s.index..] == [] + rest && Terminated(rest)
    ensures var (read, end) := ParseAllLong(s, argv, optstring, opts);
            read == [] && end == Stopped(s.index, rest).(text := end.text)
  {
    assert rest != [] ==> argv[s.index] == rest[0];
  }

  lemma {:induction false} ParseItems(
      s: Cursor, argv: seq<string>, optstring: string, opts: seq<LongOption>, items: seq<Item>, rest: seq<string>,
      stop: Cursor)
    requires Between(s) && s.index <= |argv| && argv[s.index..] == PrintItems(items) + rest
    requires AllItems(items, optstring, opts) && Terminated(rest)
    requires |rest| <= |argv| && stop == Stopped(|argv| - |rest|, rest)
    ensures var (read, end) := ParseAllLong(s, argv, optstring, opts);
            && read == ItemsMeaning(items, optstring, opts)
            && end == stop.(text := end.text)
    decreases |items|
  {
    if items == [] {
      EndOfItems(s, argv, optstring, opts, rest);
    } else {
      ItemsFront(items, rest);
      HeadAt(argv, s.index, Head(items[0]), More(items[0]), PrintItems(items[1..]) + rest);
      var t := ParseItem(s, argv, optstring, opts, items[0]);
      ParseItems(t, argv, optstring, opts, items[1..], rest, stop);
    }
  }

  /**
   * The round trip for `getopt_long`: any mixture of words of letters and long
   * options, abbreviated or not, with arguments behind '=' or in the next word, is
   * parsed back to exactly what was written.
   */
  lemma ParseLongUndoesPrint(
      program: string, items: seq<Item>, rest: seq<string>, optstring: string, opts: seq<LongOption>)
    requires AllItems(items, optstring, opts) && Terminated(rest)
    ensures var argv := [program] + PrintItems(items) + rest;
            var (read, end) := ParseAllLong(Cursor(1, None, None, None), argv, optstring, opts);
            && read == ItemsMeaning(items, optstring, opts)
            && end == Stopped(1 + |PrintItems(items)|, rest).(text := end.text)
  {
    AfterProgram(program, PrintItems(items), rest);
    var argv := [program] + PrintItems(items) + rest;
    ParseItems(
      Cursor(1, None, None, None), argv, optstring, opts, items, rest, Stopped(1 + |PrintItems(items)|, rest));
  }
}
