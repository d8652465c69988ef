// The command-line parser of the tools: arguments after the program name are
// kept, and each is read as a long flag (--name=value, --name="value"), a
// run of single-letter flags (-xyz) or, failing that, recorded as an error.
module CmdLineParsing {

  /** A parsed flag; the value is empty for single-letter flags. */
  datatype CmdLineFlag = CmdLineFlag(name: string, value: string)

  /** std::islower or std::isupper in the "C" locale. */
  predicate IsFlagLetter(c: char)
  {
    'a' <= c <= 'z' || 'A' <= c <= 'Z'
  }

  /** A long flag: more than two characters, starting with "--". */
  predicate IsLongFlag(arg: string)
  {
    |arg| > 2 && arg[0] == '-' && arg[1] == '-'
  }

  predicate IsSeparator(c: char)
  {
    c == '=' || c == '"'
  }

  // ---------------------------------------------------------------------
  // Long flags
  // ---------------------------------------------------------------------

  /** The state of the scan over a long flag's characters. */
  datatype LongScan = LongScan(name: string, value: string, readingName: bool)

  /** One character: '=' and '"' end the name and are dropped; any other
      character goes to the name or, after a separator, to the value. */
  function LongStep(scan: LongScan, c: char): LongScan
  {
    if IsSeparator(c) then scan.(readingName := false)
    else if scan.readingName then scan.(name := scan.name + [c])
    else scan.(value := scan.value + [c])
  }

  function ScanLong(s: string): LongScan
  {
    if s == [] then LongScan([], [], true) else LongStep(ScanLong(s[..|s| - 1]), s[|s| - 1])
  }

  /** The flag a long argument names: the characters after "--". */
  function LongFlag(arg: string): CmdLineFlag
    requires IsLongFlag(arg)
  {
    var scan := ScanLong(arg[2..]);
    CmdLineFlag(scan.name, scan.value)
  }

  predicate NoSeparators(s: string)
  {
    forall i :: 0 <= i < |s| ==> !IsSeparator(s[i])
  }

  /** Characters other than separators only extend the part being read. */
  lemma {:induction false} ScanPlain(p: string, s: string)
    requires NoSeparators(s)
    ensures var before := ScanLong(p);
      ScanLong(p + s) == if before.readingName then before.(name := before.name + s) else before.(value := before.value + s)
    decreases |s|
  {
    if s == [] {
      assert p + s == p;
      assert ScanLong(p).name + s == ScanLong(p).name && ScanLong(p).value + s == ScanLong(p).value;
    } else {
      var init := s[..|s| - 1];
      ScanPlain(p, init);
      assert (p + s)[..|p + s| - 1] == p + init;
      assert (p + s)[|p + s| - 1] == s[|s| - 1];
      assert init + [s[|s| - 1]] == s;
      var before := ScanLong(p);
      if before.readingName {
        assert before.name + init + [s[|s| - 1]] == before.name + s;
      } else {
        assert before.value + init + [s[|s| - 1]] == before.value + s;
      }
    }
  }

  /** A separator stops the name; later ones change nothing. */
  lemma ScanSeparator(p: string, c: char)
    requires IsSeparator(c)
    ensures ScanLong(p + [c]) == ScanLong(p).(readingName := false)
  {
    assert (p + [c])[..|p|] == p;
  }

  /** A name without separators is read as the name. */
  lemma ScanName(name: string)
    requires NoSeparators(name)
    ensures ScanLong(name) == LongScan(name, [], true)
  {
    var empty: string := [];
    assert empty + name == name;
    ScanPlain(empty, name);
  }

  /** After the name and a separator, plain characters go to the value. */
  lemma ScanValue(front: string, name: string, value: string)
    requires ScanLong(front) == LongScan(name, [], false)
    requires NoSeparators(value)
    ensures ScanLong(front + value) == LongScan(name, value, false)
  {
    ScanPlain(front, value);
    var empty: string := [];
    assert empty + value == value;
  }

  /** A long flag is read from what follows its "--". */
  lemma LongFlagAfterDashes(arg: string, rest: string)
    requires |rest| > 0 && arg == "--" + rest
    ensures IsLongFlag(arg) && LongFlag(arg) == CmdLineFlag(ScanLong(rest).name, ScanLong(rest).value)
  {
    assert arg[2..] == rest;
  }

  /** "--name=value" names the flag `name` with value `value`. */
  lemma LongFlagRoundTrip(name: string, value: string)
    requires NoSeparators(name) && NoSeparators(value) && |name| > 0
    ensures LongFlag("--" + name + "=" + value) == CmdLineFlag(name, value)
  {
    var front := name + "=";
    var rest := front + value;
    ScanName(name);
    ScanSeparator(name, '=');
    assert front == name + ['='];
    ScanValue(front, name, value);
    assert "--" + name + "=" + value == "--" + rest;
    LongFlagAfterDashes("--" + rest, rest);
  }

  /** "--name=\"value\"" names the same flag: both quotes are dropped. */
  lemma QuotedLongFlagRoundTrip(name: string, value: string)
    requires NoSeparators(name) && NoSeparators(value) && |name| > 0
    ensures LongFlag("--" + name + "=\"" + value + "\"") == CmdLineFlag(name, value)
  {
    var eq := name + "=";
    var front := name + "=\"";
    var body := front + value;
    var rest := body + "\"";
    ScanName(name);
    ScanSeparator(name, '=');
    assert eq == name + ['='];
    ScanSeparator(eq, '"');
    assert front == eq + ['"'];
    ScanValue(front, name, value);
    ScanSeparator(body, '"');
    assert rest == body + ['"'];
    assert "--" + name + "=\"" + value + "\"" == "--" + rest;
    LongFlagAfterDashes("--" + rest, rest);
  }

  // ---------------------------------------------------------------------
  // Single-letter flags and malformed arguments
  // ---------------------------------------------------------------------

  const BadFlagCharMessage := "Single character command flags must be only upper/lower-case letters! "
  const MalformedMessage := "Malformed command line flag "

  /** The flags and errors one or more arguments produce. */
  datatype Parsed = Parsed(flags: seq<CmdLineFlag>, errors: seq<string>)

  /** The characters 1..n-1 of a "-xyz" argument: a flag per letter and an
      error per other character. */
  function ShortFlagsUpTo(arg: string, n: nat): (r: Parsed)
    requires 1 <= n <= |arg|
    ensures |r.flags| + |r.errors| == n - 1
  {
    if n == 1 then Parsed([], [])
    else
      var prev := ShortFlagsUpTo(arg, n - 1);
      var c := arg[n - 1];
      if IsFlagLetter(c) then prev.(flags := prev.flags + [CmdLineFlag([c], [])])
      else prev.(errors := prev.errors + [BadFlagCharMessage + arg])
  }

  /** Every short flag is one letter with no value, and the errors are none
      exactly when every character after the dash is a letter. */
  lemma {:induction false} ShortFlagsAreLetters(arg: string, n: nat)
    requires 1 <= n <= |arg|
    ensures forall k :: 0 <= k < |ShortFlagsUpTo(arg, n).flags| ==>
      var f := ShortFlagsUpTo(arg, n).flags[k]; |f.name| == 1 && IsFlagLetter(f.name[0]) && f.value == []
    ensures ShortFlagsUpTo(arg, n).errors == [] <==> forall i :: 1 <= i < n ==> IsFlagLetter(arg[i])
  {
    if n > 1 {
      ShortFlagsAreLetters(arg, n - 1);
    }
  }

  /** What processFlags makes of one argument. */
  function ArgParsed(arg: string): (r: Parsed)
    ensures IsLongFlag(arg) ==> r == Parsed([LongFlag(arg)], [])
    ensures |arg| == 0 || arg[0] != '-' ==> r == Parsed([], [MalformedMessage + arg])
  {
    if IsLongFlag(arg) then Parsed([LongFlag(arg)], [])
    else if |arg| > 0 && arg[0] == '-' then ShortFlagsUpTo(arg, |arg|)
    else Parsed([], [MalformedMessage + arg])
  }

  /** What processFlags makes of the first n arguments, in order. */
  function ArgsParsed(args: seq<string>, n: nat): Parsed
    requires n <= |args|
  {
    if n == 0 then Parsed([], [])
    else
      var prev := ArgsParsed(args, n - 1);
      var one := ArgParsed(args[n - 1]);
      Parsed(prev.flags + one.flags, prev.errors + one.errors)
  }

  /** Argument i's flags and errors follow those of the arguments before it. */
  lemma ArgsParsedNext(args: seq<string>, i: nat, flags: seq<CmdLineFlag>, errors: seq<string>,
                       flags0: seq<CmdLineFlag>, errors0: seq<string>)
    requires i < |args|
    requires flags == flags0 + ArgsParsed(args, i).flags && errors == errors0 + ArgsParsed(args, i).errors
    ensures flags + ArgParsed(args[i]).flags == flags0 + ArgsParsed(args, i + 1).flags
    ensures errors + ArgParsed(args[i]).errors == errors0 + ArgsParsed(args, i + 1).errors
  {
  }

  /** An argument list is error-free exactly when each argument is. */
  lemma {:induction false} ArgsErrorFree(args: seq<string>, n: nat)
    requires n <= |args|
    ensures ArgsParsed(args, n).errors == [] <==> forall i :: 0 <= i < n ==> ArgParsed(args[i]).errors == []
  {
    if n > 0 {
      ArgsErrorFree(args, n - 1);
    }
  }

  // ---------------------------------------------------------------------
  // The value parseCmdLine returns
  // ---------------------------------------------------------------------

  /** As written, parseCmdLine returns hadErrors(): true when some argument
      was refused. */
  function ParseResultAsWritten(argv: seq<string>): bool
  {
    |argv| > 1 && ArgsParsed(argv[1..], |argv| - 1).errors != []
  }

  /** As documented: true exactly when there were arguments after the
      program name and every one of them parsed without error. */
  function ParseSucceeded(argv: seq<string>): (ok: bool)
    ensures ok <==> |argv| > 1 && forall i :: 1 <= i < |argv| ==> ArgParsed(argv[i]).errors == []
  {
    if |argv| <= 1 then false
    else
      var args := argv[1..];
      ArgsErrorFree(args, |args|);
      assert forall i :: 1 <= i < |argv| ==> args[i - 1] == argv[i];
      ArgsParsed(args, |args|).errors == []
  }

  /** A clean "-x" is reported as a failure as written, and a malformed
      argument as a success. */
  lemma ParseResultAsWrittenInverted()
    ensures !ParseResultAsWritten(["tool", "-x"]) && ParseSucceeded(["tool", "-x"])
    ensures ParseResultAsWritten(["tool", "x"]) && !ParseSucceeded(["tool", "x"])
  {
    var good: seq<string> := ["tool", "-x"];
    assert good[1..] == ["-x"];
    assert ArgParsed("-x") == Parsed([CmdLineFlag("x", "")], []);
    var bad: seq<string> := ["tool", "x"];
    assert bad[1..] == ["x"];
  }

  /** The text getFlagsString prints for one flag: its name, then
      ='value' when there is a value, then ", ". */
  function FlagText(f: CmdLineFlag): string
  {
    f.name + (if f.value == [] then [] else "='" + f.value + "'") + ", "
  }

  /** The list getFlagsString prints: each flag's text in order. */
  function FlagsString(flags: seq<CmdLineFlag>): string
  {
    if flags == [] then [] else FlagsString(flags[..|flags| - 1]) + FlagText(flags[|flags| - 1])
  }

  /** Printing two lists one after the other prints their concatenation. */
  lemma {:induction false} FlagsStringAppend(a: seq<CmdLineFlag>, b: seq<CmdLineFlag>)
    ensures FlagsString(a + b) == FlagsString(a) + FlagsString(b)
    decreases |b|
  {
    if b == [] {
      assert a + b == a;
    } else {
      var init, last := b[..|b| - 1], b[|b| - 1];
      FlagsStringAppend(a, init);
      var ab := a + b;
      assert ab[..|ab| - 1] == a + init;
      assert ab[|ab| - 1] == last;
      calc {
        FlagsString(ab);
        FlagsString(a + init) + FlagText(last);
        (FlagsString(a) + FlagsString(init)) + FlagText(last);
        FlagsString(a) + (FlagsString(init) + FlagText(last));
        FlagsString(a) + FlagsString(b);
      }
    }
  }

  // ---------------------------------------------------------------------
  // The parser
  // ---------------------------------------------------------------------

  class SimpleCmdLineParser {
    var commandFlags: seq<CmdLineFlag>
    var arguments: seq<string>
    var errorList: seq<string>

    constructor ()
      ensures commandFlags == [] && arguments == [] && errorList == []
    {
      commandFlags := [];
      arguments := [];
      errorList := [];
    }

    /** The constructor taking a command line parses it at once. */
    constructor FromCommandLine(argv: seq<string>)
      ensures |argv| <= 1 ==> commandFlags == [] && arguments == [] && errorList == []
      ensures |argv| > 1 ==>
        arguments == argv[1..] &&
        commandFlags == ArgsParsed(argv[1..], |argv| - 1).flags &&
        errorList == ArgsParsed(argv[1..], |argv| - 1).errors
    {
      commandFlags := [];
      arguments := [];
      errorList := [];
      new;
      var hadErrors := ParseCmdLine(argv);
    }

    /** The long flag an argument starting with "--" names. */
    static method ReadLongFlag(arg: string) returns (flag: CmdLineFlag)
      requires IsLongFlag(arg)
      ensures flag == LongFlag(arg)
    {
      var scan := LongScan([], [], true);
      var c := 2;
      while c < |arg|
        invariant 2 <= c <= |arg|
        invariant scan == ScanLong(arg[2..c])
      {
        assert arg[2..c + 1][..c - 2] == arg[2..c];
        if arg[c] == '=' || arg[c] == '"' {
          scan := scan.(readingName := false);
        } else if scan.readingName {
          scan := scan.(name := scan.name + [arg[c]]);
        } else {
          scan := scan.(value := scan.value + [arg[c]]);
        }
        c := c + 1;
      }
      assert arg[2..] == arg[2..c];
      flag := CmdLineFlag(scan.name, scan.value);
    }

    /** processFlags: every argument in turn; flags and errors are appended
        to those already there. The source returns hadErrors() here too; its
        only caller passes that value on, so ParseCmdLine computes it. */
    method ProcessFlags()
      modifies this`commandFlags, this`errorList
      ensures commandFlags == old(commandFlags) + ArgsParsed(arguments, |arguments|).flags
      ensures errorList == old(errorList) + ArgsParsed(arguments, |arguments|).errors
    {
      var i := 0;
      while i < |arguments|
        invariant i <= |arguments|
        invariant commandFlags == old(commandFlags) + ArgsParsed(arguments, i).flags
        invariant errorList == old(errorList) + ArgsParsed(arguments, i).errors
      {
        ghost var flags0, errors0 := commandFlags, errorList;
        ProcessArg(arguments[i]);
        ArgsParsedNext(arguments, i, flags0, errors0, old(commandFlags), old(errorList));
        i := i + 1;
      }
    }

    /** One argument of processFlags: a long flag, a run of single-letter
        flags, or a malformed argument. */
    method ProcessArg(arg: string)
      modifies this`commandFlags, this`errorList
      ensures commandFlags == old(commandFlags) + ArgParsed(arg).flags
      ensures errorList == old(errorList) + ArgParsed(arg).errors
    {
      if |arg| > 2 && arg[0] == '-' && arg[1] == '-' {
        var flag := ReadLongFlag(arg);
        commandFlags := commandFlags + [flag];
      } else if |arg| > 0 && arg[0] == '-' {
        var c := 1;
        while c < |arg|
          invariant 1 <= c <= |arg|
          invariant commandFlags == old(commandFlags) + ShortFlagsUpTo(arg, c).flags
          invariant errorList == old(errorList) + ShortFlagsUpTo(arg, c).errors
        {
          if IsFlagLetter(arg[c]) {
            commandFlags := commandFlags + [CmdLineFlag([arg[c]], [])];
          } else {
            errorList := errorList + [BadFlagCharMessage + arg];
          }
          c := c + 1;
        }
      } else {
        errorList := errorList + [MalformedMessage + arg];
      }
    }

    /** parseCmdLine: nothing happens without arguments after the program
        name; otherwise the errors and arguments are replaced, the flags
        are added to. As written it returns what processFlags returns,
        hadErrors(): true when some argument was refused, the negation of
        the documented result ParseSucceeded whenever there are arguments. */
    method ParseCmdLine(argv: seq<string>) returns (r: bool)
      modifies this
      ensures |argv| <= 1 ==> !r && unchanged(this)
      ensures |argv| > 1 ==>
        arguments == argv[1..] &&
        commandFlags == old(commandFlags) + ArgsParsed(argv[1..], |argv| - 1).flags &&
        errorList == ArgsParsed(argv[1..], |argv| - 1).errors
      ensures r == ParseResultAsWritten(argv)
      ensures |argv| > 1 ==> (r <==> errorList != [])
      ensures |argv| > 1 ==> r == !ParseSucceeded(argv)
    {
      if |argv| <= 1 {
        return false;
      }
      errorList := [];
      arguments := [];
      var i := 1;
      while i < |argv|
        invariant 1 <= i <= |argv| && arguments == argv[1..i]
        invariant errorList == [] && commandFlags == old(commandFlags)
      {
        arguments := arguments + [argv[i]];
        i := i + 1;
      }
      ProcessFlags();
      r := errorList != [];
    }

    function GetArgCount(): (n: int)
      reads this
      ensures n == |arguments|
    {
      |arguments|
    }

    /** getArg: the source asserts the index is in range. */
    function GetArg(index: nat): (arg: string)
      reads this
      requires index < |arguments|
      ensures arg == arguments[index]
    {
      arguments[index]
    }

    /** getFlag by position: the source asserts the index is in range. */
    function GetFlagAt(index: nat): (flag: CmdLineFlag)
      reads this
      requires index < |commandFlags|
      ensures flag == commandFlags[index]
    {
      commandFlags[index]
    }

    function GetErrorList(): (errors: seq<string>)
      reads this
      ensures errors == errorList
    {
      errorList
    }

    function GetFlagCount(): (n: int)
      reads this
      ensures n == |commandFlags|
    {
      |commandFlags|
    }

    /** hasFlag: whether some flag has this name. */
    method HasFlag(flagName: string) returns (found: bool)
      ensures found <==> exists k :: 0 <= k < |commandFlags| && commandFlags[k].name == flagName
    {
      var k := 0;
      while k < |commandFlags|
        invariant k <= |commandFlags|
        invariant forall j :: 0 <= j < k ==> commandFlags[j].name != flagName
      {
        if commandFlags[k].name == flagName {
          return true;
        }
        k := k + 1;
      }
      return false;
    }

    /** getFlag by name: the first flag with that name, or an empty flag. */
    method GetFlag(flagName: string) returns (found: bool, flagOut: CmdLineFlag)
      ensures found ==> exists k :: 0 <= k < |commandFlags| && commandFlags[k] == flagOut && flagOut.name == flagName && (forall j :: 0 <= j < k ==> commandFlags[j].name != flagName)
      ensures !found ==> flagOut == CmdLineFlag([], []) && forall k :: 0 <= k < |commandFlags| ==> commandFlags[k].name != flagName
    {
      var k := 0;
      while k < |commandFlags|
        invariant k <= |commandFlags|
        invariant forall j :: 0 <= j < k ==> commandFlags[j].name != flagName
      {
        if commandFlags[k].name == flagName {
          return true, commandFlags[k];
        }
        k := k + 1;
      }
      return false, CmdLineFlag([], []);
    }

    /** getFlagsString. */
    method GetFlagsString() returns (flagStr: string)
      ensures flagStr == FlagsString(commandFlags)
    {
      flagStr := [];
      var k := 0;
      while k < |commandFlags|
        invariant k <= |commandFlags|
        invariant flagStr == FlagsString(commandFlags[..k])
      {
        var f := commandFlags[k];
        assert commandFlags[..k + 1][..k] == commandFlags[..k];
        ghost var before := flagStr;
        flagStr := flagStr + f.name;
        if f.value != [] {
          flagStr := flagStr + "='" + f.value + "'";
        }
        flagStr := flagStr + ", ";
        assert flagStr == before + FlagText(f);
        k := k + 1;
      }
      assert commandFlags[..k] == commandFlags;
    }

    method ClearFlags()
      modifies this`commandFlags
      ensures commandFlags == []
    {
      commandFlags := [];
    }

    function HadErrors(): (b: bool)
      reads this
      ensures b <==> |errorList| > 0
    {
      errorList != []
    }

    method ClearErrors()
      modifies this`errorList
      ensures errorList == []
    {
      errorList := [];
    }
  }
}
