/** Kubelet's two credential-provider flags on a command line (installer/defaultkubelet.go,
    stripCredentialProviderFlags; installer/discover.go, flagValue). */
module Flags {
  import opened Text

  const BIN_DIR := "--image-credential-provider-bin-dir"
  const CONFIG := "--image-credential-provider-config"

  predicate IsFlag(arg: string) { arg == BIN_DIR || arg == CONFIG }
  predicate IsAssigned(arg: string) { HasPrefix(arg, BIN_DIR + "=") || HasPrefix(arg, CONFIG + "=") }

  /** The words the installer adds. */
  function Ours(binDir: string, configFile: string): seq<string> {
    [BIN_DIR + "=" + binDir, CONFIG + "=" + configFile]
  }

  /** The arguments without both flags, in either form. */
  function Strip(args: seq<string>): seq<string>
    decreases |args|
  {
    if args == [] then []
    else if IsFlag(args[0]) then (if |args| == 1 then [] else Strip(args[2..]))
    else if IsAssigned(args[0]) then Strip(args[1..])
    else [args[0]] + Strip(args[1..])
  }

  /** What is left of the arguments from i on, after a flag or not. */
  function StripRest(args: seq<string>, i: nat, skip: bool): seq<string>
    requires i <= |args|
  {
    if !skip then Strip(args[i..]) else if i == |args| then [] else Strip(args[i + 1..])
  }

  lemma StripStep(args: seq<string>, i: nat)
    requires i < |args|
    ensures StripRest(args, i, true) == StripRest(args, i + 1, false)
    ensures IsFlag(args[i]) ==> StripRest(args, i, false) == StripRest(args, i + 1, true)
    ensures !IsFlag(args[i]) && IsAssigned(args[i]) ==> StripRest(args, i, false) == StripRest(args, i + 1, false)
    ensures !IsFlag(args[i]) && !IsAssigned(args[i]) ==> StripRest(args, i, false) == [args[i]] + StripRest(args, i + 1, false)
  {
    assert args[i..][1..] == args[i + 1..];
    assert i + 1 < |args| ==> args[i..][2..] == args[i + 2..];
  }

  method StripCredentialProviderFlags(args: seq<string>) returns (out: seq<string>)
    ensures out == Strip(args)
  {
    out := [];
    var skipNext := false;
    assert args[0..] == args;
    for i := 0 to |args|
      invariant Strip(args) == out + StripRest(args, i, skipNext)
    {
      var arg := args[i];
      StripStep(args, i);
      if skipNext {
        skipNext := false;
        continue;
      }
      if IsFlag(arg) {
        skipNext := true;
        continue;
      }
      if IsAssigned(arg) {
        continue;
      }
      Assoc(out, [arg], StripRest(args, i + 1, false));
      out := out + [arg];
    }
    assert args[|args|..] == [];
  }

  /** No argument mentions either flag. */
  predicate Free(args: seq<string>) {
    forall k :: 0 <= k < |args| ==> !IsFlag(args[k]) && !IsAssigned(args[k])
  }

  lemma {:induction false} StripIsFree(args: seq<string>)
    ensures Free(Strip(args))
    decreases |args|
  {
    if args == [] {
    } else if IsFlag(args[0]) {
      if |args| > 1 { StripIsFree(args[2..]); }
    } else {
      StripIsFree(args[1..]);
    }
  }

  /** Stripping takes the flags and nothing else: words without them pass unchanged, and
      the installer's own words vanish. */
  lemma {:induction false} StripFreePrefix(free: seq<string>, rest: seq<string>)
    requires Free(free)
    ensures Strip(free + rest) == free + Strip(rest)
  {
    if free == [] {
      assert free + rest == rest;
    } else {
      assert (free + rest)[1..] == free[1..] + rest;
      StripFreePrefix(free[1..], rest);
    }
  }

  lemma OursAreAssigned(binDir: string, configFile: string)
    ensures forall w :: w in Ours(binDir, configFile) ==> IsAssigned(w) && !IsFlag(w)
    ensures !HasPrefix(CONFIG + "=" + configFile, BIN_DIR + "=") && CONFIG + "=" + configFile != BIN_DIR
    ensures !HasPrefix(BIN_DIR + "=" + binDir, CONFIG + "=") && BIN_DIR + "=" + binDir != CONFIG
  {
    var b, c := BIN_DIR + "=" + binDir, CONFIG + "=" + configFile;
    assert b[..|BIN_DIR| + 1] == BIN_DIR + "=";
    assert c[..|CONFIG| + 1] == CONFIG + "=";
    assert BIN_DIR[28] == 'b' && CONFIG[28] == 'c';
    assert b[28] == 'b' && c[28] == 'c';
    assert (BIN_DIR + "=")[28] == 'b' && (CONFIG + "=")[28] == 'c';
    assert |b| > |BIN_DIR| && |c| > |CONFIG|;
  }

  lemma StripOurs(binDir: string, configFile: string)
    ensures Strip(Ours(binDir, configFile)) == []
  {
    OursAreAssigned(binDir, configFile);
    var o := Ours(binDir, configFile);
    assert o[0] in o && o[1] in o;
    assert o[1..] == [o[1]];
    assert [o[1]][1..] == [];
    assert Strip([o[1]]) == Strip([]);
  }

  /** Merging a second time finds the words it left. */
  lemma StripMerged(args: seq<string>, binDir: string, configFile: string)
    ensures Strip(Strip(args) + Ours(binDir, configFile)) == Strip(args)
  {
    StripIsFree(args);
    StripFreePrefix(Strip(args), Ours(binDir, configFile));
    StripOurs(binDir, configFile);
  }

  // ---- Reading a flag back ---------------------------------------------------------------

  /** Whether argument `i` gives `flag` a value, and which. */
  predicate Sets(argv: seq<string>, i: nat, flag: string)
    requires i < |argv|
  {
    HasPrefix(argv[i], flag + "=") || (argv[i] == flag && i + 1 < |argv|)
  }

  function ValueAt(argv: seq<string>, i: nat, flag: string): string
    requires i < |argv| && Sets(argv, i, flag)
  {
    if HasPrefix(argv[i], flag + "=") then argv[i][|flag| + 1..] else argv[i + 1]
  }

  /** The value of the last of the first `n` arguments that gives one. */
  function LastValue(argv: seq<string>, n: nat, flag: string): string
    requires n <= |argv|
  {
    if n == 0 then ""
    else if Sets(argv, n - 1, flag) then ValueAt(argv, n - 1, flag)
    else LastValue(argv, n - 1, flag)
  }

  method FlagValue(argv: seq<string>, flag: string) returns (value: string)
    ensures value == LastValue(argv, |argv|, flag)
  {
    value := "";
    for i := 0 to |argv|
      invariant value == LastValue(argv, i, flag)
    {
      var arg := argv[i];
      if HasPrefix(arg, flag + "=") {
        value := arg[|flag| + 1..];
      } else if arg == flag && i + 1 < |argv| {
        value := argv[i + 1];
      }
    }
  }

  /** On any command line that ends in the installer's words, kubelet's parser takes the
      installer's two paths, whatever stands before them. */
  lemma OursWin(before: seq<string>, binDir: string, configFile: string)
    ensures var argv := before + Ours(binDir, configFile);
            && LastValue(argv, |argv|, BIN_DIR) == binDir
            && LastValue(argv, |argv|, CONFIG) == configFile
  {
    OursAreAssigned(binDir, configFile);
    var argv := before + Ours(binDir, configFile);
    var n := |argv|;
    assert argv[n - 1] == CONFIG + "=" + configFile && argv[n - 2] == BIN_DIR + "=" + binDir;
    assert argv[n - 1][|CONFIG| + 1..] == configFile;
    assert argv[n - 2][|BIN_DIR| + 1..] == binDir;
    assert HasPrefix(argv[n - 1], CONFIG + "=") && HasPrefix(argv[n - 2], BIN_DIR + "=");
    assert LastValue(argv, n, BIN_DIR) == LastValue(argv, n - 1, BIN_DIR);
  }

  /** Without the two flags on it, a command line gives neither a value. */
  lemma {:induction false} FreeHasNoValue(argv: seq<string>, n: nat, flag: string)
    requires Free(argv) && n <= |argv| && (flag == BIN_DIR || flag == CONFIG)
    ensures LastValue(argv, n, flag) == ""
  {
    if n > 0 { FreeHasNoValue(argv, n - 1, flag); }
  }

  /** Stripped of both flags, no command line gives either a value. */
  lemma StrippedHasNoValue(args: seq<string>, flag: string)
    requires flag == BIN_DIR || flag == CONFIG
    ensures LastValue(Strip(args), |Strip(args)|, flag) == ""
  {
    StripIsFree(args);
    FreeHasNoValue(Strip(args), |Strip(args)|, flag);
  }
}
