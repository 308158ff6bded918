/** app.js: the command line. Every argument is looked at in order: `getErrors`
    and `testLimit` switch their flag on, and an argument beginning with
    `redisPrefix` whose segment after the first `=` is not blank replaces the key
    prefix with that segment, untrimmed. */
module App {
  import opened JsStrings
  import MessagesHandler

  datatype Options = Options(displayErrorsMode: bool, testLimit: bool, prefix: string)

  const DefaultPrefix: string := "messages-cluster-app"

  const Defaults: Options := Options(false, false, DefaultPrefix)

  /** `val.indexOf('redisPrefix') === 0` and `val.split('=')[1]` exists, is
      truthy and is not blank once trimmed. */
  predicate PrefixAccepted(arg: string) {
    var parts := Split(arg, '=');
    StartsWith(arg, "redisPrefix") && |parts| > 1 && parts[1] != [] && |Trim(parts[1])| > 0
  }

  function PrefixValue(arg: string): string
    requires PrefixAccepted(arg)
  {
    Split(arg, '=')[1]
  }

  /** The body of the `forEach` for one argument. */
  function ApplyArg(o: Options, arg: string): Options {
    var o1 :=
      if arg == "getErrors" then o.(displayErrorsMode := true)
      else if arg == "testLimit" then o.(testLimit := true)
      else o;
    if PrefixAccepted(arg) then o1.(prefix := PrefixValue(arg)) else o1
  }

  /** The three variables after the `forEach` over `argv`. */
  function Parsed(argv: seq<string>): Options {
    if argv == [] then Defaults
    else ApplyArg(Parsed(argv[..|argv| - 1]), argv[|argv| - 1])
  }

  /** `process.argv.forEach(...)`. */
  method ParseArgs(argv: seq<string>) returns (displayErrorsMode: bool, testLimit: bool, prefix: string)
    ensures Options(displayErrorsMode, testLimit, prefix) == Parsed(argv)
  {
    displayErrorsMode, testLimit, prefix := false, false, DefaultPrefix;
    var index := 0;
    while index < |argv|
      invariant 0 <= index <= |argv|
      invariant Options(displayErrorsMode, testLimit, prefix) == Parsed(argv[..index])
    {
      assert argv[..index + 1][..index] == argv[..index];
      var val := argv[index];
      if val == "getErrors" {
        displayErrorsMode := true;
      } else if val == "testLimit" {
        testLimit := true;
      }
      if StartsWith(val, "redisPrefix") {
        var splittedValue := Split(val, '=');
        if |splittedValue| > 1 && splittedValue[1] != [] && |Trim(splittedValue[1])| > 0 {
          prefix := splittedValue[1];
        }
      }
      index := index + 1;
    }
    assert argv[..|argv|] == argv;
  }

  /** Each flag is on exactly when its word is one of the arguments; nothing
      switches it off. */
  lemma {:induction false} ParsedFlags(argv: seq<string>)
    ensures Parsed(argv).displayErrorsMode <==> "getErrors" in argv
    ensures Parsed(argv).testLimit <==> "testLimit" in argv
  {
    if argv != [] {
      var init := argv[..|argv| - 1];
      ParsedFlags(init);
      assert argv == init + [argv[|argv| - 1]];
    }
  }

  /** One argument moves the prefix only when it is accepted. */
  lemma ApplyArgPrefix(o: Options, arg: string)
    ensures ApplyArg(o, arg).prefix == if PrefixAccepted(arg) then PrefixValue(arg) else o.prefix
  {
  }

  /** The prefix is the default when no argument is accepted. */
  lemma {:induction false} ParsedPrefixDefault(argv: seq<string>)
    requires forall k | 0 <= k < |argv| :: !PrefixAccepted(argv[k])
    ensures Parsed(argv).prefix == DefaultPrefix
  {
    if argv != [] {
      var init := argv[..|argv| - 1];
      assert forall k | 0 <= k < |init| :: init[k] == argv[k];
      ParsedPrefixDefault(init);
      ApplyArgPrefix(Parsed(init), argv[|argv| - 1]);
    }
  }

  /** Otherwise it is the value of the last accepted argument. */
  lemma {:induction false} ParsedPrefixLast(argv: seq<string>, k: nat)
    requires k < |argv| && PrefixAccepted(argv[k])
    requires forall m | k < m < |argv| :: !PrefixAccepted(argv[m])
    ensures Parsed(argv).prefix == PrefixValue(argv[k])
  {
    var n := |argv|;
    var init := argv[..n - 1];
    ApplyArgPrefix(Parsed(init), argv[n - 1]);
    if k < n - 1 {
      assert forall m | 0 <= m < |init| :: init[m] == argv[m];
      ParsedPrefixLast(init, k);
    }
  }

  /** The prefix the node gets is never blank. */
  lemma {:induction false} ParsedPrefixNotBlank(argv: seq<string>)
    ensures |Trim(Parsed(argv).prefix)| > 0
  {
    if argv == [] {
      var p := DefaultPrefix;
      assert p[0] == 'm' && !IsJsWhitespace(p[0]);
      TrimNonEmpty(p);
    } else {
      var init := argv[..|argv| - 1];
      ParsedPrefixNotBlank(init);
      ApplyArgPrefix(Parsed(init), argv[|argv| - 1]);
    }
  }

  /** `generatorLockResource`. */
  function LockResource(prefix: string): string {
    prefix + ":generator:lock"
  }

  /** The generator lock lies outside both namespaces a node scans, so no drain
      or display pass ever claims it. */
  lemma LockResourceIsNotScanned(prefix: string)
    ensures !StartsWith(LockResource(prefix), MessagesHandler.MessagesPrefix(prefix))
    ensures !StartsWith(LockResource(prefix), MessagesHandler.ErrorsPrefix(prefix))
  {
    var p := prefix + ":";
    assert LockResource(prefix) == p + "generator:lock";
    assert MessagesHandler.MessagesPrefix(prefix) == p + "messages:";
    assert MessagesHandler.ErrorsPrefix(prefix) == p + "handling_errors:";
    DivergentConcat(p, "generator:lock", "messages:");
    DivergentConcat(p, "generator:lock", "handling_errors:");
  }
}
