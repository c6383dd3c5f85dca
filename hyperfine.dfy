/**
 * launch_hyperfine: the argument vector EvalMe hands to the external timing
 * harness, hyperfine. Every option the user gave is forwarded as a
 * "--name value" pair; the command to benchmark goes last.
 */
module Hyperfine {
  import opened Wrappers
  import opened Namespaces

  const Program := "hyperfine"
  const CommandAttr := "command"

  /** The two argv entries one option contributes; an option left at None contributes none. */
  function Pair(a: Attr): seq<string> {
    match a.value
    case None => []
    case Some(v) => ["--" + a.name, v]
  }

  /** The flag entries for a mapping, in its iteration order. */
  function Flags(attrs: seq<Attr>): seq<string> {
    if attrs == [] then [] else Flags(attrs[..|attrs| - 1]) + Pair(attrs[|attrs| - 1])
  }

  /** launch_hyperfine's argument vector for a namespace, or the exception it raises. */
  function HyperfineArgv(attrs: seq<Attr>): Result<seq<string>> {
    match Lookup(attrs, CommandAttr)
    case None => Err(AttributeError(CommandAttr))
    case Some(None) => Err(TypeError(CommandAttr))
    case Some(Some(command)) => Ok([Program] + Flags(Without(attrs, CommandAttr)) + [command])
  }

  /** An attribute of the caller's namespace that becomes a flag. */
  predicate Forwarded(a: Attr) {
    a.name != CommandAttr && a.value.Some?
  }

  /** Positions in the caller's namespace of the attributes that become flags, in order. */
  function FlagSources(attrs: seq<Attr>): seq<nat> {
    if attrs == [] then []
    else FlagSources(attrs[..|attrs| - 1]) + (if Forwarded(attrs[|attrs| - 1]) then [|attrs| - 1] else [])
  }

  lemma {:induction false} FlagsAppend(w: seq<Attr>, a: Attr)
    ensures Flags(w + [a]) == Flags(w) + Pair(a)
  {
    assert (w + [a])[..|w + [a]| - 1] == w;
  }

  /**
   * The flags are exactly the forwarded attributes: FlagSources picks every
   * attribute that is not the command and has a value, and nothing else, in
   * the namespace's own order.
   */
  lemma {:induction false} FlagSourcesExact(attrs: seq<Attr>)
    ensures forall k :: 0 <= k < |FlagSources(attrs)| ==> FlagSources(attrs)[k] < |attrs|
    ensures forall k, l :: 0 <= k < l < |FlagSources(attrs)| ==> FlagSources(attrs)[k] < FlagSources(attrs)[l]
    ensures forall i :: 0 <= i < |attrs| ==> (i in FlagSources(attrs) <==> Forwarded(attrs[i]))
  {
    if attrs != [] {
      var init := attrs[..|attrs| - 1];
      FlagSourcesExact(init);
      assert forall i :: 0 <= i < |init| ==> init[i] == attrs[i];
    }
  }

  lemma {:induction false} FlagsLength(attrs: seq<Attr>)
    ensures |Flags(Without(attrs, CommandAttr))| == 2 * |FlagSources(attrs)|
  {
    if attrs != [] {
      FlagsLength(attrs[..|attrs| - 1]);
      FlagsStep(attrs);
    }
  }

  /** The k-th forwarded attribute yields entries 2k and 2k + 1 of the flags. */
  lemma {:induction false} FlagsAt(attrs: seq<Attr>, k: nat)
    requires k < |FlagSources(attrs)|
    ensures FlagSources(attrs)[k] < |attrs| && Forwarded(attrs[FlagSources(attrs)[k]])
    ensures 2 * k + 1 < |Flags(Without(attrs, CommandAttr))|
    ensures Flags(Without(attrs, CommandAttr))[2 * k] == "--" + attrs[FlagSources(attrs)[k]].name
    ensures Flags(Without(attrs, CommandAttr))[2 * k + 1] == attrs[FlagSources(attrs)[k]].value.value
  {
    var init := attrs[..|attrs| - 1];
    FlagsStep(attrs);
    FlagsLength(init);
    if k < |FlagSources(init)| {
      FlagsAt(init, k);
      assert FlagSources(attrs)[k] == FlagSources(init)[k];
    }
  }

  /** Each forwarded attribute yields "--" + its name followed by its value, two entries per attribute. */
  lemma {:induction false} FlagsLayout(attrs: seq<Attr>)
    ensures |Flags(Without(attrs, CommandAttr))| == 2 * |FlagSources(attrs)|
    ensures forall k :: 0 <= k < |FlagSources(attrs)| ==>
              && FlagSources(attrs)[k] < |attrs|
              && Forwarded(attrs[FlagSources(attrs)[k]])
              && Flags(Without(attrs, CommandAttr))[2 * k] == "--" + attrs[FlagSources(attrs)[k]].name
              && Flags(Without(attrs, CommandAttr))[2 * k + 1] == attrs[FlagSources(attrs)[k]].value.value
  {
    FlagsLength(attrs);
    forall k | 0 <= k < |FlagSources(attrs)|
      ensures && FlagSources(attrs)[k] < |attrs|
              && Forwarded(attrs[FlagSources(attrs)[k]])
              && Flags(Without(attrs, CommandAttr))[2 * k] == "--" + attrs[FlagSources(attrs)[k]].name
              && Flags(Without(attrs, CommandAttr))[2 * k + 1] == attrs[FlagSources(attrs)[k]].value.value
    {
      FlagsAt(attrs, k);
    }
  }

  /** The last attribute adds its pair exactly when it is forwarded. */
  lemma {:induction false} FlagsStep(attrs: seq<Attr>)
    requires attrs != []
    ensures var init, last := attrs[..|attrs| - 1], attrs[|attrs| - 1];
            && FlagSources(attrs) == FlagSources(init) + (if Forwarded(last) then [|attrs| - 1] else [])
            && Flags(Without(attrs, CommandAttr))
               == Flags(Without(init, CommandAttr)) + (if Forwarded(last) then ["--" + last.name, last.value.value] else [])
  {
    var init, last := attrs[..|attrs| - 1], attrs[|attrs| - 1];
    var w := Without(init, CommandAttr);
    if last.name != CommandAttr {
      assert Without(attrs, CommandAttr) == w + [last];
      FlagsAppend(w, last);
    } else {
      assert Without(attrs, CommandAttr) == w;
    }
  }

  /**
   * The vector starts with "hyperfine", ends with the command, and between
   * them holds one adjacent "--name", "value" pair per forwarded attribute,
   * in the namespace's order.
   */
  lemma {:induction false} ArgvLayout(attrs: seq<Attr>)
    requires HyperfineArgv(attrs).Ok?
    ensures var argv := HyperfineArgv(attrs).value;
            var sources := FlagSources(attrs);
            && |argv| == 2 + 2 * |sources|
            && argv[0] == Program
            && argv[|argv| - 1] == Lookup(attrs, CommandAttr).value.value
            && forall k :: 0 <= k < |sources| ==>
                 && sources[k] < |attrs|
                 && Forwarded(attrs[sources[k]])
                 && argv[1 + 2 * k] == "--" + attrs[sources[k]].name
                 && argv[2 + 2 * k] == attrs[sources[k]].value.value
  {
    var argv := HyperfineArgv(attrs).value;
    var flags := Flags(Without(attrs, CommandAttr));
    FlagsLayout(attrs);
    assert argv == [Program] + flags + [Lookup(attrs, CommandAttr).value.value];
    assert forall j :: 0 <= j < |flags| ==> argv[1 + j] == flags[j];
  }

  /** No entry in flag position is "--command": the command is only ever the last entry. */
  lemma {:induction false} NoCommandFlag(attrs: seq<Attr>)
    requires HyperfineArgv(attrs).Ok?
    ensures var argv := HyperfineArgv(attrs).value;
            forall k :: 0 <= k < (|argv| - 2) / 2 ==> argv[1 + 2 * k] != "--" + CommandAttr
  {
    var argv := HyperfineArgv(attrs).value;
    var sources := FlagSources(attrs);
    ArgvLayout(attrs);
    FlagSourcesExact(attrs);
    forall k | 0 <= k < (|argv| - 2) / 2
      ensures argv[1 + 2 * k] != "--" + CommandAttr
    {
      var name := attrs[sources[k]].name;
      assert sources[k] in sources;
      assert name != CommandAttr;
      assert ("--" + name)[2..] == name;
      assert ("--" + CommandAttr)[2..] == CommandAttr;
    }
  }

  /**
   * launch_hyperfine up to the subprocess.run call: works on a deep copy with
   * the command deleted, so the caller's namespace is not modified (the
   * method has no modifies clause).
   */
  method LaunchHyperfine(arguments: Namespace) returns (r: Result<seq<string>>)
    requires arguments.Valid()
    ensures r == HyperfineArgv(arguments.attrs)
  {
    var argumentsCopy := arguments.Copy();
    var command := argumentsCopy.Get(CommandAttr);
    if command.None? {
      return Err(AttributeError(CommandAttr));
    }
    argumentsCopy.Delete(CommandAttr);
    var items := argumentsCopy.attrs;
    assert items == Without(arguments.attrs, CommandAttr);
    var argv: seq<string> := [];
    var i := 0;
    while i < |items|
      invariant 0 <= i <= |items|
      invariant argv == Flags(items[..i])
    {
      assert items[..i + 1][..i] == items[..i];
      var a := items[i];
      if a.value.Some? {
        argv := argv + ["--" + a.name];
        argv := argv + [a.value.value];
      }
      i := i + 1;
    }
    assert items[..i] == items;
    if command.value.None? {
      return Err(TypeError(CommandAttr));
    }
    argv := argv + [command.value.value];
    argv := [Program] + argv;
    assert argv == [Program] + Flags(items) + [command.value.value];
    r := Ok(argv);
  }
}
