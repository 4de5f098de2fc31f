/** URL extraction from the argument list a second launch forwards to the
    running instance (`processArgs` in src/main.js).

    Both regular expressions are anchored with `^` and have no `m` flag, so
    each test is a prefix test: `^https://www\.notion\.so/.*` accepts any
    argument that starts with `https://www.notion.so/` (`.*` may match
    nothing), and `^notion://` any argument that starts with `notion://`.
    The `g` flag makes `test` stateful through `lastIndex`, but a successful
    test returns from the function at once and a failed test resets
    `lastIndex` to 0, so every test starts at index 0 and the prefix reading
    is exact. */
module Args {
  import opened Options
  import opened Strings

  /** The page the shell loads at start-up and the base of every rewritten
      `notion://` link. */
  const AppUrl: string := "https://www.notion.so/login"

  /** What the first pattern recognises. */
  const WebPrefix: string := "https://www.notion.so/"

  /** What the second pattern recognises. */
  const SchemePrefix: string := "notion://"

  /** How many leading characters a `notion://` argument loses. This is
      fixed, and two more than the length of `SchemePrefix`. */
  const SchemeSkip: nat := 11

  predicate IsWebLink(arg: string) {
    IsPrefix(WebPrefix, arg)
  }

  predicate IsSchemeLink(arg: string) {
    IsPrefix(SchemePrefix, arg)
  }

  /** An argument one of the two patterns accepts. */
  predicate Recognised(arg: string) {
    IsWebLink(arg) || IsSchemeLink(arg)
  }

  /** `i` is the position of the first recognised argument. */
  predicate FirstRecognised(args: seq<string>, i: int) {
    0 <= i < |args| && Recognised(args[i]) &&
    forall j :: 0 <= j < i ==> !Recognised(args[j])
  }

  /** The URL a recognised argument stands for: a web link as it is, a
      `notion://` link as the login page followed by whatever is left after
      its first eleven characters. A web link is checked first, so an
      argument matching both would be taken verbatim (no string does). */
  function Target(arg: string): string
    requires Recognised(arg)
  {
    if IsWebLink(arg) then arg else AppUrl + Substring(arg, SchemeSkip)
  }

  /** `processArgs(args)`: the URL of the first recognised argument, or
      `None` (JavaScript `null`) when no argument is recognised. Whatever it
      returns lies under `https://www.notion.so/`. */
  function ProcessArgs(args: seq<string>): (r: Option<string>)
    ensures r.None? <==> forall i :: 0 <= i < |args| ==> !Recognised(args[i])
    ensures r.Some? ==> exists i :: FirstRecognised(args, i) && r.value == Target(args[i])
    ensures r.Some? ==> IsPrefix(WebPrefix, r.value)
  {
    if |args| == 0 then
      None
    else
      var arg := args[0];
      if IsWebLink(arg) then
        assert FirstRecognised(args, 0);
        Some(arg)
      else if IsSchemeLink(arg) then
        assert FirstRecognised(args, 0);
        assert (AppUrl + Substring(arg, SchemeSkip))[..|WebPrefix|] == WebPrefix;
        Some(AppUrl + Substring(arg, SchemeSkip))
      else
        var r := ProcessArgs(args[1..]);
        assert forall i :: 1 <= i < |args| ==> args[i] == args[1..][i - 1];
        if r.Some? then
          var i :| FirstRecognised(args[1..], i) && r.value == Target(args[1..][i]);
          assert FirstRecognised(args, i + 1);
          r
        else
          r
  }

  /** The argument at the first recognised position decides the result. */
  lemma FirstRecognisedDecides(args: seq<string>, i: int)
    requires FirstRecognised(args, i)
    ensures ProcessArgs(args) == Some(Target(args[i]))
  {
  }

  /** Once a recognised argument has been seen, the arguments after it are
      never examined: appending any arguments changes nothing. */
  lemma {:induction false} LaterArgumentsIgnored(args: seq<string>, rest: seq<string>)
    requires exists i :: 0 <= i < |args| && Recognised(args[i])
    ensures ProcessArgs(args + rest) == ProcessArgs(args)
    decreases |args|
  {
    assert (args + rest)[0] == args[0];
    if !Recognised(args[0]) {
      assert (args + rest)[1..] == args[1..] + rest;
      var i :| 0 <= i < |args| && Recognised(args[i]);
      assert args[1..][i - 1] == args[i];
      LaterArgumentsIgnored(args[1..], rest);
    }
  }

  /** An argument neither pattern accepts is passed over. */
  lemma SkipOne(args: seq<string>)
    requires |args| > 0 && !Recognised(args[0])
    ensures ProcessArgs(args) == ProcessArgs(args[1..])
  {
  }

  /** Leading arguments that neither pattern accepts are skipped. */
  lemma {:induction false} UnrecognisedSkipped(skipped: seq<string>, rest: seq<string>)
    requires forall i :: 0 <= i < |skipped| ==> !Recognised(skipped[i])
    ensures ProcessArgs(skipped + rest) == ProcessArgs(rest)
    decreases |skipped|
  {
    if |skipped| == 0 {
      assert skipped + rest == rest;
    } else {
      var all := skipped + rest;
      assert all[0] == skipped[0];
      SkipOne(all);
      assert all[1..] == skipped[1..] + rest;
      UnrecognisedSkipped(skipped[1..], rest);
    }
  }

  /** A web link is returned verbatim, whatever follows the prefix
      (including nothing) and whatever arguments follow it. */
  lemma WebLinkVerbatim(path: string, rest: seq<string>)
    ensures ProcessArgs([WebPrefix + path] + rest) == Some(WebPrefix + path)
  {
  }

  /** A `notion://` link loses its scheme and the two characters after it:
      `notion://` followed by `tail` becomes the login page followed by
      `tail` without its first two characters (all of `tail` when it is at
      most two characters long). */
  lemma SchemeLinkLosesTwoCharacters(tail: string, rest: seq<string>)
    ensures ProcessArgs([SchemePrefix + tail] + rest)
         == Some(AppUrl + (if |tail| <= 2 then "" else tail[2..]))
  {
  }

  /** The examples a reader would try first: a page link, a deep link, and
      an argument list with nothing recognisable in it. */
  lemma Examples()
    ensures ProcessArgs(["https://www.notion.so/page-abc"]) == Some("https://www.notion.so/page-abc")
    ensures ProcessArgs(["notion://page-abc"]) == Some("https://www.notion.so/login" + "ge-abc")
    ensures ProcessArgs(["--flag"]) == None
    ensures ProcessArgs([]) == None
  {
  }
}
