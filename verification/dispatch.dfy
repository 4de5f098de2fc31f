/** What the running instance does when a second launch forwards its
    arguments (the `second-instance` handler in src/main.js). The window
    handle is reduced to whether a window exists, and the calls made on it
    are returned as a list of effects in the order they are made. */
module Dispatch {
  import opened Options
  import opened Strings
  import opened Args

  /** A call on the main window: `loadURL(url, { userAgent })` or
      `focus()`. */
  datatype Effect = Load(url: string, userAgent: string) | Focus

  /** JavaScript truthiness of `processArgs`'s result: `null` and the
      empty string are falsy. */
  predicate Truthy(url: Option<string>) {
    url.Some? && |url.value| > 0
  }

  /** The handler: with a window, load the extracted URL if there is one,
      then focus; with no window, do nothing. */
  function OnSecondInstance(hasWindow: bool, args: seq<string>, userAgent: string): (effects: seq<Effect>)
    ensures !hasWindow ==> effects == []
    ensures hasWindow ==> |effects| > 0 && effects[|effects| - 1] == Focus
    ensures forall u, ua :: Load(u, ua) in effects <==>
      hasWindow && ProcessArgs(args) == Some(u) && ua == userAgent
    ensures hasWindow ==> (|effects| == 2 <==> exists i :: 0 <= i < |args| && Recognised(args[i]))
    ensures |effects| <= 2
  {
    if hasWindow then
      var url := ProcessArgs(args);
      if Truthy(url) then [Load(url.value, userAgent), Focus] else [Focus]
    else
      []
  }

  /** An argument list with nothing recognisable still focuses the window
      and does not navigate it. */
  lemma FocusWithoutNavigation(args: seq<string>, userAgent: string)
    requires forall i :: 0 <= i < |args| ==> !Recognised(args[i])
    ensures OnSecondInstance(true, args, userAgent) == [Focus]
  {
  }

  /** A recognised argument makes the window load its target before it is
      focused. */
  lemma NavigateThenFocus(args: seq<string>, i: int, userAgent: string)
    requires FirstRecognised(args, i)
    ensures OnSecondInstance(true, args, userAgent) == [Load(Target(args[i]), userAgent), Focus]
  {
  }
}
