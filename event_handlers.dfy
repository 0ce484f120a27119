/** The event-handler language: each raw handler is either a bare script, run for every
    event, or "filter=script". */
module EventHandlers {
  import opened Wrappers
  import opened Errors
  import opened Text

  /** Which events run which script. `UserEvent` is part of the shape but no handler
      syntax sets it. */
  datatype EventScript = EventScript(EventFilter: string, UserEvent: string, Script: string)

  /** The filter of a handler that names none: every event. */
  const AllEvents := "*"

  /** Parses one handler, splitting at its first '='. */
  function ParseEventScript(handler: string): (r: Result<EventScript, ConfigError>)
    ensures r.Ok? ==> r.value.UserEvent == "" && r.value.Script != "" && '=' !in r.value.EventFilter
    ensures r.Err? ==> r.error == EmptyScript(handler)
  {
    match IndexOf(handler, '=')
    case None =>
      if handler == "" then Err(EmptyScript(handler)) else Ok(EventScript(AllEvents, "", handler))
    case Some(i) =>
      if handler[i + 1..] == "" then Err(EmptyScript(handler))
      else Ok(EventScript(handler[..i], "", handler[i + 1..]))
  }

  /** How a binding with an explicit filter is written. */
  function FormatEventScript(e: EventScript): string {
    e.EventFilter + "=" + e.Script
  }

  /** A handler without '=' runs its whole text as the script for every event. */
  lemma BareScript(handler: string)
    requires handler != "" && '=' !in handler
    ensures ParseEventScript(handler) == Ok(EventScript(AllEvents, "", handler))
  {
  }

  /** Parsing a written binding gives it back. */
  lemma ParseFormat(e: EventScript)
    requires '=' !in e.EventFilter && e.Script != "" && e.UserEvent == ""
    ensures ParseEventScript(FormatEventScript(e)) == Ok(e)
  {
    var s := FormatEventScript(e);
    IndexOfAfterPrefix(e.EventFilter, '=', e.Script);
    assert s[|e.EventFilter| + 1..] == e.Script;
    assert s[..|e.EventFilter|] == e.EventFilter;
  }

  /** Every handler that parses is either a bare script or the written form of its binding. */
  lemma FormatParse(handler: string)
    requires ParseEventScript(handler).Ok?
    ensures var e := ParseEventScript(handler).value;
      if '=' in handler then handler == FormatEventScript(e)
      else e.EventFilter == AllEvents && e.Script == handler
  {
    match IndexOf(handler, '=')
    case None =>
    case Some(i) =>
      assert handler == handler[..i] + "=" + handler[i + 1..];
  }

  /** Parses every handler, in order, stopping at the first that fails. */
  function ParseAll(handlers: seq<string>): (r: Result<seq<EventScript>, ConfigError>)
    ensures r.Ok? <==> forall i :: 0 <= i < |handlers| ==> ParseEventScript(handlers[i]).Ok?
    ensures r.Ok? ==> |r.value| == |handlers|
    ensures r.Ok? ==> forall i :: 0 <= i < |handlers| ==> r.value[i] == ParseEventScript(handlers[i]).value
    ensures r.Err? ==>
      exists i :: && 0 <= i < |handlers|
                  && ParseEventScript(handlers[i]).Err?
                  && r.error == ParseEventScript(handlers[i]).error
                  && forall j :: 0 <= j < i ==> ParseEventScript(handlers[j]).Ok?
  {
    if |handlers| == 0 then Ok([])
    else
      match ParseEventScript(handlers[0])
      case Err(e) => Err(e)
      case Ok(first) =>
        match ParseAll(handlers[1..])
        case Err(e) =>
          ghost var k :| 0 <= k < |handlers[1..]| && ParseEventScript(handlers[1..][k]).Err? &&
            e == ParseEventScript(handlers[1..][k]).error &&
            forall j :: 0 <= j < k ==> ParseEventScript(handlers[1..][j]).Ok?;
          assert handlers[k + 1] == handlers[1..][k];
          assert forall j :: 1 <= j < k + 1 ==> handlers[j] == handlers[1..][j - 1];
          Err(e)
        case Ok(rest) =>
          assert forall j :: 1 <= j < |handlers| ==> handlers[j] == handlers[1..][j - 1];
          Ok([first] + rest)
  }

  lemma ParseAllPair(first: string, second: string)
    requires ParseEventScript(first).Ok? && ParseEventScript(second).Ok?
    ensures ParseAll([first, second]) ==
      Ok([ParseEventScript(first).value, ParseEventScript(second).value])
  {
    var r := ParseAll([first, second]);
    assert r.value == [ParseEventScript(first).value, ParseEventScript(second).value];
  }

  lemma FilteredScriptExample()
    ensures ParseEventScript("bar=blah.sh") == Ok(EventScript("bar", "", "blah.sh"))
  {
    ParseFormat(EventScript("bar", "", "blah.sh"));
    assert FormatEventScript(EventScript("bar", "", "blah.sh")) == "bar=blah.sh";
  }

  /** The handlers of the event-script test: a bare script and a filtered one. */
  lemma EventScriptsExample()
    ensures ParseAll(["foo.sh", "bar=blah.sh"]) ==
      Ok([EventScript("*", "", "foo.sh"), EventScript("bar", "", "blah.sh")])
  {
    BareScript("foo.sh");
    FilteredScriptExample();
    ParseAllPair("foo.sh", "bar=blah.sh");
  }

  /** A handler that is only "=" names no script and fails the whole list. */
  lemma SeparatorOnlyFails()
    ensures ParseAll(["="]) == Err(EmptyScript("="))
  {
    assert IndexOf("=", '=') == Some(0);
    assert "="[1..] == "";
  }
}
