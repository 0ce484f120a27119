/** The agent configuration record and the rule for merging two configurations. */
module AgentConfig {
  import opened Wrappers
  import opened Errors
  import Address
  import Handlers = EventHandlers

  /** The agent's startup settings. An empty string or an empty list means "not set". */
  datatype Config = Config(
    NodeName: string,
    Role: string,
    BindAddr: string,
    EventHandlers: seq<string>,
    StartJoin: seq<string>)
  {
    /** The bind address split into the address to listen on and a port. */
    function BindAddrParts(): (r: Result<Address.AddrParts, ConfigError>)
      ensures ':' !in BindAddr ==> r == Ok(Address.AddrParts(BindAddr, Address.DefaultBindPort))
      ensures r.Ok? ==> ':' !in r.value.ip
      ensures r.Err? ==> r.error == InvalidPort(BindAddr)
    {
      Address.SplitHostPort(BindAddr, Address.DefaultBindPort)
    }

    /** The event handlers parsed into bindings, one per handler and in the same order. */
    function EventScripts(): (r: Result<seq<Handlers.EventScript>, ConfigError>)
      ensures r.Ok? <==> forall i :: 0 <= i < |EventHandlers| ==> Handlers.ParseEventScript(EventHandlers[i]).Ok?
      ensures r.Ok? ==> |r.value| == |EventHandlers|
      ensures r.Ok? ==> forall i :: 0 <= i < |EventHandlers| ==> Handlers.ParseEventScript(EventHandlers[i]) == Ok(r.value[i])
    {
      Handlers.ParseAll(EventHandlers)
    }
  }

  /** The bind-address test table, read through a configuration. */
  lemma BindAddrPartsTable()
    ensures Config("", "", "0.0.0.0", [], []).BindAddrParts() ==
      Ok(Address.AddrParts("0.0.0.0", Address.DefaultBindPort))
    ensures Config("", "", "0.0.0.0:1234", [], []).BindAddrParts() ==
      Ok(Address.AddrParts("0.0.0.0", 1234))
  {
    Address.BindAddrWithoutPort(Address.DefaultBindPort);
    Address.BindAddrWithPort(Address.DefaultBindPort);
  }

  /** The event-script test, read through a configuration. */
  lemma EventScriptsTable()
    ensures Config("", "", "", ["foo.sh", "bar=blah.sh"], []).EventScripts() ==
      Ok([Handlers.EventScript("*", "", "foo.sh"), Handlers.EventScript("bar", "", "blah.sh")])
  {
    Handlers.EventScriptsExample();
  }

  /** The configuration that sets nothing; loading starts from it. */
  const Empty := Config("", "", "", [], [])

  /** `overlay` if it is set, otherwise `base`. */
  function Override(base: string, overlay: string): string {
    if overlay != "" then overlay else base
  }

  /** `b` laid over `a`: each string setting comes from `b` when `b` sets it and from `a`
      otherwise; each list is `a`'s entries followed by `b`'s. */
  function MergeConfig(a: Config, b: Config): (r: Config)
    ensures b.NodeName != "" ==> r.NodeName == b.NodeName
    ensures b.NodeName == "" ==> r.NodeName == a.NodeName
    ensures b.Role != "" ==> r.Role == b.Role
    ensures b.Role == "" ==> r.Role == a.Role
    ensures b.BindAddr != "" ==> r.BindAddr == b.BindAddr
    ensures b.BindAddr == "" ==> r.BindAddr == a.BindAddr
    ensures r.EventHandlers == a.EventHandlers + b.EventHandlers
    ensures r.StartJoin == a.StartJoin + b.StartJoin
  {
    Config(
      Override(a.NodeName, b.NodeName),
      Override(a.Role, b.Role),
      Override(a.BindAddr, b.BindAddr),
      a.EventHandlers + b.EventHandlers,
      a.StartJoin + b.StartJoin)
  }

  /** The configurations folded left to right, each laid over the merge of those before it. */
  function MergeAll(configs: seq<Config>): (r: Config)
    ensures |configs| == 0 ==> r == Empty
    ensures |configs| > 0 && configs[|configs| - 1].NodeName != "" ==> r.NodeName == configs[|configs| - 1].NodeName
    ensures |configs| > 0 && configs[|configs| - 1].Role != "" ==> r.Role == configs[|configs| - 1].Role
    ensures |configs| > 0 && configs[|configs| - 1].BindAddr != "" ==> r.BindAddr == configs[|configs| - 1].BindAddr
    ensures forall i :: 0 <= i < |configs| ==> |configs[i].EventHandlers| <= |r.EventHandlers|
    ensures forall i :: 0 <= i < |configs| ==> |configs[i].StartJoin| <= |r.StartJoin|
  {
    if |configs| == 0 then Empty
    else MergeConfig(MergeAll(configs[..|configs| - 1]), configs[|configs| - 1])
  }

  /** The string settings, and the list settings, of a configuration. */
  datatype ScalarField = NodeNameField | RoleField | BindAddrField
  datatype ListField = EventHandlersField | StartJoinField

  function Scalar(c: Config, f: ScalarField): string {
    match f
    case NodeNameField => c.NodeName
    case RoleField => c.Role
    case BindAddrField => c.BindAddr
  }

  function List(c: Config, f: ListField): seq<string> {
    match f
    case EventHandlersField => c.EventHandlers
    case StartJoinField => c.StartJoin
  }

  /** The precedence rule: a string setting of `b` wins exactly when it is set, and a list
      setting keeps all of `a`'s entries, then all of `b`'s. */
  lemma MergePrecedence(a: Config, b: Config, f: ScalarField, g: ListField)
    ensures Scalar(b, f) != "" ==> Scalar(MergeConfig(a, b), f) == Scalar(b, f)
    ensures Scalar(b, f) == "" ==> Scalar(MergeConfig(a, b), f) == Scalar(a, f)
    ensures List(MergeConfig(a, b), g) == List(a, g) + List(b, g)
  {
  }

  /** The merge test: "bname" replaces "foo", an unset role keeps "bar", and both lists
      become ["foo", "bar"]. */
  lemma MergeExample()
    ensures var c := MergeConfig(Config("foo", "bar", "", ["foo"], ["foo"]),
                                 Config("bname", "", "", ["bar"], ["bar"]));
      c.NodeName == "bname" && c.Role == "bar" &&
      c.EventHandlers == ["foo", "bar"] && c.StartJoin == ["foo", "bar"]
  {
  }

  /** The empty configuration changes nothing on either side of a merge. */
  lemma MergeIdentity(c: Config)
    ensures MergeConfig(Empty, c) == c
    ensures MergeConfig(c, Empty) == c
  {
  }

  lemma MergeAssociative(a: Config, b: Config, c: Config)
    ensures MergeConfig(MergeConfig(a, b), c) == MergeConfig(a, MergeConfig(b, c))
  {
  }

  /** Merging a configuration with itself changes it exactly when it has list entries:
      lists are appended, never de-duplicated. */
  lemma MergeSelf(c: Config)
    ensures MergeConfig(c, c) == c <==> c.EventHandlers == [] && c.StartJoin == []
  {
    if MergeConfig(c, c) == c {
      assert |c.EventHandlers + c.EventHandlers| == |c.EventHandlers|;
      assert |c.StartJoin + c.StartJoin| == |c.StartJoin|;
    }
  }

  lemma MergeAllSnoc(configs: seq<Config>, c: Config)
    ensures MergeAll(configs + [c]) == MergeConfig(MergeAll(configs), c)
  {
    assert (configs + [c])[..|configs|] == configs;
  }

  /** Folding two configurations merges the second over the first. */
  lemma MergeAllPair(a: Config, b: Config)
    ensures MergeAll([a, b]) == MergeConfig(a, b)
  {
    assert [a, b][..1] == [a] && [a][..0] == [];
    MergeIdentity(a);
  }

  /** Folding a list of configurations in two parts and merging the results is the same
      as folding the whole list. */
  lemma {:induction false} MergeAllAppend(xs: seq<Config>, ys: seq<Config>)
    ensures MergeAll(xs + ys) == MergeConfig(MergeAll(xs), MergeAll(ys))
    decreases |ys|
  {
    if |ys| == 0 {
      assert xs + ys == xs;
      MergeIdentity(MergeAll(xs));
    } else {
      var init, last := ys[..|ys| - 1], ys[|ys| - 1];
      assert ys == init + [last];
      assert xs + ys == (xs + init) + [last];
      MergeAllSnoc(xs + init, last);
      MergeAllAppend(xs, init);
      MergeAllSnoc(init, last);
      MergeAssociative(MergeAll(xs), MergeAll(init), last);
    }
  }

  /** After the fold, a string setting is the one from the last configuration that sets it. */
  lemma {:induction false} MergeAllLastSetWins(configs: seq<Config>, f: ScalarField, i: nat)
    requires i < |configs| && Scalar(configs[i], f) != ""
    requires forall j :: i < j < |configs| ==> Scalar(configs[j], f) == ""
    ensures Scalar(MergeAll(configs), f) == Scalar(configs[i], f)
    decreases |configs|
  {
    var init := configs[..|configs| - 1];
    if i < |configs| - 1 {
      assert forall j :: i < j < |init| ==> init[j] == configs[j];
      MergeAllLastSetWins(init, f, i);
    }
  }

  /** A string setting that no configuration sets stays unset after the fold. */
  lemma {:induction false} MergeAllUnset(configs: seq<Config>, f: ScalarField)
    requires forall j :: 0 <= j < |configs| ==> Scalar(configs[j], f) == ""
    ensures Scalar(MergeAll(configs), f) == ""
    decreases |configs|
  {
    if |configs| > 0 {
      var init := configs[..|configs| - 1];
      assert forall j :: 0 <= j < |init| ==> init[j] == configs[j];
      MergeAllUnset(init, f);
    }
  }

  /** The entries of every configuration's list, in the order the configurations come. */
  function Concat(lists: seq<seq<string>>): seq<string> {
    if |lists| == 0 then [] else lists[0] + Concat(lists[1..])
  }

  function ListsOf(configs: seq<Config>, g: ListField): seq<seq<string>> {
    seq(|configs|, i requires 0 <= i < |configs| => List(configs[i], g))
  }

  lemma {:induction false} ConcatSnoc(lists: seq<seq<string>>, last: seq<string>)
    ensures Concat(lists + [last]) == Concat(lists) + last
  {
    if |lists| > 0 {
      assert (lists + [last])[1..] == lists[1..] + [last];
      ConcatSnoc(lists[1..], last);
    }
  }

  /** After the fold, a list setting holds every configuration's entries, in order,
      with nothing dropped or repeated. */
  lemma {:induction false} MergeAllLists(configs: seq<Config>, g: ListField)
    ensures List(MergeAll(configs), g) == Concat(ListsOf(configs, g))
    decreases |configs|
  {
    if |configs| > 0 {
      var init := configs[..|configs| - 1];
      MergeAllLists(init, g);
      assert ListsOf(configs, g) == ListsOf(init, g) + [List(configs[|configs| - 1], g)];
      ConcatSnoc(ListsOf(init, g), List(configs[|configs| - 1], g));
    }
  }
}
