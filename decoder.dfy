/** Decoding one configuration document into a configuration. The document's text syntax
    is not modelled: a document is either malformed or an object of named members. */
module Decoder {
  import opened Wrappers
  import opened AgentConfig

  /** The value of one member of a document. */
  datatype Value = Str(s: string) | StrList(items: seq<string>) | OtherValue

  datatype Document = Malformed | Object(members: map<string, Value>)

  datatype DecodeFailure = SyntaxError | WrongType(key: string)

  /** The document key of each setting. */
  const NodeNameKey := "node_name"
  const RoleKey := "role"
  const BindAddrKey := "bind_addr"
  const EventHandlersKey := "event_handlers"
  const StartJoinKey := "start_join"

  predicate IsKnownKey(key: string) {
    key in {NodeNameKey, RoleKey, BindAddrKey, EventHandlersKey, StartJoinKey}
  }

  /** A string setting: unset when the key is absent, an error when it holds anything but a string. */
  function StringMember(members: map<string, Value>, key: string): (r: Result<string, DecodeFailure>)
    ensures r.Ok? <==> key !in members || members[key].Str?
    ensures r.Ok? && key in members ==> r.value == members[key].s
    ensures r.Ok? && key !in members ==> r.value == ""
  {
    if key !in members then Ok("")
    else match members[key]
      case Str(s) => Ok(s)
      case _ => Err(WrongType(key))
  }

  /** A list setting: empty when the key is absent, an error when it holds anything but a list of strings. */
  function ListMember(members: map<string, Value>, key: string): (r: Result<seq<string>, DecodeFailure>)
    ensures r.Ok? <==> key !in members || members[key].StrList?
    ensures r.Ok? && key in members ==> r.value == members[key].items
    ensures r.Ok? && key !in members ==> r.value == []
  {
    if key !in members then Ok([])
    else match members[key]
      case StrList(items) => Ok(items)
      case _ => Err(WrongType(key))
  }

  /** Every setting's member, where present, holds a value of the setting's kind. */
  predicate WellTyped(members: map<string, Value>) {
    && (NodeNameKey in members ==> members[NodeNameKey].Str?)
    && (RoleKey in members ==> members[RoleKey].Str?)
    && (BindAddrKey in members ==> members[BindAddrKey].Str?)
    && (EventHandlersKey in members ==> members[EventHandlersKey].StrList?)
    && (StartJoinKey in members ==> members[StartJoinKey].StrList?)
  }

  /** Decodes a whole document, or fails without a partial result. */
  function DecodeConfig(doc: Document): (r: Result<Config, DecodeFailure>)
    ensures doc.Malformed? ==> r == Err(SyntaxError)
    ensures r.Ok? <==> doc.Object? && WellTyped(doc.members)
    ensures r.Ok? ==> && StringMember(doc.members, NodeNameKey) == Ok(r.value.NodeName)
                      && StringMember(doc.members, RoleKey) == Ok(r.value.Role)
                      && StringMember(doc.members, BindAddrKey) == Ok(r.value.BindAddr)
                      && ListMember(doc.members, EventHandlersKey) == Ok(r.value.EventHandlers)
                      && ListMember(doc.members, StartJoinKey) == Ok(r.value.StartJoin)
  {
    match doc
    case Malformed => Err(SyntaxError)
    case Object(m) =>
      match (StringMember(m, NodeNameKey), StringMember(m, RoleKey), StringMember(m, BindAddrKey),
             ListMember(m, EventHandlersKey), ListMember(m, StartJoinKey))
      case (Ok(name), Ok(role), Ok(bind), Ok(handlers), Ok(join)) =>
        Ok(Config(name, role, bind, handlers, join))
      case (Err(e), _, _, _, _) => Err(e)
      case (_, Err(e), _, _, _) => Err(e)
      case (_, _, Err(e), _, _) => Err(e)
      case (_, _, _, Err(e), _) => Err(e)
      case (_, _, _, _, Err(e)) => Err(e)
  }

  /** The document that writes out every setting of a configuration. */
  function EncodeConfig(c: Config): Document {
    Object(map[
      NodeNameKey := Str(c.NodeName),
      RoleKey := Str(c.Role),
      BindAddrKey := Str(c.BindAddr),
      EventHandlersKey := StrList(c.EventHandlers),
      StartJoinKey := StrList(c.StartJoin)])
  }

  /** Decoding a written-out configuration gives it back. */
  lemma DecodeEncode(c: Config)
    ensures DecodeConfig(EncodeConfig(c)) == Ok(c)
  {
  }

  /** Members under keys that name no setting make no difference. */
  lemma DecodeIgnoresUnknownKeys(members: map<string, Value>, key: string, v: Value)
    requires !IsKnownKey(key)
    ensures DecodeConfig(Object(members[key := v])) == DecodeConfig(Object(members))
  {
    var m := members[key := v];
    assert forall k :: IsKnownKey(k) ==> (k in m <==> k in members);
    assert forall k :: IsKnownKey(k) && k in m ==> m[k] == members[k];
  }

  /** The decode test: a document whose only member is node_name "foo". */
  lemma DecodeNodeNameOnly(name: string)
    ensures DecodeConfig(Object(map[NodeNameKey := Str(name)])) == Ok(Config(name, "", "", [], []))
  {
  }
}
