/** The gateway's keyed session cache: route keys, daily and idle resets, and session identity over whole traces. */
module GatewaySessions {
  import opened Wrappers

  datatype SourceKind = DirectMessage | GroupChat | Cron | Webhook | McpTransport | HttpControl

  datatype Route = Route(
    kind: SourceKind,
    sourceId: Option<string>,
    channel: Option<string>,
    roomId: Option<string>,
    peerId: Option<string>,
    jobId: Option<string>,
    agentId: Option<string>)

  datatype Policy = Policy(perPeer: bool, dailyResetHour: int, idleResetMinutes: Option<int>)
  {
    /** The validator: the hour is clamped into a day, and an idle limit that is not positive is no limit. */
    function Normalize(): (policy: Policy)
      ensures 0 <= policy.dailyResetHour <= 23
      ensures 0 <= dailyResetHour <= 23 ==> policy.dailyResetHour == dailyResetHour
      ensures dailyResetHour < 0 ==> policy.dailyResetHour == 0
      ensures dailyResetHour > 23 ==> policy.dailyResetHour == 23
      ensures policy.idleResetMinutes == None <==> idleResetMinutes == None || idleResetMinutes.value <= 0
      ensures policy.idleResetMinutes == None || policy.idleResetMinutes == idleResetMinutes
      ensures policy.perPeer == perPeer
    {
      var hour := if dailyResetHour < 0 then 0 else dailyResetHour;
      Policy(perPeer, if hour > 23 then 23 else hour,
             if idleResetMinutes.Some? && idleResetMinutes.value <= 0 then None else idleResetMinutes)
    }
  }

  /** A wall-clock instant in microseconds since some midnight of the clock's own zone. */
  type Instant = int

  const MINUTE: int := 60_000_000
  const HOUR: int := 60 * MINUTE
  const DAY: int := 24 * HOUR

  datatype Record = Record(
    sessionId: int,
    key: string,
    kind: SourceKind,
    agentId: Option<string>,
    createdAt: Instant,
    lastActiveAt: Instant)

  datatype ResetReason = FreshRun | DailyReset | IdleReset

  datatype Resolution = Resolution(created: bool, reason: Option<ResetReason>, record: Record)

  // --------------------------------------------------------------------------- route keys

  function First(value: Option<string>, fallback: Option<string>): Option<string> {
    if value.Some? && value.value != "" then value else fallback
  }

  function Present(value: Option<string>): bool {
    value.Some? && value.value != ""
  }

  function Or(value: Option<string>, fallback: string): string {
    if Present(value) then value.value else fallback
  }

  function KindWord(kind: SourceKind): string {
    match kind
    case DirectMessage => "dm"
    case GroupChat => "group"
    case Cron => "cron"
    case Webhook => "webhook"
    case McpTransport => "mcp_transport"
    case HttpControl => "http_control"
  }

  function Key(agent: string, kind: SourceKind, rest: string): string {
    "agent:" + agent + ":" + KindWord(kind) + ":" + rest
  }

  function RouteKey(policy: Policy, route: Route): Result<string, string> {
    var agent := Or(route.agentId, "default");
    match route.kind
    case DirectMessage =>
      if !policy.perPeer then Ok(Key(agent, DirectMessage, "main"))
      else
        var identity := First(route.peerId, route.sourceId);
        if !Present(identity) then Err("direct_message route requires peer_id or source_id")
        else Ok(Key(agent, DirectMessage, "peer:" + identity.value))
    case GroupChat =>
      var room := First(route.roomId, route.sourceId);
      if !Present(room) then Err("group_chat route requires room_id or source_id")
      else Ok(Key(agent, GroupChat, Or(route.channel, "group") + ":" + room.value))
    case Cron =>
      Ok(Key(agent, Cron, Or(First(route.jobId, route.sourceId), "default")))
    case Webhook =>
      if !Present(route.sourceId) then Err("webhook route requires source_id")
      else Ok(Key(agent, Webhook, Or(route.channel, "webhook") + ":" + route.sourceId.value))
    case McpTransport =>
      if !Present(route.sourceId) then Err("mcp_transport route requires source_id")
      else Ok(Key(agent, McpTransport, route.sourceId.value))
    case HttpControl =>
      if !Present(route.sourceId) then Err("http_control route requires source_id")
      else Ok(Key(agent, HttpControl, route.sourceId.value))
  }

  /** Who a route addresses, told without strings glued together. */
  datatype Address = Address(kind: SourceKind, agent: string, channel: Option<string>, identity: Option<string>)

  /** The first text that is there and not empty. */
  ghost function Named(value: Option<string>, otherwise: Option<string>): Option<string> {
    if value.Some? && |value.value| > 0 then value
    else if otherwise.Some? && |otherwise.value| > 0 then otherwise
    else None
  }

  ghost function NamedAs(value: Option<string>, fallback: string): string {
    match value
    case Some(text) => if |text| > 0 then text else fallback
    case None => fallback
  }

  /** The channel a key mentions. */
  ghost function ChannelOf(route: Route): Option<string> {
    match route.kind
    case GroupChat => Some(NamedAs(route.channel, "group"))
    case Webhook => Some(NamedAs(route.channel, "webhook"))
    case _ => None
  }

  /** The identity a key mentions: the peer, the room or the job where a kind has one, else the source. */
  ghost function IdentityOf(route: Route): Option<string> {
    match route.kind
    case DirectMessage => Named(route.peerId, route.sourceId)
    case GroupChat => Named(route.roomId, route.sourceId)
    case Cron => Some(NamedAs(Named(route.jobId, route.sourceId), "default"))
    case _ => Named(route.sourceId, None)
  }

  ghost function AddressOf(policy: Policy, route: Route): Option<Address> {
    var agent := NamedAs(route.agentId, "default");
    if route.kind == DirectMessage && !policy.perPeer then Some(Address(DirectMessage, agent, None, None))
    else
      match IdentityOf(route)
      case None => None
      case Some(identity) => Some(Address(route.kind, agent, ChannelOf(route), Some(identity)))
  }

  predicate ColonFree(text: string) {
    ':' !in text
  }

  predicate HasChannel(kind: SourceKind) {
    kind == GroupChat || kind == Webhook
  }

  /** The separators are safe: no colon in the agent, nor in a channel that is used. Identities may hold colons. */
  predicate Separable(route: Route) {
    && (route.agentId.Some? ==> ColonFree(route.agentId.value))
    && (HasChannel(route.kind) && route.channel.Some? ==> ColonFree(route.channel.value))
  }

  function Text(value: Option<string>): string {
    if value.Some? then value.value else ""
  }

  /** What follows the agent and the kind in a key. */
  function KeyRest(a: Address): string {
    if a.kind == DirectMessage then if a.identity.None? then "main" else "peer:" + Text(a.identity)
    else if a.channel.Some? then Text(a.channel) + ":" + Text(a.identity)
    else Text(a.identity)
  }

  /** What follows the agent. */
  function KeyTail(a: Address): string {
    KindWord(a.kind) + ":" + KeyRest(a)
  }

  lemma KeySpells(policy: Policy, route: Route)
    ensures RouteKey(policy, route).Ok? <==> AddressOf(policy, route).Some?
    ensures AddressOf(policy, route).Some? ==>
              var a := AddressOf(policy, route).value;
              RouteKey(policy, route).value == Key(a.agent, a.kind, KeyRest(a))
  {
    hide Key, KindWord;
    match route.kind
    case DirectMessage =>
    case GroupChat =>
    case Cron =>
    case Webhook =>
    case McpTransport =>
    case HttpControl =>
  }

  // ------------------------------------------------------------- keys, from the route's own fields

  ghost predicate Absent(value: Option<string>) {
    value == None || value == Some("")
  }

  /** A text stands for a field: it is the field's own if that is not empty, else the given default. */
  ghost predicate StandsFor(text: string, field: Option<string>, default: string) {
    (text != "" && field == Some(text)) || (Absent(field) && text == default)
  }

  /** A text is the identity: the kind's own field if that is not empty, else a source that is not empty. */
  ghost predicate Identifies(text: string, field: Option<string>, source: Option<string>) {
    text != "" && (field == Some(text) || (Absent(field) && source == Some(text)))
  }

  /** The key, spelled out: the agent, the word of the kind, and what identifies the other side. */
  ghost predicate Spelled(policy: Policy, route: Route, key: string, agent: string, channel: string, id: string) {
    && StandsFor(agent, route.agentId, "default")
    && match route.kind
       case DirectMessage =>
         if policy.perPeer then Identifies(id, route.peerId, route.sourceId) && key == "agent:" + agent + ":dm:peer:" + id
         else key == "agent:" + agent + ":dm:main"
       case GroupChat =>
         Identifies(id, route.roomId, route.sourceId) && StandsFor(channel, route.channel, "group")
         && key == "agent:" + agent + ":group:" + channel + ":" + id
       case Cron =>
         (Identifies(id, route.jobId, route.sourceId) || (Absent(route.jobId) && Absent(route.sourceId) && id == "default"))
         && key == "agent:" + agent + ":cron:" + id
       case Webhook =>
         Identifies(id, None, route.sourceId) && StandsFor(channel, route.channel, "webhook")
         && key == "agent:" + agent + ":webhook:" + channel + ":" + id
       case McpTransport => Identifies(id, None, route.sourceId) && key == "agent:" + agent + ":mcp_transport:" + id
       case HttpControl => Identifies(id, None, route.sourceId) && key == "agent:" + agent + ":http_control:" + id
  }

  /** No identity is left for the key of a kind that needs one. */
  ghost predicate Unidentified(policy: Policy, route: Route) {
    match route.kind
    case DirectMessage => policy.perPeer && Absent(route.peerId) && Absent(route.sourceId)
    case GroupChat => Absent(route.roomId) && Absent(route.sourceId)
    case Cron => false
    case _ => Absent(route.sourceId)
  }

  lemma WordsFold(head: string, word: string, rest: string)
    ensures head + ":" + word + ":" + rest == head + (":" + word + ":") + rest
  {
  }

  lemma RestsUnfold(head: string, first: string, second: string)
    ensures head + (first + ":" + second) == head + first + ":" + second
    ensures head + (first + second) == head + first + second
  {
  }

  lemma Spellings(agent: string, channel: string, id: string)
    ensures Key(agent, DirectMessage, "main") == "agent:" + agent + ":dm:main"
    ensures Key(agent, DirectMessage, "peer:" + id) == "agent:" + agent + ":dm:peer:" + id
    ensures Key(agent, GroupChat, channel + ":" + id) == "agent:" + agent + ":group:" + channel + ":" + id
    ensures Key(agent, Cron, id) == "agent:" + agent + ":cron:" + id
    ensures Key(agent, Webhook, channel + ":" + id) == "agent:" + agent + ":webhook:" + channel + ":" + id
    ensures Key(agent, McpTransport, id) == "agent:" + agent + ":mcp_transport:" + id
    ensures Key(agent, HttpControl, id) == "agent:" + agent + ":http_control:" + id
  {
    var head := "agent:" + agent;
    WordsFold(head, "dm", "main");
    WordsFold(head, "dm", "peer:" + id);
    WordsFold(head, "group", channel + ":" + id);
    WordsFold(head, "cron", id);
    WordsFold(head, "webhook", channel + ":" + id);
    WordsFold(head, "mcp_transport", id);
    WordsFold(head, "http_control", id);
    assert ":" + "dm" + ":" == ":dm:" && ":" + "group" + ":" == ":group:" && ":" + "cron" + ":" == ":cron:";
    assert ":" + "webhook" + ":" == ":webhook:" && ":" + "mcp_transport" + ":" == ":mcp_transport:" && ":" + "http_control" + ":" == ":http_control:";
    assert ":dm:" + "main" == ":dm:main" && ":dm:" + "peer:" == ":dm:peer:";
    RestsUnfold(head, ":dm:", "main");
    RestsUnfold(head, ":dm:", "peer:");
    RestsUnfold(head + ":dm:", "peer:", id);
    RestsUnfold(head + ":group:", channel, id);
    RestsUnfold(head + ":webhook:", channel, id);
  }

  lemma SpelledIsKey(policy: Policy, route: Route, key: string, agent: string, channel: string, id: string)
    requires Spelled(policy, route, key, agent, channel, id)
    ensures RouteKey(policy, route) == Ok(key)
  {
    Spellings(agent, channel, id);
    hide Key, KindWord;
  }

  lemma KeyIsThere(policy: Policy, route: Route) returns (agent: string, channel: string, id: string)
    ensures RouteKey(policy, route).Err? <==> Unidentified(policy, route)
    ensures RouteKey(policy, route).Ok? ==> Spelled(policy, route, RouteKey(policy, route).value, agent, channel, id)
  {
    agent := Or(route.agentId, "default");
    channel := if route.kind == GroupChat then Or(route.channel, "group") else Or(route.channel, "webhook");
    var own := match route.kind case DirectMessage => route.peerId case GroupChat => route.roomId case Cron => route.jobId case _ => None;
    id := Or(First(own, route.sourceId), "default");
    Spellings(agent, channel, id);
    hide Key, KindWord;
  }

  /** A route has a key exactly when something identifies the other side, and the key is spelled with the agent, the
      channel and the identity that the route's own fields give. */
  lemma KeyIsSpelled(policy: Policy, route: Route, key: string)
    ensures RouteKey(policy, route).Err? <==> Unidentified(policy, route)
    ensures RouteKey(policy, route) == Ok(key) <==> exists agent, channel, id :: Spelled(policy, route, key, agent, channel, id)
  {
    hide RouteKey, Spelled;
    var agent, channel, id := KeyIsThere(policy, route);
    forall a, c, i | Spelled(policy, route, key, a, c, i) ensures RouteKey(policy, route) == Ok(key) {
      SpelledIsKey(policy, route, key, a, c, i);
    }
  }

  /** With a peer, a room or a job the source does not matter. */
  lemma SourceIsOnlyAFallback(policy: Policy, route: Route, source: Option<string>)
    requires
      match route.kind
      case DirectMessage => !Absent(route.peerId)
      case GroupChat => !Absent(route.roomId)
      case Cron => !Absent(route.jobId)
      case _ => false
    ensures RouteKey(policy, route.(sourceId := source)) == RouteKey(policy, route) && RouteKey(policy, route).Ok?
  {
    var other := route.(sourceId := source);
    KeyIsSpelled(policy, route, "");
    var key := RouteKey(policy, route).value;
    KeyIsSpelled(policy, route, key);
    KeyIsSpelled(policy, other, key);
    hide RouteKey;
    var agent, channel, id :| Spelled(policy, route, key, agent, channel, id);
    assert Spelled(policy, other, key, agent, channel, id);
  }

  // -------------------------------------------------------------- where keys can be confused

  /** The second head swallows a piece of the first rest. */
  ghost predicate Shifts(head: string, rest: string, head': string, rest': string) {
    exists piece :: head' == head + ":" + piece && rest == piece + ":" + rest'
  }

  lemma ShiftedJoins(head: string, rest: string, head': string, rest': string)
    requires Shifts(head, rest, head', rest')
    ensures head + ":" + rest == head' + ":" + rest' && |head| < |head'| && !ColonFree(head')
  {
    var piece :| head' == head + ":" + piece && rest == piece + ":" + rest';
    assert head + ":" + (piece + ":" + rest') == (head + ":" + piece) + ":" + rest';
    assert head'[|head|] == ':';
  }

  lemma JoinedShifts(head: string, rest: string, head': string, rest': string)
    requires head + ":" + rest == head' + ":" + rest' && |head| < |head'|
    ensures Shifts(head, rest, head', rest')
  {
    var text, piece := head + ":" + rest, head'[|head| + 1..];
    assert text[..|head'|] == head' && text[|head'|..] == ":" + rest';
    assert head' == head + ":" + piece;
    assert rest == text[|head| + 1..] == piece + ":" + rest';
  }

  /** Joining two texts with a colon is ambiguous in exactly one way. */
  lemma JoinsAgree(head: string, rest: string, head': string, rest': string)
    ensures head + ":" + rest == head' + ":" + rest' <==>
            (head == head' && rest == rest') || Shifts(head, rest, head', rest') || Shifts(head', rest', head, rest)
  {
    if head + ":" + rest == head' + ":" + rest' {
      if |head| < |head'| {
        JoinedShifts(head, rest, head', rest');
      } else if |head'| < |head| {
        JoinedShifts(head', rest', head, rest);
      } else {
        assert (head + ":" + rest)[..|head|] == head && (head' + ":" + rest')[..|head'|] == head';
        assert (head + ":" + rest)[|head| + 1..] == rest && (head' + ":" + rest')[|head'| + 1..] == rest';
      }
    }
    if Shifts(head, rest, head', rest') {
      ShiftedJoins(head, rest, head', rest');
    }
    if Shifts(head', rest', head, rest) {
      ShiftedJoins(head', rest', head, rest);
    }
  }

  lemma KindWordsDiffer(a: SourceKind, b: SourceKind)
    ensures ColonFree(KindWord(a)) && (KindWord(a) == KindWord(b) ==> a == b)
  {
  }

  lemma KeyJoins(agent: string, kind: SourceKind, rest: string)
    ensures Key(agent, kind, rest) == "agent:" + (agent + ":" + (KindWord(kind) + ":" + rest))
  {
  }

  ghost predicate Placed(a: Address) {
    && (a.channel.Some? <==> HasChannel(a.kind))
    && (a.identity.None? ==> a.kind == DirectMessage)
  }

  ghost predicate ChannelShifts(a: Address, b: Address) {
    && a.agent == b.agent && a.kind == b.kind && HasChannel(a.kind)
    && Shifts(Text(a.channel), Text(a.identity), Text(b.channel), Text(b.identity))
  }

  ghost predicate AgentShifts(a: Address, b: Address) {
    Shifts(a.agent, KeyTail(a), b.agent, KeyTail(b))
  }

  /** A channel that is another one with a colon and a piece of the room, or the same with agents. */
  ghost predicate Confusable(a: Address, b: Address) {
    ChannelShifts(a, b) || ChannelShifts(b, a) || AgentShifts(a, b) || AgentShifts(b, a)
  }

  lemma RestsAgree(a: Address, b: Address)
    requires Placed(a) && Placed(b) && a.kind == b.kind && a.agent == b.agent
    ensures KeyRest(a) == KeyRest(b) <==> a == b || ChannelShifts(a, b) || ChannelShifts(b, a)
  {
    if HasChannel(a.kind) {
      JoinsAgree(Text(a.channel), Text(a.identity), Text(b.channel), Text(b.identity));
    } else if a.kind == DirectMessage {
      assert KeyRest(a)[0] == if a.identity.None? then 'm' else 'p';
      assert KeyRest(b)[0] == if b.identity.None? then 'm' else 'p';
      assert a.identity.Some? ==> KeyRest(a)[5..] == a.identity.value;
      assert b.identity.Some? ==> KeyRest(b)[5..] == b.identity.value;
    }
    hide Shifts;
  }

  lemma TailsAgree(a: Address, b: Address)
    requires Placed(a) && Placed(b) && a.agent == b.agent
    ensures KeyTail(a) == KeyTail(b) <==> a == b || ChannelShifts(a, b) || ChannelShifts(b, a)
  {
    var word, word' := KindWord(a.kind), KindWord(b.kind);
    KindWordsDiffer(a.kind, b.kind);
    KindWordsDiffer(b.kind, a.kind);
    JoinsAgree(word, KeyRest(a), word', KeyRest(b));
    hide KindWord, KeyRest;
    if Shifts(word, KeyRest(a), word', KeyRest(b)) {
      ShiftedJoins(word, KeyRest(a), word', KeyRest(b));
    }
    if Shifts(word', KeyRest(b), word, KeyRest(a)) {
      ShiftedJoins(word', KeyRest(b), word, KeyRest(a));
    }
    hide Shifts;
    if a.kind == b.kind {
      RestsAgree(a, b);
    }
  }

  /** Confusable addresses are different ones. */
  lemma ConfusableDiffer(a: Address, b: Address)
    requires Confusable(a, b)
    ensures a != b
    ensures !ColonFree(a.agent) || !ColonFree(b.agent)
            || (HasChannel(a.kind) && a.kind == b.kind && (!ColonFree(Text(a.channel)) || !ColonFree(Text(b.channel))))
  {
    if ChannelShifts(a, b) {
      ShiftedJoins(Text(a.channel), Text(a.identity), Text(b.channel), Text(b.identity));
    } else if ChannelShifts(b, a) {
      ShiftedJoins(Text(b.channel), Text(b.identity), Text(a.channel), Text(a.identity));
    } else if AgentShifts(a, b) {
      ShiftedJoins(a.agent, KeyTail(a), b.agent, KeyTail(b));
    } else {
      ShiftedJoins(b.agent, KeyTail(b), a.agent, KeyTail(a));
    }
    hide Shifts, KeyTail;
  }

  lemma KeysOfAddressesAgree(a: Address, b: Address)
    requires Placed(a) && Placed(b)
    ensures Key(a.agent, a.kind, KeyRest(a)) == Key(b.agent, b.kind, KeyRest(b)) <==> a == b || Confusable(a, b)
  {
    KeyJoins(a.agent, a.kind, KeyRest(a));
    KeyJoins(b.agent, b.kind, KeyRest(b));
    var s, t := a.agent + ":" + KeyTail(a), b.agent + ":" + KeyTail(b);
    assert Key(a.agent, a.kind, KeyRest(a)) == "agent:" + s && Key(b.agent, b.kind, KeyRest(b)) == "agent:" + t;
    assert ("agent:" + s)[6..] == s && ("agent:" + t)[6..] == t;
    hide Key, KeyTail, KeyRest, KindWord;
    JoinsAgree(a.agent, KeyTail(a), b.agent, KeyTail(b));
    hide Shifts, ChannelShifts;
    if a.agent == b.agent {
      TailsAgree(a, b);
    } else {
      assert ChannelShifts(a, b) || ChannelShifts(b, a) ==> a.agent == b.agent by { ChannelShiftsKeepAgent(a, b); }
    }
  }

  lemma ChannelShiftsKeepAgent(a: Address, b: Address)
    ensures ChannelShifts(a, b) || ChannelShifts(b, a) ==> a.agent == b.agent
  {
  }

  lemma AddressesArePlaced(policy: Policy, route: Route)
    requires AddressOf(policy, route).Some?
    ensures Placed(AddressOf(policy, route).value)
  {
  }

  /** For all routes that have keys: two different addresses share a key exactly when they are confusable, that is, one
      channel of the same kind and agent is the other with a colon and a piece the rooms differ by, or one agent is the
      other with a colon and a piece that what follows the agents differs by. */
  lemma KeysCollideExactly(policy: Policy, a: Route, b: Route)
    requires RouteKey(policy, a).Ok? && RouteKey(policy, b).Ok?
    ensures AddressOf(policy, a).Some? && AddressOf(policy, b).Some?
    ensures
      var x, y := AddressOf(policy, a).value, AddressOf(policy, b).value;
      RouteKey(policy, a) == RouteKey(policy, b) && x != y <==> Confusable(x, y)
  {
    KeySpells(policy, a);
    KeySpells(policy, b);
    AddressesArePlaced(policy, a);
    AddressesArePlaced(policy, b);
    var x, y := AddressOf(policy, a).value, AddressOf(policy, b).value;
    hide AddressOf, RouteKey, Key, KeyRest, Confusable;
    KeysOfAddressesAgree(x, y);
    if Confusable(x, y) {
      ConfusableDiffer(x, y);
    }
  }

  /** Hence routes with safe separators share a session key exactly when they address the same place: the same kind and
      the same agent, channel and identity once defaults are filled in. Under the main scope every direct message of an
      agent is one address. */
  lemma KeysIdentifyAddresses(policy: Policy, a: Route, b: Route)
    requires RouteKey(policy, a).Ok? && RouteKey(policy, b).Ok? && Separable(a) && Separable(b)
    ensures RouteKey(policy, a) == RouteKey(policy, b) <==> AddressOf(policy, a) == AddressOf(policy, b)
  {
    KeySpells(policy, a);
    KeySpells(policy, b);
    KeysCollideExactly(policy, a, b);
    var x, y := AddressOf(policy, a).value, AddressOf(policy, b).value;
    SeparableIsColonFree(policy, a);
    SeparableIsColonFree(policy, b);
    hide AddressOf, RouteKey, Key, KeyRest, Confusable;
    if Confusable(x, y) {
      ConfusableDiffer(x, y);
    }
  }

  lemma SeparableIsColonFree(policy: Policy, route: Route)
    requires AddressOf(policy, route).Some? && Separable(route)
    ensures ColonFree(AddressOf(policy, route).value.agent)
    ensures HasChannel(AddressOf(policy, route).value.kind) ==> ColonFree(Text(AddressOf(policy, route).value.channel))
  {
  }

  /** A colon in the channel does defeat the key: a piece of the room can be moved into it unnoticed, an empty one too. */
  lemma ColonsCollide(policy: Policy, channel: string, room: string, piece: string)
    requires channel != "" && room != ""
    ensures
      var a := Route(GroupChat, None, Some(channel), Some(piece + ":" + room), None, None, None);
      var b := Route(GroupChat, None, Some(channel + ":" + piece), Some(room), None, None, None);
      RouteKey(policy, a).Ok? && RouteKey(policy, a) == RouteKey(policy, b) && AddressOf(policy, a) != AddressOf(policy, b)
  {
    assert channel + ":" + (piece + ":" + room) == (channel + ":" + piece) + ":" + room;
    assert |channel| < |channel + ":" + piece|;
  }

  lemma ShiftedTail(agent: string)
    ensures agent + ":cron" + ":" + (KindWord(DirectMessage) + ":" + "main") == agent + ":" + (KindWord(Cron) + ":" + "dm:main")
  {
    assert ":cron" + ":" + ("dm" + ":" + "main") == ":" + ("cron" + ":" + "dm:main");
    assert agent + ":cron" + ":" + ("dm" + ":" + "main") == agent + (":cron" + ":" + ("dm" + ":" + "main"));
    assert agent + ":" + ("cron" + ":" + "dm:main") == agent + (":" + ("cron" + ":" + "dm:main"));
  }

  /** So does a colon in the agent: the direct messages of one agent meet a scheduled job of another. */
  lemma AgentColonsCollide(policy: Policy, agent: string)
    requires !policy.perPeer && agent != ""
    ensures
      var a := Route(DirectMessage, None, None, None, None, None, Some(agent + ":cron"));
      var b := Route(Cron, None, None, None, None, Some("dm:main"), Some(agent));
      RouteKey(policy, a).Ok? && RouteKey(policy, a) == RouteKey(policy, b) && AddressOf(policy, a) != AddressOf(policy, b)
  {
    hide Key;
    KeyJoins(agent + ":cron", DirectMessage, "main");
    KeyJoins(agent, Cron, "dm:main");
    ShiftedTail(agent);
    assert |agent| < |agent + ":cron"|;
  }

  // ------------------------------------------------------------------------------- resets

  /** Midnight of the day of an instant, moved to the reset hour, and a day back if that is still ahead. */
  function ResetBoundary(policy: Policy, now: Instant): Instant {
    var today := now - now % DAY + policy.dailyResetHour * HOUR;
    if now < today then today - DAY else today
  }

  predicate RequiresDailyReset(policy: Policy, record: Record, now: Instant) {
    record.createdAt < ResetBoundary(policy, now) <= now
  }

  predicate RequiresIdleReset(policy: Policy, record: Record, now: Instant) {
    policy.idleResetMinutes.Some? && now - record.lastActiveAt >= policy.idleResetMinutes.value * MINUTE
  }

  /** The k-th time the clock shows the reset hour. */
  function ResetInstant(policy: Policy, k: int): Instant {
    k * 86_400_000_000 + policy.dailyResetHour * 3_600_000_000
  }

  predicate Normalized(policy: Policy) {
    policy.Normalize() == policy
  }

  /** The boundary is the latest reset instant that is not ahead of the clock. */
  lemma BoundaryIsLatest(policy: Policy, now: Instant) returns (k: int)
    requires Normalized(policy)
    ensures ResetBoundary(policy, now) == ResetInstant(policy, k)
    ensures ResetInstant(policy, k) <= now < ResetInstant(policy, k + 1)
  {
    var day := now / DAY;
    assert now == day * DAY + now % DAY;
    k := if now < ResetInstant(policy, day) then day - 1 else day;
    assert 0 <= policy.dailyResetHour * HOUR < DAY;
  }

  lemma ResetInstantsAscend(policy: Policy, a: int, b: int)
    ensures a <= b ==> ResetInstant(policy, a) <= ResetInstant(policy, b)
  {
  }

  /** The daily rule is exact: it fires if and only if the reset hour was struck after the session was created and
      not later than now. */
  lemma DailyResetIsExact(policy: Policy, record: Record, now: Instant)
    requires Normalized(policy)
    ensures RequiresDailyReset(policy, record, now) <==>
            exists k :: record.createdAt < ResetInstant(policy, k) <= now
  {
    var latest := BoundaryIsLatest(policy, now);
    if k :| record.createdAt < ResetInstant(policy, k) <= now {
      ResetInstantsAscend(policy, latest + 1, k);
      ResetInstantsAscend(policy, k, latest);
    }
  }

  // ----------------------------------------------------------------------------- resolving

  type Records = map<string, Record>

  /** One call: the route, the clock, and the identifier uuid4 would return. */
  datatype Request = Request(route: Route, now: Instant, freshId: int)

  function NewRecord(request: Request, key: string): Record {
    Record(request.freshId, key, request.route.kind, request.route.agentId, request.now, request.now)
  }

  function Respond(policy: Policy, records: Records, request: Request): Result<Resolution, string> {
    match RouteKey(policy, request.route)
    case Err(message) => Err(message)
    case Ok(key) =>
      var created := NewRecord(request, key);
      if request.route.kind == Cron then Ok(Resolution(true, Some(FreshRun), created))
      else if key !in records then Ok(Resolution(true, None, created))
      else if RequiresDailyReset(policy, records[key], request.now) then Ok(Resolution(true, Some(DailyReset), created))
      else if RequiresIdleReset(policy, records[key], request.now) then Ok(Resolution(true, Some(IdleReset), created))
      else Ok(Resolution(false, None, records[key].(lastActiveAt := request.now)))
  }

  function Advance(policy: Policy, records: Records, request: Request): Records {
    match Respond(policy, records, request)
    case Err(_) => records
    case Ok(resolution) => records[RouteKey(policy, request.route).value := resolution.record]
  }

  /** A reused session is less than a day old, and was active within the idle limit. */
  lemma ReusedIsYoung(policy: Policy, records: Records, request: Request)
    requires Normalized(policy)
    requires Respond(policy, records, request).Ok? && !Respond(policy, records, request).value.created
    ensures
      var key, record := RouteKey(policy, request.route).value, Respond(policy, records, request).value.record;
      && key in records && record == records[key].(lastActiveAt := request.now)
      && request.now - record.createdAt < 86_400_000_000
      && (policy.idleResetMinutes.Some? ==>
            request.now - records[key].lastActiveAt < policy.idleResetMinutes.value * 60_000_000)
  {
  }

  /** The reset hour was struck after the session was opened. */
  ghost predicate Struck(policy: Policy, record: Record, now: Instant) {
    exists k :: record.createdAt < ResetInstant(policy, k) <= now
  }

  ghost predicate Idle(policy: Policy, record: Record, now: Instant) {
    policy.idleResetMinutes.Some? && now - record.lastActiveAt >= policy.idleResetMinutes.value * 60_000_000
  }

  /** When a call opens a session, why, and what is stored: a scheduled job always does, a new key does without a
      reason, a stored session is replaced for the hour before it is replaced for idling, and otherwise it is kept. */
  lemma RespondTells(policy: Policy, records: Records, request: Request, key: string)
    requires Normalized(policy) && RouteKey(policy, request.route) == Ok(key)
    ensures Respond(policy, records, request).Ok?
    ensures
      var reply, cron, stored := Respond(policy, records, request).value, request.route.kind == Cron, key in records;
      && (!reply.created <==> !cron && stored && !Struck(policy, records[key], request.now) && !Idle(policy, records[key], request.now))
      && (reply.reason == Some(FreshRun) <==> cron)
      && (reply.reason == Some(DailyReset) <==> !cron && stored && Struck(policy, records[key], request.now))
      && (reply.reason == Some(IdleReset) <==>
            !cron && stored && !Struck(policy, records[key], request.now) && Idle(policy, records[key], request.now))
      && reply.record.key == (if reply.created then key else records[key].key)
      && reply.record.kind == (if reply.created then request.route.kind else records[key].kind)
      && reply.record.agentId == (if reply.created then request.route.agentId else records[key].agentId)
      && reply.record.sessionId == (if reply.created then request.freshId else records[key].sessionId)
      && reply.record.createdAt == (if reply.created then request.now else records[key].createdAt)
      && reply.record.lastActiveAt == request.now
      && Advance(policy, records, request) == records[key := reply.record]
  {
    if key in records {
      DailyResetIsExact(policy, records[key], request.now);
    }
    hide RouteKey, RequiresDailyReset;
  }

  /** A route without a key is refused and stores nothing. */
  lemma RefusalStoresNothing(policy: Policy, records: Records, request: Request)
    ensures Respond(policy, records, request).Err? <==> Unidentified(policy, request.route)
    ensures Unidentified(policy, request.route) ==> Advance(policy, records, request) == records
  {
    KeyIsSpelled(policy, request.route, "");
    hide RouteKey, Unidentified;
  }

  class GatewaySessionService {
    const policy: Policy
    var records: Records

    constructor (policy: Policy)
      ensures Normalized(this.policy) && this.policy == policy.Normalize() && records == map[]
    {
      this.policy := policy.Normalize();
      records := map[];
    }

    method Resolve(route: Route, now: Instant, freshId: int) returns (r: Result<Resolution, string>)
      modifies this
      ensures r == Respond(policy, old(records), Request(route, now, freshId))
      ensures records == Advance(policy, old(records), Request(route, now, freshId))
    {
      match RouteKey(policy, route)
      case Err(message) => r := Err(message);
      case Ok(key) =>
        var record := NewRecord(Request(route, now, freshId), key);
        if route.kind == Cron {
          records := records[key := record];
          return Ok(Resolution(true, Some(FreshRun), record));
        }
        var created, reason := true, None;
        if key in records {
          var existing := records[key];
          if RequiresDailyReset(policy, existing, now) {
            reason := Some(DailyReset);
          } else if RequiresIdleReset(policy, existing, now) {
            reason := Some(IdleReset);
          } else {
            record := existing.(lastActiveAt := now);
            created := false;
          }
        }
        records := records[key := record];
        r := Ok(Resolution(created, reason, record));
    }
  }

  // -------------------------------------------------------------------------- whole traces

  /** The records after a trace of calls, from the empty cache. */
  function After(policy: Policy, trace: seq<Request>): Records {
    if trace == [] then map[]
    else Advance(policy, After(policy, trace[..|trace| - 1]), trace[|trace| - 1])
  }

  function Reply(policy: Policy, trace: seq<Request>, i: nat): Result<Resolution, string>
    requires i < |trace|
  {
    Respond(policy, After(policy, trace[..i]), trace[i])
  }

  function KeyAt(policy: Policy, trace: seq<Request>, i: nat): Result<string, string>
    requires i < |trace|
  {
    RouteKey(policy, trace[i].route)
  }

  ghost predicate FreshIds(trace: seq<Request>) {
    forall i, j :: 0 <= i < j < |trace| ==> trace[i].freshId != trace[j].freshId
  }

  /** A session, told from the history alone: it was opened by call `first`, last used by call `last`, and every call
      on its key in between returned it. */
  ghost predicate Session(policy: Policy, trace: seq<Request>, key: string, id: int, first: nat, last: nat) {
    && first <= last < |trace|
    && KeyAt(policy, trace, first) == Ok(key) && KeyAt(policy, trace, last) == Ok(key)
    && trace[first].freshId == id
    && Reply(policy, trace, first).Ok? && Reply(policy, trace, first).value.created
    && (forall i :: first <= i <= last && KeyAt(policy, trace, i) == Ok(key) ==>
          Reply(policy, trace, i).Ok? && Reply(policy, trace, i).value.record.sessionId == id)
    && (forall i :: last < i < |trace| ==> KeyAt(policy, trace, i) != Ok(key))
  }

  lemma PrefixReplies(policy: Policy, trace: seq<Request>, n: nat, i: nat)
    requires i < n <= |trace|
    ensures Reply(policy, trace[..n], i) == Reply(policy, trace, i) && KeyAt(policy, trace[..n], i) == KeyAt(policy, trace, i)
  {
    assert trace[..n][..i] == trace[..i];
  }

  lemma KeysUsed(policy: Policy, trace: seq<Request>, key: string)
    requires trace != []
    ensures
      var n := |trace| - 1;
      && After(policy, trace) == Advance(policy, After(policy, trace[..n]), trace[n])
      && Reply(policy, trace, n) == Respond(policy, After(policy, trace[..n]), trace[n])
      && (KeyAt(policy, trace, n) != Ok(key) ==>
            (key in After(policy, trace) <==> key in After(policy, trace[..n]))
            && (key in After(policy, trace) ==> After(policy, trace)[key] == After(policy, trace[..n])[key]))
      && (KeyAt(policy, trace, n) == Ok(key) ==>
            Reply(policy, trace, n).Ok? && key in After(policy, trace)
            && After(policy, trace)[key] == Reply(policy, trace, n).value.record)
  {
  }

  lemma {:induction false} StoredIffUsed(policy: Policy, trace: seq<Request>, key: string)
    ensures key in After(policy, trace) <==> exists i :: 0 <= i < |trace| && KeyAt(policy, trace, i) == Ok(key)
  {
    if trace != [] {
      var n := |trace| - 1;
      StoredIffUsed(policy, trace[..n], key);
      KeysUsed(policy, trace, key);
      hide After, RouteKey;
      assert forall i :: 0 <= i < n ==> KeyAt(policy, trace[..n], i) == KeyAt(policy, trace, i);
    }
  }

  /** A call on a stored key keeps that session or opens its own. */
  lemma CallOnStoredKey(policy: Policy, records: Records, request: Request, key: string)
    requires RouteKey(policy, request.route) == Ok(key)
    ensures
      var r := Respond(policy, records, request);
      && r.Ok? && r.value.record.lastActiveAt == request.now
      && if r.value.created then r.value.record.sessionId == request.freshId && r.value.record.createdAt == request.now
         else key in records && r.value.record.sessionId == records[key].sessionId
              && r.value.record.createdAt == records[key].createdAt
  {
  }

  lemma OwnSession(policy: Policy, trace: seq<Request>, key: string)
    requires trace != [] && KeyAt(policy, trace, |trace| - 1) == Ok(key)
    requires Reply(policy, trace, |trace| - 1).Ok? && Reply(policy, trace, |trace| - 1).value.created
    ensures Session(policy, trace, key, trace[|trace| - 1].freshId, |trace| - 1, |trace| - 1)
  {
  }

  lemma SessionExtends(policy: Policy, trace: seq<Request>, key: string, id: int, first: nat, last: nat)
    requires trace != [] && Session(policy, trace[..|trace| - 1], key, id, first, last)
    requires KeyAt(policy, trace, |trace| - 1) == Ok(key) ==>
               var r := Reply(policy, trace, |trace| - 1);
               r.Ok? && r.value.record.sessionId == id
    ensures Session(policy, trace, key, id, first, if KeyAt(policy, trace, |trace| - 1) == Ok(key) then |trace| - 1 else last)
  {
    var n := |trace| - 1;
    hide Reply, KeyAt;
    forall i | 0 <= i < n
      ensures Reply(policy, trace[..n], i) == Reply(policy, trace, i)
      ensures KeyAt(policy, trace[..n], i) == KeyAt(policy, trace, i)
    {
      PrefixReplies(policy, trace, n, i);
    }
  }

  /** The cache is the history: the record stored under a key tells the session the trace shows, who opened it and
      when it was last used. */
  lemma {:induction false} CacheTellsHistory(policy: Policy, trace: seq<Request>, key: string) returns (first: nat, last: nat)
    requires key in After(policy, trace)
    ensures Session(policy, trace, key, After(policy, trace)[key].sessionId, first, last)
    ensures After(policy, trace)[key].createdAt == trace[first].now
    ensures After(policy, trace)[key].lastActiveAt == trace[last].now
  {
    var n := |trace| - 1;
    KeysUsed(policy, trace, key);
    hide After, Respond, Session;
    if KeyAt(policy, trace, n) == Ok(key) {
      CallOnStoredKey(policy, After(policy, trace[..n]), trace[n], key);
      if Reply(policy, trace, n).value.created {
        first, last := n, n;
        assert Session(policy, trace, key, trace[n].freshId, n, n) by { OwnSession(policy, trace, key); }
        return;
      }
    }
    first, last := CacheTellsHistory(policy, trace[..n], key);
    SessionExtends(policy, trace, key, After(policy, trace)[key].sessionId, first, last);
    last := if KeyAt(policy, trace, n) == Ok(key) then n else last;
    assert first < n;
  }

  /** Every answer belongs to a session opened by some call on the same key, and all answers on that key since then
      are that session. */
  lemma Opener(policy: Policy, trace: seq<Request>, i: nat) returns (first: nat)
    requires i < |trace| && Reply(policy, trace, i).Ok?
    ensures first <= i && KeyAt(policy, trace, first) == KeyAt(policy, trace, i)
    ensures Reply(policy, trace, i).value.record.sessionId == trace[first].freshId
    ensures forall m :: first <= m <= i && KeyAt(policy, trace, m) == KeyAt(policy, trace, i) ==>
              Reply(policy, trace, m).Ok? && Reply(policy, trace, m).value.record.sessionId == trace[first].freshId
    ensures Reply(policy, trace, i).value.created ==> first == i
  {
    var upTo := trace[..i + 1];
    var key := KeyAt(policy, trace, i).value;
    KeysUsed(policy, upTo, key);
    assert upTo[..i] == trace[..i];
    hide After, RouteKey;
    CallOnStoredKey(policy, After(policy, trace[..i]), trace[i], key);
    hide Respond;
    if Reply(policy, trace, i).value.created {
      first := i;
    } else {
      var last;
      first, last := CacheTellsHistory(policy, upTo, key);
      forall m | 0 <= m <= i
        ensures Reply(policy, upTo, m) == Reply(policy, trace, m) && KeyAt(policy, upTo, m) == KeyAt(policy, trace, m)
      {
        PrefixReplies(policy, trace, i + 1, m);
      }
      hide Reply, KeyAt;
    }
  }

  /** Distinct keys never share a session. */
  lemma SessionsAreNotShared(policy: Policy, trace: seq<Request>, i: nat, j: nat)
    requires FreshIds(trace) && i < |trace| && j < |trace|
    requires Reply(policy, trace, i).Ok? && Reply(policy, trace, j).Ok?
    requires Reply(policy, trace, i).value.record.sessionId == Reply(policy, trace, j).value.record.sessionId
    ensures KeyAt(policy, trace, i) == KeyAt(policy, trace, j)
  {
    hide Reply, KeyAt;
    var f := Opener(policy, trace, i);
    var g := Opener(policy, trace, j);
    assert f == g;
  }

  /** A session that was replaced on its key is never returned again. */
  lemma ReplacedIsGone(policy: Policy, trace: seq<Request>, i: nat, j: nat, k: nat)
    requires FreshIds(trace) && i < j < k < |trace|
    requires Reply(policy, trace, i).Ok? && Reply(policy, trace, j).Ok? && Reply(policy, trace, k).Ok?
    requires KeyAt(policy, trace, i) == KeyAt(policy, trace, j)
    requires Reply(policy, trace, i).value.record.sessionId != Reply(policy, trace, j).value.record.sessionId
    ensures Reply(policy, trace, k).value.record.sessionId != Reply(policy, trace, i).value.record.sessionId
  {
    hide Reply, KeyAt;
    var f := Opener(policy, trace, i);
    var g := Opener(policy, trace, k);
  }

  /** A cron call always opens a session of its own, and no call on a separable route ever returns it again. */
  lemma CronIsFresh(policy: Policy, trace: seq<Request>, i: nat, j: nat)
    requires FreshIds(trace) && i < |trace| && j < |trace| && i != j
    requires trace[i].route.kind == Cron && Reply(policy, trace, j).Ok?
    requires j < i || (Separable(trace[i].route) && Separable(trace[j].route))
    ensures Reply(policy, trace, i).Ok? && Reply(policy, trace, i).value.created
    ensures Reply(policy, trace, i).value.record.sessionId != Reply(policy, trace, j).value.record.sessionId
  {
    assert Reply(policy, trace, i).Ok? && Reply(policy, trace, i).value.created;
    if i < j && KeyAt(policy, trace, i) == KeyAt(policy, trace, j) {
      KeysIdentifyAddresses(policy, trace[i].route, trace[j].route);
      assert trace[j].route.kind == Cron && Reply(policy, trace, j).value.created;
    }
    var f := Opener(policy, trace, i);
    var g := Opener(policy, trace, j);
  }

  /** When a call reuses a session, told from the history alone: the key was used before, by a session whose opening
      has no reset instant after it, and whose last use is within the idle limit. Cron calls never do. */
  ghost predicate MayReuse(policy: Policy, trace: seq<Request>, i: nat, first: nat, last: nat)
    requires i < |trace|
  {
    && KeyAt(policy, trace, i).Ok? && first < i && last < i
    && Session(policy, trace[..i], KeyAt(policy, trace, i).value, trace[first].freshId, first, last)
    && (forall k :: !(trace[first].now < ResetInstant(policy, k) <= trace[i].now))
    && (policy.idleResetMinutes.Some? ==> trace[i].now - trace[last].now < policy.idleResetMinutes.value * 60_000_000)
  }

  lemma ReuseNeedsRecord(policy: Policy, trace: seq<Request>, i: nat, first: nat, last: nat)
    requires i < |trace| && MayReuse(policy, trace, i, first, last)
    ensures KeyAt(policy, trace, i).value in After(policy, trace[..i])
  {
    StoredIffUsed(policy, trace[..i], KeyAt(policy, trace, i).value);
    assert KeyAt(policy, trace[..i], first) == KeyAt(policy, trace, i);
  }

  lemma SessionIsUnique(policy: Policy, trace: seq<Request>, key: string, id: int, first: nat, last: nat, a: nat, b: nat)
    requires FreshIds(trace) && a < |trace|
    requires Session(policy, trace, key, id, first, last) && Session(policy, trace, key, trace[a].freshId, a, b)
    ensures a == first && b == last
  {
  }

  lemma ReuseIsExact(policy: Policy, trace: seq<Request>, i: nat)
    requires Normalized(policy) && FreshIds(trace) && i < |trace| && Reply(policy, trace, i).Ok?
    ensures !Reply(policy, trace, i).value.created <==>
            trace[i].route.kind != Cron && exists first: nat, last: nat :: MayReuse(policy, trace, i, first, last)
  {
    var key, before := KeyAt(policy, trace, i).value, After(policy, trace[..i]);
    hide RouteKey, After;
    forall a: nat, b: nat | MayReuse(policy, trace, i, a, b) ensures key in before {
      ReuseNeedsRecord(policy, trace, i, a, b);
    }
    if key in before {
      var first, last := CacheTellsHistory(policy, trace[..i], key);
      DailyResetIsExact(policy, before[key], trace[i].now);
      forall a: nat, b: nat | MayReuse(policy, trace, i, a, b) ensures a == first && b == last {
        SessionIsUnique(policy, trace[..i], key, before[key].sessionId, first, last, a, b);
      }
      hide Session, RequiresDailyReset;
      if !Reply(policy, trace, i).value.created {
        assert MayReuse(policy, trace, i, first, last);
      }
    }
  }

  /** Under the per-peer scope, messages of one peer to one agent share a session, whatever their sources, as long as
      no reset falls between them. */
  lemma PeerKeepsSession(policy: Policy, records: Records, first: Request, second: Request)
    requires Normalized(policy) && policy.perPeer
    requires first.route.kind == DirectMessage && !Absent(first.route.peerId)
    requires second.route == first.route.(sourceId := second.route.sourceId)
    ensures Respond(policy, records, first).Ok?
    ensures
      var begun := Respond(policy, records, first).value.record;
      var after := Advance(policy, records, first);
      && Respond(policy, after, second).Ok?
      && (Respond(policy, after, second).value.created <==>
            Struck(policy, begun, second.now)
            || (policy.idleResetMinutes.Some? && second.now - first.now >= policy.idleResetMinutes.value * 60_000_000))
      && (!Respond(policy, after, second).value.created ==> Respond(policy, after, second).value.record.sessionId == begun.sessionId)
  {
    SourceIsOnlyAFallback(policy, first.route, second.route.sourceId);
    var key := RouteKey(policy, first.route).value;
    RespondTells(policy, records, first, key);
    RespondTells(policy, Advance(policy, records, first), second, key);
    hide RouteKey, Respond, Advance, Struck;
  }
}
