/** The replica-local projection of one tournament: what a connecting browser is told. */
module RealtimeProjections {
  import opened Wrappers
  import opened RealtimeEvents
  import opened RealtimeMessages

  datatype Projection = Projection(snapshots: map<Path, Messages>, liveMatches: map<string, LiveMatch>, lastSequence: int)

  datatype Routed = Routed(path: Path, message: Message)

  datatype ApplyError = WrongTournament(event: int, state: int)

  const FRESH := Projection(map[], map[], 0)

  function SnapshotOf(p: Projection, path: Path): Messages {
    if path in p.snapshots then p.snapshots[path] else []
  }

  function Cache(p: Projection, path: Path, m: Message): Projection {
    if m.SequenceOnly? then p
    else p.(snapshots := p.snapshots[path := Put(SnapshotOf(p, path), MessageIdentity(m.event, m.data), m)])
  }

  function RemoveLobby(p: Projection, lobby: string): Projection {
    p.(snapshots := map path | path in p.snapshots :: Without(p.snapshots[path], lobby), liveMatches := p.liveMatches - {lobby})
  }

  /** The lobby went away and nobody keeps it active. */
  predicate Removes(e: LiveEvent, lobby: string) {
    e.kind.LobbyDisconnected? && e.payload.lobbyId == Some(lobby) && lobby != "" && !e.payload.isActive
  }

  function NumberOf(p: Projection, e: LiveEvent): int {
    if e.sequence.Some? then e.sequence.value else p.lastSequence + 1
  }

  /** The projection right before an event is shown: numbered, and rid of a lobby that went away. */
  function Prepared(p: Projection, e: LiveEvent): Projection {
    var numbered := p.(lastSequence := NumberOf(p, e));
    if Present(e.payload.lobbyId) && Removes(e, e.payload.lobbyId.value) then RemoveLobby(numbered, e.payload.lobbyId.value)
    else numbered
  }

  function Previous(p: Projection, lobbyId: Option<string>): Option<LiveMatch> {
    if Present(lobbyId) && lobbyId.value in p.liveMatches then Some(p.liveMatches[lobbyId.value]) else None
  }

  function Remember(p: Projection, e: LiveEvent, path: Path, m: Message): Projection {
    if path == LiveMatchGateway && Present(e.payload.lobbyId) && m.Message? && m.data.Live? then
      p.(liveMatches := p.liveMatches[e.payload.lobbyId.value := m.data.state])
    else p
  }

  function MessageFor(p: Projection, e: LiveEvent, path: Path): Message {
    MapRealtimeEvent(e, p.lastSequence, path, Previous(p, e.payload.lobbyId))
  }

  function ShowOn(p: Projection, e: LiveEvent, path: Path): Projection {
    var m := MessageFor(p, e, path);
    Remember(Cache(p, path, m), e, path, m)
  }

  function ShowFrom(p: Projection, e: LiveEvent, paths: seq<Path>): Projection {
    if paths == [] then p else ShowOn(ShowFrom(p, e, paths[..|paths| - 1]), e, paths[|paths| - 1])
  }

  function RoutedFrom(p: Projection, e: LiveEvent, paths: seq<Path>): seq<Routed> {
    if paths == [] then []
    else
      var before, path := paths[..|paths| - 1], paths[|paths| - 1];
      RoutedFrom(p, e, before) + [Routed(path, MessageFor(ShowFrom(p, e, before), e, path))]
  }

  function Apply(p: Projection, e: LiveEvent): Projection {
    ShowFrom(Prepared(p, e), e, PATHS)
  }
}
