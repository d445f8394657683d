/** Live events, and what each browser path shows of them. */
module RealtimeEvents {
  import opened Wrappers

  datatype Path = UiUpdateHub | LobbyGateway | LiveMatchGateway

  const PATHS := [UiUpdateHub, LobbyGateway, LiveMatchGateway]

  datatype Song = Song(title: string, songPath: string)

  datatype MatchPlayer = MatchPlayer(playerId: string, playerName: string, score: int, exScore: Option<int>, isFailed: bool, isCompleted: bool)

  /** The fields of a payload anything here looks at; `content` is the rest of it. */
  datatype Fields = Fields(
    tournamentId: Option<int>,
    lobbyId: Option<string>,
    playerId: Option<string>,
    matchId: Option<int>,
    lobbyName: string,
    lobbyCode: string,
    isActive: bool,
    content: string)

  datatype Kind =
    | MatchChanged
    | Warning
    | SnapshotChanged
    | TournamentChanged
    | SongsChanged
    | DivisionChanged
    | PhaseChanged
    | PhaseGroupChanged
    | ScheduleChanged
    | ConnectionStatus
    | LobbyActive
    | LobbyConnected
    | LobbyDisconnected
    | SongSelected(song: Song)
    | PlayerReady
    | MatchUpdate(played: Option<Song>, players: seq<MatchPlayer>)
    | SongCompletedLive(completed: Song, scores: seq<MatchPlayer>)
    | OtherKind

  datatype LiveEvent = LiveEvent(kind: Kind, tournamentId: int, sequence: Option<int>, payload: Fields)

  datatype LiveMatch = LiveMatch(
    tournamentId: Option<int>,
    lobbyId: Option<string>,
    lobbyName: string,
    lobbyCode: string,
    songTitle: string,
    songPath: string,
    players: seq<MatchPlayer>)

  datatype Data =
    | Carried(fields: Fields)
    | Selected(tournamentId: Option<int>, lobbyId: Option<string>, lobbyName: string, lobbyCode: string, songTitle: string, songPath: string)
    | Live(state: LiveMatch)

  /** `SequenceOnly` tells a client no more than how far the stream got. */
  datatype Message =
    | SequenceOnly(tournamentId: int, sequence: int)
    | Message(event: string, data: Data, sequence: int)

  function UiEventName(kind: Kind): Option<string> {
    match kind
    case TournamentChanged => Some("TournamentUpdate")
    case SongsChanged => Some("SongsUpdate")
    case DivisionChanged => Some("DivisionUpdate")
    case PhaseChanged => Some("PhaseUpdate")
    case PhaseGroupChanged => Some("PhaseGroupUpdate")
    case ScheduleChanged => Some("ScheduleUpdate")
    case _ => None
  }

  function LiveMatchOf(f: Fields, title: string, path: string, players: seq<MatchPlayer>): LiveMatch {
    LiveMatch(f.tournamentId, f.lobbyId, f.lobbyName, f.lobbyCode, title, path, players)
  }

  /** Every player of a finished song is shown as completed. */
  function Finishers(scores: seq<MatchPlayer>): seq<MatchPlayer> {
    seq(|scores|, i requires 0 <= i < |scores| => scores[i].(isCompleted := true))
  }

  function MapUi(e: LiveEvent, sequence: int): Message {
    if e.kind == MatchChanged then Message("MatchUpdate", Carried(e.payload), sequence)
    else if e.kind == Warning then
      Message("UiWarning", Carried(e.payload.(tournamentId := if e.payload.tournamentId.Some? then e.payload.tournamentId else Some(e.tournamentId))), sequence)
    else if e.kind == SnapshotChanged then
      Message("TournamentUpdate", Carried(Fields(Some(e.tournamentId), None, None, None, "", "", false, "")), sequence)
    else if UiEventName(e.kind).Some? then Message(UiEventName(e.kind).value, Carried(e.payload), sequence)
    else SequenceOnly(e.tournamentId, sequence)
  }

  function MapLobby(e: LiveEvent, sequence: int): Message {
    match e.kind
    case ConnectionStatus => Message("OnSyncStartConnectionStatus", Carried(e.payload), sequence)
    case LobbyActive => Message("OnConnectionActive", Carried(e.payload), sequence)
    case LobbyConnected => Message("OnConnected", Carried(e.payload), sequence)
    case SongSelected(song) =>
      Message("OnSongSelected", Selected(e.payload.tournamentId, e.payload.lobbyId, e.payload.lobbyName, e.payload.lobbyCode, song.title, song.songPath), sequence)
    case PlayerReady => Message("OnPlayerReady", Carried(e.payload), sequence)
    case _ => SequenceOnly(e.tournamentId, sequence)
  }

  function MapLive(e: LiveEvent, sequence: int, previous: Option<LiveMatch>): Message {
    match e.kind
    case SongSelected(song) => Message("OnSongSelected", Live(LiveMatchOf(e.payload, song.title, song.songPath, [])), sequence)
    case MatchUpdate(song, players) =>
      var title := if song.Some? then song.value.title else if previous.Some? then previous.value.songTitle else "";
      var path := if song.Some? then song.value.songPath else if previous.Some? then previous.value.songPath else "";
      Message("OnMatchUpdate", Live(LiveMatchOf(e.payload, title, path, players)), sequence)
    case SongCompletedLive(song, scores) =>
      Message("OnSongCompleted", Live(LiveMatchOf(e.payload, song.title, song.songPath, Finishers(scores))), sequence)
    case _ => SequenceOnly(e.tournamentId, sequence)
  }

  function MapRealtimeEvent(e: LiveEvent, sequence: int, path: Path, previous: Option<LiveMatch>): Message {
    match path
    case UiUpdateHub => MapUi(e, sequence)
    case LobbyGateway => MapLobby(e, sequence)
    case LiveMatchGateway => MapLive(e, sequence, previous)
  }

  // ----- identities

  /** Neither absent nor empty. */
  predicate Present(s: Option<string>) {
    s.Some? && s.value != ""
  }

  function Text(s: Option<string>): string {
    if s.Some? then s.value else "undefined"
  }

  function Digits(n: nat): string {
    if n < 10 then ["0123456789"[n]] else Digits(n / 10) + ["0123456789"[n % 10]]
  }

  function Decimal(n: int): string {
    if n < 0 then "-" + Digits(-n) else Digits(n)
  }

  function LobbyIdOf(d: Data): Option<string> {
    match d
    case Carried(f) => f.lobbyId
    case Selected(_, lobbyId, _, _, _, _) => lobbyId
    case Live(state) => state.lobbyId
  }

  function PlayerIdOf(d: Data): Option<string> {
    if d.Carried? then d.fields.playerId else None
  }

  function MatchIdOf(d: Data): Option<int> {
    if d.Carried? then d.fields.matchId else None
  }

  /** What a message replaces in the snapshot: the message about the same player, match, lobby, or of the same event. */
  function MessageIdentity(event: string, d: Data): string {
    if Present(PlayerIdOf(d)) then event + ":lobby:" + Text(LobbyIdOf(d)) + ":player:" + PlayerIdOf(d).value
    else if MatchIdOf(d).Some? && MatchIdOf(d).value != 0 then event + ":match:" + Decimal(MatchIdOf(d).value)
    else if Present(LobbyIdOf(d)) then event + ":lobby:" + LobbyIdOf(d).value
    else event
  }
}
