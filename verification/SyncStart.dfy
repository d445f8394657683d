/** The lobby snapshots that travel from the bridge to the tournament manager. */
module SyncStart {
  import opened Wrappers

  datatype PlayerId = P1 | P2

  datatype Screen =
    | NoScreen
    | ScreenSelectMusic
    | ScreenGameplay
    | ScreenPlayerOptions
    | ScreenEvaluation
    | ScreenEvaluationStage

  /** The judgment counters, carried through unread. */
  datatype Judgments = Judgments(counters: seq<int>)

  datatype LobbyPlayer = LobbyPlayer(
    playerId: PlayerId,
    profileName: string,
    screenName: Screen,
    ready: bool,
    judgments: Option<Judgments>,
    score: Option<int>,
    exScore: Option<int>,
    isFailed: Option<bool>)

  datatype SongInfo = SongInfo(songPath: string, title: string, artist: string, songLength: int)

  datatype LobbyState = LobbyState(players: seq<LobbyPlayer>, code: string, songInfo: Option<SongInfo>)
}
