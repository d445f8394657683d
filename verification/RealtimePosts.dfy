/** What every event of a log shows on each path, and how the log is numbered. */
module RealtimePosts {
  import opened Wrappers
  import opened RealtimeEvents
  import opened RealtimeProjections
  import opened RealtimeReplays

  // ----- numbers

  /** The last event of the log that brought its own number. */
  ghost predicate LastNumbered(log: seq<LiveEvent>, i: nat) {
    i < |log| && log[i].sequence.Some? && forall j :: i < j < |log| ==> log[j].sequence.None?
  }

  /** The stream counts on from the last number an event brought, or from zero. */
  lemma {:induction false} NumberOfLog(log: seq<LiveEvent>)
    ensures forall i: nat :: LastNumbered(log, i) ==> Replay(log).lastSequence == log[i].sequence.value + (|log| - 1 - i)
    ensures (forall i :: 0 <= i < |log| ==> log[i].sequence.None?) ==> Replay(log).lastSequence == |log|
  {
    if log != [] {
      var before, e := log[..|log| - 1], log[|log| - 1];
      assert log == before + [e];
      NumberOfLog(before);
      ApplyShows(Replay(before), e, UiUpdateHub);
      assert Replay(log).lastSequence == NumberOf(Replay(before), e);
      hide Replay, Apply;
      forall i: nat | LastNumbered(log, i)
        ensures Replay(log).lastSequence == log[i].sequence.value + (|log| - 1 - i)
      {
        if i < |before| {
          assert log[|before|].sequence.None?;
          assert forall j :: i < j < |before| ==> log[j] == before[j];
          assert LastNumbered(before, i);
        }
      }
      if forall i :: 0 <= i < |log| ==> log[i].sequence.None? {
        assert e.sequence.None? && forall i :: 0 <= i < |before| ==> before[i] == log[i];
      }
    }
  }

  // ----- contents

  ghost predicate Carries(m: Message, event: string, fields: Fields) {
    m.Message? && m.event == event && m.data == Carried(fields)
  }

  ghost predicate OnUiHub(e: LiveEvent, m: Message) {
    match e.kind
    case MatchChanged => Carries(m, "MatchUpdate", e.payload)
    case TournamentChanged => Carries(m, "TournamentUpdate", e.payload)
    case SongsChanged => Carries(m, "SongsUpdate", e.payload)
    case DivisionChanged => Carries(m, "DivisionUpdate", e.payload)
    case PhaseChanged => Carries(m, "PhaseUpdate", e.payload)
    case PhaseGroupChanged => Carries(m, "PhaseGroupUpdate", e.payload)
    case ScheduleChanged => Carries(m, "ScheduleUpdate", e.payload)
    case Warning =>
      Carries(m, "UiWarning", if e.payload.tournamentId.Some? then e.payload else e.payload.(tournamentId := Some(e.tournamentId)))
    case SnapshotChanged => Carries(m, "TournamentUpdate", Fields(Some(e.tournamentId), None, None, None, "", "", false, ""))
    case _ => m.SequenceOnly?
  }

  ghost predicate OnLobbyGateway(e: LiveEvent, m: Message) {
    match e.kind
    case ConnectionStatus => Carries(m, "OnSyncStartConnectionStatus", e.payload)
    case LobbyActive => Carries(m, "OnConnectionActive", e.payload)
    case LobbyConnected => Carries(m, "OnConnected", e.payload)
    case PlayerReady => Carries(m, "OnPlayerReady", e.payload)
    case SongSelected(song) =>
      && m.Message? && m.event == "OnSongSelected" && m.data.Selected?
      && m.data.tournamentId == e.payload.tournamentId && m.data.lobbyId == e.payload.lobbyId
      && m.data.lobbyName == e.payload.lobbyName && m.data.lobbyCode == e.payload.lobbyCode
      && m.data.songTitle == song.title && m.data.songPath == song.songPath
    case _ => m.SequenceOnly?
  }

  /** The live match of the event's lobby, on a song and with players. */
  ghost predicate ShowsMatch(e: LiveEvent, m: Message, event: string, song: Song, players: seq<MatchPlayer>) {
    && m.Message? && m.event == event && m.data.Live?
    && m.data.state.tournamentId == e.payload.tournamentId && m.data.state.lobbyId == e.payload.lobbyId
    && m.data.state.lobbyName == e.payload.lobbyName && m.data.state.lobbyCode == e.payload.lobbyCode
    && m.data.state.songTitle == song.title && m.data.state.songPath == song.songPath
    && m.data.state.players == players
  }

  /** The same players, every one of them through with the song. */
  ghost predicate AllThrough(scores: seq<MatchPlayer>, players: seq<MatchPlayer>) {
    |players| == |scores| && forall i :: 0 <= i < |scores| ==> players[i] == scores[i].(isCompleted := true)
  }

  ghost predicate OnLiveGateway(log: seq<LiveEvent>, e: LiveEvent, m: Message) {
    match e.kind
    case SongSelected(song) => ShowsMatch(e, m, "OnSongSelected", song, [])
    case SongCompletedLive(song, scores) =>
      exists players :: AllThrough(scores, players) && ShowsMatch(e, m, "OnSongCompleted", song, players)
    case MatchUpdate(song, players) =>
      ShowsMatch(e, m, "OnMatchUpdate",
                 if song.Some? then song.value
                 else if e.payload.lobbyId.Some? && e.payload.lobbyId.value != "" then ShownSong(LastSong(log, e.payload.lobbyId.value))
                 else Song("", ""),
                 players)
    case _ => m.SequenceOnly?
  }

  /** A message, or a bare number, with the number the stream has after the event. */
  ghost predicate Numbered(e: LiveEvent, m: Message, n: int) {
    if m.SequenceOnly? then m == SequenceOnly(e.tournamentId, n) else m.sequence == n
  }

  lemma PostNumbered(p: Projection, e: LiveEvent, path: Path)
    ensures Numbered(e, MessageFor(Prepared(p, e), e, path), Apply(p, e).lastSequence)
  {
    ApplyShows(p, e, path);
    hide Apply, Previous;
  }

  lemma UiPost(p: Projection, e: LiveEvent)
    ensures OnUiHub(e, MessageFor(p, e, UiUpdateHub))
  {
    hide Previous;
  }

  lemma LobbyPost(p: Projection, e: LiveEvent)
    ensures OnLobbyGateway(e, MessageFor(p, e, LobbyGateway))
  {
    hide Previous;
  }

  lemma LivePost(log: seq<LiveEvent>, e: LiveEvent)
    ensures OnLiveGateway(log, e, MessageFor(Prepared(Replay(log), e), e, LiveMatchGateway))
  {
    if e.kind.MatchUpdate? && e.payload.lobbyId.Some? && e.payload.lobbyId.value != "" {
      LiveMatchPlaysLastSong(log, e.payload.lobbyId.value);
    }
    if e.kind.SongCompletedLive? {
      assert AllThrough(e.kind.scores, Finishers(e.kind.scores));
    }
    hide Replay, LastSong;
  }

  /** Every event shows on every path what its kind asks for, under the number the stream has then. */
  lemma EveryPost(log: seq<LiveEvent>, i: nat, path: Path)
    requires i < |log|
    ensures var e, m := log[i], Posted(log, i, path);
            && Numbered(e, m, Replay(log[..i + 1]).lastSequence)
            && match path
               case UiUpdateHub => OnUiHub(e, m)
               case LobbyGateway => OnLobbyGateway(e, m)
               case LiveMatchGateway => OnLiveGateway(log[..i], e, m)
  {
    assert log[..i + 1][..i] == log[..i];
    PostNumbered(Replay(log[..i]), log[i], path);
    UiPost(Prepared(Replay(log[..i]), log[i]), log[i]);
    LobbyPost(Prepared(Replay(log[..i]), log[i]), log[i]);
    LivePost(log[..i], log[i]);
    hide Apply, MessageFor, Prepared, OnUiHub, OnLobbyGateway, OnLiveGateway, Numbered;
  }
}
