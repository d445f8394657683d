/**
 * From the cabinets to the tournament: what an interpreter that reads every
 * snapshot of the bridge announces as completed songs.
 */
module BridgeCompletions {
  import opened Wrappers
  import opened Sequences
  import opened SyncStart
  import opened LobbyStateInterpreters
  import opened InterpreterTraces
  import opened BridgeLobbies
  import opened BridgeInvariants

  predicate IsCompletion(e: Event) {
    e.SongCompleted?
  }

  function Completions(events: seq<Event>): seq<Event> {
    Filter(events, IsCompletion)
  }

  /** What the interpreter remembers and has announced after every snapshot of the bridge. */
  function Heeded(norm: Norm, l: Lobby): (Reader, seq<Event>) {
    ReadAll(norm, l.sent)
  }

  /** The result of one player as the tournament records it. */
  function ResultOf(norm: Norm, p: SessionPlayer): Score {
    Score(p.playerId, norm(p.profileName), 0, Some(p.exScore), p.isFailed)
  }

  function ResultsOf(norm: Norm, ps: seq<SessionPlayer>): seq<Score> {
    seq(|ps|, i requires 0 <= i < |ps| => ResultOf(norm, ps[i]))
  }

  // ----- snapshots of a room at play complete nothing

  ghost predicate NoCompletion(events: seq<Event>) {
    forall i :: 0 <= i < |events| ==> !events[i].SongCompleted?
  }

  lemma {:induction false} NothingCompleted(events: seq<Event>)
    requires NoCompletion(events)
    ensures Completions(events) == []
  {
    if events != [] {
      NothingCompleted(events[..|events| - 1]);
    }
  }

  lemma {:induction false} ReadinessCompletesNothing(norm: Norm, r: Reader, ps: seq<LobbyPlayer>)
    ensures NoCompletion(Introduce(norm, r, ps).1) && NoCompletion(UpdateReady(norm, r, ps).1)
  {
    if ps != [] {
      ReadinessCompletesNothing(norm, r, ps[..|ps| - 1]);
    }
  }

  /** A snapshot without anybody on an evaluation screen. */
  predicate AtPlay(lobby: LobbyState) {
    forall i :: 0 <= i < |lobby.players| ==> !IsEvaluation(lobby.players[i].screenName)
  }

  lemma PlayCompletesNothing(norm: Norm, r: Reader, lobby: LobbyState)
    requires AtPlay(lobby)
    ensures NoCompletion(Interpret(norm, r, lobby).1)
  {
    var (r1, selected) := SelectSong(r, lobby.songInfo);
    var (r2, introduced) := Introduce(norm, r1, lobby.players);
    ReadinessCompletesNothing(norm, r1, lobby.players);
    ReadinessCompletesNothing(norm, r2, Playing(lobby.players));
    hide Introduce, UpdateReady, Playing, RecordScreens;
    var (r3, updated) := UpdateReady(norm, r2, Playing(lobby.players));
    assert Complete(norm, r3, lobby) == (r3, []);
  }

  lemma ReadOneMore(norm: Norm, sent: seq<LobbyState>, state: LobbyState)
    ensures var (before, events) := ReadAll(norm, sent);
            ReadAll(norm, sent + [state]) == (Interpret(norm, before, state).0, events + Interpret(norm, before, state).1)
  {
    assert (sent + [state])[..|sent|] == sent;
  }

  /** Publishing a room at play: read events are only added to, and none of the new ones is a completion. */
  lemma PublishCompletesNothing(norm: Norm, c: Config, l: Lobby, screen: Screen)
    requires !IsEvaluation(screen)
    ensures Completions(Heeded(norm, Publish(c, l, screen)).1) == Completions(Heeded(norm, l).1)
  {
    var state := Snapshot(c, SessionPlayers(l), l.song, screen);
    if l.published != Some(state) {
      ReadOneMore(norm, l.sent, state);
      var (before, events) := ReadAll(norm, l.sent);
      PlayCompletesNothing(norm, before, state);
      var more := Interpret(norm, before, state).1;
      NothingCompleted(more);
      FilterAppend(events, more, IsCompletion);
      hide Interpret, ReadAll;
    }
  }

  lemma QuietStepCompletesNothing(norm: Norm, c: Config, l: Lobby, step: Step)
    requires Room(l) && !Fires(l, step)
    ensures Completions(Heeded(norm, Take(c, l, step)).1) == Completions(Heeded(norm, l).1)
  {
    hide Room, Take, Publish, ReadAll, Completions;
    var before, screen := QuietStep(c, l, step);
    PublishCompletesNothing(norm, c, before, screen);
  }

  // ----- the two snapshots of a completion

  /** The reader has just seen the room play the song. */
  ghost predicate Watching(norm: Norm, r: Reader, song: SongInfo, ps: seq<LobbyPlayer>) {
    && r.previousSongKey == Some(SongKey(song))
    && forall i :: 0 <= i < |ps| ==>
         KeyOf(norm, ps[i]) in r.ready && KeyOf(norm, ps[i]) in r.screens && r.screens[KeyOf(norm, ps[i])] == ScreenGameplay
  }

  lemma {:induction false} ScreensSeen(norm: Norm, screens: map<PlayerKey, Screen>, ps: seq<LobbyPlayer>, screen: Screen)
    requires forall i :: 0 <= i < |ps| ==> ps[i].screenName == screen
    ensures var seen := RecordScreens(norm, screens, ps);
            forall i :: 0 <= i < |ps| ==> KeyOf(norm, ps[i]) in seen && seen[KeyOf(norm, ps[i])] == screen
  {
    if ps != [] {
      ScreensSeen(norm, screens, ps[..|ps| - 1], screen);
    }
  }

  /** What the reader remembers right before it records the screens of a snapshot of a room at play. */
  lemma SnapshotIntroduces(norm: Norm, r: Reader, lobby: LobbyState, events: seq<Event>) returns (after: Reader)
    requires Faithful(r, events) && AtPlay(lobby)
    ensures Interpret(norm, r, lobby).0 == after.(screens := RecordScreens(norm, r.screens, lobby.players))
    ensures forall i :: 0 <= i < |lobby.players| ==> KeyOf(norm, lobby.players[i]) in after.ready
    ensures after == SelectSong(r, lobby.songInfo).0.(ready := after.ready)
  {
    var (r1, selected) := SelectSong(r, lobby.songInfo);
    SelectIsFaithful(r, lobby.songInfo, events);
    IntroduceIsFaithful(norm, r1, lobby.players, events + selected);
    var (r2, introduced) := Introduce(norm, r1, lobby.players);
    PlayingKnown(norm, r2.ready, lobby.players);
    UpdateIsFaithful(norm, r2, Playing(lobby.players), events + selected + introduced);
    OnlyReadyChanges(norm, r1, lobby.players);
    OnlyReadyChanges(norm, r2, Playing(lobby.players));
    hide Introduce, UpdateReady, Playing, Faithful, RecordScreens;
    after := UpdateReady(norm, r2, Playing(lobby.players)).0;
    assert Complete(norm, after, lobby) == (after, []);
  }

  lemma SnapshotWatched(norm: Norm, r: Reader, lobby: LobbyState, events: seq<Event>)
    requires Faithful(r, events) && lobby.songInfo.Some?
    requires forall i :: 0 <= i < |lobby.players| ==> lobby.players[i].screenName == ScreenGameplay
    ensures var after := Interpret(norm, r, lobby).0;
            && Watching(norm, after, lobby.songInfo.value, lobby.players)
            && after.lastCompleted ==
                 if r.previousSongKey == Some(SongKey(lobby.songInfo.value)) then r.lastCompleted else None
  {
    var introduced := SnapshotIntroduces(norm, r, lobby, events);
    ScreensSeen(norm, r.screens, lobby.players, ScreenGameplay);
    hide RecordScreens, Interpret, Faithful;
  }

  lemma {:induction false} KnownToReader(norm: Norm, r: Reader, ps: seq<LobbyPlayer>)
    requires forall i :: 0 <= i < |ps| ==> KeyOf(norm, ps[i]) in r.ready
    ensures Introduce(norm, r, ps) == (r, [])
  {
    if ps != [] {
      KnownToReader(norm, r, ps[..|ps| - 1]);
    }
  }

  lemma {:induction false} NobodyPlaying(ps: seq<LobbyPlayer>)
    requires forall i :: 0 <= i < |ps| ==> ps[i].screenName != ScreenGameplay
    ensures Playing(ps) == []
  {
    if ps != [] {
      NobodyPlaying(ps[..|ps| - 1]);
    }
  }

  lemma ResultsShown(norm: Norm, ps: seq<SessionPlayer>, screen: Screen)
    ensures ScoresOf(norm, ShownAll(ps, screen)) == ResultsOf(norm, ps)
  {
  }

  /** Watching readers answer an evaluation snapshot with one completion, unless it has the signature they read last. */
  lemma EvaluationRead(norm: Norm, c: Config, r: Reader, song: string, ps: seq<SessionPlayer>)
    requires ps != []
    requires Watching(norm, r, SongShown(Some(song)).value, ShownAll(ps, ScreenGameplay))
    ensures var info, scores := SongShown(Some(song)).value, ResultsOf(norm, ps);
            && Interpret(norm, r, Snapshot(c, ps, Some(song), ScreenEvaluation)).1 ==
              (if r.lastCompleted == Some(SignatureOf(info, scores)) then [] else [SongCompleted(info, scores)])
            && Interpret(norm, r, Snapshot(c, ps, Some(song), ScreenEvaluation)).0.previousSongKey == Some(SongKey(info))
            && Interpret(norm, r, Snapshot(c, ps, Some(song), ScreenEvaluation)).0.lastCompleted == Some(SignatureOf(info, scores))
  {
    var lobby := Snapshot(c, ps, Some(song), ScreenEvaluation);
    assert forall i :: 0 <= i < |ps| ==> KeyOf(norm, lobby.players[i]) == KeyOf(norm, ShownAll(ps, ScreenGameplay)[i]);
    assert SelectSong(r, lobby.songInfo) == (r, []);
    KnownToReader(norm, r, lobby.players);
    NobodyPlaying(lobby.players);
    assert UpdateReady(norm, r, Playing(lobby.players)) == (r, []);
    assert JustFinished(norm, r.screens, lobby.players[0]);
    ResultsShown(norm, ps, ScreenEvaluation);
    hide ScoresOf, ResultsOf, SignatureOf, RecordScreens;
    assert Interpret(norm, r, lobby).1 == Complete(norm, r, lobby).1;
  }

  /** The tournament has just recorded these very results for this song. */
  ghost predicate Recorded(events: seq<Event>, song: SongInfo, scores: seq<Score>) {
    LastSelected(events) == Some(SongKey(song)) && LastCompletion(events) == Some(SignatureOf(song, scores))
  }

  /** The result is announced unless it is already the last one recorded; either way it now is. */
  ghost predicate AnnouncedOnce(before: seq<Event>, after: seq<Event>, song: SongInfo, scores: seq<Score>) {
    && Completions(after) == Completions(before) + (if Recorded(before, song, scores) then [] else [SongCompleted(song, scores)])
    && Recorded(after, song, scores)
  }

  lemma PlayedSent(c: Config, l: Lobby, state: LobbyState) returns (sent: seq<LobbyState>)
    requires Stream(c, l) && state == Snapshot(c, SessionPlayers(l), l.song, ScreenGameplay)
    ensures Publish(c, l, ScreenGameplay).sent == sent + [state]
    ensures l.sent == sent || l.sent == sent + [state]
  {
    sent := if l.published == Some(state) then l.sent[..|l.sent| - 1] else l.sent;
  }

  /** After the first snapshot of a completion the reader is watching, and remembers what it had recorded. */
  lemma PlayedWatched(norm: Norm, c: Config, l: Lobby, song: string, scores: seq<Score>)
    requires Stream(c, l) && l.song == Some(song)
    ensures var info, played := SongShown(Some(song)).value, Publish(c, l, ScreenGameplay);
            && Watching(norm, Heeded(norm, played).0, info, ShownAll(SessionPlayers(l), ScreenGameplay))
            && (Heeded(norm, played).0.lastCompleted == Some(SignatureOf(info, scores)) <==>
                Recorded(Heeded(norm, l).1, info, scores))
  {
    var state := Snapshot(c, SessionPlayers(l), l.song, ScreenGameplay);
    var sent := PlayedSent(c, l, state);
    ReadOneMore(norm, sent, state);
    Remembered(norm, sent);
    Remembered(norm, l.sent);
    ReadingIsFaithful(norm, sent);
    var (before, events) := ReadAll(norm, sent);
    SnapshotWatched(norm, before, state, events);
    WatchingSong(norm, Interpret(norm, before, state).0, SongShown(Some(song)).value, state.players);
    hide Interpret, ReadAll, SessionPlayers, SignatureOf, Watching, Faithful, Publish, Stream, ShownAll;
  }

  lemma Remembered(norm: Norm, sent: seq<LobbyState>)
    ensures var (r, events) := ReadAll(norm, sent);
            r.previousSongKey == LastSelected(events) && r.lastCompleted == LastCompletion(events)
  {
    ReadingIsFaithful(norm, sent);
  }

  lemma WatchingSong(norm: Norm, r: Reader, song: SongInfo, ps: seq<LobbyPlayer>)
    requires Watching(norm, r, song, ps)
    ensures r.previousSongKey == Some(SongKey(song))
  {
  }

  /** Players of the session who sent a final message: the ones a completion reports. */
  function Reported(l: Lobby): seq<SessionPlayer> {
    Filter(SessionPlayers(l), IsFinal)
  }

  /** The timer fires with a result to report. */
  predicate Completes(l: Lobby, step: Step) {
    Fires(l, step) && Reported(l) != []
  }

  lemma {:induction false} NobodyInSession(machines: map<Address, Cabinet>)
    ensures PlayersIn(machines, None) == []
  {
    assert SessionAddresses(machines, None) == {};
  }

  /** The room right before the two snapshots of its completion. */
  function Closing(l: Lobby): Lobby {
    Finished(l).(completed := true)
  }

  lemma ClosingShows(l: Lobby)
    requires Reported(l) != []
    ensures SessionPlayers(Closing(l)) == SessionPlayers(Finished(l)) == Reported(l) && AllFinal(Reported(l))
    ensures l.song.Some? && Closing(l).song == l.song && SameStream(l, Closing(l))
  {
    var disarmed := l.(flushAt := None);
    assert SessionPlayers(disarmed) == SessionPlayers(l);
    DropUnfinishedFilters(disarmed);
    NobodyInSession(l.machines);
    assert Filter<SessionPlayer>([], IsFinal) == [];
    assert SessionPlayers(Closing(l)) == SessionPlayers(Finished(l));
    hide SessionPlayers;
  }

  /** Reading the second snapshot of a completion. */
  lemma EvaluationHeeded(norm: Norm, c: Config, l: Lobby, song: string, ps: seq<SessionPlayer>)
    requires l.song == Some(song) && SessionPlayers(l) == ps && ps != []
    requires l.published == Some(Snapshot(c, ps, Some(song), ScreenGameplay))
    requires Watching(norm, Heeded(norm, l).0, SongShown(Some(song)).value, ShownAll(ps, ScreenGameplay))
    ensures var info, scores, l' := SongShown(Some(song)).value, ResultsOf(norm, ps), Publish(c, l, ScreenEvaluation);
            && Completions(Heeded(norm, l').1) == Completions(Heeded(norm, l).1) +
                 (if Heeded(norm, l).0.lastCompleted == Some(SignatureOf(info, scores)) then [] else [SongCompleted(info, scores)])
            && Recorded(Heeded(norm, l').1, info, scores)
  {
    var state := Snapshot(c, ps, Some(song), ScreenEvaluation);
    assert l.published != Some(state) by {
      assert ShownAll(ps, ScreenGameplay)[0] != ShownAll(ps, ScreenEvaluation)[0];
    }
    EvaluationRead(norm, c, Heeded(norm, l).0, song, ps);
    ReadOneMore(norm, l.sent, state);
    ReadingIsFaithful(norm, l.sent + [state]);
    var events := Heeded(norm, l).1;
    var more := Interpret(norm, Heeded(norm, l).0, state).1;
    FilterAppend(events, more, IsCompletion);
    assert Completions(more) == more;
    hide Interpret, ReadAll, SignatureOf, SessionPlayers, Watching, ResultsOf, ReadyFaithful, SongsChange, CompletionsDiffer, Filter;
    hide Snapshot;
    assert Publish(c, l, ScreenEvaluation).sent == l.sent + [state];
  }

  /** Reading both snapshots of a completion. */
  lemma ClosingRead(norm: Norm, c: Config, l: Lobby)
    requires Stream(c, l) && l.song.Some? && SessionPlayers(l) != []
    ensures var info, scores := SongShown(l.song).value, ResultsOf(norm, SessionPlayers(l));
            var l' := Publish(c, Publish(c, l, ScreenGameplay), ScreenEvaluation);
            AnnouncedOnce(Heeded(norm, l).1, Heeded(norm, l').1, info, scores)
  {
    var ps, song := SessionPlayers(l), l.song.value;
    PlayedWatched(norm, c, l, song, ResultsOf(norm, ps));
    PublishCompletesNothing(norm, c, l, ScreenGameplay);
    PublishKeepsRoom(c, l, ScreenGameplay);
    var played := Publish(c, l, ScreenGameplay);
    assert played.published == Some(Snapshot(c, ps, Some(song), ScreenGameplay));
    hide Publish, Heeded, Recorded, Completions, Watching, SessionPlayers, ResultsOf, Snapshot, Stream, SignatureOf;
    EvaluationHeeded(norm, c, played, song, ps);
  }

  lemma CompletionRead(norm: Norm, c: Config, l: Lobby, step: Step)
    requires Stream(c, l) && Completes(l, step)
    ensures l.song.Some?
    ensures var l', info, scores := Take(c, l, step), SongShown(l.song).value, ResultsOf(norm, Reported(l));
            && AnnouncedOnce(Heeded(norm, l).1, Heeded(norm, l').1, info, scores)
            && l'.completed && l'.song == l.song && SessionPlayers(l') == Reported(l) && AllFinal(SessionPlayers(l'))
  {
    hide Take, Publish, Heeded, AnnouncedOnce, SessionPlayers, Reported, ResultsOf, DropUnfinished, Stream;
    ClosingShows(l);
    StreamOfClosing(c, l);
    ClosingRead(norm, c, Closing(l));
    PublishKeepsRoom(c, Closing(l), ScreenGameplay);
    PublishKeepsRoom(c, Publish(c, Closing(l), ScreenGameplay), ScreenEvaluation);
    TimerPublishes(c, l, step);
    HeededAlike(norm, l, Closing(l));
  }

  lemma StreamOfClosing(c: Config, l: Lobby)
    requires Stream(c, l) && SameStream(l, Closing(l))
    ensures Stream(c, Closing(l))
  {
  }

  lemma HeededAlike(norm: Norm, l: Lobby, l': Lobby)
    requires SameStream(l, l')
    ensures Heeded(norm, l) == Heeded(norm, l')
  {
  }

  lemma TimerPublishes(c: Config, l: Lobby, step: Step)
    requires Completes(l, step) && SessionPlayers(Finished(l)) == Reported(l)
    ensures Take(c, l, step) == Publish(c, Publish(c, Closing(l), ScreenGameplay), ScreenEvaluation)
  {
    hide Publish, DropUnfinished, SessionPlayers;
  }

  lemma PublishKeepsRoom(c: Config, l: Lobby, screen: Screen)
    ensures var l' := Publish(c, l, screen);
            l'.machines == l.machines && l'.song == l.song && l'.completed == l.completed && SessionPlayers(l') == SessionPlayers(l)
  {
  }

  /** From one lobby of a run to the next, by its i-th step. */
  ghost predicate OfRun(c: Config, steps: seq<Step>, i: nat, l: Lobby, l': Lobby) {
    i < |steps| && l == Run(c, steps[..i]) && l' == Run(c, steps[..i + 1])
  }

  lemma OneStep(c: Config, steps: seq<Step>, i: nat, l: Lobby, l': Lobby)
    requires OfRun(c, steps, i, l, l')
    ensures l' == Take(c, l, steps[i]) && Room(l) && Stream(c, l)
  {
    assert steps[..i + 1][..i] == steps[..i];
    RunKeeps(c, steps[..i]);
    hide Take, Room, Stream;
  }

  /** Between the two lobbies the results of those who finished are announced, as results of the song of the lobby. */
  ghost predicate Announces(norm: Norm, l: Lobby, l': Lobby) {
    && l.song.Some?
    && AnnouncedOnce(Heeded(norm, l).1, Heeded(norm, l').1, SongShown(l.song).value, ResultsOf(norm, Reported(l)))
  }

  /**
   * Whenever the timer of a run fires with something to report, an interpreter
   * that reads every snapshot announces exactly one completed song, naming
   * exactly the players of the session with a final message, unless the last
   * completion announced for the same selection of the song was this very
   * result.
   */
  lemma CompletedOnce(norm: Norm, c: Config, steps: seq<Step>, i: nat, l: Lobby, l': Lobby)
    requires OfRun(c, steps, i, l, l') && Completes(l, steps[i])
    ensures Announces(norm, l, l')
  {
    OneStep(c, steps, i, l, l');
    hide Run, Take, Completes, Heeded, AnnouncedOnce, ResultsOf, Reported, Room, Stream;
    CompletionRead(norm, c, l, steps[i]);
  }

  /** Those players are then the players of the session, and the song is completed. */
  lemma CompletedSession(c: Config, steps: seq<Step>, i: nat, l: Lobby, l': Lobby)
    requires OfRun(c, steps, i, l, l') && Completes(l, steps[i])
    ensures l'.completed && l'.song == l.song && SessionPlayers(l') == Reported(l) && AllFinal(Reported(l))
  {
    OneStep(c, steps, i, l, l');
    hide Run, Take, Completes, Heeded, AnnouncedOnce, ResultsOf, Reported, SessionPlayers, Room, Stream;
    CompletionRead((name: string) => name, c, l, steps[i]);
  }

  /** No other step of a run makes the interpreter announce a completion. */
  lemma NothingElseCompletes(norm: Norm, c: Config, steps: seq<Step>, i: nat, l: Lobby, l': Lobby)
    requires OfRun(c, steps, i, l, l') && !Completes(l, steps[i])
    ensures Completions(Heeded(norm, l').1) == Completions(Heeded(norm, l).1)
  {
    OneStep(c, steps, i, l, l');
    hide Run, Take, ReadAll, Completions, SessionPlayers, Reported, Room, Stream;
    if Fires(l, steps[i]) {
      NothingToReport(norm, c, l, steps[i]);
    } else {
      QuietStepCompletesNothing(norm, c, l, steps[i]);
    }
  }

  /** How many songs the room finished in a run. */
  function FinishedSongs(c: Config, steps: seq<Step>): nat {
    if steps == [] then 0
    else
      var before := steps[..|steps| - 1];
      FinishedSongs(c, before) + if Completes(Run(c, before), steps[|steps| - 1]) then 1 else 0
  }

  /** The room finishes a song with the very result last recorded for it. */
  ghost predicate IsReplay(norm: Norm, l: Lobby, step: Step) {
    && Completes(l, step) && l.song.Some?
    && Recorded(Heeded(norm, l).1, SongShown(l.song).value, ResultsOf(norm, Reported(l)))
  }

  ghost function Replays(norm: Norm, c: Config, steps: seq<Step>): nat {
    if steps == [] then 0
    else
      var before := steps[..|steps| - 1];
      Replays(norm, c, before) + if IsReplay(norm, Run(c, before), steps[|steps| - 1]) then 1 else 0
  }

  lemma CompletionsCounted(norm: Norm, c: Config, l: Lobby, step: Step)
    requires Room(l) && Stream(c, l)
    ensures |Completions(Heeded(norm, Take(c, l, step)).1)| ==
            |Completions(Heeded(norm, l).1)| + if Completes(l, step) && !IsReplay(norm, l, step) then 1 else 0
  {
    hide Run, Take, ReadAll, Completions, Recorded, ResultsOf, SessionPlayers, Reported, Room, Stream;
    if Completes(l, step) {
      CompletionRead(norm, c, l, step);
    } else if Fires(l, step) {
      NothingToReport(norm, c, l, step);
    } else {
      QuietStepCompletesNothing(norm, c, l, step);
    }
  }

  /** Over a whole run the songs announced as completed are the songs the room finished, replays left out. */
  lemma {:induction false} EverySongAnnounced(norm: Norm, c: Config, steps: seq<Step>)
    ensures |Completions(Heeded(norm, Run(c, steps)).1)| + Replays(norm, c, steps) == FinishedSongs(c, steps)
  {
    if steps != [] {
      var before := steps[..|steps| - 1];
      EverySongAnnounced(norm, c, before);
      RunKeeps(c, before);
      CompletionsCounted(norm, c, Run(c, before), steps[|steps| - 1]);
      hide Take, Completes, Heeded, Completions, Room, Stream;
    }
  }

  lemma NothingToReport(norm: Norm, c: Config, l: Lobby, step: Step)
    requires Fires(l, step) && !Completes(l, step)
    ensures SameStream(l, Take(c, l, step)) && !Take(c, l, step).flushAt.Some?
  {
    DropUnfinishedFilters(l.(flushAt := None));
  }

  // ----- a replay with the same result

  lemma OneAddress(a: Address)
    ensures Ascending({a}) == [a]
  {
    assert {a} - {a} == {};
    assert Ascending({a})[0] in Ascending({a});
  }

  lemma OneSide(p: SessionPlayer)
    ensures Sides(map[p.playerId := p]) == [p]
  {
    var players := map[p.playerId := p];
    if p.playerId == P1 {
      assert P2 !in players;
    } else {
      assert p.playerId == P2 && P1 !in players;
    }
  }

  lemma OnePlayer(l: Lobby, a: Address, p: SessionPlayer)
    requires l.machines.Keys == {a} && InSession(l, a) && l.machines[a].players == map[p.playerId := p]
    ensures SessionPlayers(l) == [p]
  {
    OneAddress(a);
    OneSide(p);
    hide Ascending, Sides, IsLeast;
    assert SessionAddresses(l.machines, l.song) == {a};
    assert PlayersOn(l.machines, [a]) == Sides(l.machines[a].players) + PlayersOn(l.machines, []);
  }

  /** A lobby whose one cabinet is alone in it, before it plays or after its song was completed. */
  ghost predicate Alone(l: Lobby, a: Address) {
    l.machines.Keys <= {a} && (l.song.None? || l.completed)
  }

  lemma MoveAlone(l: Lobby, a: Address, song: string, now: int)
    requires Alone(l, a)
    ensures Hears(l, a)
    ensures var moved := MoveTo(Heard(l, a, now), a, song);
            && moved.machines == map[a := Cabinet(map[], Some(song), now)]
            && moved.song == Some(song) && SameStream(l, moved)
  {
    assert l.machines.Keys == {} || l.machines.Keys == {a};
    assert l.machines == map[] || a in l.machines;
  }

  /** The player a first final score makes of its message. */
  function Newcomer(m: ScoreMessage, payload: string): SessionPlayer {
    SessionPlayer(PlayerIdOf(m), m.playerName, m.percentage, m.isFailed, m.judgments, m.judged, Some(payload))
  }

  lemma FinalScoreJoins(c: Config, l: Lobby, a: Address, m: ScoreMessage, payload: string, now: int)
    requires Alone(l, a) && !IsEphemeral(m)
    requires a in l.machines ==> !Repeats(l.machines[a], m, payload)
    ensures var l', p := HandleFinalScore(c, l, a, m, payload, now), Newcomer(m, payload);
            && SameStream(l, l') && l'.song == Some(m.song) && l'.flushAt.Some?
            && l'.machines == map[a := Cabinet(map[p.playerId := p], Some(m.song), now)]
  {
    MoveAlone(l, a, m.song, now);
    var moved := MoveTo(Heard(l, a, now), a, m.song);
    hide MoveTo, Hears, AllFinal, SessionPlayers;
    var p := Newcomer(m, payload);
    assert Upsert(moved, a, m, Some(payload)).machines == map[a := Cabinet(map[p.playerId := p], Some(m.song), now)];
    hide Upsert;
  }

  lemma OneFinalScore(c: Config, l: Lobby, a: Address, m: ScoreMessage, payload: string, now: int)
    requires Alone(l, a) && !IsEphemeral(m)
    requires a in l.machines ==> !Repeats(l.machines[a], m, payload)
    ensures Reported(HandleFinalScore(c, l, a, m, payload, now)) == [Newcomer(m, payload)]
  {
    var p := Newcomer(m, payload);
    FinalScoreJoins(c, l, a, m, payload, now);
    var l' := HandleFinalScore(c, l, a, m, payload, now);
    hide HandleFinalScore;
    OnePlayer(l', a, p);
    assert Filter([p], IsFinal) == [p];
  }

  /** The timer completes a song one cabinet finished. */
  lemma CompletedAlone(c: Config, l: Lobby, a: Address, p: SessionPlayer, song: string, now: int)
    requires l.machines == map[a := Cabinet(map[p.playerId := p], Some(song), now)] && IsFinal(p)
    requires l.song == Some(song) && l.flushAt.Some? && Reported(l) == [p]
    ensures Completes(l, TimerFired) && Take(c, l, TimerFired).machines == l.machines
  {
    var finished := Finished(l);
    assert FinalOnly(map[p.playerId := p]) == map[p.playerId := p];
    assert finished.machines == l.machines;
    hide Reported, Publish, SessionPlayers, FinalOnly, DropUnfinished;
    PublishKeepsRoom(c, finished.(completed := true), ScreenGameplay);
    PublishKeepsRoom(c, Publish(c, finished.(completed := true), ScreenGameplay), ScreenEvaluation);
  }

  lemma CompletedAloneRead(norm: Norm, c: Config, l: Lobby, a: Address, p: SessionPlayer, song: string, now: int)
    requires Stream(c, l) && IsFinal(p)
    requires l.machines == map[a := Cabinet(map[p.playerId := p], Some(song), now)]
    requires l.song == Some(song) && l.flushAt.Some? && Reported(l) == [p]
    ensures var l' := Take(c, l, TimerFired);
            && Completes(l, TimerFired) && l'.completed && l'.machines == l.machines
            && AnnouncedOnce(Heeded(norm, l).1, Heeded(norm, l').1, SongShown(Some(song)).value, ResultsOf(norm, [p]))
  {
    CompletedAlone(c, l, a, p, song, now);
    hide Take, Completes, Stream, AnnouncedOnce, Heeded, ResultsOf, Reported;
    CompletionRead(norm, c, l, TimerFired);
  }

  /** One cabinet finishes a song on its own, and the timer fires. */
  lemma FinishedAlone(norm: Norm, c: Config, l: Lobby, a: Address, m: ScoreMessage, payload: string, now: int)
    requires Stream(c, l) && Alone(l, a) && !IsEphemeral(m)
    requires a in l.machines ==> !Repeats(l.machines[a], m, payload)
    ensures var l' := HandleFinalScore(c, l, a, m, payload, now);
            var l'' := Take(c, l', TimerFired);
            && SameStream(l, l') && Completes(l', TimerFired) && l''.completed
            && l''.machines == map[a := Cabinet(map[PlayerIdOf(m) := Newcomer(m, payload)], Some(m.song), now)]
            && AnnouncedOnce(Heeded(norm, l).1, Heeded(norm, l'').1, SongShown(Some(m.song)).value, ResultsOf(norm, [Newcomer(m, payload)]))
  {
    var p := Newcomer(m, payload);
    FinalScoreJoins(c, l, a, m, payload, now);
    OneFinalScore(c, l, a, m, payload, now);
    var l' := HandleFinalScore(c, l, a, m, payload, now);
    hide HandleFinalScore, Take, Completes, AnnouncedOnce, ReadAll, ResultsOf, Reported, Alone, Repeats, IsEphemeral;
    assert Stream(c, l');
    CompletedAloneRead(norm, c, l', a, p, m.song, now);
  }

  /** The same result, whichever datagram it came in. */
  lemma SameNumbers(norm: Norm, m: ScoreMessage, first: string, second: string)
    ensures ResultsOf(norm, [Newcomer(m, first)]) == ResultsOf(norm, [Newcomer(m, second)])
  {
  }

  /** What happens to a completed song that is finished again with the same numbers. */
  lemma FinishedAgain(norm: Norm, c: Config, l: Lobby, a: Address, m: ScoreMessage, first: string, second: string, now: int)
    requires !IsEphemeral(m) && first != second && Stream(c, l) && l.completed
    requires l.machines == map[a := Cabinet(map[PlayerIdOf(m) := Newcomer(m, first)], Some(m.song), now)]
    requires Recorded(Heeded(norm, l).1, SongShown(Some(m.song)).value, ResultsOf(norm, [Newcomer(m, first)]))
    ensures var l3 := HandleFinalScore(c, l, a, m, second, now);
            var l4 := Take(c, l3, TimerFired);
            && Completes(l3, TimerFired) && l4.completed
            && Completions(Heeded(norm, l4).1) == Completions(Heeded(norm, l3).1)
  {
    SameNumbers(norm, m, first, second);
    assert Alone(l, a) && !Repeats(l.machines[a], m, second);
    hide HandleFinalScore, ReadAll, ResultsOf, Completions, Recorded, Stream, Completes, IsEphemeral, Alone, Repeats, Take;
    FinishedAlone(norm, c, l, a, m, second, now);
  }

  /**
   * A cabinet finishes a song, and then the same song again with another
   * datagram of the same numbers. The second time is a completion of the room
   * too, and the tournament never hears of it: the same result of the same
   * song is taken for a repetition.
   */
  lemma ReplayNeverAnnounced(norm: Norm, c: Config, a: Address, m: ScoreMessage, first: string, second: string, now: int,
                             l1: Lobby, l2: Lobby, l3: Lobby, l4: Lobby)
    requires !IsEphemeral(m) && first != second
    requires l1 == Take(c, EmptyLobby(c), FinalScored(a, m, first, now)) && l2 == Take(c, l1, TimerFired)
    requires l3 == Take(c, l2, FinalScored(a, m, second, now)) && l4 == Take(c, l3, TimerFired)
    ensures Completes(l3, TimerFired) && l4.completed
    ensures Completions(Heeded(norm, l4).1) == Completions(Heeded(norm, l3).1)
  {
    hide HandleFinalScore, Heeded, ResultsOf, Completions, Recorded, Stream, Room, Completes, IsEphemeral, Take, EmptyLobby, Alone, Repeats;
    var l0 := EmptyLobby(c);
    EmptyLobbyStreams(c, a);
    TakesFinalScore(c, l0, a, m, first, now);
    TakesFinalScore(c, l2, a, m, second, now);
    FinishedAlone(norm, c, l0, a, m, first, now);
    StepKeeps(c, l0, FinalScored(a, m, first, now));
    StepKeeps(c, l1, TimerFired);
    FinishedAgain(norm, c, l2, a, m, first, second, now);
  }

  lemma TakesFinalScore(c: Config, l: Lobby, a: Address, m: ScoreMessage, payload: string, now: int)
    ensures Take(c, l, FinalScored(a, m, payload, now)) == HandleFinalScore(c, l, a, m, payload, now)
  {
  }

  lemma EmptyLobbyStreams(c: Config, a: Address)
    ensures var l := EmptyLobby(c); Room(l) && Stream(c, l) && Alone(l, a) && a !in l.machines
  {
  }
}
