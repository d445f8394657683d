/**
 * What the interpreter makes of one more snapshot, said of the snapshots alone:
 * what it remembers of a player is what the snapshots last showed of them, and
 * what it announces follows from that and from its own last announcements.
 */
module InterpreterReadings {
  import opened Wrappers
  import opened Sequences
  import opened SyncStart
  import opened LobbyStateInterpreters
  import opened InterpreterTraces

  predicate Is(norm: Norm, p: LobbyPlayer, k: PlayerKey) {
    p.playerId == k.playerId && norm(p.profileName) == k.name
  }

  // ----- one list of players

  /** The last entry of the player, among all entries or those at play. */
  function LastEntry(norm: Norm, ps: seq<LobbyPlayer>, k: PlayerKey, playing: bool): Option<LobbyPlayer> {
    if ps == [] then None
    else
      var p := ps[|ps| - 1];
      if Is(norm, p, k) && (playing ==> p.screenName == ScreenGameplay) then Some(p) else LastEntry(norm, ps[..|ps| - 1], k, playing)
  }

  lemma {:induction false} ScreensOf(norm: Norm, screens: map<PlayerKey, Screen>, ps: seq<LobbyPlayer>, k: PlayerKey)
    ensures var after, entry := RecordScreens(norm, screens, ps), LastEntry(norm, ps, k, false);
            if entry.Some? then k in after && after[k] == entry.value.screenName
            else (k in after <==> k in screens) && (k in after ==> after[k] == screens[k])
  {
    if ps != [] {
      ScreensOf(norm, screens, ps[..|ps| - 1], k);
    }
  }

  lemma {:induction false} IntroducedOf(norm: Norm, r: Reader, ps: seq<LobbyPlayer>, k: PlayerKey)
    requires r.screens.Keys <= r.ready.Keys
    ensures var after := Introduce(norm, r, ps).0;
            && after.screens == r.screens
            && (k in after.ready <==> k in r.ready || LastEntry(norm, ps, k, false).Some?)
            && (k in after.ready ==> after.ready[k] == if k in r.ready then r.ready[k] else false)
  {
    if ps != [] {
      IntroducedOf(norm, r, ps[..|ps| - 1], k);
      IntroducedOf(norm, r, ps[..|ps| - 1], KeyOf(norm, ps[|ps| - 1]));
    }
  }

  lemma PlayingSnoc(ps: seq<LobbyPlayer>)
    requires ps != []
    ensures var before, p := Playing(ps[..|ps| - 1]), ps[|ps| - 1];
            Playing(ps) == if p.screenName == ScreenGameplay then before + [p] else before
  {
  }

  lemma UpdateSnoc(norm: Norm, r: Reader, ps: seq<LobbyPlayer>, p: LobbyPlayer)
    ensures var before, after := UpdateReady(norm, r, ps).0, UpdateReady(norm, r, ps + [p]).0;
            after.ready == before.ready[PlayerKey(p.playerId, norm(p.profileName)) := p.ready]
  {
    assert (ps + [p])[..|ps|] == ps;
  }

  lemma {:induction false} UpdatedOf(norm: Norm, r: Reader, ps: seq<LobbyPlayer>, k: PlayerKey)
    ensures var after, entry := UpdateReady(norm, r, Playing(ps)).0, LastEntry(norm, ps, k, true);
            if entry.Some? then k in after.ready && after.ready[k] == entry.value.ready
            else (k in after.ready <==> k in r.ready) && (k in after.ready ==> after.ready[k] == r.ready[k])
  {
    if ps == [] {
      assert Playing(ps) == [];
    } else {
      hide Playing, UpdateReady;
      UpdatedOf(norm, r, ps[..|ps| - 1], k);
      PlayingSnoc(ps);
      UpdateSnoc(norm, r, Playing(ps[..|ps| - 1]), ps[|ps| - 1]);
    }
  }

  // ----- all snapshots so far

  /** The last the snapshots showed of the player, anywhere or at play. */
  ghost function LastShown(norm: Norm, lobbies: seq<LobbyState>, k: PlayerKey, playing: bool): Option<LobbyPlayer> {
    if lobbies == [] then None
    else
      var entry := LastEntry(norm, lobbies[|lobbies| - 1].players, k, playing);
      if entry.Some? then entry else LastShown(norm, lobbies[..|lobbies| - 1], k, playing)
  }

  /**
   * The interpreter remembers the players any snapshot listed, each on the screen
   * it last saw them on, and as ready as they last were at play.
   */
  ghost predicate Remembers(norm: Norm, lobbies: seq<LobbyState>, r: Reader, k: PlayerKey) {
    var shown, played := LastShown(norm, lobbies, k, false), LastShown(norm, lobbies, k, true);
    && (k in r.screens <==> shown.Some?) && (k in r.ready <==> shown.Some?)
    && (shown.Some? ==> r.screens[k] == shown.value.screenName)
    && (shown.Some? ==> r.ready[k] == (played.Some? && played.value.ready))
  }

  lemma {:induction false} PlayedIsShown(norm: Norm, ps: seq<LobbyPlayer>, k: PlayerKey)
    ensures LastEntry(norm, ps, k, true).Some? ==> LastEntry(norm, ps, k, false).Some?
  {
    if ps != [] {
      PlayedIsShown(norm, ps[..|ps| - 1], k);
    }
  }

  lemma {:induction false} PlayedWasShown(norm: Norm, lobbies: seq<LobbyState>, k: PlayerKey)
    ensures LastShown(norm, lobbies, k, true).Some? ==> LastShown(norm, lobbies, k, false).Some?
  {
    if lobbies != [] {
      PlayedIsShown(norm, lobbies[|lobbies| - 1].players, k);
      PlayedWasShown(norm, lobbies[..|lobbies| - 1], k);
    }
  }

  lemma RememberedScreens(norm: Norm, lobbies: seq<LobbyState>)
    ensures var r := ReadAll(norm, lobbies).0; r.screens.Keys <= r.ready.Keys
  {
    ReadingIsFaithful(norm, lobbies);
    ScreensKnown(ReadAll(norm, lobbies).0, ReadAll(norm, lobbies).1);
  }

  lemma {:induction false} RemembersWhatWasShown(norm: Norm, lobbies: seq<LobbyState>, k: PlayerKey)
    ensures Remembers(norm, lobbies, ReadAll(norm, lobbies).0, k)
  {
    if lobbies != [] {
      hide Remembers, Interpret, LastShown, ReadAll;
      var before, lobby := lobbies[..|lobbies| - 1], lobbies[|lobbies| - 1];
      RemembersWhatWasShown(norm, before, k);
      PlayedWasShown(norm, before, k);
      RememberedScreens(norm, before);
      RemembersOneMore(norm, before, lobby, ReadAll(norm, before).0, k);
      ReadLast(norm, lobbies);
      assert before + [lobby] == lobbies;
    }
  }

  lemma ReadLast(norm: Norm, lobbies: seq<LobbyState>)
    requires lobbies != []
    ensures ReadAll(norm, lobbies).0 == Interpret(norm, ReadAll(norm, lobbies[..|lobbies| - 1]).0, lobbies[|lobbies| - 1]).0
  {
    hide Interpret;
  }

  lemma RemembersOneMore(norm: Norm, lobbies: seq<LobbyState>, lobby: LobbyState, r: Reader, k: PlayerKey)
    requires Remembers(norm, lobbies, r, k) && r.screens.Keys <= r.ready.Keys
    requires LastShown(norm, lobbies, k, true).Some? ==> LastShown(norm, lobbies, k, false).Some?
    ensures Remembers(norm, lobbies + [lobby], Interpret(norm, r, lobby).0, k)
  {
    assert (lobbies + [lobby])[..|lobbies|] == lobbies;
    var r1 := SelectSong(r, lobby.songInfo).0;
    var r2 := Introduce(norm, r1, lobby.players).0;
    var r3 := UpdateReady(norm, r2, Playing(lobby.players)).0;
    IntroducedOf(norm, r1, lobby.players, k);
    UpdatedOf(norm, r2, lobby.players, k);
    OnlyReadyChanges(norm, r2, Playing(lobby.players));
    ScreensOf(norm, r3.screens, lobby.players, k);
    PlayedIsShown(norm, lobby.players, k);
    hide Introduce, UpdateReady, RecordScreens, LastEntry, Playing;
    assert Complete(norm, r3, lobby).0 == r3.(lastCompleted := Complete(norm, r3, lobby).0.lastCompleted);
  }

  // ----- what one more snapshot announces

  /** The players at play, in the order of the list, as they are shown live. */
  ghost predicate ShownLive(norm: Norm, ps: seq<LobbyPlayer>, live: seq<LivePlayer>) {
    if ps == [] then live == []
    else
      var p := ps[|ps| - 1];
      if p.screenName != ScreenGameplay then ShownLive(norm, ps[..|ps| - 1], live)
      else
        && live != []
        && live[|live| - 1] == LivePlayer(p.playerId, norm(p.profileName), if p.score.Some? then p.score.value else 0, p.exScore,
                                          p.isFailed.Some? && p.isFailed.value, p.judgments)
        && ShownLive(norm, ps[..|ps| - 1], live[..|live| - 1])
  }

  /** The result of every player of the list, in order. */
  ghost predicate Scored(norm: Norm, ps: seq<LobbyPlayer>, scores: seq<Score>) {
    && |scores| == |ps|
    && forall i :: 0 <= i < |ps| ==>
         scores[i] == Score(ps[i].playerId, norm(ps[i].profileName), if ps[i].score.Some? then ps[i].score.value else 0, ps[i].exScore,
                            ps[i].isFailed.Some? && ps[i].isFailed.value)
  }

  datatype SongResult = SongResult(song: SongInfo, scores: seq<Score>)

  /** The last result announced since the last song was selected. */
  function LastResult(events: seq<Event>): Option<SongResult> {
    if events == [] then None
    else
      var e := events[|events| - 1];
      if e.SongSelected? then None
      else if e.SongCompleted? then Some(SongResult(e.song, e.scores))
      else LastResult(events[..|events| - 1])
  }

  function BySide(scores: seq<Score>, side: PlayerId): seq<Score> {
    if scores == [] then []
    else
      BySide(scores[..|scores| - 1], side) + if scores[|scores| - 1].playerId == side then [scores[|scores| - 1]] else []
  }

  /** The same file, and side by side the same results in the same order. */
  predicate SameResult(x: SongResult, y: SongResult) {
    x.song.songPath == y.song.songPath && BySide(x.scores, P1) == BySide(y.scores, P1) && BySide(x.scores, P2) == BySide(y.scores, P2)
  }

  lemma {:induction false} SidesAre(scores: seq<Score>, side: PlayerId)
    ensures OfSide(scores, side) == BySide(scores, side)
    ensures forall i :: 0 <= i < |BySide(scores, side)| ==> BySide(scores, side)[i].playerId == side
  {
    if scores != [] {
      SidesAre(scores[..|scores| - 1], side);
    }
  }

  lemma SidesApart(x1: seq<Score>, x2: seq<Score>, y1: seq<Score>, y2: seq<Score>)
    requires x1 + x2 == y1 + y2
    requires forall i :: 0 <= i < |x1| ==> x1[i].playerId == P1
    requires forall i :: 0 <= i < |y1| ==> y1[i].playerId == P1
    requires forall i :: 0 <= i < |x2| ==> x2[i].playerId == P2
    requires forall i :: 0 <= i < |y2| ==> y2[i].playerId == P2
    ensures x1 == y1 && x2 == y2
  {
    var s := x1 + x2;
    assert forall i :: 0 <= i < |s| ==> (s[i].playerId == P1 <==> i < |x1|);
    assert forall i :: 0 <= i < |y1 + y2| ==> ((y1 + y2)[i].playerId == P1 <==> i < |y1|);
    assert |x1| < |s| ==> s[|x1|].playerId == P2;
    assert |y1| < |s| ==> s[|y1|].playerId == P2;
    assert x1 == s[..|x1|] && y1 == s[..|y1|] && x2 == s[|x1|..] && y2 == s[|y1|..];
  }

  /** What makes two results the same to the interpreter. */
  lemma SignaturesAgree(x: SongResult, y: SongResult)
    ensures SignatureOf(x.song, x.scores) == SignatureOf(y.song, y.scores) <==> SameResult(x, y)
  {
    SidesAre(x.scores, P1);
    SidesAre(x.scores, P2);
    SidesAre(y.scores, P1);
    SidesAre(y.scores, P2);
    if SignatureOf(x.song, x.scores) == SignatureOf(y.song, y.scores) {
      SidesApart(BySide(x.scores, P1), BySide(x.scores, P2), BySide(y.scores, P1), BySide(y.scores, P2));
    }
    hide BySide, OfSide;
  }

  lemma {:induction false} LastResultSigned(events: seq<Event>)
    ensures LastCompletion(events) ==
            if LastResult(events).None? then None else Some(SignatureOf(LastResult(events).value.song, LastResult(events).value.scores))
  {
    if events != [] {
      LastResultSigned(events[..|events| - 1]);
    }
  }

  lemma {:induction false} LiveAre(norm: Norm, ps: seq<LobbyPlayer>)
    ensures ShownLive(norm, ps, LiveOfAll(norm, Playing(ps)))
    ensures Playing(ps) != [] <==> exists i :: 0 <= i < |ps| && ps[i].screenName == ScreenGameplay
  {
    if ps != [] {
      var before, p := ps[..|ps| - 1], ps[|ps| - 1];
      LiveAre(norm, before);
      PlayingSnoc(ps);
      assert forall i :: 0 <= i < |before| ==> before[i] == ps[i];
      hide Playing;
      if p.screenName == ScreenGameplay {
        var live := LiveOfAll(norm, Playing(ps));
        assert live[..|live| - 1] == LiveOfAll(norm, Playing(before));
      }
    }
  }

  /** Somebody the snapshots last showed at play is now on an evaluation screen. */
  ghost predicate SongEnds(norm: Norm, lobbies: seq<LobbyState>, lobby: LobbyState) {
    lobby.songInfo.Some? && exists i :: 0 <= i < |lobby.players| && HasFinished(norm, lobbies, lobby.players[i])
  }

  ghost predicate HasFinished(norm: Norm, lobbies: seq<LobbyState>, p: LobbyPlayer) {
    var shown := LastShown(norm, lobbies, PlayerKey(p.playerId, norm(p.profileName)), false);
    && (p.screenName == ScreenEvaluation || p.screenName == ScreenEvaluationStage)
    && shown.Some? && shown.value.screenName == ScreenGameplay
  }

  lemma FinishedAre(norm: Norm, lobbies: seq<LobbyState>, p: LobbyPlayer)
    ensures JustFinished(norm, ReadAll(norm, lobbies).0.screens, p) <==> HasFinished(norm, lobbies, p)
  {
    RemembersWhatWasShown(norm, lobbies, PlayerKey(p.playerId, norm(p.profileName)));
    hide ReadAll, LastShown;
  }

  lemma SongEndsIs(norm: Norm, lobbies: seq<LobbyState>, lobby: LobbyState)
    ensures lobby.songInfo.Some? && SomebodyFinished(norm, ReadAll(norm, lobbies).0.screens, lobby.players) <==> SongEnds(norm, lobbies, lobby)
  {
    forall i | 0 <= i < |lobby.players| {
      FinishedAre(norm, lobbies, lobby.players[i]);
    }
    hide JustFinished, HasFinished, ReadAll;
  }

  /** The selection of a song not selected last. */
  ghost predicate Selects(events: seq<Event>, lobby: LobbyState, selected: seq<Event>) {
    selected ==
      if lobby.songInfo.Some? && LastSelected(events) != Some(lobby.songInfo.value.songPath + "|" + lobby.songInfo.value.title)
      then [SongSelected(lobby.songInfo.value)] else []
  }

  ghost predicate Readies(norm: Norm, lobby: LobbyState, readies: seq<Event>) {
    forall i :: 0 <= i < |readies| ==>
      readies[i].PlayerReady? &&
      exists p :: p in lobby.players && Is(norm, p, PlayerKey(readies[i].playerId, readies[i].playerName))
  }

  /** One update of everybody at play, if anybody is. */
  ghost predicate Updates(norm: Norm, lobby: LobbyState, live: seq<Event>) {
    if exists i :: 0 <= i < |lobby.players| && lobby.players[i].screenName == ScreenGameplay then
      |live| == 1 && live[0].MatchUpdate? && live[0].liveSong == lobby.songInfo && ShownLive(norm, lobby.players, live[0].players)
    else live == []
  }

  /** One completion with everybody's result when the song ends, unless that is the result announced last. */
  ghost predicate Completes(norm: Norm, lobbies: seq<LobbyState>, lobby: LobbyState, last: Option<SongResult>, completed: seq<Event>) {
    if SongEnds(norm, lobbies, lobby) then
      exists scores ::
        && Scored(norm, lobby.players, scores)
        && completed == if last.Some? && SameResult(last.value, SongResult(lobby.songInfo.value, scores)) then []
                        else [SongCompleted(lobby.songInfo.value, scores)]
    else completed == []
  }

  lemma {:induction false} ReadiesOf(norm: Norm, r: Reader, ps: seq<LobbyPlayer>, lobby: LobbyState)
    requires forall p :: p in ps ==> p in lobby.players
    ensures Readies(norm, lobby, Introduce(norm, r, ps).1) && Readies(norm, lobby, UpdateReady(norm, r, ps).1)
  {
    if ps != [] {
      ReadiesOf(norm, r, ps[..|ps| - 1], lobby);
      assert ps[|ps| - 1] in ps;
    }
  }

  lemma CompletesAs(norm: Norm, lobbies: seq<LobbyState>, lobby: LobbyState, r: Reader, events: seq<Event>)
    requires r.screens == ReadAll(norm, lobbies).0.screens && r.lastCompleted == LastCompletion(events)
    ensures Completes(norm, lobbies, lobby, LastResult(events), Complete(norm, r, lobby).1)
  {
    SongEndsIs(norm, lobbies, lobby);
    LastResultSigned(events);
    var scores := ScoresOf(norm, lobby.players);
    assert Scored(norm, lobby.players, scores);
    if lobby.songInfo.Some? && LastResult(events).Some? {
      SignaturesAgree(LastResult(events).value, SongResult(lobby.songInfo.value, scores));
    }
    hide SongEnds, SomebodyFinished, SignatureOf, SameResult, Scored, ScoresOf, ReadAll, LastResult, LastCompletion;
  }

  lemma SelectsAs(r: Reader, lobby: LobbyState, events: seq<Event>)
    requires Faithful(r, events)
    ensures var (after, selected) := SelectSong(r, lobby.songInfo);
            Selects(events, lobby, selected) && after.lastCompleted == LastCompletion(events + selected)
  {
    SelectIsFaithful(r, lobby.songInfo, events);
    hide ReadyFaithful, SongsChange, CompletionsDiffer, LastCompletion, LastSelected;
  }

  lemma ReadiesAs(norm: Norm, r: Reader, lobby: LobbyState)
    ensures var (after, introduced) := Introduce(norm, r, lobby.players);
            Readies(norm, lobby, introduced + UpdateReady(norm, after, Playing(lobby.players)).1)
  {
    var after := Introduce(norm, r, lobby.players).0;
    ReadiesOf(norm, r, lobby.players, lobby);
    FilterContents(lobby.players, IsPlaying);
    assert forall p :: p in Playing(lobby.players) ==> p in lobby.players;
    hide Introduce, UpdateReady, Playing, Readies;
    ReadiesOf(norm, after, Playing(lobby.players), lobby);
    ReadiesTogether(norm, lobby, Introduce(norm, r, lobby.players).1, UpdateReady(norm, after, Playing(lobby.players)).1);
  }

  lemma ReadiesTogether(norm: Norm, lobby: LobbyState, introduced: seq<Event>, updated: seq<Event>)
    requires Readies(norm, lobby, introduced) && Readies(norm, lobby, updated)
    ensures Readies(norm, lobby, introduced + updated)
  {
  }

  lemma UpdatesAs(norm: Norm, lobby: LobbyState)
    ensures Updates(norm, lobby, LiveUpdate(norm, lobby))
  {
    LiveAre(norm, lobby.players);
    hide Playing, ShownLive;
  }

  lemma InterpretParts(norm: Norm, r: Reader, lobby: LobbyState) returns (r3: Reader)
    ensures var (r1, selected) := SelectSong(r, lobby.songInfo);
            var (r2, introduced) := Introduce(norm, r1, lobby.players);
            && r3.screens == r.screens && r3.lastCompleted == r1.lastCompleted
            && Interpret(norm, r, lobby).1 ==
                 selected + (introduced + UpdateReady(norm, r2, Playing(lobby.players)).1) + LiveUpdate(norm, lobby) + Complete(norm, r3, lobby).1
  {
    var r1 := SelectSong(r, lobby.songInfo).0;
    var r2 := Introduce(norm, r1, lobby.players).0;
    r3 := UpdateReady(norm, r2, Playing(lobby.players)).0;
    OnlyReadyChanges(norm, r1, lobby.players);
    OnlyReadyChanges(norm, r2, Playing(lobby.players));
    hide Introduce, UpdateReady, Playing, Complete, LiveUpdate;
  }

  /**
   * One more snapshot announces, in this order: a song not selected last; the
   * readiness of players it lists; one update of everybody at play; and, when
   * somebody last shown at play is on an evaluation screen, one completed song
   * with everybody's result, unless that was the last result of this selection.
   */
  lemma SnapshotAnnounces(norm: Norm, lobbies: seq<LobbyState>, lobby: LobbyState)
    returns (selected: seq<Event>, readies: seq<Event>, live: seq<Event>, completed: seq<Event>)
    ensures ReadAll(norm, lobbies + [lobby]).1 == ReadAll(norm, lobbies).1 + (selected + readies + live + completed)
    ensures Selects(ReadAll(norm, lobbies).1, lobby, selected) && Readies(norm, lobby, readies) && Updates(norm, lobby, live)
    ensures Completes(norm, lobbies, lobby, LastResult(ReadAll(norm, lobbies).1 + selected), completed)
  {
    assert (lobbies + [lobby])[..|lobbies|] == lobbies;
    var (r, events) := ReadAll(norm, lobbies);
    ReadingIsFaithful(norm, lobbies);
    var r1 := SelectSong(r, lobby.songInfo).0;
    var r2 := Introduce(norm, r1, lobby.players).0;
    var r3 := InterpretParts(norm, r, lobby);
    assert ReadAll(norm, lobbies + [lobby]).1 == events + Interpret(norm, r, lobby).1;
    hide ReadAll, Interpret, Faithful, Introduce, UpdateReady, Playing, LiveUpdate, Complete, SelectSong, Selects, Readies, Updates, Completes;
    selected := SelectSong(r, lobby.songInfo).1;
    readies := Introduce(norm, r1, lobby.players).1 + UpdateReady(norm, r2, Playing(lobby.players)).1;
    live := LiveUpdate(norm, lobby);
    completed := Complete(norm, r3, lobby).1;
    SelectsAs(r, lobby, events);
    ReadiesAs(norm, r1, lobby);
    UpdatesAs(norm, lobby);
    CompletesAs(norm, lobbies, lobby, r3, events + selected);
  }
}
