/**
 * What the events of the interpreter look like over any sequence of snapshots:
 * readiness alternates, songs change, and completions are not repeated.
 */
module InterpreterTraces {
  import opened Wrappers
  import opened Sequences
  import opened SyncStart
  import opened LobbyStateInterpreters

  /** What a fresh interpreter remembers and has announced after reading the snapshots. */
  function ReadAll(norm: Norm, lobbies: seq<LobbyState>): (Reader, seq<Event>) {
    if lobbies == [] then (FRESH_READER, [])
    else
      var (before, events) := ReadAll(norm, lobbies[..|lobbies| - 1]);
      var (after, more) := Interpret(norm, before, lobbies[|lobbies| - 1]);
      (after, events + more)
  }

  // ----- reading the events back

  /** The readiness announced for one player, oldest first. */
  function ReadyTrace(events: seq<Event>, k: PlayerKey): seq<bool> {
    if events == [] then []
    else
      var e := events[|events| - 1];
      ReadyTrace(events[..|events| - 1], k) + if e.PlayerReady? && PlayerKey(e.playerId, e.playerName) == k then [e.ready] else []
  }

  function LastSelected(events: seq<Event>): Option<string> {
    if events == [] then None
    else
      var e := events[|events| - 1];
      if e.SongSelected? then Some(SongKey(e.song)) else LastSelected(events[..|events| - 1])
  }

  /** The last completion announced since the last song was selected. */
  function LastCompletion(events: seq<Event>): Option<Signature> {
    if events == [] then None
    else
      var e := events[|events| - 1];
      if e.SongSelected? then None
      else if e.SongCompleted? then Some(SignatureOf(e.song, e.scores))
      else LastCompletion(events[..|events| - 1])
  }

  /** Strictly alternating, not ready first. */
  ghost predicate Alternates(s: seq<bool>) {
    forall i :: 0 <= i < |s| ==> s[i] == (i % 2 == 1)
  }

  /** No song is announced twice in a row. */
  ghost predicate SongsChange(events: seq<Event>) {
    forall i :: 0 <= i < |events| && events[i].SongSelected? ==> LastSelected(events[..i]) != Some(SongKey(events[i].song))
  }

  /** No completion repeats the one before it within the same selection of a song. */
  ghost predicate CompletionsDiffer(events: seq<Event>) {
    forall i :: 0 <= i < |events| && events[i].SongCompleted? ==>
      LastCompletion(events[..i]) != Some(SignatureOf(events[i].song, events[i].scores))
  }

  /** Readiness is remembered as it was last announced, and only for players announced at all. */
  ghost predicate KeyFaithful(ready: map<PlayerKey, bool>, k: PlayerKey, trace: seq<bool>) {
    && Alternates(trace)
    && (k in ready <==> trace != [])
    && (k in ready ==> ready[k] == trace[|trace| - 1])
  }

  ghost predicate ReadyFaithful(ready: map<PlayerKey, bool>, events: seq<Event>) {
    forall k :: KeyFaithful(ready, k, ReadyTrace(events, k))
  }

  /** The interpreter's memories are what its announcements say they are. */
  ghost predicate Faithful(r: Reader, events: seq<Event>) {
    && r.previousSongKey == LastSelected(events)
    && r.lastCompleted == LastCompletion(events)
    && ReadyFaithful(r.ready, events)
    && r.screens.Keys <= r.ready.Keys
    && SongsChange(events) && CompletionsDiffer(events)
  }

  lemma ReadSnoc(events: seq<Event>, e: Event)
    ensures forall k :: ReadyTrace(events + [e], k) ==
              ReadyTrace(events, k) + if e.PlayerReady? && PlayerKey(e.playerId, e.playerName) == k then [e.ready] else []
    ensures LastSelected(events + [e]) == if e.SongSelected? then Some(SongKey(e.song)) else LastSelected(events)
    ensures LastCompletion(events + [e]) ==
              if e.SongSelected? then None
              else if e.SongCompleted? then Some(SignatureOf(e.song, e.scores))
              else LastCompletion(events)
    ensures SongsChange(events) && (e.SongSelected? ==> LastSelected(events) != Some(SongKey(e.song))) ==> SongsChange(events + [e])
    ensures CompletionsDiffer(events) && (e.SongCompleted? ==> LastCompletion(events) != Some(SignatureOf(e.song, e.scores))) ==>
              CompletionsDiffer(events + [e])
  {
    assert (events + [e])[..|events|] == events;
    assert forall i :: 0 <= i < |events| ==> (events + [e])[..i] == events[..i] && (events + [e])[i] == events[i];
  }

  // ----- every announcement keeps the memories faithful

  lemma ReadyAfterAnnouncement(ready: map<PlayerKey, bool>, events: seq<Event>, k: PlayerKey, now: bool)
    requires ReadyFaithful(ready, events) && if k in ready then ready[k] != now else !now
    ensures ReadyFaithful(ready[k := now], events + [PlayerReady(k.playerId, k.name, now)])
  {
    hide ReadyTrace, LastSelected, LastCompletion, SongsChange, CompletionsDiffer;
    var e := PlayerReady(k.playerId, k.name, now);
    ReadSnoc(events, e);
    forall j
      ensures KeyFaithful(ready[k := now], j, ReadyTrace(events + [e], j))
    {
      assert KeyFaithful(ready, j, ReadyTrace(events, j));
    }
  }

  lemma AnnounceReady(r: Reader, events: seq<Event>, k: PlayerKey, ready: bool)
    requires Faithful(r, events)
    requires if k in r.ready then r.ready[k] != ready else !ready
    ensures Faithful(r.(ready := r.ready[k := ready]), events + [PlayerReady(k.playerId, k.name, ready)])
  {
    ReadSnoc(events, PlayerReady(k.playerId, k.name, ready));
    hide ReadyFaithful, LastSelected, LastCompletion, SongsChange, CompletionsDiffer, ReadyTrace;
    ReadyAfterAnnouncement(r.ready, events, k, ready);
  }

  lemma ScreensKnown(r: Reader, events: seq<Event>)
    requires Faithful(r, events)
    ensures r.screens.Keys <= r.ready.Keys
  {
  }

  lemma {:induction false} IntroduceIsFaithful(norm: Norm, r: Reader, ps: seq<LobbyPlayer>, events: seq<Event>)
    requires Faithful(r, events)
    ensures
      var (after, more) := Introduce(norm, r, ps);
      && Faithful(after, events + more)
      && (forall k :: k in r.ready ==> k in after.ready)
      && forall i :: 0 <= i < |ps| ==> KeyOf(norm, ps[i]) in after.ready
  {
    hide Faithful;
    if ps == [] {
      ForgetNothing(events);
    } else {
      IntroduceIsFaithful(norm, r, ps[..|ps| - 1], events);
      var (before, earlier) := Introduce(norm, r, ps[..|ps| - 1]);
      ScreensKnown(before, events + earlier);
      var p := ps[|ps| - 1];
      var e := PlayerReady(p.playerId, norm(p.profileName), false);
      assert events + (earlier + [e]) == (events + earlier) + [e];
      if KeyOf(norm, p) !in before.ready {
        AnnounceReady(before, events + earlier, KeyOf(norm, p), false);
      }
    }
  }

  lemma {:induction false} UpdateIsFaithful(norm: Norm, r: Reader, ps: seq<LobbyPlayer>, events: seq<Event>)
    requires Faithful(r, events) && forall i :: 0 <= i < |ps| ==> KeyOf(norm, ps[i]) in r.ready
    ensures
      var (after, more) := UpdateReady(norm, r, ps);
      Faithful(after, events + more) && forall k :: k in r.ready ==> k in after.ready
  {
    hide Faithful;
    if ps == [] {
      ForgetNothing(events);
    } else {
      UpdateIsFaithful(norm, r, ps[..|ps| - 1], events);
      var (before, earlier) := UpdateReady(norm, r, ps[..|ps| - 1]);
      var p := ps[|ps| - 1];
      var e := PlayerReady(p.playerId, norm(p.profileName), p.ready);
      assert events + (earlier + [e]) == (events + earlier) + [e];
      if before.ready[KeyOf(norm, p)] != p.ready {
        AnnounceReady(before, events + earlier, KeyOf(norm, p), p.ready);
      }
    }
  }

  lemma PlayingKnown(norm: Norm, ready: map<PlayerKey, bool>, ps: seq<LobbyPlayer>)
    requires forall i :: 0 <= i < |ps| ==> KeyOf(norm, ps[i]) in ready
    ensures forall i :: 0 <= i < |Playing(ps)| ==> KeyOf(norm, Playing(ps)[i]) in ready
  {
    FilterContents(ps, IsPlaying);
    assert forall i :: 0 <= i < |Playing(ps)| ==> Playing(ps)[i] in Playing(ps);
  }

  lemma {:induction false} ScreensRecorded(norm: Norm, screens: map<PlayerKey, Screen>, ps: seq<LobbyPlayer>, known: set<PlayerKey>)
    requires screens.Keys <= known && forall i :: 0 <= i < |ps| ==> KeyOf(norm, ps[i]) in known
    ensures RecordScreens(norm, screens, ps).Keys <= known
  {
    if ps != [] {
      ScreensRecorded(norm, screens, ps[..|ps| - 1], known);
    }
  }

  lemma AnnounceOther(r: Reader, events: seq<Event>, r': Reader, e: Event)
    requires Faithful(r, events) && !e.PlayerReady? && r'.ready == r.ready && r'.screens == r.screens
    requires e.SongSelected? ==>
      Some(SongKey(e.song)) != r.previousSongKey && r' == r.(previousSongKey := Some(SongKey(e.song)), lastCompleted := None)
    requires e.SongCompleted? ==>
      Some(SignatureOf(e.song, e.scores)) != r.lastCompleted && r' == r.(lastCompleted := Some(SignatureOf(e.song, e.scores)))
    requires e.MatchUpdate? ==> r' == r
    ensures Faithful(r', events + [e])
  {
    ReadSnoc(events, e);
    hide ReadyTrace, LastSelected, LastCompletion, SongsChange, CompletionsDiffer;
    forall k
      ensures KeyFaithful(r'.ready, k, ReadyTrace(events + [e], k))
    {
      assert KeyFaithful(r.ready, k, ReadyTrace(events, k));
    }
  }

  lemma ForgetNothing(events: seq<Event>)
    ensures events + [] == events
  {
  }

  lemma InterpretIsFaithful(norm: Norm, r: Reader, lobby: LobbyState, events: seq<Event>)
    requires Faithful(r, events)
    ensures var (after, more) := Interpret(norm, r, lobby); Faithful(after, events + more)
  {
    hide Faithful, RecordScreens, Introduce, UpdateReady, SelectSong, Complete, LiveUpdate, Playing;
    ForgetNothing(events);
    var (r1, selected) := SelectSong(r, lobby.songInfo);
    SelectIsFaithful(r, lobby.songInfo, events);
    var e1 := events + selected;
    IntroduceIsFaithful(norm, r1, lobby.players, e1);
    var (r2, introduced) := Introduce(norm, r1, lobby.players);
    var e2 := e1 + introduced;
    PlayingKnown(norm, r2.ready, lobby.players);
    UpdateIsFaithful(norm, r2, Playing(lobby.players), e2);
    var (r3, updated) := UpdateReady(norm, r2, Playing(lobby.players));
    var e3 := e2 + updated;
    var e4 := e3 + LiveUpdate(norm, lobby);
    LiveIsFaithful(norm, r3, lobby, e3);
    CompleteIsFaithful(norm, r3, lobby, e4);
    var (r4, completed) := Complete(norm, r3, lobby);
    ScreensAreFaithful(norm, r4, lobby.players, e4 + completed);
    assert events + (selected + introduced + updated + LiveUpdate(norm, lobby) + completed) == e4 + completed;
  }

  lemma SelectIsFaithful(r: Reader, song: Option<SongInfo>, events: seq<Event>)
    requires Faithful(r, events)
    ensures var (after, more) := SelectSong(r, song); Faithful(after, events + more)
  {
    ForgetNothing(events);
    hide Faithful;
    if song.Some? && Some(SongKey(song.value)) != r.previousSongKey {
      AnnounceOther(r, events, SelectSong(r, song).0, SongSelected(song.value));
    }
  }

  lemma LiveIsFaithful(norm: Norm, r: Reader, lobby: LobbyState, events: seq<Event>)
    requires Faithful(r, events)
    ensures Faithful(r, events + LiveUpdate(norm, lobby))
  {
    ForgetNothing(events);
    hide Faithful;
    if |Playing(lobby.players)| > 0 {
      AnnounceOther(r, events, r, LiveUpdate(norm, lobby)[0]);
    }
  }

  lemma CompleteIsFaithful(norm: Norm, r: Reader, lobby: LobbyState, events: seq<Event>)
    requires Faithful(r, events)
    ensures var (after, more) := Complete(norm, r, lobby); Faithful(after, events + more)
    ensures Complete(norm, r, lobby).0.ready == r.ready
  {
    ForgetNothing(events);
    hide Faithful;
    if Complete(norm, r, lobby).1 != [] {
      AnnounceOther(r, events, Complete(norm, r, lobby).0, Complete(norm, r, lobby).1[0]);
    }
  }

  lemma ScreensAreFaithful(norm: Norm, r: Reader, ps: seq<LobbyPlayer>, events: seq<Event>)
    requires Faithful(r, events) && forall i :: 0 <= i < |ps| ==> KeyOf(norm, ps[i]) in r.ready
    ensures Faithful(r.(screens := RecordScreens(norm, r.screens, ps)), events)
  {
    ScreensRecorded(norm, r.screens, ps, r.ready.Keys);
    hide RecordScreens, ReadyFaithful, SongsChange, CompletionsDiffer;
  }

  lemma {:induction false} ReadingIsFaithful(norm: Norm, lobbies: seq<LobbyState>)
    ensures Faithful(ReadAll(norm, lobbies).0, ReadAll(norm, lobbies).1)
  {
    if lobbies != [] {
      var (before, events) := ReadAll(norm, lobbies[..|lobbies| - 1]);
      ReadingIsFaithful(norm, lobbies[..|lobbies| - 1]);
      InterpretIsFaithful(norm, before, lobbies[|lobbies| - 1], events);
      hide Faithful, Interpret;
    }
  }

  /**
   * Over any snapshots, also with two players under one key: each player's
   * readiness alternates starting with not ready, consecutive song selections
   * differ, and so do consecutive completions of one selected song.
   */
  lemma AnnouncementsAlternate(norm: Norm, lobbies: seq<LobbyState>)
    ensures var events := ReadAll(norm, lobbies).1;
            && (forall k :: Alternates(ReadyTrace(events, k)))
            && SongsChange(events) && CompletionsDiffer(events)
  {
    ReadingIsFaithful(norm, lobbies);
    var (r, events) := ReadAll(norm, lobbies);
    forall k
      ensures Alternates(ReadyTrace(events, k))
    {
      assert KeyFaithful(r.ready, k, ReadyTrace(events, k));
    }
  }
}
