/**
 * The projection against the log of its events: what a browser that connects
 * now is told, in terms of everything that ever happened.
 */
module RealtimeReplays {
  import opened Wrappers
  import opened RealtimeEvents
  import opened RealtimeMessages
  import opened RealtimeProjections

  /** The projection after all events of its tournament so far. */
  function Replay(log: seq<LiveEvent>): Projection {
    if log == [] then FRESH else Apply(Replay(log[..|log| - 1]), log[|log| - 1])
  }

  /** What the i-th event shows on a path. */
  function Posted(log: seq<LiveEvent>, i: nat, path: Path): Message
    requires i < |log|
  {
    MessageFor(Prepared(Replay(log[..i]), log[i]), log[i], path)
  }

  predicate Replaces(m: Message, k: string) {
    m.Message? && MessageIdentity(m.event, m.data) == k
  }

  /** The event is the end of the lobby the message is about. */
  predicate Drops(e: LiveEvent, m: Message) {
    Present(e.payload.lobbyId) && Removes(e, e.payload.lobbyId.value) && About(m, e.payload.lobbyId.value)
  }

  // ----- one event

  lemma ShowOnPath(p: Projection, e: LiveEvent, path: Path, other: Path)
    ensures ShowOn(p, e, path).lastSequence == p.lastSequence
    ensures path != LiveMatchGateway ==> ShowOn(p, e, path).liveMatches == p.liveMatches
    ensures var m := MessageFor(p, e, path);
            SnapshotOf(ShowOn(p, e, path), other) ==
              if other == path && m.Message? then Put(SnapshotOf(p, path), MessageIdentity(m.event, m.data), m) else SnapshotOf(p, other)
  {
  }

  /** What an event shows does not depend on the paths it was already shown on. */
  lemma SameMessages(p: Projection, p': Projection, e: LiveEvent, path: Path)
    requires p.lastSequence == p'.lastSequence && p.liveMatches == p'.liveMatches
    ensures MessageFor(p, e, path) == MessageFor(p', e, path)
  {
  }

  lemma AllPaths(p: Projection, e: LiveEvent)
    ensures ShowFrom(p, e, PATHS) == ShowOn(ShowOn(ShowOn(p, e, UiUpdateHub), e, LobbyGateway), e, LiveMatchGateway)
  {
    hide ShowOn;
    assert ShowFrom(p, e, []) == p;
    OneMorePath(p, e, [], UiUpdateHub);
    OneMorePath(p, e, [UiUpdateHub], LobbyGateway);
    OneMorePath(p, e, [UiUpdateHub, LobbyGateway], LiveMatchGateway);
    assert [] + [UiUpdateHub] == [UiUpdateHub] && [UiUpdateHub] + [LobbyGateway] == [UiUpdateHub, LobbyGateway];
    assert [UiUpdateHub, LobbyGateway] + [LiveMatchGateway] == PATHS;
    hide ShowFrom;
  }

  /** What is sent out for an event is what the paths show of it, in the order of the paths. */
  lemma RoutedToAll(p: Projection, e: LiveEvent)
    ensures RoutedFrom(p, e, PATHS) == [
              Routed(UiUpdateHub, MessageFor(p, e, UiUpdateHub)),
              Routed(LobbyGateway, MessageFor(p, e, LobbyGateway)),
              Routed(LiveMatchGateway, MessageFor(p, e, LiveMatchGateway))]
  {
    hide ShowOn, MessageFor;
    LaterMessages(p, e);
    assert RoutedFrom(p, e, []) == [] && ShowFrom(p, e, []) == p;
    OneMorePath(p, e, [], UiUpdateHub);
    OneMorePath(p, e, [UiUpdateHub], LobbyGateway);
    OneMorePath(p, e, [UiUpdateHub, LobbyGateway], LiveMatchGateway);
    assert [] + [UiUpdateHub] == [UiUpdateHub] && [UiUpdateHub] + [LobbyGateway] == [UiUpdateHub, LobbyGateway];
    assert [UiUpdateHub, LobbyGateway] + [LiveMatchGateway] == PATHS;
    hide ShowFrom, RoutedFrom;
  }

  lemma LaterMessages(p: Projection, e: LiveEvent)
    ensures var one := ShowOn(p, e, UiUpdateHub);
            && MessageFor(one, e, LobbyGateway) == MessageFor(p, e, LobbyGateway)
            && MessageFor(ShowOn(one, e, LobbyGateway), e, LiveMatchGateway) == MessageFor(p, e, LiveMatchGateway)
  {
    hide ShowOn, MessageFor;
    var one := ShowOn(p, e, UiUpdateHub);
    var two := ShowOn(one, e, LobbyGateway);
    ShowOnPath(p, e, UiUpdateHub, UiUpdateHub);
    ShowOnPath(one, e, LobbyGateway, LobbyGateway);
    SameMessages(p, one, e, LobbyGateway);
    SameMessages(p, two, e, LiveMatchGateway);
  }

  lemma OneMorePath(p: Projection, e: LiveEvent, paths: seq<Path>, path: Path)
    ensures ShowFrom(p, e, paths + [path]) == ShowOn(ShowFrom(p, e, paths), e, path)
    ensures RoutedFrom(p, e, paths + [path]) == RoutedFrom(p, e, paths) + [Routed(path, MessageFor(ShowFrom(p, e, paths), e, path))]
  {
    hide ShowOn, MessageFor;
    assert (paths + [path])[..|paths|] == paths;
  }

  /** An event replaces at most one message per path, after the messages of a lobby that ends with it are gone. */
  lemma ApplyShows(p: Projection, e: LiveEvent, path: Path)
    ensures var q := Prepared(p, e);
            var m := MessageFor(q, e, path);
            && SnapshotOf(Apply(p, e), path) ==
                 (if m.Message? then Put(SnapshotOf(q, path), MessageIdentity(m.event, m.data), m) else SnapshotOf(q, path))
            && Apply(p, e).liveMatches == Remember(q, e, LiveMatchGateway, MessageFor(q, e, LiveMatchGateway)).liveMatches
            && Apply(p, e).lastSequence == NumberOf(p, e)
  {
    var q := Prepared(p, e);
    var one := ShowOn(q, e, UiUpdateHub);
    var two := ShowOn(one, e, LobbyGateway);
    AllPaths(q, e);
    ShowOnPath(q, e, UiUpdateHub, path);
    ShowOnPath(one, e, LobbyGateway, path);
    ShowOnPath(two, e, LiveMatchGateway, path);
    SameMessages(q, one, e, LobbyGateway);
    SameMessages(q, two, e, LiveMatchGateway);
    assert Apply(p, e).liveMatches == Remember(two, e, LiveMatchGateway, MessageFor(two, e, LiveMatchGateway)).liveMatches;
    hide ShowFrom, MessageFor, ShowOn;
  }

  lemma PreparedSnapshot(p: Projection, e: LiveEvent, path: Path)
    ensures SnapshotOf(Prepared(p, e), path) ==
            if Present(e.payload.lobbyId) && Removes(e, e.payload.lobbyId.value)
            then Without(SnapshotOf(p, path), e.payload.lobbyId.value) else SnapshotOf(p, path)
  {
  }

  lemma PreparedDrops(p: Projection, e: LiveEvent, path: Path, k: string, m: Message)
    ensures Cached(Prepared(p, e), path, k, m) <==> Cached(p, path, k, m) && !Drops(e, m)
  {
    PreparedSnapshot(p, e, path);
    if Present(e.payload.lobbyId) && Removes(e, e.payload.lobbyId.value) {
      WithoutContents(SnapshotOf(p, path), e.payload.lobbyId.value, Entry(k, m));
    }
    hide Prepared, SnapshotOf;
  }

  // ----- the whole log

  /** The message went out with the i-th event, nothing replaced it since, and its lobby has not ended since. */
  ghost predicate StandsSince(log: seq<LiveEvent>, path: Path, k: string, m: Message, i: nat) {
    && i < |log|
    && Posted(log, i, path) == m && Replaces(m, k)
    && forall j :: i < j < |log| ==> !Replaces(Posted(log, j, path), k) && !Drops(log[j], m)
  }

  ghost predicate Cached(p: Projection, path: Path, k: string, m: Message) {
    Entry(k, m) in SnapshotOf(p, path)
  }

  lemma PostedBefore(log: seq<LiveEvent>, e: LiveEvent, i: nat, path: Path)
    requires i < |log|
    ensures Posted(log + [e], i, path) == Posted(log, i, path)
  {
    assert (log + [e])[..i] == log[..i];
  }

  lemma StandsOneMore(log: seq<LiveEvent>, e: LiveEvent, path: Path, k: string, m: Message, i: nat)
    ensures var last := Posted(log + [e], |log|, path);
            StandsSince(log + [e], path, k, m, i) <==>
              if i == |log| then last == m && Replaces(m, k)
              else StandsSince(log, path, k, m, i) && !Replaces(last, k) && !Drops(e, m)
  {
    hide Posted, Replaces, Drops;
    var all := log + [e];
    forall j: nat | j < |log|
      ensures Posted(all, j, path) == Posted(log, j, path) && all[j] == log[j]
    {
      PostedBefore(log, e, j, path);
    }
    assert all[|log|] == e;
    if i < |log| && StandsSince(log, path, k, m, i) && !Replaces(Posted(all, |log|, path), k) && !Drops(e, m) {
      forall j | i < j < |all|
        ensures !Replaces(Posted(all, j, path), k) && !Drops(all[j], m)
      {
        assert j < |log| ==> Posted(all, j, path) == Posted(log, j, path);
      }
    }
  }

  lemma CachedOneMore(log: seq<LiveEvent>, e: LiveEvent, path: Path, k: string, m: Message)
    ensures var last := Posted(log + [e], |log|, path);
            Cached(Replay(log + [e]), path, k, m) <==>
              if Replaces(last, k) then m == last else Cached(Replay(log), path, k, m) && !Drops(e, m)
  {
    assert (log + [e])[..|log|] == log;
    var p := Replay(log);
    var q := Prepared(p, e);
    var last := MessageFor(q, e, path);
    assert (log + [e])[|log|] == e && Posted(log + [e], |log|, path) == last;
    assert Replay(log + [e]) == Apply(p, e);
    ApplyShows(p, e, path);
    PreparedDrops(p, e, path, k, m);
    if last.Message? {
      PutContents(SnapshotOf(q, path), MessageIdentity(last.event, last.data), last, Entry(k, m));
    }
    hide Apply, MessageFor, Prepared, Drops, SnapshotOf, Put, Replay, Posted, MessageIdentity;
  }

  /**
   * The snapshot of a path holds, per identity, the last message any event
   * showed there since the lobby it is about last ended, and nothing else.
   */
  lemma {:induction false} CacheAgreesWithLog(log: seq<LiveEvent>, path: Path, k: string, m: Message)
    ensures Cached(Replay(log), path, k, m) <==> exists i :: StandsSince(log, path, k, m, i)
  {
    if log != [] {
      var before, e := log[..|log| - 1], log[|log| - 1];
      assert log == before + [e];
      CacheAgreesWithLog(before, path, k, m);
      CachedOneMore(before, e, path, k, m);
      forall i: nat
        ensures StandsSince(log, path, k, m, i) <==>
                  if i == |before| then Posted(log, |before|, path) == m && Replaces(m, k)
                  else StandsSince(before, path, k, m, i) && !Replaces(Posted(log, |before|, path), k) && !Drops(e, m)
      {
        StandsOneMore(before, e, path, k, m, i);
      }
      hide Posted, StandsSince, Cached, Drops, Replaces;
      if exists i :: StandsSince(before, path, k, m, i) {
        var i :| StandsSince(before, path, k, m, i);
        StandsInLog(before, path, k, m, i);
        assert StandsSince(log, path, k, m, i) <==> !Replaces(Posted(log, |before|, path), k) && !Drops(e, m);
      }
      assert StandsSince(log, path, k, m, |before|) <==> Posted(log, |before|, path) == m && Replaces(m, k);
    }
  }

  lemma StandsInLog(log: seq<LiveEvent>, path: Path, k: string, m: Message, i: nat)
    requires StandsSince(log, path, k, m, i)
    ensures i < |log|
  {
  }

  // ----- the order of a snapshot

  /** The snapshot had a message of that identity after the first n events. */
  ghost predicate HeldAfter(log: seq<LiveEvent>, n: nat, path: Path, k: string)
    requires n <= |log|
  {
    HasKey(SnapshotOf(Replay(log[..n]), path), k)
  }

  /** The one identity has been in the snapshot ever since a time when the other was not. */
  ghost predicate HeldLonger(log: seq<LiveEvent>, path: Path, k: string, k': string) {
    exists n: nat :: n <= |log| && HeldSince(log, n, path, k, k')
  }

  ghost predicate HeldSince(log: seq<LiveEvent>, n: nat, path: Path, k: string, k': string)
    requires n <= |log|
  {
    !HeldAfter(log, n, path, k') && forall i: nat :: n <= i <= |log| ==> HeldAfter(log, i, path, k)
  }

  lemma HeldBefore(log: seq<LiveEvent>, e: LiveEvent, n: nat, path: Path, k: string)
    requires n <= |log|
    ensures HeldAfter(log + [e], n, path, k) == HeldAfter(log, n, path, k)
  {
    assert (log + [e])[..n] == log[..n];
  }

  lemma StillLonger(log: seq<LiveEvent>, e: LiveEvent, path: Path, k: string, k': string)
    requires HeldLonger(log, path, k, k') && HeldAfter(log + [e], |log| + 1, path, k)
    ensures HeldLonger(log + [e], path, k, k')
  {
    hide HeldAfter;
    var n: nat :| n <= |log| && HeldSince(log, n, path, k, k');
    HeldBefore(log, e, n, path, k');
    forall i: nat | n <= i <= |log| + 1
      ensures HeldAfter(log + [e], i, path, k)
    {
      if i <= |log| {
        HeldBefore(log, e, i, path, k);
      }
    }
    assert HeldSince(log + [e], n, path, k, k');
  }

  lemma ShowingKeeps(p: Projection, e: LiveEvent, path: Path)
    requires MessageFor(Prepared(p, e), e, path).Message?
    ensures SnapshotOf(Prepared(p, e), path) == SnapshotOf(p, path)
  {
    PreparedSnapshot(p, e, path);
  }

  /** Where the entries of a snapshot after an event were before it, or that the later one has just come in. */
  lemma OrderOneMore(p: Projection, e: LiveEvent, path: Path, x: nat, y: nat) returns (x': nat, y': nat, isNew: bool)
    requires x < y < |SnapshotOf(Apply(p, e), path)|
    ensures var before, after := SnapshotOf(p, path), SnapshotOf(Apply(p, e), path);
            && x' < |before| && before[x'].key == after[x].key
            && if isNew then !HasKey(before, after[y].key) else x' < y' < |before| && before[y'].key == after[y].key
  {
    var q := Prepared(p, e);
    var m := MessageFor(q, e, path);
    var before, prepared, after := SnapshotOf(p, path), SnapshotOf(q, path), SnapshotOf(Apply(p, e), path);
    ApplyShows(p, e, path);
    PreparedSnapshot(p, e, path);
    if m.Message? {
      ShowingKeeps(p, e, path);
      x', y', isNew := x, y, y == |before|;
    } else if Present(e.payload.lobbyId) && Removes(e, e.payload.lobbyId.value) {
      x', y' := WithoutKeepsOrder(before, e.payload.lobbyId.value, x, y);
      isNew := false;
    } else {
      x', y', isNew := x, y, false;
    }
    hide Apply, Prepared, MessageFor, SnapshotOf;
  }

  lemma HeldNow(log: seq<LiveEvent>, e: LiveEvent, path: Path, x: nat)
    requires x < |SnapshotOf(Replay(log + [e]), path)|
    ensures HeldAfter(log + [e], |log| + 1, path, SnapshotOf(Replay(log + [e]), path)[x].key)
  {
    assert (log + [e])[..|log| + 1] == log + [e];
  }

  /** A snapshot lists its messages in the order their identities came in since they were last gone. */
  lemma {:induction false} SnapshotInOrder(log: seq<LiveEvent>, path: Path, x: nat, y: nat)
    requires x < y < |SnapshotOf(Replay(log), path)|
    ensures var messages := SnapshotOf(Replay(log), path); HeldLonger(log, path, messages[x].key, messages[y].key)
  {
    var before, e := log[..|log| - 1], log[|log| - 1];
    assert log == before + [e];
    var p := Replay(before);
    assert Replay(log) == Apply(p, e);
    var messages, k, k' := SnapshotOf(p, path), SnapshotOf(Replay(log), path)[x].key, SnapshotOf(Replay(log), path)[y].key;
    var x', y', isNew := OrderOneMore(p, e, path, x, y);
    HeldNow(before, e, path, x);
    if isNew {
      assert log[..|before|] == before;
      assert HeldAfter(log, |before|, path, k) by {
        assert messages[x'].key == k;
      }
      assert HeldSince(log, |before|, path, k, k');
    } else {
      SnapshotInOrder(before, path, x', y');
      hide Apply, SnapshotOf, HeldAfter, HeldLonger;
      StillLonger(before, e, path, k, k');
    }
  }

  // ----- lobbies that end

  /**
   * A lobby that disconnects for good leaves no message and no live match, and
   * takes nothing of any other lobby with it.
   */
  lemma EndedLobby(log: seq<LiveEvent>, e: LiveEvent, lobby: string, path: Path, k: string, m: Message)
    requires Removes(e, lobby)
    ensures Cached(Replay(log + [e]), path, k, m) <==> Cached(Replay(log), path, k, m) && !About(m, lobby)
    ensures Replay(log + [e]).liveMatches == Replay(log).liveMatches - {lobby}
  {
    assert (log + [e])[..|log|] == log && (log + [e])[|log|] == e;
    var p := Replay(log);
    assert Replay(log + [e]) == Apply(p, e) && Posted(log + [e], |log|, path) == MessageFor(Prepared(p, e), e, path);
    hide Replay, Apply, Posted, MessageFor, Prepared, Cached, SnapshotOf;
    EndingShowsNothing(Prepared(p, e), e, lobby, path);
    EndingShowsNothing(Prepared(p, e), e, lobby, LiveMatchGateway);
    CachedOneMore(log, e, path, k, m);
    ApplyShows(p, e, path);
    PreparedWithout(p, e, lobby);
  }

  lemma EndingShowsNothing(p: Projection, e: LiveEvent, lobby: string, path: Path)
    requires Removes(e, lobby)
    ensures MessageFor(p, e, path).SequenceOnly?
  {
  }

  lemma PreparedWithout(p: Projection, e: LiveEvent, lobby: string)
    requires Removes(e, lobby)
    ensures Prepared(p, e).liveMatches == p.liveMatches - {lobby}
  {
  }

  // ----- the song a lobby plays

  /** The song an event names. */
  function SongOf(e: LiveEvent): Option<Song> {
    match e.kind
    case SongSelected(song) => Some(song)
    case MatchUpdate(song, _) => song
    case SongCompletedLive(song, _) => Some(song)
    case _ => None
  }

  /** The last song named for the lobby since it last ended. */
  function LastSong(log: seq<LiveEvent>, lobby: string): Option<Song> {
    if log == [] then None
    else
      var before, e := log[..|log| - 1], log[|log| - 1];
      if Removes(e, lobby) then None
      else if e.payload.lobbyId == Some(lobby) && SongOf(e).Some? then SongOf(e)
      else LastSong(before, lobby)
  }

  /** A song that was never named is shown as two empty strings. */
  function ShownSong(song: Option<Song>): Song {
    if song.Some? then song.value else Song("", "")
  }

  ghost predicate Plays(p: Projection, lobby: string, song: Option<Song>) {
    && (song.Some? ==> lobby in p.liveMatches)
    && (lobby in p.liveMatches ==>
          Song(p.liveMatches[lobby].songTitle, p.liveMatches[lobby].songPath) == ShownSong(song))
  }

  lemma LivesOneMore(p: Projection, e: LiveEvent, lobby: string, song: Option<Song>)
    requires lobby != "" && Plays(p, lobby, song)
    ensures Plays(Apply(p, e), lobby,
              if Removes(e, lobby) then None
              else if e.payload.lobbyId == Some(lobby) && SongOf(e).Some? then SongOf(e)
              else song)
  {
    ApplyShows(p, e, LiveMatchGateway);
    hide Apply, SnapshotOf, Cache;
  }

  lemma {:induction false} LiveMatchPlaysLastSong(log: seq<LiveEvent>, lobby: string)
    requires lobby != ""
    ensures Plays(Replay(log), lobby, LastSong(log, lobby))
  {
    if log != [] {
      LiveMatchPlaysLastSong(log[..|log| - 1], lobby);
      LivesOneMore(Replay(log[..|log| - 1]), log[|log| - 1], lobby, LastSong(log[..|log| - 1], lobby));
      hide Plays, Apply;
    }
  }

  /** Progress that names no song is shown with the last song named for its lobby since the lobby last ended. */
  lemma ProgressCarriesSong(log: seq<LiveEvent>, i: nat, lobby: string)
    requires i < |log| && lobby != "" && log[i].payload.lobbyId == Some(lobby) && log[i].kind.MatchUpdate?
    ensures var m := Posted(log, i, LiveMatchGateway);
            var song := ShownSong(if SongOf(log[i]).Some? then SongOf(log[i]) else LastSong(log[..i], lobby));
            && m.Message? && m.data.Live?
            && m.data.state.songTitle == song.title && m.data.state.songPath == song.songPath
            && m.data.state.players == log[i].kind.players
  {
    LiveMatchPlaysLastSong(log[..i], lobby);
    hide Replay;
  }
}
