/**
 * Turns lobby snapshots back into events: a song was selected, a player became
 * ready or not, live scores changed, a song was completed.
 *
 * Player names are compared after a normalisation that strips markers and
 * repeated blanks; everything here holds for any normalisation `norm`.
 */
module LobbyStateInterpreters {
  import opened Wrappers
  import opened Sequences
  import opened SyncStart

  datatype PlayerKey = PlayerKey(playerId: PlayerId, name: string)

  datatype LivePlayer = LivePlayer(
    playerId: PlayerId, playerName: string, score: int, exScore: Option<int>, isFailed: bool, judgments: Option<Judgments>)

  datatype Score = Score(playerId: PlayerId, playerName: string, score: int, exScore: Option<int>, isFailed: bool)

  datatype Event =
    | SongSelected(song: SongInfo)
    | PlayerReady(playerId: PlayerId, playerName: string, ready: bool)
    | MatchUpdate(liveSong: Option<SongInfo>, players: seq<LivePlayer>)
    | SongCompleted(song: SongInfo, scores: seq<Score>)

  /** What tells one completion of a song from a repetition of it. */
  datatype Signature = Signature(songPath: string, scores: seq<Score>)

  /** What the interpreter remembers between snapshots. */
  datatype Reader = Reader(
    previousSongKey: Option<string>,
    ready: map<PlayerKey, bool>,
    screens: map<PlayerKey, Screen>,
    lastCompleted: Option<Signature>)

  const FRESH_READER := Reader(None, map[], map[], None)

  type Norm = string -> string

  function GetOr<T>(o: Option<T>, default: T): T {
    if o.Some? then o.value else default
  }

  function KeyOf(norm: Norm, p: LobbyPlayer): PlayerKey {
    PlayerKey(p.playerId, norm(p.profileName))
  }

  function SongKey(song: SongInfo): string {
    song.songPath + "|" + song.title
  }

  function LiveOf(norm: Norm, p: LobbyPlayer): LivePlayer {
    LivePlayer(p.playerId, norm(p.profileName), GetOr(p.score, 0), p.exScore, GetOr(p.isFailed, false), p.judgments)
  }

  function ScoreOf(norm: Norm, p: LobbyPlayer): Score {
    Score(p.playerId, norm(p.profileName), GetOr(p.score, 0), p.exScore, GetOr(p.isFailed, false))
  }

  predicate IsEvaluation(s: Screen) {
    s == ScreenEvaluation || s == ScreenEvaluationStage
  }

  function LiveOfAll(norm: Norm, ps: seq<LobbyPlayer>): seq<LivePlayer> {
    seq(|ps|, i requires 0 <= i < |ps| => LiveOf(norm, ps[i]))
  }

  function ScoresOf(norm: Norm, ps: seq<LobbyPlayer>): seq<Score> {
    seq(|ps|, i requires 0 <= i < |ps| => ScoreOf(norm, ps[i]))
  }

  predicate IsPlaying(p: LobbyPlayer) {
    p.screenName == ScreenGameplay
  }

  function Playing(ps: seq<LobbyPlayer>): seq<LobbyPlayer> {
    Filter(ps, IsPlaying)
  }

  function OfSide(scores: seq<Score>, side: PlayerId): seq<Score> {
    Filter(scores, (s: Score) => s.playerId == side)
  }

  /** The stable sort by player id, of which there are two. */
  function SortBySide(scores: seq<Score>): seq<Score> {
    OfSide(scores, P1) + OfSide(scores, P2)
  }

  function SignatureOf(song: SongInfo, scores: seq<Score>): Signature {
    Signature(song.songPath, SortBySide(scores))
  }

  // ----- one snapshot

  /** The effect of meeting the players of a snapshot: anybody unknown is announced as not ready. */
  function Introduce(norm: Norm, r: Reader, ps: seq<LobbyPlayer>): (Reader, seq<Event>) {
    if ps == [] then (r, [])
    else
      var (before, events) := Introduce(norm, r, ps[..|ps| - 1]);
      var p := ps[|ps| - 1];
      if KeyOf(norm, p) in before.ready || KeyOf(norm, p) in before.screens then (before, events)
      else (before.(ready := before.ready[KeyOf(norm, p) := false]), events + [PlayerReady(p.playerId, norm(p.profileName), false)])
  }

  /** The effect of the players on the gameplay screen: a changed readiness is announced. */
  function UpdateReady(norm: Norm, r: Reader, ps: seq<LobbyPlayer>): (Reader, seq<Event>) {
    if ps == [] then (r, [])
    else
      var (before, events) := UpdateReady(norm, r, ps[..|ps| - 1]);
      var p := ps[|ps| - 1];
      if KeyOf(norm, p) in before.ready && before.ready[KeyOf(norm, p)] == p.ready then (before, events)
      else (before.(ready := before.ready[KeyOf(norm, p) := p.ready]), events + [PlayerReady(p.playerId, norm(p.profileName), p.ready)])
  }

  function RecordScreens(norm: Norm, screens: map<PlayerKey, Screen>, ps: seq<LobbyPlayer>): map<PlayerKey, Screen> {
    if ps == [] then screens
    else RecordScreens(norm, screens, ps[..|ps| - 1])[KeyOf(norm, ps[|ps| - 1]) := ps[|ps| - 1].screenName]
  }

  function SelectSong(r: Reader, song: Option<SongInfo>): (Reader, seq<Event>) {
    if song.Some? && Some(SongKey(song.value)) != r.previousSongKey then
      (r.(previousSongKey := Some(SongKey(song.value)), lastCompleted := None), [SongSelected(song.value)])
    else (r, [])
  }

  /** The player was last seen playing and is now looking at a result. */
  predicate JustFinished(norm: Norm, screens: map<PlayerKey, Screen>, p: LobbyPlayer) {
    KeyOf(norm, p) in screens && screens[KeyOf(norm, p)] == ScreenGameplay && IsEvaluation(p.screenName)
  }

  predicate SomebodyFinished(norm: Norm, screens: map<PlayerKey, Screen>, ps: seq<LobbyPlayer>) {
    exists i :: 0 <= i < |ps| && JustFinished(norm, screens, ps[i])
  }

  function LiveUpdate(norm: Norm, lobby: LobbyState): seq<Event> {
    var gameplay := Playing(lobby.players);
    if |gameplay| > 0 then [MatchUpdate(lobby.songInfo, LiveOfAll(norm, gameplay))] else []
  }

  function Complete(norm: Norm, r: Reader, lobby: LobbyState): (Reader, seq<Event>) {
    if lobby.songInfo.Some? && SomebodyFinished(norm, r.screens, lobby.players) then
      var scores := ScoresOf(norm, lobby.players);
      var signature := SignatureOf(lobby.songInfo.value, scores);
      if Some(signature) != r.lastCompleted then
        (r.(lastCompleted := Some(signature)), [SongCompleted(lobby.songInfo.value, scores)])
      else (r, [])
    else (r, [])
  }

  function Interpret(norm: Norm, r: Reader, lobby: LobbyState): (Reader, seq<Event>) {
    var (r1, selected) := SelectSong(r, lobby.songInfo);
    var (r2, introduced) := Introduce(norm, r1, lobby.players);
    var (r3, updated) := UpdateReady(norm, r2, Playing(lobby.players));
    var (r4, completed) := Complete(norm, r3, lobby);
    (r4.(screens := RecordScreens(norm, r4.screens, lobby.players)),
     selected + introduced + updated + LiveUpdate(norm, lobby) + completed)
  }

  /** Meeting players and their readiness only changes what is remembered of readiness. */
  lemma {:induction false} OnlyReadyChanges(norm: Norm, r: Reader, ps: seq<LobbyPlayer>)
    ensures Introduce(norm, r, ps).0 == r.(ready := Introduce(norm, r, ps).0.ready)
    ensures UpdateReady(norm, r, ps).0 == r.(ready := UpdateReady(norm, r, ps).0.ready)
  {
    if ps != [] {
      OnlyReadyChanges(norm, r, ps[..|ps| - 1]);
    }
  }

  /** The interpreter, updating its four memories snapshot by snapshot. */
  class LobbyStateInterpreter {
    const norm: Norm
    var previousSongKey: Option<string>
    var readyByPlayerKey: map<PlayerKey, bool>
    var screenByPlayerKey: map<PlayerKey, Screen>
    var lastCompletedSignature: Option<Signature>

    ghost function State(): Reader
      reads this
    {
      Reader(previousSongKey, readyByPlayerKey, screenByPlayerKey, lastCompletedSignature)
    }

    constructor (norm: Norm)
      ensures this.norm == norm && State() == FRESH_READER
    {
      this.norm := norm;
      previousSongKey, readyByPlayerKey, screenByPlayerKey, lastCompletedSignature := None, map[], map[], None;
    }

    method IntroduceAll(players: seq<LobbyPlayer>) returns (transitions: seq<Event>)
      modifies this`readyByPlayerKey
      ensures (State(), transitions) == Introduce(norm, old(State()), players)
    {
      transitions := [];
      for i := 0 to |players|
        invariant (State(), transitions) == Introduce(norm, old(State()), players[..i])
      {
        assert players[..i + 1][..i] == players[..i];
        var player := players[i];
        var key := KeyOf(norm, player);
        if !(key in readyByPlayerKey || key in screenByPlayerKey) {
          readyByPlayerKey := readyByPlayerKey[key := false];
          transitions := transitions + [PlayerReady(player.playerId, norm(player.profileName), false)];
        }
      }
      assert players[..|players|] == players;
    }

    method UpdateAll(gameplay: seq<LobbyPlayer>) returns (transitions: seq<Event>)
      modifies this`readyByPlayerKey
      ensures (State(), transitions) == UpdateReady(norm, old(State()), gameplay)
    {
      transitions := [];
      for i := 0 to |gameplay|
        invariant (State(), transitions) == UpdateReady(norm, old(State()), gameplay[..i])
      {
        assert gameplay[..i + 1][..i] == gameplay[..i];
        var player := gameplay[i];
        var key := KeyOf(norm, player);
        if !(key in readyByPlayerKey && readyByPlayerKey[key] == player.ready) {
          readyByPlayerKey := readyByPlayerKey[key := player.ready];
          transitions := transitions + [PlayerReady(player.playerId, norm(player.profileName), player.ready)];
        }
      }
      assert gameplay[..|gameplay|] == gameplay;
    }

    method RecordAll(players: seq<LobbyPlayer>)
      modifies this`screenByPlayerKey
      ensures screenByPlayerKey == RecordScreens(norm, old(screenByPlayerKey), players)
    {
      for i := 0 to |players|
        invariant screenByPlayerKey == RecordScreens(norm, old(screenByPlayerKey), players[..i])
      {
        assert players[..i + 1][..i] == players[..i];
        screenByPlayerKey := screenByPlayerKey[KeyOf(norm, players[i]) := players[i].screenName];
      }
      assert players[..|players|] == players;
    }

    method InterpretSnapshot(lobby: LobbyState) returns (transitions: seq<Event>)
      modifies this
      ensures (State(), transitions) == Interpret(norm, old(State()), lobby)
    {
      transitions := [];
      var previousScreens := screenByPlayerKey;
      ghost var selected := SelectSong(State(), lobby.songInfo);
      if lobby.songInfo.Some? {
        var key := SongKey(lobby.songInfo.value);
        if Some(key) != previousSongKey {
          previousSongKey := Some(key);
          lastCompletedSignature := None;
          transitions := transitions + [SongSelected(lobby.songInfo.value)];
        }
      }
      assert State() == selected.0 && transitions == selected.1;
      OnlyReadyChanges(norm, State(), lobby.players);
      var introduced := IntroduceAll(lobby.players);
      var gameplay := Playing(lobby.players);
      OnlyReadyChanges(norm, State(), gameplay);
      var updated := UpdateAll(gameplay);
      ghost var live, completed := LiveUpdate(norm, lobby), Complete(norm, State(), lobby);
      transitions := transitions + introduced + updated;
      if |gameplay| > 0 {
        transitions := transitions + [MatchUpdate(lobby.songInfo, LiveOfAll(norm, gameplay))];
      }
      assert transitions == selected.1 + introduced + updated + live;
      if lobby.songInfo.Some? && SomebodyFinished(norm, previousScreens, lobby.players) {
        var scores := ScoresOf(norm, lobby.players);
        var signature := SignatureOf(lobby.songInfo.value, scores);
        if Some(signature) != lastCompletedSignature {
          lastCompletedSignature := Some(signature);
          transitions := transitions + [SongCompleted(lobby.songInfo.value, scores)];
        }
      }
      assert State() == completed.0 && transitions == selected.1 + introduced + updated + live + completed.1;
      RecordAll(lobby.players);
    }
  }
}
