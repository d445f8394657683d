/**
 * The bridge as functions from lobby to lobby, one for each datagram and timer.
 * `sent` collects every snapshot in the order they left, which is what the
 * properties of whole runs are about.
 */
module BridgeLobbies {
  import opened Wrappers
  import opened SyncStart

  /** The rank of a datagram source in the order the snapshot lists cabinets in. */
  type Address = nat

  const MAX_MACHINES := 4

  datatype Config = Config(lobbyCode: string, finalGraceMs: int, finalTimeoutMs: int, machineIdleMs: int)

  /** A parsed score datagram: `percentage` in hundredths, `judged` once anything was judged. */
  datatype ScoreMessage = ScoreMessage(
    song: string, playerNumber: int, playerName: string, percentage: int, isFailed: bool, judgments: Judgments, judged: bool)

  datatype SessionPlayer = SessionPlayer(
    playerId: PlayerId,
    profileName: string,
    exScore: int,
    isFailed: bool,
    judgments: Judgments,
    isReady: bool,
    finalPayload: Option<string>)

  type Players = map<PlayerId, SessionPlayer>

  datatype Cabinet = Cabinet(players: Players, song: Option<string>, lastSeenAt: int)

  /** The lobby as a value; `flushAt` is the deadline of the armed timer, `sent` everything the listener received. */
  datatype Lobby = Lobby(
    machines: map<Address, Cabinet>,
    song: Option<string>,
    completed: bool,
    flushAt: Option<int>,
    current: LobbyState,
    published: Option<LobbyState>,
    sent: seq<LobbyState>)

  function PlayerIdOf(m: ScoreMessage): PlayerId {
    if m.playerNumber == 1 then P2 else P1
  }

  /** Zero percent without judgments: the score stands for nothing that was played. */
  predicate IsEphemeral(m: ScoreMessage) {
    m.percentage == 0 && !m.judged
  }

  function EmptyLobby(c: Config): Lobby {
    Lobby(map[], None, false, None, LobbyState([], c.lobbyCode, None), None, [])
  }

  // ----- who is in the session

  predicate Plays(cabinet: Cabinet, song: Option<string>) {
    cabinet.song.Some? && cabinet.song == song
  }

  predicate InSession(l: Lobby, a: Address) {
    a in l.machines && Plays(l.machines[a], l.song)
  }

  function SessionAddresses(machines: map<Address, Cabinet>, song: Option<string>): set<Address> {
    set a | a in machines && Plays(machines[a], song)
  }

  predicate IsLeast(s: set<Address>, a: Address) {
    a in s && forall b :: b in s ==> a <= b
  }

  lemma {:induction false} HasLeast(s: set<Address>)
    requires s != {}
    ensures exists a :: IsLeast(s, a)
  {
    var a :| a in s;
    var rest := s - {a};
    if rest == {} {
      assert s == {a};
      assert IsLeast(s, a);
    } else {
      HasLeast(rest);
      var b :| IsLeast(rest, b);
      assert forall d :: d in s ==> d == a || d in rest;
      assert IsLeast(s, if a <= b then a else b);
    }
  }

  function Ascending(s: set<Address>): (r: seq<Address>)
    ensures forall a :: a in r <==> a in s
    ensures forall i, j :: 0 <= i < j < |r| ==> r[i] < r[j]
  {
    if s == {} then []
    else
      HasLeast(s);
      var a :| IsLeast(s, a);
      var rest := Ascending(s - {a});
      assert forall i :: 0 <= i < |rest| ==> rest[i] in s - {a};
      [a] + rest
  }

  /** The players of one cabinet, side by side. */
  function Sides(players: Players): seq<SessionPlayer> {
    (if P1 in players then [players[P1]] else []) + (if P2 in players then [players[P2]] else [])
  }

  function PlayersOn(machines: map<Address, Cabinet>, order: seq<Address>): seq<SessionPlayer>
    requires forall a :: a in order ==> a in machines
  {
    if order == [] then [] else Sides(machines[order[0]].players) + PlayersOn(machines, order[1..])
  }

  function PlayersIn(machines: map<Address, Cabinet>, song: Option<string>): seq<SessionPlayer> {
    PlayersOn(machines, Ascending(SessionAddresses(machines, song)))
  }

  function SessionPlayers(l: Lobby): seq<SessionPlayer> {
    PlayersIn(l.machines, l.song)
  }

  predicate IsFinal(p: SessionPlayer) {
    p.finalPayload.Some?
  }

  predicate AllFinal(ps: seq<SessionPlayer>) {
    forall i :: 0 <= i < |ps| ==> IsFinal(ps[i])
  }

  // ----- snapshots

  function Shown(p: SessionPlayer, screen: Screen): LobbyPlayer {
    LobbyPlayer(p.playerId, p.profileName, screen, screen == ScreenGameplay && p.isReady,
                Some(p.judgments), None, Some(p.exScore), Some(p.isFailed))
  }

  function ShownAll(ps: seq<SessionPlayer>, screen: Screen): (r: seq<LobbyPlayer>)
    ensures |r| == |ps| && forall i :: 0 <= i < |ps| ==> r[i] == Shown(ps[i], screen)
  {
    seq(|ps|, i requires 0 <= i < |ps| => Shown(ps[i], screen))
  }

  function SongShown(song: Option<string>): Option<SongInfo> {
    if song.None? then None else Some(SongInfo(song.value, song.value, "", 0))
  }

  function Snapshot(c: Config, ps: seq<SessionPlayer>, song: Option<string>, screen: Screen): LobbyState {
    LobbyState(ShownAll(ps, screen), c.lobbyCode, SongShown(song))
  }

  /** Appends the snapshot to `sent` unless it equals the one last sent. */
  function Publish(c: Config, l: Lobby, screen: Screen): Lobby {
    var state := Snapshot(c, SessionPlayers(l), l.song, screen);
    if l.published == Some(state) then l
    else l.(current := state, published := Some(state), sent := l.sent + [state])
  }

  // ----- cabinets joining and moving between songs

  predicate Hears(l: Lobby, a: Address) {
    a in l.machines || |l.machines| < MAX_MACHINES
  }

  /** The lobby after any datagram from `a`. */
  function Heard(l: Lobby, a: Address, now: int): (r: Lobby)
    ensures if Hears(l, a) then a in r.machines else r == l
  {
    if a in l.machines then l.(machines := l.machines[a := l.machines[a].(lastSeenAt := now)])
    else if Hears(l, a) then l.(machines := l.machines[a := Cabinet(map[], None, now)])
    else l
  }

  function Put(l: Lobby, a: Address, cabinet: Cabinet): Lobby {
    l.(machines := l.machines[a := cabinet])
  }

  predicate EveryMachineMovedOn(l: Lobby) {
    forall a :: a in l.machines ==> l.machines[a].song != l.song
  }

  function Cleared(cabinet: Cabinet, song: string): Cabinet {
    Cabinet(map[], if cabinet.song == Some(song) then Some(song) else None, cabinet.lastSeenAt)
  }

  function BeginSession(l: Lobby, song: string): Lobby {
    l.(machines := map a | a in l.machines :: Cleared(l.machines[a], song),
       song := Some(song), completed := false, flushAt := None)
  }

  /** A cabinet on a new song has nobody playing it yet. */
  function Onto(cabinet: Cabinet, song: string): Cabinet {
    if cabinet.song == Some(song) then cabinet else cabinet.(players := map[], song := Some(song))
  }

  function MoveTo(l: Lobby, a: Address, song: string): Lobby
    requires a in l.machines
  {
    var moved := Put(l, a, Onto(l.machines[a], song));
    if l.song == Some(song) && !l.completed then moved
    else if l.song.None? || l.completed || EveryMachineMovedOn(moved) then BeginSession(moved, song)
    else moved
  }

  function Upsert(l: Lobby, a: Address, m: ScoreMessage, payload: Option<string>): Lobby
    requires a in l.machines
  {
    var cabinet := l.machines[a];
    var side := PlayerIdOf(m);
    var before := if side in cabinet.players then Some(cabinet.players[side]) else None;
    Put(l, a, cabinet.(players := cabinet.players[side := SessionPlayer(
      side, m.playerName, m.percentage, m.isFailed, m.judgments,
      (before.Some? && before.value.isReady) || m.judged,
      if payload.Some? then payload else if before.Some? then before.value.finalPayload else None)]))
  }

  // ----- completions

  function ScheduleFlush(c: Config, l: Lobby, now: int): Lobby {
    l.(flushAt := Some(now + if AllFinal(SessionPlayers(l)) then c.finalGraceMs else c.finalTimeoutMs))
  }

  function FinalOnly(players: Players): Players {
    map side | side in players && IsFinal(players[side]) :: players[side]
  }

  function Pruned(cabinet: Cabinet): Cabinet {
    cabinet.(players := FinalOnly(cabinet.players))
  }

  /** Cabinets in the session keep their final players only; the others keep everybody. */
  function DropUnfinished(l: Lobby): Lobby {
    l.(machines := map a | a in l.machines ::
         if Plays(l.machines[a], l.song) then Pruned(l.machines[a]) else l.machines[a])
  }

  function Flush(c: Config, l: Lobby): Lobby {
    var finished := DropUnfinished(l.(flushAt := None));
    if SessionPlayers(finished) == [] then finished
    else Publish(c, Publish(c, finished.(completed := true), ScreenGameplay), ScreenEvaluation)
  }

  predicate HasFinished(cabinet: Cabinet) {
    cabinet.players != map[] && forall side :: side in cabinet.players ==> IsFinal(cabinet.players[side])
  }

  predicate Quiet(c: Config, cabinet: Cabinet, armed: bool, now: int) {
    cabinet.lastSeenAt <= now - c.machineIdleMs && !(armed && HasFinished(cabinet))
  }

  function NotQuiet(c: Config, machines: map<Address, Cabinet>, armed: bool, now: int): map<Address, Cabinet> {
    map a | a in machines && !Quiet(c, machines[a], armed, now) :: machines[a]
  }

  function EvictIdle(c: Config, l: Lobby, now: int): Lobby {
    var kept := NotQuiet(c, l.machines, l.flushAt.Some?, now);
    var left := l.(machines := kept);
    if kept == l.machines || l.completed then left
    else Publish(c, if l.flushAt.Some? then ScheduleFlush(c, left, now) else left, ScreenGameplay)
  }

  // ----- the handlers

  function HandleSong(c: Config, l: Lobby, a: Address, song: string, now: int): Lobby {
    if song == "" || !Hears(l, a) then l
    else
      var moved := MoveTo(Heard(l, a, now), a, song);
      if InSession(moved, a) then Publish(c, moved, ScreenSelectMusic) else moved
  }

  function HandleStart(c: Config, l: Lobby, a: Address, song: string, now: int): Lobby {
    if song == "" || !Hears(l, a) then l
    else
      var heard := Heard(l, a, now);
      if heard.machines[a].song == Some(song) && l.song == Some(song) && !l.completed then heard
      else
        var moved := MoveTo(heard, a, song);
        if InSession(moved, a) then Publish(c, moved, ScreenSelectMusic) else moved
  }

  function HandleScore(c: Config, l: Lobby, a: Address, m: ScoreMessage, now: int): Lobby {
    if !Hears(l, a) then l
    else
      var moved := MoveTo(Heard(l, a, now), a, m.song);
      if InSession(moved, a) then Publish(c, Upsert(moved, a, m, None), ScreenGameplay) else moved
  }

  function DiscardEphemeral(c: Config, l: Lobby, a: Address, m: ScoreMessage, now: int): Lobby
    requires a in l.machines
  {
    var cabinet := l.machines[a];
    if InSession(l, a) && cabinet.song == Some(m.song) && PlayerIdOf(m) in cabinet.players then
      var left := Put(l, a, cabinet.(players := cabinet.players - {PlayerIdOf(m)}));
      Publish(c, if l.flushAt.Some? then ScheduleFlush(c, left, now) else left, ScreenGameplay)
    else l
  }

  /** This cabinet already sent this very datagram. */
  predicate Repeats(cabinet: Cabinet, m: ScoreMessage, payload: string) {
    && cabinet.song == Some(m.song)
    && PlayerIdOf(m) in cabinet.players
    && cabinet.players[PlayerIdOf(m)].finalPayload == Some(payload)
  }

  function HandleFinalScore(c: Config, l: Lobby, a: Address, m: ScoreMessage, payload: string, now: int): Lobby {
    if !Hears(l, a) then l
    else
      var heard := Heard(l, a, now);
      if IsEphemeral(m) then DiscardEphemeral(c, heard, a, m, now)
      else if Repeats(heard.machines[a], m, payload) then heard
      else
        var moved := MoveTo(heard, a, m.song);
        if InSession(moved, a) then ScheduleFlush(c, Upsert(moved, a, m, Some(payload)), now) else moved
  }
}
