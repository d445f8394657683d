/**
 * The rules of the room, said of the lobby before and after: how cabinets join,
 * move, leave and are cleared, what a snapshot shows of whom, and when the timer
 * is due.
 */
module BridgeRooms {
  import opened Wrappers
  import opened Sequences
  import opened SyncStart
  import opened BridgeLobbies
  import opened BridgeInvariants
  import opened BridgeReports

  // ----- who is listed, and in which order

  datatype Seat = Seat(a: Address, side: PlayerId)

  predicate Earlier(x: Seat, y: Seat) {
    x.a < y.a || (x.a == y.a && x.side == P1 && y.side == P2)
  }

  /** The seats of the session in the order of cabinets and sides, each once. */
  ghost predicate Lists(l: Lobby, seats: seq<Seat>) {
    && (forall i, j :: 0 <= i < j < |seats| ==> Earlier(seats[i], seats[j]))
    && forall x :: x in seats <==> OnSong(l, x.a) && Held(l, x.a, x.side)
  }

  ghost predicate PlayersAt(l: Lobby, seats: seq<Seat>, ps: seq<SessionPlayer>) {
    && |ps| == |seats|
    && forall i :: 0 <= i < |seats| ==> Held(l, seats[i].a, seats[i].side) && ps[i] == l.machines[seats[i].a].players[seats[i].side]
  }

  function SidesOf(a: Address, players: Players): seq<Seat> {
    (if P1 in players then [Seat(a, P1)] else []) + (if P2 in players then [Seat(a, P2)] else [])
  }

  function SeatsOn(machines: map<Address, Cabinet>, order: seq<Address>): seq<Seat>
    requires forall a :: a in order ==> a in machines
  {
    if order == [] then [] else SidesOf(order[0], machines[order[0]].players) + SeatsOn(machines, order[1..])
  }

  predicate InOrder(seats: seq<Seat>) {
    forall i, j :: 0 <= i < j < |seats| ==> Earlier(seats[i], seats[j])
  }

  /** The seats are those of the players of the cabinets, the players listed the same way. */
  ghost predicate SeatsOf(machines: map<Address, Cabinet>, order: seq<Address>, seats: seq<Seat>, ps: seq<SessionPlayer>)
    requires forall a :: a in order ==> a in machines
  {
    && (forall x :: x in seats <==> x.a in order && x.side in machines[x.a].players)
    && |ps| == |seats|
    && forall i :: 0 <= i < |seats| ==> seats[i] in seats && ps[i] == machines[seats[i].a].players[seats[i].side]
  }

  lemma SidesListed(machines: map<Address, Cabinet>, a: Address)
    requires a in machines
    ensures InOrder(SidesOf(a, machines[a].players))
    ensures SeatsOf(machines, [a], SidesOf(a, machines[a].players), Sides(machines[a].players))
  {
    var players := machines[a].players;
    assert forall x: Seat :: x.side == P1 || x.side == P2;
    if P1 in players && P2 in players {
      assert SidesOf(a, players) == [Seat(a, P1), Seat(a, P2)] && Sides(players) == [players[P1], players[P2]];
    } else if P1 in players {
      assert SidesOf(a, players) == [Seat(a, P1)] && Sides(players) == [players[P1]];
    } else if P2 in players {
      assert SidesOf(a, players) == [Seat(a, P2)] && Sides(players) == [players[P2]];
    }
  }

  lemma OrderedTogether(machines: map<Address, Cabinet>, a: Address, rest: seq<Address>, first: seq<Seat>, ps: seq<SessionPlayer>, more: seq<Seat>, qs: seq<SessionPlayer>)
    requires a in machines && forall b :: b in rest ==> b in machines && a < b
    requires SeatsOf(machines, [a], first, ps) && SeatsOf(machines, rest, more, qs)
    requires InOrder(first) && InOrder(more)
    ensures InOrder(first + more)
  {
  }

  lemma {:induction false} SeatsListed(machines: map<Address, Cabinet>, order: seq<Address>)
    requires forall a :: a in order ==> a in machines
    requires forall i, j :: 0 <= i < j < |order| ==> order[i] < order[j]
    ensures InOrder(SeatsOn(machines, order)) && SeatsOf(machines, order, SeatsOn(machines, order), PlayersOn(machines, order))
  {
    if order != [] {
      var a, rest := order[0], order[1..];
      var first, more := SidesOf(a, machines[a].players), SeatsOn(machines, rest);
      assert order == [a] + rest;
      SeatsListed(machines, rest);
      SidesListed(machines, a);
      hide InOrder, SeatsOf, SidesOf, Sides;
      var ps, qs := Sides(machines[a].players), PlayersOn(machines, rest);
      assert forall b :: b in rest ==> a < b;
      OrderedTogether(machines, a, rest, first, ps, more, qs);
      SeatsTogether(machines, a, rest, first, ps, more, qs);
    }
  }

  lemma SeatsTogether(machines: map<Address, Cabinet>, a: Address, rest: seq<Address>, first: seq<Seat>, ps: seq<SessionPlayer>, more: seq<Seat>, qs: seq<SessionPlayer>)
    requires a in machines && forall b :: b in rest ==> b in machines
    requires SeatsOf(machines, [a], first, ps) && SeatsOf(machines, rest, more, qs)
    ensures SeatsOf(machines, [a] + rest, first + more, ps + qs)
  {
  }

  /** The players of the session are listed cabinet by cabinet, the first side first. */
  lemma SessionSeats(l: Lobby) returns (seats: seq<Seat>)
    ensures Lists(l, seats) && PlayersAt(l, seats, SessionPlayers(l))
  {
    var order := Ascending(SessionAddresses(l.machines, l.song));
    seats := SeatsOn(l.machines, order);
    SeatsListed(l.machines, order);
    hide Ascending, PlayersOn, SeatsOn, InOrder, SeatsOf;
    assert forall a :: a in order <==> OnSong(l, a);
    SessionListed(l, order, seats, SessionPlayers(l));
  }

  lemma SessionListed(l: Lobby, order: seq<Address>, seats: seq<Seat>, ps: seq<SessionPlayer>)
    requires forall a :: (a in order ==> a in l.machines) && (a in order <==> OnSong(l, a))
    requires InOrder(seats) && SeatsOf(l.machines, order, seats, ps)
    ensures Lists(l, seats) && PlayersAt(l, seats, ps)
  {
  }

  // ----- what a snapshot shows

  /** What the session of a room looks like on one screen. */
  ghost predicate ShownAs(c: Config, l: Lobby, seats: seq<Seat>, screen: Screen, state: LobbyState) {
    && state.code == c.lobbyCode
    && state.songInfo == (if l.song.Some? then Some(SongInfo(l.song.value, l.song.value, "", 0)) else None)
    && |state.players| == |seats|
    && forall i :: 0 <= i < |seats| ==> Held(l, seats[i].a, seats[i].side) && state.players[i] == OnScreen(l, seats[i], screen)
  }

  function OnScreen(l: Lobby, x: Seat, screen: Screen): LobbyPlayer
    requires Held(l, x.a, x.side)
  {
    var p := l.machines[x.a].players[x.side];
    LobbyPlayer(p.playerId, p.profileName, screen, screen == ScreenGameplay && p.isReady, Some(p.judgments), None, Some(p.exScore), Some(p.isFailed))
  }

  ghost predicate Shows(c: Config, l: Lobby, screen: Screen, state: LobbyState) {
    exists seats :: Lists(l, seats) && ShownAs(c, l, seats, screen, state)
  }

  lemma SnapshotShows(c: Config, l: Lobby, screen: Screen)
    ensures Shows(c, l, screen, Snapshot(c, SessionPlayers(l), l.song, screen))
  {
    var seats := SessionSeats(l);
    hide SessionPlayers, Lists;
    assert ShownAs(c, l, seats, screen, Snapshot(c, SessionPlayers(l), l.song, screen));
  }

  /** The room is on show, and was announced now unless it was already. */
  ghost predicate Says(c: Config, l: Lobby, screen: Screen, l': Lobby) {
    Shows(c, l', screen, l'.current) && l'.sent == l.sent + if l.sent != [] && l.current == l'.current then [] else [l'.current]
  }

  /** Two lobbies with the same room. */
  predicate SameRoom(l: Lobby, l': Lobby) {
    l'.machines == l.machines && l'.song == l.song
  }

  lemma ShownAlike(c: Config, l: Lobby, l': Lobby, screen: Screen, state: LobbyState)
    requires SameRoom(l, l') && Shows(c, l, screen, state)
    ensures Shows(c, l', screen, state)
  {
    hide Lists, ShownAs;
    var seats :| Lists(l, seats) && ShownAs(c, l, seats, screen, state);
    ListedAlike(l, l', seats);
    SeatsAlike(c, l, l', seats, screen, state);
  }

  lemma ListedAlike(l: Lobby, l': Lobby, seats: seq<Seat>)
    requires SameRoom(l, l') && Lists(l, seats)
    ensures Lists(l', seats)
  {
    hide Earlier;
  }

  lemma SeatsAlike(c: Config, l: Lobby, l': Lobby, seats: seq<Seat>, screen: Screen, state: LobbyState)
    requires SameRoom(l, l') && ShownAs(c, l, seats, screen, state)
    ensures ShownAs(c, l', seats, screen, state)
  {
  }

  lemma PublishSays(c: Config, l: Lobby, screen: Screen)
    requires Stream(c, l)
    ensures var l' := Publish(c, l, screen);
            && Says(c, l, screen, l') && SameRoom(l, l') && l'.completed == l.completed && l'.flushAt == l.flushAt && Stream(c, l')
  {
    var l' := Publish(c, l, screen);
    PublishKeepsStream(c, l, screen);
    SnapshotShows(c, l, screen);
    hide SessionPlayers, Shows, Snapshot;
    ShownAlike(c, l, l', screen, Snapshot(c, SessionPlayers(l), l.song, screen));
  }

  // ----- when the timer is due

  /** Somebody in the session has sent no final score. */
  ghost predicate Waits(l: Lobby) {
    exists x: Seat :: OnSong(l, x.a) && Held(l, x.a, x.side) && l.machines[x.a].players[x.side].finalPayload.None?
  }

  lemma FinalIffNobodyWaits(l: Lobby)
    ensures AllFinal(SessionPlayers(l)) <==> !Waits(l)
  {
    var seats := SessionSeats(l);
    hide SessionPlayers;
    if Waits(l) {
      var x: Seat :| OnSong(l, x.a) && Held(l, x.a, x.side) && l.machines[x.a].players[x.side].finalPayload.None?;
      assert x in seats;
    }
    if !AllFinal(SessionPlayers(l)) {
      var i :| 0 <= i < |seats| && !IsFinal(SessionPlayers(l)[i]);
      assert seats[i] in seats;
    }
  }

  /** The time a completion is put off to. */
  ghost function Due(c: Config, l: Lobby, now: int): int {
    now + if Waits(l) then c.finalTimeoutMs else c.finalGraceMs
  }

  lemma ScheduledIs(c: Config, l: Lobby, now: int)
    ensures ScheduleFlush(c, l, now) == l.(flushAt := Some(Due(c, l, now)))
  {
    FinalIffNobodyWaits(l);
    hide SessionPlayers, Waits, AllFinal;
  }

  // ----- what a datagram makes of the room

  /** A cabinet joins while there are fewer than four. */
  predicate Admitted(l: Lobby, a: Address) {
    a in l.machines || |l.machines| < 4
  }

  /** The cabinet as it was, or a new one, seen just now. */
  function SeenNow(l: Lobby, a: Address, now: int): Cabinet {
    if a in l.machines then Cabinet(l.machines[a].players, l.machines[a].song, now) else Cabinet(map[], None, now)
  }

  lemma HeardIs(l: Lobby, a: Address, now: int)
    ensures Hears(l, a) <==> Admitted(l, a)
    ensures Heard(l, a, now) == if Admitted(l, a) then l.(machines := l.machines[a := SeenNow(l, a, now)]) else l
  {
  }

  /** The lobby starts over with the song of the cabinet: it has none, has finished it, or nobody else is on it. */
  predicate Begins(l: Lobby, a: Address, song: string) {
    && !(l.song == Some(song) && !l.completed)
    && (l.song.None? || l.completed || forall b :: b in l.machines && b != a ==> l.machines[b].song != l.song)
  }

  /** Everybody leaves, and so does every song but the new one. */
  function Emptied(cabinet: Cabinet, song: string): Cabinet {
    Cabinet(map[], if cabinet.song == Some(song) then cabinet.song else None, cabinet.lastSeenAt)
  }

  /** The cabinet is on the song, with its players if it was before. */
  ghost predicate Moved(l: Lobby, a: Address, song: string, now: int, l': Lobby) {
    && l'.machines.Keys == l.machines.Keys + {a}
    && l'.song == (if Begins(l, a, song) then Some(song) else l.song) && !l'.completed
    && l'.machines[a].song == Some(song) && l'.machines[a].lastSeenAt == now
    && forall b :: b in l.machines && b != a ==> l'.machines[b] == if Begins(l, a, song) then Emptied(l.machines[b], song) else l.machines[b]
  }

  /** Who was on the cabinet when it came to the song. */
  function StaysOn(l: Lobby, a: Address, song: string): Players {
    if a in l.machines && l.machines[a].song == Some(song) && !Begins(l, a, song) then l.machines[a].players else map[]
  }

  ghost predicate Disarms(l: Lobby, a: Address, song: string, l': Lobby) {
    l'.flushAt == if Begins(l, a, song) then None else l.flushAt
  }

  lemma MoveIs(l: Lobby, a: Address, song: string, now: int)
    requires Admitted(l, a)
    ensures var l' := MoveTo(Heard(l, a, now), a, song);
            && Moved(l, a, song, now, l') && l'.machines[a].players == StaysOn(l, a, song)
            && Disarms(l, a, song, l') && SameStream(l, l')
  {
    var heard := Heard(l, a, now);
    HeardIs(l, a, now);
    BeginsWhen(l, a, song, now);
    var moved := Put(heard, a, Onto(heard.machines[a], song));
    var keeps := a in l.machines && l.machines[a].song == Some(song);
    hide Heard, Hears;
    assert moved == l.(machines := l.machines[a := Cabinet(if keeps then l.machines[a].players else map[], Some(song), now)]);
    hide Put, Onto;
    if Begins(l, a, song) {
      hide Begins;
      MoveBegins(l, a, song, now, moved);
    } else {
      hide Begins;
      MoveStays(l, a, song, now, moved);
    }
  }

  lemma MoveStays(l: Lobby, a: Address, song: string, now: int, moved: Lobby)
    requires !Begins(l, a, song) && l.song.Some? && !l.completed
    requires var keeps := a in l.machines && l.machines[a].song == Some(song);
             moved == l.(machines := l.machines[a := Cabinet(if keeps then l.machines[a].players else map[], Some(song), now)])
    ensures Moved(l, a, song, now, moved) && moved.machines[a].players == StaysOn(l, a, song)
    ensures Disarms(l, a, song, moved) && SameStream(l, moved)
  {
    hide Begins;
  }

  lemma MoveBegins(l: Lobby, a: Address, song: string, now: int, moved: Lobby)
    requires Begins(l, a, song)
    requires exists players: Players :: moved == l.(machines := l.machines[a := Cabinet(players, Some(song), now)])
    ensures var l' := BeginSession(moved, song);
            && Moved(l, a, song, now, l') && l'.machines[a].players == StaysOn(l, a, song)
            && Disarms(l, a, song, l') && SameStream(l, l')
  {
    hide Begins;
  }

  lemma BeginsWhen(l: Lobby, a: Address, song: string, now: int)
    requires Admitted(l, a)
    ensures var heard := Heard(l, a, now);
            var moved := Put(heard, a, Onto(heard.machines[a], song));
            && a in heard.machines
            && (Begins(l, a, song) <==> !(l.song == Some(song) && !l.completed) && (l.song.None? || l.completed || EveryMachineMovedOn(moved)))
            && (Begins(l, a, song) || (l.song.Some? && !l.completed))
  {
    var heard := Heard(l, a, now);
    var moved := Put(heard, a, Onto(heard.machines[a], song));
    assert moved.machines[a].song == Some(song);
    if EveryMachineMovedOn(moved) {
      forall b | b in l.machines && b != a ensures l.machines[b].song != l.song {
        assert moved.machines[b] == l.machines[b];
      }
    }
  }

  // ----- the steps

  /** Nothing but the time the cabinet was last seen is new. */
  ghost predicate OnlySeen(l: Lobby, a: Address, now: int, l': Lobby) {
    l' == l.(machines := l.machines[a := SeenNow(l, a, now)])
  }

  /** The room is shown to the listener when the cabinet plays along, and not otherwise. */
  ghost predicate SaysIfOnSong(c: Config, l: Lobby, a: Address, screen: Screen, l': Lobby) {
    if OnSong(l', a) then Says(c, l, screen, l') else SameStream(l, l')
  }

  /** A song was chosen or started. */
  ghost predicate SongTaken(c: Config, l: Lobby, a: Address, song: string, now: int, l': Lobby) {
    && Moved(l, a, song, now, l') && l'.machines[a].players == StaysOn(l, a, song)
    && Disarms(l, a, song, l') && SaysIfOnSong(c, l, a, ScreenSelectMusic, l')
  }

  lemma MovedSays(c: Config, l: Lobby, a: Address, song: string, now: int)
    requires Stream(c, l) && Admitted(l, a)
    ensures var moved := MoveTo(Heard(l, a, now), a, song);
            SongTaken(c, l, a, song, now, if InSession(moved, a) then Publish(c, moved, ScreenSelectMusic) else moved)
  {
    var moved := MoveTo(Heard(l, a, now), a, song);
    MoveIs(l, a, song, now);
    assert InSession(moved, a) <==> OnSong(moved, a);
    hide MoveTo, Heard, Publish, Shows, StaysOn, Begins, Stream;
    assert Stream(c, moved) by {
      StreamAlike(c, l, moved);
    }
    PublishSays(c, moved, ScreenSelectMusic);
  }

  lemma StreamAlike(c: Config, l: Lobby, l': Lobby)
    requires Stream(c, l) && SameStream(l, l')
    ensures Stream(c, l')
  {
  }

  lemma GoingOnTakes(l: Lobby, a: Address, song: string, now: int)
    requires Admitted(l, a)
    ensures var heard := Heard(l, a, now);
            && a in heard.machines && OnlySeen(l, a, now, if Admitted(l, a) then heard else l)
            && (heard.machines[a].song == Some(song) && l.song == Some(song) && !l.completed <==> GoesOn(l, a, song))
  {
    HeardIs(l, a, now);
  }

  /**
   * A named song: the cabinet joins if there is room and moves to it, which is
   * shown as a selection when it is then in the session. A start of the song it
   * is playing is only heard.
   */
  lemma SongIs(c: Config, l: Lobby, step: Step)
    requires Stream(c, l) && (step.SongChosen? || step.Started?)
    ensures var a, song, now, l' := step.from, step.song, step.now, Take(c, l, step);
            if song == "" || !Admitted(l, a) then l' == l
            else if step.Started? && GoesOn(l, a, song) then OnlySeen(l, a, now, l')
            else SongTaken(c, l, a, song, now, l')
  {
    var a, song, now := step.from, step.song, step.now;
    HeardIs(l, a, now);
    hide Heard, Hears;
    if song != "" && Admitted(l, a) {
      MovedSays(c, l, a, song, now);
      GoingOnTakes(l, a, song, now);
      hide MoveTo, Publish, SongTaken, OnlySeen, SeenNow, Admitted;
    }
  }

  /** A side of the cabinet has a score, if the cabinet plays along. */
  ghost predicate Listed(l: Lobby, a: Address, m: ScoreMessage, now: int, l': Lobby) {
    && Moved(l, a, m.song, now, l')
    && l'.machines[a].players.Keys == StaysOn(l, a, m.song).Keys + if OnSong(l', a) then {SideOf(m)} else {}
  }

  lemma UpsertLists(l: Lobby, a: Address, m: ScoreMessage, payload: Option<string>, now: int, moved: Lobby)
    requires Moved(l, a, m.song, now, moved) && moved.machines[a].players == StaysOn(l, a, m.song) && OnSong(moved, a)
    ensures var l' := Upsert(moved, a, m, payload);
            Listed(l, a, m, now, l') && OnSong(l', a) && SameStream(moved, l') && l'.flushAt == moved.flushAt
  {
    hide Begins, StaysOn;
  }

  ghost predicate ScoreTaken(c: Config, l: Lobby, a: Address, m: ScoreMessage, now: int, l': Lobby) {
    Listed(l, a, m, now, l') && Disarms(l, a, m.song, l') && SaysIfOnSong(c, l, a, ScreenGameplay, l')
  }

  lemma PublishedListed(c: Config, l: Lobby, a: Address, m: ScoreMessage, now: int, listed: Lobby)
    requires Listed(l, a, m, now, listed) && Disarms(l, a, m.song, listed) && SameStream(l, listed)
    requires Stream(c, l) && OnSong(listed, a)
    ensures ScoreTaken(c, l, a, m, now, Publish(c, listed, ScreenGameplay))
  {
    hide Publish, Shows, StaysOn, Begins;
    PublishSays(c, listed, ScreenGameplay);
  }

  /** A live score: the cabinet moves to its song, and the side is listed and shown when it plays along. */
  lemma ScoreIs(c: Config, l: Lobby, step: Step)
    requires Stream(c, l) && step.Scored?
    ensures var a, m, now, l' := step.from, step.message, step.now, Take(c, l, step);
            if !Admitted(l, a) then l' == l else ScoreTaken(c, l, a, m, now, l')
  {
    var a, m, now := step.from, step.message, step.now;
    HeardIs(l, a, now);
    if Admitted(l, a) {
      var moved := MoveTo(Heard(l, a, now), a, m.song);
      MoveIs(l, a, m.song, now);
      assert InSession(moved, a) <==> OnSong(moved, a);
      hide Heard, Hears, MoveTo, Upsert, Publish, Moved, Begins, StaysOn, Shows;
      if OnSong(moved, a) {
        UpsertLists(l, a, m, None, now, moved);
        hide Listed;
        PublishedListed(c, l, a, m, now, Upsert(moved, a, m, None));
      }
    }
  }

  /** The side leaves, and with it nobody else; a pending completion is timed anew. */
  ghost predicate Withdrawn(c: Config, l: Lobby, a: Address, m: ScoreMessage, now: int, l': Lobby) {
    && a in l.machines
    && l'.machines == l.machines[a := Cabinet(l.machines[a].players - {SideOf(m)}, l.machines[a].song, now)]
    && l'.song == l.song && l'.completed == l.completed
    && l'.flushAt == (if l.flushAt.Some? then Some(Due(c, l', now)) else None)
    && Says(c, l, ScreenGameplay, l')
  }

  /** The zero score of a skipped song withdraws its player from the song of the lobby, and says nothing of anybody else. */
  lemma SkippedIs(c: Config, l: Lobby, step: Step)
    requires Stream(c, l) && step.FinalScored? && step.message.percentage == 0 && !step.message.judged
    ensures var a, m, now, l' := step.from, step.message, step.now, Take(c, l, step);
            if !Admitted(l, a) then l' == l
            else if OnSong(l, a) && l.song == Some(m.song) && Held(l, a, SideOf(m)) then Withdrawn(c, l, a, m, now, l')
            else OnlySeen(l, a, now, l')
  {
    var a, m, now := step.from, step.message, step.now;
    HeardIs(l, a, now);
    hide Heard, Hears;
    if Admitted(l, a) {
      DiscardIs(c, l, a, m, now);
      hide DiscardEphemeral, Withdrawn;
    }
  }

  lemma DiscardIs(c: Config, l: Lobby, a: Address, m: ScoreMessage, now: int)
    requires Stream(c, l)
    ensures var heard := l.(machines := l.machines[a := SeenNow(l, a, now)]);
            var l' := DiscardEphemeral(c, heard, a, m, now);
            if OnSong(l, a) && l.song == Some(m.song) && Held(l, a, SideOf(m)) then Withdrawn(c, l, a, m, now, l') else l' == heard
  {
    var heard := l.(machines := l.machines[a := SeenNow(l, a, now)]);
    if OnSong(l, a) && l.song == Some(m.song) && Held(l, a, SideOf(m)) {
      var cabinet := heard.machines[a];
      var left := Put(heard, a, cabinet.(players := cabinet.players - {PlayerIdOf(m)}));
      assert left == l.(machines := l.machines[a := Cabinet(l.machines[a].players - {SideOf(m)}, l.machines[a].song, now)]);
      TimedAndSaid(c, l, left, now);
      hide Publish, ScheduleFlush, Shows, Due, Stream;
    }
  }

  /** Fewer players: a pending completion is timed anew, and the room is shown. */
  lemma TimedAndSaid(c: Config, l: Lobby, left: Lobby, now: int)
    requires Stream(c, l) && SameStream(l, left)
    ensures var l' := Publish(c, if left.flushAt.Some? then ScheduleFlush(c, left, now) else left, ScreenGameplay);
            && SameRoom(left, l') && l'.completed == left.completed && Says(c, l, ScreenGameplay, l')
            && l'.flushAt == if left.flushAt.Some? then Some(Due(c, l', now)) else None
  {
    var timed := if left.flushAt.Some? then ScheduleFlush(c, left, now) else left;
    ScheduledIs(c, left, now);
    hide Due, ScheduleFlush, Shows, Publish;
    PublishSays(c, timed, ScreenGameplay);
    DueAlike(c, left, Publish(c, timed, ScreenGameplay), now);
  }

  lemma DueAlike(c: Config, l: Lobby, l': Lobby, now: int)
    requires SameRoom(l, l')
    ensures Due(c, l, now) == Due(c, l', now)
  {
    assert Waits(l) <==> Waits(l') by {
      assert forall x: Seat :: OnSong(l, x.a) == OnSong(l', x.a) && Held(l, x.a, x.side) == Held(l', x.a, x.side);
    }
  }

  /** A completion is put off, or was never due. */
  ghost predicate FinalTaken(c: Config, l: Lobby, a: Address, m: ScoreMessage, now: int, l': Lobby) {
    && Listed(l, a, m, now, l') && SameStream(l, l')
    && l'.flushAt == if OnSong(l', a) then Some(Due(c, l', now)) else l.flushAt
  }

  lemma ScheduledListed(c: Config, l: Lobby, a: Address, m: ScoreMessage, now: int, listed: Lobby)
    requires Listed(l, a, m, now, listed) && SameStream(l, listed) && OnSong(listed, a)
    ensures FinalTaken(c, l, a, m, now, ScheduleFlush(c, listed, now))
  {
    ScheduledIs(c, listed, now);
    DueAlike(c, listed, ScheduleFlush(c, listed, now), now);
    hide ScheduleFlush, Due, StaysOn, Begins;
  }

  /** A final score is only heard the second time; otherwise the side is listed, and the completion is due after the grace or the timeout. */
  lemma FinalIs(c: Config, l: Lobby, step: Step)
    requires step.FinalScored? && !(step.message.percentage == 0 && !step.message.judged)
    ensures var a, m, now, l' := step.from, step.message, step.now, Take(c, l, step);
            if !Admitted(l, a) then l' == l
            else if Again(l, a, SideOf(m), Report(m, Some(step.payload))) then OnlySeen(l, a, now, l')
            else FinalTaken(c, l, a, m, now, l')
  {
    var a, m, payload, now := step.from, step.message, step.payload, step.now;
    HeardIs(l, a, now);
    if Admitted(l, a) {
      RepeatsIsAgain(l, a, now, m, payload, SideOf(m));
      var moved := MoveTo(Heard(l, a, now), a, m.song);
      MoveIs(l, a, m.song, now);
      StaysWhenOut(l, a, m.song, now, moved);
      assert InSession(moved, a) <==> OnSong(moved, a);
      hide Heard, Hears, MoveTo, Upsert, ScheduleFlush, Moved, Begins, StaysOn, Repeats, Again;
      if OnSong(moved, a) {
        UpsertLists(l, a, m, Some(payload), now, moved);
        ScheduledListed(c, l, a, m, now, Upsert(moved, a, m, Some(payload)));
      }
    }
  }

  lemma StaysWhenOut(l: Lobby, a: Address, song: string, now: int, l': Lobby)
    requires Moved(l, a, song, now, l')
    ensures OnSong(l', a) || !Begins(l, a, song)
  {
  }

  // ----- the sweep and the timer

  /** Seen lately, or finished with a completion pending. */
  ghost predicate StaysIn(c: Config, l: Lobby, b: Address, now: int) {
    && b in l.machines
    && (l.machines[b].lastSeenAt > now - c.machineIdleMs
        || (l.flushAt.Some?
            && (exists side :: Held(l, b, side))
            && forall side :: Held(l, b, side) ==> l.machines[b].players[side].finalPayload.Some?))
  }

  lemma QuietIs(c: Config, l: Lobby, now: int, b: Address)
    ensures b in NotQuiet(c, l.machines, l.flushAt.Some?, now) <==> StaysIn(c, l, b, now)
  {
    if b in l.machines {
      var cabinet := l.machines[b];
      assert forall side :: side in cabinet.players <==> Held(l, b, side);
    }
  }

  /** Somebody left a song that is still going on. */
  ghost predicate Thinned(c: Config, l: Lobby, now: int, l': Lobby) {
    && l'.flushAt == (if l.flushAt.Some? then Some(Due(c, l', now)) else None)
    && Says(c, l, ScreenGameplay, l')
  }

  /** The sweep takes out exactly the cabinets that do not stay, and shows the room without them unless its song is completed. */
  lemma SweepIs(c: Config, l: Lobby, now: int)
    requires Stream(c, l)
    ensures var l' := Take(c, l, IdleSweep(now));
            && (forall b :: b in l'.machines <==> StaysIn(c, l, b, now))
            && (forall b :: b in l'.machines ==> l'.machines[b] == l.machines[b])
            && l'.song == l.song && l'.completed == l.completed
            && if l'.machines == l.machines || l.completed then l'.flushAt == l.flushAt && SameStream(l, l') else Thinned(c, l, now, l')
  {
    var kept := NotQuiet(c, l.machines, l.flushAt.Some?, now);
    var left := l.(machines := kept);
    forall b {
      QuietIs(c, l, now, b);
    }
    assert forall b :: b in kept ==> kept[b] == l.machines[b];
    hide NotQuiet, StaysIn;
    TimedAndSaid(c, l, left, now);
    hide Publish, ScheduleFlush, Shows, Due, Stream;
  }

  /** Whoever has a final score stays; whoever has none leaves, if their cabinet plays the song of the lobby. */
  ghost predicate OnlyFinal(l: Lobby, l': Lobby) {
    && l'.machines.Keys == l.machines.Keys && l'.song == l.song
    && forall b :: b in l.machines ==>
         && l'.machines[b].song == l.machines[b].song && l'.machines[b].lastSeenAt == l.machines[b].lastSeenAt
         && forall side ::
              Held(l', b, side) <==> Held(l, b, side) && (OnSong(l, b) ==> l.machines[b].players[side].finalPayload.Some?)
  }

  /** Shown at play, and then on the evaluation screen. */
  ghost predicate SaysTwice(c: Config, l: Lobby, l': Lobby) {
    exists played: Lobby ::
      && SameRoom(played, l') && Says(c, l, ScreenGameplay, played) && Says(c, played, ScreenEvaluation, l')
  }

  lemma DroppedIs(l: Lobby)
    ensures OnlyFinal(l, Finished(l))
  {
    var l' := Finished(l);
    forall b | b in l.machines
      ensures forall side :: Held(l', b, side) <==> Held(l, b, side) && (OnSong(l, b) ==> l.machines[b].players[side].finalPayload.Some?)
    {
      assert Plays(l.machines[b], l.song) <==> OnSong(l, b);
    }
  }

  ghost predicate SomebodyOnSong(l: Lobby) {
    exists x: Seat :: OnSong(l, x.a) && Held(l, x.a, x.side)
  }

  lemma NobodyListed(l: Lobby)
    ensures SessionPlayers(l) == [] <==> !SomebodyOnSong(l)
  {
    var seats := SessionSeats(l);
    hide SessionPlayers;
    if SomebodyOnSong(l) {
      var x: Seat :| OnSong(l, x.a) && Held(l, x.a, x.side);
      assert x in seats;
    }
    if seats != [] {
      assert seats[0] in seats;
    }
  }

  lemma SaysBoth(c: Config, l: Lobby)
    requires Stream(c, l)
    ensures var l' := Publish(c, Publish(c, l, ScreenGameplay), ScreenEvaluation);
            SaysTwice(c, l, l') && SameRoom(l, l') && l'.completed == l.completed && l'.flushAt == l.flushAt
  {
    hide Publish, Shows;
    var played := Publish(c, l, ScreenGameplay);
    PublishSays(c, l, ScreenGameplay);
    PublishSays(c, played, ScreenEvaluation);
    var l' := Publish(c, played, ScreenEvaluation);
    assert SameRoom(played, l') && Says(c, l, ScreenGameplay, played) && Says(c, played, ScreenEvaluation, l');
  }

  /** The armed timer leaves the finished players only, and completes the song with them if there are any. */
  lemma TimerIs(c: Config, l: Lobby)
    requires Stream(c, l) && l.flushAt.Some?
    ensures var l' := Take(c, l, TimerFired);
            && OnlyFinal(l, l') && l'.flushAt.None?
            && if SomebodyOnSong(l') then l'.completed && SaysTwice(c, l, l') else l'.completed == l.completed && SameStream(l, l')
  {
    var finished := Finished(l);
    hide Flush, OnlyFinal, Finished, SaysTwice, SomebodyOnSong, Stream;
    DroppedIs(l);
    FlushedIs(c, l, finished);
    OnlyFinalAlike(l, finished, Take(c, l, TimerFired));
  }

  lemma OnlyFinalAlike(l: Lobby, finished: Lobby, l': Lobby)
    requires OnlyFinal(l, finished) && SameRoom(finished, l')
    ensures OnlyFinal(l, l')
  {
  }

  lemma FlushedIs(c: Config, l: Lobby, finished: Lobby)
    requires Stream(c, l) && finished == Finished(l)
    ensures var l' := Flush(c, l);
            && SameRoom(finished, l') && l'.flushAt.None?
            && if SomebodyOnSong(l') then l'.completed && SaysTwice(c, l, l') else l'.completed == l.completed && SameStream(l, l')
  {
    NobodyListed(finished);
    SaysBoth(c, finished.(completed := true));
    SaidAlike(c, l, finished.(completed := true), Flush(c, l));
    hide Publish, SessionPlayers, Shows, SaysTwice, Says, Stream, SomebodyOnSong;
    SomebodyAlike(finished, Flush(c, l));
    assert finished == DropUnfinished(l.(flushAt := None));
    assert finished.flushAt.None? && SameStream(l, finished) && finished.completed == l.completed;
    hide DropUnfinished;
  }

  lemma SomebodyAlike(l: Lobby, l': Lobby)
    requires SameRoom(l, l')
    ensures SomebodyOnSong(l) <==> SomebodyOnSong(l')
  {
    assert forall x: Seat :: OnSong(l, x.a) == OnSong(l', x.a) && Held(l, x.a, x.side) == Held(l', x.a, x.side);
  }

  lemma SaidAlike(c: Config, l: Lobby, before: Lobby, l': Lobby)
    requires SameStream(l, before)
    ensures SaysTwice(c, before, l') ==> SaysTwice(c, l, l')
  {
    if SaysTwice(c, before, l') {
      var played: Lobby :| SameRoom(played, l') && Says(c, before, ScreenGameplay, played) && Says(c, played, ScreenEvaluation, l');
      hide Shows;
      assert Says(c, l, ScreenGameplay, played);
    }
  }
}
