/**
 * What every step of the bridge keeps: a datagram of any kind, the flush timer
 * firing, the sweep for idle cabinets, the shutdown.
 */
module BridgeInvariants {
  import opened Wrappers
  import opened Sequences
  import opened SyncStart
  import opened BridgeLobbies

  datatype Step =
    | SongChosen(from: Address, song: string, now: int)
    | Started(from: Address, song: string, now: int)
    | Scored(from: Address, message: ScoreMessage, now: int)
    | FinalScored(from: Address, message: ScoreMessage, payload: string, now: int)
    | IdleSweep(now: int)
    | TimerFired
    | Closed

  /** The timer can fire whenever it is armed; nothing happens when it is not. */
  function Take(c: Config, l: Lobby, step: Step): Lobby {
    match step
    case SongChosen(a, song, now) => HandleSong(c, l, a, song, now)
    case Started(a, song, now) => HandleStart(c, l, a, song, now)
    case Scored(a, m, now) => HandleScore(c, l, a, m, now)
    case FinalScored(a, m, payload, now) => HandleFinalScore(c, l, a, m, payload, now)
    case IdleSweep(now) => EvictIdle(c, l, now)
    case TimerFired => if l.flushAt.Some? then Flush(c, l) else l
    case Closed => l.(flushAt := None)
  }

  function Run(c: Config, steps: seq<Step>): Lobby {
    if steps == [] then EmptyLobby(c) else Take(c, Run(c, steps[..|steps| - 1]), steps[|steps| - 1])
  }

  // ----- the players of a session

  lemma {:induction false} PlayersOnContents(machines: map<Address, Cabinet>, order: seq<Address>, p: SessionPlayer)
    requires forall a :: a in order ==> a in machines
    ensures p in PlayersOn(machines, order) <==> exists a :: a in order && p in machines[a].players.Values
  {
    if order != [] {
      PlayersOnContents(machines, order[1..], p);
      assert p in Sides(machines[order[0]].players) <==> p in machines[order[0]].players.Values by {
        if p in machines[order[0]].players.Values {
          var side :| side in machines[order[0]].players && machines[order[0]].players[side] == p;
          assert side == P1 || side == P2;
        }
      }
      assert forall a :: a in order <==> a == order[0] || a in order[1..];
    }
  }

  ghost predicate Holds(l: Lobby, a: Address, p: SessionPlayer) {
    InSession(l, a) && p in l.machines[a].players.Values
  }

  /** The session players are those on the cabinets playing the song of the lobby. */
  lemma SessionPlayersContents(l: Lobby, p: SessionPlayer)
    ensures p in SessionPlayers(l) <==> exists a :: Holds(l, a, p)
  {
    var order := Ascending(SessionAddresses(l.machines, l.song));
    PlayersOnContents(l.machines, order, p);
    if p in SessionPlayers(l) {
      var a :| a in order && p in l.machines[a].players.Values;
      assert Holds(l, a, p);
    }
    if a :| Holds(l, a, p) {
      assert a in order;
    }
  }

  lemma {:induction false} FinalOnlyFilters(machines: map<Address, Cabinet>, pruned: map<Address, Cabinet>, order: seq<Address>)
    requires forall a :: a in order ==> a in machines && a in pruned && pruned[a].players == FinalOnly(machines[a].players)
    ensures PlayersOn(pruned, order) == Filter(PlayersOn(machines, order), IsFinal)
  {
    if order != [] {
      FinalOnlyFilters(machines, pruned, order[1..]);
      FilterAppend(Sides(machines[order[0]].players), PlayersOn(machines, order[1..]), IsFinal);
      SidesFilter(machines[order[0]].players);
    }
  }

  lemma SidesFilter(players: Players)
    ensures Sides(FinalOnly(players)) == Filter(Sides(players), IsFinal)
  {
    var one := if P1 in players then [players[P1]] else [];
    var two := if P2 in players then [players[P2]] else [];
    FilterAppend(one, two, IsFinal);
    assert Filter(one, IsFinal) == if P1 in players && IsFinal(players[P1]) then [players[P1]] else [];
    assert Filter(two, IsFinal) == if P2 in players && IsFinal(players[P2]) then [players[P2]] else [];
  }

  /** A completion keeps exactly the finished players of the session, in their order. */
  lemma DropUnfinishedFilters(l: Lobby)
    ensures SessionPlayers(DropUnfinished(l)) == Filter(SessionPlayers(l), IsFinal)
    ensures AllFinal(SessionPlayers(DropUnfinished(l)))
  {
    var session := SessionAddresses(l.machines, l.song);
    var pruned := DropUnfinished(l);
    assert SessionAddresses(pruned.machines, pruned.song) == session;
    FinalOnlyFilters(l.machines, pruned.machines, Ascending(session));
    FilterContents(SessionPlayers(l), IsFinal);
  }

  // ----- the room

  /** Players only on cabinets in session; a completed song has no pending timer and only finished players. */
  ghost predicate Room(l: Lobby) {
    && |l.machines| <= MAX_MACHINES
    && (forall a :: a in l.machines && l.machines[a].players != map[] ==> InSession(l, a))
    && (l.completed ==> l.flushAt.None?)
    && (l.completed ==> forall a :: a in l.machines ==> FinalOnly(l.machines[a].players) == l.machines[a].players)
  }

  /** Snapshots never repeat, and the current state is the last one sent. */
  ghost predicate Stream(c: Config, l: Lobby) {
    && (forall i, j :: 0 <= i < j < |l.sent| && j == i + 1 ==> l.sent[i] != l.sent[j])
    && l.published == (if l.sent == [] then None else Some(l.sent[|l.sent| - 1]))
    && l.current == (if l.sent == [] then LobbyState([], c.lobbyCode, None) else l.sent[|l.sent| - 1])
  }

  /** Two lobbies that differ in nothing a listener could know. */
  ghost predicate SameStream(l: Lobby, l': Lobby) {
    l.current == l'.current && l.published == l'.published && l.sent == l'.sent
  }

  lemma PublishKeepsStream(c: Config, l: Lobby, screen: Screen)
    requires Stream(c, l)
    ensures Stream(c, Publish(c, l, screen))
  {
  }

  lemma HeardKeepsRoom(l: Lobby, a: Address, now: int)
    requires Room(l)
    ensures Room(Heard(l, a, now)) && SameStream(l, Heard(l, a, now))
  {
    var heard := Heard(l, a, now);
    if a in l.machines {
      assert heard.machines.Keys == l.machines.Keys;
    } else if Hears(l, a) {
      assert heard.machines.Keys == l.machines.Keys + {a};
    }
    assert |l.machines| == |l.machines.Keys| && |heard.machines| == |heard.machines.Keys|;
  }

  lemma SameSize(m: map<Address, Cabinet>, m': map<Address, Cabinet>)
    requires m.Keys == m'.Keys
    ensures |m| == |m'|
  {
    assert |m| == |m.Keys| && |m'| == |m'.Keys|;
  }

  lemma MoveToKeepsRoom(l: Lobby, a: Address, song: string)
    requires Room(l) && a in l.machines
    ensures var l' := MoveTo(l, a, song); Room(l') && SameStream(l, l') && a in l'.machines && !l'.completed
  {
    SameSize(l.machines, MoveTo(l, a, song).machines);
  }

  lemma UpsertKeepsRoom(l: Lobby, a: Address, m: ScoreMessage, payload: Option<string>)
    requires Room(l) && InSession(l, a) && !l.completed
    ensures var l' := Upsert(l, a, m, payload); Room(l') && SameStream(l, l') && !l'.completed
  {
    SameSize(l.machines, Upsert(l, a, m, payload).machines);
  }

  lemma EvictionKeepsRoom(c: Config, l: Lobby, now: int)
    requires Room(l)
    ensures Room(l.(machines := NotQuiet(c, l.machines, l.flushAt.Some?, now)))
  {
    var kept := NotQuiet(c, l.machines, l.flushAt.Some?, now);
    assert kept.Keys <= l.machines.Keys;
    FewerKeys(kept.Keys, l.machines.Keys);
    assert |kept| == |kept.Keys| && |l.machines| == |l.machines.Keys|;
  }

  lemma {:induction false} FewerKeys(s: set<Address>, t: set<Address>)
    requires s <= t
    ensures |s| <= |t|
  {
    if s != {} {
      var a :| a in s;
      FewerKeys(s - {a}, t - {a});
    }
  }

  lemma DiscardKeepsRoom(l: Lobby, a: Address, side: PlayerId)
    requires Room(l) && a in l.machines && side in l.machines[a].players
    ensures var cabinet := l.machines[a]; Room(Put(l, a, cabinet.(players := cabinet.players - {side})))
  {
    var cabinet := l.machines[a];
    var l' := Put(l, a, cabinet.(players := cabinet.players - {side}));
    SameSize(l.machines, l'.machines);
    if l.completed {
      assert FinalOnly(cabinet.players) == cabinet.players;
      assert forall s :: s in l'.machines[a].players ==> s in FinalOnly(cabinet.players);
      assert FinalOnly(l'.machines[a].players) == l'.machines[a].players;
    }
  }

  /** The lobby said nothing, or what a player on the evaluation screen has no part in. */
  ghost predicate Speaks(c: Config, l: Lobby, before: Lobby, screen: Screen, after: Lobby) {
    && SameStream(l, before)
    && (screen == ScreenSelectMusic || screen == ScreenGameplay)
    && (after == before || after == Publish(c, before, screen))
  }

  predicate Fires(l: Lobby, step: Step) {
    step.TimerFired? && l.flushAt.Some?
  }

  /** Unless the timer fires, a step changes the room and then publishes at most one snapshot of a room at play. */
  lemma QuietStep(c: Config, l: Lobby, step: Step) returns (before: Lobby, screen: Screen)
    requires Room(l) && !Fires(l, step)
    ensures Room(before) && Speaks(c, l, before, screen, Take(c, l, step))
  {
    hide Room, MoveTo, Heard, Hears, Upsert, Publish, NotQuiet, AllFinal;
    screen := ScreenGameplay;
    match step
    case SongChosen(a, song, now) =>
      HeardKeepsRoom(l, a, now);
      before := l;
      if song != "" && Hears(l, a) {
        MoveToKeepsRoom(Heard(l, a, now), a, song);
        before, screen := MoveTo(Heard(l, a, now), a, song), ScreenSelectMusic;
      }
    case Started(a, song, now) =>
      HeardKeepsRoom(l, a, now);
      before := l;
      if song != "" && Hears(l, a) {
        before := StartedQuietly(c, l, a, song, now);
        screen := ScreenSelectMusic;
      }
    case Scored(a, m, now) =>
      before := ScoredQuietly(c, l, a, m, now);
    case FinalScored(a, m, payload, now) =>
      before := FinalScoredQuietly(c, l, a, m, payload, now);
    case IdleSweep(now) =>
      EvictionKeepsRoom(c, l, now);
      before := l.(machines := NotQuiet(c, l.machines, l.flushAt.Some?, now));
      if l.flushAt.Some? && !l.completed && before.machines != l.machines {
        before := ScheduledQuietly(c, before, now);
      }
    case TimerFired =>
      before := l;
    case Closed =>
      before := l.(flushAt := None);
      DisarmedQuietly(l);
  }

  lemma DisarmedQuietly(l: Lobby)
    requires Room(l)
    ensures Room(l.(flushAt := None))
  {
  }

  lemma ScheduledQuietly(c: Config, l: Lobby, now: int) returns (after: Lobby)
    requires Room(l) && !l.completed
    ensures after == ScheduleFlush(c, l, now) && Room(after) && SameStream(l, after)
  {
    after := ScheduleFlush(c, l, now);
  }

  lemma StartedQuietly(c: Config, l: Lobby, a: Address, song: string, now: int) returns (before: Lobby)
    requires Room(l) && song != "" && Hears(l, a)
    ensures Room(before) && Speaks(c, l, before, ScreenSelectMusic, HandleStart(c, l, a, song, now))
  {
    hide Room, MoveTo, Heard, Hears, Publish;
    HeardKeepsRoom(l, a, now);
    before := Heard(l, a, now);
    if !(before.machines[a].song == Some(song) && l.song == Some(song) && !l.completed) {
      MoveToKeepsRoom(before, a, song);
      before := MoveTo(before, a, song);
    }
  }

  lemma ScoredQuietly(c: Config, l: Lobby, a: Address, m: ScoreMessage, now: int) returns (before: Lobby)
    requires Room(l)
    ensures Room(before) && Speaks(c, l, before, ScreenGameplay, HandleScore(c, l, a, m, now))
  {
    hide Room, MoveTo, Heard, Hears, Upsert, Publish;
    before := l;
    if Hears(l, a) {
      HeardKeepsRoom(l, a, now);
      MoveToKeepsRoom(Heard(l, a, now), a, m.song);
      before := MoveTo(Heard(l, a, now), a, m.song);
      if InSession(before, a) {
        UpsertKeepsRoom(before, a, m, None);
        before := Upsert(before, a, m, None);
      }
    }
  }

  lemma FinalScoredQuietly(c: Config, l: Lobby, a: Address, m: ScoreMessage, payload: string, now: int) returns (before: Lobby)
    requires Room(l)
    ensures Room(before) && Speaks(c, l, before, ScreenGameplay, HandleFinalScore(c, l, a, m, payload, now))
  {
    hide Room, MoveTo, Heard, Hears, Upsert, Publish, ScheduleFlush, IsEphemeral, Repeats, DiscardEphemeral;
    before := l;
    if Hears(l, a) {
      HeardKeepsRoom(l, a, now);
      var heard := Heard(l, a, now);
      if IsEphemeral(m) {
        before := DiscardedQuietly(c, heard, a, m, now);
      } else if Repeats(heard.machines[a], m, payload) {
        before := heard;
      } else {
        MoveToKeepsRoom(heard, a, m.song);
        before := MoveTo(heard, a, m.song);
        if InSession(before, a) {
          UpsertKeepsRoom(before, a, m, Some(payload));
          before := ScheduledQuietly(c, Upsert(before, a, m, Some(payload)), now);
        }
      }
    }
  }

  lemma DiscardedQuietly(c: Config, l: Lobby, a: Address, m: ScoreMessage, now: int) returns (before: Lobby)
    requires Room(l) && a in l.machines
    ensures Room(before) && Speaks(c, l, before, ScreenGameplay, DiscardEphemeral(c, l, a, m, now))
  {
    hide Room, Publish;
    before := l;
    var cabinet := l.machines[a];
    if InSession(l, a) && cabinet.song == Some(m.song) && PlayerIdOf(m) in cabinet.players {
      DiscardKeepsRoom(l, a, PlayerIdOf(m));
      before := Put(l, a, cabinet.(players := cabinet.players - {PlayerIdOf(m)}));
      if l.flushAt.Some? {
        CompletedIsDisarmed(l);
        before := ScheduledQuietly(c, before, now);
      }
    }
  }

  lemma CompletedIsDisarmed(l: Lobby)
    requires Room(l)
    ensures l.completed ==> l.flushAt.None?
  {
  }

  /** The lobby the two snapshots of a completion show. */
  function Finished(l: Lobby): Lobby {
    DropUnfinished(l.(flushAt := None))
  }

  lemma FinishedRoom(l: Lobby)
    requires Room(l)
    ensures Room(Finished(l)) && Room(Finished(l).(completed := true)) && SameStream(l, Finished(l))
  {
    var l' := Finished(l);
    SameSize(l.machines, l'.machines);
    forall a | a in l.machines && l.machines[a].players != map[]
      ensures FinalOnly(l'.machines[a].players) == l'.machines[a].players
    {
      assert InSession(l, a);
    }
  }

  lemma RoomAfterPublishing(c: Config, l: Lobby, screen: Screen)
    requires Room(l)
    ensures Room(Publish(c, l, screen))
  {
  }

  lemma FireKeeps(c: Config, l: Lobby)
    requires Room(l) && Stream(c, l)
    ensures Room(Flush(c, l)) && Stream(c, Flush(c, l))
  {
    hide Room, Publish, DropUnfinished, SessionPlayers;
    FinishedRoom(l);
    var finished := Finished(l).(completed := true);
    var played := Publish(c, finished, ScreenGameplay);
    RoomAfterPublishing(c, finished, ScreenGameplay);
    RoomAfterPublishing(c, played, ScreenEvaluation);
    PublishKeepsStream(c, finished, ScreenGameplay);
    PublishKeepsStream(c, played, ScreenEvaluation);
  }

  lemma SpokenKeeps(c: Config, l: Lobby, before: Lobby, screen: Screen, after: Lobby)
    requires Stream(c, l) && Room(before) && Speaks(c, l, before, screen, after)
    ensures Room(after) && Stream(c, after)
  {
    RoomAfterPublishing(c, before, screen);
    PublishKeepsStream(c, before, screen);
    hide Room, Publish;
  }

  lemma StepKeeps(c: Config, l: Lobby, step: Step)
    requires Room(l) && Stream(c, l)
    ensures Room(Take(c, l, step)) && Stream(c, Take(c, l, step))
  {
    if Fires(l, step) {
      hide Room, Stream, Flush;
      FireKeeps(c, l);
      assert Take(c, l, step) == Flush(c, l);
    } else {
      hide Room, Stream, Take, Speaks;
      var before, screen := QuietStep(c, l, step);
      SpokenKeeps(c, l, before, screen, Take(c, l, step));
    }
  }

  lemma {:induction false} RunKeeps(c: Config, steps: seq<Step>)
    ensures Room(Run(c, steps)) && Stream(c, Run(c, steps))
  {
    if steps != [] {
      RunKeeps(c, steps[..|steps| - 1]);
      hide Room, Stream, Take;
      StepKeeps(c, Run(c, steps[..|steps| - 1]), steps[|steps| - 1]);
    }
  }

  /**
   * In every run: at most four cabinets, players only on cabinets that are on
   * the song of the lobby, a completed song with no pending timer and only
   * finished players, and a stream that never repeats and ends in the current
   * state.
   */
  lemma EveryRun(c: Config, steps: seq<Step>)
    ensures var l := Run(c, steps);
            && |l.machines| <= 4
            && (forall a :: a in l.machines && l.machines[a].players != map[] ==> l.machines[a].song == l.song)
            && (l.completed ==> l.flushAt.None? && AllFinal(SessionPlayers(l)))
            && (forall i :: 0 <= i < |l.sent| - 1 ==> l.sent[i] != l.sent[i + 1])
            && l.current == (if l.sent == [] then LobbyState([], c.lobbyCode, None) else l.sent[|l.sent| - 1])
  {
    RunKeeps(c, steps);
    var l := Run(c, steps);
    forall i | l.completed && 0 <= i < |SessionPlayers(l)|
      ensures IsFinal(SessionPlayers(l)[i])
    {
      var p := SessionPlayers(l)[i];
      SessionPlayersContents(l, p);
      var a :| Holds(l, a, p);
      assert p in FinalOnly(l.machines[a].players).Values;
    }
  }

  // ----- straying cabinets and repeated datagrams

  /** Somebody else is still on the unfinished song of the lobby, and nobody else noticed. */
  ghost predicate LeftOut(l: Lobby, a: Address, l': Lobby) {
    && a in l'.machines && l.song.Some? && l'.song == l.song && l'.flushAt == l.flushAt
    && (exists b :: b != a && InSession(l', b))
    && l'.machines == l.machines[a := l'.machines[a]]
  }

  /**
   * After a move the cabinet plays what the lobby plays, or it does not and
   * every other cabinet, the song and the deadline are what they were. Either
   * way the lobby is on an unfinished song and nothing was published.
   */
  lemma StrayingCabinet(l: Lobby, a: Address, song: string)
    requires a in l.machines
    ensures var l' := MoveTo(l, a, song);
            && a in l'.machines && l'.machines[a].song == Some(song)
            && (InSession(l', a) || LeftOut(l, a, l'))
            && !l'.completed && SameStream(l, l')
  {
    var l' := MoveTo(l, a, song);
    if !InSession(l', a) {
      var b :| b in l'.machines && l'.machines[b].song == l'.song;
      assert b != a && InSession(l', b);
      assert l'.machines == l.machines[a := l'.machines[a]];
    }
  }

  /** The cabinet a datagram came from. */
  function Sender(step: Step): Option<Address> {
    match step
    case SongChosen(a, _, _) => Some(a)
    case Started(a, _, _) => Some(a)
    case Scored(a, _, _) => Some(a)
    case FinalScored(a, _, _, _) => Some(a)
    case _ => None
  }

  /** Nobody but the one cabinet changed, and nobody heard of it. */
  ghost predicate Undisturbed(l: Lobby, a: Address, l': Lobby) {
    && SameStream(l, l') && l'.song == l.song && l'.flushAt == l.flushAt && l'.completed == l.completed
    && forall b :: b != a ==> (b in l'.machines <==> b in l.machines) && (b in l.machines ==> l'.machines[b] == l.machines[b])
  }

  lemma MovedOut(l: Lobby, a: Address, song: string, now: int)
    requires Hears(l, a) && !InSession(MoveTo(Heard(l, a, now), a, song), a)
    ensures Undisturbed(l, a, MoveTo(Heard(l, a, now), a, song))
  {
    StrayingCabinet(Heard(l, a, now), a, song);
  }

  lemma HeardUndisturbed(l: Lobby, a: Address, now: int)
    ensures Undisturbed(l, a, Heard(l, a, now))
  {
  }

  lemma PublishSameRoom(c: Config, l: Lobby, screen: Screen, a: Address)
    ensures InSession(Publish(c, l, screen), a) == InSession(l, a)
  {
  }

  /** Whatever a cabinet sends, if it is not in the session afterwards, the room goes on as if it had not been heard. */
  lemma StrayingSaysNothing(c: Config, l: Lobby, step: Step, a: Address)
    requires Sender(step) == Some(a) && !InSession(Take(c, l, step), a)
    ensures Undisturbed(l, a, Take(c, l, step))
  {
    if Hears(l, a) {
      var now := step.now;
      var heard := Heard(l, a, now);
      HeardUndisturbed(l, a, now);
      match step
      case SongChosen(_, song, _) =>
        var moved := MoveTo(heard, a, song);
        PublishSameRoom(c, moved, ScreenSelectMusic, a);
        if song != "" {
          hide MoveTo, Heard, Publish, Undisturbed, Hears;
          MovedOut(l, a, song, now);
        }
      case Started(_, song, _) =>
        var moved := MoveTo(heard, a, song);
        PublishSameRoom(c, moved, ScreenSelectMusic, a);
        if song != "" && !(heard.machines[a].song == Some(song) && l.song == Some(song) && !l.completed) {
          hide MoveTo, Heard, Publish, Undisturbed, Hears;
          MovedOut(l, a, song, now);
        }
      case Scored(_, m, _) =>
        var moved := MoveTo(heard, a, m.song);
        PublishSameRoom(c, Upsert(moved, a, m, None), ScreenGameplay, a);
        hide MoveTo, Heard, Publish, Undisturbed, Hears;
        MovedOut(l, a, m.song, now);
      case FinalScored(_, m, payload, _) =>
        FinalSaysNothing(c, l, a, m, payload, now);
    } else {
      HeardUndisturbed(l, a, step.now);
    }
  }

  lemma FinalSaysNothing(c: Config, l: Lobby, a: Address, m: ScoreMessage, payload: string, now: int)
    requires Hears(l, a) && !InSession(HandleFinalScore(c, l, a, m, payload, now), a)
    ensures Undisturbed(l, a, HandleFinalScore(c, l, a, m, payload, now))
  {
    var heard := Heard(l, a, now);
    HeardUndisturbed(l, a, now);
    if !IsEphemeral(m) && !Repeats(heard.machines[a], m, payload) {
      hide Heard, Undisturbed, Hears, MoveTo, Repeats;
      MovedOut(l, a, m.song, now);
    }
  }

  /** A cabinet left out of the session stays left out by announcing its song again. */
  lemma StillLeftOut(l: Lobby, a: Address, song: string, now: int)
    requires a in l.machines
    ensures var once := MoveTo(l, a, song);
            !InSession(once, a) ==> MoveTo(Heard(once, a, now), a, song) == Heard(once, a, now)
  {
    StrayingCabinet(l, a, song);
    var once := MoveTo(l, a, song);
    if !InSession(once, a) {
      var b :| b != a && InSession(once, b);
      var again := Heard(once, a, now);
      assert again.machines[b].song == again.song;
      assert Put(again, a, Onto(again.machines[a], song)).machines == again.machines;
    }
  }

  lemma DiscardedTwice(c: Config, l: Lobby, a: Address, m: ScoreMessage, now: int, later: int)
    requires a in l.machines
    ensures var once := DiscardEphemeral(c, l, a, m, now);
            a in once.machines && DiscardEphemeral(c, Heard(once, a, later), a, m, later) == Heard(once, a, later)
  {
  }

  lemma ReportedTwice(c: Config, l: Lobby, a: Address, m: ScoreMessage, payload: string, now: int)
    requires a in l.machines
    ensures var once := ScheduleFlush(c, Upsert(l, a, m, Some(payload)), now);
            a in once.machines && (l.machines[a].song == Some(m.song) ==> Repeats(once.machines[a], m, payload))
  {
  }

  lemma StillRepeats(l: Lobby, a: Address, m: ScoreMessage, payload: string, later: int)
    requires a in l.machines
    ensures a in Heard(l, a, later).machines
    ensures Repeats(Heard(l, a, later).machines[a], m, payload) == Repeats(l.machines[a], m, payload)
  {
  }

  /**
   * The same final-score datagram a second time is only heard: beyond the time
   * the cabinet was last seen it changes nothing, published or not.
   */
  lemma RepeatedFinalScore(c: Config, l: Lobby, a: Address, m: ScoreMessage, payload: string, now: int, later: int, once: Lobby)
    requires once == HandleFinalScore(c, l, a, m, payload, now)
    ensures HandleFinalScore(c, once, a, m, payload, later) == Heard(once, a, later)
    ensures a in once.machines || !Hears(once, a)
  {
    if Hears(l, a) {
      var heard := Heard(l, a, now);
      if IsEphemeral(m) {
        DiscardedTwice(c, heard, a, m, now, later);
        hide Heard, DiscardEphemeral;
      } else if Repeats(heard.machines[a], m, payload) {
        StillRepeats(heard, a, m, payload, later);
        hide Heard, Repeats;
      } else {
        StrayingCabinet(heard, a, m.song);
        StillLeftOut(heard, a, m.song, later);
        var moved := MoveTo(heard, a, m.song);
        ReportedTwice(c, moved, a, m, payload, now);
        StillRepeats(once, a, m, payload, later);
        StrayingOnceMore(heard, a, m.song, later);
        hide Heard, Repeats, MoveTo, Upsert, ScheduleFlush, LeftOut;
      }
    }
  }

  lemma StrayingOnceMore(l: Lobby, a: Address, song: string, later: int)
    requires a in l.machines
    ensures var once := MoveTo(l, a, song);
            a in once.machines && a in Heard(once, a, later).machines && (InSession(Heard(once, a, later), a) <==> InSession(once, a))
  {
    StrayingCabinet(l, a, song);
  }

  /** Being heard changes nothing but the time a cabinet was last seen. */
  lemma HeardOnlySeen(l: Lobby, a: Address, now: int)
    requires a in l.machines || !Hears(l, a)
    ensures var l' := Heard(l, a, now);
            && l' == l.(machines := l'.machines) && l'.machines.Keys == l.machines.Keys
            && SessionPlayers(l') == SessionPlayers(l)
            && forall b :: b in l.machines ==> l'.machines[b] == l.machines[b].(lastSeenAt := l'.machines[b].lastSeenAt)
  {
    var l' := Heard(l, a, now);
    var session := SessionAddresses(l.machines, l.song);
    assert SessionAddresses(l'.machines, l'.song) == session;
    SamePlayersOn(l.machines, l'.machines, Ascending(session));
  }

  lemma {:induction false} SamePlayersOn(machines: map<Address, Cabinet>, machines': map<Address, Cabinet>, order: seq<Address>)
    requires forall a :: a in order ==> a in machines && a in machines' && machines[a].players == machines'[a].players
    ensures PlayersOn(machines, order) == PlayersOn(machines', order)
  {
    if order != [] {
      SamePlayersOn(machines, machines', order[1..]);
    }
  }

  // ----- the sweep for idle cabinets

  /**
   * The sweep spares every cabinet heard of lately, and while a completion is
   * pending every cabinet that has finished, so its result is still reported.
   * A pending completion stays pending, and a completed song is not published
   * again.
   */
  lemma SweepSpares(c: Config, l: Lobby, a: Address, now: int)
    requires a in l.machines
    requires l.machines[a].lastSeenAt > now - c.machineIdleMs || (l.flushAt.Some? && HasFinished(l.machines[a]))
    ensures var l' := EvictIdle(c, l, now);
            && a in l'.machines && l'.machines[a] == l.machines[a] && l'.song == l.song
            && (l'.flushAt.Some? <==> l.flushAt.Some?)
            && (l.completed ==> SameStream(l, l'))
            && forall p :: p in l.machines[a].players.Values && InSession(l, a) ==> p in SessionPlayers(l')
  {
    var l' := EvictIdle(c, l, now);
    assert l'.machines[a] == l.machines[a] && l'.song == l.song;
    hide EvictIdle;
    forall p | p in l.machines[a].players.Values && InSession(l, a)
      ensures p in SessionPlayers(l')
    {
      SessionPlayersContents(l', p);
      assert Holds(l', a, p);
    }
  }
}
