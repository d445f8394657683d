/** The lobby itself, updating its cabinets in place. */
module LegacyBridgeLobbies {
  import opened Wrappers
  import opened SyncStart
  import opened BridgeLobbies
  import Bridge = BridgeLobbies

  class Machine {
    const address: Address
    var players: Players
    var song: Option<string>
    var lastSeenAt: int

    constructor (address: Address, now: int)
      ensures this.address == address && Value() == Cabinet(map[], None, now)
    {
      this.address := address;
      players, song, lastSeenAt := map[], None, now;
    }

    function Value(): Cabinet
      reads this
    {
      Cabinet(players, song, lastSeenAt)
    }

    method DropUnfinishedPlayers()
      modifies this`players
      ensures players == FinalOnly(old(players))
    {
      var todo := players.Keys;
      while todo != {}
        invariant todo <= old(players).Keys
        invariant players.Keys <= old(players).Keys
        invariant forall side :: side in old(players) ==>
          (side in players <==> side in todo || IsFinal(old(players)[side]))
        invariant forall side :: side in players ==> players[side] == old(players)[side]
        decreases todo
      {
        var side :| side in todo;
        if players[side].finalPayload.None? {
          players := players - {side};
        }
        todo := todo - {side};
      }
    }
  }

  class LegacyBridgeLobby {
    const config: Config
    var machines: map<Address, Machine>
    var song: Option<string>
    var isCompleted: bool
    var flushTimer: Option<int>
    var current: LobbyState
    var published: Option<LobbyState>
    ghost var sent: seq<LobbyState>

    /** No two entries share a cabinet. */
    ghost predicate Valid()
      reads this, machines.Values
    {
      forall a :: a in machines ==> machines[a].address == a
    }

    function Cabinets(): map<Address, Cabinet>
      reads this, machines.Values
    {
      map a | a in machines :: machines[a].Value()
    }

    ghost function State(): Lobby
      reads this, machines.Values
    {
      Lobby(Cabinets(), song, isCompleted, flushTimer, current, published, sent)
    }

    constructor (config: Config)
      ensures Valid() && this.config == config && State() == EmptyLobby(config)
    {
      this.config := config;
      machines, song, isCompleted, flushTimer, published, sent := map[], None, false, None, None, [];
      current := LobbyState([], config.lobbyCode, None);
    }

    /** Changing one cabinet changes one entry. */
    twostate lemma OneCabinetChanged(machine: Machine)
      requires Valid() && machine in machines.Values
      requires machines == old(machines) && forall m :: m in machines.Values && m != machine ==> unchanged(m)
      ensures Cabinets() == old(Cabinets())[machine.address := machine.Value()]
    {
      forall a | a in machines && a != machine.address
        ensures machines[a].Value() == old(machines[a].Value())
      {
        assert machines[a] != machine && machines[a] in machines.Values;
      }
    }

    lemma AsManyCabinets()
      ensures |Cabinets()| == |machines| && Cabinets().Keys == machines.Keys
    {
      assert Cabinets().Keys == machines.Keys;
      assert |Cabinets()| == |Cabinets().Keys| && |machines| == |machines.Keys|;
    }

    method Join(address: Address, now: int) returns (machine: Machine)
      requires Valid() && address !in machines
      modifies this`machines
      ensures Valid() && machines == old(machines)[address := machine]
      ensures Cabinets() == old(Cabinets())[address := Cabinet(map[], None, now)]
      ensures fresh(machine)
    {
      machine := new Machine(address, now);
      machines := machines[address := machine];
    }

    method MachineFor(address: Address, now: int) returns (machine: Machine?)
      requires Valid()
      modifies this`machines, machines.Values
      ensures Valid() && State() == Heard(old(State()), address, now)
      ensures (machine != null) == Hears(old(State()), address)
      ensures machine != null ==> address in machines && machine == machines[address]
      ensures forall m :: m in machines.Values ==> m in old(machines).Values || fresh(m)
    {
      AsManyCabinets();
      if address in machines {
        machine := machines[address];
        machine.lastSeenAt := now;
        OneCabinetChanged(machine);
      } else if |machines| >= MAX_MACHINES {
        machine := null;
      } else {
        machine := Join(address, now);
      }
    }

    method Publish(screen: Screen)
      requires Valid()
      modifies this`current, this`published, this`sent
      ensures State() == Bridge.Publish(config, old(State()), screen)
    {
      var state := Snapshot(config, PlayersIn(Cabinets(), song), song, screen);
      if published != Some(state) {
        published, current, sent := Some(state), state, sent + [state];
      }
    }

    method EveryMachineMovedOn() returns (all: bool)
      requires Valid()
      ensures all == Bridge.EveryMachineMovedOn(State())
    {
      all := forall a :: a in machines ==> machines[a].song != song;
      assert forall a :: a in machines ==> Cabinets()[a].song == machines[a].song;
    }

    method ClearMachines(selected: string)
      requires Valid()
      modifies machines.Values
      ensures Valid()
      ensures Cabinets() == map a | a in old(Cabinets()) :: Cleared(old(Cabinets())[a], selected)
    {
      var todo := machines.Keys;
      while todo != {}
        invariant Valid() && todo <= machines.Keys
        invariant forall a :: a in machines ==>
          machines[a].Value() == if a in todo then old(machines[a].Value()) else Cleared(old(machines[a].Value()), selected)
        decreases todo
      {
        var a :| a in todo;
        var machine := machines[a];
        machine.players := map[];
        if machine.song != Some(selected) {
          machine.song := None;
        }
        todo := todo - {a};
      }
    }

    method BeginSession(selected: string)
      requires Valid()
      modifies this`flushTimer, this`song, this`isCompleted, machines.Values
      ensures Valid() && State() == Bridge.BeginSession(old(State()), selected)
    {
      flushTimer := None;
      ClearMachines(selected);
      song := Some(selected);
      isCompleted := false;
    }

    method MoveTo(machine: Machine, selected: string)
      requires Valid() && machine in machines.Values
      modifies this, machines.Values
      ensures Valid() && machines == old(machines)
      ensures State() == Bridge.MoveTo(old(State()), machine.address, selected)
    {
      if machine.song != Some(selected) {
        machine.players := map[];
        machine.song := Some(selected);
      }
      OneCabinetChanged(machine);
      if !(song == Some(selected) && !isCompleted) {
        var movedOn := EveryMachineMovedOn();
        if song.None? || isCompleted || movedOn {
          BeginSession(selected);
        }
      }
    }

    method Upsert(machine: Machine, message: ScoreMessage, payload: Option<string>)
      requires Valid() && machine in machines.Values
      modifies machine
      ensures Valid() && State() == Bridge.Upsert(old(State()), machine.address, message, payload)
    {
      var side := PlayerIdOf(message);
      var existing := if side in machine.players then Some(machine.players[side]) else None;
      machine.players := machine.players[side := SessionPlayer(
        side, message.playerName, message.percentage, message.isFailed, message.judgments,
        (existing.Some? && existing.value.isReady) || message.judged,
        if payload.Some? then payload else if existing.Some? then existing.value.finalPayload else None)];
      OneCabinetChanged(machine);
    }

    method ScheduleFlush(now: int)
      requires Valid()
      modifies this`flushTimer
      ensures State() == Bridge.ScheduleFlush(config, old(State()), now)
    {
      flushTimer := None;
      assert Cabinets() == old(Cabinets());
      var players := PlayersIn(Cabinets(), song);
      flushTimer := Some(now + if AllFinal(players) then config.finalGraceMs else config.finalTimeoutMs);
      assert Cabinets() == old(Cabinets());
      assert State() == old(State()).(flushAt := flushTimer);
    }

    method DropUnfinishedOn(order: seq<Address>)
      requires Valid() && forall a :: a in order ==> a in machines
      modifies machines.Values
      ensures Valid()
      ensures forall a :: a in machines ==>
        machines[a].Value() == (if a in order then Pruned(old(machines[a].Value())) else old(machines[a].Value()))
    {
      for i := 0 to |order|
        invariant Valid()
        invariant forall a :: a in machines ==>
          machines[a].Value() == (if a in order[..i] then Pruned(old(machines[a].Value())) else old(machines[a].Value()))
      {
        assert order[..i + 1] == order[..i] + [order[i]];
        assert order[i] in order;
        machines[order[i]].DropUnfinishedPlayers();
      }
      assert order[..|order|] == order;
    }

    method DropUnfinished()
      requires Valid()
      modifies machines.Values
      ensures Valid() && State() == Bridge.DropUnfinished(old(State()))
    {
      hide Ascending;
      var session := SessionAddresses(Cabinets(), song);
      DropUnfinishedOn(Ascending(session));
    }

    method Flush()
      requires Valid()
      modifies this, machines.Values
      ensures Valid() && machines == old(machines) && State() == Bridge.Flush(config, old(State()))
    {
      hide Bridge.DropUnfinished, Bridge.Publish, PlayersIn;
      flushTimer := None;
      assert State() == old(State()).(flushAt := None);
      DropUnfinished();
      if |PlayersIn(Cabinets(), song)| != 0 {
        ghost var before := State();
        isCompleted := true;
        assert State() == before.(completed := true);
        Publish(ScreenGameplay);
        Publish(ScreenEvaluation);
      }
    }

    /** Cabinets that have been quiet too long leave, except those a pending completion waits to report. */
    method EvictQuiet(now: int) returns (evicted: bool)
      requires Valid()
      modifies this`machines
      ensures Valid() && Cabinets() == NotQuiet(config, old(Cabinets()), flushTimer.Some?, now)
      ensures evicted == (Cabinets() != old(Cabinets()))
      ensures machines.Values <= old(machines).Values
    {
      evicted := false;
      var todo := machines.Keys;
      while todo != {}
        invariant Valid() && todo <= old(machines).Keys
        invariant machines.Keys <= old(machines).Keys
        invariant forall a :: a in machines ==> machines[a] == old(machines)[a]
        invariant forall a :: a in old(machines) ==>
          (a in machines <==> a in todo || !Quiet(config, old(machines[a].Value()), flushTimer.Some?, now))
        invariant evicted <==> machines.Keys != old(machines).Keys
        decreases todo
      {
        var a :| a in todo;
        if Quiet(config, machines[a].Value(), flushTimer.Some?, now) {
          machines := machines - {a};
          evicted := true;
        }
        todo := todo - {a};
      }
      assert Cabinets().Keys == machines.Keys && old(Cabinets().Keys == machines.Keys);
      if !evicted {
        assert machines == old(machines);
      }
    }

    method EvictIdleMachines(now: int)
      requires Valid()
      modifies this
      ensures Valid() && State() == EvictIdle(config, old(State()), now)
    {
      hide Bridge.ScheduleFlush, Bridge.Publish, NotQuiet;
      var evicted := EvictQuiet(now);
      if evicted && !isCompleted {
        if flushTimer.Some? {
          ScheduleFlush(now);
        }
        Publish(ScreenGameplay);
      }
    }

    method HandleSong(address: Address, selected: string, now: int)
      requires Valid()
      modifies this, machines.Values
      ensures Valid() && State() == Bridge.HandleSong(config, old(State()), address, selected, now)
    {
      hide Heard, Hears, Bridge.MoveTo, Bridge.Publish;
      if selected == "" {
        return;
      }
      var machine := MachineFor(address, now);
      if machine == null {
        return;
      }
      MoveTo(machine, selected);
      if Plays(machine.Value(), song) {
        Publish(ScreenSelectMusic);
      }
    }

    method HandleStart(address: Address, started: string, now: int)
      requires Valid()
      modifies this, machines.Values
      ensures Valid() && State() == Bridge.HandleStart(config, old(State()), address, started, now)
    {
      hide Heard, Bridge.MoveTo, Bridge.Publish;
      if started == "" {
        return;
      }
      var machine := MachineFor(address, now);
      if machine == null {
        return;
      }
      if machine.song == Some(started) && song == Some(started) && !isCompleted {
        return;
      }
      MoveTo(machine, started);
      if Plays(machine.Value(), song) {
        Publish(ScreenSelectMusic);
      }
    }

    method HandleScore(address: Address, message: ScoreMessage, now: int)
      requires Valid()
      modifies this, machines.Values
      ensures Valid() && State() == Bridge.HandleScore(config, old(State()), address, message, now)
    {
      hide Heard, Hears, Bridge.MoveTo, Bridge.Upsert, Bridge.Publish;
      var machine := MachineFor(address, now);
      if machine == null {
        return;
      }
      MoveTo(machine, message.song);
      if Plays(machine.Value(), song) {
        Upsert(machine, message, None);
        Publish(ScreenGameplay);
      }
    }

    method DiscardEphemeral(machine: Machine, message: ScoreMessage, now: int)
      requires Valid() && machine in machines.Values
      modifies this, machine
      ensures Valid() && State() == Bridge.DiscardEphemeral(config, old(State()), machine.address, message, now)
    {
      hide Bridge.ScheduleFlush, Bridge.Publish;
      if Plays(machine.Value(), song) && machine.song == Some(message.song) && PlayerIdOf(message) in machine.players {
        machine.players := machine.players - {PlayerIdOf(message)};
        OneCabinetChanged(machine);
        if flushTimer.Some? {
          ScheduleFlush(now);
        }
        Publish(ScreenGameplay);
      }
    }

    method HandleFinalScore(address: Address, message: ScoreMessage, payload: string, now: int)
      requires Valid()
      modifies this, machines.Values
      ensures Valid() && State() == Bridge.HandleFinalScore(config, old(State()), address, message, payload, now)
    {
      hide Heard, Hears, Bridge.MoveTo, Bridge.Upsert, Bridge.ScheduleFlush, Bridge.DiscardEphemeral, IsEphemeral, Repeats;
      var machine := MachineFor(address, now);
      if machine == null {
        return;
      }
      if IsEphemeral(message) {
        DiscardEphemeral(machine, message, now);
        return;
      }
      if Repeats(machine.Value(), message, payload) {
        return;
      }
      MoveTo(machine, message.song);
      if Plays(machine.Value(), song) {
        Upsert(machine, message, Some(payload));
        ScheduleFlush(now);
      }
    }

    /** Forgets the deadline and changes nothing else. */
    method Close()
      requires Valid()
      modifies this`flushTimer
      ensures State() == old(State()).(flushAt := None)
    {
      flushTimer := None;
    }
  }
}
