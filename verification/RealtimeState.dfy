/** The projection of one tournament, updated event by event. */
module RealtimeStates {
  import opened Wrappers
  import opened RealtimeEvents
  import opened RealtimeMessages
  import opened RealtimeProjections
  import Spec = RealtimeProjections

  method DeleteOf(messages: Messages, lobbyId: string) returns (kept: Messages)
    ensures kept == Without(messages, lobbyId)
  {
    kept := [];
    for i := 0 to |messages|
      invariant kept == Without(messages[..i], lobbyId)
    {
      assert messages[..i + 1][..i] == messages[..i];
      if !About(messages[i].message, lobbyId) {
        kept := kept + [messages[i]];
      }
    }
    assert messages[..|messages|] == messages;
  }

  class TournamentRealtimeState {
    const tournamentId: int
    var snapshots: map<Path, Messages>
    var liveMatches: map<string, LiveMatch>
    var lastSequence: int

    ghost function State(): Projection
      reads this
    {
      Projection(snapshots, liveMatches, lastSequence)
    }

    constructor (tournamentId: int)
      ensures this.tournamentId == tournamentId && State() == FRESH
    {
      this.tournamentId := tournamentId;
      snapshots, liveMatches, lastSequence := map[], map[], 0;
    }

    method RemoveLobby(lobbyId: string)
      modifies this`snapshots, this`liveMatches
      ensures State() == Spec.RemoveLobby(old(State()), lobbyId)
    {
      liveMatches := liveMatches - {lobbyId};
      var todo := snapshots.Keys;
      while todo != {}
        invariant todo <= snapshots.Keys == old(snapshots).Keys && liveMatches == old(liveMatches) - {lobbyId}
        invariant forall path :: path in snapshots ==>
          snapshots[path] == if path in todo then old(snapshots)[path] else Without(old(snapshots)[path], lobbyId)
        decreases todo
      {
        var path :| path in todo;
        var kept := DeleteOf(snapshots[path], lobbyId);
        snapshots := snapshots[path := kept];
        todo := todo - {path};
      }
      assert snapshots == Spec.RemoveLobby(old(State()), lobbyId).snapshots;
    }

    method Cache(path: Path, message: Message)
      modifies this`snapshots
      ensures State() == Spec.Cache(old(State()), path, message)
    {
      if message.SequenceOnly? {
        return;
      }
      var messages := if path in snapshots then snapshots[path] else [];
      messages := Put(messages, MessageIdentity(message.event, message.data), message);
      snapshots := snapshots[path := messages];
    }

    method ShowOn(event: LiveEvent, path: Path) returns (message: Message)
      modifies this`snapshots, this`liveMatches
      ensures message == MessageFor(old(State()), event, path)
      ensures State() == Spec.ShowOn(old(State()), event, path)
    {
      var lobbyId := event.payload.lobbyId;
      var previous := if Present(lobbyId) && lobbyId.value in liveMatches then Some(liveMatches[lobbyId.value]) else None;
      message := MapRealtimeEvent(event, lastSequence, path, previous);
      Cache(path, message);
      if path == LiveMatchGateway && Present(lobbyId) && message.Message? {
        liveMatches := liveMatches[lobbyId.value := message.data.state];
      }
    }

    /** An event of another tournament is refused and changes nothing. */
    method Apply(event: LiveEvent) returns (routed: Result<seq<Routed>, ApplyError>)
      modifies this
      ensures routed.Ok? <==> event.tournamentId == tournamentId
      ensures routed.Err? ==> State() == old(State()) && routed.error == WrongTournament(event.tournamentId, tournamentId)
      ensures routed.Ok? ==>
        && State() == Spec.Apply(old(State()), event)
        && routed.value == RoutedFrom(Prepared(old(State()), event), event, PATHS)
    {
      if event.tournamentId != tournamentId {
        return Err(WrongTournament(event.tournamentId, tournamentId));
      }
      lastSequence := if event.sequence.Some? then event.sequence.value else lastSequence + 1;
      var lobbyId := event.payload.lobbyId;
      if event.kind.LobbyDisconnected? && Present(lobbyId) && !event.payload.isActive {
        RemoveLobby(lobbyId.value);
      }
      hide Spec.ShowOn, MessageFor;
      ghost var prepared := State();
      assert prepared == Prepared(old(State()), event);
      var all := [];
      for i := 0 to |PATHS|
        invariant State() == ShowFrom(prepared, event, PATHS[..i])
        invariant all == RoutedFrom(prepared, event, PATHS[..i])
      {
        assert PATHS[..i + 1][..i] == PATHS[..i];
        var message := ShowOn(event, PATHS[i]);
        all := all + [Routed(PATHS[i], message)];
      }
      assert PATHS[..|PATHS|] == PATHS;
      routed := Ok(all);
    }

    method Snapshot(path: Path) returns (sequence: int, messages: Messages)
      ensures sequence == State().lastSequence && messages == SnapshotOf(State(), path)
    {
      sequence := lastSequence;
      messages := if path in snapshots then snapshots[path] else [];
    }
  }
}
