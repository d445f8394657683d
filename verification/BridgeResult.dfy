/**
 * From the score datagrams to the tournament: the results an interpreter
 * announces for a song are those of the last scores the cabinets sent.
 */
module BridgeResults {
  import opened Wrappers
  import opened Sequences
  import opened SyncStart
  import opened LobbyStateInterpreters
  import opened InterpreterTraces
  import opened InterpreterReadings
  import opened BridgeLobbies
  import opened BridgeInvariants
  import opened BridgeReports
  import opened BridgeRooms
  import opened BridgeCompletions

  /** The player of the seat is in the session and has sent a final score. */
  predicate IsDone(l: Lobby, x: Seat) {
    OnSong(l, x.a) && Held(l, x.a, x.side) && l.machines[x.a].players[x.side].finalPayload.Some?
  }

  /** The seats of the finished players, cabinet by cabinet and side by side, each once. */
  ghost predicate Done(l: Lobby, seats: seq<Seat>) {
    InOrder(seats) && forall x :: x in seats <==> IsDone(l, x)
  }

  /** The result is what the last report of the side said. */
  ghost predicate ScoredAs(norm: Norm, s: Score, side: PlayerId, reports: seq<Report>) {
    && reports != []
    && var m := reports[|reports| - 1].message;
       s == Score(side, norm(m.playerName), 0, Some(m.percentage), m.isFailed)
  }

  ghost predicate ScoresReported(norm: Norm, c: Config, steps: seq<Step>, seats: seq<Seat>, scores: seq<Score>) {
    && |scores| == |seats|
    && forall k :: 0 <= k < |seats| ==> ScoredAs(norm, scores[k], seats[k].side, Since(c, steps, seats[k].a, seats[k].side))
  }

  /** The last song selected is this one, and the last result since is the same. */
  ghost predicate JustAnnounced(events: seq<Event>, song: string, result: SongResult) {
    && LastSelected(events) == Some(song + "|" + song)
    && LastResult(events).Some? && SameResult(LastResult(events).value, result)
  }

  lemma RecordedIs(events: seq<Event>, song: string, scores: seq<Score>)
    ensures var info := SongInfo(song, song, "", 0);
            Recorded(events, info, scores) <==> JustAnnounced(events, song, SongResult(info, scores))
  {
    var info := SongInfo(song, song, "", 0);
    LastResultSigned(events);
    if LastResult(events).Some? {
      SignaturesAgree(LastResult(events).value, SongResult(info, scores));
    }
    hide SignatureOf, SameResult, LastResult, LastCompletion, LastSelected;
  }

  /** The reported players, seat by seat. */
  lemma ReportedSeats(l: Lobby) returns (seats: seq<Seat>)
    requires Reported(l) != []
    ensures Done(l, seats) && PlayersAt(l, seats, Reported(l))
  {
    var finished := Finished(l);
    ClosingShows(l);
    seats := SessionSeats(finished);
    DroppedIs(l);
    assert forall a :: OnSong(finished, a) <==> OnSong(l, a) by {
      hide Finished;
    }
    assert forall x: Seat :: Held(finished, x.a, x.side) ==> finished.machines[x.a].players[x.side] == l.machines[x.a].players[x.side];
    hide Reported, SessionPlayers, Finished;
    SeatsDone(l, finished, seats, Reported(l));
  }

  lemma SeatsDone(l: Lobby, finished: Lobby, seats: seq<Seat>, ps: seq<SessionPlayer>)
    requires Lists(finished, seats) && PlayersAt(finished, seats, ps) && OnlyFinal(l, finished)
    requires forall x: Seat :: Held(finished, x.a, x.side) ==> finished.machines[x.a].players[x.side] == l.machines[x.a].players[x.side]
    ensures Done(l, seats) && PlayersAt(l, seats, ps)
  {
    forall x: Seat
      ensures x in seats <==> IsDone(l, x)
    {
      assert x in seats <==> OnSong(finished, x.a) && Held(finished, x.a, x.side);
    }
  }

  lemma SeatScored(norm: Norm, c: Config, steps: seq<Step>, x: Seat)
    requires Held(Run(c, steps), x.a, x.side)
    ensures ScoredAs(norm, ResultOf(norm, Run(c, steps).machines[x.a].players[x.side]), x.side, Since(c, steps, x.a, x.side))
  {
    PlayersAreReported(c, steps, x.a, x.side);
    hide Run, Since, LastFinal;
  }

  /**
   * Whenever the timer of a run fires with somebody finished, an interpreter of
   * the stream announces exactly one completed song: the song of the lobby, and
   * for each finished player, cabinet by cabinet and side by side, the name,
   * score and failure of the last score datagram of theirs that counted. It says
   * nothing when the last result it announced for this selection is the same.
   */
  lemma CompletedAsReported(norm: Norm, c: Config, steps: seq<Step>, i: nat, l: Lobby, l': Lobby)
    returns (song: string, seats: seq<Seat>, scores: seq<Score>)
    requires OfRun(c, steps, i, l, l') && steps[i].TimerFired? && l.flushAt.Some? && exists x :: IsDone(l, x)
    ensures l.song == Some(song) && Done(l, seats) && ScoresReported(norm, c, steps[..i], seats, scores)
    ensures var before, info := ReadAll(norm, l.sent).1, SongInfo(song, song, "", 0);
            Completions(ReadAll(norm, l'.sent).1) == Completions(before) +
              if JustAnnounced(before, song, SongResult(info, scores)) then [] else [SongCompleted(info, scores)]
  {
    var x :| IsDone(l, x);
    song := l.song.value;
    SomebodyReported(l, x);
    hide Run, Heeded, ResultsOf, Reported, Since, Done, PlayersAt, ScoresReported, JustAnnounced, Recorded, ReadAll, Completions, Filter;
    CompletedOnce(norm, c, steps, i, l, l');
    seats := ReportedSeats(l);
    scores := ResultsOf(norm, Reported(l));
    SeatsScored(norm, c, steps[..i], seats, Reported(l));
    HeededIs(norm, l);
    HeededIs(norm, l');
    RecordedIs(ReadAll(norm, l.sent).1, song, scores);
  }

  lemma HeededIs(norm: Norm, l: Lobby)
    ensures Heeded(norm, l) == ReadAll(norm, l.sent)
  {
  }

  lemma SomebodyReported(l: Lobby, x: Seat)
    requires IsDone(l, x)
    ensures Reported(l) != []
  {
    var p := l.machines[x.a].players[x.side];
    SessionPlayersContents(l, p);
    assert Holds(l, x.a, p);
    FilterContents(SessionPlayers(l), IsFinal);
    assert p in Reported(l);
  }

  lemma SeatsScored(norm: Norm, c: Config, steps: seq<Step>, seats: seq<Seat>, ps: seq<SessionPlayer>)
    requires PlayersAt(Run(c, steps), seats, ps)
    ensures ScoresReported(norm, c, steps, seats, ResultsOf(norm, ps))
  {
    forall k | 0 <= k < |seats|
      ensures ScoredAs(norm, ResultsOf(norm, ps)[k], seats[k].side, Since(c, steps, seats[k].a, seats[k].side))
    {
      SeatScored(norm, c, steps, seats[k]);
    }
  }
}
