/**
 * The players of the lobby in terms of the score datagrams of a run: who is held
 * by a cabinet has the numbers of the last accepted datagram of their side, is
 * ready once anything was judged since they joined, and has finished once a final
 * datagram was accepted.
 */
module BridgeReports {
  import opened Wrappers
  import opened SyncStart
  import opened BridgeLobbies
  import opened BridgeInvariants

  /** A score datagram; a final one has a payload. */
  datatype Report = Report(message: ScoreMessage, payload: Option<string>)

  function SideOf(m: ScoreMessage): PlayerId {
    if m.playerNumber == 1 then P2 else P1
  }

  /** The report of a side a step brings, unless it is the final score of a skipped song. */
  function ReportIn(step: Step, a: Address, side: PlayerId): Option<Report> {
    match step
    case Scored(b, m, _) => if b == a && SideOf(m) == side then Some(Report(m, None)) else None
    case FinalScored(b, m, payload, _) =>
      if b == a && SideOf(m) == side && !(m.percentage == 0 && !m.judged) then Some(Report(m, Some(payload))) else None
    case _ => None
  }

  predicate Held(l: Lobby, a: Address, side: PlayerId) {
    a in l.machines && side in l.machines[a].players
  }

  /** The cabinet plays the song of the lobby. */
  predicate OnSong(l: Lobby, a: Address) {
    a in l.machines && l.song.Some? && l.machines[a].song == l.song
  }

  /** The very datagram the player has finished this song with. */
  predicate Again(l: Lobby, a: Address, side: PlayerId, r: Report) {
    && r.payload.Some? && Held(l, a, side)
    && l.machines[a].song == Some(r.message.song) && l.machines[a].players[side].finalPayload == r.payload
  }

  /** A report counts when it is not a repetition and leaves its cabinet on the song of the lobby. */
  predicate Counts(l: Lobby, l': Lobby, a: Address, side: PlayerId, r: Report) {
    !Again(l, a, side, r) && OnSong(l', a)
  }

  /** The cabinet goes on with an unfinished song. */
  predicate GoesOn(l: Lobby, a: Address, song: string) {
    a in l.machines && l.machines[a].song == Some(song) && l.song == Some(song) && !l.completed
  }

  // ----- one step

  function LastPayload(before: Option<SessionPlayer>, r: Report): Option<string> {
    if r.payload.Some? then r.payload else if before.Some? then before.value.finalPayload else None
  }

  /** What a report makes of a player. */
  function Updated(before: Option<SessionPlayer>, side: PlayerId, r: Report): SessionPlayer {
    var m := r.message;
    SessionPlayer(side, m.playerName, m.percentage, m.isFailed, m.judgments,
                  (before.Some? && before.value.isReady) || m.judged, LastPayload(before, r))
  }

  /** The player is as they were, or gone. */
  ghost predicate KeptOrGone(l: Lobby, l': Lobby, a: Address, side: PlayerId) {
    Held(l', a, side) ==> Held(l, a, side) && l'.machines[a].players[side] == l.machines[a].players[side]
  }

  lemma HeardKeeps(l: Lobby, b: Address, now: int, a: Address, side: PlayerId)
    ensures KeptOrGone(l, Heard(l, b, now), a, side)
  {
  }

  lemma MoveKeeps(l: Lobby, b: Address, song: string, a: Address, side: PlayerId)
    requires b in l.machines
    ensures KeptOrGone(l, MoveTo(l, b, song), a, side)
    ensures var l' := MoveTo(l, b, song);
            OnSong(l', b) && Held(l', b, side) ==> GoesOn(l, b, song)
    ensures GoesOn(l, b, song) ==> MoveTo(l, b, song) == l
  {
    if GoesOn(l, b, song) {
      assert Put(l, b, Onto(l.machines[b], song)).machines == l.machines;
    }
  }

  lemma KeptTwice(l: Lobby, l': Lobby, l'': Lobby, a: Address, side: PlayerId)
    requires KeptOrGone(l, l', a, side) && KeptOrGone(l', l'', a, side)
    ensures KeptOrGone(l, l'', a, side)
  {
  }

  lemma PublishKeeps(c: Config, l: Lobby, screen: Screen, a: Address, side: PlayerId)
    ensures KeptOrGone(l, Publish(c, l, screen), a, side) && Held(Publish(c, l, screen), a, side) == Held(l, a, side)
    ensures OnSong(Publish(c, l, screen), a) == OnSong(l, a)
  {
  }

  lemma UpsertUpdates(l: Lobby, b: Address, m: ScoreMessage, payload: Option<string>, a: Address, side: PlayerId)
    requires b in l.machines
    ensures var l' := Upsert(l, b, m, payload);
            && (a == b && SideOf(m) == side ==>
                  && Held(l', a, side)
                  && l'.machines[a].players[side] ==
                       Updated(if Held(l, a, side) then Some(l.machines[a].players[side]) else None, side, Report(m, payload)))
            && (a != b || SideOf(m) != side ==> KeptOrGone(l, l', a, side))
            && OnSong(l', a) == OnSong(l, a)
  {
  }

  /** What a step does to one player: a report that counts updates them, nothing else changes them. */
  ghost predicate Steps(l: Lobby, step: Step, l': Lobby, a: Address, side: PlayerId) {
    var r := ReportIn(step, a, side);
    if r.Some? && Counts(l, l', a, side, r.value) then
      && Held(l', a, side)
      && l'.machines[a].players[side] ==
           Updated(if GoesOn(l, a, r.value.message.song) && Held(l, a, side) then Some(l.machines[a].players[side]) else None, side, r.value)
    else KeptOrGone(l, l', a, side)
  }

  lemma HeardGoesOn(l: Lobby, b: Address, now: int, song: string, side: PlayerId)
    requires Hears(l, b)
    ensures var heard := Heard(l, b, now);
            && b in heard.machines && (GoesOn(heard, b, song) <==> GoesOn(l, b, song))
            && (Held(heard, b, side) <==> Held(l, b, side)) && (OnSong(heard, b) <==> OnSong(l, b))
  {
  }

  /** A report that finds its cabinet in session. */
  lemma ReportSteps(c: Config, l: Lobby, b: Address, m: ScoreMessage, payload: Option<string>, now: int, a: Address, side: PlayerId)
    requires Hears(l, b)
    ensures var moved := MoveTo(Heard(l, b, now), b, m.song);
            && (InSession(moved, b) <==> OnSong(moved, b))
            && (OnSong(moved, b) ==>
                  var l' := Upsert(moved, b, m, payload);
                  if a == b && SideOf(m) == side then
                    && Held(l', a, side)
                    && l'.machines[a].players[side] ==
                         Updated(if GoesOn(l, a, m.song) && Held(l, a, side) then Some(l.machines[a].players[side]) else None, side, Report(m, payload))
                  else KeptOrGone(l, l', a, side))
            && KeptOrGone(l, moved, a, side)
  {
    var heard := Heard(l, b, now);
    var moved := MoveTo(heard, b, m.song);
    HeardKeeps(l, b, now, a, side);
    HeardGoesOn(l, b, now, m.song, side);
    MoveKeeps(heard, b, m.song, a, side);
    KeptTwice(l, heard, moved, a, side);
    MoveKeeps(heard, b, m.song, b, side);
    if OnSong(moved, b) {
      UpsertUpdates(moved, b, m, payload, a, side);
    }
    hide Heard, Hears, MoveTo, Upsert;
  }

  lemma ScoredSteps(c: Config, l: Lobby, step: Step, a: Address, side: PlayerId)
    requires step.Scored?
    ensures Steps(l, step, Take(c, l, step), a, side)
  {
    var b, m, now := step.from, step.message, step.now;
    if Hears(l, b) {
      var moved := MoveTo(Heard(l, b, now), b, m.song);
      ReportSteps(c, l, b, m, None, now, a, side);
      UpsertUpdates(moved, b, m, None, b, side);
      PublishKeeps(c, Upsert(moved, b, m, None), ScreenGameplay, a, side);
      hide MoveTo, Heard, Hears, Upsert, Publish;
    } else {
      assert !OnSong(l, b);
    }
  }

  lemma ScheduledKeeps(c: Config, l: Lobby, now: int, a: Address, side: PlayerId)
    ensures var l' := ScheduleFlush(c, l, now); KeptOrGone(l, l', a, side) && Held(l', a, side) == Held(l, a, side) && OnSong(l', a) == OnSong(l, a)
  {
  }

  lemma DiscardKeeps(c: Config, l: Lobby, b: Address, m: ScoreMessage, now: int, a: Address, side: PlayerId)
    requires b in l.machines
    ensures KeptOrGone(l, DiscardEphemeral(c, l, b, m, now), a, side)
  {
    var cabinet := l.machines[b];
    var left := Put(l, b, cabinet.(players := cabinet.players - {PlayerIdOf(m)}));
    ScheduledKeeps(c, left, now, a, side);
    PublishKeeps(c, left, ScreenGameplay, a, side);
    PublishKeeps(c, ScheduleFlush(c, left, now), ScreenGameplay, a, side);
    hide Publish, ScheduleFlush;
  }

  lemma RepeatsIsAgain(l: Lobby, b: Address, now: int, m: ScoreMessage, payload: string, side: PlayerId)
    requires Hears(l, b) && SideOf(m) == side
    ensures Repeats(Heard(l, b, now).machines[b], m, payload) <==> Again(l, b, side, Report(m, Some(payload)))
  {
  }

  lemma FinalSteps(c: Config, l: Lobby, step: Step, a: Address, side: PlayerId)
    requires step.FinalScored?
    ensures Steps(l, step, Take(c, l, step), a, side)
  {
    var b, m, payload, now := step.from, step.message, step.payload, step.now;
    if Hears(l, b) {
      var heard := Heard(l, b, now);
      HeardKeeps(l, b, now, a, side);
      RepeatsIsAgain(l, b, now, m, payload, SideOf(m));
      if IsEphemeral(m) {
        DiscardKeeps(c, heard, b, m, now, a, side);
        KeptTwice(l, heard, DiscardEphemeral(c, heard, b, m, now), a, side);
        hide DiscardEphemeral, Heard, Hears;
      } else if Repeats(heard.machines[b], m, payload) {
        hide Heard, Hears, Repeats;
      } else {
        var moved := MoveTo(heard, b, m.song);
        ReportSteps(c, l, b, m, Some(payload), now, a, side);
        UpsertUpdates(moved, b, m, Some(payload), b, side);
        ScheduledKeeps(c, Upsert(moved, b, m, Some(payload)), now, a, side);
        ScheduledKeeps(c, Upsert(moved, b, m, Some(payload)), now, b, side);
        ScheduledSame(c, Upsert(moved, b, m, Some(payload)), now);
        hide MoveTo, Heard, Hears, Upsert, ScheduleFlush, Repeats, IsEphemeral;
      }
    } else {
      assert !OnSong(l, b);
    }
  }

  lemma ScheduledSame(c: Config, l: Lobby, now: int)
    ensures ScheduleFlush(c, l, now).machines == l.machines
  {
  }

  lemma SongSteps(c: Config, l: Lobby, step: Step, a: Address, side: PlayerId)
    requires step.SongChosen? || step.Started?
    ensures KeptOrGone(l, Take(c, l, step), a, side)
  {
    var b, song, now := step.from, step.song, step.now;
    if Hears(l, b) {
      var heard := Heard(l, b, now);
      var moved := MoveTo(heard, b, song);
      HeardKeeps(l, b, now, a, side);
      MoveKeeps(heard, b, song, a, side);
      KeptTwice(l, heard, moved, a, side);
      PublishKeeps(c, moved, ScreenSelectMusic, a, side);
      KeptTwice(l, moved, Publish(c, moved, ScreenSelectMusic), a, side);
      hide MoveTo, Heard, Publish, Hears;
    }
  }

  lemma FlushKeeps(c: Config, l: Lobby, a: Address, side: PlayerId)
    ensures KeptOrGone(l, Flush(c, l), a, side)
  {
    var finished := DropUnfinished(l.(flushAt := None));
    assert KeptOrGone(l, finished.(completed := true), a, side);
    var played := Publish(c, finished.(completed := true), ScreenGameplay);
    PublishKeeps(c, finished.(completed := true), ScreenGameplay, a, side);
    PublishKeeps(c, played, ScreenEvaluation, a, side);
    hide Publish, SessionPlayers;
  }

  lemma SweepKeeps(c: Config, l: Lobby, now: int, a: Address, side: PlayerId)
    ensures KeptOrGone(l, EvictIdle(c, l, now), a, side)
  {
    var left := l.(machines := NotQuiet(c, l.machines, l.flushAt.Some?, now));
    assert KeptOrGone(l, left, a, side);
    ScheduledKeeps(c, left, now, a, side);
    PublishKeeps(c, left, ScreenGameplay, a, side);
    PublishKeeps(c, ScheduleFlush(c, left, now), ScreenGameplay, a, side);
    hide Publish, ScheduleFlush, NotQuiet;
  }

  lemma EveryStep(c: Config, l: Lobby, step: Step, a: Address, side: PlayerId)
    ensures Steps(l, step, Take(c, l, step), a, side)
  {
    hide HandleSong, HandleStart, HandleScore, HandleFinalScore, Flush, EvictIdle, Updated;
    match step
    case SongChosen(_, _, _) => SongSteps(c, l, step, a, side);
    case Started(_, _, _) => SongSteps(c, l, step, a, side);
    case Scored(_, _, _) => ScoredSteps(c, l, step, a, side);
    case FinalScored(_, _, _, _) => FinalSteps(c, l, step, a, side);
    case IdleSweep(now) => SweepKeeps(c, l, now, a, side);
    case TimerFired => FlushKeeps(c, l, a, side);
    case Closed =>
  }

  // ----- whole runs

  /** The reports of a side that count, since its player last joined. */
  ghost function Since(c: Config, steps: seq<Step>, a: Address, side: PlayerId): seq<Report> {
    if steps == [] then []
    else
      var before, step := steps[..|steps| - 1], steps[|steps| - 1];
      var l, l', r := Run(c, before), Run(c, steps), ReportIn(step, a, side);
      if !Held(l', a, side) then []
      else if r.Some? && Counts(l, l', a, side, r.value) then
        (if GoesOn(l, a, r.value.message.song) then Since(c, before, a, side) else []) + [r.value]
      else Since(c, before, a, side)
  }

  /** The last payload of a sequence of reports. */
  function LastFinal(reports: seq<Report>): Option<string> {
    if reports == [] then None
    else if reports[|reports| - 1].payload.Some? then reports[|reports| - 1].payload
    else LastFinal(reports[..|reports| - 1])
  }

  /** The player is what the reports say: numbers of the last, readiness and a final payload of any. */
  ghost predicate AsReported(p: SessionPlayer, side: PlayerId, reports: seq<Report>) {
    && reports != []
    && var m := reports[|reports| - 1].message;
       && p.playerId == side && p.profileName == m.playerName && p.exScore == m.percentage && p.isFailed == m.isFailed && p.judgments == m.judgments
       && (p.isReady <==> exists i :: 0 <= i < |reports| && reports[i].message.judged)
       && p.finalPayload == LastFinal(reports)
  }

  lemma UpdatedAsReported(before: Option<SessionPlayer>, side: PlayerId, reports: seq<Report>, r: Report)
    requires if before.Some? then AsReported(before.value, side, reports) else reports == []
    ensures AsReported(Updated(before, side, r), side, reports + [r])
  {
    var all := reports + [r];
    assert all[|all| - 1] == r && all[..|all| - 1] == reports;
    assert forall i :: 0 <= i < |reports| ==> all[i] == reports[i];
  }

  /**
   * In every run: a player held by a cabinet has the name, score, failure and
   * judgments of the last report of that side that counted, is ready exactly when
   * one of those since they joined had anything judged, and has finished with the
   * last final one of them.
   */
  lemma {:induction false} PlayersAreReported(c: Config, steps: seq<Step>, a: Address, side: PlayerId)
    ensures Held(Run(c, steps), a, side) ==> AsReported(Run(c, steps).machines[a].players[side], side, Since(c, steps, a, side))
    ensures !Held(Run(c, steps), a, side) ==> Since(c, steps, a, side) == []
  {
    if steps != [] {
      var before, step := steps[..|steps| - 1], steps[|steps| - 1];
      var l, l', r := Run(c, before), Run(c, steps), ReportIn(step, a, side);
      PlayersAreReported(c, before, a, side);
      EveryStep(c, l, step, a, side);
      hide Run, Take, Updated, AsReported;
      if r.Some? && Counts(l, l', a, side, r.value) {
        var goesOn := GoesOn(l, a, r.value.message.song);
        var held := if goesOn && Held(l, a, side) then Some(l.machines[a].players[side]) else None;
        UpdatedAsReported(held, side, if goesOn then Since(c, before, a, side) else [], r.value);
      }
    }
  }
}
