/**
 * Which messages replace each other in a snapshot. A message is about a player of
 * a lobby, a match, a lobby, or the event as a whole, and its identity tells these
 * subjects apart exactly as long as no lobby is called like a player of another.
 */
module RealtimeIdentities {
  import opened Wrappers
  import opened RealtimeEvents
  import opened RealtimeMessages
  import opened RealtimeProjections
  import opened RealtimeReplays

  // ----- what a message is about

  datatype Subject =
    | AnyOf(event: string)
    | OfLobby(event: string, lobby: string)
    | OfMatch(event: string, match_: int)
    | OfPlayer(event: string, lobby: string, player: string)

  /** The lobby of a message, if its data has one. */
  function LobbyNamed(d: Data): Option<string> {
    match d
    case Carried(f) => f.lobbyId
    case Selected(_, lobbyId, _, _, _, _) => lobbyId
    case Live(state) => state.lobbyId
  }

  /** A lobby that is not there is written out like one of that name. */
  function LobbyText(d: Data): string {
    if LobbyNamed(d).Some? then LobbyNamed(d).value else "undefined"
  }

  /** The empty text and the number 0 count as absent. */
  function SubjectOf(event: string, d: Data): Subject {
    if d.Carried? && d.fields.playerId.Some? && d.fields.playerId.value != "" then OfPlayer(event, LobbyText(d), d.fields.playerId.value)
    else if d.Carried? && d.fields.matchId.Some? && d.fields.matchId.value != 0 then OfMatch(event, d.fields.matchId.value)
    else if LobbyNamed(d).Some? && LobbyNamed(d).value != "" then OfLobby(event, LobbyNamed(d).value)
    else AnyOf(event)
  }

  // ----- texts

  predicate Plain(s: string) {
    forall i :: 0 <= i < |s| ==> s[i] != ':'
  }

  lemma FirstColon(a: string, b: string)
    requires Plain(a)
    ensures var s := a + ":" + b; s[|a|] == ':' && s[..|a|] == a && s[|a| + 1..] == b && forall i :: 0 <= i < |a| ==> s[i] != ':'
  {
  }

  lemma SplitAtColon(a: string, b: string, a': string, b': string)
    requires Plain(a) && Plain(a') && a + ":" + b == a' + ":" + b'
    ensures a == a' && b == b'
  {
    FirstColon(a, b);
    FirstColon(a', b');
    hide Plain;
    assert |a| == |a'|;
  }

  lemma NoColon(a: string, a': string, b': string)
    requires Plain(a)
    ensures a != a' + ":" + b'
  {
    assert (a' + ":" + b')[|a'|] == ':';
  }

  lemma {:induction false} DigitsPlain(n: nat)
    ensures |Digits(n)| >= 1 && Digits(n)[0] != '-'
  {
    if n >= 10 {
      DigitsPlain(n / 10);
    }
  }

  lemma {:induction false} DigitsDiffer(n: nat, m: nat)
    requires Digits(n) == Digits(m)
    ensures n == m
  {
    OneDigit(n);
    OneDigit(m);
    var s, t := Digits(n), Digits(m);
    assert s[|s| - 1] == t[|t| - 1];
    if n >= 10 && m >= 10 {
      assert Digits(n / 10) == s[..|s| - 1] && Digits(m / 10) == t[..|t| - 1];
      DigitsDiffer(n / 10, m / 10);
    }
  }

  lemma OneDigit(n: nat)
    ensures |Digits(n)| == 1 <==> n < 10
    ensures Digits(n)[|Digits(n)| - 1] == "0123456789"[n % 10]
  {
    if n >= 10 {
      DigitsPlain(n / 10);
    }
  }

  lemma DecimalsDiffer(n: int, m: int)
    requires Decimal(n) == Decimal(m)
    ensures n == m
  {
    if n >= 0 {
      DigitsPlain(n);
    }
    if m >= 0 {
      DigitsPlain(m);
    }
    if n >= 0 && m >= 0 {
      DigitsDiffer(n, m);
    } else if n < 0 && m < 0 {
      assert Digits(-n) == Decimal(n)[1..] && Digits(-m) == Decimal(m)[1..];
      DigitsDiffer(-n, -m);
    }
  }

  // ----- what identities tell apart

  /** What an identity says after the event. */
  function Tail(x: Subject): string {
    match x
    case AnyOf(_) => ""
    case OfLobby(_, lobby) => "lobby" + ":" + lobby
    case OfMatch(_, n) => "match" + ":" + Decimal(n)
    case OfPlayer(_, lobby, player) => "lobby" + ":" + (lobby + ":" + ("player" + ":" + player))
  }

  lemma LobbyPart(event: string, lobby: string)
    ensures event + ":lobby:" + lobby == event + ":" + ("lobby" + ":" + lobby)
  {
  }

  lemma MatchPart(event: string, number: string)
    ensures event + ":match:" + number == event + ":" + ("match" + ":" + number)
  {
  }

  lemma PlayerPart(event: string, lobby: string, player: string)
    ensures event + ":lobby:" + lobby + ":player:" + player ==
            event + ":" + ("lobby" + ":" + (lobby + ":" + ("player" + ":" + player)))
  {
    assert ":player:" + player == ":" + ("player" + ":" + player);
    Regroup(event, ":lobby:", lobby, ":player:" + player);
    LobbyPart(event, lobby + (":player:" + player));
    assert event + ":lobby:" + lobby + ":player:" + player == event + ":lobby:" + lobby + (":player:" + player);
    assert lobby + (":player:" + player) == lobby + ":" + ("player" + ":" + player);
  }

  lemma Regroup(a: string, b: string, c: string, d: string)
    ensures a + b + c + d == a + b + (c + d)
  {
  }

  lemma IdentityText(event: string, d: Data)
    ensures MessageIdentity(event, d) ==
            if SubjectOf(event, d).AnyOf? then event else event + ":" + Tail(SubjectOf(event, d))
    ensures SubjectOf(event, d).event == event
  {
    if LobbyNamed(d).Some? {
      LobbyPart(event, LobbyNamed(d).value);
    }
    if d.Carried? && d.fields.matchId.Some? {
      MatchPart(event, Decimal(d.fields.matchId.value));
    }
    if d.Carried? && d.fields.playerId.Some? {
      PlayerPart(event, LobbyText(d), d.fields.playerId.value);
    }
    hide Decimal;
  }

  lemma TailsDiffer(x: Subject, y: Subject)
    requires x.OfMatch? && y.OfMatch? && Tail(x) == Tail(y)
    ensures x.match_ == y.match_
  {
    SplitAtColon("match", Decimal(x.match_), "match", Decimal(y.match_));
    DecimalsDiffer(x.match_, y.match_);
  }

  lemma MatchIsNoLobby(x: Subject, y: Subject)
    requires x.OfMatch? && (y.OfLobby? || y.OfPlayer?)
    ensures Tail(x) != Tail(y)
  {
    assert Tail(x)[0] == 'm' && Tail(y)[0] == 'l';
  }

  lemma LobbyTails(x: Subject, y: Subject)
    requires (x.OfLobby? || x.OfPlayer?) && (y.OfLobby? || y.OfPlayer?) && Tail(x) == Tail(y)
    ensures (if x.OfLobby? then x.lobby else x.lobby + ":" + ("player" + ":" + x.player)) ==
            (if y.OfLobby? then y.lobby else y.lobby + ":" + ("player" + ":" + y.player))
  {
    SplitAtColon("lobby", if x.OfLobby? then x.lobby else x.lobby + ":" + ("player" + ":" + x.player),
                 "lobby", if y.OfLobby? then y.lobby else y.lobby + ":" + ("player" + ":" + y.player));
  }

  /** Two messages of one event about two matches, about two lobbies, or about two players of one lobby. */
  ghost predicate OfOneSort(x: Subject, y: Subject) {
    || (x.OfMatch? && y.OfMatch?)
    || (x.OfLobby? && y.OfLobby?)
    || (x.OfPlayer? && y.OfPlayer? && x.lobby == y.lobby)
    || (x.OfMatch? && !y.OfMatch?)
  }

  lemma SameStart(a: string, b: string, b': string)
    requires a + b == a + b'
    ensures b == b'
  {
    assert b == (a + b)[|a|..] && b' == (a + b')[|a|..];
  }

  lemma TailsAlike(x: Subject, y: Subject)
    requires x.event == y.event && !x.AnyOf? && !y.AnyOf? && Tail(x) == Tail(y) && OfOneSort(x, y)
    ensures x == y
  {
    if x.OfMatch? && y.OfMatch? {
      TailsDiffer(x, y);
    } else if x.OfMatch? {
      MatchIsNoLobby(x, y);
    } else {
      LobbyTails(x, y);
      if x.OfPlayer? {
        SameStart(x.lobby + ":", "player" + ":" + x.player, "player" + ":" + y.player);
        SameStart("player" + ":", x.player, y.player);
      }
    }
  }

  /**
   * Whatever the texts, messages of one event share an identity exactly when they
   * share a subject, if both are about a match, both about a lobby, both about a
   * player of the same lobby, or one about a match and the other not.
   */
  lemma SortsTellApart(event: string, d: Data, d': Data)
    requires OfOneSort(SubjectOf(event, d), SubjectOf(event, d'))
    ensures MessageIdentity(event, d) == MessageIdentity(event, d') <==> SubjectOf(event, d) == SubjectOf(event, d')
  {
    var x, y := SubjectOf(event, d), SubjectOf(event, d');
    IdentityText(event, d);
    IdentityText(event, d');
    hide SubjectOf, MessageIdentity;
    if MessageIdentity(event, d) == MessageIdentity(event, d') && !x.AnyOf? && !y.AnyOf? {
      assert Tail(x) == (event + ":" + Tail(x))[|event| + 1..] && Tail(y) == (event + ":" + Tail(y))[|event| + 1..];
      TailsAlike(x, y);
    }
    if y.AnyOf? {
      assert |event + ":" + Tail(x)| > |event|;
    }
  }

  predicate MarkAt(s: string, k: nat) {
    k + 8 <= |s| && s[k..k + 8] == ":player:"
  }

  /** Somewhere in the name, read on through a colon, a player is announced. */
  predicate ReadsAsPlayer(lobby: string) {
    exists k | 0 <= k <= |lobby| :: MarkAt(lobby + ":", k)
  }

  /** The lobby of the message, if it has one, does not read as a player. */
  predicate PlainLobby(d: Data) {
    LobbyNamed(d).Some? ==> !ReadsAsPlayer(LobbyNamed(d).value)
  }

  ghost predicate PlainSubject(x: Subject) {
    Plain(x.event) && (x.OfLobby? || x.OfPlayer? ==> !ReadsAsPlayer(x.lobby))
  }

  lemma PlayerMark(lobby: string, player: string)
    ensures var s := lobby + ":" + ("player" + ":" + player);
            s[..|lobby|] == lobby && s[|lobby|..|lobby| + 8] == ":player:" && s[|lobby| + 8..] == player
  {
    var s := lobby + ":" + ("player" + ":" + player);
    assert s == lobby + ":player:" + player;
  }

  lemma LobbyReadsAsPlayer(lobby: string, shorter: string, player: string)
    requires lobby == shorter + ":" + ("player" + ":" + player)
    ensures ReadsAsPlayer(lobby)
  {
    PlayerMark(shorter, player);
    assert (lobby + ":")[|shorter|..|shorter| + 8] == lobby[|shorter|..|shorter| + 8];
    assert MarkAt(lobby + ":", |shorter|);
  }

  /** Two players who read the same although their lobbies differ: the longer lobby reads as a player. */
  lemma LongerReadsAsPlayer(shorter: string, player: string, lobby: string, player': string)
    requires shorter + ":" + ("player" + ":" + player) == lobby + ":" + ("player" + ":" + player') && |shorter| < |lobby|
    ensures ReadsAsPlayer(lobby)
  {
    var s := lobby + ":" + ("player" + ":" + player');
    PlayerMark(shorter, player);
    PlayerMark(lobby, player');
    var k := |lobby| - |shorter|;
    if k < 8 {
      assert s[|lobby|] == s[|shorter|..|shorter| + 8][k] == ":player:"[k];
      assert s[|lobby|] == s[|lobby|..|lobby| + 8][0] == ':';
    }
    assert s[..|lobby| + 1] == lobby + ":";
    assert (lobby + ":")[|shorter|..|shorter| + 8] == s[|shorter|..|shorter| + 8];
    assert MarkAt(lobby + ":", |shorter|);
  }

  lemma PlayersAlike(lobby: string, player: string, lobby': string, player': string)
    requires lobby + ":" + ("player" + ":" + player) == lobby' + ":" + ("player" + ":" + player') && |lobby| == |lobby'|
    ensures lobby == lobby' && player == player'
  {
    PlayerMark(lobby, player);
    PlayerMark(lobby', player');
  }

  /** What reads the same is the same, unless the longer of the two lobbies reads as a player. */
  lemma TailsOfLobbies(x: Subject, y: Subject)
    requires x.event == y.event && (x.OfLobby? || x.OfPlayer?) && (y.OfLobby? || y.OfPlayer?) && |y.lobby| <= |x.lobby|
    requires Tail(x) == Tail(y) && !ReadsAsPlayer(x.lobby)
    ensures x == y
  {
    LobbyTails(x, y);
    hide ReadsAsPlayer, Tail;
    if x.OfLobby? && y.OfPlayer? {
      LobbyReadsAsPlayer(x.lobby, y.lobby, y.player);
    } else if x.OfPlayer? && y.OfPlayer? {
      if |y.lobby| < |x.lobby| {
        LongerReadsAsPlayer(y.lobby, y.player, x.lobby, x.player);
      } else {
        PlayersAlike(x.lobby, x.player, y.lobby, y.player);
      }
    }
  }

  lemma PlainTails(x: Subject, y: Subject)
    requires PlainSubject(x) && PlainSubject(y) && x.event == y.event && !x.AnyOf? && !y.AnyOf? && Tail(x) == Tail(y)
    ensures x == y
  {
    hide ReadsAsPlayer, Tail;
    if x.OfMatch? {
      TailsAlike(x, y);
    } else if y.OfMatch? {
      TailsAlike(y, x);
    } else if |y.lobby| <= |x.lobby| {
      TailsOfLobbies(x, y);
    } else {
      TailsOfLobbies(y, x);
    }
  }

  lemma UndefinedIsPlain()
    ensures !ReadsAsPlayer("undefined")
  {
    var s := "undefined" + ":";
    forall k | 0 <= k <= 9
      ensures !MarkAt(s, k)
    {
      assert k + 8 <= |s| ==> s[k..k + 8][0] == s[k] != ':';
    }
  }

  /**
   * Without colons in events, and without lobbies that read as players, messages
   * share an identity exactly when they share a subject.
   */
  lemma IdentitiesTellApart(event: string, d: Data, event': string, d': Data)
    requires Plain(event) && Plain(event') && PlainLobby(d) && PlainLobby(d')
    ensures MessageIdentity(event, d) == MessageIdentity(event', d') <==> SubjectOf(event, d) == SubjectOf(event', d')
  {
    var x, y := SubjectOf(event, d), SubjectOf(event', d');
    IdentityText(event, d);
    IdentityText(event', d');
    UndefinedIsPlain();
    assert PlainSubject(x) && PlainSubject(y);
    hide SubjectOf, MessageIdentity, Tail, ReadsAsPlayer;
    if MessageIdentity(event, d) == MessageIdentity(event', d') {
      if x.AnyOf? && !y.AnyOf? {
        NoColon(event, event', Tail(y));
      } else if y.AnyOf? && !x.AnyOf? {
        NoColon(event', event, Tail(x));
      } else if !x.AnyOf? {
        SplitAtColon(event, Tail(x), event', Tail(y));
        PlainTails(x, y);
      }
    }
  }

  /** No message with a lobby of at most that length is taken for one of the lobby's. */
  ghost predicate TellsApart(event: string, lobby: string) {
    forall d, d' :: LobbyNamed(d) == Some(lobby) && LobbyNamed(d').Some? && |LobbyNamed(d').value| <= |lobby| ==>
      (MessageIdentity(event, d) == MessageIdentity(event, d') <==> SubjectOf(event, d) == SubjectOf(event, d'))
  }

  function PlayerFields(lobby: string, player: string): Fields {
    Fields(None, Some(lobby), Some(player), None, "", "", false, "")
  }

  lemma Reread(lobby: string, k: nat)
    requires k <= |lobby| && MarkAt(lobby + ":", k)
    ensures var shorter, rest := lobby[..k], (lobby + ":")[k + 8..];
            lobby + ":player:" + "x" == shorter + ":player:" + (rest + "player:x")
  {
    var s := lobby + ":";
    assert s == s[..k] + ":player:" + s[k + 8..] && s[..k] == lobby[..k];
    assert lobby + ":player:" + "x" == s + "player:x";
    assert s + "player:x" == lobby[..k] + ":player:" + (s[k + 8..] + "player:x");
  }

  lemma Reassociated(a: string, b: string, c: string, d: string)
    ensures a + b + c + d == a + (b + c + d)
  {
  }

  lemma IdentityOfPlayer(event: string, lobby: string, player: string)
    requires player != ""
    ensures MessageIdentity(event, Carried(PlayerFields(lobby, player))) == event + ":lobby:" + (lobby + ":player:" + player)
    ensures SubjectOf(event, Carried(PlayerFields(lobby, player))) == OfPlayer(event, lobby, player)
  {
    Reassociated(event + ":lobby:", lobby, ":player:", player);
  }

  lemma ReadTwice(event: string, lobby: string)
    requires ReadsAsPlayer(lobby)
    ensures !TellsApart(event, lobby)
  {
    var k :| 0 <= k <= |lobby| && MarkAt(lobby + ":", k);
    var shorter, player := lobby[..k], (lobby + ":")[k + 8..] + "player:x";
    Reread(lobby, k);
    hide MessageIdentity, SubjectOf;
    IdentityOfPlayer(event, lobby, "x");
    IdentityOfPlayer(event, shorter, player);
    assert |player| > 1;
    var d, d' := Carried(PlayerFields(lobby, "x")), Carried(PlayerFields(shorter, player));
    assert LobbyNamed(d) == Some(lobby) && LobbyNamed(d') == Some(shorter);
    assert MessageIdentity(event, d) == MessageIdentity(event, d') && SubjectOf(event, d) != SubjectOf(event, d');
  }

  /**
   * Exactly the lobbies that read as a player, ":player:" inside the name or
   * ":player" at its end, have messages that are taken for those about a player of
   * a shorter lobby.
   */
  lemma LobbyTellsApart(event: string, lobby: string)
    requires Plain(event)
    ensures TellsApart(event, lobby) <==> !ReadsAsPlayer(lobby)
  {
    if ReadsAsPlayer(lobby) {
      ReadTwice(event, lobby);
    } else {
      forall d, d' | LobbyNamed(d) == Some(lobby) && LobbyNamed(d').Some? && |LobbyNamed(d').value| <= |lobby|
        ensures MessageIdentity(event, d) == MessageIdentity(event, d') <==> SubjectOf(event, d) == SubjectOf(event, d')
      {
        OneLobbyApart(event, d, d');
      }
    }
  }

  lemma OneLobbyApart(event: string, d: Data, d': Data)
    requires LobbyNamed(d).Some? && LobbyNamed(d').Some? && |LobbyNamed(d').value| <= |LobbyNamed(d).value|
    requires !ReadsAsPlayer(LobbyNamed(d).value)
    ensures MessageIdentity(event, d) == MessageIdentity(event, d') <==> SubjectOf(event, d) == SubjectOf(event, d')
  {
    var x, y := SubjectOf(event, d), SubjectOf(event, d');
    IdentityText(event, d);
    IdentityText(event, d');
    assert x.OfLobby? || x.OfPlayer? ==> x.lobby == LobbyNamed(d).value;
    assert y.OfLobby? || y.OfPlayer? ==> y.lobby == LobbyNamed(d').value;
    hide SubjectOf, MessageIdentity, Tail, ReadsAsPlayer;
    if MessageIdentity(event, d) == MessageIdentity(event, d') && !x.AnyOf? && !y.AnyOf? {
      SameStart(event + ":", Tail(x), Tail(y));
      if x.OfMatch? {
        TailsAlike(x, y);
      } else if y.OfMatch? {
        TailsAlike(y, x);
      } else {
        TailsOfLobbies(x, y);
      }
    }
  }

  // ----- whole logs

  /** The event is the end of a lobby. */
  ghost predicate EndsLobby(e: LiveEvent, lobby: string) {
    e.kind.LobbyDisconnected? && !e.payload.isActive && lobby != "" && e.payload.lobbyId == Some(lobby)
  }

  /** No lobby of the log reads as a player. */
  ghost predicate PlainLog(log: seq<LiveEvent>) {
    forall i :: 0 <= i < |log| && log[i].payload.lobbyId.Some? ==> !ReadsAsPlayer(log[i].payload.lobbyId.value)
  }

  ghost predicate PlainPost(e: LiveEvent, m: Message) {
    m.Message? ==> Plain(m.event) && (LobbyNamed(m.data).Some? ==> LobbyNamed(m.data) == e.payload.lobbyId)
  }

  lemma NamesArePlain()
    ensures Plain("MatchUpdate") && Plain("UiWarning") && Plain("TournamentUpdate") && Plain("SongsUpdate") && Plain("DivisionUpdate")
    ensures Plain("PhaseUpdate") && Plain("PhaseGroupUpdate") && Plain("ScheduleUpdate")
    ensures Plain("OnSyncStartConnectionStatus") && Plain("OnConnectionActive") && Plain("OnConnected")
    ensures Plain("OnSongSelected") && Plain("OnPlayerReady") && Plain("OnMatchUpdate") && Plain("OnSongCompleted")
  {
  }

  lemma PostsArePlain(log: seq<LiveEvent>, i: nat, path: Path)
    requires i < |log| && PlainLog(log) && Posted(log, i, path).Message?
    ensures var m := Posted(log, i, path); Plain(m.event) && PlainLobby(m.data)
  {
    PostIsPlain(log[i], path, Prepared(Replay(log[..i]), log[i]));
    hide MessageFor, Prepared, Replay, Plain;
  }

  lemma PostIsPlain(e: LiveEvent, path: Path, p: Projection)
    ensures PlainPost(e, MessageFor(p, e, path))
  {
    NamesArePlain();
    hide Plain, Previous;
  }

  /** A message about that subject. */
  ghost predicate IsAbout(m: Message, x: Subject) {
    m.Message? && SubjectOf(m.event, m.data) == x
  }

  /**
   * The i-th event showed the message on the path, no later event showed another
   * about its subject, and its lobby has not ended since.
   */
  ghost predicate LastAbout(log: seq<LiveEvent>, path: Path, m: Message, i: nat) {
    && i < |log| && Posted(log, i, path) == m && m.Message?
    && forall j :: i < j < |log| ==>
         !IsAbout(Posted(log, j, path), SubjectOf(m.event, m.data)) && !(LobbyNamed(m.data).Some? && EndsLobby(log[j], LobbyNamed(m.data).value))
  }

  lemma StandsIsLast(log: seq<LiveEvent>, path: Path, m: Message, i: nat)
    requires PlainLog(log) && m.Message?
    ensures StandsSince(log, path, MessageIdentity(m.event, m.data), m, i) <==> LastAbout(log, path, m, i)
  {
    if i < |log| && Posted(log, i, path) == m {
      PostsArePlain(log, i, path);
      forall j | i < j < |log|
        ensures Replaces(Posted(log, j, path), MessageIdentity(m.event, m.data)) <==>
                  IsAbout(Posted(log, j, path), SubjectOf(m.event, m.data))
        ensures Drops(log[j], m) <==> LobbyNamed(m.data).Some? && EndsLobby(log[j], LobbyNamed(m.data).value)
      {
        var n := Posted(log, j, path);
        if n.Message? {
          PostsArePlain(log, j, path);
          IdentitiesTellApart(m.event, m.data, n.event, n.data);
        }
      }
    }
    hide Posted, MessageIdentity, SubjectOf, Drops, PlainLog, EndsLobby;
  }

  /**
   * For every log without lobbies that read as players, the snapshot of a path
   * holds the last message about every player of a lobby, every match, every lobby
   * and every other event, unless its lobby has ended since, and nothing else.
   */
  lemma SnapshotBySubject(log: seq<LiveEvent>, path: Path, k: string, m: Message)
    requires PlainLog(log)
    ensures Cached(Replay(log), path, k, m) <==>
              m.Message? && k == MessageIdentity(m.event, m.data) && exists i :: LastAbout(log, path, m, i)
  {
    CacheAgreesWithLog(log, path, k, m);
    if m.Message? {
      forall i: nat {
        StandsIsLast(log, path, m, i);
      }
    }
    KeysAreIdentities(log, path, k, m);
    hide Cached, MessageIdentity, LastAbout, StandsSince, PlainLog;
  }

  lemma KeysAreIdentities(log: seq<LiveEvent>, path: Path, k: string, m: Message)
    ensures forall i :: StandsSince(log, path, k, m, i) ==> m.Message? && MessageIdentity(m.event, m.data) == k
  {
  }
}
