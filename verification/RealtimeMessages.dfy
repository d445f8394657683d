/** Messages by identity, in the order their identities first came in. */
module RealtimeMessages {
  import opened Wrappers
  import opened RealtimeEvents

  datatype Entry = Entry(key: string, message: Message)

  type Messages = seq<Entry>

  predicate HasKey(messages: Messages, key: string) {
    exists i :: 0 <= i < |messages| && messages[i].key == key
  }

  /** A known identity keeps its place, a new one comes last. */
  function Put(messages: Messages, key: string, m: Message): Messages {
    if HasKey(messages, key) then
      seq(|messages|, i requires 0 <= i < |messages| => if messages[i].key == key then Entry(key, m) else messages[i])
    else messages + [Entry(key, m)]
  }

  /** A message that belongs to the lobby. */
  predicate About(m: Message, lobby: string) {
    m.Message? && LobbyIdOf(m.data) == Some(lobby)
  }

  function Without(messages: Messages, lobby: string): Messages {
    if messages == [] then []
    else
      var last := messages[|messages| - 1];
      Without(messages[..|messages| - 1], lobby) + if About(last.message, lobby) then [] else [last]
  }

  lemma PutContents(messages: Messages, key: string, m: Message, e: Entry)
    ensures e in Put(messages, key, m) <==> if e.key == key then e.message == m else e in messages
  {
    var put := Put(messages, key, m);
    if HasKey(messages, key) {
      var k :| 0 <= k < |messages| && messages[k].key == key;
      assert put[k] == Entry(key, m);
      if e in messages {
        var i :| 0 <= i < |messages| && messages[i] == e;
        assert put[i] == if e.key == key then Entry(key, m) else e;
      }
    }
  }

  lemma {:induction false} WithoutContents(messages: Messages, lobby: string, e: Entry)
    ensures e in Without(messages, lobby) <==> e in messages && !About(e.message, lobby)
  {
    if messages != [] {
      WithoutContents(messages[..|messages| - 1], lobby, e);
      assert messages == messages[..|messages| - 1] + [messages[|messages| - 1]];
    }
  }

  /** Removing messages leaves the others in their order. */
  lemma {:induction false} WithoutKeepsOrder(messages: Messages, lobby: string, x: nat, y: nat) returns (x': nat, y': nat)
    requires x < y < |Without(messages, lobby)|
    ensures x' < y' < |messages| && messages[x'] == Without(messages, lobby)[x] && messages[y'] == Without(messages, lobby)[y]
  {
    var before, last := messages[..|messages| - 1], messages[|messages| - 1];
    if y < |Without(before, lobby)| {
      x', y' := WithoutKeepsOrder(before, lobby, x, y);
    } else {
      y' := |messages| - 1;
      x' := WithoutAt(before, lobby, x);
    }
  }

  lemma {:induction false} WithoutAt(messages: Messages, lobby: string, x: nat) returns (x': nat)
    requires x < |Without(messages, lobby)|
    ensures x' < |messages| && messages[x'] == Without(messages, lobby)[x]
  {
    assert Without(messages, lobby)[x] in Without(messages, lobby);
    WithoutContents(messages, lobby, Without(messages, lobby)[x]);
    x' :| 0 <= x' < |messages| && messages[x'] == Without(messages, lobby)[x];
  }
}
