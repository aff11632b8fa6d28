/** The merge of incoming messages into the window a client shows: echoes replace optimistic
    entries in place, known ids are skipped, the rest is put in front or behind, and the window
    is cut to its cap. */
module MessageWindow {
  import opened Options

  type Reactions = map<string, seq<string>>

  datatype Message = Message(
    id: string,
    clientId: Option<string>,
    username: string,
    content: string,
    timestamp: int,
    reactions: Option<Reactions>,
    deleted: bool,
    edited: bool,
    dedupeKey: Option<string>)

  datatype Direction = Prepend | Append

  datatype Side = Head | Tail

  datatype MergeResult = MergeResult(messages: seq<Message>, addedCount: nat, droppedSide: Option<Side>, revision: nat)

  const OPTIMISTIC := "optimistic_"
  const TWIN_SCAN := 5
  const TWIN_WINDOW_MS := 5000

  predicate IsOptimistic(id: string) {
    OPTIMISTIC <= id
  }

  function Ids(messages: seq<Message>): set<string> {
    set m | m in messages :: m.id
  }

  /** The entry the server's copy of a message the user just sent replaces, when the server does
      not name it. */
  predicate Twin(m: Message, msg: Message) {
    && IsOptimistic(m.id)
    && m.username == msg.username && m.content == msg.content
    && -TWIN_WINDOW_MS < m.timestamp - msg.timestamp < TWIN_WINDOW_MS
  }

  predicate NamesClientId(msg: Message) {
    msg.clientId.Some? && msg.clientId.value != ""
  }

  /** The first entry with this id. */
  function IndexOf(messages: seq<Message>, id: string): (i: Option<nat>)
    ensures i.Some? ==> i.value < |messages| && messages[i.value].id == id
                        && forall j | 0 <= j < i.value :: messages[j].id != id
    ensures i == None ==> forall j | 0 <= j < |messages| :: messages[j].id != id
  {
    if messages == [] then None
    else
      var n := |messages| - 1;
      var i := IndexOf(messages[..n], id);
      if i.Some? then i else if messages[n].id == id then Some(n) else None
  }

  /** The last twin below `end`, not below `start`. */
  function LastTwin(messages: seq<Message>, msg: Message, start: nat, end: nat): (i: Option<nat>)
    requires start <= end <= |messages|
    ensures i.Some? ==> start <= i.value < end && Twin(messages[i.value], msg)
                        && forall j | i.value < j < end :: !Twin(messages[j], msg)
    ensures i == None ==> forall j | start <= j < end :: !Twin(messages[j], msg)
  {
    if start == end then None
    else if Twin(messages[end - 1], msg) then Some(end - 1)
    else LastTwin(messages, msg, start, end - 1)
  }

  function ScanStart(messages: seq<Message>): nat {
    if |messages| < TWIN_SCAN then 0 else |messages| - TWIN_SCAN
  }

  /** The entry an incoming message is the echo of: the one it names, else the nearest twin
      among the last five. */
  function EchoSlot(messages: seq<Message>, msg: Message): (i: Option<nat>)
    ensures i.Some? ==> i.value < |messages|
  {
    if NamesClientId(msg) && IndexOf(messages, msg.clientId.value).Some? then IndexOf(messages, msg.clientId.value)
    else if IsOptimistic(msg.id) then None
    else LastTwin(messages, msg, ScanStart(messages), |messages|)
  }

  /** What makes entry `i` the one that `msg` takes the place of. If `msg` names the id of an entry,
      the first such entry; otherwise `msg` must not be optimistic itself, and the entry must be the
      last among the last five with an optimistic id, the same author and text, and a time less than
      five seconds away. */
  predicate EchoedAt(messages: seq<Message>, msg: Message, i: int)
    requires 0 <= i < |messages|
  {
    if msg.clientId.Some? && msg.clientId.value != "" && exists j | 0 <= j < |messages| :: messages[j].id == msg.clientId.value
    then messages[i].id == msg.clientId.value && forall j | 0 <= j < i :: messages[j].id != msg.clientId.value
    else
      && !("optimistic_" <= msg.id) && |messages| - 5 <= i
      && "optimistic_" <= messages[i].id && messages[i].username == msg.username && messages[i].content == msg.content
      && -5000 < messages[i].timestamp - msg.timestamp < 5000
      && forall j | i < j < |messages| && "optimistic_" <= messages[j].id ::
           messages[j].username != msg.username || messages[j].content != msg.content
           || messages[j].timestamp - msg.timestamp <= -5000 || messages[j].timestamp - msg.timestamp >= 5000
  }

  /** The two searches find that entry, and nothing else. */
  lemma EchoIff(messages: seq<Message>, msg: Message, i: nat)
    requires i < |messages|
    ensures EchoSlot(messages, msg) == Some(i) <==> EchoedAt(messages, msg, i)
  {
    hide LastTwin, IndexOf;
    var slot := EchoSlot(messages, msg);
    if EchoedAt(messages, msg, i) {
      assert slot.Some?;
    }
  }

  datatype Merging = Merging(messages: seq<Message>, known: set<string>, added: seq<Message>)

  function Begin(current: seq<Message>): Merging {
    Merging(current, Ids(current), [])
  }

  /** One incoming message: echo, duplicate or new. */
  function Absorb(st: Merging, msg: Message): Merging {
    var slot := EchoSlot(st.messages, msg);
    if slot.Some? then
      var echo := msg.(reactions := st.messages[slot.value].reactions);
      Merging(st.messages[slot.value := echo], st.known + {msg.id}, st.added)
    else if msg.id in st.known then st
    else Merging(st.messages, st.known + {msg.id}, st.added + [msg])
  }

  function AbsorbAll(current: seq<Message>, incoming: seq<Message>): Merging {
    if incoming == [] then Begin(current)
    else Absorb(AbsorbAll(current, incoming[..|incoming| - 1]), incoming[|incoming| - 1])
  }

  /** Joined in the given direction and cut to the cap: a prepend keeps the head and loses the
      newest, an append keeps the tail and loses the oldest. */
  function Joined(messages: seq<Message>, added: seq<Message>, direction: Direction): seq<Message> {
    if direction == Prepend then added + messages else messages + added
  }

  function Cut(messages: seq<Message>, direction: Direction, cap: nat): seq<Message> {
    if |messages| <= cap then messages
    else if direction == Prepend then messages[..cap]
    else messages[|messages| - cap..]
  }

  function Merge(current: seq<Message>, incoming: seq<Message>, direction: Direction, cap: nat, revision: nat): MergeResult {
    var st := AbsorbAll(current, incoming);
    if st.added == [] then MergeResult(st.messages, 0, None, revision)
    else
      var all := Joined(st.messages, st.added, direction);
      MergeResult(Cut(all, direction, cap), |st.added|,
                  if |all| <= cap then None else Some(if direction == Prepend then Tail else Head),
                  revision + 1)
  }

  lemma OneMoreIncoming(current: seq<Message>, incoming: seq<Message>, msg: Message)
    ensures AbsorbAll(current, incoming + [msg]) == Absorb(AbsorbAll(current, incoming), msg)
  {
    assert (incoming + [msg])[..|incoming|] == incoming;
  }

  /** The module with its counter. */
  class WindowMerger {
    var revisionCounter: nat

    constructor ()
      ensures revisionCounter == 0
    {
      revisionCounter := 0;
    }

    method MergeMessageWindow(current: seq<Message>, incoming: seq<Message>, direction: Direction, cap: nat)
        returns (result: MergeResult)
      modifies this
      ensures result == Merge(current, incoming, direction, cap, old(revisionCounter))
      ensures revisionCounter == result.revision
    {
      assert AbsorbAll(current, []) == Begin(current) && incoming[..0] == [];
      hide AbsorbAll, EchoSlot;
      if |incoming| == 0 {
        assert incoming == [];
        return MergeResult(current, 0, None, revisionCounter);
      }
      var messages := current;
      var existingIds := set m | m in messages :: m.id;
      var newMessages := [];
      for k := 0 to |incoming|
        invariant Merging(messages, existingIds, newMessages) == AbsorbAll(current, incoming[..k])
        invariant |messages| == |current| && revisionCounter == old(revisionCounter)
      {
        var msg := incoming[k];
        OneMoreIncoming(current, incoming[..k], msg);
        assert incoming[..k + 1] == incoming[..k] + [msg];
        var slot := FindEcho(messages, msg);
        if slot >= 0 {
          messages := messages[slot := msg.(reactions := messages[slot].reactions)];
          existingIds := existingIds + {msg.id};
        } else if msg.id !in existingIds {
          newMessages := newMessages + [msg];
          existingIds := existingIds + {msg.id};
        }
      }
      assert incoming[..|incoming|] == incoming;
      if |newMessages| == 0 && |messages| == |current| {
        return MergeResult(messages, 0, None, revisionCounter);
      }
      var addedCount, droppedSide := |newMessages|, None;
      messages, droppedSide := JoinAndCut(messages, newMessages, direction, cap);
      revisionCounter := revisionCounter + 1;
      return MergeResult(messages, addedCount, droppedSide, revisionCounter);
    }

    /** Puts the new messages in front or behind, and enforces the cap. */
    method JoinAndCut(messages: seq<Message>, newMessages: seq<Message>, direction: Direction, cap: nat)
        returns (shown: seq<Message>, droppedSide: Option<Side>)
      ensures var all := Joined(messages, newMessages, direction);
              shown == Cut(all, direction, cap)
              && droppedSide == if |all| <= cap then None else Some(if direction == Prepend then Tail else Head)
    {
      shown := if direction == Prepend then newMessages + messages else messages + newMessages;
      droppedSide := None;
      if |shown| > cap {
        if direction == Prepend {
          shown, droppedSide := shown[..cap], Some(Tail);
        } else {
          shown, droppedSide := shown[|shown| - cap..], Some(Head);
        }
      }
    }

    /** The two searches of the source, forwards by client id and backwards over the last five;
        -1 for none. */
    method FindEcho(messages: seq<Message>, msg: Message) returns (slot: int)
      ensures EchoSlot(messages, msg) == if slot < 0 then None else Some(slot)
      ensures slot < |messages|
      ensures forall i | 0 <= i < |messages| :: i == slot <==> EchoedAt(messages, msg, i)
    {
      forall i | 0 <= i < |messages| ensures EchoSlot(messages, msg) == Some(i) <==> EchoedAt(messages, msg, i) {
        EchoIff(messages, msg, i);
      }
      hide EchoedAt;
      if NamesClientId(msg) {
        var i := 0;
        while i < |messages|
          invariant 0 <= i <= |messages|
          invariant forall j | 0 <= j < i :: messages[j].id != msg.clientId.value
        {
          if messages[i].id == msg.clientId.value {
            return i;
          }
          i := i + 1;
        }
      }
      if !IsOptimistic(msg.id) {
        var start := if |messages| < TWIN_SCAN then 0 else |messages| - TWIN_SCAN;
        var i := |messages| - 1;
        while i >= start
          invariant start - 1 <= i < |messages|
          invariant forall j | i < j < |messages| :: !Twin(messages[j], msg)
        {
          if Twin(messages[i], msg) {
            return i;
          }
          i := i - 1;
        }
      }
      return -1;
    }
  }
}
