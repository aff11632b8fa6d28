/** The store actions over the two message windows, and what every run of them keeps. */
module ChatStore {
  import opened Options
  import opened MessageWindow
  import opened MergeTheorems

  const MESSAGE_CAP := 500
  const HISTORY_CAP := 1000
  const SYSTEM := "system"

  datatype Store = Store(
    messages: seq<Message>,
    privateBotMessages: seq<Message>,
    blockedUsers: set<string>,
    historyLoaded: bool,
    revision: nat)               // the merge module's counter

  const EMPTY := Store([], [], {}, false, 0)

  datatype Action =
    | AddMessage(msg: Message)
    | DeleteMessage(id: string)
    | EditMessage(id: string, content: string)
    | AddSystemMessage(content: string, timestamp: int, dedupeKey: Option<string>, newId: string)
    | SetHistory(batch: seq<Message>)
    | PrependHistory(batch: seq<Message>)
    | AddPrivateBotMessage(msg: Message)
    | SetPrivateBotHistory(batch: seq<Message>)
    | SetBlockedUsers(users: set<string>)
    | Reset

  function MergePublic(s: Store, batch: seq<Message>, direction: Direction, cap: nat): Store {
    var r := Merge(s.messages, batch, direction, cap, s.revision);
    s.(messages := r.messages, revision := r.revision)
  }

  function MergePrivate(s: Store, batch: seq<Message>): Store {
    var r := Merge(s.privateBotMessages, batch, Append, MESSAGE_CAP, s.revision);
    s.(privateBotMessages := r.messages, revision := r.revision)
  }

  function Without(messages: seq<Message>, id: string): seq<Message> {
    if messages == [] then []
    else
      var n := |messages| - 1;
      if messages[n].id == id then Without(messages[..n], id) else Without(messages[..n], id) + [messages[n]]
  }

  function Edited(messages: seq<Message>, id: string, content: string): seq<Message> {
    seq(|messages|, i requires 0 <= i < |messages| =>
      if messages[i].id == id then messages[i].(content := content, edited := true) else messages[i])
  }

  predicate NamesKey(key: Option<string>) {
    key.Some? && key.value != ""
  }

  function SystemLine(content: string, timestamp: int, key: Option<string>, id: string): Message {
    Message(id, None, SYSTEM, content, timestamp, None, false, false, key)
  }

  /** Repeated system lines are folded into the last one; a new line gets a random id. */
  function AddSystem(s: Store, content: string, timestamp: int, key: Option<string>, newId: string): Store {
    var n := |s.messages|;
    if n > 0 && s.messages[n - 1].username == SYSTEM && NamesKey(key) && s.messages[n - 1].dedupeKey == key then
      s.(messages := s.messages[..n - 1] + [s.messages[n - 1].(content := content, timestamp := timestamp)])
    else if n > 0 && s.messages[n - 1].username == SYSTEM && s.messages[n - 1].content == content then
      s.(messages := s.messages[..n - 1] + [s.messages[n - 1].(timestamp := timestamp)])
    else MergePublic(s, [SystemLine(content, timestamp, key, newId)], Append, MESSAGE_CAP)
  }

  function Apply(s: Store, a: Action): Store {
    match a
    case AddMessage(msg) => if msg.username in s.blockedUsers then s else MergePublic(s, [msg], Append, MESSAGE_CAP)
    case DeleteMessage(id) => s.(messages := Without(s.messages, id))
    case EditMessage(id, content) => s.(messages := Edited(s.messages, id, content))
    case AddSystemMessage(content, timestamp, key, newId) => AddSystem(s, content, timestamp, key, newId)
    case SetHistory(batch) => MergePublic(s, batch, Append, MESSAGE_CAP).(historyLoaded := true)
    case PrependHistory(batch) => MergePublic(s, batch, Prepend, HISTORY_CAP)
    case AddPrivateBotMessage(msg) => MergePrivate(s, [msg])
    case SetPrivateBotHistory(batch) => MergePrivate(s, batch)
    case SetBlockedUsers(users) => s.(blockedUsers := users)
    case Reset => s.(messages := [], historyLoaded := false, blockedUsers := {})
  }

  /** The optimistic copy of what the user just sent: its own fresh id is its client id. */
  predicate FreshOptimistic(current: seq<Message>, msg: Message) {
    IsOptimistic(msg.id) && msg.clientId == Some(msg.id) && msg.id !in Ids(current)
  }

  /** No merge of the action clobbers; see `MergeTheorems.BatchDistinctIff` for why nothing less will
      do, and the lemmas below for who cannot clobber. */
  predicate Safe(s: Store, a: Action) {
    match a
    case AddMessage(msg) => msg.username in s.blockedUsers || NoClobber(s.messages, [msg])
    case AddSystemMessage(content, timestamp, key, newId) =>
      NoClobber(s.messages, [SystemLine(content, timestamp, key, newId)])
    case SetHistory(batch) => NoClobber(s.messages, batch)
    case PrependHistory(batch) => NoClobber(s.messages, batch)
    case AddPrivateBotMessage(msg) => NoClobber(s.privateBotMessages, [msg])
    case SetPrivateBotHistory(batch) => NoClobber(s.privateBotMessages, batch)
    case _ => true
  }

  /** What the user just sent cannot clobber. */
  lemma FreshNeverClobbers(current: seq<Message>, msg: Message)
    requires FreshOptimistic(current, msg)
    ensures NoClobber(current, [msg])
  {
    assert [msg][..0] == [] && AbsorbAll(current, []) == Begin(current);
    assert forall j | 0 <= j < |current| :: current[j] in current;
    assert EchoSlot(current, msg) == None;
  }

  /** A message with a new id cannot clobber, whatever client id it names; nor can one that echoes
      nothing. */
  lemma NewIdNeverClobbers(current: seq<Message>, msg: Message)
    requires msg.id !in Ids(current) || EchoSlot(current, msg) == None
    ensures NoClobber(current, [msg])
  {
    assert [msg][..0] == [] && AbsorbAll(current, []) == Begin(current);
    assert forall j | 0 <= j < |current| :: current[j] in current;
    hide EchoSlot;
  }

  predicate Sound(s: Store) {
    && Distinct(s.messages) && Distinct(s.privateBotMessages)
    && |s.messages| <= 1000 && |s.privateBotMessages| <= 500
  }

  lemma MergeWithinCap(current: seq<Message>, batch: seq<Message>, direction: Direction, cap: nat, revision: nat, most: nat)
    requires |current| <= most && cap <= most
    ensures |Merge(current, batch, direction, cap, revision).messages| <= most
  {
    EntriesKeptOrEchoed(current, batch);
    hide AbsorbAll;
  }

  lemma {:induction false} WithoutKeepsDistinct(messages: seq<Message>, id: string)
    requires Distinct(messages)
    ensures Distinct(Without(messages, id)) && |Without(messages, id)| <= |messages|
    ensures forall m :: m in Without(messages, id) <==> m in messages && m.id != id
  {
    if messages != [] {
      var n := |messages| - 1;
      WithoutKeepsDistinct(messages[..n], id);
      var rest := Without(messages[..n], id);
      assert messages == messages[..n] + [messages[n]];
      forall i | 0 <= i < |rest| ensures rest[i].id != messages[n].id {
        assert rest[i] in messages[..n];
      }
    }
  }

  lemma SystemKeepsSound(s: Store, content: string, timestamp: int, key: Option<string>, newId: string)
    requires Sound(s) && Safe(s, AddSystemMessage(content, timestamp, key, newId))
    ensures Sound(AddSystem(s, content, timestamp, key, newId))
  {
    var line := SystemLine(content, timestamp, key, newId);
    MergeKeepsDistinct(s.messages, [line], Append, MESSAGE_CAP, s.revision);
    MergeWithinCap(s.messages, [line], Append, MESSAGE_CAP, s.revision, HISTORY_CAP);
    hide Merge, NoClobber;
  }

  lemma PublicKeepsSound(s: Store, batch: seq<Message>, direction: Direction, cap: nat)
    requires Sound(s) && NoClobber(s.messages, batch) && cap <= HISTORY_CAP
    ensures Sound(MergePublic(s, batch, direction, cap))
  {
    MergeKeepsDistinct(s.messages, batch, direction, cap, s.revision);
    MergeWithinCap(s.messages, batch, direction, cap, s.revision, HISTORY_CAP);
    hide Merge, NoClobber, Distinct;
  }

  lemma PrivateKeepsSound(s: Store, batch: seq<Message>)
    requires Sound(s) && NoClobber(s.privateBotMessages, batch)
    ensures Sound(MergePrivate(s, batch))
  {
    MergeKeepsDistinct(s.privateBotMessages, batch, Append, MESSAGE_CAP, s.revision);
    MergeWithinCap(s.privateBotMessages, batch, Append, MESSAGE_CAP, s.revision, MESSAGE_CAP);
    hide Merge, NoClobber, Distinct;
  }

  lemma ActionKeepsSound(s: Store, a: Action)
    requires Sound(s) && Safe(s, a)
    ensures Sound(Apply(s, a))
  {
    hide NoClobber, AddSystem, Without, MergePublic, MergePrivate, Distinct;
    match a
    case AddMessage(msg) =>
      if msg.username !in s.blockedUsers {
        PublicKeepsSound(s, [msg], Append, MESSAGE_CAP);
      }
    case DeleteMessage(id) => WithoutKeepsDistinct(s.messages, id);
    case EditMessage(id, content) => EditedKeepsDistinct(s.messages, id, content);
    case AddSystemMessage(content, timestamp, key, newId) => SystemKeepsSound(s, content, timestamp, key, newId);
    case SetHistory(batch) => PublicKeepsSound(s, batch, Append, MESSAGE_CAP);
    case PrependHistory(batch) => PublicKeepsSound(s, batch, Prepend, HISTORY_CAP);
    case AddPrivateBotMessage(msg) => PrivateKeepsSound(s, [msg]);
    case SetPrivateBotHistory(batch) => PrivateKeepsSound(s, batch);
    case SetBlockedUsers(users) =>
    case Reset => NothingDistinct();
  }

  lemma NothingDistinct()
    ensures Distinct([])
  {
  }

  lemma EditedKeepsDistinct(messages: seq<Message>, id: string, content: string)
    requires Distinct(messages)
    ensures Distinct(Edited(messages, id, content)) && |Edited(messages, id, content)| == |messages|
  {
  }

  function Run(actions: seq<Action>): Store {
    if actions == [] then EMPTY else Apply(Run(actions[..|actions| - 1]), actions[|actions| - 1])
  }

  predicate SafeRun(actions: seq<Action>) {
    actions != [] ==>
      SafeRun(actions[..|actions| - 1]) && Safe(Run(actions[..|actions| - 1]), actions[|actions| - 1])
  }

  /** In every run, no id is ever shown twice in either window, and neither outgrows its cap. */
  lemma {:induction false} IdsStayDistinct(actions: seq<Action>)
    requires SafeRun(actions)
    ensures Distinct(Run(actions).messages) && Distinct(Run(actions).privateBotMessages)
    ensures |Run(actions).messages| <= 1000 && |Run(actions).privateBotMessages| <= 500
  {
    if actions != [] {
      IdsStayDistinct(actions[..|actions| - 1]);
      ActionKeepsSound(Run(actions[..|actions| - 1]), actions[|actions| - 1]);
    }
  }

  // What the actions do to the window.

  /** A message at the bottom of a window of at most five hundred: it takes the place of the entry it
      echoes, is skipped if its id is shown, and else pushes the oldest of a full window out. */
  predicate PutLast(was: seq<Message>, msg: Message, now: seq<Message>) {
    && (forall i | 0 <= i < |was| && EchoedAt(was, msg, i) :: now == was[i := msg.(reactions := was[i].reactions)])
    && ((forall i | 0 <= i < |was| :: !EchoedAt(was, msg, i)) ==>
          if exists j | 0 <= j < |was| :: was[j].id == msg.id then now == was
          else if |was| < 500 then now == was + [msg]
          else now == (was + [msg])[|was| + 1 - 500..])
  }

  lemma MergeOfOnePutsLast(was: seq<Message>, msg: Message, revision: nat)
    ensures PutLast(was, msg, Merge(was, [msg], Append, 500, revision).messages)
  {
    SingleMergeIs(was, msg, Append, 500, revision);
    hide Merge, EchoedAt;
  }

  /** A live message goes to the public window unless its author is blocked, a bot's answer to the
      private one. */
  lemma AddedIs(s: Store, msg: Message)
    ensures var s' := Apply(s, AddMessage(msg));
            if msg.username in s.blockedUsers then s' == s
            else PutLast(s.messages, msg, s'.messages) && s' == s.(messages := s'.messages, revision := s'.revision)
    ensures var s' := Apply(s, AddPrivateBotMessage(msg));
            PutLast(s.privateBotMessages, msg, s'.privateBotMessages)
            && s' == s.(privateBotMessages := s'.privateBotMessages, revision := s'.revision)
  {
    MergeOfOnePutsLast(s.messages, msg, s.revision);
    MergeOfOnePutsLast(s.privateBotMessages, msg, s.revision);
    hide Merge, PutLast;
  }

  /** `rest` are the messages at the positions `kept`, which are in order and all but those of `id`. */
  predicate KeepsOthers(messages: seq<Message>, id: string, rest: seq<Message>, kept: seq<nat>) {
    && |rest| == |kept|
    && (forall k | 0 <= k < |kept| :: kept[k] < |messages| && messages[kept[k]].id != id && rest[k] == messages[kept[k]])
    && (forall j, k | 0 <= j < k < |kept| :: kept[j] < kept[k])
    && (forall i | 0 <= i < |messages| && messages[i].id != id :: i in kept)
  }

  lemma OneMoreKept(messages: seq<Message>, last: Message, id: string, rest: seq<Message>, kept: seq<nat>)
    requires KeepsOthers(messages, id, rest, kept)
    ensures if last.id == id then KeepsOthers(messages + [last], id, rest, kept)
            else KeepsOthers(messages + [last], id, rest + [last], kept + [|messages|])
  {
    var all := messages + [last];
    assert all[|messages|] == last && forall i | 0 <= i < |messages| :: all[i] == messages[i];
    var longer := kept + [|messages|];
    assert |messages| == longer[|kept|];
    forall i | 0 <= i < |messages| && messages[i].id != id ensures i in longer {
      assert i in kept;
    }
  }

  /** Deleting takes out the entries with the id, all of them, and keeps the rest in their order. */
  lemma DeletedIs(s: Store, id: string) returns (kept: seq<nat>)
    ensures var s' := Apply(s, DeleteMessage(id));
            s' == s.(messages := s'.messages) && KeepsOthers(s.messages, id, s'.messages, kept)
  {
    kept := WithoutKeeps(s.messages, id);
    hide Without, KeepsOthers;
  }

  lemma {:induction false} WithoutKeeps(messages: seq<Message>, id: string) returns (kept: seq<nat>)
    ensures KeepsOthers(messages, id, Without(messages, id), kept)
  {
    kept := [];
    if messages != [] {
      var n := |messages| - 1;
      kept := WithoutKeeps(messages[..n], id);
      OneMoreKept(messages[..n], messages[n], id, Without(messages[..n], id), kept);
      assert messages[..n] + [messages[n]] == messages;
      hide KeepsOthers;
      kept := if messages[n].id == id then kept else kept + [n];
    }
  }

  /** Editing changes the text of the entries with the id and marks them. */
  lemma EditedIs(s: Store, id: string, content: string)
    ensures var s' := Apply(s, EditMessage(id, content));
            && s' == s.(messages := s'.messages) && |s'.messages| == |s.messages|
            && forall i | 0 <= i < |s.messages| ::
                 var was, now := s.messages[i], s'.messages[i];
                 if was.id == id then now.content == content && now.edited && now == was.(content := now.content, edited := true)
                 else now == was
  {
    hide Merge, AddSystem, Without;
  }

  /** A system line is folded into the last line, if that is a system line with the same key (then
      text and time are replaced) or the same text (then the time is); else it is put last. */
  lemma SystemLineIs(s: Store, content: string, timestamp: int, key: Option<string>, newId: string)
    ensures var s', n := Apply(s, AddSystemMessage(content, timestamp, key, newId)), |s.messages|;
            var last := if n > 0 && s.messages[n - 1].username == "system" then Some(s.messages[n - 1]) else None;
            && s' == s.(messages := s'.messages, revision := s'.revision)
            && if last.Some? && (last.value.content == content || (key.Some? && key.value != "" && last.value.dedupeKey == key))
               then s'.messages == s.messages[n - 1 := last.value.(content := content, timestamp := timestamp)]
               else PutLast(s.messages, Message(newId, None, "system", content, timestamp, None, false, false, key), s'.messages)
  {
    MergeOfOnePutsLast(s.messages, SystemLine(content, timestamp, key, newId), s.revision);
    hide Merge, PutLast;
  }

  /** A greeting's new messages go behind those shown, and the last five hundred stay; an older
      page's go in front, and the first thousand stay. Without new ones nothing is cut. */
  lemma HistoryIs(s: Store, batch: seq<Message>)
    ensures var s', patched := Apply(s, SetHistory(batch)), AbsorbAll(s.messages, batch).messages;
            var all := patched + NewOnes(batch, Fates(s.messages, batch));
            && s' == s.(messages := s'.messages, revision := s'.revision, historyLoaded := true)
            && s'.messages == if |all| == |patched| || |all| <= 500 then all else all[|all| - 500..]
    ensures var s', patched := Apply(s, PrependHistory(batch)), AbsorbAll(s.messages, batch).messages;
            var all := NewOnes(batch, Fates(s.messages, batch)) + patched;
            && s' == s.(messages := s'.messages, revision := s'.revision)
            && s'.messages == if |all| == |patched| || |all| <= 1000 then all else all[..1000]
  {
    AddedAreNew(s.messages, batch);
    hide AbsorbAll, NewOnes, Fates;
    var patched := AbsorbAll(s.messages, batch).messages;
    assert patched + [] == patched && [] + patched == patched;
  }
}
