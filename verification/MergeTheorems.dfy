/** What a merge does, said without its loop: which incoming messages are echoes, duplicates or
    new, what becomes of each entry, and exactly when ids stay distinct. */
module MergeTheorems {
  import opened Options
  import opened MessageWindow

  // The exact result.

  datatype Fate = Echoed | Skipped | Added

  /** What becomes of `msg` after the messages `before` it: an echo if it has a slot, else a
      duplicate if its id was in the window or came earlier in the batch, else new. */
  function FateOf(current: seq<Message>, before: seq<Message>, msg: Message): Fate {
    if EchoSlot(AbsorbAll(current, before).messages, msg).Some? then Echoed
    else if msg.id in Ids(current) + Ids(before) then Skipped
    else Added
  }

  function Fates(current: seq<Message>, incoming: seq<Message>): (f: seq<Fate>)
    ensures |f| == |incoming|
  {
    if incoming == [] then []
    else
      var n := |incoming| - 1;
      Fates(current, incoming[..n]) + [FateOf(current, incoming[..n], incoming[n])]
  }

  /** The new messages of a batch, in their order. */
  function NewOnes(incoming: seq<Message>, fates: seq<Fate>): seq<Message>
    requires |fates| == |incoming|
  {
    if incoming == [] then []
    else
      var n := |incoming| - 1;
      var before := NewOnes(incoming[..n], fates[..n]);
      if fates[n] == Added then before + [incoming[n]] else before
  }

  function Tally(fates: seq<Fate>, fate: Fate): nat {
    if fates == [] then 0
    else
      var n := |fates| - 1;
      Tally(fates[..n], fate) + if fates[n] == fate then 1 else 0
  }

  lemma IdsOfSnoc(messages: seq<Message>, msg: Message)
    ensures Ids(messages + [msg]) == Ids(messages) + {msg.id}
  {
    forall id | id in Ids(messages) + {msg.id} ensures id in Ids(messages + [msg]) {
      if id in Ids(messages) {
        var m :| m in messages && m.id == id;
        assert m in messages + [msg];
      } else {
        assert msg in messages + [msg];
      }
    }
  }

  /** The ids a merge skips are those of the window and of the batch so far. */
  lemma {:induction false} KnownIds(current: seq<Message>, incoming: seq<Message>)
    ensures AbsorbAll(current, incoming).known == Ids(current) + Ids(incoming)
  {
    if incoming != [] {
      var before, msg := incoming[..|incoming| - 1], incoming[|incoming| - 1];
      assert incoming == before + [msg];
      KnownIds(current, before);
      OneMoreIncoming(current, before, msg);
      IdsOfSnoc(before, msg);
      hide AbsorbAll, EchoSlot, Ids;
    }
  }

  /** The messages a merge adds are the new ones, and every message has one fate. */
  lemma {:induction false} AddedAreNew(current: seq<Message>, incoming: seq<Message>)
    ensures var fates := Fates(current, incoming);
            && AbsorbAll(current, incoming).added == NewOnes(incoming, fates)
            && Tally(fates, Added) == |AbsorbAll(current, incoming).added|
            && Tally(fates, Echoed) + Tally(fates, Skipped) + Tally(fates, Added) == |incoming|
  {
    if incoming != [] {
      var n := |incoming| - 1;
      var before, msg := incoming[..n], incoming[n];
      assert incoming == before + [msg];
      AddedAreNew(current, before);
      OneMoreIncoming(current, before, msg);
      KnownIds(current, before);
      var fates := Fates(current, incoming);
      assert fates[..n] == Fates(current, before) && fates[n] == FateOf(current, before, msg);
      hide AbsorbAll, EchoSlot, Ids, Fates;
    }
  }

  /** An entry is kept, or replaced in place by an incoming message whose fate is to be an echo;
      the echo inherits the reactions. */
  predicate KeptOrEchoed(entry: Message, was: Message, incoming: seq<Message>, fates: seq<Fate>)
    requires |fates| == |incoming|
  {
    entry == was
    || exists k | 0 <= k < |incoming| :: fates[k] == Echoed && entry == incoming[k].(reactions := was.reactions)
  }

  lemma KeptOrEchoedGrows(entry: Message, was: Message, incoming: seq<Message>, fates: seq<Fate>, msg: Message, fate: Fate)
    requires |fates| == |incoming| && KeptOrEchoed(entry, was, incoming, fates)
    ensures KeptOrEchoed(entry, was, incoming + [msg], fates + [fate])
  {
    if entry != was {
      var k :| 0 <= k < |incoming| && fates[k] == Echoed && entry == incoming[k].(reactions := was.reactions);
      assert (fates + [fate])[k] == Echoed && entry == (incoming + [msg])[k].(reactions := was.reactions);
    }
  }

  lemma {:induction false} EntriesKeptOrEchoed(current: seq<Message>, incoming: seq<Message>)
    ensures var patched := AbsorbAll(current, incoming).messages;
            && |patched| == |current|
            && forall i | 0 <= i < |current| :: KeptOrEchoed(patched[i], current[i], incoming, Fates(current, incoming))
  {
    if incoming != [] {
      var n := |incoming| - 1;
      var before, msg := incoming[..n], incoming[n];
      EntriesKeptOrEchoed(current, before);
      EchoInPlace(current, before, msg);
      assert incoming == before + [msg];
      var fates, fate := Fates(current, before), FateOf(current, before, msg);
      var was, patched := AbsorbAll(current, before).messages, AbsorbAll(current, incoming).messages;
      assert Fates(current, incoming) == fates + [fate];
      hide AbsorbAll, EchoSlot, FateOf, Fates;
      forall i | 0 <= i < |current| ensures KeptOrEchoed(patched[i], current[i], incoming, fates + [fate]) {
        if patched[i] == was[i] {
          KeptOrEchoedGrows(was[i], current[i], before, fates, msg, fate);
        } else {
          assert was[i].reactions == current[i].reactions;
          assert (fates + [fate])[n] == Echoed && patched[i] == incoming[n].(reactions := current[i].reactions);
        }
      }
    }
  }

  lemma EchoInPlace(current: seq<Message>, before: seq<Message>, msg: Message)
    ensures var was, patched := AbsorbAll(current, before).messages, AbsorbAll(current, before + [msg]).messages;
            && |patched| == |was|
            && forall i | 0 <= i < |was| && patched[i] != was[i] ::
                 FateOf(current, before, msg) == Echoed && patched[i] == msg.(reactions := was[i].reactions)
  {
    OneMoreIncoming(current, before, msg);
    hide AbsorbAll;
  }

  /** The whole result. An append is the newest `cap` of patched ++ new, a prepend the oldest
      `cap` of new ++ patched; without new messages nothing is cut and no revision is spent. */
  lemma MergeIsExact(current: seq<Message>, incoming: seq<Message>, direction: Direction, cap: nat, revision: nat)
    ensures var patched := AbsorbAll(current, incoming).messages;
            var added := NewOnes(incoming, Fates(current, incoming));
            var r := Merge(current, incoming, direction, cap, revision);
            var all := if direction == Append then patched + added else added + patched;
            && r.addedCount == |added|
            && r.revision == revision + (if added != [] then 1 else 0)
            && (r.droppedSide.Some? <==> added != [] && |all| > cap)
            && (r.droppedSide == None ==> r.messages == all)
            && (r.droppedSide.Some? && direction == Append ==>
                  r.droppedSide.value == Head && |r.messages| == cap && exists cut :: all == cut + r.messages)
            && (r.droppedSide.Some? && direction == Prepend ==>
                  r.droppedSide.value == Tail && |r.messages| == cap && r.messages <= all)
  {
    AddedAreNew(current, incoming);
    EntriesKeptOrEchoed(current, incoming);
    hide AbsorbAll, Fates, NewOnes;
    var st := AbsorbAll(current, incoming);
    var all := Joined(st.messages, st.added, direction);
    assert st.messages + [] == st.messages && [] + st.messages == st.messages;
    if |all| > cap {
      assert all == all[..|all| - cap] + all[|all| - cap..];
    }
  }

  /** One message of a batch: it takes the place of the entry it echoes, keeping that entry's
      reactions; else it is skipped if its id is in the window or came earlier in the batch; else it
      is added behind the new ones so far. */
  lemma NextMessageIs(current: seq<Message>, before: seq<Message>, msg: Message)
    ensures var st, st' := AbsorbAll(current, before), AbsorbAll(current, before + [msg]);
            && (forall i | 0 <= i < |st.messages| && EchoedAt(st.messages, msg, i) ::
                  st'.messages == st.messages[i := msg.(reactions := st.messages[i].reactions)] && st'.added == st.added)
            && ((forall i | 0 <= i < |st.messages| :: !EchoedAt(st.messages, msg, i)) ==>
                  st'.messages == st.messages
                  && st'.added == if msg.id in Ids(current) + Ids(before) then st.added else st.added + [msg])
  {
    OneMoreIncoming(current, before, msg);
    KnownIds(current, before);
    var st := AbsorbAll(current, before);
    forall i | 0 <= i < |st.messages| ensures EchoSlot(st.messages, msg) == Some(i) <==> EchoedAt(st.messages, msg, i) {
      EchoIff(st.messages, msg, i);
    }
    hide AbsorbAll, EchoSlot, EchoedAt, Ids;
  }

  /** The whole law of a merge of one message. */
  lemma SingleMergeIs(current: seq<Message>, msg: Message, direction: Direction, cap: nat, revision: nat)
    ensures var r := Merge(current, [msg], direction, cap, revision);
            var all := if direction == Append then current + [msg] else [msg] + current;
            && (forall i | 0 <= i < |current| && EchoedAt(current, msg, i) ::
                  r == MergeResult(current[i := msg.(reactions := current[i].reactions)], 0, None, revision))
            && ((forall i | 0 <= i < |current| :: !EchoedAt(current, msg, i)) ==>
                  if exists j | 0 <= j < |current| :: current[j].id == msg.id then r == MergeResult(current, 0, None, revision)
                  else if |all| <= cap then r == MergeResult(all, 1, None, revision + 1)
                  else if direction == Append then r == MergeResult(all[|all| - cap..], 1, Some(Head), revision + 1)
                  else r == MergeResult(all[..cap], 1, Some(Tail), revision + 1))
  {
    NextMessageIs(current, [], msg);
    assert [] + [msg] == [msg] && AbsorbAll(current, []) == Begin(current);
    assert Ids([]) == {} && [] + [msg] == [msg];
    assert msg.id in Ids(current) <==> exists j | 0 <= j < |current| :: current[j].id == msg.id;
    hide AbsorbAll, EchoedAt, Ids;
  }

  // Distinct ids.

  predicate Distinct(messages: seq<Message>) {
    forall i, j | 0 <= i < j < |messages| :: messages[i].id != messages[j].id
  }

  lemma JoinedDistinct(a: seq<Message>, b: seq<Message>, direction: Direction)
    requires Distinct(a) && Distinct(b) && Ids(a) !! Ids(b)
    ensures Distinct(Joined(a, b, direction))
  {
    forall i, j | 0 <= i < |a| && 0 <= j < |b| ensures a[i].id != b[j].id {
      assert a[i].id in Ids(a) && b[j].id in Ids(b);
    }
    hide Ids;
  }

  lemma CutDistinct(messages: seq<Message>, direction: Direction, cap: nat)
    requires Distinct(messages)
    ensures Distinct(Cut(messages, direction, cap))
  {
  }

  /** A message the server sent: its own id is not a client's, and the client id it may name is. */
  predicate FromServer(msg: Message) {
    !IsOptimistic(msg.id) && (NamesClientId(msg) ==> IsOptimistic(msg.clientId.value))
  }

  /** `m` is an optimistic entry that `msg` could be the echo of, wherever it stands. */
  predicate CouldEcho(m: Message, msg: Message) {
    IsOptimistic(m.id) && ((NamesClientId(msg) && m.id == msg.clientId.value) || Twin(m, msg))
  }

  /** A batch whose merge keeps ids distinct: distinct server messages, none of which is both in
      the window already and a possible echo of an optimistic entry. */
  predicate Compatible(current: seq<Message>, incoming: seq<Message>) {
    && Distinct(incoming)
    && (forall k | 0 <= k < |incoming| :: FromServer(incoming[k]))
    && (forall k, i | 0 <= k < |incoming| && 0 <= i < |current| :: CouldEcho(current[i], incoming[k]) ==> incoming[k].id !in Ids(current))
  }

  lemma EchoSlotCouldEcho(messages: seq<Message>, msg: Message)
    requires FromServer(msg) && EchoSlot(messages, msg).Some?
    ensures CouldEcho(messages[EchoSlot(messages, msg).value], msg)
  {
  }

  predicate AllDistinct(st: Merging) {
    Distinct(st.messages + st.added)
  }

  /** The one way a message of a batch can double an id: it echoes an entry while another entry, or
      a new message of the batch, has its id. */
  predicate StepClobbers(st: Merging, msg: Message) {
    var slot := EchoSlot(st.messages, msg);
    slot.Some?
    && ((exists j | 0 <= j < |st.messages| && j != slot.value :: st.messages[j].id == msg.id) || msg.id in Ids(st.added))
  }

  predicate NoClobber(current: seq<Message>, incoming: seq<Message>) {
    incoming != [] ==>
      var n := |incoming| - 1;
      NoClobber(current, incoming[..n]) && !StepClobbers(AbsorbAll(current, incoming[..n]), incoming[n])
  }

  lemma OneMoreClobber(current: seq<Message>, before: seq<Message>, msg: Message)
    ensures NoClobber(current, before + [msg]) <==> NoClobber(current, before) && !StepClobbers(AbsorbAll(current, before), msg)
  {
    assert (before + [msg])[..|before|] == before;
  }

  lemma DistinctParts(a: seq<Message>, b: seq<Message>)
    ensures Distinct(a + b) <==> Distinct(a) && Distinct(b) && Ids(a) !! Ids(b)
  {
    var all := a + b;
    if Distinct(all) {
      forall id | id in Ids(a) ensures id !in Ids(b) {
        var i :| 0 <= i < |a| && a[i].id == id;
        forall j | 0 <= j < |b| ensures b[j].id != id {
          assert all[i].id != all[|a| + j].id;
        }
      }
      forall i, j | 0 <= i < j < |b| ensures b[i].id != b[j].id {
        assert all[|a| + i].id != all[|a| + j].id;
      }
      forall i, j | 0 <= i < j < |a| ensures a[i].id != a[j].id {
        assert all[i].id != all[j].id;
      }
    } else if Distinct(a) && Distinct(b) && Ids(a) !! Ids(b) {
      JoinedDistinct(a, b, Append);
    }
  }

  lemma EchoDistinctIff(messages: seq<Message>, i: nat, echo: Message)
    requires Distinct(messages) && i < |messages|
    ensures Distinct(messages[i := echo]) <==> forall j | 0 <= j < |messages| && j != i :: messages[j].id != echo.id
    ensures echo.id in Ids(messages[i := echo]) && Ids(messages[i := echo]) <= Ids(messages) + {echo.id}
  {
    var patched := messages[i := echo];
    assert patched[i] in patched;
    forall id | id in Ids(patched) ensures id == echo.id || id in Ids(messages) {
      var j :| 0 <= j < |patched| && patched[j].id == id;
      assert j != i ==> messages[j] in messages;
    }
    if j :| 0 <= j < |messages| && j != i && messages[j].id == echo.id {
      assert patched[j].id == patched[i].id;
    }
  }

  /** One message of a batch keeps all ids distinct iff it does not clobber. */
  lemma StepDistinctIff(st: Merging, msg: Message)
    requires AllDistinct(st) && Ids(st.messages) <= st.known && Ids(st.added) <= st.known
    ensures AllDistinct(Absorb(st, msg)) <==> !StepClobbers(st, msg)
    ensures Ids(Absorb(st, msg).messages) <= Absorb(st, msg).known && Ids(Absorb(st, msg).added) <= Absorb(st, msg).known
  {
    var st', slot := Absorb(st, msg), EchoSlot(st.messages, msg);
    DistinctParts(st.messages, st.added);
    DistinctParts(st'.messages, st'.added);
    if slot.Some? {
      EchoDistinctIff(st.messages, slot.value, msg.(reactions := st.messages[slot.value].reactions));
    } else if msg.id !in st.known {
      IdsOfSnoc(st.added, msg);
      DistinctParts(st.added, [msg]);
      assert Ids([msg]) == {msg.id};
    }
    hide Ids, EchoSlot, Distinct;
  }

  lemma {:induction false} EntriesKnown(current: seq<Message>, incoming: seq<Message>)
    ensures var st := AbsorbAll(current, incoming);
            Ids(st.messages) <= st.known && Ids(st.added) <= st.known
  {
    if incoming != [] {
      var n := |incoming| - 1;
      EntriesKnown(current, incoming[..n]);
      var st, msg := AbsorbAll(current, incoming[..n]), incoming[n];
      assert AbsorbAll(current, incoming) == Absorb(st, msg);
      hide AbsorbAll;
      EntryKnown(st, msg);
    }
  }

  lemma EntryKnown(st: Merging, msg: Message)
    requires Ids(st.messages) <= st.known && Ids(st.added) <= st.known
    ensures Ids(Absorb(st, msg).messages) <= Absorb(st, msg).known && Ids(Absorb(st, msg).added) <= Absorb(st, msg).known
  {
    var slot := EchoSlot(st.messages, msg);
    if slot.Some? {
      var patched := Absorb(st, msg).messages;
      forall m | m in patched ensures m.id == msg.id || m.id in Ids(st.messages) {
      }
    } else {
      IdsOfSnoc(st.added, msg);
    }
    hide EchoSlot;
  }

  /** Ids are distinct after each message of the batch. */
  predicate StaysDistinct(current: seq<Message>, incoming: seq<Message>) {
    && AllDistinct(AbsorbAll(current, incoming))
    && (incoming != [] ==> StaysDistinct(current, incoming[..|incoming| - 1]))
  }

  /** The exact condition for a batch: ids stay distinct throughout iff none of its messages clobbers. */
  lemma {:induction false} BatchDistinctIff(current: seq<Message>, incoming: seq<Message>)
    requires Distinct(current)
    ensures StaysDistinct(current, incoming) <==> NoClobber(current, incoming)
  {
    if incoming == [] {
      assert current + [] == current && AbsorbAll(current, []) == Begin(current);
    } else {
      var before, msg := incoming[..|incoming| - 1], incoming[|incoming| - 1];
      BatchDistinctIff(current, before);
      assert AbsorbAll(current, incoming) == Absorb(AbsorbAll(current, before), msg);
      assert StaysDistinct(current, before) ==> AllDistinct(AbsorbAll(current, before));
      hide AbsorbAll, StepClobbers, Absorb, Ids, AllDistinct;
      EntriesKnown(current, before);
      if AllDistinct(AbsorbAll(current, before)) {
        StepDistinctIff(AbsorbAll(current, before), msg);
      }
    }
  }

  /** So a batch without clobbering keeps ids distinct, in either direction and under any cap. */
  lemma MergeKeepsDistinct(current: seq<Message>, incoming: seq<Message>, direction: Direction, cap: nat, revision: nat)
    requires Distinct(current) && NoClobber(current, incoming)
    ensures Distinct(Merge(current, incoming, direction, cap, revision).messages)
  {
    BatchDistinctIff(current, incoming);
    var st := AbsorbAll(current, incoming);
    assert AllDistinct(st);
    hide AbsorbAll, NoClobber, StaysDistinct;
    DistinctParts(st.messages, st.added);
    JoinedDistinct(st.messages, st.added, direction);
    CutDistinct(Joined(st.messages, st.added, direction), direction, cap);
  }

  /** For one message that is the whole truth about the result: ids are distinct iff it does not
      clobber. */
  lemma SingleMergeDistinctIff(current: seq<Message>, msg: Message, direction: Direction, cap: nat, revision: nat)
    requires Distinct(current)
    ensures Distinct(Merge(current, [msg], direction, cap, revision).messages) <==> NoClobber(current, [msg])
  {
    OneMoreIncoming(current, [], msg);
    OneMoreClobber(current, [], msg);
    assert [] + [msg] == [msg] && AbsorbAll(current, []) == Begin(current);
    if NoClobber(current, [msg]) {
      MergeKeepsDistinct(current, [msg], direction, cap, revision);
    } else {
      var i := EchoSlot(current, msg).value;
      var echo := msg.(reactions := current[i].reactions);
      assert Merge(current, [msg], direction, cap, revision).messages == current[i := echo];
      EchoDistinctIff(current, i, echo);
    }
    hide AbsorbAll, EchoSlot, Merge, Distinct;
  }

  // Batches that cannot clobber.

  /** Part way through a compatible batch: an entry is old, or its id came with the batch. */
  predicate Underway(current: seq<Message>, before: seq<Message>, st: Merging) {
    && |st.messages| == |current|
    && (forall i | 0 <= i < |current| :: st.messages[i] == current[i] || st.messages[i].id in Ids(before))
    && Ids(st.added) <= Ids(before)
  }

  lemma ServerIds(before: seq<Message>, id: string)
    requires forall k | 0 <= k < |before| :: FromServer(before[k])
    ensures id in Ids(before) ==> !IsOptimistic(id)
  {
  }

  lemma AbsorbKeepsUnderway(current: seq<Message>, before: seq<Message>, msg: Message, st: Merging)
    requires Compatible(current, before + [msg]) && Underway(current, before, st)
    ensures Underway(current, before + [msg], Absorb(st, msg)) && !StepClobbers(st, msg)
  {
    IdsOfSnoc(before, msg);
    var n := |before|;
    assert (before + [msg])[n] == msg && forall k | 0 <= k < n :: (before + [msg])[k] == before[k];
    assert msg.id !in Ids(before);
    var slot := EchoSlot(st.messages, msg);
    if slot.Some? {
      EchoSlotCouldEcho(st.messages, msg);
      var i := slot.value;
      ServerIds(before, st.messages[i].id);
      assert st.messages[i] == current[i] && msg.id !in Ids(current);
      forall j | 0 <= j < |current| ensures st.messages[j].id != msg.id {
        assert st.messages[j] == current[j] ==> current[j].id in Ids(current);
      }
    } else {
      IdsOfSnoc(st.added, msg);
    }
    hide Ids, EchoSlot, Compatible;
  }

  lemma {:induction false} AbsorbAllUnderway(current: seq<Message>, incoming: seq<Message>)
    requires Compatible(current, incoming)
    ensures Underway(current, incoming, AbsorbAll(current, incoming)) && NoClobber(current, incoming)
  {
    if incoming != [] {
      var before, msg := incoming[..|incoming| - 1], incoming[|incoming| - 1];
      assert incoming == before + [msg];
      AbsorbAllUnderway(current, before);
      OneMoreIncoming(current, before, msg);
      OneMoreClobber(current, before, msg);
      hide AbsorbAll, NoClobber, StepClobbers;
      AbsorbKeepsUnderway(current, before, msg, AbsorbAll(current, before));
    }
  }

  /** Distinct server messages do not clobber, unless one of them is in the window already and could
      echo an optimistic entry. */
  lemma CompatibleNeverClobbers(current: seq<Message>, incoming: seq<Message>)
    requires Compatible(current, incoming)
    ensures NoClobber(current, incoming)
  {
    AbsorbAllUnderway(current, incoming);
  }

  /** A message that names the id of a shown message takes its place, whatever it says: the server
      hands on the client id a sender gave. */
  lemma NamedEntryIsOverwritten(current: seq<Message>, msg: Message, direction: Direction, cap: nat, revision: nat)
    requires Distinct(current) && NamesClientId(msg) && IndexOf(current, msg.clientId.value).Some?
    ensures var i, r := IndexOf(current, msg.clientId.value).value, Merge(current, [msg], direction, cap, revision);
            r.messages == current[i := msg.(reactions := current[i].reactions)]
            && r.addedCount == 0 && r.revision == revision
            && (msg.id !in Ids(current) ==> Distinct(r.messages) && msg.clientId.value !in Ids(r.messages))
  {
    OneMoreIncoming(current, [], msg);
    assert [] + [msg] == [msg] && AbsorbAll(current, []) == Begin(current);
    hide AbsorbAll;
    var i := IndexOf(current, msg.clientId.value).value;
    assert current[i] in current;
    assert forall j | 0 <= j < |current| :: current[j] in current;
    if msg.id !in Ids(current) {
      EchoDistinctIff(current, i, msg.(reactions := current[i].reactions));
    }
  }

  /** Without the last condition of `Compatible` the claim is false: the server redelivers a
      message that is already in the window while an optimistic copy of it is too; the twin scan
      finds the copy before the id is looked up, and the message is shown twice. */
  lemma RedeliveryDuplicates(m: Message, optimistic: Message, cap: nat, revision: nat)
    requires !IsOptimistic(m.id) && m.clientId == None && Twin(optimistic, m)
    ensures Distinct([m, optimistic])
    ensures var shown := Merge([m, optimistic], [m], Append, cap, revision).messages;
            |shown| == 2 && shown[0].id == shown[1].id == m.id
  {
    var current := [m, optimistic];
    assert EchoSlot(current, m) == Some(1);
    OneMoreIncoming(current, [], m);
    assert [] + [m] == [m] && AbsorbAll(current, []) == Begin(current);
    hide AbsorbAll;
  }

  // Re-merging.

  /** Every message of a server batch is in the window afterwards, under its own id. */
  lemma {:induction false} BatchIsShown(current: seq<Message>, incoming: seq<Message>)
    requires forall k | 0 <= k < |incoming| :: FromServer(incoming[k])
    ensures var st := AbsorbAll(current, incoming);
            forall id | id in st.known && !IsOptimistic(id) :: id in Ids(st.messages) + Ids(st.added)
  {
    if incoming != [] {
      var before, msg := incoming[..|incoming| - 1], incoming[|incoming| - 1];
      assert incoming == before + [msg];
      BatchIsShown(current, before);
      OneMoreIncoming(current, before, msg);
      var st := AbsorbAll(current, before);
      hide AbsorbAll;
      AbsorbShows(st, msg);
    }
  }

  lemma AbsorbShows(st: Merging, msg: Message)
    requires FromServer(msg)
    requires forall id | id in st.known && !IsOptimistic(id) :: id in Ids(st.messages) + Ids(st.added)
    ensures var st' := Absorb(st, msg);
            forall id | id in st'.known && !IsOptimistic(id) :: id in Ids(st'.messages) + Ids(st'.added)
  {
    var slot := EchoSlot(st.messages, msg);
    if slot.Some? {
      EchoSlotCouldEcho(st.messages, msg);
      var patched := Absorb(st, msg).messages;
      assert patched[slot.value] in patched;
      forall id | id in Ids(st.messages) && id != st.messages[slot.value].id ensures id in Ids(patched) {
        var m :| m in st.messages && m.id == id;
        var j :| 0 <= j < |st.messages| && st.messages[j] == m;
        assert patched[j] == m;
      }
    } else {
      IdsOfSnoc(st.added, msg);
    }
    hide Ids, EchoSlot;
  }

  /** Merging a server batch again adds nothing, as long as the first merge dropped nothing. */
  lemma RemergeAddsNothing(current: seq<Message>, incoming: seq<Message>, direction: Direction, cap: nat,
                           again: Direction, cap': nat, revision: nat, revision': nat)
    requires forall k | 0 <= k < |incoming| :: FromServer(incoming[k])
    requires Merge(current, incoming, direction, cap, revision).droppedSide == None
    ensures var shown := Merge(current, incoming, direction, cap, revision).messages;
            Merge(shown, incoming, again, cap', revision').addedCount == 0
  {
    var shown := Merge(current, incoming, direction, cap, revision).messages;
    var st := AbsorbAll(current, incoming);
    BatchIsShown(current, incoming);
    KnownIds(current, incoming);
    JoinedIds(st.messages, st.added, direction);
    forall k | 0 <= k < |incoming| ensures incoming[k].id in Ids(shown) {
      assert incoming[k].id in Ids(incoming);
    }
    AllKnownAddsNothing(shown, incoming);
  }

  lemma JoinedIds(a: seq<Message>, b: seq<Message>, direction: Direction)
    ensures Ids(Joined(a, b, direction)) == Ids(a) + Ids(b)
  {
    var all := Joined(a, b, direction);
    assert forall m :: m in all <==> m in a || m in b;
  }

  lemma {:induction false} AllKnownAddsNothing(current: seq<Message>, incoming: seq<Message>)
    requires forall k | 0 <= k < |incoming| :: incoming[k].id in Ids(current)
    ensures AbsorbAll(current, incoming).added == []
    ensures Ids(current) <= AbsorbAll(current, incoming).known
  {
    if incoming != [] {
      var before, msg := incoming[..|incoming| - 1], incoming[|incoming| - 1];
      assert incoming == before + [msg];
      AllKnownAddsNothing(current, before);
      OneMoreIncoming(current, before, msg);
      hide AbsorbAll, EchoSlot;
    }
  }
}
