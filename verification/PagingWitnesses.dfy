/** Rooms in which paging fails: a run that reaches each state `Paging` and `PagingRejoin` warn of. */
module PagingWitnesses {
  import opened Options
  import opened MessageWindow
  import opened MergeTheorems
  import opened ChatStore
  import opened Paging
  import opened PagingRejoin

  /** In every room of more than a hundred messages, one that ties with the hundredth newest is
      skipped by the first page after the join. */
  lemma TieIsSkipped(rows: seq<Row>, room: string)
    requires room != "" && Orderly(History(rows, room)) && |History(rows, room)| > 100
    requires var h, w := History(rows, room), |History(rows, room)| - 100;
             h[w - 1].timestamp == h[w].timestamp && h[0].timestamp < h[w].timestamp
    ensures !Suffix(Step(Join(rows, room), room, LoadOlder).store.messages, History(rows, room))
  {
    hide Join, Step, History, OlderThan, Showing, Suffix, Orderly, Matching;
    var s, h := Join(rows, room), History(rows, room);
    JoinShows(rows, room);
    TopOfWindow(s, room);
    SomethingOlder(h, h[|h| - 100].timestamp);
    TieSkipped(s, room);
  }

  lemma TieSkipped(s: Session, room: string)
    requires Showing(s, room) && !s.noMoreHistory && s.store.messages != [] && OlderCount(s, room) > 0
    requires var h, w := History(s.rows, room), |History(s.rows, room)| - |s.store.messages|;
             w > 0 && h[w - 1].timestamp == h[w].timestamp
    ensures !Suffix(Step(s, room, LoadOlder).store.messages, History(s.rows, room))
  {
    hide Step, OlderThan, Matching;
    OlderPageIs(s, room);
    LoadOlderKeepsSuffixIff(s, room);
    hide History, OlderPage, OlderCount, Suffix;
  }

  lemma TopOfWindow(s: Session, room: string)
    requires Showing(s, room) && s.store.messages != []
    ensures s.store.messages[0].timestamp == History(s.rows, room)[|History(s.rows, room)| - |s.store.messages|].timestamp
  {
    assert AsStored(s.store.messages[0]) == History(s.rows, room)[|History(s.rows, room)| - |s.store.messages|];
  }

  lemma SomethingOlder(history: seq<Message>, before: int)
    requires Orderly(history) && history != [] && history[0].timestamp < before
    ensures OlderThan(history, before) != []
  {
    OlderIsPrefix(history, before);
  }

  /** In every room of more than a thousand messages the nineteenth page cuts off the newest. */
  lemma CapCutsNewest(rows: seq<Row>, room: string)
    requires room != "" && Orderly(History(rows, room)) && NoTies(History(rows, room))
    requires |History(rows, room)| > 1000
    ensures !Suffix(Loaded(Join(rows, room), room, 19).store.messages, History(rows, room))
  {
    var s := Join(rows, room);
    JoinShows(rows, room);
    PagingIsComplete(s, room, 18);
    var full := Loaded(s, room, 18);
    assert Loaded(s, room, 19) == Step(full, room, LoadOlder);
    hide Join, Loaded, Step;
    assert full.rows == rows && |full.store.messages| == 1000 && !full.noMoreHistory;
    LoadOlderKeepsSuffixIff(full, room);
    OlderPageIs(full, room);
    var h, w := History(rows, room), |History(rows, room)| - 1000;
    assert h[w - 1].timestamp < h[w].timestamp && OlderCount(full, room) == w;
    hide Matching, History, OlderThan, Showing, Suffix, OlderPage;
  }

  /** In every room of 500 to 1000 messages a client that has paged to the end loses the oldest to
      the next live message, and cannot get it back. */
  lemma EndIsLost(rows: seq<Row>, room: string, row: Row)
    requires room != "" && Orderly(History(rows, room)) && NoTies(History(rows, room))
    requires 500 <= |History(rows, room)| <= 1000
    requires row.roomId == room && !IsOptimistic(row.msg.id) && row.msg.clientId == None
    requires Orderly(History(rows, room) + [AsStored(row.msg)]) && NoTies(History(rows, room) + [AsStored(row.msg)])
    ensures var ended := Loaded(Join(rows, room), room, 19);
            var after := Step(ended, room, Live(row));
            |ended.store.messages| == |History(rows, room)| && ended.noMoreHistory
            && |after.store.messages| < |History(after.rows, room)| && Step(after, room, LoadOlder) == after
  {
    var s := Join(rows, room);
    JoinShows(rows, room);
    PagingIsComplete(s, room, 19);
    var ended := Loaded(s, room, 19);
    hide Join, Loaded, Step;
    assert Showing(ended, room) && ended.rows == rows && ended.noMoreHistory;
    assert |ended.store.messages| == |History(rows, room)|;
    WindowIsReal(ended.store.messages, History(rows, room));
    NoEcho(ended.store.messages, row.msg);
    EndSurvivesTheCut(ended, room, row);
    LiveKeepsShowing(ended, room, row);
    hide Matching, History, Showing, Suffix, EchoSlot, Orderly, NoTies, IsOptimistic;
  }

  /** In every room a client that misses one message while it is away shows it in front after it
      rejoins. */
  lemma MissedGoesInFront(rows: seq<Row>, room: string, row: Row)
    requires room != "" && row.roomId == room && History(rows, room) != []
    requires Orderly(History(rows, room)) && Orderly(History(rows, room) + [AsStored(row.msg)])
    ensures var away := Join(rows, room).(rows := rows + [row]);
            Behind(away, room, |History(rows, room)|)
            && |History(rows + [row], room)| == |History(rows, room)| + 1
            && !Suffix(Rejoined(away, room).store.messages, History(rows + [row], room))
  {
    var s, h := Join(rows, room), History(rows, room);
    JoinShows(rows, room);
    OneMoreRow(rows, row, room);
    var away := s.(rows := rows + [row]);
    hide Join, Rejoined;
    assert forall i | 0 <= i < |h| :: (h + [AsStored(row.msg)])[i] == h[i];
    assert Slice(s.store.messages, h + [AsStored(row.msg)], |h|);
    assert Behind(away, room, |h|);
    RejoinKeepsSuffixIff(away, room, |h|);
  }

  /** In every room of more than a hundred messages a client that rejoins at once, having missed
      nothing, can load no older message any more. */
  lemma RejoinEndsPagingEarly(rows: seq<Row>, room: string)
    requires room != "" && Orderly(History(rows, room)) && |History(rows, room)| > 100
    ensures var s := Join(rows, room);
            !s.noMoreHistory && Rejoined(s, room).noMoreHistory && |s.store.messages| < |History(rows, room)|
  {
    var s, h := Join(rows, room), History(rows, room);
    JoinShows(rows, room);
    hide Join, Rejoined;
    assert Slice(s.store.messages, h, |h|);
    assert Behind(s, room, |h|);
    RejoinEndsPagingIff(s, room, |h|);
  }

  // Such rooms exist, of any size.

  function Unary(n: nat): string {
    if n == 0 then "" else Unary(n - 1) + "m"
  }

  /** Messages a millisecond apart, except that the one at `tied` has the time of the one before. */
  function Sample(n: nat, tied: nat): (messages: seq<Message>)
    requires tied > 0
    ensures |messages| == n
  {
    if n == 0 then []
    else Sample(n - 1, tied) + [Message(Unary(n), None, "ann", "hi", if n <= tied then n else n - 1, None, false, false, None)]
  }

  function RowsOf(messages: seq<Message>, room: string): seq<Row> {
    if messages == [] then []
    else RowsOf(messages[..|messages| - 1], room) + [Row(room, "", messages[|messages| - 1])]
  }

  lemma {:induction false} HistoryOfRows(messages: seq<Message>, room: string)
    requires room != "" && forall i | 0 <= i < |messages| :: AsStored(messages[i]) == messages[i]
    ensures History(RowsOf(messages, room), room) == messages
  {
    if messages != [] {
      var n := |messages| - 1;
      HistoryOfRows(messages[..n], room);
      OneMoreRow(RowsOf(messages[..n], room), Row(room, "", messages[n]), room);
      assert messages == messages[..n] + [messages[n]];
    }
  }

  lemma {:induction false} UnaryFacts(n: nat)
    ensures |Unary(n)| == n && (n > 0 ==> Unary(n)[0] == 'm')
  {
    if n > 0 {
      UnaryFacts(n - 1);
    }
  }

  predicate SampleAt(m: Message, i: nat, tied: nat) {
    && Plain(m) && AsStored(m) == m && !m.deleted && |m.id| == i + 1
    && m.timestamp == if i < tied then i + 1 else i
  }

  lemma {:induction false} SampleIs(n: nat, tied: nat)
    requires tied > 0
    ensures forall i | 0 <= i < n :: SampleAt(Sample(n, tied)[i], i, tied)
  {
    if n > 0 {
      SampleIs(n - 1, tied);
      UnaryFacts(n);
      assert !IsOptimistic(Unary(n)) by {
        assert OPTIMISTIC[0] == 'o';
      }
    }
  }

  /** A room with these messages is orderly, and its only tie is the one asked for. */
  lemma SampleRoom(n: nat, tied: nat, room: string)
    requires room != "" && tied > 0
    ensures var h := History(RowsOf(Sample(n, tied), room), room);
            |h| == n && Orderly(h) && (n <= tied ==> NoTies(h))
            && (tied < n ==> h[tied - 1].timestamp == h[tied].timestamp && (tied > 1 ==> h[0].timestamp < h[tied].timestamp))
  {
    SampleIs(n, tied);
    var messages := Sample(n, tied);
    hide Sample;
    assert forall i | 0 <= i < n :: SampleAt(messages[i], i, tied) && AsStored(messages[i]) == messages[i];
    hide AsStored, SampleAt;
    HistoryOfRows(messages, room);
    SampleOrderly(messages, tied);
    hide History, RowsOf, Orderly, NoTies;
  }

  lemma SampleOrderly(messages: seq<Message>, tied: nat)
    requires tied > 0 && forall i | 0 <= i < |messages| :: SampleAt(messages[i], i, tied)
    ensures Orderly(messages) && (|messages| <= tied ==> NoTies(messages))
    ensures tied < |messages| ==> messages[tied - 1].timestamp == messages[tied].timestamp
                                  && (tied > 1 ==> messages[0].timestamp < messages[tied].timestamp)
  {
    hide Plain, AsStored;
    forall i, j | 0 <= i < j < |messages|
      ensures messages[i].id != messages[j].id && messages[i].timestamp <= messages[j].timestamp
      ensures |messages| <= tied ==> messages[i].timestamp < messages[j].timestamp
    {
      assert SampleAt(messages[i], i, tied) && SampleAt(messages[j], j, tied);
    }
  }

  /** So each failure above happens: for every number of messages there is a room to show it. */
  lemma PagingFailures(n: nat, room: string)
    requires room != "" && n > 1000
    ensures var rows := RowsOf(Sample(n, n - 100), room);
            !Suffix(Step(Join(rows, room), room, LoadOlder).store.messages, History(rows, room))
    ensures var rows := RowsOf(Sample(n, n), room);
            !Suffix(Loaded(Join(rows, room), room, 19).store.messages, History(rows, room))
            && Rejoined(Join(rows, room), room).noMoreHistory
  {
    hide Step, Loaded, Join, Sample, RowsOf, History, Suffix, Rejoined, Orderly, NoTies;
    SampleRoom(n, n - 100, room);
    TieIsSkipped(RowsOf(Sample(n, n - 100), room), room);
    SampleRoom(n, n, room);
    CapCutsNewest(RowsOf(Sample(n, n), room), room);
    RejoinEndsPagingEarly(RowsOf(Sample(n, n), room), room);
  }

  lemma NextMessage(n: nat, room: string) returns (row: Row)
    requires room != ""
    ensures var h := History(RowsOf(Sample(n, n + 1), room), room);
            |h| == n && Orderly(h) && NoTies(h) && row.roomId == room && Plain(row.msg)
            && Orderly(h + [AsStored(row.msg)]) && NoTies(h + [AsStored(row.msg)])
  {
    row := Row(room, "", Sample(n + 1, n + 1)[n]);
    SampleIs(n + 1, n + 1);
    SampleIs(n, n + 1);
    var messages := Sample(n, n + 1);
    assert SampleAt(row.msg, n, n + 1) && Sample(n + 1, n + 1) == messages + [row.msg];
    assert forall i | 0 <= i < n :: SampleAt(messages[i], i, n + 1) && AsStored(messages[i]) == messages[i];
    hide Sample, SampleAt, AsStored;
    HistoryOfRows(messages, room);
    SampleOrderly(messages, n + 1);
    SampleOrderly(Sample(n + 1, n + 1), n + 1);
    hide History, RowsOf, Orderly, NoTies;
  }

  lemma LiveFailures(n: nat, room: string) returns (row: Row)
    requires room != "" && 500 <= n <= 1000
    ensures var rows := RowsOf(Sample(n, n + 1), room);
            var after := Step(Loaded(Join(rows, room), room, 19), room, Live(row));
            |after.store.messages| < |History(after.rows, room)| && Step(after, room, LoadOlder) == after
            && !Suffix(Rejoined(Join(rows, room).(rows := rows + [row]), room).store.messages, History(rows + [row], room))
  {
    row := NextMessage(n, room);
    hide Step, Loaded, Join, Sample, RowsOf, History, Suffix, Rejoined, AsStored, Orderly, NoTies;
    EndIsLost(RowsOf(Sample(n, n + 1), room), room, row);
    MissedGoesInFront(RowsOf(Sample(n, n + 1), room), room, row);
  }
}
