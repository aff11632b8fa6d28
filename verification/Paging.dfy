/** Loading older history page by page: the store's query, the request a client makes from the
    top of its window, and the answer merged in front. */
module Paging {
  import opened Options
  import opened MessageWindow
  import opened MergeTheorems
  import opened ChatStore

  /** A row of the messages table; the table is listed in order of time stamp. */
  datatype Row = Row(roomId: string, toUser: string, msg: Message)

  const PAGE_SIZE := 50
  const FIRST_PAGE := 100

  /** The WHERE clause: a room, or the messages addressed to nobody; `before` 0 or less is no bound. */
  predicate Matches(row: Row, roomId: string, before: int) {
    && (if roomId != "" then row.roomId == roomId else row.toUser == "")
    && (before > 0 ==> row.msg.timestamp < before)
  }

  /** What the table gives back: no client id, and no text for a deleted message. */
  function AsStored(msg: Message): Message {
    msg.(clientId := None, content := if msg.deleted then "" else msg.content)
  }

  /** All matching messages, oldest first. */
  function Matching(rows: seq<Row>, roomId: string, before: int): seq<Message> {
    if rows == [] then []
    else
      var n := |rows| - 1;
      if Matches(rows[n], roomId, before) then Matching(rows[..n], roomId, before) + [AsStored(rows[n].msg)]
      else Matching(rows[..n], roomId, before)
  }

  function LastOf<T>(s: seq<T>, n: nat): seq<T> {
    if |s| <= n then s else s[|s| - n..]
  }

  /** The page a query answers: the newest `limit` matching messages, oldest first. */
  function Page(rows: seq<Row>, roomId: string, limit: int, before: int): seq<Message> {
    LastOf(Matching(rows, roomId, before), if limit <= 0 then 100 else limit)
  }

  predicate InTimeOrder(messages: seq<Message>) {
    forall i, j | 0 <= i < j < |messages| :: messages[i].timestamp <= messages[j].timestamp
  }

  predicate ListedByTime(rows: seq<Row>) {
    forall i, j | 0 <= i < j < |rows| :: rows[i].msg.timestamp <= rows[j].msg.timestamp
  }

  lemma {:induction false} MatchingInTimeOrder(rows: seq<Row>, roomId: string, before: int)
    requires ListedByTime(rows)
    ensures InTimeOrder(Matching(rows, roomId, before))
    ensures rows != [] ==> forall m | m in Matching(rows, roomId, before) :: m.timestamp <= rows[|rows| - 1].msg.timestamp
  {
    if rows != [] {
      MatchingInTimeOrder(rows[..|rows| - 1], roomId, before);
    }
  }

  /** What a page is, whatever computed it: the end of the matching messages, in order of time, and
      no message left out is newer than one on it. */
  predicate IsNewestPage(page: seq<Message>, matching: seq<Message>) {
    && |page| <= |matching| && page == matching[|matching| - |page|..] && InTimeOrder(page)
    && (forall i, j | 0 <= i < |matching| - |page| && 0 <= j < |page| :: matching[i].timestamp <= page[j].timestamp)
  }

  lemma PageIsNewest(rows: seq<Row>, roomId: string, limit: int, before: int)
    requires ListedByTime(rows)
    ensures IsNewestPage(Page(rows, roomId, limit, before), Matching(rows, roomId, before))
  {
    MatchingInTimeOrder(rows, roomId, before);
    hide Matching;
  }

  /** What a page shows, said of the table itself. `from` lists the rows its messages come from: in
      the order of the table, of the room (without a room: addressed to nobody) and older than
      `before` if that is positive. A message is its row without a client id, and without text if it
      was deleted. */
  predicate ShowsRows(page: seq<Message>, rows: seq<Row>, roomId: string, before: int, from: seq<nat>) {
    && |from| == |page|
    && (forall k | 0 <= k < |from| ::
          && from[k] < |rows|
          && (if roomId != "" then rows[from[k]].roomId == roomId else rows[from[k]].toUser == "")
          && (before > 0 ==> rows[from[k]].msg.timestamp < before)
          && IsShownAs(rows[from[k]].msg, page[k]))
    && (forall j, k | 0 <= j < k < |from| :: from[j] < from[k])
  }

  /** At most `limit` rows are shown, a hundred if that is not positive; a row of the room, older
      than `before`, is passed over only if it comes before a page that is full. */
  predicate PassesOver(rows: seq<Row>, roomId: string, limit: int, before: int, from: seq<nat>) {
    var max := if limit <= 0 then 100 else limit;
    && |from| <= max
    && (forall i | 0 <= i < |rows| && (if roomId != "" then rows[i].roomId == roomId else rows[i].toUser == "")
                   && (before > 0 ==> rows[i].msg.timestamp < before) ::
          i in from || (|from| == max && i < from[0]))
  }

  predicate IsShownAs(stored: Message, shown: Message) {
    && shown.clientId == None && shown.content == (if stored.deleted then "" else stored.content)
    && shown.id == stored.id && shown.username == stored.username && shown.timestamp == stored.timestamp
    && shown.reactions == stored.reactions && shown.deleted == stored.deleted && shown.edited == stored.edited
    && shown.dedupeKey == stored.dedupeKey
  }

  /** All matching rows, by position. */
  function Positions(rows: seq<Row>, roomId: string, before: int): seq<nat> {
    if rows == [] then []
    else
      var n := |rows| - 1;
      if Matches(rows[n], roomId, before) then Positions(rows[..n], roomId, before) + [n] else Positions(rows[..n], roomId, before)
  }

  lemma {:induction false} PositionsMatch(rows: seq<Row>, roomId: string, before: int)
    ensures var at, found := Positions(rows, roomId, before), Matching(rows, roomId, before);
            && |at| == |found|
            && (forall k | 0 <= k < |at| :: at[k] < |rows| && Matches(rows[at[k]], roomId, before)
                                            && found[k] == AsStored(rows[at[k]].msg))
            && (forall j, k | 0 <= j < k < |at| :: at[j] < at[k])
            && (forall i | 0 <= i < |rows| && Matches(rows[i], roomId, before) :: i in at)
  {
    if rows != [] {
      var n := |rows| - 1;
      PositionsMatch(rows[..n], roomId, before);
      var at := Positions(rows[..n], roomId, before);
      if Matches(rows[n], roomId, before) {
        assert (at + [n])[|at|] == n;
      }
      hide Matches, AsStored;
      forall i | 0 <= i < |rows| && Matches(rows[i], roomId, before) ensures i in Positions(rows, roomId, before) {
        assert i < n ==> rows[..n][i] == rows[i];
      }
    }
  }

  lemma LastPositions(at: seq<nat>, max: nat)
    requires max > 0 && forall j, k | 0 <= j < k < |at| :: at[j] < at[k]
    ensures var from := LastOf(at, max);
            && |from| <= max
            && (forall k | 0 <= k < |from| :: from[k] == at[|at| - |from| + k])
            && (forall j, k | 0 <= j < k < |from| :: from[j] < from[k])
            && (forall i | i in at :: i in from || (|from| == max && i < from[0]))
  {
    var from := LastOf(at, max);
    var skipped := |at| - |from|;
    forall i | i in at ensures i in from || (|from| == max && i < from[0]) {
      var k :| 0 <= k < |at| && at[k] == i;
      if k >= skipped {
        assert from[k - skipped] == i;
      }
    }
  }

  lemma ShownAsStored(stored: Message)
    ensures IsShownAs(stored, AsStored(stored))
  {
  }

  /** The rows of the page, by position. */
  function PageRows(rows: seq<Row>, roomId: string, limit: int, before: int): seq<nat> {
    LastOf(Positions(rows, roomId, before), if limit <= 0 then 100 else limit)
  }

  lemma PageRowsMatch(rows: seq<Row>, roomId: string, limit: int, before: int)
    ensures var from, page := PageRows(rows, roomId, limit, before), Page(rows, roomId, limit, before);
            && |from| == |page|
            && (forall k | 0 <= k < |from| :: from[k] < |rows| && Matches(rows[from[k]], roomId, before)
                                              && page[k] == AsStored(rows[from[k]].msg))
            && (forall j, k | 0 <= j < k < |from| :: from[j] < from[k])
  {
    PositionsMatch(rows, roomId, before);
    LastPositions(Positions(rows, roomId, before), if limit <= 0 then 100 else limit);
    hide Positions, Matching, Matches, AsStored;
  }

  lemma PageShowsRows(rows: seq<Row>, roomId: string, limit: int, before: int)
    ensures ShowsRows(Page(rows, roomId, limit, before), rows, roomId, before, PageRows(rows, roomId, limit, before))
  {
    PageRowsMatch(rows, roomId, limit, before);
    var from := PageRows(rows, roomId, limit, before);
    hide PageRows, Page, AsStored, IsShownAs;
    forall k | 0 <= k < |from| ensures IsShownAs(rows[from[k]].msg, AsStored(rows[from[k]].msg)) {
      ShownAsStored(rows[from[k]].msg);
    }
  }

  lemma PagePassesOver(rows: seq<Row>, roomId: string, limit: int, before: int)
    ensures PassesOver(rows, roomId, limit, before, PageRows(rows, roomId, limit, before))
  {
    PositionsMatch(rows, roomId, before);
    LastPositions(Positions(rows, roomId, before), if limit <= 0 then 100 else limit);
    hide Positions, Matching, AsStored, LastOf;
  }

  lemma OneRowMatches(rows: seq<Row>, roomId: string, before: int, i: nat)
    requires i < |rows|
    ensures Matching(rows[..i + 1], roomId, before)
            == Matching(rows[..i], roomId, before) + if Matches(rows[i], roomId, before) then [AsStored(rows[i].msg)] else []
  {
    assert rows[..i + 1][..i] == rows[..i];
  }

  lemma NoRowMatches(rows: seq<Row>, roomId: string, before: int)
    ensures Matching(rows[..0], roomId, before) == []
  {
  }

  /** The query: by descending time, up to its limit. */
  method NewestFirst(rows: seq<Row>, roomId: string, limit: int, before: int) returns (found: seq<Message>)
    ensures Reversed(found) == Page(rows, roomId, limit, before)
  {
    var max := if limit <= 0 then 100 else limit;
    ghost var matching := Matching(rows, roomId, before);
    found := [];
    var i := |rows|;
    assert rows[..i] == rows && Reversed<Message>([]) == [] && matching + [] == matching;
    NoRowMatches(rows, roomId, before);
    hide Matching, Reversed, Matches;
    while i > 0 && |found| < max
      invariant 0 <= i <= |rows| && |found| <= max
      invariant Matching(rows[..i], roomId, before) + Reversed(found) == matching
    {
      i := i - 1;
      OneRowMatches(rows, roomId, before, i);
      if Matches(rows[i], roomId, before) {
        var m := AsStored(rows[i].msg);
        ReversedSnoc(found, m);
        found := found + [m];
      }
    }
    ReversedLength(found);
    assert Reversed(found) == LastOf(matching, max);
  }

  /** The query, then the reversal in place; `from` says which rows the page shows. */
  method GetRoomMessages(rows: seq<Row>, roomId: string, limit: int, before: int)
      returns (page: seq<Message>, ghost from: seq<nat>)
    ensures page == Page(rows, roomId, limit, before)
    ensures ShowsRows(page, rows, roomId, before, from) && PassesOver(rows, roomId, limit, before, from)
    ensures ListedByTime(rows) ==> IsNewestPage(page, Matching(rows, roomId, before))
  {
    hide IsNewestPage, ListedByTime, Matching, Page, PageRows, Reversed, ShowsRows, PassesOver;
    PageShowsRows(rows, roomId, limit, before);
    PagePassesOver(rows, roomId, limit, before);
    from := PageRows(rows, roomId, limit, before);
    if ListedByTime(rows) {
      PageIsNewest(rows, roomId, limit, before);
    }
    var found := NewestFirst(rows, roomId, limit, before);
    var messages := new Message[|found|](k requires 0 <= k < |found| => found[k]);
    assert messages[..] == found;
    ReverseInPlace(messages);
    page := messages[..];
  }

  function Reversed<T>(s: seq<T>): seq<T> {
    if s == [] then [] else Reversed(s[1..]) + [s[0]]
  }

  lemma {:induction false} ReversedLength<T>(s: seq<T>)
    ensures |Reversed(s)| == |s|
    ensures forall k | 0 <= k < |s| :: Reversed(s)[k] == s[|s| - 1 - k]
  {
    if s != [] {
      ReversedLength(s[1..]);
    }
  }

  lemma {:induction false} ReversedSnoc<T>(s: seq<T>, x: T)
    ensures Reversed(s + [x]) == [x] + Reversed(s)
  {
    if s != [] {
      ReversedSnoc(s[1..], x);
      assert (s + [x])[1..] == s[1..] + [x];
    }
  }

  method ReverseInPlace(a: array<Message>)
    modifies a
    ensures a[..] == Reversed(old(a[..]))
  {
    ghost var was := a[..];
    ReversedLength(was);
    hide Reversed;
    var i, j := 0, a.Length - 1;
    while i < j
      invariant 0 <= i && j == a.Length - 1 - i && i <= j + 1
      invariant forall k | 0 <= k < a.Length :: a[k] == if i <= k <= j then was[k] else Reversed(was)[k]
    {
      a[i], a[j] := a[j], a[i];
      i, j := i + 1, j - 1;
    }
  }

  // A client paging through one room.

  /** What the server stores and what the client shows. */
  datatype Session = Session(rows: seq<Row>, store: Store, noMoreHistory: bool)

  datatype Event =
    | Live(row: Row)       // a message is stored and, if of this room, shown
    | LoadOlder            // the client asks for what precedes its window, and gets the answer

  /** The `history` handler: the first page fills the window, later ones go in front. Nothing new,
      or less than a page, ends paging. */
  function OnHistory(s: Session, page: seq<Message>): Session {
    if s.store.historyLoaded then
      var added := Merge(s.store.messages, page, Prepend, HISTORY_CAP, s.store.revision).addedCount;
      s.(store := Apply(s.store, PrependHistory(page)),
         noMoreHistory := s.noMoreHistory || added == 0 || |page| < PAGE_SIZE)
    else s.(store := Apply(s.store, SetHistory(page)))
  }

  function OlderPage(s: Session, room: string): seq<Message>
    requires s.store.messages != []
  {
    Page(s.rows, room, PAGE_SIZE, s.store.messages[0].timestamp)
  }

  function Step(s: Session, room: string, e: Event): Session {
    match e
    case Live(row) =>
      var stored := s.(rows := s.rows + [row]);
      if row.roomId == room then stored.(store := Apply(s.store, AddMessage(row.msg))) else stored
    case LoadOlder =>
      if s.noMoreHistory || s.store.messages == [] || s.store.messages[0].timestamp <= 0 then s
      else OnHistory(s, OlderPage(s, room))
  }

  function Run(s: Session, room: string, events: seq<Event>): Session {
    if events == [] then s
    else Step(Run(s, room, events[..|events| - 1]), room, events[|events| - 1])
  }

  /** The client joins: the first page into an empty window. */
  function Join(rows: seq<Row>, room: string): Session {
    OnHistory(Session(rows, EMPTY, false), Page(rows, room, FIRST_PAGE, 0))
  }

  /** A room's messages, oldest first. */
  function History(rows: seq<Row>, room: string): seq<Message> {
    Matching(rows, room, 0)
  }

  /** A stored message: no optimistic id, and no client id, which the table does not keep. */
  predicate Plain(msg: Message) {
    !IsOptimistic(msg.id) && msg.clientId == None
  }

  /** Distinct server messages in order of time, none deleted. */
  predicate Orderly(history: seq<Message>) {
    && Distinct(history)
    && (forall i | 0 <= i < |history| :: history[i].timestamp > 0 && Plain(history[i]) && !history[i].deleted)
    && (forall i, j | 0 <= i < j < |history| :: history[i].timestamp <= history[j].timestamp)
  }

  predicate NoTies(history: seq<Message>) {
    forall i, j | 0 <= i < j < |history| :: history[i].timestamp < history[j].timestamp
  }

  predicate Suffix(window: seq<Message>, history: seq<Message>) {
    && |window| <= |history|
    && (forall i | 0 <= i < |window| :: AsStored(window[i]) == history[|history| - |window| + i])
  }

  /** The client has joined and shows the end of the room. */
  predicate Showing(s: Session, room: string) {
    && room != "" && s.store.historyLoaded && s.store.blockedUsers == {}
    && Orderly(History(s.rows, room))
    && Suffix(s.store.messages, History(s.rows, room))
    && |s.store.messages| <= 1000
  }

  // The query.

  function OlderThan(history: seq<Message>, before: int): seq<Message> {
    if history == [] then []
    else
      var n := |history| - 1;
      if history[n].timestamp < before then OlderThan(history[..n], before) + [history[n]]
      else OlderThan(history[..n], before)
  }

  lemma {:induction false} MatchingBefore(rows: seq<Row>, room: string, before: int)
    requires before > 0
    ensures Matching(rows, room, before) == OlderThan(Matching(rows, room, 0), before)
  {
    if rows != [] {
      var n := |rows| - 1;
      MatchingBefore(rows[..n], room, before);
      var all := Matching(rows[..n], room, 0);
      assert (all + [AsStored(rows[n].msg)])[..|all|] == all;
    }
  }

  predicate CutsAt(history: seq<Message>, n: nat, before: int) {
    && n <= |history|
    && (forall i | 0 <= i < n :: history[i].timestamp < before)
    && (forall i | n <= i < |history| :: history[i].timestamp >= before)
  }

  lemma {:induction false} OlderIsPrefix(history: seq<Message>, before: int)
    requires forall i, j | 0 <= i < j < |history| :: history[i].timestamp <= history[j].timestamp
    ensures var n := |OlderThan(history, before)|;
            CutsAt(history, n, before) && OlderThan(history, before) == history[..n]
  {
    if history != [] {
      var last, rest := history[|history| - 1], history[..|history| - 1];
      OlderIsPrefix(rest, before);
      var n := |OlderThan(rest, before)|;
      assert OlderThan(history, before) == if last.timestamp < before then OlderThan(rest, before) + [last]
                                           else OlderThan(rest, before);
      CutExtends(rest, last, n, before);
      assert history == rest + [last];
      hide OlderThan, CutsAt;
    }
  }

  lemma CutExtends(rest: seq<Message>, last: Message, n: nat, before: int)
    requires CutsAt(rest, n, before) && forall i | 0 <= i < |rest| :: rest[i].timestamp <= last.timestamp
    ensures if last.timestamp < before then n == |rest| && CutsAt(rest + [last], n + 1, before)
            else CutsAt(rest + [last], n, before) && (rest + [last])[..n] == rest[..n]
  {
    if n < |rest| {
      assert rest[n].timestamp <= last.timestamp;
    }
  }

  /** How many of the room's messages are older than the top of the window. */
  function OlderCount(s: Session, room: string): nat
    requires s.store.messages != []
  {
    |OlderThan(History(s.rows, room), s.store.messages[0].timestamp)|
  }

  function PageStart(end: nat): (start: nat)
    ensures start <= end <= start + 50 && (start == end ==> end == 0)
  {
    if end <= 50 then 0 else end - 50
  }

  /** A page is the up to fifty messages that end where the older ones end; that is directly before
      the window unless the message in front of the window has the same time as its top. */
  lemma OlderPageIs(s: Session, room: string)
    requires Showing(s, room) && s.store.messages != []
    ensures var h, n := History(s.rows, room), OlderCount(s, room);
            var w := |h| - |s.store.messages|;
            n <= w && (n == w <==> w == 0 || h[w - 1].timestamp < h[w].timestamp)
            && OlderPage(s, room) == h[PageStart(n)..n]
  {
    var h, top := History(s.rows, room), s.store.messages[0].timestamp;
    var w := |h| - |s.store.messages|;
    assert AsStored(s.store.messages[0]) == h[w];
    MatchingBefore(s.rows, room, top);
    OlderIsPrefix(h, top);
    assert CutsAt(h, OlderCount(s, room), top);
    hide Matching, OlderThan;
  }

  // A merge without optimistic entries.

  lemma NoEcho(messages: seq<Message>, msg: Message)
    requires Plain(msg) && forall i | 0 <= i < |messages| :: !IsOptimistic(messages[i].id)
    ensures EchoSlot(messages, msg) == None
  {
  }

  lemma {:induction false} PlainMerge(current: seq<Message>, incoming: seq<Message>)
    requires forall i | 0 <= i < |current| :: !IsOptimistic(current[i].id)
    requires forall i | 0 <= i < |incoming| :: Plain(incoming[i])
    requires Distinct(incoming) && forall i | 0 <= i < |incoming| :: incoming[i].id !in Ids(current)
    ensures AbsorbAll(current, incoming).messages == current && AbsorbAll(current, incoming).added == incoming
  {
    if incoming != [] {
      var n := |incoming| - 1;
      assert AbsorbAll(current, incoming) == Absorb(AbsorbAll(current, incoming[..n]), incoming[n]);
      PlainMerge(current, incoming[..n]);
      NoEcho(current, incoming[n]);
      KnownIds(current, incoming[..n]);
      hide EchoSlot, Plain, IsOptimistic, AbsorbAll;
      assert incoming[n].id !in Ids(incoming[..n]);
    }
  }

  lemma PlainMergeShows(current: seq<Message>, incoming: seq<Message>, direction: Direction, cap: nat, revision: nat)
    requires forall i | 0 <= i < |current| :: !IsOptimistic(current[i].id)
    requires forall i | 0 <= i < |incoming| :: Plain(incoming[i])
    requires Distinct(incoming) && forall i | 0 <= i < |incoming| :: incoming[i].id !in Ids(current)
    requires |current| <= cap || incoming != []
    ensures var r := Merge(current, incoming, direction, cap, revision);
            r.addedCount == |incoming| && r.messages == Cut(Joined(current, incoming, direction), direction, cap)
  {
    PlainMerge(current, incoming);
    assert [] + current == current && current + [] == current;
    hide AbsorbAll, Plain, IsOptimistic, Ids;
  }

  lemma IdsOfWindow(window: seq<Message>, history: seq<Message>, k: nat)
    requires Distinct(history) && Suffix(window, history) && k < |history| - |window|
    ensures history[k].id !in Ids(window)
  {
    forall i | 0 <= i < |window| ensures window[i].id != history[k].id {
      assert AsStored(window[i]) == history[|history| - |window| + i];
    }
  }

  lemma WindowIsReal(window: seq<Message>, history: seq<Message>)
    requires Suffix(window, history) && forall i | 0 <= i < |history| :: Plain(history[i])
    ensures forall i | 0 <= i < |window| :: !IsOptimistic(window[i].id)
  {
    hide IsOptimistic;
    forall i | 0 <= i < |window| ensures !IsOptimistic(window[i].id) {
      assert AsStored(window[i]) == history[|history| - |window| + i];
    }
  }

  /** A slice of the history before the window goes in front of it whole. */
  lemma PrependSlice(window: seq<Message>, history: seq<Message>, lo: nat, hi: nat, revision: nat)
    requires Orderly(history) && Suffix(window, history) && lo <= hi <= |history| - |window|
    requires |window| <= HISTORY_CAP
    ensures var r := Merge(window, history[lo..hi], Prepend, HISTORY_CAP, revision);
            r.addedCount == hi - lo && r.messages == Cut(history[lo..hi] + window, Prepend, HISTORY_CAP)
  {
    var page := history[lo..hi];
    WindowIsReal(window, history);
    forall i | 0 <= i < |page| ensures page[i].id !in Ids(window) && Plain(page[i]) {
      IdsOfWindow(window, history, lo + i);
    }
    hide Ids, Plain, AsStored, Suffix, Cut, Merge;
    PlainMergeShows(window, page, Prepend, HISTORY_CAP, revision);
  }

  // One page.

  lemma {:induction false} MatchingIsStored(rows: seq<Row>, room: string, before: int)
    ensures forall i | 0 <= i < |Matching(rows, room, before)| ::
              AsStored(Matching(rows, room, before)[i]) == Matching(rows, room, before)[i]
  {
    if rows != [] {
      MatchingIsStored(rows[..|rows| - 1], room, before);
    }
  }

  /** A slice put in front makes a longer suffix iff it ends where the window begins and nothing
      is cut off. */
  lemma SuffixIff(window: seq<Message>, history: seq<Message>, lo: nat, hi: nat)
    requires Distinct(history) && Suffix(window, history) && lo < hi <= |history| - |window|
    requires forall i | 0 <= i < |history| :: AsStored(history[i]) == history[i]
    requires hi - lo < HISTORY_CAP
    ensures Suffix(Cut(history[lo..hi] + window, Prepend, HISTORY_CAP), history)
            <==> hi == |history| - |window| && hi - lo + |window| <= HISTORY_CAP
  {
    var w, p := |history| - |window|, hi - lo;
    var all := history[lo..hi] + window;
    var shown := Cut(all, Prepend, HISTORY_CAP);
    if |all| > HISTORY_CAP {
      var k := HISTORY_CAP - 1;
      assert AsStored(shown[k]) == history[w + k - p];
      assert AsStored(shown[k]).id != history[|history| - HISTORY_CAP + k].id;
    } else if hi < w {
      assert shown[p - 1] == history[hi - 1];
      assert AsStored(shown[p - 1]).id != history[|history| - |shown| + p - 1].id;
    }
  }

  /** After one page the window is the end of the room iff nothing was older, or nothing tied with
      its top was skipped and the page fits under the cap. */
  lemma LoadOlderKeepsSuffixIff(s: Session, room: string)
    requires Showing(s, room) && s.store.messages != [] && !s.noMoreHistory
    ensures var h, window := History(s.rows, room), s.store.messages;
            var page, w := OlderPage(s, room), |h| - |window|;
            Suffix(Step(s, room, LoadOlder).store.messages, h)
            <==> page == []
                 || ((w == 0 || h[w - 1].timestamp < h[w].timestamp) && |page| + |window| <= 1000)
  {
    OneLoad(s, room);
    MatchingIsStored(s.rows, room, 0);
    var h, n := History(s.rows, room), OlderCount(s, room);
    assert forall i | 0 <= i < |h| :: AsStored(h[i]) == h[i];
    hide History, Matching, OlderThan, OlderCount, OlderPage, Step, Suffix, Plain, AsStored, Cut;
    SliceKeepsSuffixIff(s.store.messages, h, n);
  }

  lemma SliceKeepsSuffixIff(window: seq<Message>, history: seq<Message>, n: nat)
    requires Distinct(history) && Suffix(window, history) && n <= |history| - |window| && |window| <= HISTORY_CAP
    requires forall i | 0 <= i < |history| :: AsStored(history[i]) == history[i]
    ensures var page := history[PageStart(n)..n];
            Suffix(Cut(page + window, Prepend, HISTORY_CAP), history)
            <==> page == [] || (n == |history| - |window| && |page| + |window| <= HISTORY_CAP)
  {
    if PageStart(n) < n {
      SuffixIff(window, history, PageStart(n), n);
    } else {
      assert history[PageStart(n)..n] + window == window;
    }
    hide Suffix, AsStored;
  }

  lemma OneLoad(s: Session, room: string)
    requires Showing(s, room) && s.store.messages != [] && !s.noMoreHistory
    ensures var h, n, s' := History(s.rows, room), OlderCount(s, room), Step(s, room, LoadOlder);
            var lo := PageStart(n);
            var w := |h| - |s.store.messages|;
            n <= w && (n == w <==> w == 0 || h[w - 1].timestamp < h[w].timestamp)
            && OlderPage(s, room) == h[lo..n]
            && s'.rows == s.rows && s'.store.messages == Cut(h[lo..n] + s.store.messages, Prepend, 1000)
            && s'.store.historyLoaded && s'.store.blockedUsers == s.store.blockedUsers
            && (s'.noMoreHistory <==> n < 50)
  {
    var h, n, top := History(s.rows, room), OlderCount(s, room), s.store.messages[0];
    OlderPageIs(s, room);
    assert AsStored(top) == h[|h| - |s.store.messages|];
    assert top.timestamp > 0;
    StepOfLoad(s, room);
    hide OlderThan, Page, Cut, Matching, History, OlderCount, OlderPage, Distinct, Plain, Step, Merge, AsStored;
    PrependSlice(s.store.messages, h, PageStart(n), n, s.store.revision);
  }

  lemma StepOfLoad(s: Session, room: string)
    requires s.store.messages != [] && !s.noMoreHistory && s.store.messages[0].timestamp > 0 && s.store.historyLoaded
    ensures var page, s' := OlderPage(s, room), Step(s, room, LoadOlder);
            var r := Merge(s.store.messages, page, Prepend, HISTORY_CAP, s.store.revision);
            s'.rows == s.rows && s'.store.messages == r.messages && s'.store.historyLoaded
            && s'.store.blockedUsers == s.store.blockedUsers
            && (s'.noMoreHistory <==> r.addedCount == 0 || |page| < PAGE_SIZE)
  {
    hide Merge, Page;
  }

  // Runs.

  /** What a run may contain: messages of the room that fit, in strictly increasing time, and no page
      that passes the cap. */
  predicate Fits(s: Session, room: string, e: Event) {
    match e
    case Live(row) =>
      row.roomId == room ==>
        && LiveFits(s.store.messages, row.msg) && Orderly(History(s.rows, room) + [AsStored(row.msg)])
        && NoTies(History(s.rows, room) + [AsStored(row.msg)])
    case LoadOlder =>
      s.store.messages != [] ==> |OlderPage(s, room)| + |s.store.messages| <= 1000
  }

  predicate AllFit(s: Session, room: string, events: seq<Event>) {
    events != [] ==>
      var n := |events| - 1;
      AllFit(s, room, events[..n]) && Fits(Run(s, room, events[..n]), room, events[n])
  }

  lemma OneMoreRow(rows: seq<Row>, row: Row, room: string)
    requires room != ""
    ensures History(rows + [row], room)
            == if row.roomId == room then History(rows, room) + [AsStored(row.msg)] else History(rows, room)
  {
    assert (rows + [row])[..|rows|] == rows;
  }

  /** A live message is new and echoes nothing; the exception, one entry that the newest message
      takes the place of, makes a suffix all the same. */
  predicate LiveFits(window: seq<Message>, msg: Message) {
    EchoSlot(window, msg) == None || (|window| == 1 && msg.reactions == window[0].reactions)
  }

  lemma NewestIsNew(window: seq<Message>, history: seq<Message>, msg: Message)
    requires Distinct(history + [AsStored(msg)]) && Suffix(window, history)
    ensures msg.id !in Ids(window)
  {
    var after := history + [AsStored(msg)];
    forall i | 0 <= i < |window| ensures window[i].id != msg.id {
      assert AsStored(window[i]) == after[|history| - |window| + i] && after[|history|].id == msg.id;
    }
  }

  lemma SingleMerge(window: seq<Message>, msg: Message, revision: nat)
    requires msg.id !in Ids(window)
    ensures var slot := EchoSlot(window, msg);
            Merge(window, [msg], Append, MESSAGE_CAP, revision).messages
            == if slot.Some? then window[slot.value := msg.(reactions := window[slot.value].reactions)]
               else Cut(window + [msg], Append, MESSAGE_CAP)
  {
    OneMoreIncoming(window, [], msg);
    assert [] + [msg] == [msg] && AbsorbAll(window, []) == Begin(window);
    hide AbsorbAll, EchoSlot;
  }

  lemma AppendedIsSuffix(window: seq<Message>, history: seq<Message>, msg: Message)
    requires Suffix(window, history) && |window| <= HISTORY_CAP
    ensures var shown := Cut(window + [msg], Append, MESSAGE_CAP);
            Suffix(shown, history + [AsStored(msg)])
            && |shown| == if |window| < MESSAGE_CAP then |window| + 1 else MESSAGE_CAP
  {
    hide AsStored;
  }

  lemma EchoIsSuffixIff(window: seq<Message>, history: seq<Message>, msg: Message, slot: nat)
    requires Distinct(history + [AsStored(msg)]) && Suffix(window, history) && slot < |window|
    ensures Suffix(window[slot := msg.(reactions := window[slot].reactions)], history + [AsStored(msg)])
            <==> |window| == 1 && msg.reactions == window[0].reactions
  {
    var after, n := history + [AsStored(msg)], |history|;
    var shown := window[slot := msg.(reactions := window[slot].reactions)];
    assert after[n] == AsStored(msg);
    if |window| > 1 {
      var other := if slot == 0 then |window| - 1 else 0;
      assert AsStored(shown[other]) == history[n - |window| + other] == after[n - |window| + other];
      assert AsStored(shown[other]).id != after[n + 1 - |window| + other].id;
    } else {
      assert |shown| == 1 && shown[0] == msg.(reactions := window[0].reactions);
    }
  }

  /** The exact condition: after a live message the window is the end of the room iff the message
      fits. One that names the id of a shown message overwrites it instead. */
  lemma LiveKeepsSuffixIff(s: Session, room: string, row: Row)
    requires Showing(s, room) && row.roomId == room && Orderly(History(s.rows, room) + [AsStored(row.msg)])
    ensures var s' := Step(s, room, Live(row));
            Suffix(s'.store.messages, History(s'.rows, room)) <==> LiveFits(s.store.messages, row.msg)
  {
    var window, h, msg := s.store.messages, History(s.rows, room), row.msg;
    OneMoreRow(s.rows, row, room);
    NewestIsNew(window, h, msg);
    SingleMerge(window, msg, s.store.revision);
    AppendedIsSuffix(window, h, msg);
    if EchoSlot(window, msg).Some? {
      EchoIsSuffixIff(window, h, msg, EchoSlot(window, msg).value);
    }
    hide Merge, Cut, History, Suffix, Orderly, AsStored, EchoSlot;
  }

  /** A live message that fits goes behind the window; beyond 500 the oldest are dropped, pages
      loaded before included. */
  lemma LiveKeepsShowing(s: Session, room: string, row: Row)
    requires Showing(s, room) && NoTies(History(s.rows, room)) && Fits(s, room, Live(row))
    ensures var s', n := Step(s, room, Live(row)), |s.store.messages|;
            Showing(s', room) && NoTies(History(s'.rows, room)) && s'.noMoreHistory == s.noMoreHistory
            && (row.roomId == room ==>
                  |s'.store.messages| == if EchoSlot(s.store.messages, row.msg).Some? then n
                                         else if n < 500 then n + 1 else 500)
  {
    OneMoreRow(s.rows, row, room);
    if row.roomId == room {
      LiveKeepsSuffixIff(s, room, row);
      NewestIsNew(s.store.messages, History(s.rows, room), row.msg);
      SingleMerge(s.store.messages, row.msg, s.store.revision);
      AppendedIsSuffix(s.store.messages, History(s.rows, room), row.msg);
    }
    hide Merge, Cut, History, Suffix, Orderly, NoTies, AsStored, LiveFits, EchoSlot;
  }

  lemma LoadKeepsShowing(s: Session, room: string)
    requires Showing(s, room) && NoTies(History(s.rows, room)) && Fits(s, room, LoadOlder)
    ensures Showing(Step(s, room, LoadOlder), room) && Step(s, room, LoadOlder).rows == s.rows
  {
    if s.store.messages != [] && !s.noMoreHistory {
      LoadOlderKeepsSuffixIff(s, room);
      OneLoad(s, room);
      var h, n := History(s.rows, room), OlderCount(s, room);
      var lo := PageStart(n);
      assert |Cut(h[lo..n] + s.store.messages, Prepend, HISTORY_CAP)| <= HISTORY_CAP;
      hide History, Suffix, Cut, Step, OlderCount, OlderPage;
    }
  }

  /** The window stays the end of the room over any mix of live messages and pages. */
  lemma {:induction false} WindowStaysSuffix(s: Session, room: string, events: seq<Event>)
    requires Showing(s, room) && NoTies(History(s.rows, room)) && AllFit(s, room, events)
    ensures var s' := Run(s, room, events);
            Showing(s', room) && NoTies(History(s'.rows, room))
  {
    if events != [] {
      var n := |events| - 1;
      WindowStaysSuffix(s, room, events[..n]);
      var before := Run(s, room, events[..n]);
      match events[n]
      case Live(row) => LiveKeepsShowing(before, room, row);
      case LoadOlder => LoadKeepsShowing(before, room);
    }
  }

  lemma FirstMerge(page: seq<Message>)
    requires Distinct(page) && |page| <= MESSAGE_CAP && forall i | 0 <= i < |page| :: Plain(page[i])
    ensures Merge([], page, Append, MESSAGE_CAP, 0).messages == page
  {
    PlainMergeShows([], page, Append, MESSAGE_CAP, 0);
    assert [] + page == page;
    hide Merge, Plain;
  }

  /** The first page: a suffix of up to a hundred messages. */
  lemma JoinShows(rows: seq<Row>, room: string)
    requires room != "" && Orderly(History(rows, room))
    ensures Showing(Join(rows, room), room) && !Join(rows, room).noMoreHistory && Join(rows, room).rows == rows
    ensures |Join(rows, room).store.messages| == if |History(rows, room)| <= 100 then |History(rows, room)| else 100
  {
    MatchingIsStored(rows, room, 0);
    FirstMerge(Page(rows, room, FIRST_PAGE, 0));
    hide Merge, Matching, Plain, AsStored;
  }

  function AtMost(n: int, most: int): int {
    if n <= most then n else most
  }

  /** The session after `k` pages in a row. */
  function Loaded(s: Session, room: string, k: nat): Session {
    if k == 0 then s else Step(Loaded(s, room, k - 1), room, LoadOlder)
  }

  /** Where `k` pages lead: min(all, window + 50k) messages are shown, and paging is ended exactly
      when fewer than 50k were left. */
  predicate Paged(s: Session, s': Session, room: string, k: nat) {
    var h, w := |History(s.rows, room)|, |s.store.messages|;
    && w <= h && Showing(s', room) && s'.rows == s.rows && s'.store.messages != []
    && |s'.store.messages| == AtMost(w + 50 * k, h)
    && (s'.noMoreHistory <==> h - w < 50 * k)
  }

  /** Paging is complete: as long as the window stays under the cap, and in a room under the cap it
      ends, with the whole room shown. */
  lemma {:induction false} PagingIsComplete(s: Session, room: string, k: nat)
    requires Showing(s, room) && NoTies(History(s.rows, room)) && s.store.messages != [] && !s.noMoreHistory
    requires AtMost(|s.store.messages| + 50 * k, |History(s.rows, room)|) <= 1000
    ensures Paged(s, Loaded(s, room, k), room, k)
  {
    hide Paged, Showing, Step, History, NoTies;
    if k == 0 {
      NoPageYet(s, room);
    } else {
      PagingIsComplete(s, room, k - 1);
      OneMorePage(s, Loaded(s, room, k - 1), room, k - 1);
    }
  }

  lemma NoPageYet(s: Session, room: string)
    requires Showing(s, room) && s.store.messages != [] && !s.noMoreHistory
    ensures Paged(s, s, room, 0)
  {
    hide History, Orderly;
  }

  lemma OneMorePage(s: Session, before: Session, room: string, k: nat)
    requires NoTies(History(s.rows, room)) && Paged(s, before, room, k)
    requires AtMost(|s.store.messages| + 50 * (k + 1), |History(s.rows, room)|) <= 1000
    ensures Paged(s, Step(before, room, LoadOlder), room, k + 1)
  {
    hide History, Showing, Step, NoTies;
    LoadAll(before, room);
  }

  /** One page where the cap is no concern. */
  lemma LoadAll(s: Session, room: string)
    requires Showing(s, room) && NoTies(History(s.rows, room)) && s.store.messages != []
    requires s.noMoreHistory || AtMost(|s.store.messages| + 50, |History(s.rows, room)|) <= 1000
    ensures var s', h, w := Step(s, room, LoadOlder), |History(s.rows, room)|, |s.store.messages|;
            Showing(s', room) && s'.rows == s.rows
            && if s.noMoreHistory then s' == s
               else |s'.store.messages| == AtMost(w + 50, h)
                    && (s'.noMoreHistory <==> h - w < 50)
  {
    if !s.noMoreHistory {
      OneLoad(s, room);
      LoadKeepsShowing(s, room);
      hide History, Suffix, OlderCount, Step, OlderPage, Plain;
    }
  }

  /** The end of paging is not undone when live messages push loaded ones out: a client at the end
      that shows 500 or more messages loses the oldest and cannot get them back. */
  lemma EndSurvivesTheCut(s: Session, room: string, row: Row)
    requires Showing(s, room) && NoTies(History(s.rows, room)) && Fits(s, room, Live(row)) && row.roomId == room
    requires s.noMoreHistory && |s.store.messages| == |History(s.rows, room)|
    ensures var s' := Step(s, room, Live(row));
            Step(s', room, LoadOlder) == s'
            && (|s'.store.messages| == |History(s'.rows, room)|
                <==> EchoSlot(s.store.messages, row.msg) == None && |s.store.messages| < 500)
  {
    LiveKeepsShowing(s, room, row);
    OneMoreRow(s.rows, row, room);
    hide Matching, Merge, Plain;
  }
}
