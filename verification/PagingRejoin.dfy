/** What a reconnection does to the window. The server greets every join with the newest hundred
    messages, but the client fills its window from the first greeting only: the next ones take the
    branch of an older page. */
module PagingRejoin {
  import opened Options
  import opened MessageWindow
  import opened MergeTheorems
  import opened ChatStore
  import opened Paging

  /** The greeting of a client that has been here before. */
  function Rejoined(s: Session, room: string): Session {
    OnHistory(s, Page(s.rows, room, FIRST_PAGE, 0))
  }

  /** The window is the part of the room that ends after its first `b` messages; what came later
      was missed. */
  predicate Behind(s: Session, room: string, b: nat) {
    && s.store.historyLoaded && s.store.messages != [] && |s.store.messages| <= 1000
    && Orderly(History(s.rows, room))
    && Slice(s.store.messages, History(s.rows, room), b)
  }

  predicate Slice(window: seq<Message>, history: seq<Message>, b: nat) {
    && |window| <= b <= |history|
    && (forall i | 0 <= i < |window| :: AsStored(window[i]) == history[b - |window| + i])
  }

  /** The messages of a batch the window does not have. */
  function Unknown(window: seq<Message>, batch: seq<Message>): (u: seq<Message>)
    ensures |u| <= |batch|
  {
    if batch == [] then []
    else
      var n := |batch| - 1;
      Unknown(window, batch[..n]) + if batch[n].id in Ids(window) then [] else [batch[n]]
  }

  lemma {:induction false} MergeSkipsKnown(window: seq<Message>, batch: seq<Message>)
    requires Distinct(batch) && forall i | 0 <= i < |window| :: !IsOptimistic(window[i].id)
    requires forall i | 0 <= i < |batch| :: Plain(batch[i])
    ensures AbsorbAll(window, batch).messages == window && AbsorbAll(window, batch).added == Unknown(window, batch)
  {
    if batch != [] {
      var n := |batch| - 1;
      assert AbsorbAll(window, batch) == Absorb(AbsorbAll(window, batch[..n]), batch[n]);
      MergeSkipsKnown(window, batch[..n]);
      NoEcho(window, batch[n]);
      KnownIds(window, batch[..n]);
      hide EchoSlot, Plain, AbsorbAll;
      assert batch[n].id !in Ids(batch[..n]);
    }
  }

  lemma KnownIffInside(window: seq<Message>, history: seq<Message>, b: nat, k: nat)
    requires Distinct(history) && Slice(window, history, b) && k < |history|
    ensures history[k].id in Ids(window) <==> b - |window| <= k < b
  {
    var a := b - |window|;
    if a <= k < b {
      assert AsStored(window[k - a]) == history[k] && window[k - a] in window;
    } else {
      forall i | 0 <= i < |window| ensures window[i].id != history[k].id {
        assert AsStored(window[i]) == history[a + i];
      }
    }
  }

  /** Of a stretch that ends within the window, the part in front of the window is unknown. */
  lemma {:induction false} UnknownInFront(window: seq<Message>, history: seq<Message>, b: nat, lo: nat, hi: nat)
    requires Distinct(history) && Slice(window, history, b) && lo <= hi <= b <= |history| && |window| <= b
    ensures var a := b - |window|;
            Unknown(window, history[lo..hi]) == if hi <= a then history[lo..hi] else if lo <= a then history[lo..a] else []
    decreases hi
  {
    hide *;
    if lo < hi {
      var batch, last := history[lo..hi - 1], history[hi - 1];
      assert history[lo..hi] == batch + [last];
      UnknownInFront(window, history, b, lo, hi - 1);
      UnknownSnoc(window, batch, last);
      KnownIffInside(window, history, b, hi - 1);
    } else {
      UnknownNone(window, history[lo..hi]);
    }
  }

  lemma UnknownSnoc(window: seq<Message>, batch: seq<Message>, msg: Message)
    ensures Unknown(window, batch + [msg]) == Unknown(window, batch) + if msg.id in Ids(window) then [] else [msg]
  {
    assert (batch + [msg])[..|batch|] == batch;
  }

  lemma UnknownNone(window: seq<Message>, batch: seq<Message>)
    requires batch == []
    ensures Unknown(window, batch) == []
  {
  }

  lemma UnknownLast(window: seq<Message>, history: seq<Message>, b: nat, lo: nat)
    requires Distinct(history) && Slice(window, history, b) && b < |history| && lo < |history|
    ensures var u := Unknown(window, history[lo..]);
            u != [] && u[|u| - 1] == history[|history| - 1]
  {
    KnownIffInside(window, history, b, |history| - 1);
  }

  function GreetingStart(history: seq<Message>): nat {
    if |history| <= 100 then 0 else |history| - 100
  }

  lemma MergeGreeting(window: seq<Message>, page: seq<Message>, revision: nat)
    requires Distinct(page) && |window| <= HISTORY_CAP && forall i | 0 <= i < |window| :: !IsOptimistic(window[i].id)
    requires forall i | 0 <= i < |page| :: Plain(page[i])
    ensures var r := Merge(window, page, Prepend, HISTORY_CAP, revision);
            r.messages == Cut(Unknown(window, page) + window, Prepend, HISTORY_CAP)
            && r.addedCount == |Unknown(window, page)|
  {
    MergeSkipsKnown(window, page);
    assert [] + window == window;
    hide AbsorbAll, Plain, Unknown, Distinct;
  }

  lemma GreetingIs(s: Session, room: string)
    requires Orderly(History(s.rows, room))
    ensures var h := History(s.rows, room);
            var page := h[GreetingStart(h)..];
            Page(s.rows, room, FIRST_PAGE, 0) == page && Distinct(page)
            && forall i | 0 <= i < |page| :: Plain(page[i])
  {
    hide Plain;
  }

  lemma SliceIsReal(window: seq<Message>, history: seq<Message>, b: nat)
    requires Slice(window, history, b) && forall i | 0 <= i < |history| :: Plain(history[i])
    ensures forall i | 0 <= i < |window| :: !IsOptimistic(window[i].id)
  {
    hide IsOptimistic;
    forall i | 0 <= i < |window| ensures !IsOptimistic(window[i].id) {
      assert AsStored(window[i]) == history[b - |window| + i];
    }
  }

  lemma Greeting(s: Session, room: string, b: nat)
    requires Behind(s, room, b)
    ensures var h, window := History(s.rows, room), s.store.messages;
            var page, s' := h[GreetingStart(h)..], Rejoined(s, room);
            s'.store.messages == Cut(Unknown(window, page) + window, Prepend, HISTORY_CAP)
            && (s'.noMoreHistory <==> s.noMoreHistory || Unknown(window, page) == [] || |page| < PAGE_SIZE)
  {
    var h := History(s.rows, room);
    GreetingIs(s, room);
    SliceIsReal(s.store.messages, h, b);
    hide Plain, History, Unknown, Distinct, Merge, Page, Cut, Orderly, Slice, GreetingStart;
    MergeGreeting(s.store.messages, h[GreetingStart(h)..], s.store.revision);
  }

  /** The window is the end of the room after a reconnection iff nothing was missed: missed
      messages go in front of the older ones. */
  lemma RejoinKeepsSuffixIff(s: Session, room: string, b: nat)
    requires Behind(s, room, b)
    ensures Suffix(Rejoined(s, room).store.messages, History(s.rows, room)) <==> b == |History(s.rows, room)|
  {
    Greeting(s, room, b);
    MatchingIsStored(s.rows, room, 0);
    var h := History(s.rows, room);
    assert forall i | 0 <= i < |h| :: AsStored(h[i]) == h[i];
    hide Rejoined, History, Plain, Cut, AsStored, Suffix, Slice;
    GreetingKeepsSuffixIff(s.store.messages, h, b);
  }

  lemma GreetingKeepsSuffixIff(window: seq<Message>, h: seq<Message>, b: nat)
    requires Distinct(h) && Slice(window, h, b) && window != [] && |window| <= HISTORY_CAP
    requires forall i | 0 <= i < |h| :: AsStored(h[i]) == h[i]
    ensures Suffix(Cut(Unknown(window, h[GreetingStart(h)..]) + window, Prepend, HISTORY_CAP), h) <==> b == |h|
  {
    if b == |h| {
      NothingMissed(window, h, GreetingStart(h));
    } else {
      UnknownLast(window, h, b, GreetingStart(h));
      assert |h[GreetingStart(h)..]| <= FIRST_PAGE;
      MissedInFront(window, h, b, Unknown(window, h[GreetingStart(h)..]));
    }
    hide Unknown, Cut, Suffix, Slice, AsStored, Distinct;
  }

  lemma NothingMissed(window: seq<Message>, h: seq<Message>, lo: nat)
    requires Distinct(h) && Slice(window, h, |h|) && |window| <= HISTORY_CAP && lo <= |h| <= lo + FIRST_PAGE
    requires forall i | 0 <= i < |h| :: AsStored(h[i]) == h[i]
    ensures Suffix(Cut(Unknown(window, h[lo..]) + window, Prepend, HISTORY_CAP), h)
  {
    hide *;
    SliceToEnd(window, h, lo);
    UnknownInFront(window, h, |h|, lo, |h|);
    FilledInFront(window, h, lo);
  }

  lemma SliceToEnd(window: seq<Message>, h: seq<Message>, lo: nat)
    requires Slice(window, h, |h|) && lo <= |h|
    ensures Suffix(window, h) && |window| <= |h| && h[lo..] == h[lo..|h|]
  {
    hide AsStored;
  }

  lemma FilledInFront(window: seq<Message>, history: seq<Message>, lo: nat)
    requires Suffix(window, history) && lo <= |history| <= lo + FIRST_PAGE && |window| <= |history|
    requires |window| <= HISTORY_CAP && forall i | 0 <= i < |history| :: AsStored(history[i]) == history[i]
    ensures var a := |history| - |window|;
            var filled := if |history| <= a then history[lo..|history|] else if lo <= a then history[lo..a] else [];
            Suffix(Cut(filled + window, Prepend, HISTORY_CAP), history)
  {
    hide AsStored;
  }

  lemma MissedInFront(window: seq<Message>, history: seq<Message>, b: nat, missed: seq<Message>)
    requires Distinct(history) && Slice(window, history, b) && b < |history| && window != []
    requires missed != [] && |missed| <= FIRST_PAGE
    ensures !Suffix(Cut(missed + window, Prepend, HISTORY_CAP), history)
  {
    var shown := Cut(missed + window, Prepend, HISTORY_CAP);
    var k := |shown| - 1 - |missed|;
    assert 0 <= k < |window| && shown[|shown| - 1] == window[k];
    assert AsStored(window[k]) == history[b - |window| + k];
    assert AsStored(window[k]).id != history[|history| - 1].id;
  }

  /** And a reconnection ends paging, whether or not older messages are left: exactly when the room
      has less than a page, or nothing was missed and the window holds the whole greeting. */
  lemma RejoinEndsPagingIff(s: Session, room: string, b: nat)
    requires Behind(s, room, b) && !s.noMoreHistory
    ensures var h, window := History(s.rows, room), s.store.messages;
            Rejoined(s, room).noMoreHistory
            <==> |h| < 50 || (b == |h| && |window| >= AtMost(100, |h|))
  {
    var h, window := History(s.rows, room), s.store.messages;
    var lo := GreetingStart(h);
    Greeting(s, room, b);
    assert h[lo..] == h[lo..|h|];
    assert |window| <= b <= |h|;
    hide Unknown, Rejoined, History, Plain, Cut, Slice, AsStored;
    if b == |h| {
      UnknownInFront(window, h, b, lo, b);
    } else {
      UnknownLast(window, h, b, lo);
    }
  }
}
