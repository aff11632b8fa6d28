/** The transcript shows runs of one user's messages as a group. */
module Transcript {
  import opened MessageWindow

  const GROUP_WINDOW_MS := 120_000
  const SYSTEM := "system"

  datatype Group =
    | UserGroup(username: string, isOwn: bool, messages: seq<Message>)
    | SystemGroup(message: Message)

  /** The message can be shown in the group it follows. */
  predicate Continues(g: Group, msg: Message) {
    && g.UserGroup? && g.messages != []
    && g.username == msg.username && !msg.deleted
    && msg.timestamp - g.messages[|g.messages| - 1].timestamp < GROUP_WINDOW_MS
  }

  // What a grouping is, without saying how it is built.

  function Members(g: Group): seq<Message> {
    if g.SystemGroup? then [g.message] else g.messages
  }

  function Flatten(groups: seq<Group>): seq<Message> {
    if groups == [] then [] else Flatten(groups[..|groups| - 1]) + Members(groups[|groups| - 1])
  }

  /** One author; none but the first deleted; less than two minutes from each to the next. */
  predicate Coherent(g: Group, me: string) {
    match g
    case SystemGroup(message) => message.username == "system"
    case UserGroup(username, isOwn, messages) =>
      && username != "system" && isOwn == (username == me) && messages != []
      && (forall i | 0 <= i < |messages| :: messages[i].username == username)
      && (forall i | 1 <= i < |messages| :: !messages[i].deleted
                                         && messages[i].timestamp - messages[i - 1].timestamp < 120_000)
  }

  /** Everything in order, every group coherent, and none that could have gone on in the next. */
  predicate Lawful(groups: seq<Group>, messages: seq<Message>, me: string) {
    && Flatten(groups) == messages
    && (forall i | 0 <= i < |groups| :: Coherent(groups[i], me))
    && (forall i | 1 <= i < |groups| :: groups[i].UserGroup? ==> !Continues(groups[i - 1], groups[i].messages[0]))
  }

  /** The loop of the source, with the last group extended in place. */
  method BuildMessageGroups(messages: seq<Message>, me: string) returns (groups: seq<Group>)
    ensures Lawful(groups, messages, me)
  {
    groups := [];
    assert Lawful([], [], me) && messages[..0] == [];
    hide Lawful, Flatten;
    for k := 0 to |messages|
      invariant Lawful(groups, messages[..k], me)
    {
      var msg := messages[k];
      assert messages[..k + 1] == messages[..k] + [msg];
      AddKeepsLawful(groups, messages[..k], msg, me);
      LastNotEmpty(groups, messages[..k], me);
      if msg.username == SYSTEM {
        groups := groups + [SystemGroup(msg)];
        continue;
      }
      var n := |groups|;
      if n > 0 && groups[n - 1].UserGroup? && groups[n - 1].username == msg.username && !msg.deleted
         && msg.timestamp - groups[n - 1].messages[|groups[n - 1].messages| - 1].timestamp < GROUP_WINDOW_MS {
        groups := groups[n - 1 := groups[n - 1].(messages := groups[n - 1].messages + [msg])];
      } else {
        groups := groups + [UserGroup(msg.username, msg.username == me, [msg])];
      }
    }
    assert messages[..|messages|] == messages;
  }

  lemma LastNotEmpty(groups: seq<Group>, messages: seq<Message>, me: string)
    requires Lawful(groups, messages, me)
    ensures groups != [] && groups[|groups| - 1].UserGroup? ==> groups[|groups| - 1].messages != []
  {
    hide Flatten;
    assert groups != [] ==> Coherent(groups[|groups| - 1], me);
  }

  function Add(groups: seq<Group>, msg: Message, me: string): seq<Group> {
    var n := |groups|;
    if msg.username == SYSTEM then groups + [SystemGroup(msg)]
    else if n > 0 && Continues(groups[n - 1], msg) then
      groups[n - 1 := groups[n - 1].(messages := groups[n - 1].messages + [msg])]
    else groups + [UserGroup(msg.username, msg.username == me, [msg])]
  }

  lemma FlattenAdd(groups: seq<Group>, msg: Message, me: string)
    ensures Flatten(Add(groups, msg, me)) == Flatten(groups) + [msg]
  {
    var all, n := Add(groups, msg, me), |groups|;
    if |all| > n {
      assert all[..n] == groups;
    } else {
      assert all[..n - 1] == groups[..n - 1];
    }
  }

  lemma AddKeepsLawful(groups: seq<Group>, messages: seq<Message>, msg: Message, me: string)
    requires Lawful(groups, messages, me)
    ensures Lawful(Add(groups, msg, me), messages + [msg], me)
  {
    FlattenAdd(groups, msg, me);
    var all, n := Add(groups, msg, me), |groups|;
    hide Flatten;
    if msg.username != SYSTEM && n > 0 && Continues(groups[n - 1], msg) {
      var g := groups[n - 1];
      assert Coherent(g, me);
      assert all[n - 1].messages == g.messages + [msg] && all[n - 1].messages[0] == g.messages[0];
    }
  }

  /** All but the last message of the last group. */
  function Shorter(g: Group): Group
    requires g.UserGroup? && g.messages != []
  {
    g.(messages := g.messages[..|g.messages| - 1])
  }

  function Drop(groups: seq<Group>): seq<Group>
    requires groups != []
  {
    var n := |groups|;
    var g := groups[n - 1];
    if g.UserGroup? && |g.messages| > 1 then groups[..n - 1] + [Shorter(g)] else groups[..n - 1]
  }

  lemma ShorterCoherent(g: Group, me: string)
    requires Coherent(g, me) && g.UserGroup? && |g.messages| > 1
    ensures var less, msg := Shorter(g), g.messages[|g.messages| - 1];
            Coherent(less, me) && Continues(less, msg) && less.messages[0] == g.messages[0]
            && msg.username != SYSTEM && less.(messages := less.messages + [msg]) == g
            && Members(g) == Members(less) + [msg]
  {
    assert g.messages == Shorter(g).messages + [g.messages[|g.messages| - 1]];
  }

  lemma LongerLast(rest: seq<Group>, g: Group, me: string)
    requires Lawful(rest + [g], Flatten(rest + [g]), me) && g.UserGroup? && |g.messages| > 1
    ensures Lawful(rest + [Shorter(g)], Flatten(rest) + Members(Shorter(g)), me)
    ensures Add(rest + [Shorter(g)], g.messages[|g.messages| - 1], me) == rest + [g]
  {
    var all, less := rest + [g], rest + [Shorter(g)];
    assert all[|rest|] == g;
    ShorterCoherent(g, me);
    assert less[..|rest|] == rest;
    assert Flatten(less) == Flatten(rest) + Members(Shorter(g));
    hide Coherent, Continues, Shorter, Flatten, Members;
    assert forall i | 0 <= i < |rest| :: less[i] == all[i];
    assert less[|rest|] == Shorter(g) && all[..|rest|] == rest;
  }

  lemma SingleLast(rest: seq<Group>, g: Group, me: string)
    requires Lawful(rest + [g], Flatten(rest + [g]), me) && !(g.UserGroup? && |g.messages| > 1)
    ensures Lawful(rest, Flatten(rest), me) && |Members(g)| == 1
    ensures Add(rest, Members(g)[0], me) == rest + [g]
  {
    var all := rest + [g];
    assert all[|rest|] == g && Coherent(g, me);
    assert forall i | 0 <= i < |rest| :: rest[i] == all[i];
    hide Flatten;
    if g.UserGroup? {
      assert g.messages == [g.messages[0]];
    }
  }

  lemma Unfold(groups: seq<Group>)
    requires groups != []
    ensures var n := |groups| - 1;
            Flatten(groups) == Flatten(groups[..n]) + Members(groups[n])
  {
  }

  /** A lawful grouping is the one of all but the last message, with that one added. */
  lemma LastAdded(groups: seq<Group>, messages: seq<Message>, me: string)
    requires Lawful(groups, messages, me) && messages != []
    ensures groups != []
            && Lawful(Drop(groups), messages[..|messages| - 1], me)
            && groups == Add(Drop(groups), messages[|messages| - 1], me)
  {
    assert groups != [] && Flatten(groups) == messages;
    hide Lawful, Add, Flatten, Coherent, Continues, Members, Shorter;
    Unfold(groups);
    var rest, g := groups[..|groups| - 1], groups[|groups| - 1];
    assert groups == rest + [g];
    if g.UserGroup? && |g.messages| > 1 {
      assert Drop(groups) == rest + [Shorter(g)];
      LastOfLonger(rest, g, me);
    } else {
      assert Drop(groups) == rest;
      LastOfSingle(rest, g, me);
    }
  }

  lemma LastOfLonger(rest: seq<Group>, g: Group, me: string)
    requires Lawful(rest + [g], Flatten(rest) + Members(g), me) && g.UserGroup? && |g.messages| > 1
    requires Flatten(rest + [g]) == Flatten(rest) + Members(g)
    ensures var messages := Flatten(rest) + Members(g);
            |Members(g)| > 0 && Lawful(rest + [Shorter(g)], messages[..|messages| - 1], me)
            && Add(rest + [Shorter(g)], messages[|messages| - 1], me) == rest + [g]
  {
    hide Lawful, Add, Flatten, Coherent, Continues, Members, Shorter;
    LongerLast(rest, g, me);
    DropsLast(g);
    InitOfJoin(Flatten(rest), Members(g));
  }

  lemma LastOfSingle(rest: seq<Group>, g: Group, me: string)
    requires Lawful(rest + [g], Flatten(rest) + Members(g), me) && !(g.UserGroup? && |g.messages| > 1)
    requires Flatten(rest + [g]) == Flatten(rest) + Members(g)
    ensures var messages := Flatten(rest) + Members(g);
            |Members(g)| > 0 && Lawful(rest, messages[..|messages| - 1], me)
            && Add(rest, messages[|messages| - 1], me) == rest + [g]
  {
    hide Lawful, Add, Flatten, Coherent, Continues, Members;
    SingleLast(rest, g, me);
    InitOfJoin(Flatten(rest), Members(g));
    assert Members(g)[..0] == [] && Flatten(rest) + [] == Flatten(rest);
  }

  lemma DropsLast(g: Group)
    requires g.UserGroup? && g.messages != []
    ensures Members(g) == g.messages && Members(Shorter(g)) == g.messages[..|g.messages| - 1]
  {
  }

  lemma InitOfJoin<T>(a: seq<T>, b: seq<T>)
    requires b != []
    ensures (a + b)[..|a + b| - 1] == a + b[..|b| - 1] && (a + b)[|a + b| - 1] == b[|b| - 1]
  {
  }

  /** The laws leave no choice: there is one lawful grouping. */
  lemma {:induction false} LawfulIsUnique(a: seq<Group>, b: seq<Group>, messages: seq<Message>, me: string)
    requires Lawful(a, messages, me) && Lawful(b, messages, me)
    ensures a == b
    decreases |messages|
  {
    hide *;
    if messages == [] {
      NothingToGroup(a, me);
      NothingToGroup(b, me);
    } else {
      LastAdded(a, messages, me);
      LastAdded(b, messages, me);
      LawfulIsUnique(Drop(a), Drop(b), messages[..|messages| - 1], me);
    }
  }

  lemma NothingToGroup(groups: seq<Group>, me: string)
    requires Lawful(groups, [], me)
    ensures groups == []
  {
    NoEmptyGroups(groups, me);
  }

  lemma NoEmptyGroups(groups: seq<Group>, me: string)
    requires forall i | 0 <= i < |groups| :: Coherent(groups[i], me)
    ensures groups != [] ==> Flatten(groups) != []
  {
    if groups != [] {
      assert Coherent(groups[|groups| - 1], me);
    }
  }
}
