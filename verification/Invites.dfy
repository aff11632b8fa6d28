/** Registration by invite code: the users and invite_codes tables, the two operations that change
    them, and the account between invitations used and users created. */
module Invites {
  import opened Options

  datatype User = User(passwordHash: string, invitedBy: string, createdAt: int)

  datatype Code = Code(creator: string, maxUses: int, useCount: int, createdAt: int)

  datatype Tables = Tables(users: map<string, User>, codes: map<string, Code>)

  datatype Result = Ok | CodeRequired | CodeUnknown | CodeUsedUp | NameTaken | DatabaseError

  /** The statement of a transaction at which the database fails, if it does. */
  datatype Fault = Never | AtBegin | AtCodeQuery | AtNameQuery | AtInsert | AtUpdate | AtCommit

  const DEFAULT_USES := 5
  const CODE_LENGTH := 8

  // Codes are compared in upper case and without surrounding white space (ASCII only).

  function Upper(c: char): char {
    if 'a' <= c <= 'z' then c - 'a' + 'A' else c
  }

  predicate IsSpace(c: char) {
    c == ' ' || '\t' <= c <= '\r'
  }

  function ToUpper(s: string): (u: string)
    ensures |u| == |s| && forall i | 0 <= i < |s| :: u[i] == Upper(s[i])
  {
    seq(|s|, i requires 0 <= i < |s| => Upper(s[i]))
  }

  function TrimLeft(s: string): string {
    if s != "" && IsSpace(s[0]) then TrimLeft(s[1..]) else s
  }

  function TrimRight(s: string): string {
    if s != "" && IsSpace(s[|s| - 1]) then TrimRight(s[..|s| - 1]) else s
  }

  function Normal(code: string): string {
    TrimRight(TrimLeft(ToUpper(code)))
  }

  // The operations.

  function Register(t: Tables, username: string, hash: string, inviteCode: string, now: int, fault: Fault): (Tables, Result) {
    var code := Normal(inviteCode);
    if code == "" then (t, CodeRequired)
    else if fault == AtBegin || fault == AtCodeQuery then (t, DatabaseError)
    else if code !in t.codes then (t, CodeUnknown)
    else if t.codes[code].useCount >= t.codes[code].maxUses then (t, CodeUsedUp)
    else if fault == AtNameQuery then (t, DatabaseError)
    else if username in t.users then (t, NameTaken)
    else if fault != Never then (t, DatabaseError)
    else
      var used := t.codes[code];
      (Tables(t.users[username := User(hash, used.creator, now)],
              t.codes[code := used.(useCount := used.useCount + 1)]), Ok)
  }

  /** The first drawn code that is not in the table. */
  function Unused(codes: map<string, Code>, draws: seq<string>): (c: Option<string>)
    ensures c.Some? ==> c.value in draws && c.value !in codes
    ensures c == None <==> forall d | d in draws :: d in codes
  {
    if draws == [] then None
    else if draws[0] in codes then Unused(codes, draws[1..])
    else Some(draws[0])
  }

  /** Without a free draw the search goes on and the table is as it was. */
  function Generate(t: Tables, creator: string, maxUses: int, draws: seq<string>, now: int, fails: bool): (Tables, Option<string>) {
    var code := Unused(t.codes, draws);
    if code == None || fails then (t, None)
    else (t.(codes := t.codes[code.value := Code(creator, if maxUses <= 0 then DEFAULT_USES else maxUses, 0, now)]), code)
  }

  /** A user's password hash is replaced after a login with an old one. */
  function Rehash(t: Tables, username: string, hash: string): Tables {
    if username in t.users then t.(users := t.users[username := t.users[username].(passwordHash := hash)]) else t
  }

  /** The store: registration is a transaction over a copy of the tables. */
  class Store {
    var users: map<string, User>
    var codes: map<string, Code>

    constructor ()
      ensures View() == Tables(map[], map[])
    {
      users, codes := map[], map[];
    }

    function View(): Tables
      reads this
    {
      Tables(users, codes)
    }

    method RegisterUser(username: string, hash: string, inviteCode: string, now: int, fault: Fault) returns (result: Result)
      modifies this
      ensures (View(), result) == Register(old(View()), username, hash, inviteCode, now, fault)
    {
      var code := Normal(inviteCode);
      if code == "" {
        return CodeRequired;
      }
      if fault == AtBegin {
        return DatabaseError;
      }
      var txUsers, txCodes := users, codes;
      if fault == AtCodeQuery {
        return DatabaseError;
      }
      if code !in txCodes {
        return CodeUnknown;
      }
      var creator, maxUses, useCount := txCodes[code].creator, txCodes[code].maxUses, txCodes[code].useCount;
      if useCount >= maxUses {
        return CodeUsedUp;
      }
      if fault == AtNameQuery {
        return DatabaseError;
      }
      if username in txUsers {
        return NameTaken;
      }
      if fault == AtInsert {
        return DatabaseError;
      }
      txUsers := txUsers[username := User(hash, creator, now)];
      if fault == AtUpdate {
        return DatabaseError;
      }
      txCodes := txCodes[code := txCodes[code].(useCount := txCodes[code].useCount + 1)];
      if fault == AtCommit {
        return DatabaseError;
      }
      users, codes := txUsers, txCodes;
      return Ok;
    }

    method GenerateInviteCode(creator: string, maxUses: int, draws: seq<string>, now: int, fails: bool)
        returns (code: Option<string>)
      modifies this
      ensures (View(), code) == Generate(old(View()), creator, maxUses, draws, now, fails)
    {
      var uses := if maxUses <= 0 then DEFAULT_USES else maxUses;
      var i := 0;
      while i < |draws| && draws[i] in codes
        invariant 0 <= i <= |draws| && Unused(codes, draws) == Unused(codes, draws[i..])
      {
        i := i + 1;
      }
      if i == |draws| || fails {
        return None;
      }
      codes := codes[draws[i] := Code(creator, uses, 0, now)];
      return Some(draws[i]);
    }
  }

  // The account.

  /** `of` names a creator, or nobody in particular. */
  predicate Counts(creator: string, of: Option<string>) {
    of == None || of == Some(creator)
  }

  function Invited(users: map<string, User>, of: Option<string>): set<string> {
    set u | u in users && Counts(users[u].invitedBy, of)
  }

  function Share(code: Code, of: Option<string>): int {
    if Counts(code.creator, of) then code.useCount else 0
  }

  /** The sum of the use counts. */
  ghost function Uses(codes: map<string, Code>, of: Option<string>): int
    decreases |codes|
  {
    if codes == map[] then 0
    else
      var k :| k in codes;
      Share(codes[k], of) + Uses(codes - {k}, of)
  }

  lemma {:induction false} UsesSplit(codes: map<string, Code>, k: string, of: Option<string>)
    requires k in codes
    ensures Uses(codes, of) == Share(codes[k], of) + Uses(codes - {k}, of)
    decreases |codes|
  {
    var j :| j in codes && Uses(codes, of) == Share(codes[j], of) + Uses(codes - {j}, of);
    if j != k {
      UsesSplit(codes - {j}, k, of);
      UsesSplit(codes - {k}, j, of);
      assert codes - {j} - {k} == codes - {k} - {j};
    }
  }

  lemma UsesUpdate(codes: map<string, Code>, k: string, code: Code, of: Option<string>)
    ensures Uses(codes[k := code], of) == Uses(codes, of) + Share(code, of) - (if k in codes then Share(codes[k], of) else 0)
  {
    UsesSplit(codes[k := code], k, of);
    if k in codes {
      UsesSplit(codes, k, of);
      assert codes[k := code] - {k} == codes - {k};
    } else {
      assert codes[k := code] - {k} == codes;
    }
  }

  /** Every creator's invitations used are the users they invited; together, all users. */
  ghost predicate Balanced(t: Tables) {
    && (forall of :: |Invited(t.users, of)| == Uses(t.codes, of))
    && (forall k | k in t.codes :: 0 <= t.codes[k].useCount <= t.codes[k].maxUses)
  }

  lemma AdmitBalanced(t: Tables, username: string, hash: string, code: string, now: int, of: Option<string>)
    requires code in t.codes && username !in t.users && |Invited(t.users, of)| == Uses(t.codes, of)
    ensures var used := t.codes[code];
            |Invited(t.users[username := User(hash, used.creator, now)], of)|
            == Uses(t.codes[code := used.(useCount := used.useCount + 1)], of)
  {
    var used := t.codes[code];
    UsesUpdate(t.codes, code, used.(useCount := used.useCount + 1), of);
    hide Uses;
    var invited, more := Invited(t.users, of), Invited(t.users[username := User(hash, used.creator, now)], of);
    assert username !in invited;
    if Counts(used.creator, of) {
      assert more == invited + {username};
    } else {
      assert more == invited;
    }
  }

  lemma RegisterBalanced(t: Tables, username: string, hash: string, inviteCode: string, now: int, fault: Fault)
    requires Balanced(t)
    ensures Balanced(Register(t, username, hash, inviteCode, now, fault).0)
  {
    var t' := Register(t, username, hash, inviteCode, now, fault).0;
    if t' != t {
      forall of ensures |Invited(t'.users, of)| == Uses(t'.codes, of) {
        assert |Invited(t.users, of)| == Uses(t.codes, of);
        AdmitBalanced(t, username, hash, Normal(inviteCode), now, of);
      }
      hide Uses, Normal, Invited;
    }
  }

  lemma GenerateBalanced(t: Tables, creator: string, maxUses: int, draws: seq<string>, now: int, fails: bool)
    requires Balanced(t)
    ensures Balanced(Generate(t, creator, maxUses, draws, now, fails).0)
  {
    var (t', code) := Generate(t, creator, maxUses, draws, now, fails);
    if code.Some? {
      forall of ensures |Invited(t'.users, of)| == Uses(t'.codes, of) {
        UsesUpdate(t.codes, code.value, t'.codes[code.value], of);
        assert |Invited(t.users, of)| == Uses(t.codes, of);
      }
    }
  }

  lemma RehashBalanced(t: Tables, username: string, hash: string)
    requires Balanced(t)
    ensures Balanced(Rehash(t, username, hash))
  {
    forall of ensures Invited(Rehash(t, username, hash).users, of) == Invited(t.users, of) {
    }
  }

  // Runs.

  datatype Request =
    | Registering(username: string, hash: string, inviteCode: string, now: int, fault: Fault)
    | Generating(creator: string, maxUses: int, draws: seq<string>, now: int, fails: bool)
    | Rehashing(username: string, hash: string)

  function Serve(t: Tables, r: Request): Tables {
    match r
    case Registering(username, hash, code, now, fault) => Register(t, username, hash, code, now, fault).0
    case Generating(creator, maxUses, draws, now, fails) => Generate(t, creator, maxUses, draws, now, fails).0
    case Rehashing(username, hash) => Rehash(t, username, hash)
  }

  function Run(requests: seq<Request>): Tables {
    if requests == [] then Tables(map[], map[])
    else Serve(Run(requests[..|requests| - 1]), requests[|requests| - 1])
  }

  lemma {:induction false} RunBalanced(requests: seq<Request>)
    ensures Balanced(Run(requests))
  {
    if requests == [] {
      assert forall of :: Invited(map[], of) == {};
    } else {
      var n := |requests| - 1;
      RunBalanced(requests[..n]);
      var t := Run(requests[..n]);
      hide Balanced;
      match requests[n]
      case Registering(username, hash, code, now, fault) => RegisterBalanced(t, username, hash, code, now, fault);
      case Generating(creator, maxUses, draws, now, fails) => GenerateBalanced(t, creator, maxUses, draws, now, fails);
      case Rehashing(username, hash) => RehashBalanced(t, username, hash);
    }
  }

  /** Conservation: from an empty database, the users number the uses of all codes, those a creator
      invited number the uses of the creator's codes, and no code is used more often than it may. */
  lemma InvitesAreConserved(requests: seq<Request>)
    ensures var t := Run(requests);
            |t.users| == Uses(t.codes, None)
            && (forall creator :: |Invited(t.users, Some(creator))| == Uses(t.codes, Some(creator)))
            && (forall k | k in t.codes :: 0 <= t.codes[k].useCount <= t.codes[k].maxUses)
  {
    RunBalanced(requests);
    var t := Run(requests);
    assert Invited(t.users, None) == t.users.Keys;
    assert |Invited(t.users, None)| == Uses(t.codes, None);
  }

  /** A failed registration changes nothing; a successful one adds one user and one use. */
  lemma AllOrNothing(t: Tables, username: string, hash: string, inviteCode: string, now: int, fault: Fault)
    ensures var (t', result) := Register(t, username, hash, inviteCode, now, fault);
            if result != Ok then t' == t
            else t'.users.Keys == t.users.Keys + {username} && username !in t.users
                 && t'.codes.Keys == t.codes.Keys && Uses(t'.codes, None) == Uses(t.codes, None) + 1
  {
    var (t', result) := Register(t, username, hash, inviteCode, now, fault);
    if result == Ok {
      var code := Normal(inviteCode);
      UsesUpdate(t.codes, code, t'.codes[code], None);
    }
  }

  // The history: what every request asked, and what was answered.

  datatype Reply = Registered(result: Result) | Generated(code: Option<string>) | Rehashed

  datatype Served = Served(request: Request, reply: Reply)

  function Answer(t: Tables, r: Request): Reply {
    match r
    case Registering(username, hash, code, now, fault) => Registered(Register(t, username, hash, code, now, fault).1)
    case Generating(creator, maxUses, draws, now, fails) => Generated(Generate(t, creator, maxUses, draws, now, fails).1)
    case Rehashing(_, _) => Rehashed
  }

  function History(requests: seq<Request>): seq<Served> {
    if requests == [] then []
    else
      var before, r := requests[..|requests| - 1], requests[|requests| - 1];
      History(before) + [Served(r, Answer(Run(before), r))]
  }

  lemma OneMoreRequest(requests: seq<Request>, r: Request)
    ensures Run(requests + [r]) == Serve(Run(requests), r)
    ensures History(requests + [r]) == History(requests) + [Served(r, Answer(Run(requests), r))]
  {
    assert (requests + [r])[..|requests|] == requests;
  }

  datatype Invitation = Invitation(creator: string, limit: int, createdAt: int)

  /** Who made this code, and for how many users: five, unless a positive number was asked for. */
  function Issued(h: seq<Served>, code: string): Option<Invitation> {
    if h == [] then None
    else
      var before, last := h[..|h| - 1], h[|h| - 1];
      if last.reply == Generated(Some(code)) && last.request.Generating? then
        Some(Invitation(last.request.creator, if last.request.maxUses > 0 then last.request.maxUses else 5, last.request.now))
      else Issued(before, code)
  }

  /** A registration by this code that was answered Ok. */
  predicate Admits(s: Served, code: string) {
    s.request.Registering? && Normal(s.request.inviteCode) == code && s.reply == Registered(Ok)
  }

  /** How many users a code has admitted. */
  function Admissions(h: seq<Served>, code: string): nat {
    if h == [] then 0
    else
      var before, last := h[..|h| - 1], h[|h| - 1];
      Admissions(before, code) + if Admits(last, code) then 1 else 0
  }

  /** What is on record for a name: the registration that was answered Ok, with the hash it came
      with or a later one, and the maker of its code. */
  function Account(h: seq<Served>, username: string): Option<User> {
    if h == [] then None
    else
      var before, last := h[..|h| - 1], h[|h| - 1];
      match last.request
      case Registering(name, hash, inviteCode, now, _) =>
        if name == username && last.reply == Registered(Ok) && Issued(before, Normal(inviteCode)).Some?
        then Some(User(hash, Issued(before, Normal(inviteCode)).value.creator, now))
        else Account(before, username)
      case Rehashing(name, hash) =>
        var a := Account(before, username);
        if name == username && a.Some? then Some(a.value.(passwordHash := hash)) else a
      case Generating(_, _, _, _, _) => Account(before, username)
  }

  predicate NameUsed(h: seq<Served>, username: string) {
    exists i | 0 <= i < |h| :: h[i].request.Registering? && h[i].request.username == username && h[i].reply == Registered(Ok)
  }

  lemma OneMoreServed(h: seq<Served>, last: Served, code: string, username: string)
    ensures Issued(h + [last], code)
            == if last.reply == Generated(Some(code)) && last.request.Generating?
               then Some(Invitation(last.request.creator, if last.request.maxUses > 0 then last.request.maxUses else 5, last.request.now))
               else Issued(h, code)
    ensures Admissions(h + [last], code) == Admissions(h, code) + if Admits(last, code) then 1 else 0
    ensures NameUsed(h + [last], username)
            <==> NameUsed(h, username) || (last.request.Registering? && last.request.username == username && last.reply == Registered(Ok))
  {
    var all := h + [last];
    assert all[..|h|] == h;
    assert all[|h|] == last && forall i | 0 <= i < |h| :: all[i] == h[i];
    hide Normal;
  }

  /** The row of a code tells who made it, for how many, and how many it has admitted. */
  predicate CodeExplained(h: seq<Served>, t: Tables, code: string) {
    var issued := Issued(h, code);
    if issued == None then code !in t.codes && Admissions(h, code) == 0
    else code in t.codes
         && t.codes[code] == Code(issued.value.creator, issued.value.limit, Admissions(h, code), issued.value.createdAt)
  }

  predicate UserExplained(h: seq<Served>, t: Tables, username: string) {
    var account := Account(h, username);
    && (account.Some? <==> NameUsed(h, username))
    && (account.Some? <==> username in t.users)
    && (account.Some? ==> t.users[username] == account.value)
  }

  lemma CodeAfter(h: seq<Served>, t: Tables, r: Request, code: string)
    requires CodeExplained(h, t, code)
    ensures CodeExplained(h + [Served(r, Answer(t, r))], Serve(t, r), code)
  {
    OneMoreServed(h, Served(r, Answer(t, r)), code, "");
    hide Issued, Admissions, Normal;
  }

  lemma UserAfter(h: seq<Served>, t: Tables, r: Request, username: string)
    requires UserExplained(h, t, username)
    requires forall code :: CodeExplained(h, t, code)
    ensures UserExplained(h + [Served(r, Answer(t, r))], Serve(t, r), username)
  {
    var last := Served(r, Answer(t, r));
    OneMoreServed(h, last, "", username);
    AccountAfter(h, last, username);
    if r.Registering? {
      assert CodeExplained(h, t, Normal(r.inviteCode));
    }
    hide Issued, Admissions, Account, NameUsed, Normal;
  }

  lemma AccountAfter(h: seq<Served>, last: Served, username: string)
    ensures Account(h + [last], username)
            == match last.request
               case Registering(name, hash, inviteCode, now, _) =>
                 if name == username && last.reply == Registered(Ok) && Issued(h, Normal(inviteCode)).Some?
                 then Some(User(hash, Issued(h, Normal(inviteCode)).value.creator, now))
                 else Account(h, username)
               case Rehashing(name, hash) =>
                 if name == username && Account(h, username).Some?
                 then Some(Account(h, username).value.(passwordHash := hash)) else Account(h, username)
               case Generating(_, _, _, _, _) => Account(h, username)
  {
    assert (h + [last])[..|h|] == h;
    hide Issued, Normal;
  }

  /** The tables hold just what the history says, in every run from an empty database. */
  lemma {:induction false} TablesAreExplained(requests: seq<Request>)
    ensures forall code :: CodeExplained(History(requests), Run(requests), code)
    ensures forall username :: UserExplained(History(requests), Run(requests), username)
  {
    if requests != [] {
      var before, r := requests[..|requests| - 1], requests[|requests| - 1];
      assert requests == before + [r];
      TablesAreExplained(before);
      OneMoreRequest(before, r);
      hide History, Run, Serve, Answer, CodeExplained, UserExplained;
      forall code ensures CodeExplained(History(requests), Run(requests), code) {
        CodeAfter(History(before), Run(before), r, code);
      }
      forall username ensures UserExplained(History(requests), Run(requests), username) {
        UserAfter(History(before), Run(before), r, username);
      }
    }
  }

  /** Why a registration is answered as it is, said of the history alone. */
  lemma RegistrationExplained(requests: seq<Request>, r: Request)
    requires r.Registering?
    ensures var h, code, fault := History(requests), Normal(r.inviteCode), r.fault;
            History(requests + [r]) == h + [Served(r, Registered(
              if code == "" then CodeRequired
              else if fault == AtBegin || fault == AtCodeQuery then DatabaseError
              else if Issued(h, code) == None then CodeUnknown
              else if Admissions(h, code) >= Issued(h, code).value.limit then CodeUsedUp
              else if fault == AtNameQuery then DatabaseError
              else if NameUsed(h, r.username) then NameTaken
              else if fault != Never then DatabaseError
              else Ok))]
  {
    TablesAreExplained(requests);
    OneMoreRequest(requests, r);
    assert CodeExplained(History(requests), Run(requests), Normal(r.inviteCode));
    assert UserExplained(History(requests), Run(requests), r.username);
    hide History, Run, Issued, Admissions, NameUsed, Account, Normal;
  }

  /** While the database does not fail, a registration succeeds iff its code was made earlier for
      some number of users, has admitted fewer, and nobody has registered the name; and then the
      account is on record with the hash it came with and the maker of the code. */
  lemma RegistersIff(requests: seq<Request>, r: Request)
    requires r.Registering? && r.fault == Never
    ensures var h, code := History(requests), Normal(r.inviteCode);
            var admitted := code != "" && Issued(h, code).Some? && Admissions(h, code) < Issued(h, code).value.limit
                            && !NameUsed(h, r.username);
            && (History(requests + [r]) == h + [Served(r, Registered(Ok))] <==> admitted)
            && (admitted ==>
                  r.username in Run(requests + [r]).users
                  && Run(requests + [r]).users[r.username] == User(r.hash, Issued(h, code).value.creator, r.now))
  {
    RegistrationExplained(requests, r);
    TablesAreExplained(requests + [r]);
    AccountAfter(History(requests), Served(r, Registered(Ok)), r.username);
    assert UserExplained(History(requests + [r]), Run(requests + [r]), r.username);
    hide History, Run, Issued, Admissions, NameUsed, Account, Normal;
  }

  /** A code is the first draw that was never made before; without one there is no code. */
  lemma GenerationExplained(requests: seq<Request>, r: Request) returns (k: nat)
    requires r.Generating?
    ensures var h := History(requests);
            && k <= |r.draws| && (forall j | 0 <= j < k :: Issued(h, r.draws[j]).Some?)
            && (k < |r.draws| ==> Issued(h, r.draws[k]) == None)
            && History(requests + [r]) == h + [Served(r, Generated(
                 if k == |r.draws| || r.fails then None else Some(r.draws[k])))]
  {
    TablesAreExplained(requests);
    OneMoreRequest(requests, r);
    k := FirstUnused(Run(requests).codes, r.draws);
    forall j | 0 <= j < |r.draws| ensures Issued(History(requests), r.draws[j]).Some? <==> r.draws[j] in Run(requests).codes {
      assert CodeExplained(History(requests), Run(requests), r.draws[j]);
    }
    hide History, Run, Issued, Admissions, Unused, UserExplained, CodeExplained;
  }

  lemma {:induction false} FirstUnused(codes: map<string, Code>, draws: seq<string>) returns (k: nat)
    ensures k <= |draws| && forall j | 0 <= j < k :: draws[j] in codes
    ensures Unused(codes, draws) == if k == |draws| then None else Some(draws[k])
    ensures k < |draws| ==> draws[k] !in codes
  {
    if draws != [] && draws[0] in codes {
      k := FirstUnused(codes, draws[1..]);
      k := k + 1;
    } else {
      k := 0;
    }
  }

  // What one code admits.

  /** A code's use count is the number of users it has admitted, so it admits at most its limit. */
  lemma CodeAdmitsAtMostItsLimit(requests: seq<Request>, code: string)
    ensures var codes, admitted := Run(requests).codes, Admissions(History(requests), code);
            admitted == (if code in codes then codes[code].useCount else 0)
            && (code in codes ==> admitted <= codes[code].maxUses)
  {
    TablesAreExplained(requests);
    assert CodeExplained(History(requests), Run(requests), code);
    RunBalanced(requests);
    hide Uses, History, Run, Issued, Admissions;
  }

  // A generated code can be redeemed.

  /** Eight upper-case letters and digits. */
  predicate RandomCode(code: string) {
    |code| == CODE_LENGTH && forall i | 0 <= i < |code| :: 'A' <= code[i] <= 'Z' || '0' <= code[i] <= '9'
  }

  predicate AllSpace(s: string) {
    forall i | 0 <= i < |s| :: s[i] as int == 32 || 9 <= s[i] as int <= 13
  }

  lemma UpperOfParts(before: string, typed: string, after: string)
    requires AllSpace(before) && AllSpace(after)
    ensures ToUpper(before + typed + after) == before + (ToUpper(typed) + after)
  {
  }

  lemma {:induction false} TrimLeftSpaces(before: string, rest: string)
    requires AllSpace(before) && (rest == "" || !IsSpace(rest[0]))
    ensures TrimLeft(before + rest) == rest
  {
    if before != "" {
      assert (before + rest)[1..] == before[1..] + rest;
      TrimLeftSpaces(before[1..], rest);
    } else {
      assert before + rest == rest;
    }
  }

  lemma {:induction false} TrimRightSpaces(rest: string, after: string)
    requires AllSpace(after) && (rest == "" || !IsSpace(rest[|rest| - 1]))
    ensures TrimRight(rest + after) == rest
  {
    if after != "" {
      assert (rest + after)[..|rest + after| - 1] == rest + after[..|after| - 1];
      TrimRightSpaces(rest, after[..|after| - 1]);
    } else {
      assert rest + after == rest;
    }
  }

  /** `code` is `typed` with its small letters made capital. */
  predicate Capitals(typed: string, code: string) {
    |typed| == |code|
    && forall i | 0 <= i < |code| :: code[i] as int == typed[i] as int - if 97 <= typed[i] as int <= 122 then 32 else 0
  }

  /** Typed in any case and with white space around it, a code is the code. */
  lemma TypedCodeIsNormal(before: string, typed: string, after: string, code: string)
    requires Capitals(typed, code) && AllSpace(before) && AllSpace(after)
    requires code != "" && !AllSpace(code[..1]) && !AllSpace(code[|code| - 1..])
    ensures Normal(before + typed + after) == code
  {
    assert ToUpper(typed) == code;
    UpperOfParts(before, typed, after);
    assert !IsSpace(code[0]) && !IsSpace(code[|code| - 1]);
    assert (code + after)[0] == code[0];
    TrimLeftSpaces(before, code + after);
    TrimRightSpaces(code, after);
    hide TrimLeft, TrimRight, ToUpper;
  }

  /** A fresh invitation admits a new user. */
  lemma InvitationWorks(t: Tables, creator: string, maxUses: int, draws: seq<string>, made: int,
      before: string, typed: string, after: string, username: string, hash: string, now: int)
    requires (forall d | d in draws :: RandomCode(d)) && AllSpace(before) && AllSpace(after)
    ensures var (t', code) := Generate(t, creator, maxUses, draws, made, false);
            code.Some? && Capitals(typed, code.value) && username !in t.users
            ==> Register(t', username, hash, before + typed + after, now, Never).1 == Ok
  {
    var (t', code) := Generate(t, creator, maxUses, draws, made, false);
    if code.Some? && Capitals(typed, code.value) {
      var c := code.value;
      assert RandomCode(c) && c[..1][0] == c[0] && c[|c| - 1..][0] == c[|c| - 1];
      TypedCodeIsNormal(before, typed, after, code.value);
    }
    hide Normal, Capitals, AllSpace;
  }
}
