/** Search snippets: matches come marked as <mark>...</mark> in plain text, and are split into
    highlighted and plain parts for display. */
module Snippet {
  import opened Options

  datatype Part = Part(text: string, highlight: bool)

  function Open(): (s: string)
    ensures |s| == 6
  {
    "<mark>"
  }

  function Close(): (s: string)
    ensures |s| == 7
  {
    "</mark>"
  }

  /** Where the pattern first occurs. */
  function Find(s: string, pattern: string): (i: Option<nat>)
    ensures i.Some? ==> i.value + |pattern| <= |s|
  {
    if pattern <= s then Some(0)
    else if s == "" then None
    else
      var i := Find(s[1..], pattern);
      if i.Some? then Some(i.value + 1) else None
  }

  /** A match: what stands before it, the text in it, what stands after it. */
  datatype Match = Match(before: string, inner: string, after: string)

  /** The regular expression's leftmost match, the text in it as short as can be. */
  function FirstMatch(s: string): (m: Option<Match>)
    ensures m.Some? ==> |s| == |m.value.before| + 6 + |m.value.inner| + 7 + |m.value.after|
  {
    var i := Find(s, Open());
    if i == None then None
    else
      var rest := s[i.value + 6..];
      var j := Find(rest, Close());
      if j == None then None else Some(Match(s[..i.value], rest[..j.value], rest[j.value + 7..]))
  }

  function TextPart(s: string): seq<Part> {
    if s == "" then [] else [Part(s, false)]
  }

  function Parse(raw: string): seq<Part> {
    var m := FirstMatch(raw);
    if m == None then TextPart(raw)
    else TextPart(m.value.before) + [Part(m.value.inner, true)] + Parse(m.value.after)
  }

  method PushText(parts: seq<Part>, text: string) returns (longer: seq<Part>)
    ensures longer == parts + TextPart(text)
  {
    longer := parts;
    if |text| > 0 {
      longer := longer + [Part(text, false)];
    }
  }

  /** The loop over matches, each search going on where the last match ended. */
  method ParseSnippetParts(raw: string) returns (parts: seq<Part>)
    ensures parts == Parse(raw)
  {
    hide TextPart, Parse, FirstMatch, Find, Open, Close;
    parts := [];
    var lastIdx := 0;
    assert raw[lastIdx..] == raw && parts + Parse(raw) == Parse(raw);
    var m := FirstMatch(raw[lastIdx..]);
    while m != None
      invariant lastIdx <= |raw| && m == FirstMatch(raw[lastIdx..])
      invariant parts + Parse(raw[lastIdx..]) == Parse(raw)
      decreases |raw| - lastIdx
    {
      NextMatch(raw, lastIdx, parts);
      parts := PushText(parts, m.value.before);
      parts := parts + [Part(m.value.inner, true)];
      lastIdx := lastIdx + |m.value.before| + 6 + |m.value.inner| + 7;
      m := FirstMatch(raw[lastIdx..]);
    }
    NoMatchLeft(raw[lastIdx..]);
    parts := PushText(parts, raw[lastIdx..]);
  }

  lemma NoMatchLeft(s: string)
    requires FirstMatch(s) == None
    ensures Parse(s) == TextPart(s)
  {
  }

  lemma NextMatch(raw: string, from: nat, parts: seq<Part>)
    requires from <= |raw| && FirstMatch(raw[from..]).Some?
    ensures var m := FirstMatch(raw[from..]).value;
            var end := from + |m.before| + 6 + |m.inner| + 7;
            end <= |raw| && parts + Parse(raw[from..]) == parts + TextPart(m.before) + [Part(m.inner, true)] + Parse(raw[end..])
  {
    hide *;
    var m := FirstMatch(raw[from..]).value;
    UnfoldParse(raw[from..]);
    AfterFirst(raw, from);
    Regroup(parts, TextPart(m.before), [Part(m.inner, true)], Parse(m.after));
  }

  lemma Regroup<T>(a: seq<T>, b: seq<T>, c: seq<T>, d: seq<T>)
    ensures a + (b + c + d) == a + b + c + d
  {
  }

  lemma UnfoldParse(raw: string)
    requires FirstMatch(raw).Some?
    ensures var m := FirstMatch(raw).value;
            Parse(raw) == TextPart(m.before) + [Part(m.inner, true)] + Parse(m.after)
  {
  }

  lemma AfterFirst(raw: string, from: nat)
    requires from <= |raw| && FirstMatch(raw[from..]).Some?
    ensures var m := FirstMatch(raw[from..]).value;
            var end := from + |m.before| + 6 + |m.inner| + 7;
            end <= |raw| && raw[end..] == m.after
  {
    hide *;
    MatchSplits(raw[from..]);
    AfterMatch(raw, from, FirstMatch(raw[from..]).value);
  }

  lemma AfterMatch(raw: string, from: nat, m: Match)
    requires from <= |raw| && raw[from..] == m.before + Open() + m.inner + Close() + m.after
    ensures var end := from + |m.before| + 6 + |m.inner| + 7;
            end <= |raw| && raw[end..] == m.after
  {
    hide Open, Close;
    var k := |m.before| + 6 + |m.inner| + 7;
    assert raw[from..][k..] == raw[from + k..];
  }

  function PrintPart(p: Part): string {
    if p.highlight then "<mark>" + p.text + "</mark>" else p.text
  }

  function Print(parts: seq<Part>): string {
    if parts == [] then "" else PrintPart(parts[0]) + Print(parts[1..])
  }

  // Searching.

  lemma {:induction false} FindSplits(s: string, pattern: string)
    requires Find(s, pattern).Some?
    ensures var i := Find(s, pattern).value;
            s == s[..i] + pattern + s[i + |pattern|..]
  {
    var i := Find(s, pattern).value;
    if pattern <= s {
      assert i == 0 && s == pattern + s[|pattern|..];
    } else {
      var rest := s[1..];
      assert Find(rest, pattern) == Some(i - 1);
      FindSplits(rest, pattern);
      hide Find;
      assert s == [s[0]] + rest && rest[..i - 1] == s[1..i] && rest[i - 1 + |pattern|..] == s[i + |pattern|..];
      assert s[..i] == [s[0]] + s[1..i];
    }
  }

  lemma MatchSplits(s: string)
    requires FirstMatch(s).Some?
    ensures var m := FirstMatch(s).value;
            s == m.before + Open() + m.inner + Close() + m.after
  {
    hide Find, Open, Close;
    var i := Find(s, Open()).value;
    var rest := s[i + 6..];
    var j := Find(rest, Close()).value;
    FindSplits(s, Open());
    FindSplits(rest, Close());
    Regroup(s[..i] + Open(), rest[..j], Close(), rest[j + 7..]);
  }

  // The parser gives back what it was given.

  lemma {:induction false} PrintJoin(a: seq<Part>, b: seq<Part>)
    ensures Print(a + b) == Print(a) + Print(b)
  {
    if a == [] {
      assert a + b == b;
    } else {
      assert (a + b)[1..] == a[1..] + b;
      PrintJoin(a[1..], b);
    }
  }

  lemma PrintMarked(text: string)
    ensures PrintPart(Part(text, true)) == Open() + text + Close()
  {
  }

  lemma PrintMatch(m: Match)
    ensures Print(TextPart(m.before) + [Part(m.inner, true)]) == m.before + Open() + m.inner + Close()
  {
    PrintMarked(m.inner);
    assert PrintPart(Part(m.before, false)) == m.before;
    hide Open, Close, PrintPart;
    PrintJoin(TextPart(m.before), [Part(m.inner, true)]);
    assert Print([Part(m.inner, true)]) == Open() + m.inner + Close();
    assert Print(TextPart(m.before)) == m.before;
  }

  /** Nothing is lost: the parts of a text, printed again, are the text. */
  lemma {:induction false} PrintParse(raw: string)
    ensures Print(Parse(raw)) == raw
  {
    hide Open, Close, Find;
    var m := FirstMatch(raw);
    if m.Some? {
      MatchSplits(raw);
      PrintParse(m.value.after);
      PrintMatch(m.value);
      PrintJoin(TextPart(m.value.before) + [Part(m.value.inner, true)], Parse(m.value.after));
    }
  }

  // Canonical lists.

  /** The pattern is nowhere before its first occurrence. */
  lemma {:induction false} NoEarlier(s: string, pattern: string, k: nat)
    requires k + |pattern| <= |s| && (Find(s, pattern).Some? ==> k < Find(s, pattern).value)
    ensures !(pattern <= s[k..])
  {
    if k == 0 {
      assert s[0..] == s;
    } else {
      NoEarlier(s[1..], pattern, k - 1);
      assert s[1..][k - 1..] == s[k..];
    }
  }

  predicate Holds(s: string, pattern: string) {
    Find(s, pattern).Some?
  }

  /** Texts are not empty, not next to each other, and hold no mark that would be read as one;
      highlights do not hold the closing mark. */
  predicate Canonical(parts: seq<Part>) {
    parts != [] ==>
      && (if parts[0].highlight then !Holds(parts[0].text, Close())
          else parts[0].text != ""
               && (if |parts| == 1 then FirstMatch(parts[0].text) == None
                   else parts[1].highlight && !Holds(parts[0].text, Open())))
      && Canonical(parts[1..])
  }

  predicate Borderless(pattern: string) {
    pattern != "" && forall i | 1 <= i < |pattern| :: pattern[i] != pattern[0]
  }

  /** A pattern whose first letter does not come again is found where it was put. */
  lemma {:induction false} FindAfter(s: string, pattern: string, rest: string)
    requires Borderless(pattern) && Find(s, pattern) == None
    ensures Find(s + pattern + rest, pattern) == Some(|s|)
  {
    var all := s + pattern + rest;
    if s == "" {
      assert all == pattern + rest;
    } else {
      FindAfter(s[1..], pattern, rest);
      assert all[1..] == s[1..] + pattern + rest;
      if |pattern| <= |s| {
        assert pattern <= all ==> pattern <= s;
      } else {
        assert all[|s|] == pattern[0] != pattern[|s|];
      }
    }
  }

  lemma {:induction false} NotBefore(s: string, pattern: string)
    requires pattern != "" && Find(s, pattern).Some?
    ensures Find(s[..Find(s, pattern).value], pattern) == None
  {
    if !(pattern <= s) {
      var i := Find(s, pattern).value;
      NotBefore(s[1..], pattern);
      assert s[..i][1..] == s[1..][..i - 1];
      assert pattern <= s[..i] ==> pattern <= s;
    }
  }

  lemma MarksAreBorderless()
    ensures Borderless(Open()) && Borderless(Close())
  {
  }

  lemma MatchOf(text: string, inner: string, after: string)
    requires !Holds(text, Open()) && !Holds(inner, Close())
    ensures FirstMatch(text + Open() + inner + Close() + after) == Some(Match(text, inner, after))
  {
    MarksAreBorderless();
    hide Open, Close, Find, Borderless;
    var s, rest := text + Open() + inner + Close() + after, inner + Close() + after;
    assert s == text + Open() + rest;
    FindAfter(text, Open(), rest);
    FindAfter(inner, Close(), after);
    assert s[|text| + 6..] == rest && s[..|text|] == text;
    assert rest[..|inner|] == inner && rest[|inner| + 7..] == after;
  }

  lemma MatchIsFirst(s: string)
    requires FirstMatch(s).Some?
    ensures !Holds(FirstMatch(s).value.before, Open()) && !Holds(FirstMatch(s).value.inner, Close())
  {
    NotBefore(s, Open());
    NotBefore(s[Find(s, Open()).value + 6..], Close());
    hide Find, Open, Close;
  }

  /** Parsing gives canonical lists. */
  lemma {:induction false} ParseCanonical(raw: string)
    ensures Canonical(Parse(raw))
  {
    var m := FirstMatch(raw);
    if m.Some? {
      var mark, rest := Part(m.value.inner, true), Parse(m.value.after);
      UnfoldParse(raw);
      ParseCanonical(m.value.after);
      MatchIsFirst(raw);
      hide Find, Open, Close, FirstMatch, Parse;
      assert ([mark] + rest)[1..] == rest;
      assert Canonical([mark] + rest);
      if m.value.before != "" {
        var all := [Part(m.value.before, false)] + ([mark] + rest);
        assert all[1..] == [mark] + rest;
        assert TextPart(m.value.before) + [mark] + rest == all;
      } else {
        assert TextPart(m.value.before) + [mark] + rest == [mark] + rest;
      }
    }
  }

  lemma ParseMarked(text: string, inner: string, after: string)
    requires !Holds(text, Open()) && !Holds(inner, Close())
    ensures Parse(text + Open() + inner + Close() + after) == TextPart(text) + [Part(inner, true)] + Parse(after)
  {
    MatchOf(text, inner, after);
    UnfoldParse(text + Open() + inner + Close() + after);
  }

  lemma PrintTwo(p: Part, q: Part, rest: seq<Part>)
    requires !p.highlight && q.highlight
    ensures Print([p, q] + rest) == p.text + Open() + q.text + Close() + Print(rest)
  {
    PrintMarked(q.text);
    assert PrintPart(p) == p.text;
    hide Open, Close, PrintPart;
    assert ([p, q] + rest)[1..] == [q] + rest && ([q] + rest)[1..] == rest;
    assert Print([q] + rest) == Open() + q.text + Close() + Print(rest);
  }

  lemma PrintOne(p: Part, rest: seq<Part>)
    requires p.highlight
    ensures Print([p] + rest) == "" + Open() + p.text + Close() + Print(rest)
  {
    PrintMarked(p.text);
    hide Open, Close, PrintPart;
    assert ([p] + rest)[1..] == rest;
  }

  lemma ParsePrintOne(p: Part, rest: seq<Part>)
    requires p.highlight && !Holds(p.text, Close()) && Parse(Print(rest)) == rest
    ensures Parse(Print([p] + rest)) == [p] + rest
  {
    assert TextPart("") == [] && !Holds("", Open());
    hide *;
    PrintOne(p, rest);
    ParseMarked("", p.text, Print(rest));
  }

  lemma ParsePrintTwo(p: Part, q: Part, rest: seq<Part>)
    requires !p.highlight && p.text != "" && q.highlight && !Holds(p.text, Open()) && !Holds(q.text, Close())
    requires Parse(Print(rest)) == rest
    ensures Parse(Print([p, q] + rest)) == [p, q] + rest
  {
    assert TextPart(p.text) == [p];
    hide *;
    PrintTwo(p, q, rest);
    ParseMarked(p.text, q.text, Print(rest));
    assert [p] + [q] == [p, q];
  }

  lemma {:induction false} ParsePrint(parts: seq<Part>)
    requires Canonical(parts)
    ensures Parse(Print(parts)) == parts
  {
    hide Parse, Holds, Find, Open, Close, FirstMatch, Print, TextPart;
    if |parts| >= 1 && parts[0].highlight {
      assert parts == [parts[0]] + parts[1..];
      ParsePrint(parts[1..]);
      ParsePrintOne(parts[0], parts[1..]);
    } else if |parts| >= 2 {
      assert parts[1..][1..] == parts[2..] && parts[1] == parts[1..][0];
      assert parts == [parts[0], parts[1]] + parts[2..];
      ParsePrint(parts[2..]);
      ParsePrintTwo(parts[0], parts[1], parts[2..]);
    } else {
      ParsePrintShort(parts);
    }
  }

  lemma ParsePrintShort(parts: seq<Part>)
    requires Canonical(parts) && |parts| <= 1 && (parts != [] ==> !parts[0].highlight)
    ensures Parse(Print(parts)) == parts
  {
    if parts != [] {
      assert parts == [parts[0]] && Print(parts[1..]) == "" && Print(parts) == parts[0].text;
    }
  }

  /** Printing and parsing undo each other exactly on canonical lists. */
  lemma RoundTripIff(parts: seq<Part>)
    ensures Parse(Print(parts)) == parts <==> Canonical(parts)
  {
    ParseCanonical(Print(parts));
    if Canonical(parts) {
      ParsePrint(parts);
    }
  }
}
