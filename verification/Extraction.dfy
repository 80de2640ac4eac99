/** The extraction work queue around an arbitrary language model
    (crates/rag/src/extract.rs): a piece whose answer was cut off goes back to
    the front of the queue as two halves. */
module Extraction {
  import opened Chunking
  import opened Collections
  import opened Text

  const CHUNK_BUDGET_CHARS: nat := 12000
  const LINE_CHUNK_BUDGET_CHARS: nat := 3000
  const MAX_PIECES: nat := 256

  // ---------- records or prose ----------

  /** `str::lines`: a final empty line does not count, nor does a carriage
      return before a line break. */
  function Lines(text: string): seq<string> {
    var parts := Split(text, "\n");
    var last := |parts| - 1;
    seq(last, i requires 0 <= i < last => StripReturn(parts[i])) + if parts[last] == "" then [] else [parts[last]]
  }

  function StripReturn(line: string): string {
    if line != "" && line[|line| - 1] == '\r' then line[..|line| - 1] else line
  }

  function Blanks(lines: seq<string>): nat {
    if lines == [] then 0 else Blanks(lines[..|lines| - 1]) + (if Solid(lines[|lines| - 1]) == "" then 1 else 0)
  }

  function Total(lines: seq<string>): nat {
    if lines == [] then 0 else Total(lines[..|lines| - 1]) + |lines[|lines| - 1]|
  }

  /** Many short lines, less than an eighth of them blank. */
  predicate Records(text: string) {
    var l := Lines(text); |l| >= 8 && Blanks(l) * 8 < |l| && Total(l) / |l| <= 300
  }

  function BudgetFor(text: string): nat { if Records(text) then LINE_CHUNK_BUDGET_CHARS else CHUNK_BUDGET_CHARS }

  method LooksLineStructured(text: string) returns (r: bool)
    ensures r <==> Records(text)
  {
    var all := Lines(text);
    var lines, blank, chars := 0, 0, 0;
    while lines < |all|
      invariant lines <= |all| && blank == Blanks(all[..lines]) && chars == Total(all[..lines])
    {
      assert all[..lines + 1][..lines] == all[..lines];
      BlankTrims(all[lines]);
      TrimIsBlank(all[lines]);
      if Trim(all[lines]) == "" { blank := blank + 1; }
      chars := chars + |all[lines]|;
      lines := lines + 1;
    }
    assert all[..|all|] == all;
    r := lines >= 8 && blank * 8 < lines && chars / lines <= 300;
  }

  lemma TrimIsBlank(s: string)
    ensures Trim(s) == "" <==> Solid(s) == ""
  {
    TrimStartOk(s);
    BlankTrims(TrimStart(s));
  }

  // ---------- cut-off answers ----------

  function Letter(c: char): bool { 'a' <= c <= 'z' || 'A' <= c <= 'Z' }

  function DropLetters(s: string): string { if s != "" && Letter(s[0]) then DropLetters(s[1..]) else s }

  function Find(s: string, needle: string): Option<nat> {
    if needle <= s then Some(0) else if s == "" then None else
    match Find(s[1..], needle) case None => None case Some(i) => Some(i + 1)
  }

  lemma {:induction false} FindBound(s: string, needle: string)
    ensures Find(s, needle).Some? ==> Find(s, needle).value <= |s|
  {
    if s != "" && !(needle <= s) { FindBound(s[1..], needle); }
  }

  const FENCE := "```"

  /** Drop a Markdown fence around the answer; without a closing fence keep
      the rest. */
  function StripCodeFences(raw: string): string {
    var s := Trim(raw);
    if !(FENCE <= s) then s else
    var rest := DropLetters(s[3..]);
    FindBound(rest, FENCE);
    match Find(rest, FENCE) case Some(end) => Trim(rest[..end]) case None => Trim(rest)
  }

  predicate Closes(s: string) { s != "" && s[|s| - 1] == '}' }

  function DropTicks(s: string): string {
    if s != "" && s[|s| - 1] == '`' then DropTicks(s[..|s| - 1]) else s
  }

  /** An answer that does not end by closing an object, a partial fence aside. */
  predicate LooksTruncated(raw: string) {
    var cleaned := TrimEnd(StripCodeFences(raw));
    !Closes(cleaned) && !Closes(TrimEnd(DropTicks(cleaned)))
  }

  lemma {:induction false} FindAfter(body: string, needle: string, more: string)
    requires needle != "" && needle[0] !in body
    ensures Find(body + needle + more, needle) == Some(|body|)
  {
    var text := body + needle + more;
    if body == "" {
      assert text == needle + more;
    } else {
      assert text[0] == body[0] && text[1..] == body[1..] + needle + more;
      FindAfter(body[1..], needle, more);
    }
  }

  /** What follows a solid end is trimmed by itself. */
  lemma {:induction false} TrimmedBehind(s: string, trail: string)
    requires s != "" && !White(s[|s| - 1])
    ensures TrimEnd(s + trail) == s + TrimEnd(trail)
  {
    if trail == "" {
      assert s + trail == s;
    } else {
      var l := |trail| - 1;
      assert (s + trail)[..|s + trail| - 1] == s + trail[..l];
      TrimmedBehind(s, trail[..l]);
    }
  }

  lemma {:induction false} TagDropped(tag: string, rest: string)
    requires (forall i :: 0 <= i < |tag| ==> Letter(tag[i])) && rest != "" && !Letter(rest[0])
    ensures DropLetters(tag + rest) == rest
  {
    if tag == "" {
      assert tag + rest == rest;
    } else {
      assert (tag + rest)[1..] == tag[1..] + rest;
      TagDropped(tag[1..], rest);
    }
  }

  /** A fenced answer is judged as the answer inside: the language tag, the
      fences and whatever follows them do not matter. */
  lemma FencesIgnored(tag: string, body: string, trail: string)
    requires forall i :: 0 <= i < |tag| ==> Letter(tag[i])
    requires (body == "" || !Letter(body[0])) && '`' !in body
    ensures LooksTruncated(FENCE + tag + body + FENCE + trail) <==> LooksTruncated(body)
  {
    var fenced, end := FENCE + tag + body + FENCE, TrimEnd(trail);
    TrimmedBehind(fenced, trail);
    assert Trim(fenced + trail) == fenced + end;
    var inner := body + FENCE + end;
    assert (fenced + end)[3..] == tag + inner;
    TagDropped(tag, inner);
    FindAfter(body, FENCE, end);
    assert inner[..|body|] == body;
    NoFence(body);
  }

  /** A fence that was never closed does not matter either. */
  lemma OpenFenceIgnored(tag: string, body: string)
    requires forall i :: 0 <= i < |tag| ==> Letter(tag[i])
    requires (body == "" || !Letter(body[0])) && '`' !in body
    ensures LooksTruncated(FENCE + tag + body) <==> LooksTruncated(body)
  {
    OpenFenceStripped(tag, body);
    NoFence(body);
  }

  lemma OpenFenceStripped(tag: string, body: string)
    requires forall i :: 0 <= i < |tag| ==> Letter(tag[i])
    requires (body == "" || !Letter(body[0])) && '`' !in body
    ensures StripCodeFences(FENCE + tag + body) == Trim(body)
  {
    hide TrimEnd;
    var head, end := FENCE + tag, TrimEnd(body);
    TrimmedBehind(head, body);
    assert Trim(head + body) == head + end;
    assert (head + end)[3..] == tag + end;
    TrimEndOk(body);
    if end == "" { OnlyLetters(tag); } else { TagDropped(tag, end); }
    assert DropLetters(tag + end) == end by { assert tag + "" == tag; }
    NoTick(end);
    TrimTwice(body);
  }

  lemma {:induction false} OnlyLetters(tag: string)
    requires forall i :: 0 <= i < |tag| ==> Letter(tag[i])
    ensures DropLetters(tag) == ""
  {
    if tag != "" { OnlyLetters(tag[1..]); }
  }

  lemma {:induction false} NoTick(s: string)
    requires '`' !in s
    ensures Find(s, FENCE).None?
  {
    assert s != "" ==> s[0] != FENCE[0];
    if s != "" { NoTick(s[1..]); }
  }

  lemma {:induction false} TrimTwice(s: string)
    ensures Trim(TrimEnd(s)) == Trim(s)
  {
    if s != "" && White(s[|s| - 1]) {
      var l := |s| - 1;
      assert s == s[..l] + [s[l]];
      TrimTwice(s[..l]);
      StartThenEnd(s[..l], s[l]);
    }
  }

  /** One white character more at the end is trimmed away. */
  lemma {:induction false} StartThenEnd(s: string, c: char)
    requires White(c)
    ensures Trim(s + [c]) == Trim(s)
  {
    if s == "" {
      assert s + [c] == [c] && [c][1..] == "";
    } else if White(s[0]) {
      assert (s + [c])[1..] == s[1..] + [c];
      StartThenEnd(s[1..], c);
    } else {
      assert (s + [c])[..|s|] == s;
    }
  }

  lemma {:induction false} TrimmedWithin(s: string, c: char)
    requires c in TrimStart(s)
    ensures c in s
  {
    if s != "" && White(s[0]) { TrimmedWithin(s[1..], c); }
  }

  lemma NoFence(body: string)
    requires '`' !in body
    ensures StripCodeFences(body) == Trim(body)
  {
    TrimEndOk(TrimStart(body));
    if FENCE <= Trim(body) {
      assert '`' == FENCE[0] == Trim(body)[0] == TrimStart(body)[0];
      TrimmedWithin(body, '`');
    }
  }

  predicate AllWhite(s: string) { forall i :: 0 <= i < |s| ==> White(s[i]) }

  predicate AllTicks(s: string) { forall i :: 0 <= i < |s| ==> s[i] == '`' }

  /** A closing brace with nothing behind it but white space and one run of ticks. */
  predicate ClosedBy(s: string, body: string, gap: string, ticks: string, trail: string) {
    s == body + "}" + gap + ticks + trail && AllWhite(gap) && AllTicks(ticks) && AllWhite(trail)
  }

  lemma {:induction false} TrimmedTail(s: string) returns (trail: string)
    ensures s == TrimEnd(s) + trail && AllWhite(trail)
  {
    trail := "";
    if s != "" && White(s[|s| - 1]) {
      trail := TrimmedTail(s[..|s| - 1]);
      assert s == s[..|s| - 1] + [s[|s| - 1]];
      trail := trail + [s[|s| - 1]];
    }
  }

  lemma {:induction false} TicksTail(s: string) returns (ticks: string)
    ensures s == DropTicks(s) + ticks && AllTicks(ticks)
  {
    ticks := "";
    if s != "" && s[|s| - 1] == '`' {
      ticks := TicksTail(s[..|s| - 1]);
      assert s == s[..|s| - 1] + [s[|s| - 1]];
      ticks := ticks + [s[|s| - 1]];
    }
  }

  lemma {:induction false} WhiteGone(s: string)
    requires AllWhite(s)
    ensures TrimEnd(s) == ""
  {
    if s != "" { WhiteGone(s[..|s| - 1]); }
  }

  lemma {:induction false} TicksGone(s: string, ticks: string)
    requires AllTicks(ticks) && (s == "" || s[|s| - 1] != '`')
    ensures DropTicks(s + ticks) == s
  {
    if ticks == "" {
      assert s + ticks == s;
    } else {
      assert (s + ticks)[..|s + ticks| - 1] == s + ticks[..|ticks| - 1];
      TicksGone(s, ticks[..|ticks| - 1]);
    }
  }

  lemma ClosedIsWhole(s: string, body: string, gap: string, ticks: string, trail: string)
    requires ClosedBy(s, body, gap, ticks, trail)
    ensures var cleaned := TrimEnd(s); Closes(cleaned) || Closes(TrimEnd(DropTicks(cleaned)))
  {
    var whole := body + "}";
    if ticks == "" {
      assert s == whole + (gap + trail);
      WhiteGone(gap + trail);
      TrimmedBehind(whole, gap + trail);
    } else {
      var head := whole + gap;
      WhiteGone(trail);
      TrimmedBehind(head + ticks, trail);
      TicksGone(head, ticks);
      WhiteGone(gap);
      TrimmedBehind(whole, gap);
      assert s == head + ticks + trail;
      assert TrimEnd(s) == head + ticks && DropTicks(head + ticks) == head && TrimEnd(head) == whole;
    }
  }

  /** An answer is whole exactly when, its fence aside, its last closing brace
      has nothing behind it but white space around at most one run of ticks. */
  lemma TruncatedExactly(raw: string)
    ensures LooksTruncated(raw) <==> !exists body, gap, ticks, trail :: ClosedBy(StripCodeFences(raw), body, gap, ticks, trail)
  {
    hide StripCodeFences, ClosedBy, Closes, TrimEnd, DropTicks;
    var s := StripCodeFences(raw);
    if body, gap, ticks, trail :| ClosedBy(s, body, gap, ticks, trail) { ClosedIsWhole(s, body, gap, ticks, trail); }
    if !LooksTruncated(raw) { var body, gap, ticks, trail := WholeIsClosed(s); }
  }

  lemma WholeIsClosed(s: string) returns (body: string, gap: string, ticks: string, trail: string)
    requires var cleaned := TrimEnd(s); Closes(cleaned) || Closes(TrimEnd(DropTicks(cleaned)))
    ensures ClosedBy(s, body, gap, ticks, trail)
  {
    trail := TrimmedTail(s);
    var cleaned := TrimEnd(s);
    if Closes(cleaned) {
      body, gap, ticks := cleaned[..|cleaned| - 1], "", "";
      assert cleaned == body + "}" && body + "}" + "" + "" == body + "}";
    } else {
      ticks := TicksTail(cleaned);
      gap := TrimmedTail(DropTicks(cleaned));
      var whole := TrimEnd(DropTicks(cleaned));
      body := whole[..|whole| - 1];
      assert whole == body + "}";
    }
  }

  // ---------- merging answers ----------

  /** A proposed type or concept. */
  datatype Item = Item(kind: string, name: string, confidence: int, body: string)

  datatype Proposal = Proposal(types: seq<Item>, concepts: seq<Item>)

  type Key = (string, string)

  function TypeKey(x: Item): Key { ("", x.name) }

  function ConceptKey(x: Item): Key { (x.kind, Lower(Trim(x.name))) }

  /** `x` is the first of the most confident items with its key. */
  ghost predicate Wins(all: seq<Item>, key: Item -> Key, x: Item) {
    exists i :: 0 <= i < |all| && all[i] == x && Beats(all, key, i)
  }

  predicate Beats(all: seq<Item>, key: Item -> Key, i: nat)
    requires i < |all|
  {
    && (forall j :: 0 <= j < |all| && key(all[j]) == key(all[i]) ==> all[j].confidence <= all[i].confidence)
    && (forall j :: 0 <= j < i && key(all[j]) == key(all[i]) ==> all[j].confidence < all[i].confidence)
  }

  /** One item per key that was proposed, the winner. */
  ghost predicate BestOf(all: seq<Item>, key: Item -> Key, kept: seq<Item>) {
    && (forall i, j :: 0 <= i < j < |kept| ==> key(kept[i]) != key(kept[j]))
    && (forall i :: 0 <= i < |kept| ==> Wins(all, key, kept[i]))
    && (forall i :: 0 <= i < |all| ==> Covers(kept, key, key(all[i])))
  }

  ghost predicate Covers(kept: seq<Item>, key: Item -> Key, wanted: Key) { exists k :: 0 <= k < |kept| && key(kept[k]) == wanted }

  ghost predicate Seen(kept: seq<Item>, key: Item -> Key, seen: map<Key, nat>) {
    && (forall k :: k in seen ==> seen[k] < |kept| && key(kept[seen[k]]) == k)
    && (forall i :: 0 <= i < |kept| ==> key(kept[i]) in seen && seen[key(kept[i])] == i)
  }

  lemma OthersStillWin(all: seq<Item>, key: Item -> Key, x: Item, y: Item)
    requires Wins(all, key, y) && (key(x) != key(y) || x.confidence <= y.confidence)
    ensures Wins(all + [x], key, y)
  {
    var i :| 0 <= i < |all| && all[i] == y && Beats(all, key, i);
    assert (all + [x])[i] == y && Beats(all + [x], key, i);
  }

  lemma NewWins(all: seq<Item>, key: Item -> Key, x: Item)
    requires forall i :: 0 <= i < |all| && key(all[i]) == key(x) ==> all[i].confidence < x.confidence
    ensures Wins(all + [x], key, x)
  {
    assert (all + [x])[|all|] == x && Beats(all + [x], key, |all|);
  }

  lemma WinnerBounds(all: seq<Item>, key: Item -> Key, y: Item, i: nat)
    requires Wins(all, key, y) && i < |all| && key(all[i]) == key(y)
    ensures all[i].confidence <= y.confidence
  {
  }

  /** What one incoming item does to the merged list. */
  function Absorb(kept: seq<Item>, key: Item -> Key, at: Option<nat>, x: Item): seq<Item>
    requires at.Some? ==> at.value < |kept|
  {
    match at
    case None => kept + [x]
    case Some(i) => if kept[i].confidence < x.confidence then kept[i := x] else kept
  }

  function Place(seen: map<Key, nat>, k: Key): Option<nat> { if k in seen then Some(seen[k]) else None }

  lemma AbsorbWinners(all: seq<Item>, key: Item -> Key, kept: seq<Item>, seen: map<Key, nat>, x: Item)
    requires BestOf(all, key, kept) && Seen(kept, key, seen)
    ensures var next := Absorb(kept, key, Place(seen, key(x)), x); forall k :: 0 <= k < |next| ==> Wins(all + [x], key, next[k])
  {
    var next := Absorb(kept, key, Place(seen, key(x)), x);
    forall k | 0 <= k < |next| ensures Wins(all + [x], key, next[k]) {
      if k < |kept| && next[k] == kept[k] {
        if key(kept[k]) == key(x) { assert seen[key(x)] == k; }
        OthersStillWin(all, key, x, kept[k]);
      } else {
        forall i | 0 <= i < |all| && key(all[i]) == key(x) ensures all[i].confidence < x.confidence {
          var j :| 0 <= j < |kept| && key(kept[j]) == key(all[i]);
          assert seen[key(x)] == j;
          WinnerBounds(all, key, kept[j], i);
        }
        NewWins(all, key, x);
      }
    }
  }

  lemma AbsorbSeen(key: Item -> Key, kept: seq<Item>, seen: map<Key, nat>, x: Item)
    requires Seen(kept, key, seen)
    ensures Seen(Absorb(kept, key, Place(seen, key(x)), x), key, if key(x) in seen then seen else seen[key(x) := |kept|])
  {
  }

  lemma AbsorbKeeps(all: seq<Item>, key: Item -> Key, kept: seq<Item>, seen: map<Key, nat>, x: Item)
    requires BestOf(all, key, kept) && Seen(kept, key, seen)
    ensures BestOf(all + [x], key, Absorb(kept, key, Place(seen, key(x)), x))
  {
    var next := Absorb(kept, key, Place(seen, key(x)), x);
    AbsorbWinners(all, key, kept, seen, x);
    AbsorbSeen(key, kept, seen, x);
    var known := if key(x) in seen then seen else seen[key(x) := |kept|];
    forall i, j | 0 <= i < j < |next| ensures key(next[i]) != key(next[j]) { assert known[key(next[i])] == i && known[key(next[j])] == j; }
    forall i | 0 <= i < |all + [x]| ensures Covers(next, key, key((all + [x])[i])) {
      if i < |all| {
        assert Covers(kept, key, key(all[i]));
        var k :| 0 <= k < |kept| && key(kept[k]) == key(all[i]);
        assert key(next[k]) == key(all[i]);
      } else {
        assert key(next[if key(x) in seen then seen[key(x)] else |kept|]) == key(x);
      }
    }
  }

  method IndexOf(acc: seq<Item>, key: Item -> Key) returns (seen: map<Key, nat>)
    requires forall i, j :: 0 <= i < j < |acc| ==> key(acc[i]) != key(acc[j])
    ensures Seen(acc, key, seen)
  {
    seen := map[];
    for i := 0 to |acc|
      invariant Seen(acc[..i], key, seen)
    {
      assert acc[..i + 1] == acc[..i] + [acc[i]];
      seen := seen[key(acc[i]) := i];
    }
    assert acc[..|acc|] == acc;
  }

  method MergeOne(acc: seq<Item>, seen: map<Key, nat>, key: Item -> Key, x: Item, ghost all: seq<Item>)
    returns (kept: seq<Item>, known: map<Key, nat>)
    requires BestOf(all, key, acc) && Seen(acc, key, seen)
    ensures BestOf(all + [x], key, kept) && Seen(kept, key, known)
  {
    AbsorbKeeps(all, key, acc, seen, x);
    AbsorbSeen(key, acc, seen, x);
    kept, known := acc, seen;
    if key(x) in seen {
      var i := seen[key(x)];
      if acc[i].confidence < x.confidence { kept := acc[i := x]; }
    } else {
      known := seen[key(x) := |acc|];
      kept := acc + [x];
    }
  }

  /** Merge an answer into the accumulated list: one item per key, the higher
      confidence winning and the earlier of two as confident. */
  method MergeItems(acc: seq<Item>, incoming: seq<Item>, key: Item -> Key, ghost before: seq<Item>) returns (kept: seq<Item>)
    requires BestOf(before, key, acc)
    ensures BestOf(before + incoming, key, kept)
  {
    kept := acc;
    var seen := IndexOf(acc, key);
    assert before + incoming[..0] == before;
    for n := 0 to |incoming|
      invariant BestOf(before + incoming[..n], key, kept) && Seen(kept, key, seen)
    {
      assert before + incoming[..n] + [incoming[n]] == before + incoming[..n + 1];
      kept, seen := MergeOne(kept, seen, key, incoming[n], before + incoming[..n]);
    }
    assert incoming[..|incoming|] == incoming;
  }

  // ---------- the work queue ----------

  datatype Reply = Failed | Replied(stop: Option<string>, content: string)

  /** Any model and any answer parser; a call is told its number. */
  type Model = (nat, string) -> Reply
  type Parser = (nat, string) -> Option<Proposal>

  datatype Outcome = Extracted(proposal: Proposal) | ModelFailed | GaveUp | TooSmall(call: nat) | Unparsable(call: nat)

  /** The stop reasons of a model that ran out of output. */
  predicate CutByModel(stop: Option<string>) { stop == Some("max_tokens") || stop == Some("length") }

  /** The answer to call `i` is complete and parses. */
  predicate Usable(model: Model, parse: Parser, i: nat, piece: string) {
    var reply := model(i, piece);
    && reply.Replied? && parse(i, reply.content).Some?
    && reply.stop != Some("max_tokens") && reply.stop != Some("length")
  }

  predicate CutOff(model: Model, i: nat, piece: string) {
    var reply := model(i, piece);
    && reply.Replied?
    && (LooksTruncated(reply.content) || (match reply.stop case Some(s) => s in ["length", "max_tokens"] case None => false))
  }

  /** The pieces whose answers were merged. */
  function Merged(model: Model, parse: Parser, asked: seq<string>): seq<string> {
    if asked == [] then [] else
    var i := |asked| - 1;
    Merged(model, parse, asked[..i]) + (if Usable(model, parse, i, asked[i]) then [asked[i]] else [])
  }

  function Answers(model: Model, parse: Parser, asked: seq<string>): Proposal {
    if asked == [] then Proposal([], []) else
    var i := |asked| - 1;
    var before := Answers(model, parse, asked[..i]);
    if !Usable(model, parse, i, asked[i]) then before else
    var p := parse(i, model(i, asked[i]).content).value;
    Proposal(before.types + p.types, before.concepts + p.concepts)
  }

  ghost predicate MergeOf(all: Proposal, acc: Proposal) {
    BestOf(all.types, TypeKey, acc.types) && BestOf(all.concepts, ConceptKey, acc.concepts)
  }

  /** Two proposed concepts are one when they are of one kind and their names
      agree but for case and the white space around them. */
  predicate SameConcept(x: Item, y: Item) { x.kind == y.kind && Lower(Trim(x.name)) == Lower(Trim(y.name)) }

  /** Merging keeps one of each type name and of each concept, at least as
      confident as any that was proposed. */
  lemma MergedOnce(all: Proposal, kept: Proposal)
    requires MergeOf(all, kept)
    ensures forall i, j :: 0 <= i < j < |kept.types| ==> kept.types[i].name != kept.types[j].name
    ensures forall i, j :: 0 <= i < j < |kept.concepts| ==> !SameConcept(kept.concepts[i], kept.concepts[j])
    ensures forall x :: x in all.types ==> exists y :: y in kept.types && y.name == x.name && y.confidence >= x.confidence
    ensures forall x :: x in all.concepts ==> exists y :: y in kept.concepts && SameConcept(x, y) && y.confidence >= x.confidence
  {
    forall i, j | 0 <= i < j < |kept.types| ensures kept.types[i].name != kept.types[j].name {
      assert TypeKey(kept.types[i]) != TypeKey(kept.types[j]);
    }
    forall i, j | 0 <= i < j < |kept.concepts| ensures !SameConcept(kept.concepts[i], kept.concepts[j]) {
      assert ConceptKey(kept.concepts[i]) != ConceptKey(kept.concepts[j]);
    }
    forall x | x in all.types ensures exists y :: y in kept.types && y.name == x.name && y.confidence >= x.confidence {
      var y := WinnerFor(all.types, TypeKey, kept.types, x);
    }
    forall x | x in all.concepts ensures exists y :: y in kept.concepts && SameConcept(x, y) && y.confidence >= x.confidence {
      var y := WinnerFor(all.concepts, ConceptKey, kept.concepts, x);
    }
  }

  lemma WinnerFor(all: seq<Item>, key: Item -> Key, kept: seq<Item>, x: Item) returns (y: Item)
    requires BestOf(all, key, kept) && x in all
    ensures y in kept && key(y) == key(x) && y.confidence >= x.confidence
  {
    var i :| 0 <= i < |all| && all[i] == x;
    assert Covers(kept, key, key(all[i]));
    var k :| 0 <= k < |kept| && key(kept[k]) == key(all[i]);
    y := kept[k];
    WinnerBounds(all, key, y, i);
  }

  /** What was merged and what is still to do spell the document. */
  ghost predicate Covering(model: Model, parse: Parser, text: string, asked: seq<string>, pending: seq<string>, acc: Proposal) {
    && Spell(Merged(model, parse, asked)) + Spell(pending) == Solid(text)
    && MergeOf(Answers(model, parse, asked), acc)
  }

  lemma SpellFirst(pending: seq<string>)
    requires pending != []
    ensures Spell(pending) == Solid(pending[0]) + Spell(pending[1..])
  {
  }

  lemma Done(model: Model, parse: Parser, text: string, asked: seq<string>, pending: seq<string>, acc: Proposal, next: Proposal)
    requires Covering(model, parse, text, asked, pending, acc) && pending != [] && Usable(model, parse, |asked|, pending[0])
    requires MergeOf(Answers(model, parse, asked + [pending[0]]), next)
    ensures Covering(model, parse, text, asked + [pending[0]], pending[1..], next)
  {
    var more := asked + [pending[0]];
    assert more[..|asked|] == asked;
    SpellSnoc(Merged(model, parse, asked), pending[0]);
    ConcatAssoc(Spell(Merged(model, parse, asked)), Solid(pending[0]), Spell(pending[1..]));
  }

  lemma SpellTwo(a: string, b: string, rest: seq<string>)
    ensures Spell([a, b] + rest) == Solid(a) + Solid(b) + Spell(rest)
  {
    var all := [a, b] + rest;
    assert all[1..] == [b] + rest && all[1..][1..] == rest;
    SpellFirst(all);
    SpellFirst(all[1..]);
  }

  lemma Halved(model: Model, parse: Parser, text: string, asked: seq<string>, pending: seq<string>, acc: Proposal)
    requires Covering(model, parse, text, asked, pending, acc) && pending != [] && !Usable(model, parse, |asked|, pending[0])
    requires SplitInHalf(pending[0]).Some?
    ensures var (a, b) := SplitInHalf(pending[0]).value;
      Covering(model, parse, text, asked + [pending[0]], [a, b] + pending[1..], acc)
  {
    var (a, b) := SplitInHalf(pending[0]).value;
    HalvesShrink(pending[0]);
    assert (asked + [pending[0]])[..|asked|] == asked;
    assert Merged(model, parse, asked) + [] == Merged(model, parse, asked);
    SpellTwo(a, b, pending[1..]);
    SpellFirst(pending);
  }

  ghost predicate WithinBudget(pieces: seq<string>, budget: nat) { forall p :: p in pieces ==> |p| <= budget }

  lemma HalvesFit(pending: seq<string>, budget: nat)
    requires pending != [] && WithinBudget(pending, budget) && SplitInHalf(pending[0]).Some?
    ensures var (a, b) := SplitInHalf(pending[0]).value; WithinBudget([a, b] + pending[1..], budget)
  {
    HalvesShrink(pending[0]);
    assert pending[0] in pending;
  }

  /** The queue after the calls `asked`. */
  ghost predicate Running(model: Model, parse: Parser, text: string, budget: nat, chunks: seq<string>,
                          asked: seq<string>, pending: seq<string>, acc: Proposal) {
    && Covering(model, parse, text, asked, pending, acc)
    && WithinBudget(pending, budget) && WithinBudget(asked, budget)
    && (NeverCutOff(model, parse) ==> |asked| + |pending| == |chunks|)
  }

  method Merge(model: Model, parse: Parser, acc: Proposal, ghost asked: seq<string>, piece: string, idx: nat) returns (next: Proposal)
    requires idx == |asked| && Usable(model, parse, idx, piece) && MergeOf(Answers(model, parse, asked), acc)
    ensures MergeOf(Answers(model, parse, asked + [piece]), next)
  {
    assert (asked + [piece])[..idx] == asked;
    ghost var before := Answers(model, parse, asked);
    var parsed := parse(idx, model(idx, piece).content).value;
    var types := MergeItems(acc.types, parsed.types, TypeKey, before.types);
    var concepts := MergeItems(acc.concepts, parsed.concepts, ConceptKey, before.concepts);
    next := Proposal(types, concepts);
  }

  ghost predicate NeverCutOff(model: Model, parse: Parser) { forall i: nat, piece: string :: Usable(model, parse, i, piece) }

  /** Why a run stopped, after the calls `asked`. */
  ghost predicate Explains(model: Model, parse: Parser, asked: seq<string>, r: Outcome) {
    var last := |asked| - 1;
    match r
    case Extracted(_) => true
    case GaveUp => |asked| == MAX_PIECES
    case ModelFailed => asked != [] && model(last, asked[last]).Failed?
    case TooSmall(call) =>
      asked != [] && call == last && !Usable(model, parse, last, asked[last]) && CutOff(model, last, asked[last])
      && SplitInHalf(asked[last]).None?
    case Unparsable(call) =>
      asked != [] && call == last && model(last, asked[last]).Replied? && !CutOff(model, last, asked[last])
      && parse(last, model(last, asked[last]).content).None?
  }

  lemma NotAlways(model: Model, parse: Parser, i: nat, piece: string)
    requires !Usable(model, parse, i, piece)
    ensures !NeverCutOff(model, parse)
  {
  }

  /** A call whose answer is merged. */
  method Take(model: Model, parse: Parser, ghost text: string, ghost budget: nat, ghost chunks: seq<string>,
              ghost asked: seq<string>, pending: seq<string>, acc: Proposal, idx: nat) returns (next: Proposal)
    requires Running(model, parse, text, budget, chunks, asked, pending, acc) && idx == |asked|
    requires pending != [] && Usable(model, parse, idx, pending[0])
    ensures Running(model, parse, text, budget, chunks, asked + [pending[0]], pending[1..], next)
  {
    next := Merge(model, parse, acc, asked, pending[0], idx);
    Done(model, parse, text, asked, pending, acc, next);
    assert pending[0] in pending;
  }

  /** A call whose answer is not merged: two halves, or the reason to stop. */
  method Retry(model: Model, parse: Parser, ghost text: string, ghost budget: nat, ghost chunks: seq<string>,
               ghost asked: seq<string>, pending: seq<string>, ghost acc: Proposal, idx: nat)
    returns (stop: Option<Outcome>, rest: seq<string>)
    requires Running(model, parse, text, budget, chunks, asked, pending, acc) && idx == |asked|
    requires pending != [] && !Usable(model, parse, idx, pending[0]) && model(idx, pending[0]).Replied?
    ensures stop.Some? ==> !stop.value.Extracted? && Explains(model, parse, asked + [pending[0]], stop.value)
    ensures stop.None? ==> Running(model, parse, text, budget, chunks, asked + [pending[0]], rest, acc)
  {
    var reply := model(idx, pending[0]);
    assert (asked + [pending[0]])[idx] == pending[0];
    if !(CutByModel(reply.stop) || LooksTruncated(reply.content)) { return Some(Unparsable(idx)), []; }
    match SplitInHalf(pending[0])
    case None => return Some(TooSmall(idx)), [];
    case Some(halves) =>
      Halved(model, parse, text, asked, pending, acc);
      HalvesFit(pending, budget);
      NotAlways(model, parse, idx, pending[0]);
      assert pending[0] in pending;
      return None, [halves.0, halves.1] + pending[1..];
  }

  lemma QueueStarts(model: Model, parse: Parser, text: string, budget: nat, chunks: seq<string>)
    requires Spell(chunks) == Solid(text) && WithinBudget(chunks, budget)
    ensures Running(model, parse, text, budget, chunks, [], chunks, Proposal([], []))
  {
    assert "" + Spell(chunks) == Spell(chunks);
  }

  lemma QueueFits(model: Model, parse: Parser, text: string, budget: nat, chunks: seq<string>, asked: seq<string>,
                  pending: seq<string>, acc: Proposal)
    requires Running(model, parse, text, budget, chunks, asked, pending, acc)
    ensures WithinBudget(asked, budget) && WithinBudget(pending, budget)
    ensures NeverCutOff(model, parse) ==> |asked| + |pending| == |chunks|
  {
  }

  lemma QueueEnds(model: Model, parse: Parser, text: string, budget: nat, chunks: seq<string>, asked: seq<string>, acc: Proposal)
    requires Running(model, parse, text, budget, chunks, asked, [], acc)
    ensures Spell(Merged(model, parse, asked)) == Solid(text) && MergeOf(Answers(model, parse, asked), acc)
  {
    assert Spell(Merged(model, parse, asked)) + "" == Spell(Merged(model, parse, asked));
  }

  /** Extract a proposal from a document, whatever the model answers. A result
      merges answers to pieces that spell the document exactly once, in order. */
  method ExtractProposal(text: string, model: Model, parse: Parser)
    returns (r: Outcome, ghost asked: seq<string>, ghost chunks: seq<string>)
    ensures |asked| <= MAX_PIECES && Explains(model, parse, asked, r)
    ensures r.Extracted? ==> Spell(Merged(model, parse, asked)) == Solid(text)
    ensures r.Extracted? ==> MergeOf(Answers(model, parse, asked), r.proposal)
    ensures WithinBudget(chunks, BudgetFor(text)) && WithinBudget(asked, BudgetFor(text))
    ensures Spell(chunks) == Solid(text) && (|text| <= BudgetFor(text) ==> chunks == [text])
    ensures NeverCutOff(model, parse) ==> (r.Extracted? <==> |chunks| <= MAX_PIECES)
    ensures NeverCutOff(model, parse) && |text| <= BudgetFor(text) ==> r.Extracted?
  {
    hide Running, MergeOf, Answers, Solid, Spell, Merged, NeverCutOff;
    var structured := LooksLineStructured(text);
    var budget := if structured then LINE_CHUNK_BUDGET_CHARS else CHUNK_BUDGET_CHARS;
    var pending := ChunkText(text, budget);
    chunks, asked := pending, [];
    var acc := Proposal([], []);
    var idx := 0;
    QueueStarts(model, parse, text, budget, chunks);
    while pending != []
      invariant idx == |asked| <= MAX_PIECES && Running(model, parse, text, budget, chunks, asked, pending, acc)
      decreases MAX_PIECES - idx
    {
      QueueFits(model, parse, text, budget, chunks, asked, pending, acc);
      if idx >= MAX_PIECES { return GaveUp, asked, chunks; }
      var piece := pending[0];
      var reply := model(idx, piece);
      ghost var before := asked;
      asked := asked + [piece];
      assert asked[idx] == piece && piece in pending;
      if reply.Failed? {
        NotAlways(model, parse, idx, piece);
        return ModelFailed, asked, chunks;
      }
      if parse(idx, reply.content).Some? && !CutByModel(reply.stop) {
        acc := Take(model, parse, text, budget, chunks, before, pending, acc, idx);
        pending := pending[1..];
      } else {
        NotAlways(model, parse, idx, piece);
        var stop, rest := Retry(model, parse, text, budget, chunks, before, pending, acc, idx);
        if stop.Some? { return stop.value, asked, chunks; }
        pending := rest;
      }
      idx := idx + 1;
    }
    QueueFits(model, parse, text, budget, chunks, asked, pending, acc);
    QueueEnds(model, parse, text, budget, chunks, asked, acc);
    r := Extracted(acc);
  }
}
