// The notifications the program sends, rendered with any template whatever:
// their values never turn a template into more placeholders than it had.
module Notices {
  import M = Models
  import C = Cycles
  import H = Handlers
  import T = TraceSafety
  import R = Runs
  import opened Templates

  // One pass over any template

  // Every placeholder of the template filled at once, in one pass from the left.
  function FillInOnePass(tmpl: string, v: Values): string {
    var slot := SlotAt(tmpl);
    if tmpl == "" then ""
    else if slot == [] then [tmpl[0]] + FillInOnePass(tmpl[1..], v)
    else v.Of(slot[0]) + FillInOnePass(tmpl[|Name(slot[0])|..], v)
  }

  // The placeholder the text begins with, if any.
  function SlotAt(s: string): (r: seq<Slot>)
    ensures r == [] <==> forall slot: Slot :: !(Name(slot) <= s)
    ensures r != [] ==> |r| == 1 && Name(r[0]) <= s
  {
    if Name(Event) <= s then [Event]
    else if Name(Time) <= s then [Time]
    else if Name(Ip) <= s then [Ip]
    else if Name(Host) <= s then [Host]
    else if Name(State) <= s then [State]
    else []
  }

  // A template read into characters and placeholders, some of them filled.
  datatype Token = Letter(c: char) | Open(slot: Slot) | Done(text: string)

  function SpellToken(t: Token): string {
    match t
    case Letter(c) => [c]
    case Open(slot) => Name(slot)
    case Done(text) => text
  }

  function SpellOut(ts: seq<Token>): string {
    if |ts| == 0 then "" else SpellToken(ts[0]) + SpellOut(ts[1..])
  }

  function Read(s: string): seq<Token> {
    var slot := SlotAt(s);
    if s == "" then []
    else if slot == [] then [Letter(s[0])] + Read(s[1..])
    else [Open(slot[0])] + Read(s[|Name(slot[0])|..])
  }

  lemma {:induction false} ReadSpells(s: string)
    ensures SpellOut(Read(s)) == s
    decreases |s|
  {
    hide SlotAt, Name;
    var slot := SlotAt(s);
    if s != "" && slot == [] {
      ReadSpells(s[1..]);
      assert Read(s)[1..] == Read(s[1..]);
    } else if s != "" {
      NameIsLong(slot[0]);
      var n := |Name(slot[0])|;
      ReadSpells(s[n..]);
      assert Read(s)[1..] == Read(s[n..]);
    }
  }

  lemma NameIsLong(slot: Slot)
    ensures |Name(slot)| > 0
  {
  }

  // No run of single characters spells a placeholder.
  ghost predicate NoNameInLetters(ts: seq<Token>, name: string) {
    forall i :: 0 <= i < |ts| ==> !LettersAt(ts, i, name)
  }

  predicate LettersAt(ts: seq<Token>, i: nat, name: string)
    requires i <= |ts|
  {
    i + |name| <= |ts| && forall j :: i <= j < i + |name| ==> ts[j] == Letter(name[j - i])
  }

  // Letters at the front of what was read are letters of the text.
  lemma {:induction false} LettersRead(s: string, name: string)
    requires LettersAt(Read(s), 0, name)
    ensures name <= s
    decreases |s|
  {
    if name != "" {
      var ts := Read(s);
      assert ts[0] == Letter(name[0]);
      assert ts[1..] == Read(s[1..]);
      assert forall j :: 0 <= j < |name| - 1 ==> ts[1..][j] == ts[j + 1];
      LettersRead(s[1..], name[1..]);
    }
  }

  lemma {:induction false} ReadLeavesNoName(s: string, slot: Slot)
    ensures NoNameInLetters(Read(s), Name(slot))
    decreases |s|
  {
    hide Name, SlotAt;
    var ts, name := Read(s), Name(slot);
    NameIsLong(slot);
    if s != "" {
      var at := SlotAt(s);
      var n := if at == [] then 1 else |Name(at[0])|;
      if at != [] {
        NameIsLong(at[0]);
      }
      ReadLeavesNoName(s[n..], slot);
      assert ts[1..] == Read(s[n..]);
      forall i | 0 <= i < |ts| ensures !LettersAt(ts, i, name) {
        if LettersAt(ts, i, name) {
          LettersDeeper(ts, i, name);
          if i == 0 {
            LettersRead(s, name);
          }
        }
      }
    }
  }

  lemma LettersDeeper(ts: seq<Token>, i: nat, name: string)
    requires |ts| > 0 && i < |ts| && name != "" && LettersAt(ts, i, name)
    ensures i > 0 ==> LettersAt(ts[1..], i - 1, name) && i - 1 < |ts[1..]|
    ensures i == 0 ==> ts[0].Letter?
  {
    assert ts[i] == Letter(name[0]);
  }

  // Values that start nothing

  // The value can be no part of this placeholder, nor begin or end one.
  predicate Foreign(v: string, name: string) {
    '{' !in v && '}' !in v && forall p :: 0 <= p <= |name| ==> !(v <= name[p..])
  }

  lemma {:induction false} NoSplitMatch(ts: seq<Token>, name: string, p: nat)
    requires 0 < p <= |name| && name[p..] <= SpellOut(ts)
    requires forall k :: 0 <= k < |name| ==> (name[k] == '{' <==> k == 0)
    requires name[|name| - 1] == '}'
    requires forall k :: 0 <= k < |ts| && ts[k].Done? ==> Foreign(ts[k].text, name)
    ensures LettersAt(ts, 0, name[p..])
    decreases |name| - p
  {
    var m := name[p..];
    if m != "" {
      assert |ts| > 0;
      var rest := SpellOut(ts[1..]);
      match ts[0] {
        case Letter(c) =>
          assert SpellOut(ts) == [c] + rest;
          assert m[0] == c && name[p + 1..] == m[1..];
          assert m[1..] <= rest;
          NoSplitMatch(ts[1..], name, p + 1);
          LettersJoin(ts, m);
        case Open(slot) =>
          OpensWithBrace(slot, rest);
          assert false;
        case Done(text) =>
          MatchIsComparable(text, rest, m);
          EndsInText(text, name, p);
          assert false;
      }
    }
  }

  lemma EndsInText(text: string, name: string, p: nat)
    requires p < |name| && name[|name| - 1] == '}' && Foreign(text, name)
    ensures !(name[p..] <= text) && !(text <= name[p..])
  {
    LastIn(name[p..], text);
  }

  lemma LastIn(m: string, text: string)
    requires m != ""
    ensures m <= text ==> m[|m| - 1] in text
  {
  }

  lemma OpensWithBrace(slot: Slot, rest: string)
    ensures |Name(slot) + rest| > 0 && (Name(slot) + rest)[0] == '{'
  {
  }

  lemma NameShape(slot: Slot)
    ensures var name := Name(slot);
      && |name| > 0 && name[|name| - 1] == '}'
      && forall k :: 0 <= k < |name| ==> (name[k] == '{' <==> k == 0)
  {
  }

  // A single character starts a match only as the first of letters that spell it.
  lemma LetterStartsNothing(ts: seq<Token>, slot: Slot)
    requires |ts| > 0 && ts[0].Letter? && !LettersAt(ts, 0, Name(slot))
    requires forall k :: 0 <= k < |ts| && ts[k].Done? ==> Foreign(ts[k].text, Name(slot))
    ensures !(Name(slot) <= SpellOut(ts))
  {
    hide Name, Foreign, LettersAt;
    var name := Name(slot);
    NameShape(slot);
    if name <= SpellOut(ts) {
      assert SpellOut(ts) == [ts[0].c] + SpellOut(ts[1..]);
      assert name[1..] <= SpellOut(ts[1..]);
      NoSplitMatch(ts[1..], name, 1);
      LettersJoin(ts, name);
    }
  }

  lemma LettersJoin(ts: seq<Token>, name: string)
    requires |ts| > 0 && name != "" && ts[0] == Letter(name[0]) && LettersAt(ts[1..], 0, name[1..])
    ensures LettersAt(ts, 0, name)
  {
    assert forall j :: 0 < j < |name| ==> ts[j] == ts[1..][j - 1];
  }

  function FillToken(t: Token, slot: Slot, value: string): Token {
    if t == Open(slot) then Done(value) else t
  }

  function FillTokens(ts: seq<Token>, slot: Slot, value: string): (r: seq<Token>)
    ensures |r| == |ts| && forall k :: 0 <= k < |ts| ==> r[k] == FillToken(ts[k], slot, value)
  {
    seq(|ts|, k requires 0 <= k < |ts| => FillToken(ts[k], slot, value))
  }

  // What one replacement needs: nothing but its own placeholders can match.
  ghost predicate Clear(ts: seq<Token>, slot: Slot) {
    && NoNameInLetters(ts, Name(slot))
    && forall k :: 0 <= k < |ts| && ts[k].Done? ==> Foreign(ts[k].text, Name(slot))
  }

  lemma ClearTail(ts: seq<Token>, slot: Slot)
    requires |ts| > 0 && Clear(ts, slot)
    ensures Clear(ts[1..], slot)
    ensures !LettersAt(ts, 0, Name(slot))
  {
    hide Name, Foreign, LettersAt;
    forall i | 0 <= i < |ts| - 1 ensures !LettersAt(ts[1..], i, Name(slot)) {
      LettersUp(ts, i, Name(slot));
    }
  }

  lemma LettersUp(ts: seq<Token>, i: nat, name: string)
    requires i + 1 < |ts|
    ensures LettersAt(ts[1..], i, name) ==> LettersAt(ts, i + 1, name)
  {
    assert forall j :: 0 < j < |ts| ==> ts[j] == ts[1..][j - 1];
  }

  lemma {:induction false} OneReplacement(ts: seq<Token>, slot: Slot, value: string)
    requires Clear(ts, slot)
    ensures ReplaceAll(SpellOut(ts), Name(slot), value) == SpellOut(FillTokens(ts, slot, value))
  {
    if |ts| > 0 {
      ClearTail(ts, slot);
      hide Name, NoNameInLetters, LettersAt, ReplaceAll, Foreign;
      OneReplacement(ts[1..], slot, value);
      assert FillTokens(ts, slot, value)[1..] == FillTokens(ts[1..], slot, value);
      var name, rest := Name(slot), SpellOut(ts[1..]);
      match ts[0] {
        case Letter(c) =>
          LetterStartsNothing(ts, slot);
          NameIsLong(slot);
          NoMatchStep(SpellOut(ts), name, value);
          assert SpellOut(ts)[1..] == rest;
        case Open(other) =>
          NameIsLong(slot);
          if other == slot {
            MatchStep(name, rest, value);
          } else {
            NamesDiffer(other, slot);
            InertPasses(Name(other), rest, name, value);
          }
        case Done(text) =>
          NameIsLong(slot);
          ForeignHasNoBrace(text, name);
          NoBraceIsInert(text, slot);
          InertPasses(text, rest, name, value);
      }
    }
  }

  lemma MatchStep(name: string, rest: string, value: string)
    requires name != ""
    ensures ReplaceAll(name + rest, name, value) == value + ReplaceAll(rest, name, value)
  {
    assert (name + rest)[|name|..] == rest;
  }

  lemma ForeignHasNoBrace(v: string, name: string)
    requires Foreign(v, name)
    ensures '{' !in v
  {
  }

  lemma FillKeepsClear(ts: seq<Token>, slot: Slot, value: string, other: Slot)
    requires Clear(ts, other) && Foreign(value, Name(other))
    ensures Clear(FillTokens(ts, slot, value), other)
  {
    hide Name, Foreign;
    var filled, name := FillTokens(ts, slot, value), Name(other);
    forall i | 0 <= i < |ts| ensures !LettersAt(filled, i, name) {
      assert forall j :: i <= j < |ts| && filled[j].Letter? ==> ts[j] == filled[j];
      assert !LettersAt(ts, i, name);
    }
  }

  function FillEvery(ts: seq<Token>, v: Values): (r: seq<Token>)
    ensures |r| == |ts|
    ensures forall k :: 0 <= k < |ts| ==> r[k] == if ts[k].Open? then Done(v.Of(ts[k].slot)) else ts[k]
  {
    seq(|ts|, k requires 0 <= k < |ts| => if ts[k].Open? then Done(v.Of(ts[k].slot)) else ts[k])
  }

  lemma {:induction false} ReadFillsInOnePass(s: string, v: Values)
    ensures SpellOut(FillEvery(Read(s), v)) == FillInOnePass(s, v)
    decreases |s|
  {
    hide SlotAt, Name;
    var slot := SlotAt(s);
    if s != "" {
      var n := if slot == [] then 1 else |Name(slot[0])|;
      if slot != [] {
        NameIsLong(slot[0]);
      }
      ReadFillsInOnePass(s[n..], v);
      assert FillEvery(Read(s), v)[1..] == FillEvery(Read(s)[1..], v);
      assert Read(s)[1..] == Read(s[n..]);
    }
  }

  lemma FillsAreEvery(ts: seq<Token>, v: Values)
    ensures
      var one := FillTokens(FillTokens(ts, Event, v.event), Time, v.time);
      FillTokens(FillTokens(FillTokens(one, Ip, v.ip), Host, v.host), State, v.state) == FillEvery(ts, v)
  {
  }

  // No value can meet a placeholder that is replaced after it.
  ghost predicate Harmless(v: Values) {
    forall a: Slot, b: Slot :: Rank(a) < Rank(b) ==> Foreign(v.Of(a), Name(b))
  }

  lemma ReadIsClear(s: string, slot: Slot)
    ensures Clear(Read(s), slot)
  {
    hide Name, SlotAt, Foreign;
    ReadLeavesNoName(s, slot);
    ReadFillsNothing(s);
  }

  lemma {:induction false} ReadFillsNothing(s: string)
    ensures forall k :: 0 <= k < |Read(s)| ==> !Read(s)[k].Done?
    decreases |s|
  {
    hide SlotAt, Name;
    var slot := SlotAt(s);
    if s != "" {
      var n := if slot == [] then 1 else |Name(slot[0])|;
      if slot != [] {
        NameIsLong(slot[0]);
      }
      ReadFillsNothing(s[n..]);
    }
  }

  // The chain of replacements fills any template whatever in one pass.
  lemma ChainIsOnePass(tmpl: string, v: Values)
    requires Harmless(v)
    ensures Chain(tmpl, v) == FillInOnePass(tmpl, v)
  {
    hide Clear, Foreign, ReplaceAll, SpellOut, FillInOnePass, Read, Name, FillTokens;
    var s0 := Read(tmpl);
    var s1 := FillTokens(s0, Event, v.event);
    var s2 := FillTokens(s1, Time, v.time);
    var s3 := FillTokens(s2, Ip, v.ip);
    var s4 := FillTokens(s3, Host, v.host);
    ReadSpells(tmpl);
    ReadIsClear(tmpl, Event);
    OneReplacement(s0, Event, v.event);
    ReadIsClear(tmpl, Time);
    FillKeepsClear(s0, Event, v.Of(Event), Time);
    OneReplacement(s1, Time, v.time);
    ReadIsClear(tmpl, Ip);
    FillKeepsClear(s0, Event, v.Of(Event), Ip);
    FillKeepsClear(s1, Time, v.Of(Time), Ip);
    OneReplacement(s2, Ip, v.ip);
    ReadIsClear(tmpl, Host);
    FillKeepsClear(s0, Event, v.Of(Event), Host);
    FillKeepsClear(s1, Time, v.Of(Time), Host);
    FillKeepsClear(s2, Ip, v.Of(Ip), Host);
    OneReplacement(s3, Host, v.host);
    ReadIsClear(tmpl, State);
    FillKeepsClear(s0, Event, v.Of(Event), State);
    FillKeepsClear(s1, Time, v.Of(Time), State);
    FillKeepsClear(s2, Ip, v.Of(Ip), State);
    FillKeepsClear(s3, Host, v.Of(Host), State);
    OneReplacement(s4, State, v.state);
    FillsAreEvery(s0, v);
    ReadFillsInOnePass(tmpl, v);
  }

  // What the program sends

  datatype Notice =
    | CircuitOpen
    | CircuitClose
    | LeaderChanged(id: nat, ip: string)
    | DdnsMatch
    | DdnsMismatch
    | Test

  function EventName(n: Notice): string {
    match n
    case CircuitOpen => "circuit_open"
    case CircuitClose => "circuit_close"
    case LeaderChanged(_, _) => "leader_changed"
    case DdnsMatch => "ddns_match"
    case DdnsMismatch => "ddns_mismatch"
    case Test => "test"
  }

  // The payload keys the renderer looks at.
  const READ_KEYS: set<string> := {"new_leader_ip", "ip", "host", "new_leader_id", "new_state", "circuit_open"}

  // The payload, of which `extra` is the part the renderer does not look at.
  function PayloadOf(n: Notice, extra: map<string, Value>): map<string, Value> {
    match n
    case CircuitOpen => extra["circuit_open" := Flag(true)]
    case CircuitClose => extra["circuit_open" := Flag(false)]
    case LeaderChanged(id, ip) => extra["new_leader_id" := Text(Decimal(id))]["new_leader_ip" := Text(ip)]
    case _ => extra
  }

  function Digit(n: nat): char
    requires n < 10
  {
    "0123456789"[n]
  }

  function Decimal(n: nat): (s: string)
    ensures s != "" && forall c :: c in s ==> '0' <= c <= '9'
  {
    if n < 10 then [Digit(n)] else Decimal(n / 10) + [Digit(n % 10)]
  }

  // A text of decimal digits, read as a number.
  function Number(s: string): int {
    if s == "" then 0 else 10 * Number(s[..|s| - 1]) + (s[|s| - 1] as int - 48)
  }

  // An id reads back as itself, and has no leading zero.
  lemma {:induction false} DecimalReads(n: nat)
    ensures Number(Decimal(n)) == n
    ensures n > 0 ==> Decimal(n)[0] != '0'
  {
    DigitIs(n % 10);
    if n >= 10 {
      DecimalReads(n / 10);
      var s := Decimal(n);
      assert s[..|s| - 1] == Decimal(n / 10);
    }
  }

  lemma DigitIs(n: nat)
    requires n < 10
    ensures Digit(n) as int == 48 + n
  {
  }

  datatype Stamp = Stamp(year: nat, month: nat, day: nat, hour: nat, minute: nat, second: nat)

  function Padded(n: nat, width: nat): (s: string)
    ensures forall c :: c in s ==> '0' <= c <= '9'
  {
    var s := Decimal(n);
    seq(if |s| < width then width - |s| else 0, i => '0') + s
  }

  // time.Format("2006-01-02 15:04:05")
  function FormatTime(t: Stamp): string {
    Padded(t.year, 4) + "-" + Padded(t.month, 2) + "-" + Padded(t.day, 2) + " "
    + Padded(t.hour, 2) + ":" + Padded(t.minute, 2) + ":" + Padded(t.second, 2)
  }

  // net.ParseIP accepts no text without a dot or a colon, and no other
  // characters than these and hexadecimal digits.
  predicate IsAddress(ip: string) {
    && ('.' in ip || ':' in ip)
    && forall c :: c in ip ==> '0' <= c <= '9' || 'a' <= c <= 'f' || 'A' <= c <= 'F' || c == '.' || c == ':'
  }

  // What the placeholders of a notification stand for.
  function Shown(n: Notice, now: Stamp): Values {
    var (ip, host, state) :=
      match n
      case CircuitOpen => ("-", "-", "熔断触发")
      case CircuitClose => ("-", "-", "熔断解除")
      case LeaderChanged(id, ip) => (ip, "ID:" + Decimal(id), "-")
      case _ => ("-", "-", "-");
    Values(EventName(n), FormatTime(now), ip, host, state)
  }

  lemma ForeignBy(v: string, c: char, slot: Slot)
    requires c in v && c in ".:-_" && '{' !in v && '}' !in v
    ensures Foreign(v, Name(slot))
  {
    PlainName(slot);
    hide Name;
    forall p | 0 <= p <= |Name(slot)| ensures !(v <= Name(slot)[p..]) {
      CharIn(v, Name(slot)[p..], c);
    }
  }

  lemma CharIn(v: string, s: string, c: char)
    requires c in v
    ensures v <= s ==> c in s
  {
  }

  lemma PlainName(slot: Slot)
    ensures forall c :: c in ".:-_" ==> c !in Name(slot)
  {
  }

  lemma TestIsForeign(slot: Slot)
    ensures Foreign("test", Name(slot))
  {
    forall p | 0 <= p <= |Name(slot)| ensures !("test" <= Name(slot)[p..]) {
      var rest := Name(slot)[p..];
      if |rest| >= 4 {
        assert rest[0] == Name(slot)[p] && rest[2] == Name(slot)[p + 2];
        assert "test"[0] == 't' && "test"[2] == 's';
      }
    }
  }

  lemma EventIsForeign(n: Notice, slot: Slot)
    ensures Foreign(EventName(n), Name(slot))
  {
    hide Name, Foreign;
    if n == Test {
      TestIsForeign(slot);
    } else {
      var name := EventName(n);
      assert name[4] == '_' || name[6] == '_' || name[7] == '_';
      ForeignBy(name, '_', slot);
    }
  }

  lemma TimeIsForeign(now: Stamp, slot: Slot)
    ensures Foreign(FormatTime(now), Name(slot))
  {
    hide Name, Foreign, Padded;
    ForeignBy(FormatTime(now), ':', slot);
  }

  lemma ShownIsForeign(n: Notice, now: Stamp, slot: Slot)
    requires n.LeaderChanged? ==> IsAddress(n.ip)
    ensures Foreign(Shown(n, now).ip, Name(slot)) && Foreign(Shown(n, now).host, Name(slot))
  {
    hide Name, Foreign, FormatTime, EventName, Decimal;
    ForeignBy("-", '-', slot);
    if n.LeaderChanged? {
      ForeignBy(n.ip, if '.' in n.ip then '.' else ':', slot);
      var host := "ID:" + Decimal(n.id);
      assert host[2] == ':';
      ForeignBy(host, ':', slot);
    }
  }

  lemma NoticeIsHarmless(n: Notice, now: Stamp)
    requires n.LeaderChanged? ==> IsAddress(n.ip)
    ensures Harmless(Shown(n, now))
  {
    hide Name, Foreign, FormatTime, EventName, IsAddress;
    var v := Shown(n, now);
    forall a: Slot, b: Slot | Rank(a) < Rank(b) ensures Foreign(v.Of(a), Name(b)) {
      EventIsForeign(n, b);
      TimeIsForeign(now, b);
      ShownIsForeign(n, now, b);
    }
  }

  // Every notification the program sends, rendered with any template that is
  // configured, is that template with each placeholder filled once.
  lemma NoticeRenders(tmpl: string, n: Notice, now: Stamp, extra: map<string, Value>)
    requires extra.Keys !! READ_KEYS
    requires n.LeaderChanged? ==> IsAddress(n.ip)
    ensures RenderTemplate(tmpl, EventName(n), FormatTime(now), PayloadOf(n, extra)) ==
      FillInOnePass(tmpl, Shown(n, now))
  {
    hide Chain, FillInOnePass, FormatTime, EventName, IsAddress, Decimal;
    NoticeIsHarmless(n, now);
    ChainIsOnePass(tmpl, Shown(n, now));
    assert forall k :: k in READ_KEYS ==> k !in extra;
  }

  // The addresses in the host table

  ghost predicate AddressesHold(hosts: seq<M.Host>) {
    forall h :: h in hosts ==> IsAddress(h.ip)
  }

  // A submitted address counts as valid only if it can be one.
  predicate Parsed(step: R.Step) {
    match step
    case AddHost(req) => req.ipValid ==> IsAddress(req.ip)
    case EditHost(_, req) => req.ipValid ==> IsAddress(req.ip)
    case _ => true
  }

  lemma {:induction false} RunKeepsAddresses(w0: C.World, steps: seq<R.Step>)
    requires AddressesHold(w0.db.hosts) && forall i :: 0 <= i < |steps| ==> Parsed(steps[i])
    ensures AddressesHold(R.Reach(w0, steps).db.hosts)
  {
    hide AddressesHold, Parsed;
    if |steps| > 0 {
      var before := steps[..|steps| - 1];
      RunKeepsAddresses(w0, before);
      hide R.Next;
      StepKeepsAddresses(R.Reach(w0, before), steps[|steps| - 1]);
    }
  }

  lemma StepKeepsAddresses(w: C.World, step: R.Step)
    requires AddressesHold(w.db.hosts) && Parsed(step)
    ensures AddressesHold(R.Next(w, step).db.hosts)
  {
    hide IsAddress;
    match step
    case Poll(env) =>
      hide C.Cycle;
      T.CycleDb(w, env);
    case RemoveHost(id) =>
      H.WithoutRows(w.db.hosts, id);
    case _ =>
  }

  // The notification for any host of any table that a run reaches renders as it
  // should.
  lemma LeaderNoticeRenders(w0: C.World, steps: seq<R.Step>, h: M.Host, tmpl: string, now: Stamp,
        extra: map<string, Value>)
    requires AddressesHold(w0.db.hosts) && forall i :: 0 <= i < |steps| ==> Parsed(steps[i])
    requires extra.Keys !! READ_KEYS
    ensures h in R.Reach(w0, steps).db.hosts ==>
      var n := LeaderChanged(h.id, h.ip);
      RenderTemplate(tmpl, EventName(n), FormatTime(now), PayloadOf(n, extra)) == FillInOnePass(tmpl, Shown(n, now))
  {
    hide *;
    if h in R.Reach(w0, steps).db.hosts {
      RunKeepsAddresses(w0, steps);
      AddressOf(R.Reach(w0, steps).db.hosts, h);
      NoticeRenders(tmpl, LeaderChanged(h.id, h.ip), now, extra);
    }
  }

  lemma AddressOf(hosts: seq<M.Host>, h: M.Host)
    requires AddressesHold(hosts) && h in hosts
    ensures IsAddress(h.ip)
  {
  }
}
