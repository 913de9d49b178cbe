// notifier/telegram.go, renderTemplate with a template configured: a chain of
// five strings.ReplaceAll calls.
module Templates {

  // A payload value as fmt.Sprintf("%v") shows it; a bool is kept apart.
  datatype Value = Text(text: string) | Flag(on: bool)

  datatype Slot = Event | Time | Ip | Host | State

  function Name(slot: Slot): string {
    match slot
    case Event => "{event}"
    case Time => "{time}"
    case Ip => "{ip}"
    case Host => "{host}"
    case State => "{state}"
  }

  function Show(v: Value): string {
    match v
    case Text(text) => text
    case Flag(on) => if on then "true" else "false"
  }

  function IpOf(payload: map<string, Value>): string {
    if "new_leader_ip" in payload then Show(payload["new_leader_ip"])
    else if "ip" in payload then Show(payload["ip"])
    else "-"
  }

  function HostOf(payload: map<string, Value>): string {
    if "host" in payload then Show(payload["host"])
    else if "new_leader_id" in payload then "ID:" + Show(payload["new_leader_id"])
    else "-"
  }

  function StateOf(payload: map<string, Value>): string {
    if "new_state" in payload then Show(payload["new_state"])
    else if "circuit_open" in payload then
      if payload["circuit_open"] == Flag(true) then "熔断触发" else "熔断解除"
    else "-"
  }

  // What each slot stands for in one notification.
  datatype Values = Values(event: string, time: string, ip: string, host: string, state: string) {
    function Of(slot: Slot): string {
      match slot
      case Event => event
      case Time => time
      case Ip => ip
      case Host => host
      case State => state
    }
  }

  // strings.ReplaceAll: leftmost matches, without rescanning what it wrote.
  function ReplaceAll(s: string, name: string, value: string): string
    requires name != ""
    decreases |s|
  {
    if |s| < |name| then s
    else if name <= s then value + ReplaceAll(s[|name|..], name, value)
    else [s[0]] + ReplaceAll(s[1..], name, value)
  }

  function Chain(tmpl: string, v: Values): string {
    var s := ReplaceAll(tmpl, Name(Event), v.event);
    var s := ReplaceAll(s, Name(Time), v.time);
    var s := ReplaceAll(s, Name(Ip), v.ip);
    var s := ReplaceAll(s, Name(Host), v.host);
    ReplaceAll(s, Name(State), v.state)
  }

  function RenderTemplate(tmpl: string, event: string, now: string, payload: map<string, Value>): string {
    Chain(tmpl, Values(event, now, IpOf(payload), HostOf(payload), StateOf(payload)))
  }

  // One pass of ReplaceAll

  // No match of name can start inside v, whatever follows v.
  predicate Inert(v: string, name: string) {
    forall j :: 0 <= j < |v| ==> !(v[j..] <= name) && !(name <= v[j..])
  }

  ghost predicate PassesOver(v: string, name: string, value: string)
    requires name != ""
  {
    forall rest :: ReplaceAll(v + rest, name, value) == v + ReplaceAll(rest, name, value)
  }

  lemma NoMatchStep(s: string, name: string, value: string)
    requires name != "" && |s| > 0 && !(name <= s)
    ensures ReplaceAll(s, name, value) == [s[0]] + ReplaceAll(s[1..], name, value)
  {
    if |s| < |name| {
      assert s == [s[0]] + s[1..];
    }
  }

  lemma {:induction false} SkipTo(s: string, j: nat, name: string, value: string)
    requires name != "" && j <= |s|
    requires forall i :: 0 <= i < j ==> !(name <= s[i..])
    ensures ReplaceAll(s, name, value) == s[..j] + ReplaceAll(s[j..], name, value)
  {
    hide ReplaceAll;
    if j == 0 {
      assert s[..0] == "" && s[0..] == s;
    } else {
      assert s[0..] == s;
      NoMatchStep(s, name, value);
      assert forall i :: 0 <= i < j - 1 ==> s[1..][i..] == s[i + 1..];
      SkipTo(s[1..], j - 1, name, value);
      assert s[..j] == [s[0]] + s[1..][..j - 1];
    }
  }

  lemma InertPasses(v: string, rest: string, name: string, value: string)
    requires name != "" && Inert(v, name)
    ensures ReplaceAll(v + rest, name, value) == v + ReplaceAll(rest, name, value)
  {
    hide ReplaceAll;
    var s := v + rest;
    forall i | 0 <= i < |v|
      ensures !(name <= s[i..])
    {
      assert s[i..] == v[i..] + rest;
      if name <= s[i..] {
        MatchIsComparable(v[i..], rest, name);
        assert false;
      }
    }
    SkipTo(s, |v|, name, value);
    assert s[..|v|] == v && s[|v|..] == rest;
  }

  lemma MatchIsComparable(u: string, rest: string, name: string)
    requires name <= u + rest
    ensures name <= u || u <= name
  {
    if |name| <= |u| {
      assert (u + rest)[..|name|] == u[..|name|];
    } else {
      assert (u + rest)[..|name|][..|u|] == u;
    }
  }

  lemma {:induction false} LengthMoves(s: string, name: string, value: string)
    requires name != ""
    ensures |value| >= |name| ==> |ReplaceAll(s, name, value)| >= |s|
    ensures |value| <= |name| ==> |ReplaceAll(s, name, value)| <= |s|
    decreases |s|
  {
    if |s| >= |name| {
      if name <= s {
        LengthMoves(s[|name|..], name, value);
      } else {
        LengthMoves(s[1..], name, value);
      }
    }
  }

  lemma MatchChanges(tail: string, name: string, value: string)
    requires name != "" && name != value
    ensures ReplaceAll(name + tail, name, value) == value + ReplaceAll(tail, name, value)
    ensures value + ReplaceAll(tail, name, value) != name + tail
  {
    assert (name + tail)[|name|..] == tail;
    LengthMoves(tail, name, value);
    assert (name + tail)[..|name|] == name && (value + ReplaceAll(tail, name, value))[..|value|] == value;
  }

  lemma SamePrefix(a: string, b: string, c: string)
    requires b != c
    ensures a + b != a + c
  {
    assert (a + b)[|a|..] == b && (a + c)[|a|..] == c;
  }

  // v holds a match at j, or a beginning of one that the right text completes.
  lemma MatchInside(v: string, j: nat, name: string, value: string) returns (rest: string)
    requires name != "" && name != value && j < |v|
    requires v[j..] <= name || name <= v[j..]
    requires forall i :: 0 <= i < j ==> !(v[i..] <= name) && !(name <= v[i..])
    ensures ReplaceAll(v + rest, name, value) != v + ReplaceAll(rest, name, value)
  {
    hide ReplaceAll;
    var u := v[j..];
    rest := if name <= u then "" else name[|u|..];
    var s := v + rest;
    forall i | 0 <= i < j
      ensures !(name <= s[i..])
    {
      assert s[i..] == v[i..] + rest;
      if name <= s[i..] {
        MatchIsComparable(v[i..], rest, name);
        assert false;
      }
    }
    SkipTo(s, j, name, value);
    assert v == v[..j] + u;
    assert s == v[..j] + (u + rest);
    assert s[..j] == v[..j];
    assert s[j..] == u + rest;
    var tail := (u + rest)[|name|..];
    assert u + rest == name + tail;
    MatchChanges(tail, name, value);
    SamePrefix(v[..j], value + ReplaceAll(tail, name, value), name + tail);
    ShortStays(rest, name, value);
  }

  lemma ShortStays(rest: string, name: string, value: string)
    requires |rest| < |name|
    ensures ReplaceAll(rest, name, value) == rest
  {
  }

  lemma FirstMatch(v: string, name: string) returns (j: nat)
    requires !Inert(v, name)
    ensures j < |v| && (v[j..] <= name || name <= v[j..])
    ensures forall i :: 0 <= i < j ==> !(v[i..] <= name) && !(name <= v[i..])
  {
    j := 0;
    while j < |v| && !(v[j..] <= name) && !(name <= v[j..])
      invariant j <= |v|
      invariant forall i :: 0 <= i < j ==> !(v[i..] <= name) && !(name <= v[i..])
    {
      j := j + 1;
    }
  }

  // A text is left alone in every context exactly when it is inert.
  lemma InertIsExact(v: string, name: string, value: string)
    requires name != "" && value != name
    ensures PassesOver(v, name, value) <==> Inert(v, name)
  {
    if Inert(v, name) {
      forall rest ensures ReplaceAll(v + rest, name, value) == v + ReplaceAll(rest, name, value) {
        InertPasses(v, rest, name, value);
      }
    } else {
      var j := FirstMatch(v, name);
      var rest := MatchInside(v, j, name, value);
      assert !PassesOver(v, name, value);
    }
  }

  // Templates as pieces

  datatype Piece = Words(text: string) | Hole(slot: Slot)

  function Spell(p: Piece): string {
    match p
    case Words(text) => text
    case Hole(slot) => Name(slot)
  }

  // The template as it is stored.
  function Flatten(ps: seq<Piece>): string {
    if |ps| == 0 then "" else Spell(ps[0]) + Flatten(ps[1..])
  }

  // Every hole filled at once.
  function Substitute(ps: seq<Piece>, v: Values): string {
    if |ps| == 0 then ""
    else (match ps[0] case Words(text) => text case Hole(slot) => v.Of(slot)) + Substitute(ps[1..], v)
  }

  function FillPiece(p: Piece, slot: Slot, value: string): Piece {
    if p == Hole(slot) then Words(value) else p
  }

  function Fill(ps: seq<Piece>, slot: Slot, value: string): (r: seq<Piece>)
    ensures |r| == |ps| && forall k :: 0 <= k < |ps| ==> r[k] == FillPiece(ps[k], slot, value)
  {
    seq(|ps|, k requires 0 <= k < |ps| => FillPiece(ps[k], slot, value))
  }

  predicate InertPieces(ps: seq<Piece>, name: string) {
    forall k :: 0 <= k < |ps| && ps[k].Words? ==> Inert(ps[k].text, name)
  }

  lemma NamesDiffer(a: Slot, b: Slot)
    requires a != b
    ensures Inert(Name(a), Name(b))
  {
    assert Name(a)[1] != Name(b)[1];
    forall j | 0 <= j < |Name(a)|
      ensures !(Name(a)[j..] <= Name(b)) && !(Name(b) <= Name(a)[j..])
    {
      if j > 0 {
        assert Name(a)[j] != '{' && Name(b)[0] == '{';
      }
    }
  }

  lemma {:induction false} OnePass(ps: seq<Piece>, slot: Slot, value: string)
    requires InertPieces(ps, Name(slot))
    ensures ReplaceAll(Flatten(ps), Name(slot), value) == Flatten(Fill(ps, slot, value))
  {
    hide Inert;
    var name := Name(slot);
    if |ps| > 0 {
      OnePass(ps[1..], slot, value);
      assert Fill(ps, slot, value)[1..] == Fill(ps[1..], slot, value);
      if ps[0] == Hole(slot) {
        assert (name + Flatten(ps[1..]))[|name|..] == Flatten(ps[1..]);
      } else {
        if ps[0].Hole? {
          NamesDiffer(ps[0].slot, slot);
        }
        InertPasses(Spell(ps[0]), Flatten(ps[1..]), name, value);
      }
    }
  }

  function Rank(slot: Slot): nat {
    match slot
    case Event => 0
    case Time => 1
    case Ip => 2
    case Host => 3
    case State => 4
  }

  // Text between the holes is inert for every name, and a value is inert for
  // the names replaced after it.
  ghost predicate Safe(ps: seq<Piece>, v: Values) {
    && (forall slot: Slot :: InertPieces(ps, Name(slot)))
    && (forall a: Slot, b: Slot :: Rank(a) < Rank(b) ==> Inert(v.Of(a), Name(b)))
  }

  lemma FillKeepsInert(ps: seq<Piece>, slot: Slot, value: string, name: string)
    requires InertPieces(ps, name) && Inert(value, name)
    ensures InertPieces(Fill(ps, slot, value), name)
  {
    hide Inert;
  }

  function FillAll(ps: seq<Piece>, v: Values): seq<Piece> {
    Fill(Fill(Fill(Fill(Fill(ps, Event, v.event), Time, v.time), Ip, v.ip), Host, v.host), State, v.state)
  }

  lemma FillAllAt(ps: seq<Piece>, v: Values, k: nat)
    requires k < |ps|
    ensures |FillAll(ps, v)| == |ps|
    ensures FillAll(ps, v)[k] == match ps[k] case Words(text) => ps[k] case Hole(slot) => Words(v.Of(slot))
  {
  }

  lemma {:induction false} AllFilled(ps: seq<Piece>, v: Values)
    ensures Flatten(FillAll(ps, v)) == Substitute(ps, v)
  {
    if |ps| > 0 {
      FillAllAt(ps, v, 0);
      forall k | 0 <= k < |ps| - 1
        ensures FillAll(ps, v)[1..][k] == FillAll(ps[1..], v)[k]
      {
        FillAllAt(ps, v, k + 1);
        FillAllAt(ps[1..], v, k);
      }
      FillAllAt(ps, v, 0);
      assert |FillAll(ps[1..], v)| == |ps| - 1;
      assert FillAll(ps, v)[1..] == FillAll(ps[1..], v);
      AllFilled(ps[1..], v);
    }
  }

  lemma ChainFills(ps: seq<Piece>, v: Values)
    requires Safe(ps, v)
    ensures Chain(Flatten(ps), v) == Flatten(FillAll(ps, v))
  {
    hide Inert, InertPieces, ReplaceAll, Flatten, Fill, Name;
    var s1 := Fill(ps, Event, v.event);
    var s2 := Fill(s1, Time, v.time);
    var s3 := Fill(s2, Ip, v.ip);
    var s4 := Fill(s3, Host, v.host);
    assert InertPieces(ps, Name(Event)) && InertPieces(ps, Name(Time)) && InertPieces(ps, Name(Ip))
        && InertPieces(ps, Name(Host)) && InertPieces(ps, Name(State));
    assert forall b: Slot :: Rank(Event) < Rank(b) ==> Inert(v.Of(Event), Name(b));
    OnePass(ps, Event, v.event);
    FillKeepsInert(ps, Event, v.Of(Event), Name(Time));
    FillKeepsInert(ps, Event, v.Of(Event), Name(Ip));
    FillKeepsInert(ps, Event, v.Of(Event), Name(Host));
    FillKeepsInert(ps, Event, v.Of(Event), Name(State));
    OnePass(s1, Time, v.time);
    FillKeepsInert(s1, Time, v.Of(Time), Name(Ip));
    FillKeepsInert(s1, Time, v.Of(Time), Name(Host));
    FillKeepsInert(s1, Time, v.Of(Time), Name(State));
    OnePass(s2, Ip, v.ip);
    FillKeepsInert(s2, Ip, v.Of(Ip), Name(Host));
    FillKeepsInert(s2, Ip, v.Of(Ip), Name(State));
    OnePass(s3, Host, v.host);
    FillKeepsInert(s3, Host, v.Of(Host), Name(State));
    OnePass(s4, State, v.state);
  }

  // The chain of replacements fills every hole at once.
  lemma RenderIsSimultaneous(ps: seq<Piece>, event: string, now: string, payload: map<string, Value>)
    requires Safe(ps, Values(event, now, IpOf(payload), HostOf(payload), StateOf(payload)))
    ensures RenderTemplate(Flatten(ps), event, now, payload)
         == Substitute(ps, Values(event, now, IpOf(payload), HostOf(payload), StateOf(payload)))
  {
    hide Safe, Chain, Substitute;
    var v := Values(event, now, IpOf(payload), HostOf(payload), StateOf(payload));
    ChainFills(ps, v);
    AllFilled(ps, v);
  }

  // Text without an opening brace is inert for every name.
  lemma NoBraceIsInert(v: string, slot: Slot)
    requires '{' !in v
    ensures Inert(v, Name(slot))
  {
    assert Name(slot)[0] == '{';
    forall j | 0 <= j < |v|
      ensures !(v[j..] <= Name(slot)) && !(Name(slot) <= v[j..])
    {
      assert v[j..][0] == v[j];
    }
  }

  predicate NoOpenBrace(ps: seq<Piece>) {
    forall k :: 0 <= k < |ps| && ps[k].Words? ==> '{' !in ps[k].text
  }

  // So templates and values without an opening brace are always safe, whatever
  // the value of {state}, the last one filled.
  lemma NoBraceIsSafe(ps: seq<Piece>, v: Values)
    requires NoOpenBrace(ps)
    requires '{' !in v.event && '{' !in v.time && '{' !in v.ip && '{' !in v.host
    ensures Safe(ps, v)
    ensures Chain(Flatten(ps), v) == Substitute(ps, v)
  {
    hide Inert, Chain, Substitute, Flatten, Name, FillAll;
    forall slot: Slot ensures InertPieces(ps, Name(slot)) {
      forall k | 0 <= k < |ps| && ps[k].Words? ensures Inert(ps[k].text, Name(slot)) {
        NoBraceIsInert(ps[k].text, slot);
      }
    }
    forall a: Slot, b: Slot | Rank(a) < Rank(b) ensures Inert(v.Of(a), Name(b)) {
      NoBraceIsInert(v.Of(a), b);
    }
    ChainFills(ps, v);
    AllFilled(ps, v);
  }

  lemma LoneHole(slot: Slot, v: Values)
    requires '{' !in v.event && '{' !in v.time && '{' !in v.ip && '{' !in v.host
    ensures Chain(Name(slot), v) == v.Of(slot)
  {
    hide Chain, Name;
    var ps := [Hole(slot)];
    assert ps[1..] == [];
    NoBraceIsSafe(ps, v);
    assert Flatten(ps) == Name(slot) && Substitute(ps, v) == v.Of(slot);
  }

  // What each placeholder stands for, key by key: a new leader's address goes
  // before any other, a host's name before a new leader's id, and a new state
  // before that of the breaker.
  lemma PlaceholdersStandFor(event: string, now: string, payload: map<string, Value>)
    requires '{' !in event && '{' !in now && forall key :: key in payload ==> '{' !in Show(payload[key])
    ensures RenderTemplate("{event}", event, now, payload) == event
    ensures RenderTemplate("{time}", event, now, payload) == now
    ensures
      var ip := RenderTemplate("{ip}", event, now, payload);
      && ("new_leader_ip" in payload ==> ip == Show(payload["new_leader_ip"]))
      && ("new_leader_ip" !in payload && "ip" in payload ==> ip == Show(payload["ip"]))
      && ("new_leader_ip" !in payload && "ip" !in payload ==> ip == "-")
    ensures
      var host := RenderTemplate("{host}", event, now, payload);
      && ("host" in payload ==> host == Show(payload["host"]))
      && ("host" !in payload && "new_leader_id" in payload ==> host == "ID:" + Show(payload["new_leader_id"]))
      && ("host" !in payload && "new_leader_id" !in payload ==> host == "-")
    ensures
      var state := RenderTemplate("{state}", event, now, payload);
      && ("new_state" in payload ==> state == Show(payload["new_state"]))
      && ("new_state" !in payload && "circuit_open" in payload ==>
           state == if payload["circuit_open"] == Flag(true) then "熔断触发" else "熔断解除")
      && ("new_state" !in payload && "circuit_open" !in payload ==> state == "-")
  {
    hide Chain, Show;
    var v := Values(event, now, IpOf(payload), HostOf(payload), StateOf(payload));
    assert Name(Event) == "{event}" && Name(Time) == "{time}" && Name(Ip) == "{ip}";
    assert Name(Host) == "{host}" && Name(State) == "{state}";
    hide Name;
    forall slot: Slot ensures Chain(Name(slot), v) == v.Of(slot) {
      LoneHole(slot, v);
    }
  }

  // The conditions are needed for the renderer by itself: on an event name that
  // spells a later placeholder, which no caller passes, that is replaced again.
  lemma ValueReplacedAgain()
    ensures
      var payload := map["ip" := Text("10.0.0.1")];
      && RenderTemplate(Flatten([Hole(Event)]), "{ip}", "now", payload) == "10.0.0.1"
      && Substitute([Hole(Event)], Values("{ip}", "now", "10.0.0.1", "-", "-")) == "{ip}"
  {
    hide Chain, ReplaceAll, Name;
    ChainReplacesAgain();
    assert Flatten([Hole(Event)]) == Name(Event) by {
      assert [Hole(Event)][1..] == [];
    }
    assert [Hole(Event)][1..] == [];
  }

  lemma ChainReplacesAgain()
    ensures Chain(Name(Event), Values("{ip}", "now", "10.0.0.1", "-", "-")) == "10.0.0.1"
  {
    assert ReplaceAll("{event}", "{event}", "{ip}") == "{ip}" by {
      assert "{event}"[|"{event}"|..] == "";
    }
    assert ReplaceAll("{ip}", "{ip}", "10.0.0.1") == "10.0.0.1" by {
      assert "{ip}"[|"{ip}"|..] == "";
    }
    assert ReplaceAll("{ip}", "{time}", "now") == "{ip}";
    NoBraceStays("10.0.0.1", Host, "-");
    NoBraceStays("10.0.0.1", State, "-");
    hide ReplaceAll;
  }

  lemma NoBraceStays(v: string, slot: Slot, value: string)
    requires '{' !in v
    ensures ReplaceAll(v, Name(slot), value) == v
  {
    NoBraceIsInert(v, slot);
    InertPasses(v, "", Name(slot), value);
    assert v + "" == v;
  }
}
