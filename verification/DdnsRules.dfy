// api/config.go: normalising submitted DDNS rules, and masking stored ones.
module DdnsRules {
  import opened Text
  import opened Models
  import opened Storage

  datatype Json =
    | Null
    | Bool(b: bool)
    | Num(n: int)
    | Str(s: string)
    | Arr(items: seq<Json>)
    | Obj(fields: map<string, Json>)

  // What normalizeDDNSRules is given: a decoded request, or rules it returned.
  datatype RawRules = Decoded(json: Json) | Typed(rules: seq<Rule>)

  datatype Error =
    | NotAnArray
    | NotAnObject(index: nat)
    | PoolRequired(index: nat)
    | PoolDuplicated(pool: string)
    | DomainDuplicated(record: string)

  datatype Result<+T> = Ok(value: T) | Err(error: Error)

  function AnyToString(v: Json): string {
    if v.Str? then v.s else ""
  }

  function AnyToBool(v: Json, def: bool): bool {
    if v.Bool? then v.b else def
  }

  // A missing key reads as null, and so does every key of a non-object.
  function Field(item: Json, key: string): Json {
    if item.Obj? && key in item.fields then item.fields[key] else Null
  }

  function TrimmedField(item: Json, key: string): string {
    TrimSpace(AnyToString(Field(item, key)))
  }

  function RuleToJson(r: Rule): Json {
    Obj(map[
      "pool" := Str(r.pool),
      "cf_email" := Str(r.cfEmail),
      "cf_api_key" := Str(r.cfApiKey),
      "cf_zone_name" := Str(r.cfZoneName),
      "cf_api_token" := Str(r.cfApiToken),
      "cf_zone_id" := Str(r.cfZoneId),
      "record_name" := Str(r.recordName),
      "enabled" := Bool(r.enabled)])
  }

  const NO_RULE := Rule("", "", "", "", "", "", "", false)

  // The last stored rule of a pool.
  function StoredFor(stored: seq<Rule>, pool: string): Rule {
    if |stored| == 0 then NO_RULE
    else if TrimSpace(stored[|stored| - 1].pool) == pool then stored[|stored| - 1]
    else StoredFor(stored[..|stored| - 1], pool)
  }

  // A secret that is empty or holds an asterisk stands for the stored one.
  function Secret(submitted: string, stored: string): string {
    if '*' in submitted || submitted == "" then TrimSpace(stored) else submitted
  }

  function NormalItem(item: Json, stored: seq<Rule>): Rule {
    var pool := TrimmedField(item, "pool");
    var existing := StoredFor(stored, pool);
    Rule(
      pool,
      TrimmedField(item, "cf_email"),
      Secret(TrimmedField(item, "cf_api_key"), existing.cfApiKey),
      TrimmedField(item, "cf_zone_name"),
      Secret(TrimmedField(item, "cf_api_token"), existing.cfApiToken),
      TrimmedField(item, "cf_zone_id"),
      TrimmedField(item, "record_name"),
      AnyToBool(Field(item, "enabled"), true))
  }

  function NormalItems(items: seq<Json>, stored: seq<Rule>): (r: seq<Rule>)
    ensures |r| == |items|
  {
    seq(|items|, i requires 0 <= i < |items| => NormalItem(items[i], stored))
  }

  // What is wrong with item k once the items before it are accepted.
  function ItemError(items: seq<Json>, k: nat, stored: seq<Rule>): Option<Error>
    requires k < |items|
  {
    var r := NormalItem(items[k], stored);
    if !items[k].Obj? then Some(NotAnObject(k))
    else if r.pool == "" then Some(PoolRequired(k))
    else if exists j :: 0 <= j < k && NormalItem(items[j], stored).pool == r.pool then Some(PoolDuplicated(r.pool))
    else if r.recordName != "" && exists j :: 0 <= j < k && NormalItem(items[j], stored).recordName == r.recordName then
      Some(DomainDuplicated(r.recordName))
    else None
  }

  function NormalizeFrom(items: seq<Json>, k: nat, stored: seq<Rule>): Result<seq<Rule>>
    requires k <= |items|
    decreases |items| - k
  {
    if k == |items| then Ok(NormalItems(items, stored))
    else match ItemError(items, k, stored)
      case Some(e) => Err(e)
      case None => NormalizeFrom(items, k + 1, stored)
  }

  function RawItems(raw: RawRules): Option<seq<Json>> {
    match raw
    case Typed(rules) => Some(seq(|rules|, i requires 0 <= i < |rules| => RuleToJson(rules[i])))
    case Decoded(Arr(items)) => Some(items)
    case Decoded(_) => None
  }

  function Normalize(raw: RawRules, stored: seq<Rule>): Result<seq<Rule>> {
    match RawItems(raw)
    case None => Err(NotAnArray)
    case Some(items) => NormalizeFrom(items, 0, stored)
  }

  // What a stored rule list may look like

  predicate WellFormedRule(r: Rule) {
    && r.pool != ""
    && Trimmed(r.pool) && Trimmed(r.cfEmail) && Trimmed(r.cfApiKey) && Trimmed(r.cfZoneName)
    && Trimmed(r.cfApiToken) && Trimmed(r.cfZoneId) && Trimmed(r.recordName)
  }

  // Trimmed fields, one rule a pool, one pool a domain.
  ghost predicate WellFormed(rules: seq<Rule>) {
    && (forall i :: 0 <= i < |rules| ==> WellFormedRule(rules[i]))
    && (forall i, j :: 0 <= i < j < |rules| ==> rules[i].pool != rules[j].pool)
    && (forall i, j :: 0 <= i < j < |rules| && rules[j].recordName != "" ==> rules[i].recordName != rules[j].recordName)
  }

  lemma SecretTrimmed(submitted: string, stored: string)
    requires Trimmed(submitted)
    ensures Trimmed(Secret(submitted, stored))
  {
    TrimSpaceTrims(stored);
  }

  lemma NormalItemTrimmed(item: Json, stored: seq<Rule>)
    ensures NormalItem(item, stored).pool != "" ==> WellFormedRule(NormalItem(item, stored))
  {
    hide TrimSpace, Trimmed;
    var existing := StoredFor(stored, TrimmedField(item, "pool"));
    TrimSpaceTrims(AnyToString(Field(item, "pool")));
    TrimSpaceTrims(AnyToString(Field(item, "cf_email")));
    TrimSpaceTrims(AnyToString(Field(item, "cf_api_key")));
    TrimSpaceTrims(AnyToString(Field(item, "cf_zone_name")));
    TrimSpaceTrims(AnyToString(Field(item, "cf_api_token")));
    TrimSpaceTrims(AnyToString(Field(item, "cf_zone_id")));
    TrimSpaceTrims(AnyToString(Field(item, "record_name")));
    SecretTrimmed(TrimmedField(item, "cf_api_key"), existing.cfApiKey);
    SecretTrimmed(TrimmedField(item, "cf_api_token"), existing.cfApiToken);
  }

  // Normalisation succeeds exactly when no item is in error, and then returns
  // the items one by one.
  lemma {:induction false} NormalizeFromAll(items: seq<Json>, k: nat, stored: seq<Rule>)
    requires k <= |items|
    ensures NormalizeFrom(items, k, stored).Ok? <==>
      forall i :: k <= i < |items| ==> ItemError(items, i, stored).None?
    ensures NormalizeFrom(items, k, stored).Ok? ==> NormalizeFrom(items, k, stored).value == NormalItems(items, stored)
    decreases |items| - k
  {
    hide ItemError, NormalItem;
    if k < |items| {
      NormalizeFromAll(items, k + 1, stored);
    }
  }

  // What one rule of a well-formed list owes to the rules before it.
  ghost predicate FitsAfter(rules: seq<Rule>, i: nat)
    requires i < |rules|
  {
    && WellFormedRule(rules[i])
    && forall j :: 0 <= j < i ==>
         rules[j].pool != rules[i].pool && (rules[i].recordName != "" ==> rules[j].recordName != rules[i].recordName)
  }

  lemma WellFormedByItem(rules: seq<Rule>)
    ensures WellFormed(rules) <==> forall i :: 0 <= i < |rules| ==> FitsAfter(rules, i)
  {
    hide WellFormedRule;
    if WellFormed(rules) {
      forall i | 0 <= i < |rules| ensures FitsAfter(rules, i) {
      }
    }
    if forall i :: 0 <= i < |rules| ==> FitsAfter(rules, i) {
      forall i | 0 <= i < |rules| ensures WellFormedRule(rules[i]) {
        assert FitsAfter(rules, i);
      }
      forall i, j | 0 <= i < j < |rules|
        ensures rules[i].pool != rules[j].pool
        ensures rules[j].recordName != "" ==> rules[i].recordName != rules[j].recordName
      {
        assert FitsAfter(rules, j);
      }
    }
  }

  lemma ItemErrorNone(items: seq<Json>, k: nat, stored: seq<Rule>)
    requires k < |items|
    ensures ItemError(items, k, stored).None? <==> items[k].Obj? && FitsAfter(NormalItems(items, stored), k)
  {
    hide NormalItem, WellFormedRule;
    var rules := NormalItems(items, stored);
    assert forall j :: 0 <= j < |items| ==> rules[j] == NormalItem(items[j], stored);
    NormalItemTrimmed(items[k], stored);
    PoolOfWellFormed(rules[k]);
  }

  lemma NoErrorsIsWellFormed(items: seq<Json>, stored: seq<Rule>)
    ensures (forall i :: 0 <= i < |items| ==> ItemError(items, i, stored).None?) <==>
      WellFormed(NormalItems(items, stored)) && forall i :: 0 <= i < |items| ==> items[i].Obj?
  {
    hide *;
    WellFormedByItem(NormalItems(items, stored));
    forall i | 0 <= i < |items|
      ensures ItemError(items, i, stored).None? <==> items[i].Obj? && FitsAfter(NormalItems(items, stored), i)
    {
      ItemErrorNone(items, i, stored);
    }
  }

  lemma PoolOfWellFormed(r: Rule)
    ensures WellFormedRule(r) ==> r.pool != ""
  {
  }

  // A request is accepted exactly when all its items are objects and what they
  // normalise to is well formed.
  lemma NormalizeAccepts(items: seq<Json>, stored: seq<Rule>)
    ensures NormalizeFrom(items, 0, stored).Ok? <==>
      WellFormed(NormalItems(items, stored)) && forall i :: 0 <= i < |items| ==> items[i].Obj?
    ensures NormalizeFrom(items, 0, stored).Ok? ==> NormalizeFrom(items, 0, stored).value == NormalItems(items, stored)
  {
    hide *;
    NormalizeFromAll(items, 0, stored);
    NoErrorsIsWellFormed(items, stored);
  }

  // Whatever was submitted, what is stored is well formed.
  lemma NormalizeWellFormed(raw: RawRules, stored: seq<Rule>)
    ensures Normalize(raw, stored).Ok? ==> WellFormed(Normalize(raw, stored).value)
  {
    hide WellFormed, NormalizeFrom, RawItems;
    if RawItems(raw).Some? {
      NormalizeAccepts(RawItems(raw).value, stored);
    }
  }

  // Told by the fields of a submitted item, with the last stored rule of its pool
  // at i, or none if i is past the end: texts are trimmed, and what is not a text
  // is blank; a rule is enabled unless it says otherwise; a secret that is blank
  // or holds an asterisk stands for the stored one.
  lemma NormalItemByFields(item: Json, stored: seq<Rule>, i: nat)
    requires i <= |stored|
    ensures
      var text := (key: string) =>
        if item.Obj? && key in item.fields && item.fields[key].Str? then TrimSpace(item.fields[key].s) else "";
      var r := NormalItem(item, stored);
      var kept := i < |stored|;
      && r.pool == text("pool") && r.recordName == text("record_name") && r.cfEmail == text("cf_email")
      && r.cfZoneName == text("cf_zone_name") && r.cfZoneId == text("cf_zone_id")
      && (r.enabled <==>
           !(item.Obj? && "enabled" in item.fields && item.fields["enabled"] == Bool(false)))
      && (text("cf_api_token") != "" && '*' !in text("cf_api_token") ==> r.cfApiToken == text("cf_api_token"))
      && (text("cf_api_key") != "" && '*' !in text("cf_api_key") ==> r.cfApiKey == text("cf_api_key"))
      && ((kept ==> TrimSpace(stored[i].pool) == r.pool)
          && (forall j :: (if kept then i + 1 else 0) <= j < |stored| ==> TrimSpace(stored[j].pool) != r.pool) ==>
            && (text("cf_api_token") == "" || '*' in text("cf_api_token") ==>
                 r.cfApiToken == if kept then TrimSpace(stored[i].cfApiToken) else "")
            && (text("cf_api_key") == "" || '*' in text("cf_api_key") ==>
                 r.cfApiKey == if kept then TrimSpace(stored[i].cfApiKey) else ""))
  {
    assert TrimSpace("") == "";
    hide TrimSpace;
    StoredForLast(stored, TrimmedField(item, "pool"), i);
  }

  lemma {:induction false} StoredForLast(stored: seq<Rule>, pool: string, i: nat)
    requires i <= |stored|
    ensures
      && i < |stored| && TrimSpace(stored[i].pool) == pool
      && (forall j :: i < j < |stored| ==> TrimSpace(stored[j].pool) != pool) ==>
        StoredFor(stored, pool) == stored[i]
    ensures (forall j :: 0 <= j < |stored| ==> TrimSpace(stored[j].pool) != pool) ==>
      StoredFor(stored, pool) == NO_RULE
  {
    hide TrimSpace;
    if |stored| > 0 {
      var n := |stored| - 1;
      StoredForLast(stored[..n], pool, if i <= n then i else n);
    }
  }

  // What is wrong with the first item that is not accepted: it is not an object,
  // has no pool, has the pool of an earlier one, or else its domain.
  lemma FirstErrorIs(items: seq<Json>, stored: seq<Rule>, k: nat)
    requires k < |items|
    ensures
      var rules, result := NormalItems(items, stored), NormalizeFrom(items, 0, stored);
      var r := rules[k];
      var samePool := exists j :: 0 <= j < k && rules[j].pool == r.pool;
      var sameDomain := r.recordName != "" && exists j :: 0 <= j < k && rules[j].recordName == r.recordName;
      NormalizeFrom(items[..k], 0, stored).Ok? ==>
        if !items[k].Obj? then result == Err(NotAnObject(k))
        else if r.pool == "" then result == Err(PoolRequired(k))
        else if samePool then result == Err(PoolDuplicated(r.pool))
        else if sameDomain then result == Err(DomainDuplicated(r.recordName))
        else NormalizeFrom(items[..k + 1], 0, stored).Ok?
  {
    hide *;
    if NormalizeFrom(items[..k], 0, stored).Ok? {
      PrefixAccepted(items, stored, k);
      NormalizeSkips(items, stored, 0, k);
      NormalizeStep(items, k, stored);
      ErrorOf(items, stored, k);
      PrefixAccepted(items, stored, k + 1);
    }
  }

  lemma PrefixAccepted(items: seq<Json>, stored: seq<Rule>, k: nat)
    requires k <= |items|
    ensures NormalizeFrom(items[..k], 0, stored).Ok? <==> forall i :: 0 <= i < k ==> ItemError(items, i, stored).None?
  {
    hide NormalizeFrom, NormalItem;
    NormalizeFromAll(items[..k], 0, stored);
    assert forall i :: 0 <= i < k ==> ItemError(items[..k], i, stored) == ItemError(items, i, stored);
  }

  lemma {:induction false} NormalizeSkips(items: seq<Json>, stored: seq<Rule>, i: nat, k: nat)
    requires i <= k <= |items| && forall m :: i <= m < k ==> ItemError(items, m, stored).None?
    ensures NormalizeFrom(items, i, stored) == NormalizeFrom(items, k, stored)
    decreases k - i
  {
    hide ItemError;
    if i < k {
      NormalizeSkips(items, stored, i + 1, k);
    }
  }

  lemma ErrorOf(items: seq<Json>, stored: seq<Rule>, k: nat)
    requires k < |items|
    ensures
      var rules := NormalItems(items, stored);
      var r := rules[k];
      ItemError(items, k, stored) ==
        if !items[k].Obj? then Some(NotAnObject(k))
        else if r.pool == "" then Some(PoolRequired(k))
        else if exists j :: 0 <= j < k && rules[j].pool == r.pool then Some(PoolDuplicated(r.pool))
        else if r.recordName != "" && exists j :: 0 <= j < k && rules[j].recordName == r.recordName then
          Some(DomainDuplicated(r.recordName))
        else None
  {
    hide NormalItem;
    var rules := NormalItems(items, stored);
    assert forall j :: 0 <= j < |items| ==> rules[j] == NormalItem(items[j], stored);
  }

  // A decoded request is refused outright exactly if it is not an array; any other
  // error names one of its items.
  lemma NonArraysRefused(raw: RawRules, stored: seq<Rule>)
    ensures Normalize(raw, stored) == Err(NotAnArray) <==> raw.Decoded? && !raw.json.Arr?
    ensures raw.Decoded? && raw.json.Arr? ==> Normalize(raw, stored) == NormalizeFrom(raw.json.items, 0, stored)
  {
    hide NormalizeFrom;
    if RawItems(raw).Some? {
      ItemsAreNamed(RawItems(raw).value, 0, stored);
    }
  }

  lemma {:induction false} ItemsAreNamed(items: seq<Json>, k: nat, stored: seq<Rule>)
    requires k <= |items|
    ensures NormalizeFrom(items, k, stored) != Err(NotAnArray)
    decreases |items| - k
  {
    hide NormalItem;
    if k < |items| {
      ItemsAreNamed(items, k + 1, stored);
    }
  }

  // Masking

  const STARS: nat := 4

  function Stars(n: nat): (r: string)
    ensures |r| == n
    ensures forall i :: 0 <= i < n ==> r[i] == '*'
  {
    if n == 0 then "" else "*" + Stars(n - 1)
  }

  // Shows at most the last four characters.
  function Mask(s: string): string {
    if |s| > STARS then Stars(|s| - STARS) + s[|s| - STARS..] else s
  }

  function MaskedRule(r: Rule): Json {
    RuleToJson(r.(cfApiToken := Mask(r.cfApiToken), cfApiKey := Mask(r.cfApiKey)))
  }

  // The rule list GetConfig returns.
  function MaskedRules(rules: seq<Rule>): seq<Json> {
    seq(|rules|, i requires 0 <= i < |rules| => MaskedRule(rules[i]))
  }

  // What a secret is shown as: all of it if it has at most four characters, else
  // its last four with an asterisk for each of the others.
  predicate HidesAllButEnd(shown: string, secret: string) {
    && |shown| == |secret|
    && (|secret| <= 4 ==> shown == secret)
    && (|secret| > 4 ==>
         && shown[|shown| - 4..] == secret[|secret| - 4..]
         && forall i :: 0 <= i < |shown| - 4 ==> shown[i] == '*')
  }

  // An item that hides the two secrets of a rule and shows the rest as it is.
  ghost predicate HidesSecrets(item: Json, r: Rule) {
    && item.Obj?
    && item.fields.Keys == {"pool", "cf_email", "cf_api_key", "cf_zone_name", "cf_api_token", "cf_zone_id",
                            "record_name", "enabled"}
    && item.fields["pool"] == Str(r.pool) && item.fields["record_name"] == Str(r.recordName)
    && item.fields["cf_email"] == Str(r.cfEmail) && item.fields["cf_zone_name"] == Str(r.cfZoneName)
    && item.fields["cf_zone_id"] == Str(r.cfZoneId) && item.fields["enabled"] == Bool(r.enabled)
    && item.fields["cf_api_token"].Str? && HidesAllButEnd(item.fields["cf_api_token"].s, r.cfApiToken)
    && item.fields["cf_api_key"].Str? && HidesAllButEnd(item.fields["cf_api_key"].s, r.cfApiKey)
  }

  lemma MaskHides(secret: string)
    ensures HidesAllButEnd(Mask(secret), secret)
  {
  }

  lemma MaskedRuleHides(r: Rule)
    ensures HidesSecrets(MaskedRule(r), r)
  {
    hide Mask, HidesAllButEnd;
    MaskHides(r.cfApiToken);
    MaskHides(r.cfApiKey);
    var fields := MaskedRule(r).fields;
    assert fields["cf_api_token"] == Str(Mask(r.cfApiToken)) && fields["cf_api_key"] == Str(Mask(r.cfApiKey));
  }

  // A secret as it may come back: untouched, or masked in any way that leaves an
  // asterisk in it.
  predicate StandsFor(shown: string, secret: string) {
    shown == secret || '*' in shown
  }

  // An item that shows a stored rule.
  ghost predicate Shows(item: Json, r: Rule) {
    && item.Obj?
    && Field(item, "pool") == Str(r.pool)
    && Field(item, "cf_email") == Str(r.cfEmail)
    && Field(item, "cf_zone_name") == Str(r.cfZoneName)
    && Field(item, "cf_zone_id") == Str(r.cfZoneId)
    && Field(item, "record_name") == Str(r.recordName)
    && Field(item, "enabled") == Bool(r.enabled)
    && Field(item, "cf_api_token").Str? && StandsFor(Field(item, "cf_api_token").s, r.cfApiToken)
    && Field(item, "cf_api_key").Str? && StandsFor(Field(item, "cf_api_key").s, r.cfApiKey)
  }

  lemma {:induction false} StoredForUnique(stored: seq<Rule>, i: nat)
    requires WellFormed(stored) && i < |stored|
    ensures StoredFor(stored, stored[i].pool) == stored[i]
  {
    var n := |stored| - 1;
    TrimSpaceTrims(stored[n].pool);
    if i < n {
      StoredForUnique(stored[..n], i);
    }
  }

  lemma SecretRestored(shown: string, secret: string)
    requires StandsFor(shown, secret) && Trimmed(secret)
    ensures Secret(TrimSpace(shown), secret) == secret
  {
    TrimSpaceTrims(secret);
    if '*' in shown {
      TrimSpaceKeeps(shown, '*');
    }
  }

  // An item that shows rule i of a well-formed list normalises to that rule.
  lemma ShownItemRestored(item: Json, stored: seq<Rule>, i: nat)
    requires WellFormed(stored) && i < |stored| && Shows(item, stored[i])
    ensures NormalItem(item, stored) == stored[i]
  {
    hide TrimSpace, Trimmed, Secret, StandsFor, StoredFor;
    var r := stored[i];
    assert WellFormedRule(r);
    TrimSpaceTrims(r.pool);
    TrimSpaceTrims(r.cfEmail);
    TrimSpaceTrims(r.cfZoneName);
    TrimSpaceTrims(r.cfZoneId);
    TrimSpaceTrims(r.recordName);
    StoredForUnique(stored, i);
    SecretRestored(Field(item, "cf_api_token").s, r.cfApiToken);
    SecretRestored(Field(item, "cf_api_key").s, r.cfApiKey);
  }

  // A list that shows the stored rules, however masked, normalises to exactly
  // the stored rules if and only if these are well formed.
  lemma ShownRestored(items: seq<Json>, stored: seq<Rule>)
    requires |items| == |stored| && forall i :: 0 <= i < |items| ==> Shows(items[i], stored[i])
    ensures NormalizeFrom(items, 0, stored) == Ok(stored) <==> WellFormed(stored)
  {
    hide Shows, WellFormed, NormalItem, NormalizeFrom;
    NormalizeAccepts(items, stored);
    forall i | 0 <= i < |items| ensures items[i].Obj? {
      ShowsObject(items[i], stored[i]);
    }
    if WellFormed(stored) {
      forall i | 0 <= i < |items| ensures NormalItem(items[i], stored) == stored[i] {
        ShownItemRestored(items[i], stored, i);
      }
      assert NormalItems(items, stored) == stored;
    }
  }

  lemma ShowsObject(item: Json, r: Rule)
    requires Shows(item, r)
    ensures item.Obj?
  {
  }

  lemma MaskStandsFor(secret: string)
    ensures StandsFor(Mask(secret), secret)
  {
  }

  lemma RuleShown(r: Rule, shown: Rule)
    requires shown == r.(cfApiToken := shown.cfApiToken, cfApiKey := shown.cfApiKey)
    requires StandsFor(shown.cfApiToken, r.cfApiToken) && StandsFor(shown.cfApiKey, r.cfApiKey)
    ensures Shows(RuleToJson(shown), r)
  {
    var item := RuleToJson(shown);
    assert item.fields["pool"] == Str(r.pool) && item.fields["cf_email"] == Str(r.cfEmail);
  }

  // Reading the rules with GetConfig and submitting them unchanged restores
  // them, secrets included, exactly when they are well formed.
  lemma MaskRoundTrip(stored: seq<Rule>)
    ensures Normalize(Decoded(Arr(MaskedRules(stored))), stored) == Ok(stored) <==> WellFormed(stored)
  {
    var items := MaskedRules(stored);
    hide NormalizeFrom, WellFormed, Shows, RuleToJson, Mask, StandsFor;
    forall i | 0 <= i < |items| ensures Shows(items[i], stored[i]) {
      MaskStandsFor(stored[i].cfApiToken);
      MaskStandsFor(stored[i].cfApiKey);
      RuleShown(stored[i], stored[i].(cfApiToken := Mask(stored[i].cfApiToken), cfApiKey := Mask(stored[i].cfApiKey)));
    }
    ShownRestored(items, stored);
  }

  // Normalising a stored list again returns it, exactly when it is well formed.
  lemma NormalizeStored(stored: seq<Rule>)
    ensures Normalize(Typed(stored), stored) == Ok(stored) <==> WellFormed(stored)
  {
    hide NormalizeFrom, WellFormed, Shows, RuleToJson, StandsFor;
    var items := RawItems(Typed(stored)).value;
    forall i | 0 <= i < |items| ensures Shows(items[i], stored[i]) {
      StandsForItself(stored[i].cfApiToken);
      StandsForItself(stored[i].cfApiKey);
      RuleShown(stored[i], stored[i]);
    }
    ShownRestored(items, stored);
  }

  lemma StandsForItself(secret: string)
    ensures StandsFor(secret, secret)
  {
  }

  // So the second normalisation in UpdateConfig, after saving, changes nothing.
  lemma NormalizeTwice(raw: RawRules, stored: seq<Rule>)
    ensures Normalize(raw, stored).Ok? ==>
      var rules := Normalize(raw, stored).value;
      Normalize(Typed(rules), rules) == Ok(rules)
  {
    hide *;
    if Normalize(raw, stored).Ok? {
      NormalizeWellFormed(raw, stored);
      NormalizeStored(Normalize(raw, stored).value);
    }
  }

  // The handlers

  // The pool and domain sets are kept while the items are read one by one.
  method NormalizeDdnsRules(db: Store, raw: RawRules) returns (r: Result<seq<Rule>>)
    ensures r == Normalize(raw, db.rules)
  {
    var stored := db.rules;
    var existingByPool: map<string, Rule> := map[];
    for i := 0 to |stored|
      invariant forall p :: StoredFor(stored[..i], p) == if p in existingByPool then existingByPool[p] else NO_RULE
    {
      assert stored[..i + 1][..i] == stored[..i];
      existingByPool := existingByPool[TrimSpace(stored[i].pool) := stored[i]];
    }
    assert stored[..|stored|] == stored;
    var items := RawItems(raw);
    if items.None? {
      return Err(NotAnArray);
    }
    r := NormalizeItems(items.value, existingByPool, stored);
  }

  lemma NormalizeStep(items: seq<Json>, k: nat, stored: seq<Rule>)
    requires k < |items|
    ensures NormalizeFrom(items, k, stored) ==
      match ItemError(items, k, stored)
      case Some(e) => Err(e)
      case None => NormalizeFrom(items, k + 1, stored)
  {
    hide ItemError;
  }

  lemma NormalizeEnd(items: seq<Json>, stored: seq<Rule>)
    ensures NormalizeFrom(items, |items|, stored) == Ok(NormalItems(items, stored))
    ensures NormalItems(items, stored)[..|items|] == NormalItems(items, stored)
  {
  }

  method NormalizeItems(items: seq<Json>, existingByPool: map<string, Rule>, ghost stored: seq<Rule>)
    returns (r: Result<seq<Rule>>)
    requires forall p :: StoredFor(stored, p) == if p in existingByPool then existingByPool[p] else NO_RULE
    ensures r == NormalizeFrom(items, 0, stored)
  {
    hide NormalItem, NormalizeFrom;
    var seenPool: set<string>, seenDomain: set<string> := {}, {};
    var result: seq<Rule> := [];
    for i := 0 to |items|
      invariant NormalizeFrom(items, 0, stored) == NormalizeFrom(items, i, stored)
      invariant result == NormalItems(items, stored)[..i]
      invariant forall p :: p in seenPool <==> exists j :: 0 <= j < i && NormalItem(items[j], stored).pool == p
      invariant forall d :: d in seenDomain <==>
        d != "" && exists j :: 0 <= j < i && NormalItem(items[j], stored).recordName == d
    {
      NormalizeStep(items, i, stored);
      if !items[i].Obj? {
        return Err(NotAnObject(i));
      }
      var rule := ReadItem(items[i], existingByPool, stored);
      if rule.pool == "" {
        return Err(PoolRequired(i));
      }
      if rule.pool in seenPool {
        return Err(PoolDuplicated(rule.pool));
      }
      seenPool := seenPool + {rule.pool};
      if rule.recordName != "" {
        if rule.recordName in seenDomain {
          return Err(DomainDuplicated(rule.recordName));
        }
        seenDomain := seenDomain + {rule.recordName};
      }
      result := result + [rule];
    }
    NormalizeEnd(items, stored);
    r := Ok(result);
  }

  method ReadItem(item: Json, existingByPool: map<string, Rule>, ghost stored: seq<Rule>) returns (rule: Rule)
    requires forall p :: StoredFor(stored, p) == if p in existingByPool then existingByPool[p] else NO_RULE
    ensures rule == NormalItem(item, stored)
  {
    hide TrimSpace;
    var pool := TrimmedField(item, "pool");
    var token := TrimmedField(item, "cf_api_token");
    var apiKey := TrimmedField(item, "cf_api_key");
    var existing := if pool in existingByPool then existingByPool[pool] else NO_RULE;
    if '*' in token || token == "" {
      token := TrimSpace(existing.cfApiToken);
    }
    if '*' in apiKey || apiKey == "" {
      apiKey := TrimSpace(existing.cfApiKey);
    }
    rule := Rule(pool, TrimmedField(item, "cf_email"), apiKey, TrimmedField(item, "cf_zone_name"), token,
                 TrimmedField(item, "cf_zone_id"), TrimmedField(item, "record_name"),
                 AnyToBool(Field(item, "enabled"), true));
  }

  // Saves submitted rules; `applied` is the list the save then acts on.
  method UpdateRules(db: Store, raw: RawRules) returns (saved: Result<seq<Rule>>, applied: Result<seq<Rule>>)
    modifies db
    ensures saved == Normalize(raw, old(db.rules)) && applied == saved
    ensures db.Contents() == if saved.Ok? then old(db.Contents()).(rules := saved.value) else old(db.Contents())
    ensures saved.Ok? ==> WellFormed(db.rules)
  {
    hide Normalize, WellFormed;
    saved := NormalizeDdnsRules(db, raw);
    if saved.Err? {
      return saved, saved;
    }
    NormalizeWellFormed(raw, db.rules);
    NormalizeTwice(raw, db.rules);
    db.rules := saved.value;
    applied := NormalizeDdnsRules(db, Typed(saved.value));
  }

  lemma RuleFields(r: Rule)
    ensures
      var j := RuleToJson(r);
      && j.Obj? && "cf_api_token" in j.fields && "cf_api_key" in j.fields
      && j.fields["cf_api_token"] == Str(r.cfApiToken) && j.fields["cf_api_key"] == Str(r.cfApiKey)
      && MaskedRule(r) ==
           Obj(j.fields["cf_api_token" := Str(Mask(r.cfApiToken))]["cf_api_key" := Str(Mask(r.cfApiKey))])
  {
    hide Mask;
    var masked := MaskedRule(r);
    var j := RuleToJson(r);
    assert j.fields["cf_api_token" := Str(Mask(r.cfApiToken))]["cf_api_key" := Str(Mask(r.cfApiKey))] == masked.fields;
  }

  // Masks the decoded rule list in place.
  method MaskRules(db: Store) returns (arr: seq<Json>)
    ensures arr == MaskedRules(db.rules)
    ensures |arr| == |db.rules| && forall i :: 0 <= i < |arr| ==> HidesSecrets(arr[i], db.rules[i])
  {
    hide Mask, RuleToJson, MaskedRule, HidesSecrets;
    var rules := db.rules;
    arr := seq(|rules|, i requires 0 <= i < |rules| => RuleToJson(rules[i]));
    for i := 0 to |arr|
      invariant |arr| == |rules|
      invariant forall k :: 0 <= k < i ==> arr[k] == MaskedRule(rules[k])
      invariant forall k :: i <= k < |arr| ==> arr[k] == RuleToJson(rules[k])
    {
      RuleFields(rules[i]);
      var fields := arr[i].fields;
      fields := fields["cf_api_token" := Str(Mask(fields["cf_api_token"].s))];
      fields := fields["cf_api_key" := Str(Mask(fields["cf_api_key"].s))];
      arr := arr[i := Obj(fields)];
    }
    forall i | 0 <= i < |arr| ensures HidesSecrets(arr[i], rules[i]) {
      MaskedRuleHides(rules[i]);
    }
  }
}
