/** Wire events after decoding, verified claims, and the per-event validity check
    (services/ingest/internal/validate/validate.go). Strings are byte strings. */
module Events {
  import opened Wrappers
  import opened Clock
  import opened Keys

  const MAX_EVENTS_PER_BATCH := 500
  const MAX_PROPS_PER_EVENT := 50
  const MAX_NAME_LEN := 255
  const MAX_PROP_KEY_LEN := 128

  /** 1900-01-01 and the last millisecond of 2299, in milliseconds since the epoch. */
  const MIN_TS_CLIENT_MS: Int64 := -2_208_988_800_000
  const MAX_TS_CLIENT_MS: Int64 := 10_413_791_999_999

  datatype Float = Finite(x: real) | NaN | Infinite(positive: bool)

  datatype Value = Text(s: string) | Number(f: Float) | Bool(b: bool) | Unset

  datatype Prop = Prop(key: string, value: Value)

  datatype Context = Context(appVersion: string, sdkVersion: string, os: string, osVersion: string, locale: string)

  /** The properties stand in the order in which one iteration over them visits the keys;
      that order is the runtime's choice. */
  datatype RawEvent = RawEvent(
    eventId: string, name: string, tsClient: Int64, userId: string, anonymousId: string,
    deviceId: string, sessionId: string, seqNo: nat, context: Context, props: seq<Prop>)

  predicate DistinctKeys(props: seq<Prop>) {
    forall i, j :: 0 <= i < j < |props| ==> props[i].key != props[j].key
  }

  type Event = e: RawEvent | DistinctKeys(e.props)
    witness RawEvent("", "", 0, "", "", "", "", 0, Context("", "", "", "", ""), [])

  /** What a verified token says about its bearer. */
  datatype Claims = Claims(tenantId: string, installId: InstallId, scope: string, trustTier: nat)

  datatype Code =
    | MissingEventId | BadEventId | MissingName | NameTooLong | MissingDeviceId | BadTsClient
    | TooManyProps | PropKeyTooLong | InvalidPropertyType

  predicate IsLowerHex(c: char) {
    '0' <= c <= '9' || 'a' <= c <= 'f'
  }

  /** The canonical rendering of a UUID: lower case, dashes after 8, 12, 16 and 20 digits. */
  predicate CanonicalUuid(s: string) {
    |s| == 36 &&
    forall i :: 0 <= i < 36 ==> if i in {8, 13, 18, 23} then s[i] == '-' else IsLowerHex(s[i])
  }

  function CheckProp(p: Prop): Option<Code> {
    if |p.key| > MAX_PROP_KEY_LEN then Some(PropKeyTooLong)
    else match p.value
      case Number(NaN) => Some(InvalidPropertyType)
      case Number(Infinite(_)) => Some(InvalidPropertyType)
      case Unset => Some(InvalidPropertyType)
      case _ => None
  }

  /** The first problem the iteration meets. */
  function CheckProps(props: seq<Prop>): Option<Code> {
    if props == [] then None
    else if CheckProp(props[0]).Some? then CheckProp(props[0])
    else CheckProps(props[1..])
  }

  /** None for a storable event, otherwise the first problem found. */
  function Validate(e: Event): Option<Code> {
    if e.eventId == "" then Some(MissingEventId)
    else if !CanonicalUuid(e.eventId) then Some(BadEventId)
    else if e.name == "" then Some(MissingName)
    else if |e.name| > MAX_NAME_LEN then Some(NameTooLong)
    else if e.deviceId == "" then Some(MissingDeviceId)
    else if e.tsClient < MIN_TS_CLIENT_MS || e.tsClient > MAX_TS_CLIENT_MS then Some(BadTsClient)
    else if |e.props| > MAX_PROPS_PER_EVENT then Some(TooManyProps)
    else CheckProps(e.props)
  }

  predicate Valid(e: Event) {
    Validate(e).None?
  }

  lemma {:induction false} CheckPropsMeaning(props: seq<Prop>)
    ensures CheckProps(props).None? <==> forall p :: p in props ==> CheckProp(p).None?
    ensures CheckProps(props).Some? ==> exists p :: p in props && CheckProp(p) == CheckProps(props)
  {
    if props != [] {
      CheckPropsMeaning(props[1..]);
      assert props == [props[0]] + props[1..];
    }
  }

  /** Whether an event is accepted does not depend on the order its properties are visited in;
      only which of several complaints is reported may. */
  lemma ValidityIgnoresPropertyOrder(e: Event, props: seq<Prop>)
    requires DistinctKeys(props) && multiset(props) == multiset(e.props)
    ensures Valid(e) <==> Valid(e.(props := props))
  {
    assert |props| == |multiset(props)| && |e.props| == |multiset(e.props)|;
    CheckPropsMeaning(props);
    CheckPropsMeaning(e.props);
    assert forall p :: p in props <==> p in multiset(props);
    assert forall p :: p in e.props <==> p in multiset(e.props);
  }

  /** What the table can hold, said without an order of checks. */
  ghost predicate Storable(e: Event) {
    && CanonicalUuid(e.eventId)
    && 1 <= |e.name| <= MAX_NAME_LEN
    && |e.deviceId| >= 1
    && MIN_TS_CLIENT_MS <= e.tsClient <= MAX_TS_CLIENT_MS
    && |e.props| <= MAX_PROPS_PER_EVENT
    && (forall p :: p in e.props ==> |p.key| <= MAX_PROP_KEY_LEN && !p.value.Unset? && (p.value.Number? ==> p.value.f.Finite?))
  }

  /** The chain of early returns lets through exactly the storable events. */
  lemma ValidIffStorable(e: Event)
    ensures Valid(e) <==> Storable(e)
  {
    CheckPropsMeaning(e.props);
    forall p | p in e.props
      ensures CheckProp(p).None? <==>
              |p.key| <= MAX_PROP_KEY_LEN && !p.value.Unset? && (p.value.Number? ==> p.value.f.Finite?)
    {
    }
  }

  /** Each code names the first bound an event misses, every earlier one being met; of several bad
      properties any may be named, but the complaint is true of one. */
  lemma CodeNamesTheBound(e: Event)
    ensures Validate(e) == Some(MissingEventId) <==> |e.eventId| == 0
    ensures Validate(e) == Some(BadEventId) <==> |e.eventId| > 0 && !CanonicalUuid(e.eventId)
    ensures Validate(e) == Some(MissingName) <==> CanonicalUuid(e.eventId) && |e.name| == 0
    ensures Validate(e) == Some(NameTooLong) <==> CanonicalUuid(e.eventId) && |e.name| > MAX_NAME_LEN
    ensures var named := CanonicalUuid(e.eventId) && 1 <= |e.name| <= MAX_NAME_LEN;
            var timed := named && |e.deviceId| >= 1 && MIN_TS_CLIENT_MS <= e.tsClient <= MAX_TS_CLIENT_MS;
            && (Validate(e) == Some(MissingDeviceId) <==> named && |e.deviceId| == 0)
            && (Validate(e) == Some(BadTsClient) <==>
                  named && |e.deviceId| >= 1 && !(MIN_TS_CLIENT_MS <= e.tsClient <= MAX_TS_CLIENT_MS))
            && (Validate(e) == Some(TooManyProps) <==> timed && |e.props| > MAX_PROPS_PER_EVENT)
            && (Validate(e) == Some(PropKeyTooLong) ==>
                  timed && |e.props| <= MAX_PROPS_PER_EVENT && exists p :: p in e.props && |p.key| > MAX_PROP_KEY_LEN)
            && (Validate(e) == Some(InvalidPropertyType) ==>
                  timed && |e.props| <= MAX_PROPS_PER_EVENT
                  && exists p :: p in e.props && |p.key| <= MAX_PROP_KEY_LEN
                                 && (p.value.Unset? || (p.value.Number? && !p.value.f.Finite?)))
  {
    CheckPropsMeaning(e.props);
    PropCodes(e.props);
  }

  lemma {:induction false} PropCodes(props: seq<Prop>)
    ensures CheckProps(props) in {None, Some(PropKeyTooLong), Some(InvalidPropertyType)}
    ensures CheckProps(props) == Some(PropKeyTooLong) ==> exists p :: p in props && |p.key| > MAX_PROP_KEY_LEN
    ensures CheckProps(props) == Some(InvalidPropertyType) ==>
              exists p :: p in props && |p.key| <= MAX_PROP_KEY_LEN
                          && (p.value.Unset? || (p.value.Number? && !p.value.f.Finite?))
  {
    if props != [] {
      PropCodes(props[1..]);
      assert props[0] in props;
    }
  }
}
