/**
 * The card that edits one date hint: a single raw value `_date` with hour,
 * minute and date projections derived from it, the setters that rewrite it,
 * the search for the node to replace and the commit (`insert`).
 */
module DateOverwriteCard {
  import opened Wrappers
  import opened Decimal
  import opened Strings
  import opened Moments
  import opened Rdfa
  import opened DateOverwritePlugin

  // ---------------------------------------------------------------------------
  // Projections of the card's state: `info` (the hint's info) and `_date`.

  /** `isDateTime`: the hint's datatype is exactly the full `dateTime` URI. */
  predicate IsDateTime(info: HintInfo) {
    info.dataType == Some(XsdDateTime)
  }

  /** `isValidValue`. */
  predicate IsValidValue(lib: MomentLib, date: Option<string>) {
    ParseRaw(lib, date).Some?
  }

  /** `updatedDate`: the parsed `_date` when it is valid, otherwise `null`. */
  function UpdatedDate(lib: MomentLib, date: Option<string>): (r: Option<ValidMoment>)
    ensures r.None? <==> !IsValidValue(lib, date)
    ensures r.Some? ==> lib.parse(date.value) == r
  {
    if IsValidValue(lib, date) then ParseRaw(lib, date) else None
  }

  /** `hours`: the decimal text of the hour of `_date`, or `null` when `_date` is not valid. */
  function Hours(lib: MomentLib, date: Option<string>): (r: Option<string>)
    ensures r.None? <==> !IsValidValue(lib, date)
    ensures r.Some? ==> r.value != "" && AllDigits(r.value) && (|r.value| > 1 ==> r.value[0] != '0')
    ensures r.Some? ==> ToNumber(r.value) == Some(UpdatedDate(lib, date).value.hour)
  {
    if IsValidValue(lib, date) then
      var h := ParseRaw(lib, date).value.hour;
      NumberOfNatToString(h);
      Some(NatToString(h))
    else None
  }

  /** `minutes`: the decimal text of the minute of `_date`, or `null` when `_date` is not valid. */
  function Minutes(lib: MomentLib, date: Option<string>): (r: Option<string>)
    ensures r.None? <==> !IsValidValue(lib, date)
    ensures r.Some? ==> r.value != "" && AllDigits(r.value) && (|r.value| > 1 ==> r.value[0] != '0')
    ensures r.Some? ==> ToNumber(r.value) == Some(UpdatedDate(lib, date).value.minute)
  {
    if IsValidValue(lib, date) then
      var m := ParseRaw(lib, date).value.minute;
      NumberOfNatToString(m);
      Some(NatToString(m))
    else None
  }

  /** JavaScript truthiness of an optional text. */
  predicate Truthy(s: Option<string>) {
    s.Some? && s.value != ""
  }

  /** `isValidInput`. */
  predicate IsValidInput(lib: MomentLib, info: HintInfo, date: Option<string>) {
    UpdatedDate(lib, date).Some? &&
    (!IsDateTime(info) || (Truthy(Minutes(lib, date)) && Truthy(Hours(lib, date))))
  }

  /** `isInvalidInput`. */
  predicate IsInvalidInput(lib: MomentLib, info: HintInfo, date: Option<string>) {
    !IsValidInput(lib, info, date)
  }

  /**
   * Hours and minutes are non-empty text whenever `_date` is valid, so the
   * date-time clause never rejects: the input is valid exactly when `_date` is.
   */
  lemma ValidInputIffValidValue(lib: MomentLib, info: HintInfo, date: Option<string>)
    ensures IsValidInput(lib, info, date) <==> IsValidValue(lib, date)
    ensures IsInvalidInput(lib, info, date) <==> !IsValidValue(lib, date)
  {
  }

  /**
   * A card opened on a published hint is a date-time card iff the hint's block was
   * typed with the full `dateTime` URI, and a date card otherwise.
   */
  lemma CardKindOfPublishedHint(blocks: seq<Block>, hrId: HrId, h: Hint)
    requires AllHaveContext(blocks) && h in Hints(blocks, hrId)
    ensures IsDateTime(h.info) ==> h.info.dataType == Some(XsdDateTime)
    ensures !IsDateTime(h.info) ==> h.info.dataType == Some(XsdDate)
  {
    PublishedHintShape(blocks, hrId, h);
  }

  /** The short form `xsd:dateTime` does not make a date-time card: no alias is expanded here. */
  lemma ShortFormNotDateTime(info: HintInfo)
    requires info.dataType == Some("xsd:dateTime")
    ensures !IsDateTime(info)
  {
  }

  // ---------------------------------------------------------------------------
  // The new `_date` after each action.

  /** `x || 0` for an optional numeric text, followed by the setter's numeric coercion. */
  function OrZero(s: Option<string>): Option<int> {
    if Truthy(s) then ToNumber(s.value) else Some(0)
  }

  /** `_date` after `setHours(h)`. */
  function AfterSetHours(lib: MomentLib, date: Option<string>, h: string): Option<string> {
    if h == "" then date else ToIsoString(lib, SetHour(ParseRaw(lib, date), ToNumber(h)))
  }

  /** `_date` after `setMinutes(m)`. */
  function AfterSetMinutes(lib: MomentLib, date: Option<string>, m: string): Option<string> {
    if m == "" then date else ToIsoString(lib, SetMinute(ParseRaw(lib, date), ToNumber(m)))
  }

  /** `_date` after `updateDate(v)`. */
  function AfterUpdateDate(lib: MomentLib, date: Option<string>, v: string): Option<string> {
    var picked := lib.parse(v);
    if picked.None? then date
    else ToIsoString(lib, SetMinute(SetHour(picked, OrZero(Hours(lib, date))), OrZero(Minutes(lib, date))))
  }

  /**
   * A non-empty numeric hour changes the hour of `_date` and nothing else (an
   * hour past 23 carries into the date); hours and minutes read back accordingly.
   */
  lemma SetHoursChangesOnlyHour(lib: MomentLib, date: Option<string>, h: string, n: int)
    requires RoundTrips(lib)
    requires IsValidValue(lib, date) && h != "" && ToNumber(h) == Some(n)
    ensures ParseRaw(lib, AfterSetHours(lib, date, h)) == Some(WithHour(UpdatedDate(lib, date).value, n))
    ensures 0 <= n < 24 ==> UpdatedDate(lib, AfterSetHours(lib, date, h)) == Some(UpdatedDate(lib, date).value.(hour := n))
    ensures 0 <= n < 24 ==> Hours(lib, AfterSetHours(lib, date, h)) == Some(NatToString(n))
    ensures Minutes(lib, AfterSetHours(lib, date, h)) == Minutes(lib, date)
  {
  }

  /** A non-empty numeric minute changes the minute of `_date` and nothing else, up to carry. */
  lemma SetMinutesChangesOnlyMinute(lib: MomentLib, date: Option<string>, m: string, n: int)
    requires RoundTrips(lib)
    requires IsValidValue(lib, date) && m != "" && ToNumber(m) == Some(n)
    ensures ParseRaw(lib, AfterSetMinutes(lib, date, m)) == Some(WithMinute(UpdatedDate(lib, date).value, n))
    ensures 0 <= n < 60 ==> UpdatedDate(lib, AfterSetMinutes(lib, date, m)) == Some(UpdatedDate(lib, date).value.(minute := n))
    ensures 0 <= n < 60 ==> Minutes(lib, AfterSetMinutes(lib, date, m)) == Some(NatToString(n))
    ensures 0 <= n < 60 ==> Hours(lib, AfterSetMinutes(lib, date, m)) == Hours(lib, date)
  {
  }

  /** On an invalid `_date` a setter with a non-empty argument leaves `_date` null. */
  lemma SettersOnInvalidDate(lib: MomentLib, date: Option<string>, x: string)
    requires !IsValidValue(lib, date) && x != ""
    ensures AfterSetHours(lib, date, x) == None && AfterSetMinutes(lib, date, x) == None
  {
  }

  /** A non-numeric argument is ignored by moment: the moment is only re-serialised. */
  lemma SettersIgnoreNaN(lib: MomentLib, date: Option<string>, x: string)
    requires RoundTrips(lib)
    requires IsValidValue(lib, date) && x != "" && ToNumber(x).None?
    ensures UpdatedDate(lib, AfterSetHours(lib, date, x)) == UpdatedDate(lib, date)
    ensures UpdatedDate(lib, AfterSetMinutes(lib, date, x)) == UpdatedDate(lib, date)
  {
  }

  /**
   * A valid picked date replaces the date part of `_date` and keeps its hours and
   * minutes, taking 0 for each when `_date` was not valid.
   */
  lemma UpdateDateKeepsTime(lib: MomentLib, date: Option<string>, v: string)
    requires RoundTrips(lib)
    requires lib.parse(v).Some?
    ensures var d := lib.parse(v).value;
            var prev := UpdatedDate(lib, date);
            UpdatedDate(lib, AfterUpdateDate(lib, date, v)) ==
              Some(d.(hour := if prev.Some? then prev.value.hour else 0,
                      minute := if prev.Some? then prev.value.minute else 0))
  {
    var d := lib.parse(v).value;
    var prev := UpdatedDate(lib, date);
    if prev.Some? {
      assert OrZero(Hours(lib, date)) == Some(prev.value.hour);
      assert OrZero(Minutes(lib, date)) == Some(prev.value.minute);
    }
  }

  // ---------------------------------------------------------------------------
  // Finding the node to replace.

  /** `datatype.replace('xsd:', baseUri)`: the first `xsd:`, wherever it stands, becomes the XML Schema namespace. */
  function ExpandXsd(dataType: string): string {
    ReplaceFirst(dataType, XsdAlias, XmlSchemaBase)
  }

  predicate IsDateTypeUri(s: string) {
    s == XsdDate || s == XsdDateTime
  }

  /** The predicate `firstMatchingDateNode` hands to `find`. */
  predicate IsDateNode(node: SemanticNode) {
    node.rdfaAttributes.Some? && node.rdfaAttributes.value.dataType.Some? &&
    node.rdfaAttributes.value.dataType.value != "" &&
    IsDateTypeUri(ExpandXsd(node.rdfaAttributes.value.dataType.value))
  }

  /** The first index at or after `from` whose semantic node is a date node. */
  function FirstDateIndexFrom(snippets: seq<Snippet>, from: nat): (r: Option<nat>)
    requires from <= |snippets|
    ensures r.Some? ==> from <= r.value < |snippets| && IsDateNode(snippets[r.value].semanticNode)
    ensures r.Some? ==> forall j :: from <= j < r.value ==> !IsDateNode(snippets[j].semanticNode)
    ensures r.None? <==> forall j :: from <= j < |snippets| ==> !IsDateNode(snippets[j].semanticNode)
    decreases |snippets| - from
  {
    if from == |snippets| then None
    else if IsDateNode(snippets[from].semanticNode) then Some(from)
    else FirstDateIndexFrom(snippets, from + 1)
  }

  /**
   * `firstMatchingDateNode` over the contexts of a region: the semantic node of
   * the first context, in list order, that is a date node; nothing if none is.
   */
  function FirstMatchingDateNode(snippets: seq<Snippet>): (r: Option<SemanticNode>)
    ensures r.None? <==> forall i :: 0 <= i < |snippets| ==> !IsDateNode(snippets[i].semanticNode)
    ensures r.Some? ==> exists i :: 0 <= i < |snippets| && snippets[i].semanticNode == r.value &&
                          IsDateNode(r.value) &&
                          forall j :: 0 <= j < i ==> !IsDateNode(snippets[j].semanticNode)
  {
    match FirstDateIndexFrom(snippets, 0)
    case None => None
    case Some(i) => Some(snippets[i].semanticNode)
  }

  /** A text with an `xsd:` in it has a lower-case `x`. */
  lemma AliasNeedsX(t: string)
    ensures IndexOf(t, XsdAlias).Some? ==> 'x' in t
  {
    if IndexOf(t, XsdAlias).Some? {
      var i := IndexOf(t, XsdAlias).value;
      assert t[i..i + 4][0] == t[i];
    }
  }

  /** The XML Schema namespace occurs in a date datatype URI only at its start. */
  lemma NamespaceOnlyAtStart(t: string, i: nat)
    requires IsDateTypeUri(t)
    requires i + 33 <= |t| && t[i..i + 33] == XmlSchemaBase
    ensures i == 0
  {
    var tail := if t == XsdDate then "date" else "dateTime";
    assert t == XmlSchemaBase + tail;
    assert t[i] == t[i..i + 33][0] == 'h';
    assert t[i] == XmlSchemaBase[i];
    NoSecondH();
  }

  /** The namespace text has no `h` in positions 1 to 8. */
  lemma NoSecondH()
    ensures forall k :: 1 <= k <= 8 ==> XmlSchemaBase[k] != 'h'
  {
    assert XmlSchemaBase[1] == 't';
    assert XmlSchemaBase[2] == 't';
    assert XmlSchemaBase[3] == 'p';
    assert XmlSchemaBase[4] == ':';
    assert XmlSchemaBase[5] == '/';
    assert XmlSchemaBase[6] == '/';
    assert XmlSchemaBase[7] == 'w';
    assert XmlSchemaBase[8] == 'w';
  }

  /** Expanding the short forms gives the full URIs. */
  lemma ShortFormsExpand()
    ensures ExpandXsd("xsd:date") == XsdDate
    ensures ExpandXsd("xsd:dateTime") == XsdDateTime
  {
    assert OccursAt("xsd:date", XsdAlias, 0);
    assert OccursAt("xsd:dateTime", XsdAlias, 0);
  }

  /** A text whose first `xsd:` expands to a date datatype URI is a short form. */
  lemma ExpandedAliasIsShortForm(s: string, i: nat)
    requires IndexOf(s, XsdAlias) == Some(i)
    requires IsDateTypeUri(ExpandXsd(s))
    ensures s == "xsd:date" || s == "xsd:dateTime"
  {
    var r := ExpandXsd(s);
    assert r == s[..i] + XmlSchemaBase + s[i + 4..];
    assert r[i..i + 33] == XmlSchemaBase;
    NamespaceOnlyAtStart(r, i);
    assert s[4..] == r[33..];
    assert s[..4] == XsdAlias;
    assert s == s[..4] + s[4..];
    if r == XsdDate {
      assert r[33..] == "date";
    } else {
      assert r[33..] == "dateTime";
    }
  }

  /** The full URIs contain no `xsd:` and expand to themselves. */
  lemma FullFormsUnchanged()
    ensures ExpandXsd(XsdDate) == XsdDate
    ensures ExpandXsd(XsdDateTime) == XsdDateTime
  {
    assert 'x' !in XsdDate;
    assert 'x' !in XsdDateTime;
    AliasNeedsX(XsdDate);
    AliasNeedsX(XsdDateTime);
  }

  /**
   * The alias expansion accepts exactly four spellings: the short and the full
   * form of the two date datatypes. An `xsd:` anywhere but at the start never
   * produces a match.
   */
  lemma DateTypeSpellings(s: string)
    ensures IsDateTypeUri(ExpandXsd(s)) <==>
              s == "xsd:date" || s == "xsd:dateTime" || s == XsdDate || s == XsdDateTime
  {
    FullFormsUnchanged();
    ShortFormsExpand();
    match IndexOf(s, XsdAlias)
    case None =>
      assert ExpandXsd(s) == s;
    case Some(i) =>
      if IsDateTypeUri(ExpandXsd(s)) {
        ExpandedAliasIsShortForm(s, i);
      }
  }

  // ---------------------------------------------------------------------------
  // The replacement markup and the commit.

  /**
   * The outer HTML of a deep clone of `base` whose text content is `text` and whose
   * `content` attribute is `content`; the host serialises it.
   */
  datatype Markup = Markup(base: DomRef, text: string, content: string)

  /** `formatTimeStr(isoStr, hours)`. */
  function FormatTimeStr(lib: MomentLib, isoStr: Option<string>, hours: Option<string>): string {
    if Truthy(hours) then Format(lib.longDateTime, ParseRaw(lib, isoStr))
    else Format(lib.longDate, ParseRaw(lib, isoStr))
  }

  /** `setAttribute` turns `null` into the text "null". */
  function AttributeText(s: Option<string>): string {
    if s.Some? then s.value else "null"
  }

  /** `createNewDomDateNodeHTML(domNode, newValue)`. */
  function DateNodeMarkup(lib: MomentLib, node: DomRef, newValue: Option<ValidMoment>): Markup {
    Markup(node, Format(lib.longDate, newValue), Format(lib.calendarDate, newValue))
  }

  /** `createNewDomDatetimeNodeHTML(domNode, newValue, hours, minutes)`. */
  function DateTimeNodeMarkup(lib: MomentLib, node: DomRef, newValue: Option<ValidMoment>,
                              hours: Option<string>, minutes: Option<string>): Markup
  {
    var dateTimeIso := ToIsoString(lib, SetMinute(SetHour(newValue, OrZero(hours)), OrZero(minutes)));
    Markup(node, FormatTimeStr(lib, dateTimeIso, hours), AttributeText(dateTimeIso))
  }

  /** The markup `insert` hands to the editor: the date-time rendering iff `isDateTime`. */
  function NewNodeMarkup(lib: MomentLib, info: HintInfo, date: Option<string>, node: DomRef): Markup {
    if IsDateTime(info) then
      DateTimeNodeMarkup(lib, node, UpdatedDate(lib, date), Hours(lib, date), Minutes(lib, date))
    else DateNodeMarkup(lib, node, UpdatedDate(lib, date))
  }

  /**
   * A date replacement shows the long date and stores the calendar date; a
   * date-time replacement stores the ISO timestamp of `updatedDate` itself (hours
   * and minutes go through text and back unchanged) and shows it with its time.
   */
  lemma ReplacementContent(lib: MomentLib, info: HintInfo, date: Option<string>, node: DomRef)
    requires IsValidValue(lib, date)
    ensures var m := UpdatedDate(lib, date).value;
            var markup := NewNodeMarkup(lib, info, date, node);
            markup.base == node &&
            (!IsDateTime(info) ==> markup.text == lib.longDate(m) && markup.content == lib.calendarDate(m)) &&
            (IsDateTime(info) ==> markup.content == lib.iso(m)) &&
            (IsDateTime(info) && RoundTrips(lib) ==> markup.text == lib.longDateTime(m))
  {
    var m := UpdatedDate(lib, date).value;
    assert OrZero(Hours(lib, date)) == Some(m.hour);
    assert OrZero(Minutes(lib, date)) == Some(m.minute);
    SetOwnFields(m);
  }

  /** The editor and registry behaviour `insert` depends on. */
  datatype Host = Host(
    mapLocation: (HrId, Region) -> Region,  // hintsRegistry.updateLocationToCurrentIndex
    contextsAt: Region -> seq<Snippet>)     // editor.getContexts({ region })

  /** A call `insert` makes on the hints registry or the editor. */
  datatype HostCall =
    | UpdateLocationToCurrentIndex(hrId: HrId, location: Region)
    | RemoveHintsAtLocation(location: Region, hrId: HrId, scope: string)
    | GetContexts(region: Region)
    | ReplaceNodeWithHTML(node: DomRef, html: Markup, flag: bool)

  /** The part of `insert` after the value is known to have changed. */
  function ReplaceCalls(lib: MomentLib, info: HintInfo, date: Option<string>, host: Host,
                        mapped: Region): seq<HostCall>
  {
    var lookup := [RemoveHintsAtLocation(mapped, info.hrId, ComponentId), GetContexts(mapped)];
    match FirstMatchingDateNode(host.contextsAt(mapped))
    case None => lookup
    case Some(node) =>
      lookup + [ReplaceNodeWithHTML(node.domNode, NewNodeMarkup(lib, info, date, node.domNode), true)]
  }

  /** The calls `insert` makes, in order, as the source has it. */
  function InsertCalls(lib: MomentLib, info: HintInfo, date: Option<string>, host: Host): seq<HostCall> {
    if !IsValidInput(lib, info, date) then []
    else
      var mapped := host.mapLocation(info.hrId, info.location);
      var remap := [UpdateLocationToCurrentIndex(info.hrId, info.location)];
      if ToIsoString(lib, UpdatedDate(lib, date)) == Some(info.value) then remap
      else remap + ReplaceCalls(lib, info, date, host, mapped)
  }

  /**
   * The commit protocol: nothing at all on invalid input; otherwise the location
   * is remapped first; an unchanged ISO value stops there; a changed one removes
   * the hints at the mapped location, looks the node up at the mapped location
   * and replaces it exactly once, only when a date node is found there.
   */
  lemma InsertProtocol(lib: MomentLib, info: HintInfo, date: Option<string>, host: Host)
    ensures var calls := InsertCalls(lib, info, date, host);
            (!IsValidInput(lib, info, date) <==> calls == []) &&
            (IsValidInput(lib, info, date) ==>
               calls[0] == UpdateLocationToCurrentIndex(info.hrId, info.location))
    ensures var calls := InsertCalls(lib, info, date, host);
            var mapped := host.mapLocation(info.hrId, info.location);
            var found := FirstMatchingDateNode(host.contextsAt(mapped));
            IsValidInput(lib, info, date) && ToIsoString(lib, UpdatedDate(lib, date)) != Some(info.value) ==>
              |calls| == (if found.Some? then 4 else 3) &&
              calls[1] == RemoveHintsAtLocation(mapped, info.hrId, ComponentId) &&
              calls[2] == GetContexts(mapped) &&
              (found.Some? ==>
                 calls[3] == ReplaceNodeWithHTML(found.value.domNode,
                                                 NewNodeMarkup(lib, info, date, found.value.domNode), true))
    ensures var calls := InsertCalls(lib, info, date, host);
            IsValidInput(lib, info, date) && ToIsoString(lib, UpdatedDate(lib, date)) == Some(info.value) ==>
              |calls| == 1
  {
    var calls := InsertCalls(lib, info, date, host);
    if IsValidInput(lib, info, date) {
      var mapped := host.mapLocation(info.hrId, info.location);
      var remap := [UpdateLocationToCurrentIndex(info.hrId, info.location)];
      if ToIsoString(lib, UpdatedDate(lib, date)) != Some(info.value) {
        assert calls == remap + ReplaceCalls(lib, info, date, host, mapped);
      } else {
        assert calls == remap;
      }
    }
  }

  /** `insert` makes at most one replacement, and only as its last call. */
  lemma InsertReplacesAtMostOnce(lib: MomentLib, info: HintInfo, date: Option<string>, host: Host)
    ensures var calls := InsertCalls(lib, info, date, host);
            forall k :: 0 <= k < |calls| && calls[k].ReplaceNodeWithHTML? ==> k == |calls| - 1
  {
    InsertProtocol(lib, info, date, host);
  }

  // ---------------------------------------------------------------------------
  // The unchanged-value check compares an ISO timestamp with the raw value.

  /**
   * As written: the ISO form of `updatedDate` is compared with the hint's raw
   * value. A date-only value such as "2020-01-01" is never equal to a timestamp,
   * so committing an untouched date hint still removes the hints at its location
   * and rewrites the node.
   */
  lemma UntouchedDateStillRewritten(lib: MomentLib, info: HintInfo, host: Host)
    requires IsoIsTimestamp(lib)
    requires |info.value| < 24 && IsValidValue(lib, Some(info.value))
    ensures var calls := InsertCalls(lib, info, Some(info.value), host);
            var mapped := host.mapLocation(info.hrId, info.location);
            |calls| >= 3 && calls[1] == RemoveHintsAtLocation(mapped, info.hrId, ComponentId)
  {
    var m := UpdatedDate(lib, Some(info.value)).value;
    assert |lib.iso(m)| >= 24;
  }

  /**
   * The commit with the unchanged-value check done on parsed moments. Invalid
   * input makes no call. A value that denotes the same moment as the hint's value
   * (the seeded one, or one edited and put back) only remaps the location. A
   * value that denotes another moment is still committed: the hints at the mapped
   * location are removed, the node is looked up there and replaced once when found.
   */
  function InsertCallsCorrected(lib: MomentLib, info: HintInfo, date: Option<string>, host: Host): (calls: seq<HostCall>)
    ensures !IsValidValue(lib, date) <==> calls == []
    ensures IsValidValue(lib, date) && UpdatedDate(lib, date) == ParseRaw(lib, Some(info.value)) ==>
              calls == [UpdateLocationToCurrentIndex(info.hrId, info.location)]
    ensures var mapped := host.mapLocation(info.hrId, info.location);
            var found := FirstMatchingDateNode(host.contextsAt(mapped));
            IsValidValue(lib, date) && UpdatedDate(lib, date) != ParseRaw(lib, Some(info.value)) ==>
              |calls| == (if found.Some? then 4 else 3) &&
              calls[0] == UpdateLocationToCurrentIndex(info.hrId, info.location) &&
              calls[1] == RemoveHintsAtLocation(mapped, info.hrId, ComponentId) &&
              calls[2] == GetContexts(mapped) &&
              (found.Some? ==>
                 calls[3] == ReplaceNodeWithHTML(found.value.domNode,
                                                 NewNodeMarkup(lib, info, date, found.value.domNode), true))
  {
    ValidInputIffValidValue(lib, info, date);
    if !IsValidInput(lib, info, date) then []
    else
      var mapped := host.mapLocation(info.hrId, info.location);
      var remap := [UpdateLocationToCurrentIndex(info.hrId, info.location)];
      if UpdatedDate(lib, date) == ParseRaw(lib, Some(info.value)) then remap
      else remap + ReplaceCalls(lib, info, date, host, mapped)
  }

  /**
   * Corrected: an edited date hint whose value is not in the library's ISO form,
   * such as "2020-01-01" changed to another day, is still removed and rewritten.
   */
  lemma CorrectedStillRewritesEdits(lib: MomentLib, info: HintInfo, date: Option<string>, host: Host)
    requires IsValidValue(lib, date) && IsValidValue(lib, Some(info.value))
    requires UpdatedDate(lib, date) != UpdatedDate(lib, Some(info.value))
    ensures var calls := InsertCallsCorrected(lib, info, date, host);
            var mapped := host.mapLocation(info.hrId, info.location);
            |calls| >= 3 && calls[1] == RemoveHintsAtLocation(mapped, info.hrId, ComponentId)
  {
    assert UpdatedDate(lib, Some(info.value)) == ParseRaw(lib, Some(info.value));
  }

  /** Corrected: on hint values the library itself serialised, both checks agree. */
  lemma CorrectedAgreesOnIsoValues(lib: MomentLib, info: HintInfo, date: Option<string>, host: Host, m: ValidMoment)
    requires RoundTrips(lib)
    requires info.value == lib.iso(m)
    ensures InsertCallsCorrected(lib, info, date, host) == InsertCalls(lib, info, date, host)
  {
    if IsValidInput(lib, info, date) {
      var u := UpdatedDate(lib, date).value;
      assert lib.parse(lib.iso(u)) == Some(u);
      assert lib.parse(lib.iso(m)) == Some(m);
    }
  }

  // ---------------------------------------------------------------------------
  // The component.

  class DateOverwriteCardComponent {
    const lib: MomentLib
    /** The hint's info, set by the framework from the card's attributes. */
    var info: HintInfo
    /** `_date`: the raw value being edited, `null` until seeded. */
    var date: Option<string>

    constructor (lib: MomentLib, info: HintInfo)
      ensures this.lib == lib && this.info == info && date == None
    {
      this.lib := lib;
      this.info := info;
      date := None;
    }

    /** `didReceiveAttrs`, after the framework has set `info` to `attrs`: seed `_date` with a valid hint value. */
    method DidReceiveAttrs(attrs: HintInfo)
      modifies this
      ensures info == attrs
      ensures IsValidValue(lib, Some(attrs.value)) ==> date == Some(attrs.value)
      ensures !IsValidValue(lib, Some(attrs.value)) ==> date == old(date)
    {
      info := attrs;
      if lib.parse(attrs.value).Some? {
        date := Some(attrs.value);
      }
    }

    /** `setHours(h)`: ignored for an empty argument. */
    method SetHours(h: string)
      modifies this`date
      ensures date == AfterSetHours(lib, old(date), h)
      ensures h == "" ==> date == old(date)
    {
      if h != "" {
        date := ToIsoString(lib, SetHour(ParseRaw(lib, date), ToNumber(h)));
      }
    }

    /** `setMinutes(m)`: ignored for an empty argument. */
    method SetMinutes(m: string)
      modifies this`date
      ensures date == AfterSetMinutes(lib, old(date), m)
      ensures m == "" ==> date == old(date)
    {
      if m != "" {
        date := ToIsoString(lib, SetMinute(ParseRaw(lib, date), ToNumber(m)));
      }
    }

    /** `updateDate(v)`: ignored for an invalid `v`; returns the new `updatedDate` otherwise. */
    method UpdateDate(v: string) returns (r: Option<ValidMoment>)
      modifies this`date
      ensures date == AfterUpdateDate(lib, old(date), v)
      ensures lib.parse(v).None? ==> date == old(date) && r == None
      ensures lib.parse(v).Some? ==> r == ParseRaw(lib, date)
    {
      r := None;
      var picked := lib.parse(v);
      if picked.Some? {
        var hours := OrZero(Hours(lib, date));
        var minutes := OrZero(Minutes(lib, date));
        date := ToIsoString(lib, SetMinute(SetHour(picked, hours), minutes));
        r := ParseRaw(lib, date);
      }
    }

    /** `insert`: the calls it makes on the hints registry and the editor, in order. */
    method Insert(host: Host) returns (calls: seq<HostCall>)
      ensures calls == InsertCalls(lib, info, date, host)
    {
      var lib, info, date := this.lib, this.info, this.date;
      if !IsValidInput(lib, info, date) {
        return [];
      }
      var mapped := host.mapLocation(info.hrId, info.location);
      var remap := [UpdateLocationToCurrentIndex(info.hrId, info.location)];
      var updated := UpdatedDate(lib, date);
      if ToIsoString(lib, updated) == Some(info.value) {
        return remap;
      }
      var lookup := [RemoveHintsAtLocation(mapped, info.hrId, ComponentId), GetContexts(mapped)];
      var nodeToUpdate := FirstMatchingDateNode(host.contextsAt(mapped));
      if nodeToUpdate.None? {
        return remap + lookup;
      }
      var domNode := nodeToUpdate.value.domNode;
      var newValue;
      if IsDateTime(info) {
        newValue := DateTimeNodeMarkup(lib, domNode, updated, Hours(lib, date), Minutes(lib, date));
      } else {
        newValue := DateNodeMarkup(lib, domNode, updated);
      }
      assert newValue == NewNodeMarkup(lib, info, date, domNode);
      calls := remap + lookup + [ReplaceNodeWithHTML(domNode, newValue, true)];
    }
  }
}

