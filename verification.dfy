/** The `wpforms_ajax_submit_success_response` filter of the namespaced
    plugin class: on an "SQ" form, ask the SQ service about the submitted
    place, store its answer in the entry, and rewrite the confirmation so
    that only the matching section of it shows. */
module Verification {
  import opened Php

  // ---------------------------------------------------------------------
  // sqstyle
  // ---------------------------------------------------------------------

  /** The three SQ answers, in the order sqstyle lists them. */
  const Statuses: seq<string> := ["Error", "OnNetwork", "ExpressionOfInterest"]

  /** `array_diff($xs, [$res])`, keeping order. */
  function Without(xs: seq<string>, res: string): seq<string> {
    if |xs| == 0 then []
    else (if xs[0] == res then [] else [xs[0]]) + Without(xs[1..], res)
  }

  /** The CSS rule that hides the confirmation section of one answer. */
  function HideRule(status: string): string {
    ".sq-" + status + " {display: none!important;}"
  }

  function HideRules(xs: seq<string>): string {
    if |xs| == 0 then "" else HideRules(xs[..|xs| - 1]) + HideRule(xs[|xs| - 1])
  }

  /** The fragment sqstyle returns for an answer. */
  function StyleFor(res: string): string {
    "<style>" + HideRules(Without(Statuses, res)) + "</style>"
  }

  lemma HideRulesSnoc(xs: seq<string>, i: nat)
    requires i < |xs|
    ensures HideRules(xs[..i + 1]) == HideRules(xs[..i]) + HideRule(xs[i])
  {
    assert xs[..i + 1][..i] == xs[..i];
  }

  /** sqstyle: one hide rule per remaining answer, appended in a loop. */
  method SqStyle(res: string) returns (style: string)
    ensures style == StyleFor(res)
  {
    var responses := Without(Statuses, res);
    style := "<style>";
    for i := 0 to |responses|
      invariant style == "<style>" + HideRules(responses[..i])
    {
      HideRulesSnoc(responses, i);
      style := style + HideRule(responses[i]);
    }
    assert responses[..|responses|] == responses;
    style := style + "</style>";
  }

  lemma {:induction false} WithoutMembers(xs: seq<string>, res: string)
    ensures forall x :: x in Without(xs, res) <==> x in xs && x != res
  {
    if |xs| > 0 {
      WithoutMembers(xs[1..], res);
      assert xs == [xs[0]] + xs[1..];
    }
  }

  lemma HideRulesPair(a: string, b: string)
    ensures HideRules([a, b]) == HideRule(a) + HideRule(b)
  {
    assert [a][..0] == [];
    assert HideRules([a]) == HideRule(a);
    assert [a, b][..1] == [a];
    assert HideRules([a, b]) == HideRules([a]) + HideRule(b);
  }

  lemma HideRulesTriple(a: string, b: string, c: string)
    ensures HideRules([a, b, c]) == HideRule(a) + HideRule(b) + HideRule(c)
  {
    assert [a, b, c][..2] == [a, b];
    HideRulesPair(a, b);
  }

  lemma StyleOfPair(res: string, a: string, b: string)
    requires Without(Statuses, res) == [a, b]
    ensures StyleFor(res) == "<style>" + HideRule(a) + HideRule(b) + "</style>"
  {
    HideRulesPair(a, b);
  }

  lemma StyleOfAll(res: string)
    requires Without(Statuses, res) == Statuses
    ensures StyleFor(res) == "<style>" + HideRule("Error") + HideRule("OnNetwork")
                             + HideRule("ExpressionOfInterest") + "</style>"
  {
    HideRulesTriple("Error", "OnNetwork", "ExpressionOfInterest");
  }

  /** array_diff on the three answers, written out. */
  lemma HiddenList(res: string)
    ensures Without(Statuses, res)
            == (if res == "Error" then ["OnNetwork", "ExpressionOfInterest"]
                else if res == "OnNetwork" then ["Error", "ExpressionOfInterest"]
                else if res == "ExpressionOfInterest" then ["Error", "OnNetwork"]
                else Statuses)
  {
    var tail := Without(Statuses[1..], res);
    var tail2 := Without(Statuses[2..], res);
    assert Statuses[1..] == ["OnNetwork", "ExpressionOfInterest"];
    assert Statuses[2..] == ["ExpressionOfInterest"];
    assert Statuses[1..][1..] == Statuses[2..];
    assert Statuses[2..][1..] == [];
    assert Without(Statuses[2..][1..], res) == [];
    assert tail2 == (if res == "ExpressionOfInterest" then [] else ["ExpressionOfInterest"]);
    assert tail == (if res == "OnNetwork" then [] else ["OnNetwork"]) + tail2;
  }

  /** Each answer hides exactly the other two, in the fixed order; any other
      value, the unknown statuses the service may send included, hides all
      three. */
  lemma StyleHidesOthers(res: string)
    ensures res == "Error" ==>
              StyleFor(res) == "<style>" + HideRule("OnNetwork") + HideRule("ExpressionOfInterest") + "</style>"
    ensures res == "OnNetwork" ==>
              StyleFor(res) == "<style>" + HideRule("Error") + HideRule("ExpressionOfInterest") + "</style>"
    ensures res == "ExpressionOfInterest" ==>
              StyleFor(res) == "<style>" + HideRule("Error") + HideRule("OnNetwork") + "</style>"
    ensures res !in Statuses ==>
              StyleFor(res) == "<style>" + HideRule("Error") + HideRule("OnNetwork")
                               + HideRule("ExpressionOfInterest") + "</style>"
  {
    HiddenList(res);
    if res == "Error" {
      StyleOfPair(res, "OnNetwork", "ExpressionOfInterest");
    } else if res == "OnNetwork" {
      StyleOfPair(res, "Error", "ExpressionOfInterest");
    } else if res == "ExpressionOfInterest" {
      StyleOfPair(res, "Error", "OnNetwork");
    } else {
      StyleOfAll(res);
    }
  }

  /** The three answers give three different fragments, so the confirmation
      shows which one came back. */
  lemma StylesDistinct(a: string, b: string)
    requires a in Statuses && b in Statuses && a != b
    ensures StyleFor(a) != StyleFor(b)
  {
    StyleHidesOthers(a);
    StyleHidesOthers(b);
  }

  // ---------------------------------------------------------------------
  // The marker scan over the form's fields
  // ---------------------------------------------------------------------

  /** A field of `$form_data['fields']`: its id and its CSS classes (a
      missing `css` is ""). */
  datatype FormField = FormField(id: string, css: string)

  datatype FormData = FormData(title: Option<string>, fields: seq<FormField>)

  const AddressMarker := "custom_address_field"
  const PlaceIdMarker := "custom_place_id_field"
  const ResponseMarker := "custom_response_field"

  /** The field ids found for the three markers; None is PHP's null. */
  datatype MarkerIds = MarkerIds(address: Option<string>, placeId: Option<string>, response: Option<string>)

  /** The id of the last field whose CSS contains the marker, ignoring case. */
  function LastMarked(fields: seq<FormField>, marker: string): Option<string> {
    if |fields| == 0 then None
    else if Truthy(Stristr(fields[|fields| - 1].css, marker)) then Some(fields[|fields| - 1].id)
    else LastMarked(fields[..|fields| - 1], marker)
  }

  function MarkersOf(fields: seq<FormField>): MarkerIds {
    MarkerIds(LastMarked(fields, AddressMarker), LastMarked(fields, PlaceIdMarker),
              LastMarked(fields, ResponseMarker))
  }

  /** The foreach over the form's fields, testing each field against all
      three markers. */
  method ScanMarkers(fields: seq<FormField>) returns (ids: MarkerIds)
    ensures ids == MarkersOf(fields)
  {
    var addressFieldId: Option<string> := None;
    var placeIdFieldId: Option<string> := None;
    var responseFieldId: Option<string> := None;
    for i := 0 to |fields|
      invariant addressFieldId == LastMarked(fields[..i], AddressMarker)
      invariant placeIdFieldId == LastMarked(fields[..i], PlaceIdMarker)
      invariant responseFieldId == LastMarked(fields[..i], ResponseMarker)
    {
      var field := fields[i];
      if Truthy(Stristr(field.css, AddressMarker)) {
        addressFieldId := Some(field.id);
      }
      if Truthy(Stristr(field.css, PlaceIdMarker)) {
        placeIdFieldId := Some(field.id);
      }
      if Truthy(Stristr(field.css, ResponseMarker)) {
        responseFieldId := Some(field.id);
      }
      assert fields[..i + 1][..i] == fields[..i];
    }
    assert fields[..|fields|] == fields;
    ids := MarkerIds(addressFieldId, placeIdFieldId, responseFieldId);
  }

  /** The last-wins rule of the scan: the id found belongs to a field whose
      CSS contains the marker (ignoring ASCII case) and no later field's
      does; no id is found exactly when no field's CSS contains it. */
  lemma {:induction false} LastMarkedIsLast(fields: seq<FormField>, marker: string)
    requires |marker| >= 2
    ensures LastMarked(fields, marker).None? <==>
              forall j :: 0 <= j < |fields| ==> !ContainsCI(fields[j].css, marker)
    ensures LastMarked(fields, marker).Some? ==>
              exists j :: 0 <= j < |fields| && fields[j].id == LastMarked(fields, marker).value
                          && ContainsCI(fields[j].css, marker)
                          && forall k :: j < k < |fields| ==> !ContainsCI(fields[k].css, marker)
  {
    if |fields| > 0 {
      var init := fields[..|fields| - 1];
      var last := fields[|fields| - 1];
      LastMarkedIsLast(init, marker);
      StristrTruthy(last.css, marker);
      assert forall j :: 0 <= j < |init| ==> init[j] == fields[j];
      if !ContainsCI(last.css, marker) && LastMarked(init, marker).Some? {
        var j :| 0 <= j < |init| && init[j].id == LastMarked(init, marker).value
                 && ContainsCI(init[j].css, marker)
                 && forall k :: j < k < |init| ==> !ContainsCI(init[k].css, marker);
        assert forall k :: j < k < |fields| ==> !ContainsCI(fields[k].css, marker);
      }
    }
  }

  // ---------------------------------------------------------------------
  // Storing the answer in the entry
  // ---------------------------------------------------------------------

  /** The decoded `$entry->fields`: field id to the field's attributes. */
  type EntryFields = map<string, map<string, string>>

  /** `$fields[$key]['value'] = $sq` on the decoded entry fields. */
  function WithResponse(fields: EntryFields, key: string, sq: string): (r: EntryFields)
    ensures r.Keys == fields.Keys + {key}
    ensures forall k :: k in fields && k != key ==> r[k] == fields[k]
    ensures key in r && "value" in r[key] && r[key]["value"] == sq
    ensures r[key].Keys == (if key in fields then fields[key].Keys else {}) + {"value"}
    ensures forall a :: key in fields && a in fields[key] && a != "value" ==> r[key][a] == fields[key][a]
  {
    var field := if key in fields then fields[key] else map[];
    fields[key := field["value" := sq]]
  }

  /** What the handler asks of the outside world. Both copies of the
      handler share this type, because both record the entry write-back
      through StoreResponse; VerifyRaw is the root copy's SQ request (see
      LegacySonar). */
  datatype SqEvent =
    | VerifyPlace(query: Option<PlaceQuery>)             // doSQ in the namespaced class
    | VerifyRaw(placeId: string, address: Option<string>) // doSQ in the root class
    | EntryUpdate(entryId: string, fields: EntryFields)

  /** The decoded place-id request value `{placeId, autocomplete_search}`. */
  datatype PlaceQuery = PlaceQuery(placeId: Option<string>, autocompleteSearch: Option<string>)

  /** `if ($fields = json_decode($entry->fields, true))`: null and the empty
      array are falsy. */
  predicate Decoded(fields: Option<EntryFields>) {
    fields.Some? && fields.value != map[]
  }

  /** The entry is written back only when the posted entry id is truthy and
      its stored fields decode to a non-empty array. */
  predicate WritesBack(entryId: Option<string>, loadEntry: string -> Option<EntryFields>) {
    Truthy(entryId) && Decoded(loadEntry(entryId.value))
  }

  /** The read-modify-write of the entry: at most one update, touching only
      the response field's value. `loadEntry` stands for reading the entry
      and decoding its fields. */
  method StoreResponse(entryId: Option<string>, loadEntry: string -> Option<EntryFields>,
                       responseFieldId: Option<string>, sq: string)
    returns (events: seq<SqEvent>)
    ensures !WritesBack(entryId, loadEntry) ==> events == []
    ensures WritesBack(entryId, loadEntry) ==>
              events == [EntryUpdate(entryId.value, WithResponse(loadEntry(entryId.value).value, ToStr(responseFieldId), sq))]
  {
    events := [];
    if Truthy(entryId) {
      var decoded := loadEntry(entryId.value);
      if Decoded(decoded) {
        var fields := decoded.value;
        var key := ToStr(responseFieldId);
        var field := if key in fields then fields[key] else map[];
        field := field["value" := sq];
        fields := fields[key := field];
        events := [EntryUpdate(entryId.value, fields)];
      }
    }
  }

  // ---------------------------------------------------------------------
  // submit_success_response
  // ---------------------------------------------------------------------

  /** The filtered response: its confirmation text and its other entries. */
  datatype Response = Response(confirmation: string, others: map<string, string>)

  /** The title guard `stristr($form_data['settings']['form_title'] ?? '', 'SQ')`. */
  predicate IsSqForm(form: FormData) {
    ContainsCI(ToStr(form.title), "SQ")
  }

  /** `$sq_response === false ? "Error" : $sq_response`: any other answer is
      passed on unchecked. */
  function SqAnswer(status: Option<string>): string {
    if status.None? then "Error" else status.value
  }

  /** `$_REQUEST['wpforms']['fields'][$place_id_field_id]`. */
  function PlaceIdValue(form: FormData, request: map<string, string>): Option<string> {
    Lookup(request, ToStr(LastMarked(form.fields, PlaceIdMarker)))
  }

  /** The confirmation rewrite of the main path: "address" is replaced
      first, then "place_id", then the style fragment goes in front. */
  function Rewritten(confirmation: string, address: string, placeId: string, sq: string): string {
    StyleFor(sq) + StrReplace("place_id", placeId, StrReplace("address", address, confirmation))
  }

  function SearchOf(q: Option<PlaceQuery>): Option<string> {
    if q.Some? then q.value.autocompleteSearch else None
  }

  function PlaceOf(q: Option<PlaceQuery>): Option<string> {
    if q.Some? then q.value.placeId else None
  }

  /** The remote side of the handler: decoding the place-id value
      (`json_decode(base64_decode(...))`), the SQ request, and loading and
      decoding an entry's fields. */
  datatype SqRemote = SqRemote(
    decodePlace: string -> Option<PlaceQuery>,
    doSq: Option<PlaceQuery> -> Option<string>,
    loadEntry: string -> Option<EntryFields>)

  /** submit_success_response of the namespaced class.
      `request` is `$_REQUEST['wpforms']['fields']`, `postedEntryId` is
      `$_POST['wpforms']['entry_id']`. */
  method SubmitSuccessResponse(response: Response, form: FormData, request: map<string, string>,
                               postedEntryId: Option<string>, remote: SqRemote)
    returns (result: Response, trace: seq<SqEvent>)
    // Not an SQ form: the response comes back as it was.
    ensures !IsSqForm(form) ==> result == response && trace == []
    // No place id: only the Error style goes in front; nothing is called or written.
    ensures IsSqForm(form) && !Truthy(PlaceIdValue(form, request)) ==>
              result == response.(confirmation := StyleFor("Error") + response.confirmation)
              && trace == []
    // Main path.
    ensures IsSqForm(form) && Truthy(PlaceIdValue(form, request)) ==>
              var q := remote.decodePlace(PlaceIdValue(form, request).value);
              var sq := SqAnswer(remote.doSq(q));
              var rid := ToStr(LastMarked(form.fields, ResponseMarker));
              && result == response.(confirmation := Rewritten(response.confirmation, ToStr(SearchOf(q)), ToStr(PlaceOf(q)), sq))
              && |trace| >= 1 && trace[0] == VerifyPlace(q)
              && (!WritesBack(postedEntryId, remote.loadEntry) ==> |trace| == 1)
              && (WritesBack(postedEntryId, remote.loadEntry) ==>
                    trace == [VerifyPlace(q), EntryUpdate(postedEntryId.value,
                               WithResponse(remote.loadEntry(postedEntryId.value).value, rid, sq))])
  {
    StristrTruthy(ToStr(form.title), "SQ");
    if !Truthy(Stristr(ToStr(form.title), "SQ")) {
      return response, [];
    }
    var ids := ScanMarkers(form.fields);
    var placeId := Lookup(request, ToStr(ids.placeId));
    if !Truthy(placeId) {
      var style := SqStyle("Error");
      return response.(confirmation := style + response.confirmation), [];
    }

    var query := remote.decodePlace(placeId.value);
    var sqResponse := remote.doSq(query);
    trace := [VerifyPlace(query)];
    var sq := SqAnswer(sqResponse);

    var stored := StoreResponse(postedEntryId, remote.loadEntry, ids.response, sq);
    trace := trace + stored;

    var confirmation := StrReplace("address", ToStr(SearchOf(query)), response.confirmation);
    var style := SqStyle(sq);
    confirmation := style + StrReplace("place_id", ToStr(PlaceOf(query)), confirmation);
    result := response.(confirmation := confirmation);
  }

  /** The main path's confirmation: a text without the two tokens only gets
      the style fragment in front, and the fragment is the one for the
      (coerced) answer, so a false answer shows the Error section. */
  lemma RewriteWithoutTokens(confirmation: string, address: string, placeId: string, status: Option<string>)
    requires forall i: nat :: !OccursAt("address", confirmation, i)
    requires forall i: nat :: !OccursAt("place_id", confirmation, i)
    ensures Rewritten(confirmation, address, placeId, SqAnswer(status)) == StyleFor(SqAnswer(status)) + confirmation
    ensures status.None? ==> SqAnswer(status) == "Error"
  {
    ReplaceAbsent("address", address, confirmation);
    ReplaceAbsent("place_id", placeId, confirmation);
  }
}
