/** The copy of the plugin class at the repository root, the one the plugin
    bootstrap loads. Its `wpforms_ajax_submit_success_response` filter has
    the same guard, marker scan, entry write-back and sqstyle as the
    namespaced class, but sends the raw place id and address text to the SQ
    service and substitutes them into the confirmation undecoded. */
module LegacySonar {
  import opened Php
  import opened Verification

  /** The remote side of the root handler: the SQ request on the raw place
      id and address text, and loading and decoding an entry's fields. */
  datatype LegacyRemote = LegacyRemote(
    doSq: (string, Option<string>) -> Option<string>,
    loadEntry: string -> Option<EntryFields>)

  /** `$_REQUEST['wpforms']['fields'][$address_field_id]`. */
  function AddressValue(form: FormData, request: map<string, string>): Option<string> {
    Lookup(request, ToStr(LastMarked(form.fields, AddressMarker)))
  }

  /** submit_success_response of the root class. */
  method SubmitSuccessResponse(response: Response, form: FormData, request: map<string, string>,
                               postedEntryId: Option<string>, remote: LegacyRemote)
    returns (result: Response, trace: seq<SqEvent>)
    // Not an SQ form: the response comes back as it was.
    ensures !IsSqForm(form) ==> result == response && trace == []
    // No place id: only the Error style goes in front; nothing is called or written.
    ensures IsSqForm(form) && !Truthy(PlaceIdValue(form, request)) ==>
              result == response.(confirmation := StyleFor("Error") + response.confirmation)
              && trace == []
    // Main path: the service is asked once, about the raw values ...
    ensures IsSqForm(form) && Truthy(PlaceIdValue(form, request)) ==>
              |trace| >= 1 && trace[0] == VerifyRaw(PlaceIdValue(form, request).value, AddressValue(form, request))
    // ... both tokens are replaced by those raw values ...
    ensures IsSqForm(form) && Truthy(PlaceIdValue(form, request)) ==>
              var placeId := PlaceIdValue(form, request).value;
              var address := AddressValue(form, request);
              result == response.(confirmation := Rewritten(response.confirmation, ToStr(address), placeId,
                                                           SqAnswer(remote.doSq(placeId, address))))
    // ... and the entry is written back only as StoreResponse allows.
    ensures IsSqForm(form) && Truthy(PlaceIdValue(form, request)) && !WritesBack(postedEntryId, remote.loadEntry) ==>
              |trace| == 1
    ensures IsSqForm(form) && Truthy(PlaceIdValue(form, request)) && WritesBack(postedEntryId, remote.loadEntry) ==>
              var placeId := PlaceIdValue(form, request).value;
              var address := AddressValue(form, request);
              var sq := SqAnswer(remote.doSq(placeId, address));
              trace == [VerifyRaw(placeId, address),
                        EntryUpdate(postedEntryId.value, WithResponse(remote.loadEntry(postedEntryId.value).value,
                                                                      ToStr(LastMarked(form.fields, ResponseMarker)), sq))]
  {
    StristrTruthy(ToStr(form.title), "SQ");
    if !Truthy(Stristr(ToStr(form.title), "SQ")) {
      return response, [];
    }
    var ids := ScanMarkers(form.fields);
    var address := Lookup(request, ToStr(ids.address));
    var placeId := Lookup(request, ToStr(ids.placeId));
    if !Truthy(placeId) {
      var style := SqStyle("Error");
      return response.(confirmation := style + response.confirmation), [];
    }

    var sqResponse := remote.doSq(placeId.value, address);
    trace := [VerifyRaw(placeId.value, address)];
    var sq := SqAnswer(sqResponse);

    var stored := StoreResponse(postedEntryId, remote.loadEntry, ids.response, sq);
    trace := trace + stored;

    var confirmation := StrReplace("address", ToStr(address), response.confirmation);
    var style := SqStyle(sq);
    confirmation := style + StrReplace("place_id", placeId.value, confirmation);
    result := response.(confirmation := confirmation);
  }
}
