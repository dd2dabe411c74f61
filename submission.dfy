/** The `wpforms_process_complete` handler: create a Sonar serviceable
    address from the submitted form, then an account that refers to it, and
    notify the operator by email when a step fails. */
module Submission {
  import opened Php
  import opened AddressExtraction

  /** `$form_data['settings']`. An absent key is unset; a setting holding
      null is modelled as absent, since `isset` and `??` treat both alike. */
  type Settings = map<string, string>

  /** One entry of `$fields`: its `value` and, for address fields, its
      `address2`; either may be missing (null). */
  datatype SubmittedField = SubmittedField(value: Option<string>, address2: Option<string>)

  /** `$fields`, keyed by form field id. */
  type Fields = map<string, SubmittedField>

  /** `$fields[$id]['value']`, null when the field is missing. */
  function FieldValue(fields: Fields, id: Option<string>): Option<string> {
    var field := Lookup(fields, ToStr(id));
    if field.Some? then field.value.value else None
  }

  /** The guard at the top of process_complete, as the source writes it:
      `!isset($s['sonar_enable']) && $s['sonar_enable'] !== "1"`. Because of
      the `&&` it only fires when the setting is absent; any present value,
      "0" included, lets the pipeline run. */
  predicate EarlyExit(settings: Settings)
    ensures EarlyExit(settings) <==> "sonar_enable" !in settings
  {
    !("sonar_enable" in settings) && Lookup(settings, "sonar_enable") != Some("1")
  }

  /** The submitted field the service-address setting points to. */
  function AddressFieldOf(fields: Fields, settings: Settings): Option<SubmittedField> {
    Lookup(fields, ToStr(Lookup(settings, "sonar_account_service_address")))
  }

  function RawValue(field: Option<SubmittedField>): Option<string> {
    if field.Some? then field.value.value else None
  }

  /** The line-2 candidate: the configured line-2 field's value when that
      setting is set and not "", otherwise the address field's `address2`. */
  function Line2Of(fields: Fields, settings: Settings, addressField: Option<SubmittedField>): Option<string> {
    var configured := Lookup(settings, "sonar_account_service_address_line2");
    if configured.Some? && configured.value != "" then FieldValue(fields, configured)
    else if addressField.Some? then addressField.value.address2
    else None
  }

  /** The address sent to createAddress: the extracted record, with `line2`
      written only when the candidate is truthy. */
  function AddressToCreate(fields: Fields, settings: Settings, decode: string -> Option<Geocode>): Address {
    var addressField := AddressFieldOf(fields, settings);
    var address := ExtractedAddress(decode(ToStr(RawValue(addressField))));
    var line2 := Line2Of(fields, settings, addressField);
    if Truthy(line2) then address["line2" := Text(line2.value)] else address
  }

  lemma Line2Overlay(fields: Fields, settings: Settings, decode: string -> Option<Geocode>)
    ensures var addressField := AddressFieldOf(fields, settings);
      var extracted := ExtractedAddress(decode(ToStr(RawValue(addressField))));
      var line2 := Line2Of(fields, settings, addressField);
      var address := AddressToCreate(fields, settings, decode);
      && ("line2" in address <==> Truthy(line2))
      && (Truthy(line2) ==> address["line2"] == Text(line2.value))
      && address.Keys - {"line2"} == AddressKeys
      && forall k :: k in extracted ==> k in address && address[k] == extracted[k]
  {
    var addressField := AddressFieldOf(fields, settings);
    ExtractedAddressShape(decode(ToStr(RawValue(addressField))));
  }

  // ---------------------------------------------------------------------
  // The account that is created once the address exists.
  // ---------------------------------------------------------------------

  datatype Phone = Phone(country: Option<Value>, number: Option<string>, phoneNumberTypeId: string)

  datatype Contact = Contact(
    name: Option<string>,
    emailAddress: Option<string>,
    emailCategoryIds: seq<string>,
    phoneNumbers: seq<Phone>)

  datatype CustomFieldValue = CustomFieldValue(customFieldId: string, value: string)

  /** The input to Sonar's createAccount mutation. */
  datatype AccountInput = AccountInput(
    serviceableAddressId: string,
    unsetCustomFieldData: seq<string>,
    customFieldData: seq<CustomFieldValue>,
    accountGroupIds: seq<string>,
    accountStatusId: Option<string>,
    accountTypeId: Option<string>,
    companyId: Option<string>,
    mailingAddress: Address,
    name: Option<string>,
    primaryContact: Contact)

  /** The keys process_complete unsets from the mailing address. */
  const StrippedKeys: set<string> := {"network_site_ids", "address_status_id", "latitude", "longitude"}

  /** Sonar's phone number type id for "mobile". */
  const MobileTypeId := "4"

  /** The mailing address: the address with the site, status and geo keys
      unset; every other key is kept as it was. */
  function MailingAddress(address: Address): (mailing: Address)
    ensures mailing.Keys == address.Keys - StrippedKeys
    ensures forall k :: k in mailing ==> mailing[k] == address[k]
  {
    address - StrippedKeys
  }

  function AccountInputFor(addressId: string, address: Address, fields: Fields, settings: Settings): AccountInput {
    AccountInput(
      serviceableAddressId := addressId,
      unsetCustomFieldData := ["2"],
      customFieldData := [CustomFieldValue("1", "A")],
      accountGroupIds := [],
      accountStatusId := Lookup(settings, "sonar_account_status"),
      accountTypeId := Lookup(settings, "sonar_account_type"),
      companyId := Lookup(settings, "sonar_company"),
      mailingAddress := MailingAddress(address),
      name := FieldValue(fields, Lookup(settings, "sonar_account_name")),
      primaryContact := Contact(
        name := FieldValue(fields, Lookup(settings, "sonar_contact_name")),
        emailAddress := FieldValue(fields, Lookup(settings, "sonar_contact_email")),
        emailCategoryIds := ["2", "3", "5", "4"],
        phoneNumbers := [Phone(Lookup(address, "country"),
                               FieldValue(fields, Lookup(settings, "sonar_contact_phone")),
                               MobileTypeId)]))
  }

  /** The account input for the address that was actually created: it
      refers to the returned id, its mailing address keeps line1, city,
      subdivision, zip and country and drops the site, status and geo keys,
      it keeps line2 exactly when one was written, and the phone's country is
      the address's country code. */
  lemma AccountInputShape(addressId: string, fields: Fields, settings: Settings, decode: string -> Option<Geocode>)
    ensures var address := AddressToCreate(fields, settings, decode);
      var input := AccountInputFor(addressId, address, fields, settings);
      var addressField := AddressFieldOf(fields, settings);
      var cs := ComponentsOf(decode(ToStr(RawValue(addressField))));
      && input.serviceableAddressId == addressId
      && "line1" in input.mailingAddress && "city" in input.mailingAddress
      && "subdivision" in input.mailingAddress && "zip" in input.mailingAddress
      && "country" in input.mailingAddress
      && (forall k :: k in StrippedKeys ==> k !in input.mailingAddress)
      && ("line2" in input.mailingAddress <==> Truthy(Line2Of(fields, settings, addressField)))
      && (forall k :: k in input.mailingAddress ==> input.mailingAddress[k] == address[k])
      && |input.primaryContact.phoneNumbers| == 1
      && input.primaryContact.phoneNumbers[0].phoneNumberTypeId == MobileTypeId
      && input.primaryContact.phoneNumbers[0].country
         == Some(Text(ShortName(LastWithType(cs, "country"))))
  {
    Line2Overlay(fields, settings, decode);
  }

  // ---------------------------------------------------------------------
  // What the handler does to the outside world.
  // ---------------------------------------------------------------------

  /** Outcome of a remote Sonar mutation: it threw (with the message), or it
      returned the new entity's id or nothing (`?? null`). */
  datatype CallOutcome = Threw(message: string) | Returned(id: Option<string>)

  /** What the `print_r` dumps in an error email show. */
  datatype Debug = ExceptionDump(message: string) | AddressDump(address: Address) | AccountDump(input: AccountInput)

  datatype Event =
    | CreateAddressCall(address: Address)
    | CreateAccountCall(input: AccountInput)
    | Mail(to: string, subject: string, body: string, debug: Debug)
    | ErrorLog(message: string)

  const AddressError := "Error creating address"
  const AddressUnknown := "Unknown error creating address"
  const AccountError := "Error Creating Account"
  const AccountUnknown := "Unknown error creating account"

  function SubjectPrefix(form: string, entryId: string): string {
    "[Sonar Automation Error / " + form + "] Entry " + entryId + " - "
  }

  /** errorEmail: the mail sent to the operator. */
  function ErrorEmail(to: string, form: string, entryId: string, subject: string, debug: Debug): Event {
    Mail(to,
         SubjectPrefix(form, entryId) + subject,
         "Form: " + form + "\nEntry ID: " + entryId + "\nError: " + subject + "\n\nDebug Info:\n",
         debug)
  }

  /** The subject of an error email names the form and the entry in a fixed
      frame and ends with the error: the error can be read back from the
      subject, so two mails about the same entry have the same subject only
      when they report the same error. */
  lemma SubjectDeterminesError(to: string, form: string, entryId: string,
                               s1: string, d1: Debug, s2: string, d2: Debug)
    ensures var subject := ErrorEmail(to, form, entryId, s1, d1).subject;
            |SubjectPrefix(form, entryId)| <= |subject|
            && subject[..|SubjectPrefix(form, entryId)|] == SubjectPrefix(form, entryId)
            && subject[|SubjectPrefix(form, entryId)|..] == s1
    ensures (ErrorEmail(to, form, entryId, s1, d1).subject
             == ErrorEmail(to, form, entryId, s2, d2).subject) ==> s1 == s2
  {
    var p := SubjectPrefix(form, entryId);
    assert ErrorEmail(to, form, entryId, s1, d1).subject == p + s1;
    assert ErrorEmail(to, form, entryId, s2, d2).subject == p + s2;
    assert (p + s1)[|p|..] == s1;
    assert (p + s2)[|p|..] == s2;
  }

  /** The operator email for one failure, sent only to a truthy report
      address. */
  function ErrorMails(report: Option<string>, form: string, entryId: string, subject: string, debug: Debug): seq<Event> {
    if Truthy(report) then [ErrorEmail(report.value, form, entryId, subject, debug)] else []
  }

  function ReportEmail(settings: Settings): Option<string> {
    Lookup(settings, "sonar_error_report_email")
  }

  function FormTitle(settings: Settings): string {
    ToStr(Lookup(settings, "form_title"))
  }

  /** The remote side of process_complete, each call an oracle: the decode
      step of processAddressField and Sonar's two create mutations. */
  datatype Remote = Remote(
    decode: string -> Option<Geocode>,
    createAddress: Address -> CallOutcome,
    createAccount: AccountInput -> CallOutcome)

  /** The trace process_complete produces: the calls, the emails and the log
      lines, in order, on each of its paths. */
  function SubmissionTrace(fields: Fields, settings: Settings, entryId: string, remote: Remote): seq<Event> {
    if EarlyExit(settings) then []
    else
      var address := AddressToCreate(fields, settings, remote.decode);
      var report := ReportEmail(settings);
      var form := FormTitle(settings);
      var created := remote.createAddress(address);
      if created.Threw? then
        [CreateAddressCall(address)]
        + ErrorMails(report, form, entryId, AddressError, ExceptionDump(created.message))
        + [ErrorLog("Error creating address: " + created.message)]
      else if !Truthy(created.id) then
        [CreateAddressCall(address)]
        + ErrorMails(report, form, entryId, AddressUnknown, AddressDump(address))
        + [ErrorLog("No address ID returned from Sonar.")]
      else
        var input := AccountInputFor(created.id.value, address, fields, settings);
        var account := remote.createAccount(input);
        [CreateAddressCall(address), CreateAccountCall(input)]
        + (if account.Threw? then
             ErrorMails(report, form, entryId, AccountError, ExceptionDump(account.message))
           else if !Truthy(account.id) then
             ErrorMails(report, form, entryId, AccountUnknown, AccountDump(input))
           else [])
  }

  /** process_complete, step by step. */
  method ProcessComplete(fields: Fields, settings: Settings, entryId: string, remote: Remote)
    returns (trace: seq<Event>)
    ensures trace == SubmissionTrace(fields, settings, entryId, remote)
  {
    trace := [];
    if EarlyExit(settings) {
      return;
    }
    var report := ReportEmail(settings);
    var form := FormTitle(settings);

    var addressField := AddressFieldOf(fields, settings);
    var address := ProcessAddressField(RawValue(addressField), remote.decode);
    var line2 := Line2Of(fields, settings, addressField);
    if Truthy(line2) {
      address := address["line2" := Text(line2.value)];
    }
    assert address == AddressToCreate(fields, settings, remote.decode);
    trace := trace + [CreateAddressCall(address)];
    var created := remote.createAddress(address);
    if created.Threw? {
      if Truthy(report) {
        trace := trace + [ErrorEmail(report.value, form, entryId, AddressError, ExceptionDump(created.message))];
      }
      trace := trace + [ErrorLog("Error creating address: " + created.message)];
      return;
    }

    var sonarAddressId := created.id;
    if !Truthy(sonarAddressId) {
      if Truthy(report) {
        trace := trace + [ErrorEmail(report.value, form, entryId, AddressUnknown, AddressDump(address))];
      }
      trace := trace + [ErrorLog("No address ID returned from Sonar.")];
      return;
    }

    var accountCreateInput := AccountInputFor(sonarAddressId.value, address, fields, settings);
    trace := trace + [CreateAccountCall(accountCreateInput)];
    var account := remote.createAccount(accountCreateInput);
    if account.Threw? {
      if Truthy(report) {
        trace := trace + [ErrorEmail(report.value, form, entryId, AccountError, ExceptionDump(account.message))];
      }
      return;
    }
    if !Truthy(account.id) {
      if Truthy(report) {
        trace := trace + [ErrorEmail(report.value, form, entryId, AccountUnknown, AccountDump(accountCreateInput))];
      }
    }
  }

  /** Disabled forms produce nothing; enabled forms always start by sending
      the extracted address (with its optional line2) to createAddress, so
      two runs on the same submission create two addresses. */
  lemma EnableGuard(fields: Fields, settings: Settings, entryId: string, remote: Remote)
    ensures var trace := SubmissionTrace(fields, settings, entryId, remote);
      && (trace == [] <==> "sonar_enable" !in settings)
      && (trace != [] ==> trace[0] == CreateAddressCall(AddressToCreate(fields, settings, remote.decode)))
  {
  }

  /** Every failure path sends at most one operator email, and only to a
      truthy report address. */
  lemma AtMostOneMail(fields: Fields, settings: Settings, entryId: string, remote: Remote)
    ensures var trace := SubmissionTrace(fields, settings, entryId, remote);
      && (forall i, j :: 0 <= i < j < |trace| ==> !(trace[i].Mail? && trace[j].Mail?))
      && (forall i :: 0 <= i < |trace| && trace[i].Mail? ==>
            Truthy(ReportEmail(settings)) && trace[i].to == ReportEmail(settings).value)
  {
  }

  /** createAccount is called at most once, as the second event, and only
      after createAddress returned a truthy id; its input refers to that id. */
  lemma AccountOnlyAfterAddress(fields: Fields, settings: Settings, entryId: string, remote: Remote)
    ensures var trace := SubmissionTrace(fields, settings, entryId, remote);
      var address := AddressToCreate(fields, settings, remote.decode);
      var created := remote.createAddress(address);
      forall i :: 0 <= i < |trace| && trace[i].CreateAccountCall? ==>
        && i == 1
        && created.Returned? && Truthy(created.id)
        && trace[i].input == AccountInputFor(created.id.value, address, fields, settings)
        && trace[i].input.serviceableAddressId == created.id.value
  {
  }

  /** When createAddress throws or returns a falsy id, the run ends with
      exactly the matching email (if a report address is set) and a log
      line, and createAccount is never called. */
  lemma AddressFailureStops(fields: Fields, settings: Settings, entryId: string, remote: Remote)
    requires !EarlyExit(settings)
    requires var created := remote.createAddress(AddressToCreate(fields, settings, remote.decode));
             created.Threw? || !Truthy(created.id)
    ensures var trace := SubmissionTrace(fields, settings, entryId, remote);
      var address := AddressToCreate(fields, settings, remote.decode);
      var created := remote.createAddress(address);
      var subject := if created.Threw? then AddressError else AddressUnknown;
      var debug := if created.Threw? then ExceptionDump(created.message) else AddressDump(address);
      && (forall e :: e in trace ==> !e.CreateAccountCall?)
      && trace[0] == CreateAddressCall(address)
      && trace[|trace| - 1] == ErrorLog(if created.Threw? then "Error creating address: " + created.message
                                        else "No address ID returned from Sonar.")
      && (Truthy(ReportEmail(settings)) ==>
            |trace| == 3 && trace[1] == ErrorEmail(ReportEmail(settings).value, FormTitle(settings), entryId, subject, debug))
      && (!Truthy(ReportEmail(settings)) ==> |trace| == 2)
  {
  }

  /** After createAccount: a thrown fault sends "Error Creating Account" with
      the fault, a falsy id sends "Unknown error creating account" with the
      whole input, a truthy id sends nothing. */
  lemma AccountOutcomeMail(fields: Fields, settings: Settings, entryId: string, remote: Remote)
    requires !EarlyExit(settings)
    requires Truthy(AddressIdOf(remote.createAddress(AddressToCreate(fields, settings, remote.decode))))
    ensures var trace := SubmissionTrace(fields, settings, entryId, remote);
      var address := AddressToCreate(fields, settings, remote.decode);
      var input := AccountInputFor(AddressIdOf(remote.createAddress(address)).value, address, fields, settings);
      var account := remote.createAccount(input);
      var report := ReportEmail(settings);
      var form := FormTitle(settings);
      && trace[..2] == [CreateAddressCall(address), CreateAccountCall(input)]
      && (account.Threw? && Truthy(report) ==>
            trace[2..] == [ErrorEmail(report.value, form, entryId, AccountError, ExceptionDump(account.message))])
      && (account.Returned? && !Truthy(account.id) && Truthy(report) ==>
            trace[2..] == [ErrorEmail(report.value, form, entryId, AccountUnknown, AccountDump(input))])
      && (Truthy(AddressIdOf(account)) || !Truthy(report) ==> |trace| == 2)
  {
  }

  function AddressIdOf(outcome: CallOutcome): Option<string> {
    if outcome.Returned? then outcome.id else None
  }
}
