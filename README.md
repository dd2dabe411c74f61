# WPForms–Sonar integration, modelled in Dafny

This plugin connects WPForms to the Sonar ISP billing system. Two WordPress hooks matter here.

- **`wpforms_process_complete`** is hooked only by the namespaced class in
  `src/Sonar.php` (its `boot`, line 36). The plugin's bootstrap
  (`wpforms-sonar.php`, lines 39-42) loads and boots only the root class,
  which hooks the SQ filter and the script action but not this one. So as
  shipped, the submission pipeline is never registered. When it is
  registered, it runs after a form is submitted, on every form whose
  `sonar_enable` setting is set (the guard checks only that it is set, not
  its value). It decodes the submitted Google Places geocoding result into a
  Sonar serviceable-address record and adds an optional line 2. It then calls
  `createServiceableAddress`. With the id that comes back, it builds and sends a
  `createAccount` input. When a step fails it emails the configured operator
  address (`errorEmail`). The two address failures also write a log line;
  the account failures do not.
- **`wpforms_ajax_submit_success_response`** runs on forms whose title contains
  "SQ" (service qualification). It finds the address, place-id and response
  fields by their marker CSS classes. It asks the SQ service about the
  submitted place and stores the answer in the saved entry. Finally it
  rewrites the confirmation message: it substitutes the `address` and
  `place_id` tokens and puts in front a `<style>` fragment (`sqstyle`) that
  hides the sections for the other answers.

There are two copies of the plugin class. `src/Sonar.php` is namespaced. It
decodes the place-id value as base64 JSON `{placeId, autocomplete_search}`. The
root `Sonar.php` is the copy the bootstrap loads. It sends the raw place-id and
address values.

Layout:

- `php.dfy` (`Php`): the PHP runtime behaviour the code depends on.
  - Truthiness of string-or-null values: null, `""` and `"0"` are falsy.
  - `(string)` of null.
  - `??` on arrays.
  - `stristr`: ASCII case-insensitive, returns the suffix or `false`.
  - `str_replace`: leftmost, non-overlapping, and inserted text is never
    rescanned. An independent `explode`/`implode` reference definition is
    proved equal to it.
- `address.dfy` (`AddressExtraction`): `processAddressField`, as a loop
  method proved against the specification function `ExtractedAddress`.
- `submission.dfy` (`Submission`): `process_complete` and `errorEmail`.
  - The method records its calls, emails and log lines as a trace of events.
  - It is proved equal to the specification function `SubmissionTrace`.
  - The pipeline's properties are proved as lemmas about that function.
- `verification.dfy` (`Verification`): `sqstyle`, the marker scan, the entry
  write-back and the namespaced `submit_success_response`.
- `legacy.dfy` (`LegacySonar`): the root copy of `submit_success_response`.
  Its `sqstyle` is identical to the namespaced one, so `Verification.SqStyle`
  models both.

Things outside the code become parameters:

- Remote calls are function-typed fields of `Remote`, `SqRemote` and
  `LegacyRemote`. These calls are the base64/JSON decoding, Sonar's two
  mutations, doSQ, and loading and decoding an entry.
- Each handler returns the sequence of outside effects it causes.
- The request superglobals are inputs.

## Model

| member | source | states |
|---|---|---|
| Php.StristrTruthy | src/Sonar.php:401 | `if (stristr($h, $n))` holds exactly when the needle occurs in the haystack, ignoring ASCII case (for needles of two or more characters, as all of the plugin's are) |
| Php.FirstMatchCISpec | src/Sonar.php:410-418 | the position stristr cuts at is the first case-insensitive match: it is a match and no earlier position is; when there is none, no position matches |
| Php.ReplaceIsImplodeExplode | src/Sonar.php:452-455 | str_replace equals exploding the subject on the search string and imploding the pieces with the replacement |
| Php.ReplaceWithItself | src/Sonar.php:452-455 | a check on the str_replace model (used for the round trip below): replacing a token with itself leaves the text unchanged |
| Php.ImplodeExplodeRoundTrip | src/Sonar.php:452-455 | a check on the explode/implode reference definition that str_replace is proved equal to: implode after explode with the same separator gives back the original text |
| Php.ReplaceAbsent | src/Sonar.php:452-455 | a confirmation without the token is left unchanged |
| Php.ReplaceAtFront | src/Sonar.php:452-455 | a token at the front is replaced, and the scan resumes after it: the inserted replacement is not searched again |
| AddressExtraction.ProcessAddressField | src/Sonar.php:143-193 | the loop over the decoded components builds exactly `ExtractedAddress` of the decoded value: line1, city, country, state and postcode by the last-wins rule; subdivision; lat/lng; status; site ids |
| AddressExtraction.ExtractedAddressShape | src/Sonar.php:177-187 | the record has exactly the nine Sonar keys, no line2, subdivision = country + "_" + state, status "1" (ready for service), and an empty site list |
| AddressExtraction.UndecodedAddress | src/Sonar.php:145-187 | a value that does not decode gives no components, so the record is line1, city, zip, country, latitude and longitude "", subdivision "_", status "1" and no site ids |
| AddressExtraction.LastWithTypeIsLast | src/Sonar.php:156-175 | city, country, state and zip come from the last component carrying the type; a type no component carries gives "" |
| AddressExtraction.Line1Append | src/Sonar.php:157-162 | line1 is the in-order concatenation of every component's street_number + " " and route |
| AddressExtraction.Line1Cons | src/Sonar.php:157-162 | the first component's street parts come first in line1 |
| AddressExtraction.Line1WithoutStreetParts | src/Sonar.php:157-162 | without street_number or route components, line1 is "" |
| Submission.EarlyExit | src/Sonar.php:43-45 | the guard as written returns early only when `sonar_enable` is unset; any value set, "0" included, lets the pipeline run |
| Submission.Line2Overlay | src/Sonar.php:54-58 | line2 is written iff the candidate (the configured line-2 field's value, if the setting is non-empty, else the address field's address2) is truthy; the other keys are the extracted record's |
| Submission.MailingAddress | src/Sonar.php:77-81 | the mailing address is the address minus network_site_ids, address_status_id, latitude and longitude, with every other value kept |
| Submission.AccountInputShape | src/Sonar.php:83-106 | the account input refers to the returned address id; its mailing address keeps line1, city, subdivision, zip, country (and line2 iff written); it has one mobile phone whose country is the address's country code |
| Submission.SubjectDeterminesError | src/Sonar.php:124-138 | the error can be read back from the subject: it is what follows the frame "[Sonar Automation Error / form] Entry id - ", so equal subjects for the same entry mean the same error |
| Submission.ProcessComplete | src/Sonar.php:40-122 | the step-by-step handler produces exactly the trace `SubmissionTrace` gives: calls, emails and log lines on each path |
| Submission.EnableGuard | src/Sonar.php:43-60 | nothing happens iff `sonar_enable` is unset; otherwise the first effect is createAddress with the extracted address (no de-duplication) |
| Submission.AtMostOneMail | src/Sonar.php:60-122 | every run sends at most one operator email, and only to a truthy `sonar_error_report_email` |
| Submission.AccountOnlyAfterAddress | src/Sonar.php:68-109 | createAccount is called only as the second effect, only after createAddress returned a truthy id, and with an input that refers to that id |
| Submission.AddressFailureStops | src/Sonar.php:59-75 | a thrown or falsy createAddress result ends the run, without createAccount, after the createAddress call, the matching email (only if a report address is configured) and the log line "Error creating address: " + the message, or "No address ID returned from Sonar." |
| Submission.AccountOutcomeMail | src/Sonar.php:108-121 | after createAccount: a throw mails "Error Creating Account" with the fault, a falsy id mails "Unknown error creating account" with the input, and a truthy id mails nothing |
| Verification.SqStyle | src/Sonar.php:461-480 | the loop produces `StyleFor(res)`: "<style>", then one hide rule per answer other than res in list order, then "</style>" |
| Verification.StyleHidesOthers | Sonar.php:101-120 | each of Error, OnNetwork and ExpressionOfInterest hides exactly the other two in order; any other value hides all three |
| Verification.HiddenList | src/Sonar.php:463-470 | array_diff of the three answers with res, written out for each case |
| Verification.WithoutMembers | src/Sonar.php:470 | array_diff keeps exactly the answers different from res |
| Verification.StylesDistinct | src/Sonar.php:461-480 | different answers give different style fragments |
| Verification.ScanMarkers | src/Sonar.php:406-419 | the loop over the form fields yields, for every marker, the id of the last field whose CSS matches it |
| Verification.LastMarkedIsLast | src/Sonar.php:409-419 | the id found belongs to a field whose CSS contains the marker (ignoring case), and no later field's CSS does; no id is found iff no field matches |
| Verification.WithResponse | src/Sonar.php:444 | the write-back sets the response field's value to the answer, creating the field if needed, and leaves every other field and attribute as it was |
| Verification.StoreResponse | src/Sonar.php:439-449 | the entry is updated once, with only the response field changed, when the posted entry id is truthy and its fields decode to a non-empty array; otherwise nothing is written |
| Verification.SubmitSuccessResponse | src/Sonar.php:398-458 | non-SQ forms are returned untouched; a falsy place id gets only the Error style; otherwise the service is asked once about the decoded place, the entry is written back as StoreResponse says, and the confirmation is the style followed by the address/place_id substitution |
| Verification.RewriteWithoutTokens | src/Sonar.php:432-455 | a confirmation with neither token only gets the style in front, and a `false` answer selects the Error style |
| LegacySonar.SubmitSuccessResponse | Sonar.php:40-98 | the same three paths for the root copy, whose SQ request and both substitutions use the raw place-id and address values |

## Left out

- Sonar's GraphQL client (`SonarApi`), the SQ HTTP request inside doSQ, the
  `wp_remote_*` calls, `wp_mail`, `error_log` and the WPForms entry store are
  not part of this model. Each appears only as a parameter or as an event in
  the trace.
- The lookup tables for the settings panel (companies, account types and
  statuses), `add_settings_panel`, `settings_content`, `enqueue_scripts`, the
  hook registration in `boot` and the GitHub updater are left out. They are
  administration UI, not the submission core.
- The namespaced doSQ posts the whole decoded place-id value
  (`json_encode($place_id)`). The model's `SqRemote.doSq` oracle and the
  `VerifyPlace` event see only its `placeId` and `autocomplete_search` keys
  (`PlaceQuery`), so any other keys in the decoded value are not modelled.
  No contract depends on them.
- `base64_decode`/`json_decode` are left out; each is one oracle giving an
  optional decoded value. A value that does not decode, or lacks
  `address_components`, yields no components. That matches PHP: `foreach`
  over null warns and runs no iteration.
- Latitude and longitude are kept as opaque strings. The source's `(string)`
  cast of a float is not modelled.
- The `print_r` dumps in error emails are left out; the debug payload is kept
  as a structured value (`Debug`), not as text.
- PHP array iteration order for the address map is left out, because the
  model's address is a `map`.
- TypeErrors and warnings from malformed shapes are left out. Examples are a
  non-array field, a non-string `css`, and `in_array` on a missing `types`. A
  setting holding null is modelled as an absent setting.
- Concurrency between two submissions that write the same entry is left out.
  Each handler is modelled as a single run.
- The enable guard is modelled as written (`Submission.EarlyExit`). The "enabled"
  setting is not actually enforced: a present value of "0" still runs.
- processAddressField never reaches its final `throw`.
  A failed decode does not raise. The record it gives has "" for line1, city,
  zip, country, latitude and longitude, "_" for subdivision, "1" for
  address_status_id and an empty network_site_ids list
  (`AddressExtraction.UndecodedAddress`). So "Error creating address" mails
  come only from createAddress throwing.
- The marker scan: when several fields carry the same marker, the
  last one wins, as the loop overwrites. It does not keep the first.
- Repeated runs on the same entry are not
  de-duplicated. Each run starts with its own createAddress call.
