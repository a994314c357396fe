# FMP plate pusher: a Dafny model of `send_plates`

The repository is one Flask endpoint, `/send_plates`. It takes a comma-separated
list of ShotGrid element ids, fetches those elements, maps each one to a
FileMaker Data API record with thirteen fixed fields, opens a FileMaker
session, posts the records in one batch and reports what it sent. This
project models the deterministic logic inside that endpoint and proves what
it does:

- `selected_ids.dfy` (module `SelectedIds`): the id parser
  `[int(x) for x in raw.split(",") if x.strip().isdigit()]`, its two refusals
  (400 "Invalid selected_ids" when `int` raises, 400 "No valid IDs provided" when
  nothing survives), and Python's `split`, `strip`, `isdigit` and `int` on ASCII
  digits, with the cases in which `int` raises on an accepted token modelled
  explicitly. Proved: split/join and render/`int` round trips, the exact shape
  of an accepted token, that "Invalid selected_ids" comes exactly when `int`
  raises on one, and that the k-th id is the value of the k-th accepted token.
- `debug_flag.dfy` (module `DebugFlag`): `value.lower() in ("1", "true", "yes")`.
- `field_mapping.dfy` (module `FieldMapping`): the thirteen-entry table from
  FileMaker field name to ShotGrid field, the two entity-reference lookups
  `el.get(f, {}).get(k)`, the filter that drops `None`, `""` and `[]`, and the
  loop that appends one `{"fieldData": ...}` record per element (a method with a
  loop invariant over the processed prefix).
- `filemaker_session.dfy` (module `FileMakerSession`): the acceptance rule of
  `fm_get_token` for the session reply.
- `send_plates.dfy` (module `SendPlates`): the success body, and the endpoint
  as a method. The answers of ShotGrid and FileMaker are parameters. The
  requests it makes come back as a trace of `Call`s.
- `values.dfy` (module `Values`): the JSON-like Python values (`RawValue`),
  `dict.get` and Python truthiness. `wrappers.dfy`: `Option` and `Result`.

Behaviour the model keeps from the code:

- Every fetched element yields a record, even one whose `fieldData` is empty.
  Nothing is skipped.
- `0` is a valid id. Duplicates are kept. No sign is accepted. Whitespace is
  allowed only around the digits.
- `strip()` and `int()` disagree about whitespace. `strip()` also removes the
  characters U+001C to U+001F. `int()` skips only ' ' and '\t' to '\r' among
  the ASCII characters, and maps non-ASCII whitespace to ' ' first. So a token
  such as `"\x1c7"` passes the filter but makes `int` raise `ValueError`: the
  whole request gets 400 "Invalid selected_ids". So does an accepted token of
  more than 4300 digits. `"\xa07"` (a no-break space) is accepted as 7.
- A reference field (`sg_latest_version` or `shot`) that is present but holds
  anything other than a dict makes `.get` raise `AttributeError`. A null
  reference does this too. Nothing catches the error, so the whole request
  fails with the framework's own 500 page. `FieldMapping.ElementFieldDataFails`
  states exactly when this happens.
- The session is never closed (`fm_close_session` is never called). Records
  are posted even when the list is empty. The status of the record-creation
  reply is never checked: any JSON reply is reported as a success.
- The debug parameter is lower-cased but not trimmed: `" true"` is off.

The code does not do several things an endpoint of this kind might be
expected to do. It does not skip entities with no mapped fields. It keeps no
per-entity status or count. It does not stop early on an empty batch. It does
not check the batch reply's status. It does not release the session. It
never falls back from a reference's name to its id. It never joins lists with
`", "`. The model does none of these either.

## Model

| member | source | states |
|---|---|---|
| `SelectedIds.ParseSelectedIds` | send_plates.py:81-88 | An accepted id list is the comprehension's result: never empty, at most one id per comma-separated token, and no token in it makes `int` raise. |
| `SelectedIds.ParseSelectedIdsInvalid` | send_plates.py:81-84 | 400 "Invalid selected_ids" comes exactly when `int` raises on some token that passed the filter. |
| `SelectedIds.ParseSelectedIdsRefused` | send_plates.py:86-87 | 400 "No valid IDs provided" comes exactly when no token passes `x.strip().isdigit()`. |
| `SelectedIds.ValidIds` | send_plates.py:82 | The comprehension yields at most one id per token. |
| `SelectedIds.ValidIdsAt` | send_plates.py:82 | There is one id per accepted token. The k-th id is the decimal value of the k-th accepted token, in input order, with every accepted token counted and duplicates kept. |
| `SelectedIds.ValidIdsAppend` | send_plates.py:82 | The comprehension over two token lists joined is the concatenation of the two results. |
| `SelectedIds.ValidIdsEmpty` | send_plates.py:82 | The comprehension yields nothing exactly when no token is accepted. |
| `SelectedIds.Split` | send_plates.py:82 | `split(",")` always yields at least one piece, and no piece contains a comma. |
| `SelectedIds.SplitJoin` | send_plates.py:82 | Splitting on `,` the join of comma-free pieces gives back those pieces. |
| `SelectedIds.JoinSplit` | send_plates.py:82 | Joining the pieces of `split(",")` with `,` gives back the original string. |
| `SelectedIds.Strip` | send_plates.py:82 | `strip()` never lengthens a string and leaves no whitespace at either end. |
| `SelectedIds.SpaceEndSkips` | send_plates.py:82 | The leading part that `strip()` removes is all whitespace and stops at the first non-space. |
| `SelectedIds.SpaceStartSkips` | send_plates.py:82 | The trailing part that `strip()` removes is all whitespace and stops after the last non-space. |
| `SelectedIds.StripPadded` | send_plates.py:82 | `strip()` removes the whitespace around a word that neither starts nor ends with whitespace, and nothing else. |
| `SelectedIds.StripSplits` | send_plates.py:82 | Every string is its stripped form with only whitespace before and after it. |
| `SelectedIds.IsIdToken` | send_plates.py:82 | A token passes the filter exactly when it is whitespace, then one or more ASCII digits, then whitespace. |
| `SelectedIds.IdTokenCharacters` | send_plates.py:82 | An accepted token holds only digits and whitespace: no sign, so every id is at least 0. |
| `SelectedIds.DigitsValue` | send_plates.py:82 | The value of k digits is below 10^k, and at least 10^(k-1) when the first digit is not 0. |
| `SelectedIds.TokenValue` | send_plates.py:82 | `int` of an accepted token is below 10 to the number of its digits. Without a leading zero, `str` of it gives the stripped token back. |
| `SelectedIds.DigitsShow` | send_plates.py:82 | A digit string without a leading zero is the rendering of its value. |
| `SelectedIds.ShowNatValue` | send_plates.py:82 | `int` of the decimal rendering of `n` is `n`. |
| `SelectedIds.ShowNatToken` | send_plates.py:82-84 | A rendered id has no comma, passes the filter and converts back to itself. `int` raises on it exactly when it has more than 4300 digits. |
| `SelectedIds.ParseShowIds` | send_plates.py:81-88 | Parsing a non-empty id list written as `",".join(map(str, ids))`, each id of at most 4300 digits, gives back exactly that list. |
| `SelectedIds.ParseShowIdsTooLong` | send_plates.py:81-84 | Such a list with an id of more than 4300 digits is refused as invalid. |
| `SelectedIds.ParseJoinedAccepted` | send_plates.py:81-88 | Comma-free tokens joined by commas, none raising and some accepted, parse to the comprehension's result. |
| `SelectedIds.ParseJoinedRefused` | send_plates.py:86-87 | Comma-free tokens joined by commas, none accepted, are refused with "No valid IDs provided". |
| `SelectedIds.ParseJoinedInvalid` | send_plates.py:81-84 | Comma-free tokens joined by commas, one raising, are refused with "Invalid selected_ids". |
| `SelectedIds.ExamplePaddedToken` | send_plates.py:82 | `" 7 "` is accepted as 7. |
| `SelectedIds.ExampleLettersRefused` | send_plates.py:82 | `"abc"` is not accepted. |
| `SelectedIds.ExampleNonNumericDropped` | send_plates.py:82 | `"7,abc,9"` gives `[7, 9]`. |
| `SelectedIds.ExamplePaddingAndEmptyTokens` | send_plates.py:82 | `" 7 ,,8"` gives `[7, 8]`. |
| `SelectedIds.ExampleNonAsciiPaddingKept` | send_plates.py:82 | `"\xa07"` gives `[7]`. |
| `SelectedIds.ExampleSeparatorPaddingInvalid` | send_plates.py:81-84 | `"7,\x1c8"` is refused as invalid, although `"7"` alone gives `[7]`. |
| `SelectedIds.ExampleSignsRefused` | send_plates.py:82-87 | `"-3,+4"` is refused with "No valid IDs provided". |
| `SelectedIds.ExampleEmptyRefused` | send_plates.py:82-87 | The empty parameter is refused with "No valid IDs provided". |
| `SelectedIds.ExampleZeroAndDuplicatesKept` | send_plates.py:82 | `"0,0"` gives `[0, 0]`. |
| `DebugFlag.Lower` | send_plates.py:72 | `lower()` works character by character, keeps the length and leaves no upper-case ASCII letter. |
| `DebugFlag.IsDebugOn` | send_plates.py:72 | The flag is on exactly for `"1"` and for `"true"` or `"yes"` in any mix of cases; there is no trimming. |
| `DebugFlag.LowerIsWord` | send_plates.py:72 | Lower-casing gives a lower-case word exactly when the input spells it in any case. |
| `DebugFlag.SpellsOne` | send_plates.py:72 | Only `"1"` itself spells `"1"`. |
| `DebugFlag.LowerIdempotent` | send_plates.py:72 | Lower-casing twice is lower-casing once. |
| `DebugFlag.DebugOnIgnoresCase` | send_plates.py:72 | The flag of a lower-cased parameter equals the flag of the parameter. |
| `DebugFlag.ExamplesOn` | send_plates.py:72 | `"TRUE"`, `"Yes"` and `"1"` are on. |
| `DebugFlag.ExamplesOff` | send_plates.py:72 | `""`, `"0"`, `"on"` and `" true"` are off. |
| `Values.Truthy` | send_plates.py:48 | A value is falsy exactly when it is None, False, 0, or an empty string, list or dict. |
| `FieldMapping.Lookup` | send_plates.py:124-139 | A lookup reads the element's fields with `Values.Get`, Python's `dict.get`. It fails exactly when it reads through a reference that is present but not a dict, and the error carries what it found. |
| `FieldMapping.MappedFields` | send_plates.py:124-140 | `mapped_fields` has one entry per table row, in table order, each with its looked-up value; it fails exactly when one of the lookups fails. |
| `FieldMapping.Kept` | send_plates.py:141 | A value is dropped exactly when it is `None`, `""` or `[]`; every truthy value is kept, and so are `False`, `0` and `{}`. |
| `FieldMapping.KeepFilled` | send_plates.py:141 | The filtered `fieldData` keeps only entries whose value is not `None`, `""` or `[]`, all taken from the input. |
| `FieldMapping.ElementFieldData` | send_plates.py:122-141 | Every key of a record's `fieldData` is one of the thirteen FileMaker names, and no kept value is `None`, `""` or `[]`. |
| `FieldMapping.TableTargetsDistinct` | send_plates.py:126-140 | No two entries of the mapping write the same FileMaker field. |
| `FieldMapping.KeepFilledValue` | send_plates.py:141 | After filtering, a key keeps its value exactly when that value is not `None`, `""` or `[]`. |
| `FieldMapping.FieldDataEntry` | send_plates.py:124-141 | Each FileMaker field holds the value its table row looks up, unchanged, and is absent when that value is empty. |
| `FieldMapping.DirectFieldUnchanged` | send_plates.py:128-141 | A directly copied field equals the element's source field and is absent when the source is missing or empty. |
| `FieldMapping.SlateIsSourceSlate` | send_plates.py:128 | `fieldData["Slate"]` is `el["sg_slate"]`. It is absent when `sg_slate` is missing or empty. |
| `FieldMapping.ForeignKeyIsShotId` | send_plates.py:125-139 | `ForeignKey` is the `id` of the `shot` reference, never its name. It is absent when `shot` is absent. |
| `FieldMapping.PlateNameIsVersionName` | send_plates.py:124-127 | `Plate Name` is the `name` of the `sg_latest_version` reference. It is absent when that field is absent. |
| `FieldMapping.MappedFieldsFirstError` | send_plates.py:124-125 | The mapping fails with the error of the first failing lookup. |
| `FieldMapping.ElementFieldDataFails` | send_plates.py:124-125 | Mapping an element fails exactly when a reference field is present but not a dict (null included), and `sg_latest_version` is checked first. |
| `FieldMapping.KeepFilledDistinct` | send_plates.py:141 | Filtering keeps keys distinct. |
| `FieldMapping.FieldDataDistinct` | send_plates.py:126-141 | Each FileMaker name occurs at most once in a record. |
| `FieldMapping.EmptyElementGivesEmptyRecord` | send_plates.py:141-142 | An element with no fields maps to an empty `fieldData`, not to an error. |
| `FieldMapping.KeepFilledNone` | send_plates.py:141 | When every value is empty, the filtered `fieldData` is empty. |
| `FieldMapping.ExampleZeroKept` | send_plates.py:141 | A slate of `0` is kept. |
| `FieldMapping.ExampleFalseKept` | send_plates.py:141 | A LUT of `false` is kept. |
| `FieldMapping.ExampleEmptyStringDropped` | send_plates.py:141 | An empty description leaves `Notes` out. |
| `FieldMapping.ExampleShotIdNotName` | send_plates.py:125 | A shot `{"id": 42, "name": "SH010"}` gives `ForeignKey` 42. |
| `FieldMapping.ExampleNullReferenceFails` | send_plates.py:125 | A null `shot` makes the mapping fail with `AttributeError`. |
| `FieldMapping.BuildRecords` | send_plates.py:122-142 | The loop yields exactly one record per element, in order, each with that element's `fieldData`, empty ones included. It fails exactly when some element fails, and with the first failing element's error. |
| `FileMakerSession.SessionToken` | send_plates.py:45-50 | Any status other than 200 or 201 is an error. A returned token always came with status 200 or 201 and is non-empty. |
| `FileMakerSession.SessionAccepted` | send_plates.py:45-50 | It succeeds exactly when the status is 200 or 201 and the reply carries a non-empty `response.token`, and the token returned is that one. |
| `FileMakerSession.EmptyTokenRefused` | send_plates.py:47-49 | An empty token string is an error even with a success status. |
| `FileMakerSession.MissingResponseRefused` | send_plates.py:47-49 | A reply without `response` is an error. |
| `SendPlates.ReportedCount` | send_plates.py:155 | The number in the message reads back as the number of records sent. |
| `SendPlates.HiddenReplyDoesNotLeak` | send_plates.py:157 | With debug off the body is the same whatever FileMaker replied, and shows `"hidden (debug off)"`. |
| `SendPlates.Report` | send_plates.py:154-158 | The body lists exactly the records sent, and shows the FileMaker reply only when debug is on. |
| `SendPlates.SendToFileMaker` | send_plates.py:145-152 | A refused session fails with its cause after the session request alone. Otherwise the records are posted, and the decoded reply is returned, or "not JSON" is the failure. |
| `SendPlates.SendPlates` | send_plates.py:72-158 | A malformed id list gets 400 "Invalid selected_ids", and an empty one 400 "No valid IDs provided", both before any request. A broken reference ends the request unhandled with the first failing element's error, before FileMaker is contacted. A refused session gets 500 with its cause, after the query and the session request alone. A reply that is not JSON gets 500 after the records were posted. A 200 reports exactly the posted records, one per element, after exactly the query, the session and the post, and answers with any JSON reply whatever its status. |

## Left out

- Flask routing and the choice between query string and form (`send_plates.py:66-76`): the model takes the resulting strings. The `"Element"` default for `entity_type` is left out with it.
- Environment configuration (`send_plates.py:14-22`, `164-167`) and the credential check of `get_sg_connection` (`send_plates.py:28-32`). The model assumes the ShotGrid connection opens and the query at `send_plates.py:113` succeeds. An exception from either would go unhandled.
- The ShotGrid query and its field list (`send_plates.py:92-113`): the query shows up in the trace, and the returned `elements` is a parameter. The model does not relate `elements` to the ids queried.
- The HTTP requests, `r.json()` and `jsonify`. A reply body is given decoded, or as "not JSON". Connection errors raised by `requests` are not modelled; the code would catch them and answer 500 like the other send failures.
- The text of the caught exception in `"Failed to send to FileMaker: {e}"`: the model carries the structured cause instead.
- HTTP Basic credentials in Base64 (section 2 of RFC 7617, `send_plates.py:38-39`): a library call.
- `fm_close_session` (`send_plates.py:53-59`): it is never called.
- The `print` debug output (`send_plates.py:79`, `111`, `116-119`).
- SelectedIds.ParseSelectedIds: only ASCII digits count as digits. Python's `isdigit` also accepts other Unicode digits, such as other scripts' decimal digits and superscripts. `int` converts some of these and raises on the others. The model treats a token made of such digits as not accepted, so it drops the token rather than converting it or refusing the request. The `except` branch (`send_plates.py:83-84`) is modelled for ASCII tokens: a character from U+001C to U+001F in the padding, or more than 4300 digits. That limit is CPython's default `int_max_str_digits`, which an interpreter can change.
- DebugFlag.Lower: it maps only ASCII letters. No other character lowers to one of the letters of "true" or "yes", or to "1", so the flag's value is not affected.
- Floating-point values are not among the `RawValue` shapes.
