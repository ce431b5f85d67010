# ApiFinanceira: the simulated REST layer, in Dafny

ApiFinanceira is a browser app for recording expenses ("gasto") and income
("entrada"). It has no server. A small module plays the part of a REST API
over a list of entries that the browser keeps under one persisted key. This
project models that module and the types it works on.

The layer does five things:

- **Create.** `apiCreateEntry` validates a create request in a fixed order:
  1. the amount parses;
  2. the amount is finite and positive;
  3. the type is known;
  4. the description, once trimmed, is not empty;
  5. the card brand, if one is given, is listed.

  The first failing check decides the error message. An accepted request
  becomes an entry with a fresh id and the current time, its amount rounded to
  cents and its description trimmed. The entry goes to the head of the list.
- **List.** `apiListEntries` narrows the list with up to five optional filters:
  type, card brand, a case-insensitive search text, and a lower and an upper
  date bound.
- **Get.** `apiGetEntry` returns the first entry with a given id, or "not found".
- **Delete.** `apiDeleteEntry` removes that entry, or answers "not found".
- **Seed.** `apiSeedDemo` puts three fixed demo entries ahead of the list.

Amounts arrive as numbers or as Brazilian-format text ("1.234,56").
`toAmount` trims the text, deletes every '.', turns the first ',' into '.',
and reads the result with `Number(...)`.

Layout:

- `optional.dfy` (`Optional`): `Option`. `None` stands for JavaScript's
  `undefined` or a missing property.
- `types.dfy` (`Types`): card brands, entry types, the stored `Entry`, the
  error messages and the `ApiResponse` envelope.
- `js_runtime.dfy` (`JsRuntime`): the JavaScript built-ins the layer relies
  on, as functions on sequences with their properties proved. These are
  `filter`, `findIndex`, `trim`, `toLowerCase`, `includes`, `split/join`,
  `replace` and `Number(...)`.
- `api.dfy` (`Api`): amount normalisation, validation, the list filters, the
  demo entries, and `class EntryStore`. The class's `entries` field is the
  persisted list. `Create`, `Delete` and `SeedDemo` read the list, change it
  as a whole and write it back; `List` and `Get` only read it.

`Create` takes an `AmountRule`. Under `ParsedPositive` it checks the amount
exactly as `apiCreateEntry` is written (the parsed amount must be positive),
which can store an amount of 0 cents (see Findings). Under `RoundedPositive`
it applies the corrected check (the rounded amount must be positive).

Amounts are exact: a parsed amount is a `real`, and a stored amount is an
integer number of cents. Timestamps are integers in milliseconds. Fresh ids and
the current time are parameters of the operations that need them.

## Model

| member | source | states |
|---|---|---|
| Types.ParseBrand | src/types.ts:1-9 | a text parses to a brand exactly when it is that brand's name, and then to that brand |
| Types.ParseType | src/types.ts:11 | only "gasto" and "entrada" are entry types, and the parsed type's name is the text |
| Types.MessageTextInjective | src/types.ts:27-28 | different error messages have different texts, so a response determines its message text |
| JsRuntime.Filter | src/lib/api.ts:99-111 | every kept element comes from the input and passes the test; every element that passes is kept |
| JsRuntime.FilterIsSubsequence | src/lib/api.ts:99 | filtering keeps the original order |
| JsRuntime.FilterConcat | src/lib/api.ts:99 | filtering a concatenation is concatenating the filtered parts |
| JsRuntime.FilterCompose | src/lib/api.ts:99-100 | filtering twice is filtering once by the conjunction |
| JsRuntime.FilterStages | src/lib/api.ts:97-112 | five optional filters in a row are one filter by the conjunction of the active ones |
| JsRuntime.FindIndex | src/lib/api.ts:126 | `None` exactly when no element passes; otherwise the index of the first that does |
| JsRuntime.Trim | src/lib/api.ts:67 | trimming never lengthens a text, and a non-empty result neither starts nor ends with white space |
| JsRuntime.TrimCutsOnlyWhiteSpace | src/lib/api.ts:18 | the trimmed text is a contiguous stretch of the input, and everything outside that stretch is white space |
| JsRuntime.TrimKeeps | src/lib/api.ts:67 | every character that is not white space survives trimming |
| JsRuntime.TrimEmpty | src/lib/api.ts:67-68 | the trimmed description is empty exactly when the text is all white space |
| JsRuntime.TrimUnchanged | src/lib/api.ts:18 | a text without white space at its ends is its own trim |
| JsRuntime.TrimmedEnds | src/lib/api.ts:67 | a non-empty text that is its own trim has no white space at either end |
| JsRuntime.TrimIdempotent | src/lib/api.ts:67 | trimming twice is trimming once |
| JsRuntime.ToLower | src/lib/api.ts:102-103 | lower-casing keeps the length and maps each character by the lower-case mapping, position by position |
| JsRuntime.IncludesIffOccurs | src/lib/api.ts:103 | `includes` holds exactly when the needle occurs at some position |
| JsRuntime.RemoveAll | src/lib/api.ts:19 | `split(".").join("")` keeps only characters of the input other than '.', and keeps every such character |
| JsRuntime.RemoveAllIsSubsequence | src/lib/api.ts:19 | the result of deleting every '.' keeps the remaining characters in their original order |
| JsRuntime.RemoveAllCounts | src/lib/api.ts:19 | deleting every '.' leaves no '.' and keeps the count of every other character |
| JsRuntime.ReplaceFirst | src/lib/api.ts:20 | `replace(",", ".")` leaves a text without ',' unchanged; otherwise it replaces exactly the first ',' by '.' and keeps every other position |
| JsRuntime.ReplaceFirstCounts | src/lib/api.ts:20 | when there is a ',', replacing the first one takes one ',' out of the multiset of characters and puts one '.' in |
| JsRuntime.ParseUnsigned | src/lib/api.ts:21 | a text read as an unsigned decimal consists only of digits and '.' |
| JsRuntime.NumberOf | src/lib/api.ts:21 | the modelled `Number` gives a finite value only when the trimmed text consists of digits, '.', '-' and '+' |
| JsRuntime.NumberOfDigits | src/lib/api.ts:21 | `Number` reads a text of digits as its decimal value |
| JsRuntime.NumberOfComma | src/lib/api.ts:21-22 | a text holding a ',' is not a finite number |
| JsRuntime.NumberOfPoint | src/lib/api.ts:21 | `Number` reads "digits.digits" as its decimal value, where either part may be empty but not both |
| JsRuntime.NumberOfFixedTwo | src/lib/api.ts:21 | `Number` reads a two-decimal text of c cents back as c/100 |
| Api.Normalize | src/lib/api.ts:17-20 | the normalised text is the trimmed input with every '.' deleted, and then, if a ',' is left, its first ',' replaced by '.' at the same position |
| Api.IsFiniteNumber | src/lib/api.ts:10-12 | a number passes exactly when it is neither NaN nor an infinity |
| Api.ToAmount | src/lib/api.ts:14-25 | a result is always finite; a finite number passes unchanged; a non-finite number or a value of another type gives none |
| Api.ToAmountWholeNumber | src/lib/api.ts:14-25 | a text of digits and dots (no ',') is read as the whole number its digits spell, with every '.' ignored; a text of dots alone, like `Number("")`, reads as 0 |
| Api.ToAmountDecimalComma | src/lib/api.ts:14-25 | a text "w,f", with w digits and dots and f digits, is read as the decimal value of w without its dots and f as fraction |
| Api.ToAmountManyCommas | src/lib/api.ts:14-25 | a text with two or more ',' after trimming is not an amount |
| Api.NormalizeDecimalComma | src/lib/api.ts:17-20 | normalising "w,f" gives w without its dots, a '.', then f |
| Api.GroupThousands | src/lib/api.ts:17-20 | grouping digits in threes gives a text of digits and dots that starts and ends with the input's first and last digits |
| Api.RemoveDotsFromGroups | src/lib/api.ts:19 | deleting every '.' of grouped digits gives the digits back |
| Api.NormalizeBrazilian | src/lib/api.ts:17-20 | normalising "1.234,56"-style text gives "1234.56" |
| Api.ToAmountBrazilian | src/lib/api.ts:14-25 | an amount written the Brazilian way is read as exactly its cents over 100 |
| Api.RoundCents | src/lib/api.ts:81 | the stored cents are the nearest whole number to amount × 100, with halves rounded up |
| Api.Brands | src/lib/api.ts:27-36 | BRANDS holds eight texts, and each one parses to the card brand of that name |
| Api.BrandsAreTheCardBrands | src/lib/api.ts:27-36 | BRANDS lists the eight card brands, each once, and nothing else |
| Api.DescriptionOf | src/lib/api.ts:67 | an absent description counts as ""; the trimmed description is no longer than the text and has no white space at its ends |
| Api.DescriptionGivenIff | src/lib/api.ts:67-70 | the description check passes exactly when a description is given and holds a character that is not white space |
| Api.ValidateUnder | src/lib/api.ts:53-75 | a request is rejected exactly when some check fails, with the message of the first failing check in the order amount, amount sign, type, description, brand |
| Api.NewEntry | src/lib/api.ts:77-84 | the new entry has the given id and time, the type named by the request, the amount rounded to the nearest cent, the trimmed description, and a brand only when the request names one, under that name |
| Api.AcceptedEntry | src/lib/api.ts:77-84 | an accepted request becomes an entry with the given id and time, the named type, the rounded amount, the trimmed non-empty description and the brand named, if one was given |
| Api.RequestFields | src/lib/api.ts:69-84 | a type text that parses is the name of its type, a listed brand text is the name of the brand it parses to, and the request's trimmed description is its own trim |
| Api.AcceptedIsStorable | src/lib/api.ts:53-84 | an accepted entry has zero or more cents and a non-empty trimmed description; under the corrected rule its cents are positive |
| Api.ValidateAsWritten | src/lib/api.ts:58-81 | as written, an accepted entry is storable: zero or more cents (zero is possible) and a non-empty trimmed description |
| Api.Validate | src/lib/api.ts:53-84 | every accepted entry is well formed: positive cents and a non-empty description without surrounding white space |
| Api.CorrectionOnlyRejectsZeroCents | src/lib/api.ts:58-60 | the corrected check differs from the written one only on amounts in (0, 0.005), which it rejects as not positive |
| Api.AsWrittenStoresZeroAmount | src/lib/api.ts:58-81 | every amount in (0, 0.005), e.g. 0.004, is accepted as written and stored as 0 cents, and the corrected check rejects it |
| Api.ListEntries | src/lib/api.ts:93-115 | the chain of optional filters is a single filter by the conjunction of the active conditions |
| Api.ListContents | src/lib/api.ts:93-115 | the list holds exactly the stored entries that match every active filter, in stored order |
| Api.ListWithoutFilters | src/lib/api.ts:93-97 | with no parameters, the whole list is returned |
| Api.ListIsIntersection | src/lib/api.ts:99-112 | an entry is listed under combined filters exactly when it is listed under each filter alone |
| Api.DemoEntries | src/lib/api.ts:135-159 | there are three demo entries, each well formed |
| Api.DemoTypes | src/lib/api.ts:135-159 | the demo entries are two expenses and one income |
| Api.SeedingTwiceDuplicates | src/lib/api.ts:160 | seeding twice stacks two copies with equal payloads (four expenses, two incomes) over the old list; seeding is not idempotent |
| Api.PrependPreserves | src/lib/api.ts:87 | putting an entry with a fresh id at the head keeps the list storable (well formed, if the entry is) and its ids unique |
| Api.RemoveAtPreserves | src/lib/api.ts:128 | removing one entry keeps the list storable and well formed; with unique ids, the removed id is gone |
| Api.EntryStore.Create | src/lib/api.ts:53-91 | the response is the as-written validation's under `ParsedPositive` and the corrected one's under `RoundedPositive`; a rejection leaves the list unchanged; an acceptance puts the new entry at the head; the list stays storable, and well formed under the corrected rule; ids stay unique when the new id is fresh |
| Api.EntryStore.List | src/lib/api.ts:93-115 | always succeeds, returns the matching entries in stored order and changes nothing |
| Api.EntryStore.Get | src/lib/api.ts:117-122 | "not found" exactly when no entry has the id; otherwise the first entry with it |
| Api.EntryStore.Delete | src/lib/api.ts:124-131 | "not found" (list unchanged) exactly when no entry has the id; otherwise the first such entry is removed and nothing else; the list stays storable and well formed |
| Api.EntryStore.SeedDemo | src/lib/api.ts:133-162 | the three demo entries go ahead of the old list, the response reports 3, and the list stays storable and well formed |

## Left out

- Persistence (`src/lib/storage.ts` is not part of this model). The `entries`
  field stands for the stored list. Loading and saving are assumed to
  succeed. `localStorage.setItem` can throw, for example when the storage
  quota is full; create, delete and seed would then throw instead of
  answering, and that is not modelled.
  Loading falls back to an empty list on unreadable data; that fallback is
  not modelled.
- `uuid()` and `Date` are parameters. No check is made that a fresh id is new.
  Id uniqueness is proved preserved only under the condition that the new ids
  are absent from the list.
- `createdAt` is an integer timestamp, not an ISO string. The `from`/`to`
  bounds are `Option<int>`, where `None` means absent, empty or not a valid
  date. Date-string parsing is not modelled.
- `Number(...)` is modelled only for these forms: optional surrounding white
  space, an optional sign, and digits with an optional fraction, or
  "Infinity". The model reads every other text as NaN. That includes
  exponents and the hexadecimal ("0x"), octal ("0o") and binary ("0b")
  forms. So `toAmount("1e3")` is 1000 in the source, but gives none in the
  model, where the request is rejected as an invalid amount.
  Floating-point rounding and overflow are not modelled either: amounts are
  exact reals.
- `Api.RoundCents`: the rounding is exact. It does not reproduce the
  binary-floating-point error of `amount * 100`.
- `JsRuntime.ToLower`: covers ASCII and Latin-1 letters only. Other Unicode
  case mappings are left out.
- `!description` is modelled by `DescriptionOf(input) != ""` (a missing
  description counts as empty), and `cardBrand && ...` by `Truthy`. A
  non-string `cardBrand` or `description` in a request is not modelled.
- The list filter's type and brand parameters range over the known entry
  types and brands, plus "all". So an unknown type text as a filter, which
  would list nothing, is not modelled.
- Error `details` is an optional string and is always absent. The message is
  kept as an `ErrorMessage` value, and `MessageText` gives its text.
- The React front end (`App.tsx`, `Field.tsx`, `JsonBlock.tsx`) is not part
  of this model.

## Findings

| source | as written | input that shows it | evidently intended | confidence | as-written member | corrected member |
|---|---|---|---|---|---|---|
| src/lib/api.ts:58-81 | the "amount must be > 0" check runs on the parsed amount before rounding to cents | amount 0.004 with type "gasto" and description "Troco": accepted and stored with amount 0 | a stored amount is always positive: reject amounts that round to 0 cents | medium, not executed | Api.AsWrittenStoresZeroAmount | Api.Validate |
