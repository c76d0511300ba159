# auto-api in Dafny

A Dafny model of the contract-and-dispatch core of `auto-api`, a Rust
framework built on axum. An endpoint declares its route, its method, a context
step, a handler and four typed slots: path parameters, query, payload and
output. From those declarations the framework derives three things:

- a request pipeline that parses, validates and runs the endpoint;
- an OpenAPI 3.0.3 document;
- a TypeScript definitions module.

All three are built from one `Registry` of the registered endpoints.

The model follows the source file by file:

- `void.rs`, `schema.rs` (modules `Void`, `Schema`): the unit "void" slot
  type and the capability bundle of a slot type. The foreign derives (serde,
  serde_qs, axum's `Path`, schemars, shape) are function fields whose
  behaviour is left open.
- `error.rs`, `response.rs` (modules `ApiErrors`, `Responses`):
  - the eleven error kinds and their serde tags;
  - garde's status range;
  - the trimmed message;
  - the `{error: ...}` envelope and the status conversion that may panic;
  - the JSON response and its 500 fallback.
- `endpoint.rs` (module `Endpoints`):
  - the pipeline `handle` as a chain of stages that stops at the first
    failure;
  - `read_body` as a loop method, proved against its specification function;
  - `is_content_type_json`, over an explicit media-type parser (module
    `Mime`) that follows the parser of the mime crate, version 0.3. That
    parser is stricter than the grammar of section 8.3.1 of RFC 9110: it
    refuses whitespace before `;`, tabs after it, empty parameters and
    quoted-pairs.
- `registry.rs`:
  - module `RegistryItems`: the item built by `register` and the two-level
    ordered table;
  - modules `OpenApi`, `TsDefinitions`, `Router`: specification functions
    for the three builders;
  - module `Registries`: the `Registry` class, with `register` updating
    the table in place and the builders written as the source's loops, each
    proved equal to its specification function.
- `ts.rs` (module `TsInline`):
  - the regex rewrite `([<,:]?)(\s*)NAME(\s*)([,><])` as an explicit
    leftmost-first scanner;
  - the visitor class;
  - the two substitution loops.
- `util.rs` and the parts of garde the core relies on (module `Validation`):
  - garde reports as lists of (path, rule);
  - `dive_vec` as a loop method;
  - `dive_option`.
- `api/shared.rs`, `api/users/*.rs`, `api/mod.rs` (modules `Shared`, `Users`,
  `UsersList`, `UsersGet`, `Api`):
  - pagination and its rules;
  - the `User` rules;
  - the two example endpoints run through the generic pipeline;
  - `registry()`, as a method that builds the registry.

Support modules: `Wrappers` (`Option`, `Result`, `Outcome`); `Text` (Unicode
`White_Space`, `trim`, ASCII lower case, UTF-8 length, decimal digits);
`JsonValues` (serde_json values with insertion-ordered objects, which is
serde_json's `preserve_order` feature, and JSON string escaping); `Entries`
(the search by key of lists of (key, value) entries); `Http` (methods, request heads, bodies, responses, header text,
panics).

Where the specification of the system and the code disagree, the model follows the code:

- `Void::void` returns `None` for a non-unit type (src/void.rs:14). It does
  not fail.
- An `ApiError` built by an endpoint's own `ctx` or `run` may carry any
  `u16` status. `into_response` panics only when the status is not a
  three-digit code (src/error.rs:62). Garde's 400..=599 range is never
  checked there. `Endpoints.PanicsOnlyFromEndpointErrors` states exactly
  when a panic happens.
- The content-type check compares the media type's essence. So parameters
  such as `; charset=utf-8` are accepted, and so are upper-case type and
  subtype (src/endpoint.rs:265-270). Parameters the mime crate cannot read,
  such as ` ;charset=utf-8`, make the header unparsable, and the payload is
  refused.
- The TypeScript substitution guards against nothing. Each name is
  replaced once per declaration, in the map's iteration order
  (src/ts.rs:15-33).
- `src/endpoint.rs:62,91,133` call `is_empty()`/`empty()`, but
  `src/void.rs` defines `is_void()`/`void()`. They are read as `is_void`
  and the unit value.
- `src/registry.rs:39-42` matches `Ok`/`Err` on the plain `Response` of
  `Endpoint::handle`. The registry handler is read as forwarding that
  response.
- `src/api/users/get.rs:10` imports `Item`, which `src/api/users/mod.rs`
  does not declare. The get endpoint's output is read as `User`.

## Model

| member | source | states |
|---|---|---|
| Void.VoidValue | src/void.rs:9-15 | `void()` is `None` for every non-unit type; for a well-formed description it is `Some` exactly for `()` |
| Void.UnitInfo | src/void.rs:4-6 | the description of `()` is well formed and void |
| Void.NamedInfo | src/void.rs:4-6 | any other type's description is well formed and not void |
| Void.VoidOfUnit | src/void.rs:9-13 | `void::<()>()` is `Some(())` |
| Schema.UnitDesc | src/void.rs:19 | `()` has every capability, is void and always passes validation |
| ApiErrors.ElevenKinds | src/error.rs:24-41 | the kind taxonomy has exactly eleven distinct members and every kind is one of them |
| ApiErrors.KindFromTag | src/error.rs:23-24 | a tag read back as a kind is that kind's SCREAMING_SNAKE_CASE tag |
| ApiErrors.KindTagRoundTrip | src/error.rs:23-24 | every kind is read back from its own tag, so tags are distinct |
| ApiErrors.Normalize | src/error.rs:11-20 | the derived `Normalize`: `#[normalize(trim)]` trims `message`, `#[normalize(skip)]` keeps `status`, and `#[normalize(dive)]` into the kind, whose variants carry no data, keeps it; `into_response` applies it to the payload before serialising (src/error.rs:59); `IntoResponseNormalized` and `Text.TrimIdempotent` state that applying it again changes nothing |
| ApiErrors.ErrorToJson | src/error.rs:8-41 | the serde form `{status, kind, message}` with the kind as its SCREAMING_SNAKE_CASE tag; `PayloadRoundTrip` states that it decodes back |
| ApiErrors.PayloadToJson | src/error.rs:48-53 | the envelope `{error: …}` around that object; `PayloadRoundTrip` states the round trip of the envelope |
| ApiErrors.PayloadRoundTrip | src/error.rs:8-21 | the envelope `{error: {status, kind, message}}`, flattened kind included, decodes back to the envelope it was written from |
| ApiErrors.IntoResponse | src/error.rs:55-65 | the conversion panics exactly for a status outside 100..=999; otherwise the response has the error's status and the JSON content type |
| ApiErrors.IntoResponseBody | src/error.rs:57-60 | the body decodes to the single-field envelope with status and kind unchanged and the message trimmed |
| ApiErrors.IntoResponseNormalized | src/error.rs:18-20 | normalising before the conversion changes nothing: trimming is idempotent |
| Text.TrimStart | src/error.rs:18 | `trim_start` drops exactly the leading whitespace and keeps a suffix |
| Text.TrimEnd | src/error.rs:18 | `trim_end` drops exactly the trailing whitespace and keeps a prefix |
| Text.TrimShape | src/error.rs:18 | the trimmed message is a slice of the original with no whitespace at either end |
| Text.TrimCutsWhitespace | src/error.rs:18 | only whitespace is cut away on both sides |
| Text.TrimEnds | src/error.rs:18 | a non-empty trimmed message starts and ends with a non-whitespace character |
| Text.TrimMiddle | src/error.rs:18 | the trimmed message is the slice of the original that starts where the leading whitespace ends |
| Text.TrimIdempotent | src/error.rs:18 | trimming twice is trimming once |
| Text.LowerAscii | src/registry.rs:423 | ASCII lower case folds letters one by one and keeps the length |
| Text.CharUtf8Len | src/api/users/mod.rs:20 | every character takes one to four bytes in UTF-8 |
| Text.Utf8Len | src/api/users/mod.rs:20 | the byte length of UTF-8 text lies between one and four bytes per character |
| Text.Decimal | src/endpoint.rs:238 | the payload limit is written as decimal digits without leading zeros |
| Text.DecimalRoundTrip | src/endpoint.rs:238 | those digits read back as the limit |
| Responses.IntoJsonResponse | src/response.rs:5-21 | the result never panics; a value that serialises gives a fresh 200 response with its JSON and the JSON content type; otherwise the answer is the error response of a 500 `Internal` "error serializing response" |
| Responses.SerializeFailureResponse | src/response.rs:8-15 | the fallback is a 500 whose body decodes to the `INTERNAL` envelope with the fixed message |
| Http.HeaderGet | src/endpoint.rs:255-258 | `HeaderMap::get`: a header is found exactly when one is stored under the name, and the value found is the one stored first under it |
| Http.HeaderGetFirst | src/endpoint.rs:255-258 | when header `k` is the first under the name, its value is read, whatever follows |
| Http.HeaderToStrSpec | src/endpoint.rs:260-263 | `to_str` succeeds exactly when every byte is visible ASCII or a tab, and then keeps every byte as a character |
| Http.AsciiBytes | src/endpoint.rs:260-263 | an ASCII text written as header bytes keeps its length and every code |
| Http.HeaderToStrAscii | src/endpoint.rs:260-263 | a header written from visible ASCII text reads back as that text |
| Http.MethodByName | src/registry.rs:143-149 | two methods `http::Method` can hold are equal exactly when their names are, so an extension method never duplicates a standard one |
| Entries.FindKey | src/registry.rs:143-149 | the position found holds the key and no earlier entry does; none means no entry has the key |
| Entries.FindKeyFirst | src/registry.rs:342 | the first entry with the key is the one found |
| Entries.FindKeyUnique | src/registry.rs:104-107 | with distinct keys an entry is found at its only position |
| Entries.FindKeyAppendOther | src/registry.rs:220-234 | appending an entry under another key changes nothing found |
| Entries.FindKeyAppendNew | src/registry.rs:220-234 | an entry appended under a new key is found at the end |
| Mime.ParseMediaType | src/endpoint.rs:265-268 | `Mime::from_str`: a token type, `/`, a token subtype and then `;`-led parameters or nothing; `EssenceIgnoresParameters`, `NoSlashNoMediaType`, `BadParametersNoMediaType` and the parameter lemmas below state which texts it accepts and what it returns |
| Mime.EssenceIgnoresParameters | src/endpoint.rs:265-270 | a `type/subtype` followed by well-formed parameters parses, with lower-cased type and subtype and the parameters ignored |
| Mime.NoSlashNoMediaType | src/endpoint.rs:265-268 | text without a slash is not a media type |
| Mime.TokenLen | src/endpoint.rs:265-268 | the token scanned is the longest run of `tchar` characters |
| Mime.SpaceLen | src/endpoint.rs:265-268 | the run scanned is the longest run of spaces |
| Mime.QuotedLen | src/endpoint.rs:265-268 | the quoted text found holds at least one character before its closing quote |
| Mime.CloseQuote | src/endpoint.rs:265-268 | the scan ends just past a closing quote |
| Mime.TypeThenSlash | src/endpoint.rs:265-268 | a token type before the slash is taken whole, and parsing goes on after the slash |
| Mime.SubtypeThenParameters | src/endpoint.rs:265-270 | a token subtype followed by well-formed parameters gives the media type with both names lower-cased |
| Mime.ParametersStart | src/endpoint.rs:265-268 | parameters begin with `;`, never with a token character, so the subtype ends where they begin |
| Mime.BadParametersNoMediaType | src/endpoint.rs:265-268 | a type and subtype followed by text the crate does not read as parameters is not a media type |
| Mime.ParameterStep | src/endpoint.rs:265-268 | a token name, then `=`, then a value the crate reads, is read as a parameter list |
| Mime.TokenValueReads | src/endpoint.rs:265-268 | an unquoted value of token characters running to the end is read as the last value |
| Mime.TokenParameterReads | src/endpoint.rs:265-268 | a parameter `name=value` with any token name and any unquoted token value is read to the end |
| Mime.SpacesThenParameters | src/endpoint.rs:265-268 | spaces before a parameter are skipped, however many |
| Mime.SemicolonThenParameters | src/endpoint.rs:265-268 | `;` followed by a readable parameter list is accepted after the subtype |
| Mime.SpacedTokenParameterAccepted | src/endpoint.rs:265-268 | `;`, any run of spaces, then `name=value` with token name and token value, is accepted |
| Mime.CharsetParameterAccepted | src/endpoint.rs:265-268 | the common `; charset=utf-8` is accepted, the space after `;` skipped |
| Mime.SpaceBeforeSemicolonRefused | src/endpoint.rs:265-268 | any text after the subtype that starts with whitespace, so whitespace before `;`, is refused |
| Mime.TabAfterSemicolonRefused | src/endpoint.rs:265-268 | any parameter text with a tab right after `;` is refused: only spaces are skipped there |
| Mime.NoParameterNameRefused | src/endpoint.rs:265-268 | after `;` and any spaces a parameter must start with a token character; anything else is refused |
| Mime.EmptyParameterRefused | src/endpoint.rs:265-268 | any parameter text starting `;;`, an empty parameter, is refused |
| Mime.QuotedPairRefused | src/endpoint.rs:265-268 | a backslash escapes nothing: `;a="x\"y"` ends its value at the second quote and is refused for the `y"` after it |
| Mime.JunkAfterQuotedRefused | src/endpoint.rs:265-268 | a quoted value followed, after any spaces, by anything but `;` is refused |
| Mime.JunkAfterQuotedValueRefused | src/endpoint.rs:265-268 | so is a parameter `name="…"` whose closing quote is followed by such text |
| Endpoints.ReadBodyOutcome | src/endpoint.rs:223-252 | what `read_body` answers: the limit error exactly when the chunks together exceed the limit, else the stream error, else the bytes; `ReadBody` states that the loop computes it and `ConcatPrefixLen` why refusing early agrees |
| Endpoints.ReadBody | src/endpoint.rs:223-234 | the loop returns its specification `ReadBodyOutcome`: `MaxSizeExceeded(max)` exactly when the chunks together exceed the limit, otherwise the stream error if any, otherwise the concatenated chunks |
| Endpoints.ConcatPrefixLen | src/endpoint.rs:226-231 | a prefix of the chunks is never longer than all of them, so refusing early is refusing for the whole body |
| Endpoints.ReadBodyApiError | src/endpoint.rs:244-252 | every read error becomes a 400 `PayloadRead` |
| Endpoints.OversizeError | src/endpoint.rs:238-249 | an exceeded limit gives the message naming the limit after the stage's prefix |
| Endpoints.IsContentTypeJson | src/endpoint.rs:254-271 | `is_content_type_json`: the first `content-type` header, read as text, parses as a media type with essence `application/json`; `ContentTypeJsonIff`, `NoContentTypeNotJson` and `ContentTypeBadParametersRefused` state when it holds |
| Endpoints.ContentTypeJsonIff | src/endpoint.rs:254-271 | a header `type/subtype` with any parameters is accepted exactly when type and subtype are `application` and `json`, ignoring case |
| Endpoints.ContentTypeOfMediaType | src/endpoint.rs:265-270 | a visible header that parses is judged by its essence alone |
| Endpoints.ContentTypeBadParametersRefused | src/endpoint.rs:254-271 | a header whose text after the subtype the crate cannot read as parameters is refused, whatever its type and subtype |
| Endpoints.EssenceIsJson | src/endpoint.rs:270 | the essence is `application/json` exactly when type and subtype are `application` and `json` |
| Endpoints.NoContentTypeNotJson | src/endpoint.rs:255-258 | without a content-type header the check is false |
| Endpoints.FirstContentTypeDecides | src/endpoint.rs:254-271 | only the first `content-type` header counts: the check answers as for a request carrying that header alone, whatever the other headers and later `content-type` headers say |
| Endpoints.ParseThenValidate | src/endpoint.rs:65-88 | a stage hands on a value exactly when it parsed and passed validation; a parse failure is a 400 of the stage's parse kind, a validation failure a 400 of its validate kind, each with the stage's prefix |
| Endpoints.ExtractParams | src/endpoint.rs:62-88 | the params stage: the unit value for a void slot, else the `Path` extractor then validation; `ExtractParamsSpec` states its outcomes |
| Endpoints.ExtractQuery | src/endpoint.rs:91-131 | the query stage: the unit value for a void slot, else serde_qs over the query string or `""`, then validation; `ExtractQuerySpec` states its outcomes |
| Endpoints.ExtractPayload | src/endpoint.rs:133-190 | the payload stage: the unit value for a void slot, else the content-type check, then the bounded read, then JSON parsing and validation; `ExtractPayloadSpec`, `ContentTypeBeforeBody` and `OversizedPayloadStage` state its outcomes |
| Endpoints.ParseRequest | src/endpoint.rs:52-190 | everything before `run`: context, params, query, payload, in that order, the first error deciding; `ParsedRequestValidated` and the `…FailureDecides` lemmas state it |
| Endpoints.Handle | src/endpoint.rs:52-219 | `Endpoint::handle`: a parse or run error becomes its error response, a successful run the JSON response; `HandleSuccess`, `StageErrorsAreBadRequests`, `PanicsOnlyFromEndpointErrors` and the `…FailureDecides` lemmas state its answers |
| Endpoints.ExtractParamsSpec | src/endpoint.rs:62-88 | a void params slot gives the unit value; a non-void value handed on passed validation; every failure is a 400 `InvalidParamsParse` or `InvalidParamsValidate` |
| Endpoints.ExtractQuerySpec | src/endpoint.rs:91-131 | the same for the query, parsed from the query string or `""` |
| Endpoints.ExtractPayloadSpec | src/endpoint.rs:133-190 | a void payload gives the unit value; a non-void payload handed on passed validation, came with the JSON content type and a complete body within the limit; every failure is a 400 of a payload kind |
| Endpoints.VoidPayloadIgnoresBody | src/endpoint.rs:133-134 | with a void payload the answer does not depend on the body at all |
| Endpoints.ContentTypeBeforeBody | src/endpoint.rs:151-158 | a non-JSON content type is refused with 400 `PayloadContentType`, whatever the body |
| Endpoints.OversizedPayloadStage | src/endpoint.rs:160-165 | a body over the limit is refused with 400 `PayloadRead`, even if the stream would have failed later |
| Endpoints.OversizedPayload | src/endpoint.rs:133-165 | in the pipeline, once the earlier stages pass, an oversized body decides the error |
| Endpoints.StageErrorsAreBadRequests | src/endpoint.rs:62-190 | every error the pipeline's own stages raise is a 400 of a stage kind, consistent with its class, and its response is a 400 rather than a panic |
| Endpoints.RunOnlyAfterParsing | src/endpoint.rs:192-204 | when parsing fails, neither `run` nor the output type affects the answer |
| Endpoints.CtxFailureDecides | src/endpoint.rs:55-60 | when `ctx` fails, the answer is that error's response, whatever the params, query and payload types and whatever the body |
| Endpoints.ParamsFailureDecides | src/endpoint.rs:62-88 | when the params stage fails, the answer is that error's response, whatever the query and payload types and the body |
| Endpoints.QueryFailureDecides | src/endpoint.rs:91-131 | when the query stage fails, the answer is that error's response, whatever the payload type and the body |
| Endpoints.PayloadFailureDecides | src/endpoint.rs:133-190 | when the payload stage fails, the answer is that error's response, whatever `run` and the output type |
| Endpoints.RunFailureDecides | src/endpoint.rs:192-204 | when `run` fails, the answer is that error's response, whatever the output type |
| Endpoints.ParsedRequestValidated | src/endpoint.rs:192-197 | the handler receives the context and, in every non-void slot, a value that passed validation |
| Endpoints.HandleSuccess | src/endpoint.rs:199-219 | a successful run answers 200 with the serialised output and the JSON content type; a failed serialisation answers the 500 fallback |
| Endpoints.PanicsOnlyFromEndpointErrors | src/endpoint.rs:52-60 | the pipeline panics exactly when the context's or the handler's error has a status that is not a three-digit code |
| JsonValues.Keys | src/registry.rs:423-426 | the keys of an object, member by member |
| JsonValues.GetFirst | src/registry.rs:342 | indexing an object reads its first member with the key |
| JsonValues.Insert | src/registry.rs:377 | `obj[key] = v` overwrites a present key in place and appends a new one |
| JsonValues.MemberInsertSame | src/registry.rs:423 | after the assignment the key holds the new value |
| JsonValues.MemberInsertOther | src/registry.rs:423 | every other key holds what it held before |
| JsonValues.KeysInsert | src/registry.rs:423-426 | the assignment keeps the key order, appends a new key at the end, and keeps keys distinct |
| JsonValues.KeysInsertPresent | src/registry.rs:423 | writing a present key changes no key |
| JsonValues.KeysInsertAbsent | src/registry.rs:423 | writing an absent key appends it |
| JsonValues.FindKeyInsertPresent | src/registry.rs:423-426 | writing a member never moves a key already present |
| JsonValues.UnescapeEscape | src/registry.rs:292 | the JSON string literal serde_json writes for a path decodes back to the path |
| JsonValues.UnescapeEscapeChar | src/registry.rs:292 | each escaped character decodes back to itself |
| JsonValues.QuotePlain | src/registry.rs:292-295 | text without quotes, backslashes or control characters is quoted unchanged |
| JsonValues.EscapePlain | src/registry.rs:292-295 | escaping leaves text that needs no escapes unchanged |
| RegistryItems.MakeItem | src/registry.rs:153-232 | the item `register` builds for an endpoint; `MakeItemDescribes`, `SlotSchema` and `SlotShape` state what it holds |
| RegistryItems.SlotSchema | src/registry.rs:153-189 | a slot has a schema exactly when it is not void, and then it is the slot's schema under its settings |
| RegistryItems.SlotShape | src/registry.rs:200-216 | a slot has a shape exactly when it is not void, and then it is the slot's shape under its options |
| RegistryItems.MakeItemDescribes | src/registry.rs:153-232 | the item has the endpoint's route; params, query and payload schemas and shapes are present exactly for non-void slots, each the slot's own under that slot's settings or options; output schema and shape are always present; the handler answers as the endpoint's pipeline |
| RegistryItems.FindPathUnique | src/registry.rs:107 | in a well-formed table a path is found at its only position |
| RegistryItems.FindMethodUnique | src/registry.rs:107 | in a well-formed method list a method is found at its only position |
| RegistryItems.Lookup | src/registry.rs:104-107 | the item registered under a path and method, if any; `FindPathUnique` and `FindMethodUnique` tie it to the only position of each key |
| RegistryItems.InsertItem | src/registry.rs:143-234 | `entry(path).or_default()` then the item appended under its method; `InsertKeepsValid`, `LookupInsertSame`, `LookupInsertOther` and `InsertOrder` state its effect |
| RegistryItems.InsertKeepsValid | src/registry.rs:143-234 | registering a new route keeps paths distinct, methods distinct, and every item under its own path and method |
| RegistryItems.LookupInsertSame | src/registry.rs:151-234 | after registering, the item is found under its path and method |
| RegistryItems.LookupInsertOther | src/registry.rs:144-234 | every other path and method finds what it found before |
| RegistryItems.LookupInsertOtherPath | src/registry.rs:144 | lookups of other paths are unchanged |
| RegistryItems.LookupInsertOtherMethod | src/registry.rs:146-151 | other methods of the same path are unchanged |
| RegistryItems.InsertOrder | src/registry.rs:143-234 | a new path is appended after the known ones, a known path keeps its place and gets the method at the end |
| RegistryItems.InsertIntoEmpty | src/registry.rs:143-234 | the first registration opens the table with its path |
| RegistryItems.InsertSecondPath | src/registry.rs:144-151 | an item under a new path is not a duplicate and is appended after the existing path |
| RegistryItems.TwoPathLookups | src/registry.rs:104-107 | a two-path table answers exactly its two routes |
| RegistryItems.TwoPathValid | src/registry.rs:104-107 | such a table is well formed and lists its paths in order |
| Registries.Registry.constructor | src/registry.rs:112-127 | the error payload's schema and shape under the output settings, and an empty table |
| Registries.Registry.Register | src/registry.rs:129-237 | for a method `http::Method` can hold, panics (leaving the table as it was) exactly when the path and method are taken; otherwise the table is the old one with the item inserted; the table stays well formed |
| Registries.Registry.TsDefinitions | src/registry.rs:239-314 | the text written is `TsDefinitionsText` of the table |
| Registries.Registry.OpenApiSpec | src/registry.rs:316-490 | the document built, or the first panic, is `OpenApiSpec` of the table |
| Registries.Registry.AxumRouter | src/registry.rs:493-519 | the routes built, or the first panic (an extension method, an empty path or one without a leading `/`), are `RoutesOf` the table |
| Registries.WritePathBlocks | src/registry.rs:291-308 | the outer loop writes the blocks of all paths in order |
| Registries.WritePathBlock | src/registry.rs:292-307 | the inner loop writes one line per method of the path, in order |
| Registries.DescribeMethods | src/registry.rs:333-424 | the inner loop builds the methods object of a path, or stops at the first panic |
| Registries.DescribeItem | src/registry.rs:336-421 | the operation object of an item, or the panic of a non-object `properties` |
| Registries.BuildMethodRouter | src/registry.rs:496-515 | the inner loop builds one handler per method under its filter, or panics at the first extension method |
| Registries.CollectPathParameters | src/registry.rs:346-355 | one path parameter per property, in order |
| Registries.CollectQueryParameters | src/registry.rs:364-373 | one query parameter per property, in order |
| OpenApi.RewritePath | src/registry.rs:326-331 | the regex rewrite of `:name` to `{name}`; `RewriteLeavesNoPlaceholder`, `RewriteIdempotent`, `RewriteFixed` and the other `Rewrite…` lemmas state what it does |
| OpenApi.NameLen | src/registry.rs:326 | the run of `[a-zA-Z0-9_]` characters is maximal |
| OpenApi.RewriteFixed | src/registry.rs:326-331 | a template without placeholders is left as it is |
| OpenApi.RewriteFirst | src/registry.rs:326-331 | the rewrite starts with `{` exactly where a placeholder starts, and otherwise with the first character |
| OpenApi.RewriteLeavesNoPlaceholder | src/registry.rs:326-331 | after the rewrite no colon is followed by a name character |
| OpenApi.RewriteIdempotent | src/registry.rs:326-331 | rewriting twice is rewriting once |
| OpenApi.RewriteLiteral | src/registry.rs:328 | text without colons passes through unchanged |
| OpenApi.RewritePlaceholder | src/registry.rs:328-331 | a colon and a maximal name become the braced name, and the rest is rewritten independently |
| OpenApi.RewriteUserId | src/registry.rs:326-331 | `/users/:id` becomes `/users/{id}` |
| OpenApi.Parameters | src/registry.rs:338-374 | the operation's parameters or the first panic; `ParametersSpec`, `PathParameters` and `QueryParameters` state them |
| OpenApi.EndpointObject | src/registry.rs:336-421 | the operation object of one item, or its panic; `EndpointObjectPanics`, `OperationKeys`, `OperationValues` and `ErrorResponsesShareSchema` state it |
| OpenApi.PathParameters | src/registry.rs:346-355 | one required `in: path` parameter per params property, in order |
| OpenApi.QueryParameters | src/registry.rs:364-373 | one `in: query`, `style: deepObject` parameter per query property, in order |
| OpenApi.ParametersSpec | src/registry.rs:338-374 | path parameters come first, then query parameters, one per property; path ones are required and query ones are deep objects |
| OpenApi.EndpointObjectPanics | src/registry.rs:340-362 | describing an item panics exactly when a present params or query schema has no `properties` object |
| OpenApi.OperationMembersSpec | src/registry.rs:376-421 | the operation has `parameters` only when there are any, `requestBody` exactly for a payload schema, then `responses` |
| OpenApi.OperationKeys | src/registry.rs:376-421 | the operation lists `parameters` when there are any, `requestBody` when there is a payload, then `responses`, in that order |
| OpenApi.OperationValues | src/registry.rs:376-421 | those keys hold the parameters array, the request body and the responses object |
| OpenApi.ErrorResponsesShareSchema | src/registry.rs:390-421 | `200` carries the output schema; `4XX` and `5XX` both refer to `#/components/schemas/ErrorPayload` |
| OpenApi.ResponseSchema | src/registry.rs:390-408 | a response's `content."application/json".schema` is the schema it was built with |
| OpenApi.FoldInsertPanics | src/registry.rs:335-426 | a fold panics exactly when one of its entries does, and then with the first one's panic |
| OpenApi.FoldInsertErrExtends | src/registry.rs:335-426 | once a prefix panics, the whole fold panics the same way |
| OpenApi.FoldInsertContents | src/registry.rs:423-426 | without panics and with distinct keys, the fold holds each entry under its key, in order |
| OpenApi.FoldInsertStep | src/registry.rs:423-426 | a panic-free fold writes its last entry into the fold of the others |
| OpenApi.FoldInsertDistinct | src/registry.rs:423-426 | whatever the entries, a panic-free fold has distinct keys |
| OpenApi.FoldInsertAbsent | src/registry.rs:423-426 | a key no entry has is not in the fold |
| OpenApi.FoldInsertLastWins | src/registry.rs:423-426 | a repeated key holds the value of its last entry |
| OpenApi.FoldInsertKeepsPlace | src/registry.rs:423-426 | a key in the fold of a prefix keeps its place whatever entries follow |
| OpenApi.FoldInsertFirstPlace | src/registry.rs:423-426 | a repeated key sits where its first entry put it, right after the keys of the entries before |
| OpenApi.FoldInsertSameKey | src/registry.rs:423-426 | two entries under one key fold into one member, with the second value |
| OpenApi.MethodsObject | src/registry.rs:333-424 | the methods object of a path, or the first panic; `MethodsObjectPanics`, `MethodsObjectContents` and, for methods sharing a lower-case name, `MethodsObjectRepeated` state it |
| OpenApi.PathsObject | src/registry.rs:324-427 | the paths object of the table, or the first panic; `PathsObjectPanics`, `PathsObjectContents` and, for paths sharing a template, `PathsObjectRepeated` state it |
| OpenApi.OpenApiSpec | src/registry.rs:316-490 | the whole document, or the first panic; `PathsObjectPanics` and `DocumentSpec` state it |
| OpenApi.MethodEntries | src/registry.rs:335-423 | one entry per method, in order, from its lower-case method and its operation object |
| OpenApi.PathEntries | src/registry.rs:324-426 | one entry per path, in order, from its rewritten template and its methods object |
| OpenApi.MethodsObjectPanics | src/registry.rs:335-424 | a path's methods object panics exactly when one of its items does |
| OpenApi.MethodsObjectContents | src/registry.rs:423 | when the methods of a path have distinct lower-case names, every item appears under its lower-case method, in registration order |
| OpenApi.PathsObjectPanics | src/registry.rs:324-427 | the document can be built exactly when no item panics |
| OpenApi.PathsObjectContents | src/registry.rs:426 | when the paths rewrite to distinct templates, every path appears under its rewritten template, in registration order, holding its methods object |
| OpenApi.MethodsObjectRepeated | src/registry.rs:423 | with no premise on the names: the keys stay distinct, and a lower-case name shared by several methods sits where the first put it and holds the operation of the last |
| OpenApi.PathsObjectRepeated | src/registry.rs:426 | with no premise on the templates: the keys stay distinct, and a template shared by several paths sits where the first put it and holds the methods object of the last |
| OpenApi.MethodKeyCollision | src/registry.rs:423 | `GET` and the extension method `get` are distinct methods a registry accepts, with one lower-case name |
| OpenApi.MethodsObjectCollision | src/registry.rs:423 | two methods with one lower-case name give a methods object with one member, the operation registered last |
| OpenApi.RewriteCollision | src/registry.rs:326-331 | `pre:name` and `pre{name}`, such as `/a/:x` and `/a/{x}`, are distinct paths with one template |
| OpenApi.RewriteColonName | src/registry.rs:326-331 | `:name` after literal text becomes `{name}` |
| OpenApi.RewriteBraced | src/registry.rs:326-331 | `{name}` after literal text is left as it is |
| OpenApi.PathsObjectCollision | src/registry.rs:426 | two paths with one template give a paths object with one member, the methods object of the path registered last |
| OpenApi.DocumentSpec | src/registry.rs:429-489 | the document has version 3.0.3, the paths object and the error payload schema under `components.schemas.ErrorPayload` |
| TsDefinitions.TsDefinitionsText | src/registry.rs:239-314 | the module text: header, one block per path, footer; `Blocks`, `Lines` and `EveryEndpointListed` state what it lists |
| TsDefinitions.MethodLine | src/registry.rs:294-306 | one method's `Endpoint<…>` line; `SlotTsSpec` and `QuotedPathReadsBack` state its slots and its quoted path |
| TsDefinitions.JoinPrefix | src/registry.rs:291-308 | appending a piece extends the joined text by it |
| TsDefinitions.Lines | src/registry.rs:294-306 | one line per method, in order |
| TsDefinitions.Blocks | src/registry.rs:291-308 | one block per path, in order |
| TsDefinitions.PartInJoin | src/registry.rs:291-308 | each piece occurs in the joined text |
| TsDefinitions.EveryEndpointListed | src/registry.rs:291-310 | every registered endpoint's line occurs in its path's block, and every block in the module text |
| TsDefinitions.QuotedPathReadsBack | src/registry.rs:292 | the path is written as a JSON string literal that decodes back to it |
| TsDefinitions.SlotTsSpec | src/registry.rs:301-303 | a void slot is written `Empty`, a non-void one as its shape's TypeScript |
| Router.MethodRouterOf | src/registry.rs:496-515 | the method router of a path, or the panic of its first extension method; `MethodRouterOfSpec` states it |
| Router.PathCheck | src/registry.rs:516 | axum's check before `route` adds a path: no panic exactly for a path that starts with `/` |
| Router.RoutesOf | src/registry.rs:493-519 | the routes of the table, or the first panic; `RoutesOfSpec`, `RoutesOfErr` and `RoutesOfRoutes` state it |
| Router.FilterOf | src/registry.rs:498-509 | the nine standard methods have filters; an extension method panics |
| Router.FilterOfInjective | src/registry.rs:498-507 | distinct standard methods get distinct filters |
| Router.MethodRouterOfSpec | src/registry.rs:497-515 | a method router panics exactly for an extension method, and otherwise has one handler per method, in order, under its filter |
| Router.RoutesOfSpec | src/registry.rs:493-519 | building the router panics exactly when some method is an extension or some path is empty or lacks a leading `/`; otherwise one route per path, in order |
| Router.RoutesOfErr | src/registry.rs:493-519 | the panic half of that: some extension method or some bad path |
| Router.RoutesOfRoutes | src/registry.rs:493-519 | the success half: route `i` holds path `i` and its method router |
| Router.TwoGetRoutes | src/registry.rs:493-519 | a table of two `GET` routes whose paths start with `/` builds two routes in order |
| Router.MethodRouterErrExtends | src/registry.rs:498-509 | once a prefix of the methods panics, the whole path panics the same way |
| Router.RoutesErrExtends | src/registry.rs:493-519 | once a prefix of the paths panics, the whole router panics the same way |
| Router.FindRoute | src/registry.rs:512-516 | the route found has the template; none means no route has it |
| Router.DispatchOf | src/registry.rs:493-519 | how the built router answers a template and method; `DispatchAgreesWithTable` ties it to the table |
| Router.DispatchAgreesWithTable | src/registry.rs:493-519 | the router gives a request exactly the handler registered for its template and method; a known template with an unregistered method is "method not allowed"; an unknown one is "not found" |
| TsInline.WsEndSpec | src/ts.rs:23 | `\s*` takes the longest run of whitespace |
| TsInline.DelimEnd | src/ts.rs:23 | `(\s*)([,><])` ends right after a delimiter |
| TsInline.DelimEndSpec | src/ts.rs:23 | only whitespace lies before that delimiter |
| TsInline.TryName | src/ts.rs:23 | a backtracking attempt that succeeds finds the name followed by whitespace and a delimiter |
| TsInline.MatchAt | src/ts.rs:23 | a match holds the name and ends with a delimiter |
| TsInline.MatchShape | src/ts.rs:23-33 | a match is an optional `[<,:]`, whitespace, the name, whitespace and the delimiter, so only the name is rewritten |
| TsInline.MatchLead | src/ts.rs:23 | before the name there is only whitespace, or a leading `[<,:]` first |
| TsInline.MatchTail | src/ts.rs:23 | between the name and the closing delimiter there is only whitespace |
| TsInline.ReplaceAll | src/ts.rs:23-33 | `Regex::replace_all` with the name's pattern; `ReplaceAllStep`, `DelimitedNameRewritten`, `NoDelimitedNameUnchanged` and `ReplaceAllSelf` state what it rewrites |
| TsInline.ReplaceAllStep | src/ts.rs:24-33 | `replace_all` keeps the four groups around the new text at a match and moves on past it, or past one character |
| TsInline.ReplaceAllSelf | src/ts.rs:24-33 | replacing a name by itself changes nothing |
| TsInline.NoDelimiterUnchanged | src/ts.rs:23 | a text without `,`, `>` or `<` is left as it is |
| TsInline.NoDelimitedNameUnchanged | src/ts.rs:23-33 | when no occurrence of the name is followed by whitespace and a delimiter, at the end of the text or anywhere else, the text is left as it is |
| TsInline.MatchIsDelimited | src/ts.rs:23 | every match holds an occurrence of the name followed by whitespace and a delimiter |
| TsInline.MatchAtDelimited | src/ts.rs:23 | an optional `[<,:]`, whitespace, the name, whitespace and a delimiter at the start of the text are matched as a whole |
| TsInline.RestAtDelimited | src/ts.rs:23 | after the leading part, whitespace, the name, whitespace and a delimiter are matched up to just past the delimiter |
| TsInline.DelimitedNameRewritten | src/ts.rs:23-33 | such an occurrence is rewritten to the inline text with the leading character, both runs of whitespace and the delimiter kept, and the scan goes on after the delimiter |
| TsInline.ReplaceInBrackets | src/ts.rs:23-33 | `<T>` with `T` inlined as `string` becomes `<string>` |
| TsInline.BaseName | src/ts.rs:50 | the key is the name up to its first `<` |
| TsInline.BaseNameIdempotent | src/ts.rs:50 | taking the base name twice is taking it once |
| TsInline.BaseNameWithoutBracket | src/ts.rs:50 | a name without `<` is its own base name |
| TsInline.GenericsVisitor.constructor | src/ts.rs:6-7 | a visitor starts with no declarations |
| TsInline.GenericsVisitor.Visit | src/ts.rs:49-52 | the inline text is stored under the base name, a later one replacing an earlier one |
| TsInline.EmptyEnumeration | src/ts.rs:15 | an empty map is iterated as nothing |
| TsInline.EnumeratedKey | src/ts.rs:15 | every name iterated is a declared one |
| TsInline.ArrayNeverSubstituted | src/ts.rs:17-19 | the text given for `Array` never matters |
| TsInline.SubstituteSelf | src/ts.rs:15-33 | declarations inlined as their own names leave the text unchanged |
| TsInline.Substitute | src/ts.rs:13-36 | the rewrites of the declarations in iteration order, `Array` skipped; `SubstituteSelf` and `ArrayNeverSubstituted` state it |
| TsInline.Replace | src/ts.rs:13-36 | the loop is `Substitute` of the declarations in the iteration order |
| TsInline.Inline | src/ts.rs:5-42 | generics are substituted first, then dependencies; with no declarations the inline text comes back unchanged |
| Validation.Under | src/api/shared.rs:17-27 | a nested report is the same report with the field in front of every path |
| Validation.ItemsReportEmpty | src/api/shared.rs:26-27 | a list is valid exactly when each element is |
| Validation.FirstFailure | src/util.rs:4-16 | the report of the first failing item, or success; `FirstFailurePass`, `FirstFailureAt` and `FirstFailureIgnoresRest` state it |
| Validation.DiveVec | src/util.rs:4-16 | the loop returns `FirstFailure`: the report text of the first element that fails, or success |
| Validation.FirstFailurePass | src/util.rs:4-16 | `dive_vec` succeeds exactly when every item passes, so an empty slice succeeds |
| Validation.FirstFailureAt | src/util.rs:6-12 | when item `k` is the first to fail, its report is the answer |
| Validation.FirstFailureIgnoresRest | src/util.rs:6-12 | items after the first failure are never looked at |
| Validation.DiveOption | src/util.rs:20-32 | `dive_option`; `DiveOptionSpec` and `DiveOptionAsSlice` state it |
| Validation.DiveOptionSpec | src/util.rs:20-32 | `None` gives success; `Some(x)` gives exactly `x`'s outcome |
| Validation.DiveOptionAsSlice | src/util.rs:20-32 | `dive_option` is `dive_vec` on the slice of at most one element |
| Shared.PageReport | src/api/shared.rs:15-62 | the garde report of a page; `PageValidIff` and `ZeroLimitReported` state it |
| Shared.PageValidIff | src/api/shared.rs:15-62 | a page is valid exactly when its limit is at least 1 and every item is valid |
| Shared.ZeroLimitReported | src/api/shared.rs:53-62 | a zero limit is reported at `limit` as a range violation |
| Shared.LimitReport | src/api/shared.rs:75-80 | the range rule on a limit; `LimitValidIff` states it |
| Shared.LimitValidIff | src/api/shared.rs:75-80 | a limit is valid exactly when it lies in 1..=200 |
| Shared.DefaultLimitValue | src/api/shared.rs:82-86 | the default limit is 200, and valid |
| Shared.SkipReport | src/api/shared.rs:92-97 | the range rule on a skip; `SkipAlwaysValid` states it |
| Shared.SkipAlwaysValid | src/api/shared.rs:92-97 | every `u64` skip is valid |
| Shared.DefaultSkipValue | src/api/shared.rs:99-103 | the default skip is 0 |
| Users.IdRunLenSpec | src/api/users/mod.rs:16 | the scan covers exactly the leading `[a-z0-9]` characters |
| Users.IdPatternIff | src/api/users/mod.rs:16 | `^[a-z0-9]+$` holds exactly of non-empty texts of lower-case ASCII letters and digits |
| Users.UserReport | src/api/users/mod.rs:13-22 | the garde report of a user; `UserValidIff` states when it is empty |
| Users.UserValidIff | src/api/users/mod.rs:13-22 | a user is valid exactly when the id rule, the email check and the 100-byte length all hold |
| Users.ShortUserValid | src/api/users/mod.rs:13-22 | a user with a pattern id and an accepted email of at most 25 characters, so at most 100 bytes, is valid |
| Users.EmptyIdInvalid | src/api/users/mod.rs:16 | an empty id is reported under `id` |
| Users.BadCharIdInvalid | src/api/users/mod.rs:16 | an id with any character outside `[a-z0-9]` is reported under `id` |
| Users.LongEmailInvalid | src/api/users/mod.rs:20 | an email longer than 100 bytes is reported under `email` as a length violation |
| Users.LongEmailByChars | src/api/users/mod.rs:20 | so is one longer than 100 characters |
| UsersList.QueryReport | src/api/users/list.rs:15-23 | the garde report of the list query; `QueryValidIff` states when it is empty |
| UsersList.QueryValidIff | src/api/users/list.rs:15-23 | a query is valid exactly when a present limit lies in 1..=200; any skip passes |
| UsersList.Run | src/api/users/list.rs:48-62 | the list handler; `RunSpec` and `RunOutputValid` state its page |
| UsersList.RunSpec | src/api/users/list.rs:48-62 | the page echoes the given skip or 0 and the given limit or 200, with total 0 and no items |
| UsersList.RunOutputValid | src/api/users/list.rs:48-62 | for a valid query the answer is a valid page |
| UsersList.ListEndpoint | src/api/users/list.rs:26-39 | `GET /users`, params and payload void, query and output not void |
| UsersList.ListContext | src/api/users/list.rs:41-46 | `ctx` always succeeds with `()` |
| UsersList.ListAnswer | src/api/users/list.rs:48-62 | a parsed, valid query is answered with the page, whatever the body |
| UsersList.ListLimitOutOfRange | src/api/users/list.rs:22 | a limit outside 1..=200 is a 400 `InvalidQueryValidate` |
| UsersList.ListQueryUnparsable | src/api/users/list.rs:15-23 | a query string serde_qs refuses is a 400 `InvalidQueryParse` |
| UsersGet.ParamsReport | src/api/users/get.rs:14-18 | the garde report of the get params; `ParamsValidIff` states when it is empty |
| UsersGet.ParamsValidIff | src/api/users/get.rs:14-18 | the params are valid exactly when `id` is a non-empty run of lower-case letters and digits |
| UsersGet.Run | src/api/users/get.rs:43-51 | the fixed user the get handler returns; `RunOutputValid` states that it is valid |
| UsersGet.RunOutputValid | src/api/users/get.rs:43-51 | the fixed user is valid, given that its address passes the email check |
| UsersGet.GetEndpoint | src/api/users/get.rs:21-34 | `GET /users/:id`, query and payload void, params and output not void |
| UsersGet.GetContext | src/api/users/get.rs:36-41 | `ctx` always succeeds with `()` |
| UsersGet.GetInvalidId | src/api/users/get.rs:16 | an id outside the pattern is a 400 `InvalidParamsValidate` |
| UsersGet.UpperCaseIdRefused | src/api/users/get.rs:16 | `ABC` does not match the pattern |
| UsersGet.GetAnswer | src/api/users/get.rs:43-51 | a valid id is answered with the fixed user `{id: "123", email: "test@test.com"}` |
| Api.ListItem | src/api/users/list.rs:33-39 | the list endpoint is registered under `/users` and `GET` |
| Api.GetItem | src/api/users/get.rs:28-34 | the get endpoint is registered under `/users/:id` and `GET` |
| Api.BuildRegistry | src/api/mod.rs:6-26 | a new registry whose error payload is `ApiErrorPayload`, holding the list endpoint then the get endpoint, with no panic |
| Api.ApiTableShape | src/api/mod.rs:20-23 | the table is well formed and lists `/users` before `/users/:id` |
| Api.ApiTableRoutes | src/api/mod.rs:20-25 | exactly two routes are registered, each path with `GET` only |
| Api.ApiRouterBuilds | src/api/mod.rs:20-25 | the example API's router builds, with `/users` then `/users/:id` |

## Left out

- I/O and concurrency are not modelled. This covers serving, async, `Send`/`Sync`/`Arc`, tokio streams and the binaries under `src/bin`. The body is a finite sequence of chunks that may end in a read error.
- The foreign libraries are function fields with no fixed behaviour: serde, serde_json, serde_qs, axum's `Path` extractor, schemars and shape. So is garde's `email` check, and so is the `Display` of garde reports.
- The mime crate's source is not part of this model. Its parser is written after the published parser of mime 0.3, and any check of it not described in module `Mime` (such as a limit on the length of the text) is not modelled.
- Endpoints.ContentTypeJsonIff: a subtype that is empty at the end of the text (`application/`) is refused here. Whatever the crate does with it, its essence is not `application/json`, so the answer is the same.
- JsonValues.Insert: appending a new key at the end, and keeping the order of keys, assumes serde_json's `preserve_order` feature, under which `Map` is an `IndexMap`. Without it `Map` is a `BTreeMap` and iterates its keys in sorted order. The crate's manifest is not part of this model.
- JsonValues.KeysInsert: the key order it states holds under `preserve_order` only.
- JsonValues.KeysInsertAbsent: "appended at the end" holds under `preserve_order` only.
- OpenApi.FoldInsertContents: the order of the members holds under `preserve_order` only. The values held under the keys hold either way.
- OpenApi.MethodsObjectContents: "in registration order" holds under `preserve_order` only.
- OpenApi.MethodsObjectContents: the lemma requires distinct lower-case method names. A registry accepts `GET` and the extension method `get` on one path, and there the later operation overwrites the earlier one. `OpenApi.MethodsObjectRepeated` and `OpenApi.MethodsObjectCollision` state that case.
- OpenApi.PathsObjectContents: "in registration order" holds under `preserve_order` only.
- OpenApi.PathsObjectContents: the lemma requires distinct rewritten templates. A registry accepts `/a/:x` and `/a/{x}`, which share the template `/a/{x}`, and there the later path's methods object overwrites the earlier one. `OpenApi.PathsObjectRepeated`, `OpenApi.RewriteCollision` and `OpenApi.PathsObjectCollision` state that case.
- OpenApi.PathParameters: the order of the parameters follows the order of `properties`, so it too holds under `preserve_order` only.
- The regex crate is replaced by scanners for the two patterns the core uses.
- JSON bodies are kept as JSON values. Their byte encoding is not modelled.
- garde's messages are not modelled. A report is a list of (path, rule).
- Users.UserReport: garde's `length` is taken to count the bytes of the UTF-8 text, as `str::len` does.
- Shared.LimitReport: the path of the tuple field is written `Index(0)`.
- The iteration order of the `HashMap`s in `ts.rs` is a parameter, since Rust does not fix it.
- The texts that `ts_rs` and the shape crate produce for a type are inputs.
- Router.DispatchOf: axum's route matching of concrete URLs against `:name` templates is not modelled, and neither is the `HEAD` fallback to `GET` handlers. Dispatch is by template and method.
- Router.RoutesOfSpec: of the panics `Router::route` raises, only the path check is modelled (an empty path, or one without a leading `/`). The panic on a template that conflicts with an earlier one in matchit's tree is not modelled, because the matchit tree is not part of this model.
- The `info` and `servers` blocks of the OpenAPI document are constants. No property is stated about them.
- TsDefinitions.Header: the TypeScript of the method enumeration comes from the shape crate, so it is a parameter.
- `generated/api.ts` is a stale artifact and plays no part in the model.
- `src/schema.rs` has no behaviour of its own. The model uses it only as the record of slot capabilities.
