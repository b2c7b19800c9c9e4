# Resource router model

A Dafny model of the logic inside the resource router of a small CRUD
service (`src/routes/resources.ts`): the comma-joined tag encoding
(`toCSV` / `fromCSV`), the create and update body schemas, the partial-update
patch and its merge into the stored row, the list handler's `limit` /
`offset` defaults and its `where` filter, and the create / get-one / update /
delete handlers over an abstract store.

Modules, one file each:

- `Wrappers` (`wrappers.dfy`): `Option`, standing for JavaScript's `undefined` and SQL's NULL.
- `Text` (`text.dfy`): `trim`, `split` and `join` on one separator, and the substring test behind `contains`. Case folding is a per-character function parameter.
- `TagCodec` (`tag_codec.dfy`): `ToCSV`, `FromCSV`, and the round trip and its limits.
- `Schema` (`schema.dfy`): a JSON value type, the create and update schemas, and the bodies a client would send.
- `Resources` (`resources.dfy`): the stored `Row`, the returned `View`, the `Patch` built from an update body, and `Merge`.
- `ListQuery` (`list_query.dfy`): query normalisation and the filter predicate.
- `Router` (`router.dfy`): the four single-row handlers over a `Store`, which is a map from id to row plus the next id to hand out.

The tag encoding loses more than commas inside tags. `fromCSV` also trims
each piece and drops the empty ones. `TagCodec.DecodeJoin` states this for
every list of comma-free tags: each tag comes back trimmed, and tags that are
empty once trimmed disappear, in order (`TagCodec.LeadingSpaceLost` and
`TagCodec.EmptyTagDisappears` are two instances). `TagCodec.RoundTripExactly`
states the exact condition for a tag list to survive unchanged: every tag is
non-empty, comma-free and trimmed.

## Model

| member | source | states |
|---|---|---|
| Text.Trim | src/routes/resources.ts:16 | the result has no whitespace at either end, keeps only characters of the input, and an already-trimmed string is unchanged |
| Text.TrimCutsSpaces | src/routes/resources.ts:16 | the trimmed string is the middle of the input once only whitespace is cut from each end |
| Text.Split | src/routes/resources.ts:16 | splitting always gives at least one piece, and no piece contains the separator |
| Text.JoinSplit | src/routes/resources.ts:15-16 | joining the pieces of a split gives back the original string |
| Text.SplitJoin | src/routes/resources.ts:15-16 | splitting a join of one or more separator-free pieces gives back the pieces |
| Text.Contains | src/routes/resources.ts:45-49 | the substring test holds exactly when the needle occurs at some index of the haystack |
| Text.JoinContainsPieces | src/routes/resources.ts:15 | every piece of a join occurs in the joined string |
| Text.ContainsIsInsensitive | src/routes/resources.ts:45-49 | an exact occurrence is also a case-insensitive one, for any case folding |
| TagCodec.ToCSV | src/routes/resources.ts:15 | an absent or empty tag list encodes to the empty string |
| TagCodec.EncodingContainsTags | src/routes/resources.ts:15 | every given tag occurs in the encoding |
| TagCodec.DropEmpty | src/routes/resources.ts:16 | the kept pieces are exactly the non-empty ones, and none are added |
| TagCodec.DropEmptyAppend | src/routes/resources.ts:16 | dropping empty pieces from a concatenation gives the kept pieces of each part in turn, so order and repeats are kept |
| TagCodec.DropEmptyOne | src/routes/resources.ts:16 | a single piece is kept exactly when it is non-empty |
| TagCodec.DropEmptyKeepsNonEmpty | src/routes/resources.ts:16 | a list with no empty piece is kept whole, in order |
| TagCodec.FromCSV | src/routes/resources.ts:16 | every decoded tag is non-empty, comma-free and trimmed, and the empty string decodes to no tags |
| TagCodec.DecodeJoin | src/routes/resources.ts:15-16 | decoding a join of one or more comma-free pieces gives the trimmed pieces with the empty ones dropped, in order |
| TagCodec.DecodeCommaFree | src/routes/resources.ts:15-16 | comma-free tags, encoded then decoded, come back trimmed with the empty ones dropped, in order |
| TagCodec.RoundTrip | src/routes/resources.ts:15-16 | a list of clean tags survives encoding then decoding unchanged |
| TagCodec.RoundTripExactly | src/routes/resources.ts:15-16 | the round trip holds if and only if every tag is clean |
| TagCodec.CommaSplitsTag | src/routes/resources.ts:15-16 | the tag `"a,b"` comes back as the two tags `"a"` and `"b"` |
| TagCodec.LeadingSpaceLost | src/routes/resources.ts:16 | a clean tag written with a leading space comes back without it |
| TagCodec.EmptyTagDisappears | src/routes/resources.ts:16 | an empty tag in front of a clean tag disappears, leaving just the clean tag |
| TagCodec.DecodeIdempotent | src/routes/resources.ts:15-16 | decoding, re-encoding and decoding any stored string gives the first decoding |
| TagCodec.CanonicalIdempotent | src/routes/resources.ts:15-16 | the normalised encoding of a stored string is its own normalised encoding |
| Schema.FieldIssues | src/routes/resources.ts:7-13 | a field is reported exactly when it breaks its rule, and all failing fields are reported together |
| Schema.OptionalStrings | src/routes/resources.ts:10 | an optional string array is read back as a list exactly when present, and the list re-encodes to the given array |
| Schema.StringArray | src/routes/resources.ts:10 | an encoded list of strings passes the tags rule and reads back as the same list |
| Schema.ParseCreate | src/routes/resources.ts:7-11 | a body is accepted exactly when it is an object with a name string of length at least 1, a description absent or a string, and tags absent or an array of strings; the accepted values are the body's; a rejection names every failing field, or says the body is not an object |
| Schema.ParseUpdate | src/routes/resources.ts:13 | the same as create, except that name may be absent, and when present must still have length at least 1 |
| Schema.CreateRoundTrip | src/routes/resources.ts:7-11 | the create schema reads back a client's body for an input if and only if the name is non-empty |
| Schema.UpdateRoundTrip | src/routes/resources.ts:13 | the update schema reads back a client's body for an input if and only if the name, when given, is non-empty |
| Schema.CreateParseEncode | src/routes/resources.ts:7-11 | an accepted body's parsed input, re-encoded, parses to the same result, so stripped keys are the only loss |
| Schema.CreateImpliesUpdate | src/routes/resources.ts:13 | every body the create schema accepts, the update schema accepts with the same values |
| Schema.UpdateWithNameImpliesCreate | src/routes/resources.ts:13 | an accepted update body with a name also passes the create schema, with the same values |
| Schema.EmptyBody | src/routes/resources.ts:7-13 | the empty object passes the update schema with nothing supplied, and fails the create schema on the name alone |
| Schema.NullIsNotAbsent | src/routes/resources.ts:9-10 | an optional field set to null is rejected |
| Schema.UnknownKeysIgnored | src/routes/resources.ts:7-11 | a key outside the schema changes neither the verdict nor the parsed values |
| Resources.Present | src/routes/resources.ts:31 | the returned resource keeps the stored id, name, description and timestamp, and its tags are the stored string decoded, hence clean |
| Resources.NewRow | src/routes/resources.ts:23-29 | a new row takes the store's id and timestamp, the body's name and description, and the body's tags encoded; absent tags are stored as the empty string |
| Resources.BuildPatch | src/routes/resources.ts:80-83 | the patch sets a field exactly when the body supplied it, with the supplied value, and tags go in encoded |
| Resources.Merge | src/routes/resources.ts:86 | each supplied field replaces the stored one, and every other field, including id and createdAt, is kept |
| Resources.MergeEmpty | src/routes/resources.ts:80-86 | merging the empty patch leaves the row unchanged |
| Resources.MergeIdempotent | src/routes/resources.ts:86 | merging the same patch twice is the same as merging it once |
| Resources.MergeThen | src/routes/resources.ts:86 | two merges in a row are one merge of the combined patch, where the later patch's fields win |
| Resources.EmptyUpdateBuildsEmptyPatch | src/routes/resources.ts:80-83 | an update body with no fields builds the empty patch |
| Resources.UpdatedView | src/routes/resources.ts:80-87 | the update response carries the supplied fields and the stored others; supplied tags come back re-decoded; comma-free ones come back trimmed with the empty ones dropped, and clean ones as given |
| Resources.CreatedView | src/routes/resources.ts:23-31 | the create response carries the body's name and description, no tags if they were absent, and supplied tags re-decoded; comma-free ones come back trimmed with the empty ones dropped, and clean ones as given |
| Resources.DescriptionOnlyUpdate | src/routes/resources.ts:80-86 | updating only the description of a resource named "X" keeps the name "X" and the tags |
| ListQuery.EffectiveLimit | src/routes/resources.ts:38 | the limit is 20 when none is given, never above 100, a given value up to 100 is kept, and a larger one becomes 100 |
| ListQuery.EffectiveOffset | src/routes/resources.ts:39 | the offset is 0 when none is given, otherwise the given value |
| ListQuery.Normalise | src/routes/resources.ts:36-39 | absent q and tag become the empty string, and limit and offset take their defaults and cap |
| ListQuery.NormaliseIdempotent | src/routes/resources.ts:36-39 | sending a normalised query again leaves it unchanged |
| ListQuery.NoFilterMatchesAll | src/routes/resources.ts:41-51 | with empty q and tag every row matches |
| ListQuery.TextClauseOnExactMatch | src/routes/resources.ts:43-48 | q occurring in the name or in the description satisfies the q clause |
| ListQuery.CaseInsensitive | src/routes/resources.ts:41-51 | two filters that fold to the same strings admit exactly the same rows |
| ListQuery.TagOfResourceMatches | src/routes/resources.ts:49 | filtering by any one of a created resource's tags finds that resource |
| ListQuery.TagClauseIsSubstring | src/routes/resources.ts:49 | the tag filter tests the encoded string, so `"a,b"` finds tags `a`, `b` and `"a"` finds tag `cat` |
| Router.Create | src/routes/resources.ts:19-32 | a rejected body answers 400 with its issues and leaves the store alone; an accepted one is stored under a fresh id and returned; the store stays well-formed |
| Router.GetOne | src/routes/resources.ts:67-72 | the stored row is returned exactly when the id is present, otherwise 404 |
| Router.Update | src/routes/resources.ts:75-91 | the body is checked before the store (400, carrying the update schema's issues); a missing id answers 404 with the store unchanged; otherwise only the row under the id changes, by merging the patch |
| Router.Delete | src/routes/resources.ts:94-102 | the answer is 204 exactly when the id was present, otherwise 404; afterwards the id is gone, the other rows and the next id are unchanged |
| Router.CreateThenGet | src/routes/resources.ts:19-31 | a created resource gets a positive id, is returned with its clean tags as given, and is found under that id |
| Router.EmptyUpdateIsNoChange | src/routes/resources.ts:75-87 | an empty update body answers 200 with the row unchanged and leaves the store as it was |
| Router.UpdateTouchesOneRow | src/routes/resources.ts:86 | an update leaves every other row and the set of ids unchanged |
| Router.DeleteTwice | src/routes/resources.ts:94-102 | a second delete of the same id answers 404, and the id is no longer found |
| Router.CreateAfterDeleteFreshId | src/routes/resources.ts:94-102 | a create after a delete never reuses the deleted id; this comes from the modelled store handing out ids in increasing order, not from the handler |

## Left out

- `src/server.ts`: the app setup (CORS, JSON body parsing, request logging) and the static health endpoint are wiring with no logic.
- The store's own work is not modelled: ordering by `createdAt`, applying `skip` / `take`, `count`, and how the two list queries run in parallel. The list handler is modelled up to the normalised query and the row filter the store evaluates; `total` and `items` are not computed.
- Query and path parsing: `Number(...)` string conversion, NaN (`Math.min(NaN, 100)`), repeated query keys arriving as arrays, and path ids that are not integers. `limit`, `offset` and `id` are integers that are already parsed. An empty query string counts as absent, as `||` makes it. A given `limit` of 0 stays 0. A negative `limit` or `offset` is passed through unchanged.
- Store failures other than a missing row: the update and delete handlers turn every store exception into 404. The model returns 404 only for a missing id.
- `id` assignment and the creation timestamp: the store hands out ids in increasing order from 1 (`Store.nextId`), and the clock is the `now` parameter of `Router.Create`.
- Text encoding: JavaScript strings are UTF-16 code units and Dafny strings are Unicode scalar values. `z.string().min(1)` and `trim` are modelled over characters.
- Case folding: the store's case-insensitive `contains` is modelled as a substring test after a per-character folding function that is left abstract. Foldings that change a string's length are not modelled.
- JSON numbers are kept as integers. No field rule accepts a number, so the distinction plays no part.
- The shape of the 400 body (Zod's flattened error object) and the JSON response bodies are not modelled: a rejection carries the set of failing fields.
