# fastapi-postgres-service: the generic repository in Dafny

This project models the generic repository `BaseCRUD` of the FastAPI/PostgreSQL
service. It also models the Part and Comment request/response schemas and the
history-change schemas that go with it.

`BaseCRUD` works over a database of tables that hold rows. A row is an attribute
map from field name to value. The model covers:

- the filter builder (`__apply_filters__`), including its value dispatch
  (comma lists, multi-select lists, `"NULL"`, falsy values, substring search) and
  PostgreSQL's `ILIKE` (section 9.7.1 of the PostgreSQL manual);
- the sort builder (`__apply_sorting__`) with `asc`, `desc` and `shortest`, and
  the default order;
- the global search (`__apply_global_filter__`);
- pagination (`get_paginated_list`);
- the lookups `get_all`, `get_all_by`, `get_one_or_null_by` and `get_one_by`;
- the change recorder (`__record_history__`), with `convert_orm_to_dict`;
- the mutating operations `create`, `update` and `soft_delete`.

The entity kinds (User, Part, Comment) form a static registry. Each kind has its
columns, its many-to-one relations, its database constraints (NOT NULL, unique,
foreign keys) and the capability flags of its mixins.

The modules are:

- `Wrappers`: Option, Result and the exceptions raised.
- `Models`: the registry of kinds.
- `Values`: field values, the cast to text, and Python's `strip`, `split(",")`,
  `replace` and `lower`.
- `Like`: LIKE/ILIKE as a recursive pattern matcher over an ASCII case fold.
- `Ordering`: lexicographic multi-key comparison and an insertion sort.
- `Query`: the filter, sort and global-search builders. Each builder has a loop
  method proved equal to a recursive specification.
- `Evaluation`: which rows a query admits, `Select`, and pagination.
- `FilterSemantics`: what a built query means for a row.
- `History`: `HistoryAction`, entity flattening, the diff, and the history record.
- `Validation`, `PartSchemas`, `CommentSchemas`: request-body validation and
  response shapes.
- `Crud`: lookups, and the step functions of create, update and soft delete.
  Each step function returns the new tables, the history record and the result.
  The class `Crud.Store` holds `tables` and `history` and performs each step in
  place.
- `CrudProperties`: what the operations guarantee.

The current time and the fresh UUID of a new row are parameters. The acting user
is passed as its id.

## Model

| member | source | states |
|---|---|---|
| Models.UserModel | api/app/models/user_model.py:11-27 | users table: an id, a unique name, no relations, neither Blameable nor SoftDeletable |
| Models.PartModel | api/app/models/part_model.py:11-20 | parts table: name unique and NOT NULL, description nullable, Id and Blameable, not SoftDeletable, no many-to-one relation |
| Models.CommentModel | api/app/models/comment_model.py:12-27 | comments table: exactly the relations `part` (by part_id) and `creator` (by created_by, loaded eagerly), Id and Blameable, not SoftDeletable |
| Models.PartModelWellFormed | api/app/models/mixins/blameable_mixin.py:12-17 | Part has every column its mixins promise (id, and the four audit fields); its constraints name its own columns |
| Models.CommentModelWellFormed | api/app/models/comment_model.py:15-27 | Comment has its mixins' columns; relation names are not columns; each relation's key is a column of the kind |
| Models.UserModelWellFormed | api/app/models/user_model.py:11-19 | User has its id column and its constraints name its own columns |
| Values.Strip | api/app/crud/base_crud.py:99 | the stripped piece neither starts nor ends with whitespace |
| Values.StripSlices | api/app/crud/base_crud.py:99 | the stripped piece is a slice `s[i..j]` of the input, and every character dropped before `i` or from `j` on is whitespace |
| Values.Replace | api/app/crud/base_crud.py:99 | same length; exactly the `from` characters become `to` |
| Values.SplitComma | api/app/crud/base_crud.py:99 | at least one piece, and no piece contains a comma |
| Values.SplitJoinRoundTrip | api/app/crud/base_crud.py:99 | joining the pieces with commas gives the original string back |
| Values.SplitCommaCount | api/app/crud/base_crud.py:98-99 | a string that contains a comma splits into at least two pieces |
| Values.LowerAscii | api/app/crud/base_crud.py:175 | the lower-casing keeps the length; each of 'A'..'Z' becomes its lower-case letter and every other character is kept |
| Values.LowerAsciiSpells | api/app/crud/base_crud.py:175 | a token lowers to a lower-case word iff it spells that word letter by letter, each letter in either case |
| Like.ILikeSubstring | api/app/crud/base_crud.py:131 | `%x%` ILIKE text, for a wildcard-free x, holds iff the folded text contains the folded x |
| Like.ILikeExact | api/app/crud/base_crud.py:115 | a wildcard-free pattern ILIKE text holds iff both are equal after folding |
| Like.SurroundedLiteral | api/app/crud/base_crud.py:131 | `%x%` LIKE text holds iff text contains x |
| Like.PercentMatchesAll | api/app/crud/base_crud.py:101 | `%` matches every text |
| Like.ILikeDoublePercent | api/app/crud/base_crud.py:101 | an empty comma piece yields `%%`, which matches every text |
| Like.TwoWordsInOrder | api/app/crud/base_crud.py:129-131 | `%x%y%` matches any text with x followed later by y |
| Like.OneCharBetween | api/app/crud/base_crud.py:116-118 | `x_y` matches x, any one character, then y |
| Ordering.Sort | api/app/crud/base_crud.py:175-185 | the ordered rows are a permutation of the input |
| Ordering.SortSorted | api/app/crud/base_crud.py:175-185 | the sort result is ordered by the key vector, key by key, each ascending or descending |
| Query.SplitFirstDot | api/app/crud/base_crud.py:71 | key == relation + "." + rest, and the relation part has no dot |
| Query.Resolve | api/app/crud/base_crud.py:69-94 | a plain key resolves only to a column of the kind; a dotted key resolves only through a relation of the kind, to a column of the related kind |
| Query.CommaTerms | api/app/crud/base_crud.py:98-102 | one `%piece%` ILIKE per comma piece, each piece stripped with spaces turned into `%`, in order |
| Query.ListTerms | api/app/crud/base_crud.py:103-123 | one alternative per list element, in order |
| Query.AddJoin | api/app/crud/base_crud.py:83-87 | a related table is joined once, and existing joins are kept |
| Query.ApplyFilters | api/app/crud/base_crud.py:50-140 | the loop over the filter entries builds exactly the query its recursive specification describes, its first bad key included |
| Query.SearchFilters | api/app/crud/base_crud.py:206-208 | one entry with the term per searchable field, in order |
| Query.ApplyGlobalFilter | api/app/crud/base_crud.py:200-213 | the loop builds the specified query: unchanged for an empty term, otherwise the OR-mode filter over the searchable fields |
| Query.ParseDirection | api/app/crud/base_crud.py:175-189 | accepted iff the lower-cased token is asc, desc or shortest; otherwise a ValueError |
| Query.DirectionAnyCase | api/app/crud/base_crud.py:175-189 | "DESC", "Shortest" and "aSc" are read as their directions; "ascending" is a ValueError |
| Query.ApplySorting | api/app/crud/base_crud.py:143-197 | the loop over the sort entries builds the specified order, its first bad key or token included |
| Evaluation.Related | api/app/crud/base_crud.py:77-87 | a joined row is a stored row of the related table whose id is the row's non-null foreign key |
| Evaluation.FilterRows | api/app/crud/base_crud.py:304 | a row is kept iff it is in the input and the query admits it; no row is added |
| Evaluation.SelectSpec | api/app/crud/base_crud.py:316-318 | the result is a permutation of the admitted stored rows, ordered by the query's keys |
| Evaluation.Window | api/app/crud/base_crud.py:357-362 | offset applied only when truthy, limit only when truthy; the page is the contiguous slice at the offset; negative values fail |
| Evaluation.WindowFacts | api/app/crud/base_crud.py:357-362 | a page holds at most `limit` rows of its input, and in the input's order |
| Evaluation.ListPageSpec | api/app/crud/base_crud.py:341-366 | total counts every admitted row before windowing; data is the window of the ordered rows; offset and limit are echoed; with neither truthy (limit 0 included) every row is returned |
| Evaluation.ListPageFails | api/app/crud/base_crud.py:350-360 | a list request fails iff a filter or sort key or token fails, or a truthy offset or limit is negative |
| FilterSemantics.CollectFailsIff | api/app/crud/base_crud.py:68-94 | the filters fail iff some key does not resolve, whatever its value |
| FilterSemantics.FirstBadKeyReported | api/app/crud/base_crud.py:68-94 | the error reported is that of the first key that does not resolve |
| FilterSemantics.UnknownKeyFails | api/app/crud/base_crud.py:90-93 | an unknown key raises AttributeError even when its value imposes nothing |
| FilterSemantics.CollectErrorIsAttribute | api/app/crud/base_crud.py:72-93 | every filter error is an AttributeError |
| FilterSemantics.CollectConds | api/app/crud/base_crud.py:96-132 | one condition per constraining entry, in entry order; no entry without one contributes |
| FilterSemantics.CollectSemantics | api/app/crud/base_crud.py:68-132 | the collected conditions all hold iff every constraining entry is met; one holds iff some entry is met; none iff no entry constrains |
| FilterSemantics.CombineSemantics | api/app/crud/base_crud.py:134-138 | AND mode needs every condition; OR mode needs one; no conditions add nothing |
| FilterSemantics.ExcludeDeletedSemantics | api/app/crud/base_crud.py:57-60 | a soft-deletable kind's query also requires deleted_at IS NULL; joins and order are unchanged |
| FilterSemantics.FilterSemantics | api/app/crud/base_crud.py:50-140 | a filtered query admits a row iff the joins hold, the earlier conditions hold, it is not soft-deleted, and every (AND) or some (OR) constraining entry is met |
| FilterSemantics.ListQuerySemantics | api/app/crud/base_crud.py:350-353 | a listed row meets the joins, is not soft-deleted, meets every constraining filter, and matches the search term in some searchable field when both are given |
| FilterSemantics.SoftDeletedNeverListed | api/app/crud/base_crud.py:57-60 | a listed row of a soft-deletable kind has deleted_at null, with any filters, sort and search term |
| FilterSemantics.GlobalSearchSemantics | api/app/crud/base_crud.py:200-213 | a non-empty term admits a row iff the query already does and, with searchable fields, the term matches one of them |
| FilterSemantics.GlobalSearchWithoutFields | api/app/crud/base_crud.py:203-213 | with no searchable fields a term adds only the soft-delete condition |
| FilterSemantics.PieceSemantics | api/app/crud/base_crud.py:129-132 | a `%piece%` condition holds iff the field is not NULL and its folded text contains the folded piece |
| FilterSemantics.PlainTermSemantics | api/app/crud/base_crud.py:128-132 | a plain term is a `%term%` ILIKE: it holds iff the field is not NULL and its folded text contains the folded term |
| FilterSemantics.SpacedTermMatches | api/app/crud/base_crud.py:129 | "x y" matches a text containing x and later y |
| FilterSemantics.NullTermSemantics | api/app/crud/base_crud.py:112-125 | "NULL", as a string or as a list element, is the IS NULL test |
| FilterSemantics.EmptyTermIgnored | api/app/crud/base_crud.py:126-127 | an empty string value imposes no condition |
| FilterSemantics.CommaTermSemantics | api/app/crud/base_crud.py:98-102 | a comma string holds iff the field is not NULL and its folded text contains one stripped piece |
| FilterSemantics.BlankPieceMatchesAll | api/app/crud/base_crud.py:98-102 | a comma string with a blank piece matches every non-NULL field |
| FilterSemantics.ListSemantics | api/app/crud/base_crud.py:103-123 | a list holds iff some element is "NULL" and the field is NULL, or the field's text equals some element up to case |
| FilterSemantics.ListSpaceMatchesAnyChar | api/app/crud/base_crud.py:116-118 | a list element "x y" also selects x, any one character, then y |
| FilterSemantics.CollectOrderSpec | api/app/crud/base_crud.py:147-189 | sorting succeeds iff every key resolves and every token is valid; one order key per entry, in the given order |
| FilterSemantics.SortQuerySpec | api/app/crud/base_crud.py:147-189 | a sort keeps the conditions and appends exactly the entries' keys after the existing order |
| FilterSemantics.DefaultOrderNewestFirst | api/app/crud/base_crud.py:190-191 | with no sorting, every registered kind is ordered by created_at descending |
| FilterSemantics.ShortestByLength | api/app/crud/base_crud.py:180-185 | `shortest` orders non-NULL values by the length of their text, with NULL after them |
| FilterSemantics.NullsLast | api/app/crud/base_crud.py:175-178 | ascending order puts NULL after every value, so descending order puts it first |
| FilterSemantics.DescendingReverses | api/app/crud/base_crud.py:177-178 | a descending key compares two rows in the reverse of the ascending comparison |
| FilterSemantics.ShortestExample | api/app/crud/base_crud.py:180-185 | names "AA", "A", "AAA" sorted by `shortest` come out as "A", "AA", "AAA" |
| History.ActionRoundTrip | api/app/schemas/history_schemas.py:11-14 | the members are exactly CREATE, UPDATE and DELETE; each value is its name; value and member determine each other |
| History.ColumnMap | api/app/schemas/history_schemas.py:29-31 | keys are exactly the table columns; each value is the entity's value for that column |
| History.Convert | api/app/schemas/history_schemas.py:21-33 | an entity becomes the map of its table columns; any other value is returned unchanged; the result is never an entity |
| History.ConvertIdempotent | api/app/schemas/history_schemas.py:24-33 | converting twice equals converting once |
| History.ConvertDropsRelations | api/app/schemas/history_schemas.py:28-31 | a flattened entity has no relationship entries |
| History.Change | api/app/schemas/history_schemas.py:17-22 | both sides of a change are converted, so neither is an entity |
| History.ComputeDiff | api/app/crud/base_crud.py:264-286 | the loop over the after-state builds exactly the specified diff |
| History.ComputeRemoval | api/app/crud/base_crud.py:245-263 | the loop over the before-state builds exactly the specified removal record |
| History.HistoryRecord | api/app/crud/base_crud.py:226-298 | fails iff no table name or no entity id can be derived; otherwise carries the table, id, user and action value |
| History.BuildHistory | api/app/crud/base_crud.py:216-298 | the recorder's loop form produces exactly the specified record or error |
| History.RecordedKeysTracked | api/app/crud/base_crud.py:251-256 | no recorded key is private or an audit field; no recorded value is an entity |
| History.UnchangedRecordsNothing | api/app/crud/base_crud.py:272-286 | an update that changes no tracked value records an empty map |
| History.DiffExactly | api/app/crud/base_crud.py:272-286 | a key is recorded iff it is tracked, in the after-state, and its value differs; the change is the converted old and new values |
| History.CreateRecordsNonNullFields | api/app/crud/base_crud.py:402-408 | CREATE records exactly the tracked fields whose new value is not None, each as None -> value |
| History.CreateRecordsId | api/app/crud/base_crud.py:402-408 | CREATE always records the new id |
| History.RemovalSkipsRelations | api/app/crud/base_crud.py:257-263 | without an after-state, relationships and entity values are skipped and each new value is None |
| History.DiffKeepsRelations | api/app/crud/base_crud.py:264-286 | with an after-state, a newly loaded relationship is recorded, flattened to its columns |
| Validation.Problems | api/app/schemas/part_schemas.py:26-28 | a field adds a validation error iff its check rejects, named after the field |
| Validation.CheckStr | api/app/schemas/part_schemas.py:9-23 | a string within the bounds is accepted; None is accepted only for a missing optional or a null nullable field; a missing required field is "Field required" |
| Validation.ParseUuid | api/app/schemas/comment_schemas.py:24 | any accepted text yields the canonical lower-case hyphenated UUID; the hyphenated and 32-digit forms are accepted |
| Validation.ParseUuidIdempotent | api/app/schemas/comment_schemas.py:24 | the canonical text reads back as itself |
| Validation.ParseUuidWrappers | api/app/schemas/comment_schemas.py:24 | the braced and URN forms denote the same UUID as the bare text |
| Validation.CheckUuid | api/app/schemas/comment_schemas.py:23-24 | accepted iff a string that reads as a UUID, holding its canonical text; missing and null are rejected with their messages |
| PartSchemas.ParseCreate | api/app/schemas/part_schemas.py:26-32 | accepted iff the name is a 1-256 character string and the description is absent, null or at most 1024 characters |
| PartSchemas.ParseUpdate | api/app/schemas/part_schemas.py:35-37 | accepted iff the name is absent, null or valid and the description is acceptable; both default to None |
| PartSchemas.CreateRoundTrip | api/app/schemas/part_schemas.py:26-32 | exactly the valid creates are accepted, each read back as itself |
| PartSchemas.UpdateRoundTrip | api/app/schemas/part_schemas.py:35-37 | exactly the valid updates are accepted, each read back as itself |
| PartSchemas.NameBounds | api/app/schemas/part_schemas.py:9-15 | the empty name and a 257-character name are refused with pydantic's messages; a 256-character name is accepted |
| PartSchemas.DescriptionBounds | api/app/schemas/part_schemas.py:17-23 | a missing or null description is None; a 1025-character one is refused |
| PartSchemas.DumpCreate | api/app/schemas/part_schemas.py:26-28 | a create dumps exactly name and description |
| PartSchemas.DumpUpdate | api/app/schemas/part_schemas.py:35-37 | an update dumps both fields, and a field is None iff it was not given |
| PartSchemas.OmittedFieldWritesNone | api/app/schemas/part_schemas.py:35-37 | an update body that leaves a field out still dumps None for it |
| PartSchemas.Present | api/app/schemas/part_schemas.py:40-45 | a part is returned iff its attributes fit PartSchema, with exactly the output fields |
| PartSchemas.OutputCarriesAudit | api/app/schemas/part_schemas.py:40-45 | the output has the id and all four audit fields, and exactly the Part columns |
| CommentSchemas.ParseCreate | api/app/schemas/comment_schemas.py:19-24 | accepted iff content is a 1-2028 character string and part_id reads as a UUID |
| CommentSchemas.ParseUpdate | api/app/schemas/comment_schemas.py:27-28 | accepted iff content is acceptable; nothing else is read |
| CommentSchemas.CreateRoundTrip | api/app/schemas/comment_schemas.py:23-24 | a valid create is read back as itself |
| CommentSchemas.CreateNormalForm | api/app/schemas/comment_schemas.py:23-24 | re-sending what a body was read as reads the same |
| CommentSchemas.MissingFieldsRejected | api/tests/comments/test_comments.py:58-76 | null content and a missing or null part_id are refused, each named in the errors |
| CommentSchemas.DumpCreate | api/app/schemas/comment_schemas.py:23-24 | a create dumps exactly content and part_id |
| CommentSchemas.DumpUpdate | api/app/schemas/comment_schemas.py:27-28 | an update dumps content only |
| CommentSchemas.UpdateNeverWritesPartId | api/app/schemas/comment_schemas.py:27-28 | no update body, whatever it holds, dumps part_id |
| CommentSchemas.Present | api/app/schemas/comment_schemas.py:31-38 | a comment is returned iff it fits CommentSchema, with the creator's summary |
| CommentSchemas.OutputOptionality | api/app/schemas/comment_schemas.py:31-38 | a comment without updated_by is still returned; one without its creator is not |
| Crud.Loaded | api/app/crud/base_crud.py:400 | the entity holds its row plus the requested relations, each loaded from the related table |
| Crud.PgUuid | api/app/crud/base_crud.py:326-328 | the text PostgreSQL's uuid_in accepts yields a canonical UUID text |
| Crud.PgGroupsRead | api/app/crud/base_crud.py:326-328 | uuid_in reads 32 hex digits written with hyphens between any of their four-digit groups back as those digits, whatever follows |
| Crud.PgUuidGrouped | api/app/crud/base_crud.py:326-328 | 32 hex digits with hyphens after any four-digit groups, bare or in braces, are the UUID of those digits |
| Crud.PgUuidRejectsUrn | api/app/crud/base_crud.py:326-328 | the `urn:uuid:` form is refused by the database |
| Crud.PgUuidCanonical | api/app/crud/base_crud.py:425 | a canonical UUID text, as `str(entity_id)` gives, reads as itself |
| Crud.Literal | api/app/crud/base_crud.py:324-328 | a missing attribute is AttributeError; against a UUID column the text is what uuid_in reads, and text uuid_in refuses is a DataError; other columns compare as text |
| Crud.FindBy | api/app/crud/base_crud.py:326-329 | the position of the first stored row whose key equals the value |
| Crud.GetOneOrNullBy | api/app/crud/base_crud.py:321-329 | a found row is stored and holds the value; None means no stored row holds it; soft deletion plays no part |
| Crud.LocateBy | api/app/crud/base_crud.py:332-338 | a position of the table iff get_one_or_null_by finds a row, and it is that row's |
| Crud.GetOneBy | api/app/crud/base_crud.py:332-338 | the row get_one_or_null_by finds; NotFoundError naming kind, key and value when there is none |
| Crud.GetAll | api/app/crud/base_crud.py:301-304 | exactly the stored rows that are not soft-deleted, each at most as often as stored |
| Crud.GetAllBy | api/app/crud/base_crud.py:307-318 | AttributeError for a key the kind lacks; otherwise the rows the single-entry filter with the default order selects |
| Crud.Violated | api/app/crud/base_crud.py:384-395 | None implies every NOT NULL column is set and no set unique key is taken by another row; a unique violation names a taken key |
| Crud.Construct | api/app/crud/base_crud.py:377 | the constructor accepts the keywords iff each names an attribute; otherwise TypeError |
| Crud.InsertedRow | api/app/models/mixins/id_mixin.py:7 | an inserted row has exactly the kind's columns, each given or defaulted |
| Crud.Merge | api/app/crud/base_crud.py:433-435 | input values overwrite exactly the attributes the entity has; others are unchanged |
| Crud.MergeInput | api/app/crud/base_crud.py:433-435 | the merge loop computes exactly that merge |
| Crud.UpdatedRow | api/app/models/mixins/blameable_mixin.py:13-15 | the row has the kind's columns; when some column changed, updated_at is refreshed unless assigned and the rest are the entity's; when none changed (no UPDATE is emitted), every column keeps its stored value |
| Crud.MissingAttribute | api/app/crud/base_crud.py:468-472 | None iff the kind has every required attribute; otherwise the first missing one |
| Crud.Store.Create | api/app/crud/base_crud.py:369-410 | the store's tables, history and result become exactly those of the create step |
| Crud.Store.Update | api/app/crud/base_crud.py:413-455 | the store's tables, history and result become exactly those of the update step, constraints checked only when a column changes |
| Crud.Store.SoftDelete | api/app/crud/base_crud.py:458-499 | the store's tables, history and result become exactly those of the soft-delete step |
| CrudProperties.CreatedRowContents | api/app/crud/base_crud.py:377-382 | the created row has the kind's columns: created_by and updated_by are the actor, the id and timestamps are defaulted unless given, and the input values are elsewhere |
| CrudProperties.CreateWrites | api/app/crud/base_crud.py:377-410 | a successful create appends exactly its row, leaves other tables, returns the loaded entity, and records one CREATE diffing it against `{}` |
| CrudProperties.CreateFailureLeavesStore | api/app/crud/base_crud.py:390-398 | a failed create records nothing; a constraint or constructor failure leaves every table as it was |
| CrudProperties.CreateNotUniqueIff | api/app/crud/base_crud.py:390-395 | NotUniqueError iff NOT NULL passes and some unique key is taken; the store is then unchanged |
| CrudProperties.CreateKeepsUnique | api/app/models/part_model.py:14 | create keeps the id and every unique column unique |
| CrudProperties.ViolatedNone | api/app/crud/base_crud.py:384-395 | a row that breaks no NOT NULL, unique or foreign key constraint passes the checks |
| CrudProperties.CreateSucceeds | api/app/crud/base_crud.py:384-410 | a create whose row passes the checks and has a UUID id succeeds, appends its row and records once |
| CrudProperties.PartCreateSucceeds | api/tests/parts/test_parts.py:84-98 | a schema-valid Part create by a stored user, under a fresh id and an unused name, returns its row and records one entry |
| CrudProperties.PartCreatedRowPresented | api/tests/parts/test_parts.py:84-98 | the created part is returned with the body's name and description, and the actor in both stamps |
| CrudProperties.PartCreateStores | api/tests/parts/test_parts.py:118-129 | the part a valid body creates is stored, recorded once and returned with the body's fields, a null description included |
| CrudProperties.DuplicatePartNameRejected | api/tests/parts/test_parts.py:101-115 | a Part create with a name already stored is refused with the parts_name_key message; nothing is written or recorded |
| CrudProperties.UpdateWrittenRowContents | api/app/crud/base_crud.py:429-435 | the updated row takes the input for named columns, the actor in updated_by unless named, now in updated_at only when a column changed (the stored stamp otherwise), the entity's values elsewhere |
| CrudProperties.UpdateChangesIff | api/app/crud/base_crud.py:429-442 | an update changes a column iff the input names a column with a new value, or the actor is not the stored updated_by |
| CrudProperties.RepeatedPartUpdateKeepsStamp | api/app/crud/base_crud.py:429-444 | re-sending a part's stored values by its last updater keeps the row and updated_at and records an empty diff; a real change stamps updated_at with now |
| CrudProperties.UpdateWrites | api/app/crud/base_crud.py:422-455 | a successful update replaced exactly the found row, left every other row and table, returned the reloaded entity, and recorded one UPDATE |
| CrudProperties.UpdateFailures | api/app/crud/base_crud.py:422-442 | no input is ValueError with nothing changed; any failure records nothing; a unique violation is never NotUniqueError |
| CrudProperties.UpdateKeepsUnique | api/app/models/part_model.py:14 | update keeps the id and every unique column unique |
| CrudProperties.CanonicalIdLiteral | api/app/crud/base_crud.py:425 | a canonical entity id reads as itself against the id column |
| CrudProperties.AbsentIdNotFound | api/app/crud/base_crud.py:332-338 | get_one_by on a canonical id no stored row holds is NotFoundError naming the kind and the id |
| CrudProperties.MissingEntityNotFound | api/tests/parts/test_parts.py:149-155 | updating or soft-deleting an absent id raises NotFoundError naming the kind and id, and changes nothing |
| CrudProperties.PartUpdateReplacesFields | api/app/routers/part_router.py:60-69 | a successful Part update stores exactly the body's name and description; an omitted description is cleared |
| CrudProperties.NullNameViolates | api/app/models/part_model.py:14 | a part row without a name breaks the name's NOT NULL constraint first |
| CrudProperties.PartUpdateWithoutNameFails | api/app/schemas/part_schemas.py:35-37 | an update body without a name passes the schema, then (every stored part having its NOT NULL name) fails with the database's not-null error and changes nothing |
| CrudProperties.CommentUpdateKeepsPartId | api/app/schemas/comment_schemas.py:27-28 | a comment update stores the body's content and keeps part_id, created_by and id |
| CrudProperties.SoftDeleteRegistryFails | api/app/crud/base_crud.py:468-472 | soft delete of a part or a comment raises AttributeError naming deleted_at, and changes nothing |
| CrudProperties.DeletedRowContents | api/app/crud/base_crud.py:482-483 | the deleted row stamps deleted_at and deleted_by, refreshes updated_at unless the row was already deleted at that time, and keeps every other column |
| CrudProperties.SoftDeleteWrites | api/app/crud/base_crud.py:474-499 | a successful soft delete writes the deleted row in place, keeps the table's size, and records one DELETE |
| CrudProperties.SoftDeletedRowStaysFindable | api/app/crud/base_crud.py:326-329 | after a soft delete the row is stamped, drops out of get_all, and get_one_by still finds it by id |
| CrudProperties.GetAllBySpec | api/app/crud/base_crud.py:307-318 | get_all_by lists exactly the stored, non-deleted rows the entry admits, ordered, newest first for the registry |
| CrudProperties.PartCommentsListed | api/app/routers/part_router.py:72-80 | get_all_by on part_id with a part's canonical id lists exactly the comments that refer to that part |

## Left out

- HTTP routes, dependency injection and error handlers are left out; they are transport plumbing. `NotUniqueError` is rendered as 400 by api/app/errors.py:45-54, which this model does not cover.
- Sessions, commit versus flush, and `refresh` as a database round trip are left out. The store changes as one value; a constraint failure leaves it unchanged.
- Wall-clock time and uuid4 are left out: the current time and the new id are parameters.
- SQLAlchemy's join bookkeeping is left out. A dotted key resolves only through a many-to-one relation. One-to-many relations (`Part.comments`, `User.comments`) are not in the registry.
- `Query.Resolve`: a dotted key through `creator` (such as `creator.name`) succeeds in the model, joining users on `created_by`. In the source it raises: `query.join(UserModel)` has no ON clause, and comments has two foreign keys to users (`created_by` and `updated_by`), so SQLAlchemy cannot choose one.
- `Evaluation.ValueKey`: text is ordered by code point, which is PostgreSQL's C collation. Under a language collation such as `en_US.UTF-8`, "a" sorts before "B"; in the model "B" sorts before "a". The database's collation is not part of the source.
- A relationship name used as a plain filter key is reported as unknown. In the source it reaches SQLAlchemy-defined behaviour.
- An empty-list filter value is left out: `or_()` with no arguments has SQLAlchemy-defined meaning. In the model an empty OR matches nothing.
- A trailing lone escape character in a LIKE pattern never matches. PostgreSQL raises an error instead.
- Ties between equal sort keys keep storage order. Database tie-breaking is left out.
- `Crud.GetOneOrNullBy`: does not raise when several rows match a non-unique key, as `one_or_none` does. It returns the first match.
- The unknown-key message on the sort path is written with the class name. Python renders the class object there.
- The relationship-key TypeError in `Crud.Literal` uses its own message. Comparing a relationship to a string has SQLAlchemy-defined behaviour.
- JSON storage of history `changes` (history_model.py) is left out. So are the history row's own id and created_at, and the foreign-key check on its user_id.
- The "Before action is not a BaseModel instance" exception cannot be reached. Without an after-state, the table name already requires an entity before-state.
- Attribute expiry after commit is left out; an entity's values are its row's values.
- `convert_orm_to_dict` through a schema's `model_validate` is left out. ORM classes here have no such method, so only the column-map branch is modelled.
- Entity equality in the diff is structural. Entity ids are UUID values.
- `Crud.Construct`: its TypeError message does not name the offending keyword. Relationship keywords passed to the constructor are not stored.
- Only the id and timestamp column defaults are modelled. `is_active` and `last_login_at` of users are not needed by any operation.
- api/app/models/mixins/created_at_mixin.py is not part of this model. The created_at column is taken from the kinds' declarations.
- String-length DataErrors raised by the database are left out; the schemas already bound every length.
- The ValueError -> HTTP 400 branch in `create` is left out (base_crud.py:396-398). No modelled step raises ValueError while flushing.
- A non-UUID column is compared with a string value as text.
- `Validation.ParseUuid`: accepts the simple, hyphenated, braced and URN forms, the forms the Rust `uuid` crate's `parse_str` (which pydantic uses) reads. The pydantic error suffix of a bad UUID is omitted.
- `Values.LowerAscii`: only ASCII letters are folded, where Python's `str.lower()` folds all of Unicode. For the direction tokens this makes no difference. The only non-ASCII characters that Python lowers into ASCII letters are KELVIN SIGN (to `k`) and LATIN CAPITAL LETTER I WITH DOT ABOVE (to `i` plus a combining dot). Neither can complete `asc`, `desc` or `shortest`, so a token is accepted in the source iff it is accepted in the model.
- A history failure after a committed create leaves the row in place. The commit happens before the recorder runs.
- No kind in the registry is soft-deletable, and no concrete repository overrides `searchable_fields`. The generic lemmas cover both cases.
- Settings, migrations, the current-user stub and the existence guards are left out. The guards are thin calls to `get_one_by`.

## Notes

- A Part update is a PUT with `PartUpdateSchema`. The schema dumps both fields with their `None` defaults, so an update that omits the description clears it. One that omits the name fails with the database's not-null error for `parts.name`. Both behaviours are stated as proved (`CrudProperties.PartUpdateReplacesFields`, `CrudProperties.PartUpdateWithoutNameFails`). They are not claimed as defects, because the intent behind them is unclear.
- Unique violations in `update` surface as untranslated IntegrityErrors, unlike in `create` (`CrudProperties.UpdateFailures`).
