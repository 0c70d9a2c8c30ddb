# Transformer inspection records — a Dafny model

The system keeps records of power-distribution transformers and of the
thermal inspections made on them. A Spring backend stores transformers,
inspections, inspection images, maintenance records, annotations and login
rows. It validates and merges partial updates, filters and pages listings,
and calls an external anomaly detector on uploaded images. A React frontend
lists transformers, edits the anomalies found on an image, and exports the
inspector's feedback on the detections as JSON or CSV.

This project models that core, one Dafny module per source concern:

- `Wrappers`, `Text`, `Responses`, `Beans`: Java nulls and exceptions, ASCII
  text helpers, the response codes and the HTTP status mapping of the base
  controller, and the reflective bean copy and partial update of the common
  mapper.
- `Repository`, `SqlLike`, `FilterSpec`, `Paging`: a table with generated,
  ascending ids; the SQL `LIKE` matcher, with PostgreSQL's default `\` escape; the specification builder for the
  list filters; and the page request and page metadata of the listings.
- `TransformerService`, `InspectionEntity`, `InspectionMapper`,
  `InspectionService`, `ImageMapper`, `ImageService`, `ImageController`,
  `MaintenanceService`, `AnnotationService`, `LoginService`: the record
  services, with their validation, null-skipping merges and the rewrapping of
  unexpected failures into each operation's own response code.
- `PythonYolo`: the bridge to the detector. It chooses the interpreter and
  the script, runs the detector on a temporary copy of the image, and turns
  the exit status and output into anomalies or an encoded failure.
- `AnomalyService`, `InspectionHelpers`, `ExportFeedback`, `CsvExport`,
  `AddInspectionModal`, `TransformerList`, `ImageUploadForm`: the frontend's
  anomaly edits, inspection helpers, feedback export and CSV rendering, the
  add-inspection form with its date and time conversion, the client-side
  paging of the transformer list, and the upload form's schema.

Stateful parts are classes: the tables, the services that own them, the
detector's disk and the id sequences. Their methods state their whole new
state and the invariants they keep. The pure parts are functions, and lemmas
relate them to independent definitions.

## Model

| member | source | states |
|---|---|---|
| Text.Lower | src/main/java/com/TransformerUI/TransformerUI/service/util/DataSpecificationUtil.java:42 | the ASCII part of SQL `lower()`: keeps the length and lower-cases each ASCII capital, leaving every other character (non-ASCII folding is not modelled, see Left out) |
| Text.LowerIdempotent | src/main/java/com/TransformerUI/TransformerUI/service/util/DataSpecificationUtil.java:42 | lower-casing twice is lower-casing once |
| Text.Upper | frontend/src/utils/inspectionHelpers.ts:10 | the ASCII part of `toUpperCase()`: keeps the length and upper-cases each ASCII small letter, leaving every other character (non-ASCII mapping is not modelled, see Left out) |
| Text.Trim | frontend/src/utils/inspectionHelpers.ts:10 | `trim()` returns the part of the text between its leading and trailing white space: it occurs in the text, neither starts nor ends with white space, and everything before and after it is white space |
| Text.TrimAllSpace | frontend/src/utils/inspectionHelpers.ts:10 | text made only of white space trims to the empty text |
| Text.TrimUntouched | frontend/src/utils/inspectionHelpers.ts:10 | non-empty text that neither starts nor ends with white space trims to itself |
| Text.NatToString | backend/src/main/java/com/TransformerUI/TransformerUI/entity/InspectionDataEntity.java:64 | `%d` writes at least one digit and no leading zero |
| Text.ParseNatToString | backend/src/main/java/com/TransformerUI/TransformerUI/entity/InspectionDataEntity.java:64 | a number written by `%d` reads back as the number |
| Text.NatToStringInjective | backend/src/main/java/com/TransformerUI/TransformerUI/entity/InspectionDataEntity.java:64 | distinct numbers are written differently |
| Text.FormatZeroPadded | backend/src/main/java/com/TransformerUI/TransformerUI/entity/InspectionDataEntity.java:64 | `%03d`-style padding of a non-negative number gives digits that read back as the number, at least the width long and never shorter than the number itself |
| Repository.Where | backend/src/main/java/com/TransformerUI/TransformerUI/repository/AnnotationRepository.java:12 | a derived finder returns exactly the stored records that satisfy its condition, never more than the table holds |
| Repository.WhereAppend | backend/src/main/java/com/TransformerUI/TransformerUI/repository/AnnotationRepository.java:12 | the matches of two runs of records are the matches of the first followed by those of the second, so table order is kept |
| Repository.WhereSingle | backend/src/main/java/com/TransformerUI/TransformerUI/repository/AnnotationRepository.java:12 | one record matches on its own exactly when it satisfies the condition |
| Repository.LookupAscending | src/main/java/com/TransformerUI/TransformerUI/service/impl/TransformerDataServiceImpl.java:89-91 | in a table with ascending ids, `findById` of a stored record's id finds that record |
| Responses.Respond | backend/TransformerUI/src/main/java/com/TransformerUI/TransformerUI/transport/response/ResponseCodeEnum.java:4-17 | a reply built from an enum constant carries that constant's code string and message, the given payload and no page metadata |
| Responses.CodeOf | backend/TransformerUI/src/main/java/com/TransformerUI/TransformerUI/transport/response/ResponseCodeEnum.java:4-17 | every listed response code is a four-character code string |
| Responses.Raise | backend/TransformerUI/src/main/java/com/TransformerUI/TransformerUI/service/util/exception/type/BaseException.java:25-28 | `new BaseException(X.code(), X.message())`: the failure carries the constant's code and its own message (no contract; `MessageText` reads the message) |
| Responses.RaiseWith | backend/TransformerUI/src/main/java/com/TransformerUI/TransformerUI/service/util/exception/type/BaseException.java:25-28 | `new BaseException(X.code(), text)`: the failure carries the constant's code and the given text (no contract) |
| Responses.RaiseText | backend/TransformerUI/src/main/java/com/TransformerUI/TransformerUI/service/util/exception/type/BaseException.java:21-23 | `new BaseException(text)`: the failure has no response code, only the text (no contract) |
| Responses.SetResponseEntity | src/main/java/com/TransformerUI/TransformerUI/controller/BaseController.java:9-18 | the status is 200 exactly for "2000"/"2001", 207 exactly for "2007", 400 exactly for "4000"/"4001", 422 exactly for "4003", 500 exactly for every other code; the body is passed through unchanged |
| Responses.ListedCodeStatus | src/main/java/com/TransformerUI/TransformerUI/controller/BaseController.java:11-17 | success replies become 200 and partial success 207; not-found and bad-request (both "4000") are exactly the replies that become 400; every other listed enum constant becomes 500 |
| Beans.FieldIn | backend/src/main/java/com/TransformerUI/TransformerUI/service/impl/CommonMapper.java:35 | the field found under a name is a declaration of that name, and none is found exactly when no declaration has the name |
| Beans.Str | backend/src/main/java/com/TransformerUI/TransformerUI/service/impl/CustomMapper.java:81-147 | a getter of a text field returns a value exactly when the field holds a non-null string, and returns that string |
| Beans.SetIfPresent | backend/src/main/java/com/TransformerUI/TransformerUI/service/impl/CustomMapper.java:48-55 | a non-null value is written into the field; a null value leaves the record as it was |
| Beans.MergeFieldwise | backend/src/main/java/com/TransformerUI/TransformerUI/service/impl/CommonMapper.java:27-51 | the copy rules field by field: a null source value never overwrites, a source field with no same-named target field is ignored, a value moves only when the target type accepts the source type, and every other target field keeps its value |
| Beans.MergeIdempotent | backend/src/main/java/com/TransformerUI/TransformerUI/service/impl/CommonMapper.java:22-24 | updating a target twice from the same source gives the same state as updating it once |
| Beans.MergeConforms | backend/src/main/java/com/TransformerUI/TransformerUI/service/impl/CommonMapper.java:43-46 | since only type-compatible values are written, a target whose fields hold values of their declared types keeps that property after the copy |
| Beans.CopyFields | backend/src/main/java/com/TransformerUI/TransformerUI/service/impl/CommonMapper.java:27-51 | the loop over the source's declared fields leaves the target in exactly the merged state (the copy rules above), and keeps the target well-typed |
| Beans.CopyAll | backend/src/main/java/com/TransformerUI/TransformerUI/service/impl/CommonMapper.java:28-50 | walking the source's fields in declaration order leaves the target holding the merge of all of them and well-typed |
| Beans.CopyNext | backend/src/main/java/com/TransformerUI/TransformerUI/service/impl/CommonMapper.java:29-49 | after the `i`-th source field the target holds the merge of the first `i + 1` fields |
| Beans.CopyField | backend/src/main/java/com/TransformerUI/TransformerUI/service/impl/CommonMapper.java:31-47 | one loop iteration: the target field is set to the source value exactly when the target declares the field, the types are compatible and the value is non-null; otherwise the target is untouched |
| Beans.Update | backend/src/main/java/com/TransformerUI/TransformerUI/service/impl/CommonMapper.java:22-24 | `update` leaves the existing object in the merged state of its old values and the source |
| Beans.Map | backend/src/main/java/com/TransformerUI/TransformerUI/service/impl/CommonMapper.java:11-19 | `map` fails with "Mapping failed" exactly when the target class has no no-argument constructor; otherwise it returns a fresh object of that class holding the source merged onto the class defaults |
| Beans.MapFieldwise | backend/src/main/java/com/TransformerUI/TransformerUI/service/impl/CommonMapper.java:11-19 | after `map`, a field the target class lacks is absent, a field the source leaves null keeps the target's default, and a transferable value is copied |
| Beans.MapSameFields | backend/src/main/java/com/TransformerUI/TransformerUI/service/impl/CommonMapper.java:11-19 | mapping onto a class that declares every source field with the same type and has no defaults reproduces the source exactly |
| Repository.Table.Save | src/main/java/com/TransformerUI/TransformerUI/service/impl/TransformerDataServiceImpl.java:40 | `save` of a record whose id is stored replaces that record in place; any other record is appended under the next sequence id; ids stay strictly ascending and the saved record is found by its id afterwards |
| Repository.Table.Delete | src/main/java/com/TransformerUI/TransformerUI/service/impl/TransformerDataServiceImpl.java:114 | `delete` removes exactly the record with the id and keeps the rest in order |
| Repository.Table.DeleteWhere | backend/src/main/java/com/TransformerUI/TransformerUI/service/impl/ImageDataServiceImpl.java:112-115 | a derived delete removes exactly the records satisfying the condition and keeps the others in order |
| Repository.Lookup | src/main/java/com/TransformerUI/TransformerUI/service/impl/TransformerDataServiceImpl.java:89-91 | `findById` returns a stored record with that id, or nothing exactly when no stored record has the id |
| Repository.WithoutSpec | src/main/java/com/TransformerUI/TransformerUI/service/impl/TransformerDataServiceImpl.java:111-114 | removing an id keeps the table ascending, keeps exactly the records with other ids, and shortens the table by one exactly when the id was present |
| Repository.WhereAscending | backend/src/main/java/com/TransformerUI/TransformerUI/service/impl/ImageDataServiceImpl.java:65-74 | a query's matching records are listed in ascending id order |
| SqlLike.Like | backend/src/main/java/com/TransformerUI/TransformerUI/service/util/DataSpecificationUtil.java:42 | `LIKE` as the database evaluates it, with `\` as the default escape: a non-empty pattern of only `%` matches every string, and a pattern free of `%`, `_` and `\` matches exactly itself |
| SqlLike.ClosedUnlessEndsInEscape | backend/src/main/java/com/TransformerUI/TransformerUI/service/util/DataSpecificationUtil.java:42 | a pattern whose last character is not `\` never ends in a lone escape, the case the database rejects |
| SqlLike.EscapedCharacter | backend/src/main/java/com/TransformerUI/TransformerUI/service/util/DataSpecificationUtil.java:42 | `\c` matches the character `c` and nothing else |
| SqlLike.PercentMatchesAll | backend/src/main/java/com/TransformerUI/TransformerUI/service/util/DataSpecificationUtil.java:42 | `LIKE '%'` matches every string, the empty one included |
| SqlLike.LeadingPercent | backend/src/main/java/com/TransformerUI/TransformerUI/service/util/DataSpecificationUtil.java:42 | a pattern starting with `%` matches a string exactly when the rest of the pattern matches one of its suffixes |
| SqlLike.LiteralThenPercent | backend/src/main/java/com/TransformerUI/TransformerUI/service/util/DataSpecificationUtil.java:42 | a text free of `%`, `_` and the escape `\`, followed by `%`, matches exactly the strings that start with that text |
| SqlLike.SurroundedLiteral | backend/src/main/java/com/TransformerUI/TransformerUI/service/util/DataSpecificationUtil.java:42 | `LIKE '%q%'` with `q` free of `%`, `_` and `\` matches exactly the strings containing `q` |
| FilterSpec.Holds | backend/src/main/java/com/TransformerUI/TransformerUI/service/util/DataSpecificationUtil.java:42-45 | a `LIKE` or equality predicate never holds of a row whose column is NULL |
| FilterSpec.Collect | backend/src/main/java/com/TransformerUI/TransformerUI/service/util/DataSpecificationUtil.java:18-51 | the criteria in order give at most one predicate each; with the declared-field scan the unknown-attribute failure never occurs |
| FilterSpec.Specification | backend/src/main/java/com/TransformerUI/TransformerUI/service/util/DataSpecificationUtil.java:14-55 | null filter values give no predicate; otherwise at most one predicate per criterion, and the checked builder never fails on an unknown attribute |
| FilterSpec.Step | backend/src/main/java/com/TransformerUI/TransformerUI/service/util/DataSpecificationUtil.java:20-49 | one filter value contributes nothing when its column is undeclared (checked builder), its values are null or empty, or its operation is neither "Include" nor "Equal"; past those skips a null first value fails with NullValue and a null operation with NullOperation; "Include" gives the lower-cased `%v%` LIKE on the column and "Equal" equality with the first value; an undeclared column reached by the unchecked builder fails with UnknownAttribute |
| FilterSpec.BuildSpecificationChecked | backend/src/main/java/com/TransformerUI/TransformerUI/service/util/DataSpecificationUtil.java:14-55 | the loop builds exactly the predicates of the specification function, skipping filters on undeclared columns; null filter values give no predicate |
| FilterSpec.BuildSpecificationUnchecked | src/main/java/com/TransformerUI/TransformerUI/service/util/DataSpecificationUtil.java:13-41 | the copy without the declared-field check builds exactly the specification function's predicates, failing on a column the entity lacks |
| FilterSpec.NoPredicatesMatchEverything | backend/src/main/java/com/TransformerUI/TransformerUI/service/util/DataSpecificationUtil.java:53 | the empty conjunction holds of every row |
| FilterSpec.ErrorsPersist | backend/src/main/java/com/TransformerUI/TransformerUI/service/util/DataSpecificationUtil.java:19-50 | once building fails, filters after the failing one are never looked at |
| FilterSpec.FailsAt | backend/src/main/java/com/TransformerUI/TransformerUI/service/util/DataSpecificationUtil.java:19-50 | the first failing filter decides the outcome of the whole list |
| FilterSpec.SkippedCriterionIsOmitted | backend/src/main/java/com/TransformerUI/TransformerUI/service/util/DataSpecificationUtil.java:33-37 | a filter that contributes nothing (undeclared column, null or empty values, unknown operation) can be removed from anywhere in the list without changing the result |
| FilterSpec.CollectCongruent | backend/src/main/java/com/TransformerUI/TransformerUI/service/util/DataSpecificationUtil.java:19-50 | two lists whose filters contribute alike, position by position, build the same specification |
| FilterSpec.OnlyFirstValueMatters | backend/src/main/java/com/TransformerUI/TransformerUI/service/util/DataSpecificationUtil.java:37-38 | a filter's contribution depends on its first value only |
| FilterSpec.LaterValuesIgnored | backend/src/main/java/com/TransformerUI/TransformerUI/service/util/DataSpecificationUtil.java:37-38 | replacing a filter's values by values with the same first element leaves the whole specification unchanged |
| FilterSpec.IncludeIsCaseInsensitiveSubstring | backend/src/main/java/com/TransformerUI/TransformerUI/service/util/DataSpecificationUtil.java:41-43 | for a value free of `%`, `_` and `\`, `Include` holds exactly when the lower-cased value occurs in the lower-cased column |
| FilterSpec.IncludePatternClosed | backend/src/main/java/com/TransformerUI/TransformerUI/service/util/DataSpecificationUtil.java:42 | the pattern of an `Include` ends in `%`, so the database never rejects it for a trailing escape |
| FilterSpec.IncludeBackslashEscapes | backend/src/main/java/com/TransformerUI/TransformerUI/service/util/DataSpecificationUtil.java:42 | the value `a\b` is sent unescaped, so it selects a field containing "ab" and not the field `a\b` |
| FilterSpec.IncludeExample | backend/src/main/java/com/TransformerUI/TransformerUI/service/util/DataSpecificationUtil.java:41-43 | "tx1" selects a row whose transformer number is "TX100" |
| FilterSpec.IncludeWildcardsUnescaped | backend/src/main/java/com/TransformerUI/TransformerUI/service/util/DataSpecificationUtil.java:42 | `%` and `_` in an `Include` value are not escaped: the value "_" selects every row whose column is non-empty |
| FilterSpec.EqualIsExact | backend/src/main/java/com/TransformerUI/TransformerUI/service/util/DataSpecificationUtil.java:44-46 | `Equal` holds exactly when the column equals the first value, case-sensitively |
| FilterSpec.AppendNarrows | backend/src/main/java/com/TransformerUI/TransformerUI/service/util/DataSpecificationUtil.java:53 | adding a filter never enlarges the set of matching rows |
| FilterSpec.BuildersAgreeOnKnownColumns | src/main/java/com/TransformerUI/TransformerUI/service/util/DataSpecificationUtil.java:17-37 | when every filter names a declared column, the checked and the unchecked builders give the same result |
| FilterSpec.UnknownColumnFailsUnchecked | src/main/java/com/TransformerUI/TransformerUI/service/util/DataSpecificationUtil.java:23-32 | an `Include` or `Equal` with a value on a column the entity lacks makes the unchecked builder fail, while the checked builder skips it |
| Paging.PageOf | src/main/java/com/TransformerUI/TransformerUI/service/impl/TransformerDataServiceImpl.java:135-138 | a page holds at most `size` items, exactly the ones at positions `page*size` onwards that exist |
| Paging.PageCount | frontend/src/pages/Transformers.tsx:28 | the page count is the least number of pages that hold every item |
| Paging.PagesArePrefix | src/main/java/com/TransformerUI/TransformerUI/service/impl/TransformerDataServiceImpl.java:135-138 | the first `count` pages read in order are the first `count*size` items |
| Paging.AllPagesReproduceList | src/main/java/com/TransformerUI/TransformerUI/service/impl/TransformerDataServiceImpl.java:135-138 | reading every page in order gives back the whole list, each item once |
| Paging.PageExample | src/main/java/com/TransformerUI/TransformerUI/service/impl/TransformerDataServiceImpl.java:133-135 | with 25 items in pages of 10, the page at index 2 holds the last 5 |
| Paging.ReverseDescending | src/main/java/com/TransformerUI/TransformerUI/service/impl/TransformerDataServiceImpl.java:135 | the table in ascending id order, reversed, is in strictly descending id order, as `Sort.by(DESC, "id")` asks |
| Paging.PageRequestOf | src/main/java/com/TransformerUI/TransformerUI/service/impl/TransformerDataServiceImpl.java:133-135 | the page request defaults to page 0 and size 10, and is refused exactly when the page is negative or the size is below one |
| Paging.JavaInt | src/main/java/com/TransformerUI/TransformerUI/service/impl/TransformerDataServiceImpl.java:149 | `int` arithmetic: the result lies in the 32-bit range, differs from the exact value by a multiple of 2^32, and equals it when the exact value fits |
| Paging.PageNumber | src/main/java/com/TransformerUI/TransformerUI/service/impl/TransformerDataServiceImpl.java:149 | the reported page number is the page index plus one, except that the largest `int` index wraps to "-2147483648" |
| Paging.ListingSucceeds | src/main/java/com/TransformerUI/TransformerUI/service/impl/TransformerDataServiceImpl.java:133-154 | a successful listing answers "2000" with the page of matching rows in id-descending order, each mapped to the response class, and page metadata holding the total, the 1-based page number as `int` addition gives it, and the page size |
| Paging.ListingFailures | src/main/java/com/TransformerUI/TransformerUI/service/impl/TransformerDataServiceImpl.java:155-158 | a bad page request or a failing specification is answered with "5000" "Internal Server Error", no data and no page metadata, never thrown |
| Paging.ListingDefaults | src/main/java/com/TransformerUI/TransformerUI/service/impl/TransformerDataServiceImpl.java:133-135 | without offset and limit the first ten matches are listed and the page number is "1" |
| TransformerService.ValidateTransformerData | src/main/java/com/TransformerUI/TransformerUI/service/impl/TransformerDataServiceImpl.java:52-60 | validation passes exactly when region, transformer number, pole number, type and location details are all non-null; otherwise a bad-request "Mandatory Fields are Missing" |
| TransformerService.TransformerDataService.SaveTransformerData | src/main/java/com/TransformerUI/TransformerUI/service/impl/TransformerDataServiceImpl.java:34-50 | a valid request is mapped onto a new entity and answered with success: an entity whose id is stored replaces that row in place, any other is appended under the next sequence id, which then advances; an invalid one stores nothing and raises TRANSFORMER_NOT_CREATED, not the bad-request it started as |
| TransformerService.TransformerDataService.UpdateTransformerData | src/main/java/com/TransformerUI/TransformerUI/service/impl/TransformerDataServiceImpl.java:63-83 | an unknown id raises bad-request "Transformer Data is not found with ID to Update: …" (re-thrown with its code), a null id TRANSFORMER_NOT_UPDATED, and neither changes anything; otherwise the stored record is replaced in place by its null-skipping merge with the request |
| TransformerService.MergeAndSave | src/main/java/com/TransformerUI/TransformerUI/service/impl/TransformerDataServiceImpl.java:66-71 | the found record, merged with the request, replaces the record with its id in place; the table stays ascending and well-typed |
| TransformerService.MergeStored | src/main/java/com/TransformerUI/TransformerUI/service/impl/TransformerDataServiceImpl.java:66-69 | the loaded entity, updated from the request, holds the null-skipping merge of the request onto the stored record and stays well-typed |
| TransformerService.TransformerDataService.GetTransformerById | src/main/java/com/TransformerUI/TransformerUI/service/impl/TransformerDataServiceImpl.java:86-105 | a stored id answers success with the record mapped to the response class, which drops the location details; an unknown id raises bad-request with the id in the message; a null id becomes TRANSFORMER_NOT_CONNECTED |
| TransformerService.TransformerDataService.DeleteTransformerById | src/main/java/com/TransformerUI/TransformerUI/service/impl/TransformerDataServiceImpl.java:108-127 | a stored id removes exactly that record; an unknown id raises bad-request with the id in the message and deletes nothing; a null id becomes TRANSFORMER_NOT_DELETED |
| TransformerService.TransformerDataService.FilterTransformerData | src/main/java/com/TransformerUI/TransformerUI/service/impl/TransformerDataServiceImpl.java:130-159 | the listing either succeeds with "2000" or is the internal-server-error reply |
| TransformerService.UnknownColumnFailsListing | src/main/java/com/TransformerUI/TransformerUI/service/impl/TransformerDataServiceImpl.java:137-158 | a filter on a column the transformer entity does not have fails the whole listing with the internal-server-error reply |
| InspectionEntity.InspectionNumber | backend/src/main/java/com/TransformerUI/TransformerUI/entity/InspectionDataEntity.java:63-65 | the inspection number is "INSP-" followed by the id zero-padded to at least three digits, which reads back as the id; a null id gives "INSP-null" |
| InspectionEntity.InspectionNumberWidth | backend/src/main/java/com/TransformerUI/TransformerUI/entity/InspectionDataEntity.java:64 | ids below 1000 take exactly three digits; larger ids are printed in full |
| InspectionEntity.SmallIdPadded | backend/src/main/java/com/TransformerUI/TransformerUI/entity/InspectionDataEntity.java:64 | id 7 gives "INSP-007" |
| InspectionEntity.LargeIdInFull | backend/src/main/java/com/TransformerUI/TransformerUI/entity/InspectionDataEntity.java:64 | id 1234 gives "INSP-1234", not truncated |
| InspectionEntity.InspectionNumberInjective | backend/src/main/java/com/TransformerUI/TransformerUI/entity/InspectionDataEntity.java:63-65 | two non-negative ids with the same inspection number are equal |
| InspectionEntity.GenerateInspectionNo | backend/src/main/java/com/TransformerUI/TransformerUI/entity/InspectionDataEntity.java:63-65 | `generateInspectionNo` sets the inspection number from the entity's own id and changes no other field |
| InspectionEntity.Build | backend/src/main/java/com/TransformerUI/TransformerUI/entity/InspectionDataEntity.java:37-42 | the builder keeps every given field and fills in the two builder defaults where not given: the maintenance date is the current time and the status is "Pending" |
| InspectionMapper.FormatInspectionDate | backend/src/main/java/com/TransformerUI/TransformerUI/service/impl/CustomMapper.java:63-74 | null when the date or the time is null; otherwise the display rendering of "date time", or an "Invalid date/time format: date time" failure exactly when that text does not parse |
| InspectionMapper.ToEntity | backend/src/main/java/com/TransformerUI/TransformerUI/service/impl/CustomMapper.java:37-46 | a new entity with the request's branch and transformer number, the formatted inspection date, status "Pending", the builder's maintenance date, and no id or inspection number; it fails exactly when date formatting fails |
| InspectionMapper.ToEntityConforms | backend/src/main/java/com/TransformerUI/TransformerUI/service/impl/CustomMapper.java:40-45 | a new entity holds only the entity's declared fields, each of its declared type |
| InspectionMapper.UpdateFieldwise | backend/src/main/java/com/TransformerUI/TransformerUI/service/impl/CustomMapper.java:48-61 | an update changes branch and transformer number only to the request's non-null values, the inspection date only when both date and time are given, and leaves every other field, the engineer's fields included, untouched |
| InspectionMapper.UpdateFails | backend/src/main/java/com/TransformerUI/TransformerUI/service/impl/CustomMapper.java:57-60 | the update fails exactly when both date and time are given and their combination does not parse |
| InspectionMapper.UpdateIdempotent | backend/src/main/java/com/TransformerUI/TransformerUI/service/impl/CustomMapper.java:48-61 | applying the same successful update twice gives the same entity as applying it once |
| InspectionMapper.UpdateConforms | backend/src/main/java/com/TransformerUI/TransformerUI/service/impl/CustomMapper.java:48-61 | the update keeps an entity's fields of their declared types |
| InspectionMapper.UpdateEntity | backend/src/main/java/com/TransformerUI/TransformerUI/service/impl/CustomMapper.java:48-61 | the assignments in source order leave the entity in the state `UpdatedInspection` describes, including the partial state when formatting fails after the first two assignments |
| InspectionMapper.Sequence.NextVal | backend/TransformerUI/src/main/java/com/TransformerUI/TransformerUI/service/impl/CustomMapper.java:32 | each call advances the sequence by one and returns the new value |
| InspectionMapper.ToEntityNumbered | backend/TransformerUI/src/main/java/com/TransformerUI/TransformerUI/service/impl/CustomMapper.java:28-41 | the older `toEntity` fails exactly when the current one does, without consuming a sequence number; otherwise it is the current mapping plus the inspection number "INSP-" and the next sequence value |
| InspectionMapper.NumberedDistinct | backend/TransformerUI/src/main/java/com/TransformerUI/TransformerUI/service/impl/CustomMapper.java:32 | distinct sequence values give distinct inspection numbers |
| InspectionService.ValidateInspectionData | backend/src/main/java/com/TransformerUI/TransformerUI/service/impl/InspectionDataServiceImpl.java:48-55 | validation passes exactly when branch, transformer number, inspection date and time are all non-null; otherwise bad-request "Mandatory Fields are Missing for Inspection" |
| InspectionService.ResponseIsEntity | backend/src/main/java/com/TransformerUI/TransformerUI/service/impl/InspectionDataServiceImpl.java:77 | mapping a stored inspection to the response loses no field and adds none |
| InspectionService.InspectionDataService.SaveInspectionData | backend/src/main/java/com/TransformerUI/TransformerUI/service/impl/InspectionDataServiceImpl.java:36-46 | a valid request whose date formats is stored as the new entity under the next id; a validation or formatting failure stores nothing and raises INSPECTION_NOT_CREATED |
| InspectionService.InspectionDataService.UpdateInspectionData | backend/src/main/java/com/TransformerUI/TransformerUI/service/impl/InspectionDataServiceImpl.java:58-70 | a stored id whose update formats replaces that record in place by the updated entity; a null id, an unknown id or a formatting failure all raise INSPECTION_NOT_UPDATED and change nothing |
| InspectionService.InspectionDataService.GetInspectionById | backend/src/main/java/com/TransformerUI/TransformerUI/service/impl/InspectionDataServiceImpl.java:73-83 | a stored id answers success with the whole stored inspection; a null or unknown id raises INSPECTION_NOT_CONNECTED |
| InspectionService.InspectionDataService.DeleteInspectionById | backend/src/main/java/com/TransformerUI/TransformerUI/service/impl/InspectionDataServiceImpl.java:86-96 | a stored id removes exactly that inspection; a null or unknown id raises INSPECTION_NOT_DELETED and removes nothing |
| InspectionService.InspectionDataService.FilterInspectionData | backend/src/main/java/com/TransformerUI/TransformerUI/service/impl/InspectionDataServiceImpl.java:99-130 | the listing either succeeds with "2000" or is the internal-server-error reply |
| PythonYolo.ResolveInterpreter | backend/src/main/java/com/TransformerUI/TransformerUI/service/impl/PythonYOLO.java:24-28 | the interpreter is the `python.exec` property when non-blank, else the `PYTHON_EXEC` variable when non-blank, else "python" |
| PythonYolo.ResolveScript | backend/src/main/java/com/TransformerUI/TransformerUI/service/impl/PythonYOLO.java:31-40 | the script is `<cwd>/python/anomaly_detection.py` when it exists, else `<cwd>/backend/python/anomaly_detection.py` when that exists, else the relative `python/anomaly_detection.py` unchecked |
| PythonYolo.ReadAll | backend/src/main/java/com/TransformerUI/TransformerUI/service/impl/PythonYOLO.java:49-61 | the read loop leaves every line followed by a newline in the buffer, in order |
| PythonYolo.ErrorText | backend/src/main/java/com/TransformerUI/TransformerUI/service/impl/PythonYOLO.java:66 | the error text is stderr when non-empty, else "Python script exited with code N" |
| PythonYolo.FailureMessage | backend/src/main/java/com/TransformerUI/TransformerUI/service/impl/PythonYOLO.java:68-76 | a failed run's message starts with "PY_ERR;FILE:" |
| PythonYolo.JsonStart | backend/src/main/java/com/TransformerUI/TransformerUI/service/impl/PythonYOLO.java:86-92 | the JSON payload starts at the first bracket, `[` or `{`, whichever comes first; there is none exactly when neither occurs |
| PythonYolo.SelectJson | backend/src/main/java/com/TransformerUI/TransformerUI/service/impl/PythonYOLO.java:82-92 | the payload is the trimmed output from its first bracket on, starting with that bracket, or the whole trimmed output when it has none |
| PythonYolo.SingleCharIndex | backend/src/main/java/com/TransformerUI/TransformerUI/service/impl/PythonYOLO.java:86-87 | `indexOf` of a one-character string is -1 exactly when the character is absent, and otherwise the position of its first occurrence |
| PythonYolo.Decode | backend/src/main/java/com/TransformerUI/TransformerUI/service/impl/PythonYOLO.java:96-110 | an object with an "anomalies" member decodes to that list, an object without one to no anomalies, and an object that does not parse to its error; a list decodes as the list reader reads it; text starting with neither `{` nor `[` decodes to no anomalies |
| PythonYolo.SuccessOutcome | backend/src/main/java/com/TransformerUI/TransformerUI/service/impl/PythonYOLO.java:82-124 | after a clean exit the anomalies are those decoded from the selected JSON, and none when decoding fails |
| PythonYolo.ArrayOutputDecoded | backend/src/main/java/com/TransformerUI/TransformerUI/service/impl/PythonYOLO.java:82-107 | output that is exactly a JSON list, with no surrounding white space, gives that list as read, or no anomalies when it does not parse |
| PythonYolo.ParseFailure | backend/src/main/java/com/TransformerUI/TransformerUI/service/impl/PythonYOLO.java:111-124 | the parse-failure handler yields an empty list exactly when preserving the image fails, and PY_PARSE_ERR otherwise |
| PythonYolo.NoBracketDecodesEmpty | backend/src/main/java/com/TransformerUI/TransformerUI/service/impl/PythonYOLO.java:108-110 | text that is empty or does not start with a bracket decodes to no anomalies |
| PythonYolo.NoBracketsNoAnomalies | backend/src/main/java/com/TransformerUI/TransformerUI/service/impl/PythonYOLO.java:82-110 | output with neither `[` nor `{` gives no anomalies rather than an error |
| PythonYolo.Disk.Write | backend/src/main/java/com/TransformerUI/TransformerUI/service/impl/PythonYOLO.java:20-21 | writing a file adds exactly that path |
| PythonYolo.Disk.Delete | backend/src/main/java/com/TransformerUI/TransformerUI/service/impl/PythonYOLO.java:80 | deleting a file removes exactly that path |
| PythonYolo.Disk.Copy | backend/src/main/java/com/TransformerUI/TransformerUI/service/impl/PythonYOLO.java:72 | a copy succeeds exactly when the source exists and the target may be written, and then adds exactly the target |
| PythonYolo.RunOutcome | backend/src/main/java/com/TransformerUI/TransformerUI/service/impl/PythonYOLO.java:18-131 | a process that cannot start is a checked failure, a non-zero exit an unchecked "PY_ERR;FILE:…" failure, and only a zero exit yields anomalies |
| PythonYolo.RunYolo | backend/src/main/java/com/TransformerUI/TransformerUI/service/impl/PythonYOLO.java:18-131 | `runYOLO` returns the outcome above; the temporary image is left behind when the process cannot start or fails (plus its preserved copy when the copy succeeds) and is gone after a clean exit |
| PythonYolo.PreserveFailed | backend/src/main/java/com/TransformerUI/TransformerUI/service/impl/PythonYOLO.java:64-77 | a failed run's message names the preserved copy `failed_<millis>.jpg`, or UNKNOWN when copying fails, and the disk gains exactly that copy |
| PythonYolo.PreserveAfterParseFailure | backend/src/main/java/com/TransformerUI/TransformerUI/service/impl/PythonYOLO.java:111-124 | since the temporary image is already deleted when a parse fails, the copy fails, the handler returns an empty list and the disk is unchanged |
| PythonYolo.InterpretOutput | backend/src/main/java/com/TransformerUI/TransformerUI/service/impl/PythonYOLO.java:79-129 | after a clean exit the temporary image is deleted and the anomalies are those decoded from the selected JSON, or none when decoding fails |
| ImageMapper.NewImage | backend/src/main/java/com/TransformerUI/TransformerUI/service/impl/CustomMapper.java:76-104 | building an image fails exactly for a thermal upload whose detection or encoding fails (an unchecked detector failure keeps its own message, anything else becomes "Failed to process image with YOLO"); otherwise the entity carries the request's type, numbers, weather and bytes, the encoded anomalies for a thermal image or "" for other types, uploader "System", the upload time and no id |
| ImageMapper.ToEntity | backend/src/main/java/com/TransformerUI/TransformerUI/service/impl/CustomMapper.java:76-104 | `toEntity` runs the detector only on thermal uploads, leaving the disk alone otherwise, and returns the image built from its outcome |
| ImageMapper.Stored | backend/src/main/java/com/TransformerUI/TransformerUI/entity/ImageDataEntity.java:41 | the stored bytes are present exactly when the image field holds bytes |
| ImageMapper.UpdateImageFieldwise | backend/src/main/java/com/TransformerUI/TransformerUI/service/impl/CustomMapper.java:107-124 | an image update replaces type, transformer number and inspection number only by non-null values and the bytes only by a non-empty photo; the id, weather, uploader, time and detection are kept |
| ImageMapper.UpdateKeepsOthers | backend/src/main/java/com/TransformerUI/TransformerUI/service/impl/CustomMapper.java:107-124 | every key other than type, transformer number, inspection number and image is present after an update exactly when it was before, with the same value |
| ImageMapper.UpdateSetsGiven | backend/src/main/java/com/TransformerUI/TransformerUI/service/impl/CustomMapper.java:107-124 | type, transformer number and inspection number take the request's value when it is given, and the stored bytes the photo when it is non-empty; otherwise they keep the old value |
| ImageMapper.UpdateImageIdempotent | backend/src/main/java/com/TransformerUI/TransformerUI/service/impl/CustomMapper.java:107-124 | applying the same image update twice is the same as applying it once |
| ImageMapper.ToResponse | backend/src/main/java/com/TransformerUI/TransformerUI/service/impl/CustomMapper.java:126-159 | null maps to null; the response carries the entity's id exactly when it has one, copies the numbers, type, weather and time, carries Base64 of the bytes exactly when there are bytes, and carries anomalies exactly when the detection text is non-empty and parses, as read from it |
| ImageMapper.StoredDetectionShown | backend/src/main/java/com/TransformerUI/TransformerUI/service/impl/CustomMapper.java:81-98 | the anomalies stored for a thermal upload come back in its response when reading the written JSON gives back the list |
| ImageMapper.OtherTypesShowNoAnomalies | backend/src/main/java/com/TransformerUI/TransformerUI/service/impl/CustomMapper.java:88-90 | any other image type is built without running the detector, stores an empty detection text and so shows no anomalies; a non-empty photo is shown |
| ImageService.FindUnique | backend/src/main/java/com/TransformerUI/TransformerUI/service/impl/ImageDataServiceImpl.java:33-38 | a single-result finder reports no match exactly when no image satisfies the key, the one match when there is exactly one, and a failure exactly when two or more match |
| ImageService.ValidateImageRequest | backend/src/main/java/com/TransformerUI/TransformerUI/service/impl/ImageDataServiceImpl.java:51-59 | validation passes exactly when transformer number, inspection number and type are non-null and the photo is non-empty; otherwise bad-request "Mandatory fields are missing for Image" |
| ImageService.UploadLeavesOneImage | backend/src/main/java/com/TransformerUI/TransformerUI/service/impl/ImageDataServiceImpl.java:33-42 | after an upload replaced the previous image under its key and inserted the new one, the new image is the only one under that key |
| ImageService.GetImage | backend/src/main/java/com/TransformerUI/TransformerUI/service/impl/ImageDataServiceImpl.java:63-87 | no match is "Image not found for Transformer: …, Inspection: …" with no response code, two or more matches IMAGE_NOT_CONNECTED, and one match the mapped response of an image with that transformer and type (and inspection, unless the type is "Baseline") |
| ImageService.BaselineIgnoresInspection | backend/src/main/java/com/TransformerUI/TransformerUI/service/impl/ImageDataServiceImpl.java:66-67 | a baseline image is found whatever inspection number is asked for |
| ImageService.DetectionReply | backend/src/main/java/com/TransformerUI/TransformerUI/service/impl/ImageDataServiceImpl.java:140-192 | a checked detector failure is IMAGE_NOT_DETECTED; an unchecked one a "2007" reply with no anomalies and a description naming the preserved image when the message has one; a run a "2000" reply with its anomalies, described "No errors" exactly when there are none |
| ImageService.DetectResult | backend/src/main/java/com/TransformerUI/TransformerUI/service/impl/ImageDataServiceImpl.java:127-193 | `detectAnomalies` on a table only replies with a detection when exactly one thermal image is stored under the key |
| ImageService.PreservedPathRoundTrip | backend/src/main/java/com/TransformerUI/TransformerUI/service/impl/ImageDataServiceImpl.java:159-163 | the path the service reads back from a detector failure message is the path the detector wrote there, when it has no ';' |
| ImageService.UnknownWhenNotPreserved | backend/src/main/java/com/TransformerUI/TransformerUI/service/impl/ImageDataServiceImpl.java:159-163 | when preserving failed, the path read back is "UNKNOWN" |
| ImageService.FailedRunNamesPreservedImage | backend/src/main/java/com/TransformerUI/TransformerUI/service/impl/ImageDataServiceImpl.java:143-163 | a detector run that exits with an error is answered with "2007", no anomalies and "Detection failed; preserved image at: " followed by the preserved file, or UNKNOWN when preserving failed |
| ImageService.ImageDataService.SaveImage | backend/src/main/java/com/TransformerUI/TransformerUI/service/impl/ImageDataServiceImpl.java:30-49 | an invalid request or several images under the key change nothing; otherwise the old image under the key is deleted and the new one, when it can be built, is inserted under the next id; every failure is IMAGE_NOT_CREATED, and the deletion stays when building fails |
| ImageService.ImageDataService.UpdateImage | backend/src/main/java/com/TransformerUI/TransformerUI/service/impl/ImageDataServiceImpl.java:90-107 | the one image under the key is updated in place; no match raises "Image not found …" with no code and several IMAGE_NOT_UPDATED, both changing nothing |
| ImageService.ImageDataService.DeleteImage | backend/src/main/java/com/TransformerUI/TransformerUI/service/impl/ImageDataServiceImpl.java:110-124 | every image of the transformer and inspection goes, whatever its type, and no other; with none, "Image not found …" and nothing changes |
| ImageService.ImageDataService.DetectAnomalies | backend/src/main/java/com/TransformerUI/TransformerUI/service/impl/ImageDataServiceImpl.java:127-193 | the reply is that of the table before the call: a missing thermal image is NOT_FOUND "Thermal image not found …", several IMAGE_NOT_DETECTED and empty bytes "Stored image bytes are empty …", none changing the table; otherwise the reply is the detection reply and the encoded anomalies (an empty list after an unchecked failure) are written back into that image, or the table is unchanged when they cannot be |
| ImageService.ImageDataService.DetectStored | backend/src/main/java/com/TransformerUI/TransformerUI/service/impl/ImageDataServiceImpl.java:139-185 | the detector run and best-effort write-back for the found image, as above |
| ImageController.DetectionNote | backend/src/main/java/com/TransformerUI/TransformerUI/controller/ImageDataController.java:32-45 | a code is always noted: the detection reply's code and description, or "2007" and "Detection attempt failed: " followed by the failure's message |
| ImageController.Combined | backend/src/main/java/com/TransformerUI/TransformerUI/controller/ImageDataController.java:50-54 | a null or blank detection message leaves the description; otherwise the description becomes the old one and " \| " (when there was one), then "Detection: (code) " and the message, which it ends with |
| ImageController.Annotated | backend/src/main/java/com/TransformerUI/TransformerUI/controller/ImageDataController.java:49-54 | folding in the detection note changes only the description: the code, data and page stay |
| ImageController.StatusIgnoresDetection | backend/src/main/java/com/TransformerUI/TransformerUI/controller/ImageDataController.java:47-56 | the HTTP status comes from the read-back code alone, whatever the detection said |
| ImageController.FailedDetectionNote | backend/src/main/java/com/TransformerUI/TransformerUI/controller/ImageDataController.java:41-53 | a detection that throws is reported as "Detection: (2007) Detection attempt failed: <message>" after the old description |
| ImageController.ImageDataController.UploadImage | backend/src/main/java/com/TransformerUI/TransformerUI/controller/ImageDataController.java:25-57 | an invalid upload raises IMAGE_NOT_CREATED and stores nothing; a failed detection does not end the request; every failure is the save's or the read-back's; a reply is 200 with code "2000", follows a valid upload with at most one image under its key that could be built, and is the read-back image annotated with what `detectAnomalies` replies on the table the save left |
| ImageController.ImageDataController.DetectAndReadBack | backend/src/main/java/com/TransformerUI/TransformerUI/controller/ImageDataController.java:32-56 | after a successful save, the reply is the read-back image annotated with what `detectAnomalies` replies on the saved table, or the read-back's own failure |
| ImageController.ImageDataController.AttemptDetection | backend/src/main/java/com/TransformerUI/TransformerUI/controller/ImageDataController.java:34-46 | the detection attempt after a save gives exactly what `detectAnomalies` replies on the table as it stood |
| ImageController.ImageDataController.AnnotateBody | backend/src/main/java/com/TransformerUI/TransformerUI/controller/ImageDataController.java:32-54 | the code and message kept from the detection, imperatively, give exactly the annotated read-back response |
| MaintenanceService.Applied | backend/src/main/java/com/TransformerUI/TransformerUI/service/impl/MaintenanceRecordServiceImpl.java:129-159 | after `mapRequestToEntity` a record holds the fields it had or the request gives; a field the request gives takes the request's value, every other field keeps its own |
| MaintenanceService.AppliedIdempotent | backend/src/main/java/com/TransformerUI/TransformerUI/service/impl/MaintenanceRecordServiceImpl.java:129-159 | applying the same request twice leaves the same fields as applying it once |
| MaintenanceService.MaintenanceRecordEntity.constructor | backend/src/main/java/com/TransformerUI/TransformerUI/entity/MaintenanceRecordEntity.java:74-76 | a new entity has no id, no inspection, no fields, the given creation time and no update time |
| MaintenanceService.MaintenanceRecordEntity.Loaded | backend/src/main/java/com/TransformerUI/TransformerUI/service/impl/MaintenanceRecordServiceImpl.java:61-63 | an entity loaded from a stored record snapshots back to that record |
| MaintenanceService.MaintenanceRecordEntity.Snapshot | backend/src/main/java/com/TransformerUI/TransformerUI/entity/MaintenanceRecordEntity.java:74-76 | an entity can be stored exactly when it has an id and an inspection, and is stored with all its fields |
| MaintenanceService.MaintenanceRecordEntity.MapRequestToEntity | backend/src/main/java/com/TransformerUI/TransformerUI/service/impl/MaintenanceRecordServiceImpl.java:129-159 | the 29 null-skipping setters, run in declaration order, leave the entity's fields equal to its old fields with the request's non-null values laid over them; id, inspection and timestamps are untouched |
| MaintenanceService.Find | backend/src/main/java/com/TransformerUI/TransformerUI/repository/MaintenanceRecordRepository.java:11 | `findById` returns a stored record with that id, and nothing exactly when no record carries it |
| MaintenanceService.KeptOrdered | backend/src/main/java/com/TransformerUI/TransformerUI/repository/MaintenanceRecordRepository.java:12 | filtering the table keeps its ids ascending and below the next sequence value |
| MaintenanceService.IndexOf | backend/src/main/java/com/TransformerUI/TransformerUI/repository/MaintenanceRecordRepository.java:11 | the position of the record with an id, consistent with `findById`; -1 exactly when none |
| MaintenanceService.MaintenanceRecordRepository.constructor | backend/src/main/java/com/TransformerUI/TransformerUI/repository/MaintenanceRecordRepository.java:11 | the repository starts empty, with the sequence at 1 |
| MaintenanceService.MaintenanceRecordRepository.Save | backend/src/main/java/com/TransformerUI/TransformerUI/service/impl/MaintenanceRecordServiceImpl.java:48 | saving an entity without an id appends it under the next sequence value, which the entity then carries; saving one with a stored id replaces that record in place; ids stay ascending |
| MaintenanceService.MaintenanceRecordRepository.Delete | backend/src/main/java/com/TransformerUI/TransformerUI/service/impl/MaintenanceRecordServiceImpl.java:113-127 | deleting removes every record with that id and keeps the rest in order |
| MaintenanceService.ToResponse | backend/src/main/java/com/TransformerUI/TransformerUI/service/impl/MaintenanceRecordServiceImpl.java:161-197 | the response carries the record's id, its inspection's id, every field and both timestamps |
| MaintenanceService.ToResponseInjective | backend/src/main/java/com/TransformerUI/TransformerUI/service/impl/MaintenanceRecordServiceImpl.java:161-197 | two records with the same response are the same record: the mapping loses nothing |
| MaintenanceService.ToResponses | backend/src/main/java/com/TransformerUI/TransformerUI/service/impl/MaintenanceRecordServiceImpl.java:99-101 | the listing maps each record to its response, one for one and in order |
| MaintenanceService.NewRecord | backend/src/main/java/com/TransformerUI/TransformerUI/service/impl/MaintenanceRecordServiceImpl.java:44-48 | a saved record carries the new id, the request's inspection, exactly the request's non-null fields, the creation time and no update time |
| MaintenanceService.UpdatedRecord | backend/src/main/java/com/TransformerUI/TransformerUI/service/impl/MaintenanceRecordServiceImpl.java:65-68 | an updated record keeps its id, inspection and creation time, takes the update time, takes each non-null field of the request and keeps every other field |
| MaintenanceService.SavedRecordShown | backend/src/main/java/com/TransformerUI/TransformerUI/service/impl/MaintenanceRecordServiceImpl.java:44-48 | the response for a freshly saved record shows exactly what was sent, under its new id, with no update time |
| MaintenanceService.UpdateTwice | backend/src/main/java/com/TransformerUI/TransformerUI/service/impl/MaintenanceRecordServiceImpl.java:59-76 | two updates with the same request leave the same record as one, with the later time |
| MaintenanceService.MaintenanceRecordServiceImpl.constructor | backend/src/main/java/com/TransformerUI/TransformerUI/service/impl/MaintenanceRecordServiceImpl.java:30-35 | the service is wired to the record repository and the inspection table |
| MaintenanceService.MaintenanceRecordServiceImpl.SaveMaintenanceRecord | backend/src/main/java/com/TransformerUI/TransformerUI/service/impl/MaintenanceRecordServiceImpl.java:37-56 | the save succeeds exactly when the request names a stored inspection, and then appends the new record under the next id; otherwise it fails with INSPECTION_NOT_CREATED "Failed to save maintenance record" and stores nothing |
| MaintenanceService.MaintenanceRecordServiceImpl.UpdateMaintenanceRecord | backend/src/main/java/com/TransformerUI/TransformerUI/service/impl/MaintenanceRecordServiceImpl.java:59-76 | the update succeeds exactly when the request's id is stored, and then replaces that record in place by the updated one; a null or unknown id fails with INSPECTION_NOT_UPDATED "Failed to update maintenance record" and changes nothing |
| MaintenanceService.MaintenanceRecordServiceImpl.GetMaintenanceRecordById | backend/src/main/java/com/TransformerUI/TransformerUI/service/impl/MaintenanceRecordServiceImpl.java:79-93 | the read succeeds exactly when the id is stored, with that record's response; otherwise INSPECTION_NOT_CONNECTED "Failed to fetch maintenance record" |
| MaintenanceService.MaintenanceRecordServiceImpl.GetMaintenanceRecordsByInspectionId | backend/src/main/java/com/TransformerUI/TransformerUI/service/impl/MaintenanceRecordServiceImpl.java:96-110 | the listing always succeeds, with the responses of the inspection's records in table order |
| MaintenanceService.MaintenanceRecordServiceImpl.DeleteMaintenanceRecord | backend/src/main/java/com/TransformerUI/TransformerUI/service/impl/MaintenanceRecordServiceImpl.java:113-127 | the delete succeeds exactly when the id is stored, and then removes exactly the records with that id; otherwise INSPECTION_NOT_DELETED "Failed to delete maintenance record" and nothing is removed |
| MaintenanceService.ListingOfInspection | backend/src/main/java/com/TransformerUI/TransformerUI/service/impl/MaintenanceRecordServiceImpl.java:96-110 | a response is in an inspection's listing exactly when some stored record of that inspection maps to it |
| AnnotationService.TextOf | backend/src/main/java/com/TransformerUI/TransformerUI/service/impl/AnnotationServiceImpl.java:43-44 | `toString` of a request value fails exactly on null, naming the key; a text value is returned as it is |
| AnnotationService.OptionalJson | backend/src/main/java/com/TransformerUI/TransformerUI/service/impl/AnnotationServiceImpl.java:40-42 | the polygon is written only when its key is present with a non-null value, and then fails exactly when writing the JSON fails |
| AnnotationService.Confidence | backend/src/main/java/com/TransformerUI/TransformerUI/service/impl/AnnotationServiceImpl.java:46-48 | an absent or null confidence is none; a present one is read as text, fails exactly when that text does not parse as a double, and is otherwise the parsed value |
| AnnotationService.OptionalText | backend/src/main/java/com/TransformerUI/TransformerUI/service/impl/AnnotationServiceImpl.java:53-58 | comment and user id are set exactly when their keys are present; a present null fails |
| AnnotationService.Parse | backend/src/main/java/com/TransformerUI/TransformerUI/service/impl/AnnotationServiceImpl.java:39-58 | the request's values, read in the order they are assigned: a null class name fails; on success the bounding box is the written JSON of the (possibly null) value, the polygon is the written JSON and the confidence the parsed value exactly when present and non-null, shape, class name, type, status, comment and user id are the text of their values, comment and user id exactly when their keys are present, and shape, type and status take "bbox", "MANUAL_ADDED" and "pending" only when their keys are missing |
| AnnotationService.Named | backend/src/main/java/com/TransformerUI/TransformerUI/service/impl/AnnotationServiceImpl.java:35-51 | a new annotation always holds exactly the transformer and inspection numbers, bounding box, shape, class name, type and status |
| AnnotationService.WithOptionals | backend/src/main/java/com/TransformerUI/TransformerUI/service/impl/AnnotationServiceImpl.java:40-58 | polygon, confidence, comment and user id are added exactly when given; every other field is untouched |
| AnnotationService.EntityFields | backend/src/main/java/com/TransformerUI/TransformerUI/service/impl/AnnotationServiceImpl.java:34-58 | every parsed value lands in its own field of the new entity, the optional ones exactly when given, and no id or timestamps are set before saving |
| AnnotationService.UpdateField | backend/src/main/java/com/TransformerUI/TransformerUI/service/impl/AnnotationServiceImpl.java:96-119 | one guarded assignment of `updateAnnotation`: a missing key leaves the annotation as it is and no other field ever changes; a present bounding box stores its written JSON, failing when it cannot be written; a present non-null polygon stores its JSON and a present non-null confidence its parsed value, failing exactly when writing or parsing fails; any other present key stores the text of its value and fails exactly on null |
| AnnotationService.UpdateFrom | backend/src/main/java/com/TransformerUI/TransformerUI/service/impl/AnnotationServiceImpl.java:95-119 | the guarded assignments in order leave every field whose key the request lacks, or that is not an updated key, as it was, even when one of them fails |
| AnnotationService.UpdateFieldLocal | backend/src/main/java/com/TransformerUI/TransformerUI/service/impl/AnnotationServiceImpl.java:96-119 | whether an assignment fails, and what it stores under its key, depend only on the request and on what the key held before |
| AnnotationService.UpdateFieldAgain | backend/src/main/java/com/TransformerUI/TransformerUI/service/impl/AnnotationServiceImpl.java:96-119 | repeating an assignment that succeeded succeeds and leaves its key as the first left it |
| AnnotationService.UpdateFromApplies | backend/src/main/java/com/TransformerUI/TransformerUI/service/impl/AnnotationServiceImpl.java:95-119 | when no assignment fails, every updated key holds what its own assignment stores on the original annotation |
| AnnotationService.UpdateFromStops | backend/src/main/java/com/TransformerUI/TransformerUI/service/impl/AnnotationServiceImpl.java:95-119 | when an assignment fails, the update stopped at some key: the annotation left is the complete update by the keys before it, and that key's assignment fails with the reported problem |
| AnnotationService.UpdateKeepsIdentity | backend/src/main/java/com/TransformerUI/TransformerUI/service/impl/AnnotationServiceImpl.java:95-119 | an update never changes a field outside its keys or missing from the request, so id, transformer and inspection numbers, user id and creation time stay |
| AnnotationService.EmptyUpdate | backend/src/main/java/com/TransformerUI/TransformerUI/service/impl/AnnotationServiceImpl.java:95-119 | a request with none of the update keys changes nothing and cannot fail |
| AnnotationService.Flushed | backend/src/main/java/com/TransformerUI/TransformerUI/entity/AnnotationEntity.java:67-70 | at commit a changed annotation gets the update time and an unchanged one is stored as it was |
| AnnotationService.FlushedKeepsId | backend/src/main/java/com/TransformerUI/TransformerUI/service/impl/AnnotationServiceImpl.java:121 | the annotation stored after an update keeps its id |
| AnnotationService.ReadBack | backend/src/main/java/com/TransformerUI/TransformerUI/service/impl/AnnotationServiceImpl.java:155-157 | reading a stored JSON text back succeeds exactly when the text is non-null and parses, and gives the parsed value |
| AnnotationService.ToView | backend/src/main/java/com/TransformerUI/TransformerUI/service/impl/AnnotationServiceImpl.java:150-169 | `entityToMap` succeeds exactly when the bounding box and any stored polygon read back; the map then carries the id exactly when the annotation has one, and every field of the annotation, with the read-back bounding box and the polygon key only when a polygon is stored |
| AnnotationService.Views | backend/src/main/java/com/TransformerUI/TransformerUI/service/impl/AnnotationServiceImpl.java:77-79 | the listing maps each annotation to its view in order, and fails exactly when some annotation cannot be read back |
| AnnotationService.SavedShapesRoundTrip | backend/src/main/java/com/TransformerUI/TransformerUI/service/impl/AnnotationServiceImpl.java:39-42 | a saved bounding box and polygon come back in the response as they were sent, whenever reading the written JSON gives the value back |
| AnnotationService.Stamped | backend/src/main/java/com/TransformerUI/TransformerUI/entity/AnnotationEntity.java:61-65 | a saved annotation carries its new id and the saving time as both creation and update time, with every other field unchanged |
| AnnotationService.AnnotationServiceImpl.constructor | backend/src/main/java/com/TransformerUI/TransformerUI/service/impl/AnnotationServiceImpl.java:25-28 | the service is wired to the annotation table |
| AnnotationService.AnnotationServiceImpl.SaveAnnotation | backend/src/main/java/com/TransformerUI/TransformerUI/service/impl/AnnotationServiceImpl.java:30-68 | a request that cannot be built fails with BAD_REQUEST "Failed to save annotation: " and the cause, storing nothing; otherwise the stamped annotation is appended under the next id and the reply is its view, or BAD_REQUEST with the cause when it cannot be read back (it stays stored) |
| AnnotationService.AnnotationServiceImpl.GetAnnotations | backend/src/main/java/com/TransformerUI/TransformerUI/service/impl/AnnotationServiceImpl.java:70-86 | the views of the pair's annotations in table order, or NOT_FOUND "Failed to retrieve annotations" exactly when one cannot be read back |
| AnnotationService.AnnotationServiceImpl.UpdateAnnotation | backend/src/main/java/com/TransformerUI/TransformerUI/service/impl/AnnotationServiceImpl.java:88-131 | an unknown id fails with NOT_FOUND "Annotation not found" and changes nothing; otherwise the assignments made before any failure are stored at commit, with the update time when anything changed, and the reply is the view of the updated annotation or BAD_REQUEST "Failed to update annotation: " with the cause |
| AnnotationService.AnnotationServiceImpl.DeleteAnnotation | backend/src/main/java/com/TransformerUI/TransformerUI/service/impl/AnnotationServiceImpl.java:133-148 | the delete succeeds exactly when the id is stored and then removes exactly that annotation; otherwise NOT_FOUND "Annotation not found" and nothing is removed |
| LoginService.ValidateLoginData | backend/src/main/java/com/TransformerUI/TransformerUI/service/impl/LoginServiceImpl.java:48-53 | a login request passes exactly when both username and password are non-null; otherwise BAD_REQUEST "Mandatory Fields are Missing" |
| LoginService.Credential | backend/src/main/java/com/TransformerUI/TransformerUI/service/impl/LoginServiceImpl.java:34-35 | a valid request is mapped onto a new login with its username and password and no id |
| LoginService.Verified | backend/src/main/java/com/TransformerUI/TransformerUI/service/impl/LoginServiceImpl.java:55-76 | a null field fails with the validation failure; otherwise verification succeeds exactly when one stored login has that username and password and maps onto a response, which is returned; every other case is BAD_REQUEST "Invalid username or password" |
| LoginService.UnknownPairRejected | backend/src/main/java/com/TransformerUI/TransformerUI/service/impl/LoginServiceImpl.java:60-63 | a pair that matches no stored login is rejected as invalid |
| LoginService.SavedPairVerifies | backend/src/main/java/com/TransformerUI/TransformerUI/service/impl/LoginServiceImpl.java:29-76 | a pair saved into a table where it was not yet stored is accepted afterwards, when the response mapping succeeds |
| LoginService.LoginServiceImpl.constructor | backend/src/main/java/com/TransformerUI/TransformerUI/service/impl/LoginServiceImpl.java:25-27 | the service is wired to the login table |
| LoginService.LoginServiceImpl.SaveLoginData | backend/src/main/java/com/TransformerUI/TransformerUI/service/impl/LoginServiceImpl.java:29-46 | saving succeeds exactly when both fields are non-null and the database accepts the row, and then appends the login under the next id and advances the id sequence; every failure, the validation's included, is USER_NOT_CREATED and stores nothing, with the sequence unchanged |
| LoginService.LoginServiceImpl.VerifyCredentials | backend/src/main/java/com/TransformerUI/TransformerUI/service/impl/LoginServiceImpl.java:55-76 | the method returns exactly what `Verified` describes for the stored logins and changes nothing |
| AddInspectionModal.FirstColon | frontend/src/components/AddInspectionModal.tsx:20 | the position of the first colon in the time, or its length when there is none |
| AddInspectionModal.Split | frontend/src/components/AddInspectionModal.tsx:20 | `split(":")` gives at least one piece, none containing a colon |
| AddInspectionModal.JoinSplit | frontend/src/components/AddInspectionModal.tsx:20 | joining the pieces of `split(":")` with colons gives back the time: splitting loses nothing |
| AddInspectionModal.SplitNoColon | frontend/src/components/AddInspectionModal.tsx:20 | a text without a colon splits into itself alone |
| AddInspectionModal.LeadingDigits | frontend/src/components/AddInspectionModal.tsx:21 | the digits the hour text starts with, the longest such prefix |
| AddInspectionModal.ParseInt | frontend/src/components/AddInspectionModal.tsx:21 | `parseInt(hours, 10)` is NaN exactly when the hour text is empty or does not start with a digit |
| AddInspectionModal.Period | frontend/src/components/AddInspectionModal.tsx:22 | the period is "PM" exactly for an hour of 12 or more; a NaN hour gives "AM" |
| AddInspectionModal.Hour12 | frontend/src/components/AddInspectionModal.tsx:23 | `hour % 12 \|\| 12` lies between 1 and 12 and is the hour modulo 12 unless that is 0 or the hour is NaN |
| AddInspectionModal.Hour12RoundTrip | frontend/src/components/AddInspectionModal.tsx:22-23 | for every hour of the day, the 12-hour hour and the period determine the hour: the conversion loses nothing |
| AddInspectionModal.SplitClock | frontend/src/components/AddInspectionModal.tsx:20 | "HH:MM" with colon-free parts splits into the hour and the minutes |
| AddInspectionModal.ParseTwoDigits | frontend/src/components/AddInspectionModal.tsx:21 | two digits parse to their decimal value |
| AddInspectionModal.FormatTime | frontend/src/components/AddInspectionModal.tsx:20-24 | for any time text, the sent time starts with an hour between 1 and 12 and a colon, and ends with " AM" or " PM"; `FormatWellFormed` pins it down for a well-formed "HH:MM" |
| AddInspectionModal.FormatWellFormed | frontend/src/components/AddInspectionModal.tsx:20-24 | a well-formed "HH:MM" is sent as the hour's 12-hour reading, the minutes as typed and the period |
| AddInspectionModal.MidnightIsTwelveAM | frontend/src/components/AddInspectionModal.tsx:22-24 | hour 0 is sent as 12 AM |
| AddInspectionModal.NoonIsTwelvePM | frontend/src/components/AddInspectionModal.tsx:22-24 | hour 12 is sent as 12 PM |
| AddInspectionModal.MorningKeepsHour | frontend/src/components/AddInspectionModal.tsx:22-24 | hours 1 to 11 keep their number, without a leading zero, and are AM |
| AddInspectionModal.AfternoonLosesTwelve | frontend/src/components/AddInspectionModal.tsx:22-24 | hours 13 to 23 lose twelve and are PM |
| AddInspectionModal.Submit | frontend/src/components/AddInspectionModal.tsx:10-31 | nothing is sent exactly when the branch, the date or the time is empty or the date cannot be formatted; otherwise the payload holds the branch, the transformer, the formatted date and the converted time |
| AnomalyService.ImageId | frontend/src/services/anomalyService.ts:42 | the image id is the transformer number, an underscore and the inspection number, from which both can be read back |
| AnomalyService.Rounded | frontend/src/services/anomalyService.ts:59 | rounding succeeds exactly when every coordinate is defined, and then rounds each one in place; an undefined coordinate makes `toFixed` throw |
| AnomalyService.DeleteAnomaly | frontend/src/services/anomalyService.ts:31-74 | the call fails exactly when a remaining box has an undefined coordinate; otherwise a deletion log is written exactly for an AI-detected box, recording its box, class and confidence with action "deleted", the time and the user, and every remaining box is sent once, in order, rounded, manual exactly when it is not AI-detected, with its own rejecting user or else the current user exactly when manual, and with its confidence |
| AnomalyService.SentBox | frontend/src/services/anomalyService.ts:110 | the box sent for a box is the new coordinates or its own, and is fully defined when both of those are |
| AnomalyService.EditAnomaly | frontend/src/services/anomalyService.ts:79-136 | the call fails exactly when a box it sends (the new coordinates for the edited box, its own for the others) has an undefined coordinate; otherwise a modification log is written exactly for an AI-detected box, recording its detection and the new coordinates with its class unchanged; the boxes numbered like the edited one are sent with the new coordinates, as manual, by the current user and without confidence, and every other box is sent rounded, manual exactly when not AI-detected, with its rejecting user or the current user when manual, and with its confidence |
| AnomalyService.EditChangesOneEntry | frontend/src/services/anomalyService.ts:109-120 | on boxes made from a detection response, an edit goes through exactly when the new coordinates and every other box are defined, and then changes exactly the edited entry, leaving every other entry as a delete sends it |
| AnomalyService.AddAnomaly | frontend/src/services/anomalyService.ts:141-184 | the call fails exactly when the new box or an existing one has an undefined coordinate; otherwise an addition always logs the rounded box and the class with the time and the user, and the existing boxes are sent first, manual exactly when marked not AI-detected, with their rejecting user or the current user exactly when manual, followed by exactly one new manual entry without confidence |
| AnomalyService.UndefinedFlagAsymmetry | frontend/src/services/anomalyService.ts:58-179 | for boxes with defined coordinates, a box whose AI flag is undefined is sent as manual after a delete but not after an add |
| AnomalyService.LogsNameTheImage | frontend/src/services/anomalyService.ts:37-167 | every log names the transformer and inspection of the image, and the user recorded is never blank |
| InspectionHelpers.Or | frontend/src/services/anomalyService.ts:37 | `a \|\| b` on a text is the text when it is present and non-empty, and the fallback otherwise |
| InspectionHelpers.NormalizeWeather | frontend/src/utils/inspectionHelpers.ts:8-14 | the weather is normalised exactly when its trimmed, upper-cased text is SUNNY, CLOUDY or RAINY, and then is that text; anything else, a non-text or empty value included, gives null |
| InspectionHelpers.NormalizeWeatherIdempotent | frontend/src/utils/inspectionHelpers.ts:8-14 | a normalised weather normalises to itself |
| InspectionHelpers.WeatherFixed | frontend/src/utils/inspectionHelpers.ts:11 | each of the three weathers is accepted unchanged |
| InspectionHelpers.FirstFour | frontend/src/utils/inspectionHelpers.ts:28 | a box has exactly four coordinates, the first four of the array, undefined past its end |
| InspectionHelpers.MapAnomaliesToBoxes | frontend/src/utils/inspectionHelpers.ts:19-38 | one box per anomaly in order, numbered from 1; a missing box is drawn at the origin, a missing class is "Unknown", the colour is the class's or the default, the confidence is the first present of `confidence` and `conf` or 0, and a box is not AI-detected exactly when its anomaly is marked manual |
| InspectionHelpers.MappedIndicesDistinct | frontend/src/utils/inspectionHelpers.ts:30 | boxes made from one response are numbered apart, so a number names one box |
| InspectionHelpers.BoxesApproximatelyEqual | frontend/src/utils/inspectionHelpers.ts:45-51 | the early-exit scan answers true exactly when both boxes have at least four coordinates and none of the first four pairs is further apart than the tolerance |
| InspectionHelpers.ApproximatelyEqualSymmetric | frontend/src/utils/inspectionHelpers.ts:45-51 | the comparison does not depend on the order of the boxes |
| InspectionHelpers.ApproximatelyEqualReflexive | frontend/src/utils/inspectionHelpers.ts:45-51 | a box with four coordinates is approximately equal to itself for any non-negative tolerance |
| ExportFeedback.OrNull | frontend/src/utils/exportFeedback.ts:88-89 | `x \|\| null` is never undefined, and is the text exactly when the text is present and non-empty |
| ExportFeedback.FromFinal | frontend/src/utils/exportFeedback.ts:29-31 | every AI-detected final box contributes its prediction, every prediction comes from an AI-detected final box, and no more predictions than final boxes |
| ExportFeedback.FromFinalAppend | frontend/src/utils/exportFeedback.ts:29-31 | the predictions of two runs of boxes are those of the first followed by those of the second, so box order is kept |
| ExportFeedback.FromFinalSingle | frontend/src/utils/exportFeedback.ts:29-31 | one box contributes its prediction exactly when it is AI-detected |
| ExportFeedback.FromLogs | frontend/src/utils/exportFeedback.ts:33-39 | every log with an original detection contributes that detection, every detection comes from a log that records it, and no more than one per log |
| ExportFeedback.FromLogsAppend | frontend/src/utils/exportFeedback.ts:33-39 | the detections of two runs of logs are those of the first followed by those of the second, so log order is kept |
| ExportFeedback.FromLogsSingle | frontend/src/utils/exportFeedback.ts:33-39 | one log contributes its original detection, and only when it has one |
| ExportFeedback.FirstWithBox | frontend/src/utils/exportFeedback.ts:42-55 | the first prediction with a given box, none exactly when no prediction has that box |
| ExportFeedback.Unique | frontend/src/utils/exportFeedback.ts:42-55 | deduplication keeps the same set of boxes, keeps each box once, and keeps only candidates |
| ExportFeedback.UniqueKeepsFirst | frontend/src/utils/exportFeedback.ts:44-50 | each kept prediction is the first candidate with its box |
| ExportFeedback.UniquePrefix | frontend/src/utils/exportFeedback.ts:44 | the predictions kept from the final boxes come first, ahead of those from the logs |
| ExportFeedback.DedupByBox | frontend/src/utils/exportFeedback.ts:42-55 | the scan with a set of seen boxes keeps exactly the first candidate of each box, in order |
| ExportFeedback.Annotator | frontend/src/utils/exportFeedback.ts:61-63 | the annotator is whoever rejected the box, else the exporter, else the stored user, else "User" for a box the user added, and null exactly when none of these is set |
| ExportFeedback.FinalAnnotations | frontend/src/utils/exportFeedback.ts:57-64 | one annotation per final box in order, with its box and class, manual exactly when it is marked not AI-detected, and its annotator |
| ExportFeedback.ActionsOfLog | frontend/src/utils/exportFeedback.ts:70-110 | a log with an original detection gives a model detection by "AI", followed when the user changed it by a deletion or a modification of that box; otherwise a log with an addition gives one user addition; every action points to its log and has a defined actor and time |
| ExportFeedback.LogActions | frontend/src/utils/exportFeedback.ts:70-110 | every action from the logs is defined and points to one of the logs |
| ExportFeedback.LogActionsAppend | frontend/src/utils/exportFeedback.ts:70-110 | the actions of two runs of logs are the actions of the first followed by those of the second: each log's actions stand on their own |
| ExportFeedback.ActionsOfFinalBox | frontend/src/utils/exportFeedback.ts:112-146 | an AI-detected final box gives a model detection exactly when no log records it as an original detection; a box the user added gives a user addition exactly when no log records it as an addition; any other box gives nothing |
| ExportFeedback.FinalActions | frontend/src/utils/exportFeedback.ts:112-146 | the final boxes give at most one action each, all defined and with no log |
| ExportFeedback.ActionsOfRemovedBox | frontend/src/utils/exportFeedback.ts:148-166 | a removed box gives exactly one user deletion, with its remover, time, box and class and no log, exactly when no log records its deletion |
| ExportFeedback.RemovedActions | frontend/src/utils/exportFeedback.ts:148-166 | the removed boxes give at most one deletion each, all defined and with no log |
| ExportFeedback.LoggedRemovalsAddNothing | frontend/src/utils/exportFeedback.ts:148-166 | when every removed box has its deletion logged, the removed boxes add no action |
| ExportFeedback.Actions | frontend/src/utils/exportFeedback.ts:66-166 | the actions of the logs, then of the final boxes, then of the removed boxes, every one with its actor and time defined (`NormalizationChangesNothing` follows) |
| ExportFeedback.NormalizeAction | frontend/src/utils/exportFeedback.ts:168-172 | normalisation turns an undefined actor or time into null and changes nothing else |
| ExportFeedback.NormalizationChangesNothing | frontend/src/utils/exportFeedback.ts:168-172 | every action is built with a `\|\| null` fallback, so normalisation leaves every action as it is |
| ExportFeedback.CollectLogActions | frontend/src/utils/exportFeedback.ts:70-110 | the loop over the logs collects exactly the logs' actions, log by log |
| ExportFeedback.CollectFinalActions | frontend/src/utils/exportFeedback.ts:112-146 | the loop over the final boxes collects exactly their actions, box by box |
| ExportFeedback.CollectRemovedActions | frontend/src/utils/exportFeedback.ts:148-166 | the loop over the removed boxes collects exactly their deletions, box by box |
| ExportFeedback.NormalizeActions | frontend/src/utils/exportFeedback.ts:168-172 | the in-place pass leaves each action normalised and keeps their number and order |
| ExportFeedback.Find | frontend/src/utils/exportFeedback.ts:187-193 | `find` gives the first element that satisfies the test, and none exactly when no element does |
| ExportFeedback.RemovedDetail | frontend/src/utils/exportFeedback.ts:199-200 | who removed a box, or when, is its own non-empty record first, else the matching log's non-empty one, none exactly when neither is set, and never an empty text |
| ExportFeedback.RemovedAnomalies | frontend/src/utils/exportFeedback.ts:183-203 | one entry per removed box in order, with its box and class, source "AI" exactly for an AI-detected box, the first log that mentions its box (none exactly when no log does), and who removed it and when: its own record when set, else the modification that log records, none exactly when neither is set |
| ExportFeedback.BuildExportPayload | frontend/src/utils/exportFeedback.ts:15-206 | the payload names the image, carries the given transformer number, inspection number, export time and exporter, holds the deduplicated predictions of the final boxes and the logs, the final annotations, the logs unchanged, the removed anomalies and the actions from logs, final boxes and removed boxes in that order |
| ExportFeedback.ModelPredictionsCover | frontend/src/utils/exportFeedback.ts:26-55 | the predictions are distinct by box, cover every AI-detected final box and every logged original detection, and keep the final boxes' predictions first |
| CsvExport.SafeString | frontend/src/utils/exportFeedback.ts:208-216 | `safeString` gives "" for null and undefined, a text as itself, and the JSON text of anything else |
| CsvExport.DoubleQuotes | frontend/src/utils/exportFeedback.ts:408 | doubling the quotes never shortens a cell |
| CsvExport.Escape | frontend/src/utils/exportFeedback.ts:405-411 | a cell without a comma, line feed or double quote is written as it is; any other is enclosed in double quotes |
| CsvExport.ReadQuoted | frontend/src/utils/exportFeedback.ts:408 | reading the rest of a quoted field always consumes input (the reader is the partner of the escaping) |
| CsvExport.ReadPlain | frontend/src/utils/exportFeedback.ts:410 | reading an unquoted field never grows the input |
| CsvExport.ReadField | frontend/src/utils/exportFeedback.ts:405-411 | reading a field never grows the input |
| CsvExport.ReadRow | frontend/src/utils/exportFeedback.ts:402-413 | reading a line never grows the input |
| CsvExport.ReadQuotedPair | frontend/src/utils/exportFeedback.ts:408 | a doubled quote inside a quoted field reads as one quote |
| CsvExport.ReadQuotedChar | frontend/src/utils/exportFeedback.ts:408 | any other character inside a quoted field reads as itself |
| CsvExport.QuotedRoundTrip | frontend/src/utils/exportFeedback.ts:408 | a cell with its quotes doubled, followed by the closing quote, reads back as the cell |
| CsvExport.PlainRoundTrip | frontend/src/utils/exportFeedback.ts:410 | a cell without comma or line feed reads back as itself up to the separator |
| CsvExport.FieldRoundTrip | frontend/src/utils/exportFeedback.ts:405-411 | every escaped cell reads back as the cell, stopping at the separator that follows |
| CsvExport.ReadRowNext | frontend/src/utils/exportFeedback.ts:412 | a field followed by a comma continues the line |
| CsvExport.ReadRowLast | frontend/src/utils/exportFeedback.ts:412 | a field followed by anything but a comma ends the line |
| CsvExport.SingleCellRoundTrip | frontend/src/utils/exportFeedback.ts:402-413 | a line of one cell reads back as that cell |
| CsvExport.FirstCellRead | frontend/src/utils/exportFeedback.ts:412 | the first cell of a written line reads back, leaving the comma and the rest |
| CsvExport.RowRoundTrip | frontend/src/utils/exportFeedback.ts:402-413 | every non-empty row, written as a line, reads back as the row |
| CsvExport.CsvRoundTrip | frontend/src/utils/exportFeedback.ts:402-414 | the text of a table of non-empty rows reads back as the table |
| CsvExport.Context | frontend/src/utils/exportFeedback.ts:278-282 | every row starts with five context cells |
| CsvExport.ModelRow | frontend/src/utils/exportFeedback.ts:265-300 | a prediction row has one cell per header, is a model detection and a model prediction with the prediction's box and class, and names a user modification exactly when a log records the box as an original detection |
| CsvExport.AdditionCells | frontend/src/utils/exportFeedback.ts:318-327 | the written addition row has ten cells after the context and the action type |
| CsvExport.AdditionRowAsWritten | frontend/src/utils/exportFeedback.ts:311-328 | the addition row as written has sixteen cells |
| CsvExport.AdditionRow | frontend/src/utils/exportFeedback.ts:311-328 | the corrected addition row has one cell per header, the box, class and manual flag under their final columns, and names a user addition exactly when a log records the box as an addition |
| CsvExport.AdditionRowMisaligned | frontend/src/utils/exportFeedback.ts:311-328 | the written addition row is five cells short of the header and puts the box under "action_box_after", where the corrected row puts it under "final_box" |
| CsvExport.LogRowType | frontend/src/utils/exportFeedback.ts:348-356 | a log row's kind is its modification first (deletion or modification), then its addition, then its detection, else "feedback_log" |
| CsvExport.LogRow | frontend/src/utils/exportFeedback.ts:342-372 | an uncovered log's row has one cell per header, its kind and the log's JSON as the details |
| CsvExport.ActionCells | frontend/src/utils/exportFeedback.ts:383-387 | an action row has five cells after the context that describe the action |
| CsvExport.ActionRowAsWritten | frontend/src/utils/exportFeedback.ts:377-398 | the action row as written has twenty cells |
| CsvExport.ActionRow | frontend/src/utils/exportFeedback.ts:377-398 | the corrected action row has one cell per header, its type, "action", empty model and final columns, and the related log under "feedback_details" |
| CsvExport.ActionRowMisaligned | frontend/src/utils/exportFeedback.ts:377-398 | the written action row is one cell short and puts the related log under "feedback_type", where the corrected row puts it under "feedback_details" |
| CsvExport.ModelRows | frontend/src/utils/exportFeedback.ts:265-300 | one row per prediction, each as wide as the header |
| CsvExport.AdditionRows | frontend/src/utils/exportFeedback.ts:303-329 | the corrected addition rows: at most one per accepted annotation, each as wide as the header |
| CsvExport.AdditionRealigned | frontend/src/utils/exportFeedback.ts:311-328 | the corrected addition row is the written row with the five empty model cells inserted before the box |
| CsvExport.AdditionRowsAsWritten | frontend/src/utils/exportFeedback.ts:303-329 | the addition rows the program writes: as many as the corrected rows, each sixteen cells, each the corrected row with the five model cells taken out |
| CsvExport.LogRows | frontend/src/utils/exportFeedback.ts:332-373 | at most one row per log, each as wide as the header |
| CsvExport.ActionRows | frontend/src/utils/exportFeedback.ts:376-399 | the corrected action rows: one per action, each as wide as the header and marked "action" |
| CsvExport.ActionRealigned | frontend/src/utils/exportFeedback.ts:377-398 | the corrected action row is the written row with one more empty cell before the related log |
| CsvExport.ActionRowsAsWritten | frontend/src/utils/exportFeedback.ts:376-399 | the action rows the program writes: one per action, each twenty cells, each the corrected row less its empty cell before the related log |
| CsvExport.CsvLine | frontend/src/utils/exportFeedback.ts:402-413 | the escaped cells of a row joined by commas (no contract; `RowRoundTrip` reads every non-empty row back) |
| CsvExport.CsvText | frontend/src/utils/exportFeedback.ts:402-414 | the lines of the rows joined by line feeds (no contract; `CsvRoundTrip` reads a table of non-empty rows back) |
| CsvExport.ReadRows | frontend/src/utils/exportFeedback.ts:402-414 | the reader of the text: a table it reads has at least one row and no empty row, exactly the tables `CsvRoundTrip` covers |
| CsvExport.CsvTableAsWritten | frontend/src/utils/exportFeedback.ts:231-399 | the table the program builds: the header first, one row per model prediction and per action, at most one per final annotation and per log |
| CsvExport.CsvTable | frontend/src/utils/exportFeedback.ts:231-399 | the corrected table, with the same header, the same row counts and rows as wide as the header (`CsvTableShape`) |
| CsvExport.CsvAsWrittenShape | frontend/src/utils/exportFeedback.ts:231-399 | the table the program builds has as many rows as the corrected table, and rows of sixteen to twenty-one cells |
| CsvExport.CsvAsWrittenReadsBack | frontend/src/utils/exportFeedback.ts:231-414 | the text the program hands the browser, built from its short rows, reads back as that table |
| CsvExport.CsvTableShape | frontend/src/utils/exportFeedback.ts:233-399 | in the corrected table the header comes first, every row has one cell per header, the prediction rows follow the header in order, and there is at least one row per prediction and per action |
| CsvExport.CsvReadsBack | frontend/src/utils/exportFeedback.ts:401-414 | the text of the corrected table reads back as that table |
| CsvExport.PushModelRows | frontend/src/utils/exportFeedback.ts:265-300 | the loop appends exactly the prediction rows |
| CsvExport.PushAdditionRows | frontend/src/utils/exportFeedback.ts:303-329 | the loop appends exactly the corrected rows of the annotations no prediction covers |
| CsvExport.PushLogRows | frontend/src/utils/exportFeedback.ts:332-373 | the loop appends exactly the rows of the logs no earlier row covers |
| CsvExport.PushActionRows | frontend/src/utils/exportFeedback.ts:376-399 | the loop appends exactly the corrected action rows |
| CsvExport.BuildCsvRows | frontend/src/utils/exportFeedback.ts:231-399 | the header followed by the four passes gives the corrected table |
| CsvExport.CsvContent | frontend/src/utils/exportFeedback.ts:401-414 | the corrected text is the corrected table written as CSV, and reads back as that table |
| TransformerList.FullList | frontend/src/pages/Transformers.tsx:26 | the list shown is the data when it is an array, and empty otherwise |
| TransformerList.Offset | frontend/src/pages/Transformers.tsx:12 | page `currentPage` starts ten rows before where the next page starts, the first page at 0 |
| TransformerList.TotalPages | frontend/src/pages/Transformers.tsx:28 | `Math.ceil(totalRecords / 10)`: enough ten-row pages for every record, and no page more than needed |
| TransformerList.TotalPagesIsCeiling | frontend/src/pages/Transformers.tsx:28 | `Math.ceil(totalRecords / 10)` is the least number of ten-row pages that hold every record |
| TransformerList.Slice | frontend/src/pages/Transformers.tsx:29 | `slice` with clamped bounds returns at most `end - start` rows, each the row at its offset in the list |
| TransformerList.Visible | frontend/src/pages/Transformers.tsx:29 | a page shows at most ten rows |
| TransformerList.VisibleIsPage | frontend/src/pages/Transformers.tsx:12-29 | page `currentPage` shows exactly the ten-row page `currentPage - 1` of the list |
| TransformerList.ShownIsPages | frontend/src/pages/Transformers.tsx:12-29 | showing pages 1 to `count` in order gives the first `count` ten-row pages |
| TransformerList.AllPagesShowTheList | frontend/src/pages/Transformers.tsx:26-29 | reading pages 1 to `totalPages` in order gives back the whole list, each row once |
| TransformerList.ButtonsIffMoreThanOnePage | frontend/src/pages/Transformers.tsx:125 | page buttons appear exactly when there are more than ten rows; data that is not an array shows no page and no row |
| TransformerList.ShowButtons | frontend/src/pages/Transformers.tsx:125 | `totalPages > 1` (no contract; `ButtonsIffMoreThanOnePage` says when it holds) |
| TransformerList.Merge | frontend/src/pages/Transformers.tsx:33 | `{ ...editItem, ...values }` holds every field of both, the form's entry where both have one even when that entry is `undefined`, and the record's value elsewhere |
| TransformerList.Submit | frontend/src/pages/Transformers.tsx:31-39 | the submit creates with the form's values exactly when nothing is being edited, and otherwise updates the edited record with the form's values laid over it |
| TransformerList.EditKeepsId | frontend/src/pages/Transformers.tsx:33 | an edit keeps the record's id, which the form does not carry, and sends a field the form holds as `undefined` as `undefined` |
| ImageUploadForm.TransformerIdIssues | frontend/transformer-manager/src/components/ImageUploadForm.tsx:8 | a missing transformer id aborts the object; an empty one only records "Transformer is required"; a non-empty one passes |
| ImageUploadForm.EnumIssues | frontend/transformer-manager/src/components/ImageUploadForm.tsx:9 | the type passes exactly when it is baseline or maintenance; otherwise one issue at `type` |
| ImageUploadForm.OptionalEnumIssues | frontend/transformer-manager/src/components/ImageUploadForm.tsx:10 | the condition passes exactly when it is absent or one of sunny, cloudy and rainy |
| ImageUploadForm.First | frontend/transformer-manager/src/components/ImageUploadForm.tsx:21-56 | `file[0]` is defined only for a non-empty list, and is then its first item |
| ImageUploadForm.EnvRule | frontend/transformer-manager/src/components/ImageUploadForm.tsx:13-20 | the condition rule admits only the two image types: maintenance, or baseline with a condition |
| ImageUploadForm.FileRule | frontend/transformer-manager/src/components/ImageUploadForm.tsx:21-27 | the file rule admits only a truthy file value |
| ImageUploadForm.Issues | frontend/transformer-manager/src/components/ImageUploadForm.tsx:6-27 | the whole schema reports issues only at the transformer id, the type, the condition and the file; "Image file is required" appears exactly when no field check aborted and the file rule fails (`ValidIff` gives when nothing is reported) |
| ImageUploadForm.RefinementIssues | frontend/transformer-manager/src/components/ImageUploadForm.tsx:13-27 | the refinements add no issue exactly when the type is maintenance or a baseline with a condition, and a file or a list starting with a file is given |
| ImageUploadForm.ValidIff | frontend/transformer-manager/src/components/ImageUploadForm.tsx:6-27 | the form is accepted exactly when the id is non-empty, the type and any condition are in their enums, and both refinements hold |
| ImageUploadForm.UnknownTypeRejected | frontend/transformer-manager/src/components/ImageUploadForm.tsx:9 | a type other than baseline or maintenance is reported at `type` |
| ImageUploadForm.UnknownConditionRejected | frontend/transformer-manager/src/components/ImageUploadForm.tsx:10 | a condition outside the three, the empty placeholder included, is reported at `envCondition` |
| ImageUploadForm.BaselineNeedsCondition | frontend/transformer-manager/src/components/ImageUploadForm.tsx:13-20 | a baseline with a file but no condition gets exactly one refinement issue, "Env condition is required for baseline" at `envCondition` |
| ImageUploadForm.MaintenanceNeedsNoCondition | frontend/transformer-manager/src/components/ImageUploadForm.tsx:13-20 | a maintenance image never gets the condition issue |
| ImageUploadForm.MissingFileRejected | frontend/transformer-manager/src/components/ImageUploadForm.tsx:21-27 | without a file, or with an empty list, the refinements run and the last issue is "Image file is required" at `file` |
| ImageUploadForm.Submit | frontend/transformer-manager/src/components/ImageUploadForm.tsx:55-62 | the upload happens exactly when the schema reports no issue, and carries the id, type and condition as entered and the first item of the file list |
| ImageUploadForm.UploadedFile | frontend/transformer-manager/src/components/ImageUploadForm.tsx:21-56 | a valid list uploads its first file; a lone file passes the schema but uploads nothing |
| ImageUploadForm.Reset | frontend/transformer-manager/src/components/ImageUploadForm.tsx:63 | after a submit only the type is set, to maintenance |
| ImageUploadForm.ResetNeedsNoCondition | frontend/transformer-manager/src/components/ImageUploadForm.tsx:63 | after the reset, entering a transformer and a file is enough for the form to be accepted |

## Left out

- Processes and files: starting the detector process is an abstract outcome: it either could not start, or it exited with a code after printing stdout and stderr lines. The file system is a set of paths held by `PythonYolo.Disk`. Whether a copy into the debug folder succeeds is a parameter.
- The detector script itself is not part of this model; only how its output is read.
- Library code is not modelled. JSON reading and writing (Jackson), Base64, `SimpleDateFormat`, `Double.valueOf` and `toString` of non-string values are function-valued parameters.
- Clocks, environment variables and system properties, `localStorage` and `toFixed` rounding come in as parameters. The throw of `toFixed` on an undefined coordinate is modelled: the anomaly edit that would send one fails.
- Boxes compared by their JSON text are compared as sequences, which assumes that `JSON.stringify` of a coordinate array is injective.
- `parseInt` is modelled on plain digit strings. Signs, leading whitespace and trailing garbage are not modelled.
- The image and user-creation response codes are used symbolically. Their code strings and messages are not part of this model.
- Floating-point numbers (confidences, coordinates) are reals. Rounding and NaN are not modelled.
- UI state, alerts, navigation, the `Blob` download and the JSON file download are not modelled; only the payloads they are given.
- Network requests of the frontend (including the anomaly update request) are not modelled.
- The controllers other than the image upload only forward to their services and are not modelled.
- Concurrency, transactions and timeouts are not modelled. Each operation runs alone.
- Whether the database accepts a new login row is a parameter (`accepted`) of the login service.
- The try/catch fallback in the box de-duplication is left out, because serialising an array of numbers cannot throw.
- The CSV rows are joined with LF, and a bare carriage return does not cause quoting, as in the source.
- The environment select's empty placeholder is an ordinary value that fails the enum check. It is not a separate "required" message.
- A single `File` passes the upload schema but is uploaded as `undefined`, because only a `FileList` is read. The model keeps that behaviour.
- Text.Lower, Text.Upper: only ASCII letters change case. SQL `lower()` and `toUpperCase()` also map non-ASCII letters, and some of those mappings change the length (`"ß".toUpperCase()` is `"SS"`). So a weather text written with such letters, for example `"ſunny"`, normalises to a weather in the program but to null in the model.
- CsvExport.AdditionRows: builds the corrected 21-cell rows. The program writes the 16-cell rows of `CsvExport.AdditionRowsAsWritten`.
- CsvExport.ActionRows: builds the corrected 21-cell rows. The program writes the 20-cell rows of `CsvExport.ActionRowsAsWritten`.
- CsvExport.PushAdditionRows: pushes the corrected addition rows, not the 16-cell rows the program pushes.
- CsvExport.PushActionRows: pushes the corrected action rows, not the 20-cell rows the program pushes.
- CsvExport.BuildCsvRows: builds the corrected table. The table the program builds is `CsvExport.CsvTableAsWritten`.
- CsvExport.CsvContent: gives the text of the corrected table. The program hands the browser the text of `CsvExport.CsvTableAsWritten`, which `CsvExport.CsvAsWrittenReadsBack` covers.
- SqlLike.Like: a pattern that ends in a lone `\` is an error in the database; here it matches nothing. The filter's patterns always end in `%`, so they never reach that case (`FilterSpec.IncludePatternClosed`).
- Paging.PageRequestOf: the offset and limit are unbounded integers. Values outside Java's `int` range cannot reach the service, and the model does not exclude them; only the `int` addition of the page number is modelled (`Paging.PageNumber`).
- `PythonYolo.InterpretOutput`: the temporary image is deleted before the output is parsed. The parse-failure handler's copy therefore always fails, and it returns an empty list. The parse-error code is never produced, and the model keeps it that way.

## Findings

| source | as written | input that shows it | evidently intended | confidence | as-written member | corrected member |
|---|---|---|---|---|---|---|
| frontend/src/utils/exportFeedback.ts:311-328 | a row for an annotation the user added has 16 cells under the 21-column header | any final annotation without a matching model prediction | 21 cells, with the box, class and manual flag under the final columns | high, not executed | CsvExport.AdditionRowAsWritten | CsvExport.AdditionRow |
| frontend/src/utils/exportFeedback.ts:377-398 | an action-log row has 20 cells, so the related log lands under `feedback_type` | any action log in the export | 21 cells, with the log under `feedback_details` | high, not executed | CsvExport.ActionRowAsWritten | CsvExport.ActionRow |
