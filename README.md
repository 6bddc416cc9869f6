# BulkOps core in Dafny

BulkOps is a Hyrax extension for bulk ingest and bulk update of repository works. An operator fills in a metadata spreadsheet, one row per work. BulkOps verifies the sheet, then turns each row into a change-set and a background job. It tracks every work through a *work proxy* record, links works to each other through *relationship* records, and reports errors back to the operator. This project models the logic of that pipeline in Dafny and proves properties of the model. The series of steps is:

- **The cell mini-language** (`Cells`). Cells hold multiple values separated by `;`. The separator can be escaped with a backslash, and `unescape_csv` removes backslashes. The module also covers visibility normalisation, relationship-header normalisation, `type:value` prefixes, and the row-address arithmetic of `row:N`, `row:-N` and `prev`.
- **Field classification and sheet verification** (`Verification`). This covers file-column detection, fuzzy field-name matching, file-path expansion, the reference-identifier column, and the header, file and reference checks that fill the verification error list. `Verification.Verifier` is the object that owns that list.
- **Row interpretation**:
  - `Interpretation` holds the shared column fold and the metadata map.
  - `RowParser.Parser` models the parser object and its passes over a row (`interpret_data`). These are relationships, options, controlled-vocabulary fields and scalar fields.
  - `Proxies.WorkProxy` models the older copy of those passes inside the work proxy.
  - `Behaviors` models the concern mixins. Each is a method over a `RowParser.Parser` host.
- **Relationship records** (`Relationships`). A record moves through the states new, pending and complete. Resolving it appends a member to an ordered member list. Creating it resolves it at once.
- **The operation lifecycle** (`Operations.Operation`) covers:
  - stage predicates and `busy?`;
  - the `check_if_finished` transition;
  - `unique_name`;
  - proxy buckets;
  - the proxy reconciliation of `apply!` and `apply_update!`, which decides which proxies survive, which are created, and which jobs are queued.
- **Error reports** (`Errors`). Errors are sorted and grouped by kind. Each kind's section is truncated at 50 or 5000 entries.
- **The verification scan's result code** (`VerifyWorks`). The failed checks are encoded as a sum of powers of two and decoded back through the reversed binary string. The report groups documents by code.
- **Spreadsheet export** (`Spreadsheet`). A work becomes one CSV line. Quotes inside a value are doubled as section 2, rule 7 of RFC 4180 prescribes. Values are joined by `;`, fields by `,`, and lines by CRLF. The model proves that such a line reads back, under RFC 4180, as the original field values.

`Text` gives Ruby's string operations on ASCII text: `strip`, `downcase`, `split`, `to_i`, `to_s` and `parameterize`. `BulkOps` holds the library's constants and the collaborators the code consults but does not own:

- the metadata schema;
- the `Work` attribute names;
- the Rails inflector;
- the operation's options.

Repository, Solr, authority and collection lookups are function-valued parameters (`Services`, `Lookups`, `Repository`). The clock is a `now` string parameter. An exception is modelled as a `raised` outcome, together with the state the earlier statements left.

Several places are modelled as the code is written, not as it was evidently meant:

- `verify_works_to_update` calls an undefined `record_exists`, so it raises on any row.
- The parser's option pass raises on a reference-identifier column, because the parser has no `format_reference_id`.
- `relationship.rb` subtracts the row offset once more from an already shifted `row:N` (`Relationships.RowReferenceOffsetTwice`).

The places where the code is evidently wrong are listed under Findings. Each has a pair of definitions there.

## Model

| member | source | states |
|---|---|---|
| Text.Strip | lib/bulk_ops/parser.rb:127 | `strip!` removes a prefix and a suffix of whitespace and NUL, leaving none at either end |
| Text.LowerIdempotent | lib/bulk_ops/parser.rb:236 | lower-casing twice equals lower-casing once |
| Text.PiecesJoin | lib/bulk_ops/parser.rb:510-514 | splitting at a character and joining with it gives the string back |
| Text.NormFieldIsLowerAlnum | lib/bulk_ops/parser.rb:236 | the normalised header is the lower-cased header with everything but letters and digits dropped |
| Text.NormFieldHasNoSeparators | lib/bulk_ops/parser.rb:236 | the normalised header has no `_`, `-` or whitespace |
| Text.NormFieldIdempotent | lib/bulk_ops/parser.rb:236 | normalising twice equals normalising once |
| Cells.SplitValues | lib/bulk_ops/parser.rb:510-514 | one value per piece Ruby's `split` keeps, each with its escaped separators unescaped and then stripped |
| Cells.EscPiecesSound | lib/bulk_ops/parser.rb:513 | the escape-aware cut loses nothing (joining the pieces with `;` gives the cell back), leaves only escaped `;` inside a piece, and never cuts after a backslash |
| Cells.EscPiecesWithoutBackslash | lib/bulk_ops/parser.rb:513 | without backslashes the lookbehind split is the plain `;` split |
| Cells.SplitValuesPlain | lib/bulk_ops/parser.rb:510-514 | a cell without backslashes gives its plain `;`-separated pieces, stripped, trailing empty pieces dropped |
| Cells.UnescapeSeparatorsIdentity | lib/bulk_ops/parser.rb:513 | the `\;` rewrite leaves a backslash-free piece unchanged |
| Cells.UnescapeEscape | lib/bulk_ops/parser.rb:357-359 | `unescape_csv` inverts backslash-escaping of `'`, `"`, `;` and `,` for every string |
| Cells.UnescapeCsvIdentity | lib/bulk_ops/parser.rb:357-359 | a string in which no backslash precedes an escapable character (in particular one with no backslash) is returned unchanged |
| Cells.UnescapeCsvOnlyDeletesBackslashes | lib/bulk_ops/parser.rb:357-359 | the result is exactly one character shorter per rewritten escape sequence |
| Cells.FormatVisibility | lib/bulk_ops/parser.rb:371-380 | the result, when there is one, is one of "open", "ucsc", "restricted" |
| Cells.FormatVisibilityClasses | lib/bulk_ops/parser.rb:371-380 | each of the three results is given exactly for its lower-cased synonym set, and nil exactly for any other word |
| Cells.FormatVisibilityIgnoresCase | lib/bulk_ops/parser.rb:372 | the mapping ignores case |
| Cells.FormatVisibilityIdempotent | lib/bulk_ops/parser.rb:371-380 | a formatted visibility formats to itself |
| Cells.NormalizeRelationshipFieldName | lib/bulk_ops/parser.rb:317-320 | gives the relationship field equal to the lower-cased name with `_`, `-` and whitespace removed, and nil exactly when there is none |
| Cells.NormalizeSameLetters | lib/bulk_ops/parser.rb:317-320 | names that differ only in case, punctuation or spacing normalise alike |
| Cells.RubyIndex | lib/bulk_ops/parser.rb:326 | Ruby's `array[k]`: defined exactly for -length <= k < length, a negative index counting from the end |
| Cells.PreviousParentFromSpec | lib/bulk_ops/parser.rb:325-329 | the scan from offset i returns the nearest row above with a blank cell in the field, every row between being non-blank, or nil when it walks off the data |
| Cells.PreviousParentSpec | lib/bulk_ops/parser.rb:322-330 | `find_previous_parent` returns the greatest reachable row below `row_number` whose field is blank (every row between is non-blank), and nil only when the start is past the data or no reachable row is blank, counting Ruby's wrap of negative indices |
| Cells.FindPreviousParent | lib/bulk_ops/parser.rb:322-330 | the counting loop returns what `PreviousParent` specifies |
| Cells.SplitPrefix | lib/bulk_ops/parser.rb:334-337 | a value that does not split on `:` into exactly two parts keeps the identifier type and value; one that does sets the type |
| Cells.SplitPrefixOneColon | lib/bulk_ops/parser.rb:334-337 | `a:b` with one colon and a non-empty `b` gives type `a` and value `b` |
| Cells.InterpretRelationshipValue | lib/bulk_ops/parser.rb:332-355 | the identifier type is the prefix split's, and under any type other than `row` the value is returned as given |
| Cells.RowAddressing | lib/bulk_ops/parser.rb:339-353 | under `row`: a negative N targets `row_number + N`, a positive N becomes `N - ROW_OFFSET`, zero and other text are kept, and a `prev` word defers to `find_previous_parent` |
| Errors.NewErrorAsWritten | lib/bulk_ops/error.rb:7-17 | as written, the constructed error never holds the option name it was given |
| Errors.NewError | lib/bulk_ops/error.rb:7-17 | the corrected constructor stores every keyword argument, the option name included |
| Errors.OptionNameLost | lib/bulk_ops/error.rb:12 | an `invalid_config_value` error built with an option name loses it as written and keeps it once corrected |
| Errors.Threshold | lib/bulk_ops/error.rb:4-5 | the listing threshold is 50 for a short report and 5000 otherwise (also line 44) |
| Errors.UnlistedKinds | lib/bulk_ops/error.rb:169-170 | kinds without a branch, such as `cannot_find_work`, fall to the unrecognised-type message |
| Errors.MismatchEnumerates | lib/bulk_ops/error.rb:49-51 | below the threshold every error's row is listed in the mismatched-terms section |
| Errors.MismatchTruncates | lib/bulk_ops/error.rb:52-53 | at or above the threshold the section depends only on the count and the first error |
| Errors.MismatchStatesCount | lib/bulk_ops/error.rb:53 | at or above the threshold the section states the number of errors |
| Errors.UploadTruncates | lib/bulk_ops/error.rb:61-62 | at or above the threshold the upload section depends only on the count and the first error |
| Errors.UploadStatesCount | lib/bulk_ops/error.rb:62 | at or above the threshold the upload section renders and states the number of errors |
| Errors.BadReferenceEnumerates | lib/bulk_ops/error.rb:123-125 | below the threshold every bad reference's row and object are listed |
| Errors.BadReferenceTruncates | lib/bulk_ops/error.rb:126-127 | at or above the threshold only the first error is shown |
| Errors.BadReferenceStatesCount | lib/bulk_ops/error.rb:122 | the bad-reference section states the number of problems |
| Errors.MissingFileEnumerates | lib/bulk_ops/error.rb:133-135 | below the threshold every missing file is listed |
| Errors.MissingFileTruncates | lib/bulk_ops/error.rb:136-137 | at or above the threshold only the first missing file is shown |
| Errors.MissingFileStatesCount | lib/bulk_ops/error.rb:132 | the missing-file section states the number of rows |
| Errors.RelationshipEnumerates | lib/bulk_ops/error.rb:143-145 | below the threshold the relationship section renders and lists every error |
| Errors.IngestEnumerates | lib/bulk_ops/error.rb:153-155 | below the threshold every failed ingest is listed |
| Errors.IngestTruncates | lib/bulk_ops/error.rb:156-157 | at or above the threshold only the first failed ingest is shown |
| Errors.IngestStatesCount | lib/bulk_ops/error.rb:152 | the ingest section states the number of rows |
| Errors.UrlKindsListEachDistinctUrl | lib/bulk_ops/error.rb:94-101 | with fewer distinct urls than the threshold each distinct url gets its own paragraph (also lines 108-115) |
| Errors.UrlKindsTruncate | lib/bulk_ops/error.rb:102-103 | with at least the threshold of distinct urls the section depends only on the counts and the first error (also lines 116-117) |
| Errors.UrlParagraphCounts | lib/bulk_ops/error.rb:97-98 | a url's paragraph states how many errors carry that url (also lines 111-112) |
| Errors.WithUrlCount | lib/bulk_ops/error.rb:97 | the errors selected for a url are exactly as many as its occurrences (also line 111) |
| Errors.BadHeaderListsEveryField | lib/bulk_ops/error.rb:87-90 | every bad header's field is listed |
| Errors.UnknownKindsShareOneMessage | lib/bulk_ops/error.rb:169-170 | every unrecognised kind renders the one fixed message |
| Errors.InsertSortedKeepsOrder | lib/bulk_ops/error.rb:25-26 | inserting a new kind into a strictly sorted list keeps it strictly sorted |
| Errors.SortDistinctIsStrict | lib/bulk_ops/error.rb:25-26 | the distinct kinds, sorted, are strictly increasing |
| Errors.WriteErrors | lib/bulk_ops/error.rb:19-41 | the loop over the sorted kinds produces the report `Report` specifies |
| Errors.SectionsFromSpec | lib/bulk_ops/error.rb:30-36 | the section loop either yields one rendered section per kind in order, or raises with the kind and reason of the first kind whose rendering raises, every earlier kind having rendered |
| Errors.ReportSections | lib/bulk_ops/error.rb:19-41 | no report exactly for no errors; otherwise one section per distinct kind, kinds strictly sorted and each covering exactly the errors of that kind, or the raise, with its reason, of the first kind whose section raises, every earlier kind having rendered |
| Verification.AnyIn | lib/bulk_ops/verification.rb:38-39 | `any?` over the field's words: true exactly when some word is in the vocabulary |
| Verification.IsFileField | lib/bulk_ops/verification.rb:34-41 | a file action exactly for a non-blank, non-schema name one of whose words is a file word, and "remove" exactly when one of its words is also `remove` or `delete` |
| Verification.FileFieldExamples | lib/bulk_ops/verification.rb:34-41 | "Remove Files" is a removal, "filename" an addition, and "remove_title" no file field |
| Verification.FirstWithKey | lib/bulk_ops/verification.rb:50-53 | the first candidate whose normalised name matches, and nil exactly when none does |
| Verification.StripSuffixAfterSeparator | lib/bulk_ops/verification.rb:45-46 | a suffix already stripped stays stripped after a separator-ended prefix is added |
| Verification.LabelColumnFindsBaseField | lib/bulk_ops/verification.rb:43-54 | a `<name>_label` column (any separator, either case of `l`) resolves to the same field as `<name>` |
| Verification.RemoveColumnFindsBaseField | lib/bulk_ops/verification.rb:43-54 | a `remove_<name>` column (any separator, either case of `r`) resolves to the same field as `<name>` |
| Verification.JoinPath | lib/bulk_ops/verification.rb:59 | `File.join` keeps the first path as a prefix |
| Verification.JoinPathEnds | lib/bulk_ops/verification.rb:59 | `File.join` ends with the second path without its leading slash |
| Verification.GetFilePaths | lib/bulk_ops/verification.rb:56-60 | no paths for a blank cell; otherwise one path per `;`-separated filename (corrected: the constant read from `BulkOps`) |
| Verification.FilePathsShape | lib/bulk_ops/verification.rb:56-60 | each path lies under the ingest media directory and ends with its filename (corrected: the constant read from `BulkOps`) |
| Verification.GetRefId | lib/bulk_ops/verification.rb:173-181 | the value of the first reference-identifier cell of the row, or else the operation's reference identifier, or else the symbol `:id`, which equals no string |
| Verification.ReferenceStep | lib/bulk_ops/verification.rb:194-211 | a blank cell is skipped with the reference type kept; a cell raises exactly when its reference type, after any `type:` prefix, is `row`; otherwise it appends at most one error, a `bad_object_reference` on its row for an object whose record is missing (corrected: rows enumerated with their index) |
| Verification.ReferenceErrors | lib/bulk_ops/verification.rb:193-212 | every error of a row is a `bad_object_reference` on that row (`row_num + ROW_OFFSET`) naming an object whose record is missing (corrected: rows enumerated with their index) |
| Verification.CheckRowReferences | lib/bulk_ops/verification.rb:193-212 | the column loop gives what `ReferenceErrors` specifies, the reference type carried from column to column |
| Verification.SymbolReferencesIgnored | lib/bulk_ops/verification.rb:196-212 | under the `:id` fallback a reference without a `type:` prefix reaches neither the row branch nor the id branch, so the row passes with no error, whatever the repository holds (corrected: rows enumerated with their index) |
| Verification.MissingRecordReported | lib/bulk_ops/verification.rb:205-209 | a cell `id:<x>` whose record is missing gets its `bad_object_reference`, unless the row raises (corrected: rows enumerated with their index) |
| Verification.InternalReferenceErrors | lib/bulk_ops/verification.rb:191-214 | every error appended is a `bad_object_reference` on an existing row naming an object whose record is missing (corrected: rows enumerated with their index) |
| Verification.InternalReferencesRaiseExactly | lib/bulk_ops/verification.rb:191-214 | the check raises exactly when some row raises (corrected: rows enumerated with their index) |
| Verification.UnprefixedReferencesIgnored | lib/bulk_ops/verification.rb:187-214 | no reference identifier in the rows or the operation and no `type:` prefix in a relationship cell: the reference check passes with no error (corrected: rows enumerated with their index) |
| Verification.SplatRaisesAsWritten | lib/bulk_ops/verification.rb:191-194 | the sheet `title,parent` with the one row `A,` raises as written, where the corrected check passes with no error |
| Verification.MissingParentReported | lib/bulk_ops/verification.rb:191-209 | a parent `id:<x>` with no record raises as written, where the corrected check reports one `bad_object_reference` on row 2 |
| Verification.HeaderErrors | lib/bulk_ops/verification.rb:117-130 | every error raised is a `bad_header` naming one of the headers that is not exempt (corrected: the constant read from `BulkOps`) |
| Verification.HeaderErrorsComplete | lib/bulk_ops/verification.rb:117-130 | every header that is not exempt gets its `bad_header` error (corrected: the constant read from `BulkOps`) |
| Verification.GetFilePathsAsWrittenRaises | lib/bulk_ops/verification.rb:59 | as written the lookup raises NameError exactly when the corrected one would return paths, and otherwise returns the same (no paths) |
| Verification.HeaderRaiseAsWritten | lib/bulk_ops/verification.rb:117-123 | as written the header loop raises at the first header that is neither blank nor a label, and only when there is one |
| Verification.NonLabelHeaderRaisesAsWritten | lib/bulk_ops/verification.rb:119-123 | a header that is neither blank nor a label makes the loop raise, at it or at an earlier header |
| Verification.SpecialHeaderRaisesAsWritten | lib/bulk_ops/verification.rb:123 | the special column `parent` raises at its header as written, while the corrected check lets it through with no error |
| Verification.FieldUrlErrors | lib/bulk_ops/verification.rb:140-146 | every error is a `cannot_retrieve_label` for one of the cell's urls that fails, with the row number offset by the header |
| Verification.RowUrlErrors | lib/bulk_ops/verification.rb:138-147 | every error of a row names a controlled field and one of its failing urls |
| Verification.UrlErrors | lib/bulk_ops/verification.rb:133-149 | every error names an existing row, a controlled field and one of that row's failing urls |
| Verification.FieldUrlErrorsComplete | lib/bulk_ops/verification.rb:140-146 | every failing url of a cell gets its error |
| Verification.RowUrlErrorsComplete | lib/bulk_ops/verification.rb:138-147 | every failing url in any controlled field of a row gets its error |
| Verification.UrlErrorsComplete | lib/bulk_ops/verification.rb:133-149 | every failing url of every row gets its error |
| Verification.PathErrors | lib/bulk_ops/verification.rb:78-80 | every error is a `cannot_find_file` for one of the paths that does not exist |
| Verification.CellsFileErrors | lib/bulk_ops/verification.rb:75-81 | every error of a row is a `cannot_find_file` for a missing path (corrected: the constant read from `BulkOps`) |
| Verification.FileErrors | lib/bulk_ops/verification.rb:72-85 | every error is a `cannot_find_file` for a missing path (corrected: the constant read from `BulkOps`) |
| Verification.PathErrorsComplete | lib/bulk_ops/verification.rb:78-80 | every missing path gets its error |
| Verification.CellsFileErrorsComplete | lib/bulk_ops/verification.rb:75-81 | every missing path of every file cell in a row gets its error (corrected: the constant read from `BulkOps`) |
| Verification.FileErrorsComplete | lib/bulk_ops/verification.rb:72-85 | every missing path of every file cell of every row gets its error (corrected: the constant read from `BulkOps`) |
| Verification.CollectPathErrors | lib/bulk_ops/verification.rb:78-80 | the loop collects what `PathErrors` specifies |
| Verification.CollectRowFileErrors | lib/bulk_ops/verification.rb:75-81 | the loop collects what `CellsFileErrors` specifies (corrected: the constant read from `BulkOps`) |
| Verification.CollectFieldUrlErrors | lib/bulk_ops/verification.rb:140-146 | the loop collects what `FieldUrlErrors` specifies |
| Verification.CollectRowUrlErrors | lib/bulk_ops/verification.rb:138-147 | the loop collects what `RowUrlErrors` specifies |
| Verification.RowReferenceRaises | lib/bulk_ops/verification.rb:200-202 | a `row:` parent reference always makes the row raise, since `is_a?` swallows the comparison of the string id with 0 (corrected: rows enumerated with their index; as written the row raises earlier) |
| Verification.Verifier.VerifyInternalReferences | lib/bulk_ops/verification.rb:188-215 | raises exactly when some row raises, with nothing appended; otherwise appends exactly the errors `InternalReferenceErrors` gives (corrected: rows enumerated with their index, the constant read from `BulkOps`) |
| Verification.Verifier.constructor | lib/bulk_ops/verification.rb:6 | a verifier starts with no errors |
| Verification.Verifier.VerifyColumnHeaders | lib/bulk_ops/verification.rb:110-131 | appends exactly the header errors (corrected: the constant read from `BulkOps`) |
| Verification.Verifier.VerifyRemoteUrls | lib/bulk_ops/verification.rb:133-149 | appends exactly the url errors |
| Verification.Verifier.VerifyFiles | lib/bulk_ops/verification.rb:72-85 | appends and returns exactly the file errors (corrected: the constant read from `BulkOps`) |
| Verification.Verifier.Verify | lib/bulk_ops/verification.rb:5-23 | headers, urls, references and files checked in order; a reference check that raises (under the row's, the operation's or the `:id` reference type) or an update raises; otherwise the bad references are appended before the file errors, and the answer is true exactly when no errors were found, or false once the report is written (assuming `options["notifications"]` is set, which `notify` iterates), or a raise from writing it (corrected: the constant read from `BulkOps`, the rows of the reference check enumerated with their index) |
| Verification.Verifier.VerifyColumnHeadersAsWritten | lib/bulk_ops/verification.rb:110-131 | as written raises exactly when `HeaderRaiseAsWritten` finds a header |
| Verification.Verifier.VerifyAsWritten | lib/bulk_ops/verification.rb:5-23 | as written `verify` raises at the header check, or else raises at the reference check on any sheet with a row (the scoped constant, and with it corrected the splatted row), after the url errors are appended; only a sheet without rows reaches the file check and the report |
| Interpretation.Extend | lib/bulk_ops/parser.rb:170 | `(@metadata[k] \|\|= []) << v` for several values: the key gains exactly the new items at its end (and is added only when there are some), every other key is unchanged |
| Interpretation.FoldHalted | lib/bulk_ops/parser.rb:159-172 | once a column raises, the remaining columns change nothing |
| Interpretation.FoldExtends | lib/bulk_ops/parser.rb:159-172 | the column loop only appends: every key keeps its earlier values as a prefix |
| Interpretation.FoldItemsFrom | lib/bulk_ops/parser.rb:159-172 | every value of a key was there before or comes from a column adding to that key |
| Interpretation.FoldKeysFrom | lib/bulk_ops/parser.rb:159-172 | a new key comes from a column adding at least one value to it |
| Interpretation.FoldInOrder | lib/bulk_ops/parser.rb:159-172 | without a raise, each key ends with its earlier values followed by the columns' items for it in column order |
| Interpretation.NonBlankPieces | lib/bulk_ops/parser.rb:166-171 | keeps exactly the non-blank pieces, each stripped (and unescaped when asked) |
| Interpretation.EscapedValues | lib/bulk_ops/parser.rb:166-170 | the values a scalar cell contributes are exactly its non-blank `split_values` pieces, stripped and unescaped |
| Interpretation.PlainValues | lib/bulk_ops/work_proxy.rb:211-213 | the older copy's values are exactly the non-blank plain `;` pieces, stripped |
| Interpretation.ExtendTwice | lib/bulk_ops/parser.rb:170 | appending in two steps equals appending once |
| Interpretation.AppendPieces | lib/bulk_ops/parser.rb:166-171 | the value loop extends the key by exactly the kept pieces |
| Interpretation.ScalarColumn | lib/bulk_ops/parser.rb:159-165 | a column adds only to the non-controlled schema field its header resolves to; it raises exactly when the header resolves to a name that is not a schema field (`controlled?` on nil); a blank value, a header row or an unknown header is skipped |
| Interpretation.ScalarColumns | lib/bulk_ops/parser.rb:159 | one column decision per cell in row order |
| Interpretation.ScalarFieldsShape | lib/bulk_ops/parser.rb:158-173 | existing values are kept as a prefix and every new key is a non-controlled schema field |
| Interpretation.ScalarValueOrigin | lib/bulk_ops/parser.rb:158-173 | every new value of a key comes from a cell whose header resolves to that key |
| Interpretation.ControlledTarget | lib/bulk_ops/parser.rb:90-117 | a column is read as controlled only when its value and header are non-blank and differ, its header (without any `.authority`) resolves to a controlled field, and a label column only when labels are imported and not ignored |
| Interpretation.ToAttrs | lib/bulk_ops/parser.rb:150-154 | one attribute hash per entry, each with the entry's id, flagged exactly for a removal |
| Interpretation.AttrOfEntry | lib/bulk_ops/parser.rb:150-154 | every attribute comes from an entry with that id and flag |
| Interpretation.AttrsOfEntries | lib/bulk_ops/parser.rb:150 | duplicate entries are dropped before they are added, and every entry is represented |
| Interpretation.WithoutId | lib/concerns/interpret_controlled_behavior.rb:74 | `reject!` keeps exactly the attributes with another id |
| Interpretation.WithoutIdDistinct | lib/concerns/interpret_controlled_behavior.rb:74-75 | removing an id and appending it keeps ids distinct |
| Interpretation.RemovedIdsDistinct | lib/concerns/interpret_controlled_behavior.rb:74 | the attributes left by `reject!` keep distinct ids |
| Interpretation.MergeAttrsDistinct | lib/concerns/interpret_controlled_behavior.rb:71-77 | merging keeps at most one attribute per id |
| Interpretation.MergeAttrsLastWins | lib/concerns/interpret_controlled_behavior.rb:71-77 | each merged attribute is the last one given for its id, or an earlier one no later datum replaced |
| Interpretation.MergeAttrsKeepsData | lib/concerns/interpret_controlled_behavior.rb:71-77 | every id given ends up in the merged attributes |
| Interpretation.GetLocalAuth | lib/bulk_ops/parser.rb:415-424 | the field's local subauthority exactly when it has one |
| Interpretation.LocalIdToUrl | lib/bulk_ops/parser.rb:407-413 | the url is under the environment root's `/authorities/show/local/` and ends with the id |
| Interpretation.FirstLabelled | lib/bulk_ops/parser.rb:397-403 | the first entry whose label matches exactly, and nil exactly when none does |
| Interpretation.FindAuthUrl | lib/bulk_ops/parser.rb:393-405 | a url exactly when the search for the stripped value finds an entry with that exact label, giving its url or else its id |
| Interpretation.MintLocalAuthUrl | lib/bulk_ops/parser.rb:383-391 | the minted url is the local url of the parameterised, stripped value |
| Interpretation.LocalAuthUrl | lib/bulk_ops/parser.rb:468-472 | the value itself when the field has no local authority, else the url found for it, else a minted one |
| Relationships.Work.constructor | lib/bulk_ops/relationship.rb:32 | a new collection has its id and title and no members |
| Relationships.FetchOrRaise | lib/bulk_ops/relationship.rb:40 | `ActiveFedora::Base.find`: the work when it exists, an exception otherwise (also line 44) |
| Relationships.FindObjectSpec | lib/bulk_ops/relationship.rb:15-46 | `id` gives the work, false exactly when it is gone, or raises; `title` creates a collection exactly for an unmatched collection relationship; `row` finds the proxy of row `object_identifier - 2` and raises when there is none; any other type gives nil |
| Relationships.SubjectOf | lib/bulk_ops/relationship.rb:49 | the proxy's work exactly when it has a work id that is found |
| Relationships.Relationship.constructor | lib/bulk_ops/relationship.rb:7-8 | the record holds the given attributes and status |
| Relationships.Relationship.FindObject | lib/bulk_ops/relationship.rb:15-46 | the lookup `FindObjectSpec` gives, with a fresh, empty collection titled with the identifier where one is created |
| Relationships.Relationship.Implement | lib/bulk_ops/relationship.rb:56-74 | a parent gains the subject at the end of its ordered members, a child is appended to the subject's, a collection gains the subject's id, other types change nothing; the record is complete in every case |
| Relationships.Relationship.Resolve | lib/bulk_ops/relationship.rb:48-54 | pending and nothing else changed when the subject or object is missing; unchanged on a raising lookup; otherwise the link is implemented and the record complete |
| Relationships.Relationship.Fail | lib/bulk_ops/relationship.rb:78-80 | the status becomes "failed" |
| Relationships.Relationship.Wait | lib/bulk_ops/relationship.rb:82-84 | the status becomes "pending" |
| Relationships.Create | lib/bulk_ops/relationship.rb:7-13 | a new record is resolved at once: it raises exactly when its subject exists and the object lookup raises, and is otherwise complete exactly when both are found (or a collection is created), else pending |
| Relationships.RowReferenceOffsetTwice | lib/bulk_ops/relationship.rb:43 | a positive `row:N` already shifted by the parser is shifted again, so it designates data row `N - 4` |
| Proxies.DowncaseFirstLetter | lib/bulk_ops/work_proxy.rb:106-109 | the first character lower-cased and the rest kept; on an empty string `str[0]` is nil and the call raises |
| Proxies.FormatReferenceIdAsWritten | lib/bulk_ops/work_proxy.rb:339-350 | as written every value but "id" raises, because `downcase_first_letter` is called as a `String` method |
| Proxies.FormatReferenceId | lib/bulk_ops/work_proxy.rb:339-350 | corrected: "id" as is; the method-style name when the schema or the Solr document knows it; otherwise "row" exactly for a row spelling and nil for anything else; raises only when the class-style name is empty |
| Proxies.ReferenceIdRowRaises | lib/bulk_ops/work_proxy.rb:342-348 | a `row` reference identifier raises as written and gives "row" once corrected |
| Proxies.FormatWorktype | lib/bulk_ops/work_proxy.rb:352-359 | `NameError` exactly when the class-style name is no constant name (`const_defined?` at line 356); otherwise that name when the class is defined, else the operation's work type |
| Proxies.WorkProxy.constructor | lib/bulk_ops/work_proxy.rb:14-19 | a created proxy holds the given columns, every other column nil and an empty error list (also lines 55-57) |
| Proxies.WorkProxy.WorkType | lib/bulk_ops/work_proxy.rb:31-33 | the proxy's own work type, else the operation's |
| Proxies.WorkProxy.ReportError | lib/bulk_ops/work_proxy.rb:423-428 | the status becomes "error" with the message, and exactly one error is appended |
| Proxies.WorkProxy.InterpretFileFields | lib/bulk_ops/work_proxy.rb:220-261 | raises exactly when the pass, read as written, reaches a file column that raises; under the corrected reading it never raises |
| Proxies.FindColumn | lib/bulk_ops/work_proxy.rb:231 | found exactly when some column of the row satisfies the test |
| Proxies.AddFileColumnRaises | lib/bulk_ops/work_proxy.rb:249 | as written an added-file column raises exactly when the intended `get_file_paths` would give it a path (verification.rb:59) |
| Proxies.WorkProxy.InterpretScalarFields | lib/bulk_ops/work_proxy.rb:202-218 | the plain-split scalar pass over a fresh hash, which raises for a header resolving to a non-schema name |
| Proxies.WorkProxy.CollectEntries | lib/bulk_ops/work_proxy.rb:161-180 | one entry per value, and one error report per url whose label cannot be fetched, in order |
| Proxies.WorkProxy.CollectColumn | lib/bulk_ops/work_proxy.rb:126-181 | a controlled column adds its pieces' entries under its property and reports their label failures; any other column changes nothing |
| Proxies.WorkProxy.CollectControlled | lib/bulk_ops/work_proxy.rb:126-181 | the controlled entries per property, every label failure of the row reported |
| Proxies.WorkProxy.InterpretControlledFields | lib/bulk_ops/work_proxy.rb:117-200 | the attribute hashes `ProxyControlled` specifies, with every label failure reported |
| Proxies.WorkProxy.InterpretRelationshipFields | lib/bulk_ops/work_proxy.rb:294-337 | the collection ids and raise status `ProxyRelations` specifies; only the order column changes the proxy |
| Proxies.WorkProxy.InterpretOptionFields | lib/bulk_ops/work_proxy.rb:263-292 | the visibility, work type and reference identifier `ProxyOptions` specifies, and nothing else (corrected `FormatReferenceId`) |
| Proxies.WorkProxy.InterpretData | lib/bulk_ops/work_proxy.rb:43-53 | the admin set is the ingest set, else the default set, created when missing, so it never raises; then the file pass, which as written raises on a filled file column with nothing changed; otherwise the controlled, scalar, relationship and option passes run in that order, the first raising pass ending the interpretation with the state the earlier passes left; a completed run returns that admin set |
| Proxies.LabelFailureError | lib/bulk_ops/work_proxy.rb:426-427 | the error has the kind, row and url given and no message |
| Proxies.Reported | lib/bulk_ops/work_proxy.rb:167-169 | no failures leave the state as it was; otherwise status "error" with the last failure's message, and nothing but status, message and errors changes (also lines 423-428) |
| Proxies.ReportedErrors | lib/bulk_ops/work_proxy.rb:427 | reporting appends exactly one `cannot_retrieve_label` error per failing url, in order |
| Proxies.ReportedConcat | lib/bulk_ops/work_proxy.rb:423-428 | reporting two lists in turn equals reporting their concatenation |
| Proxies.ProxyFindAuthUrl | lib/bulk_ops/work_proxy.rb:382-395 | found exactly when an entry's label matches; a non-url hit is turned into a local url |
| Proxies.ProxyLocalAuthUrl | lib/bulk_ops/work_proxy.rb:69-73 | the value without a local authority, else the url found, else a minted one under the local root |
| Proxies.ProxyEntry | lib/bulk_ops/work_proxy.rb:179 | an entry is a removal exactly when the column name starts with `remove` |
| Proxies.ProxyEntries | lib/bulk_ops/work_proxy.rb:161-180 | one entry per value, in order, each value stripped |
| Proxies.FailuresSound | lib/bulk_ops/work_proxy.rb:165-169 | every reported url is a stripped value whose label cannot be fetched |
| Proxies.FailuresComplete | lib/bulk_ops/work_proxy.rb:165-169 | every value whose label cannot be fetched is reported |
| Proxies.ProxyControlledColumn | lib/bulk_ops/work_proxy.rb:126-181 | a column never raises, and adds to its property exactly the entries of its split values |
| Proxies.ProxyControlledColumns | lib/bulk_ops/work_proxy.rb:126 | one decision per cell in row order |
| Proxies.ProxyAttributes | lib/bulk_ops/work_proxy.rb:184-197 | each property's entries, deduplicated, become its attribute hashes flagged `_delete` for removals |
| Proxies.ProxyControlledShape | lib/bulk_ops/work_proxy.rb:117-200 | every attribute comes from a controlled column of its property and is flagged `_delete` exactly when that column removes |
| Proxies.EntryOrigin | lib/bulk_ops/work_proxy.rb:126-181 | every entry of a property comes from a cell whose controlled target is that property |
| Proxies.ColumnEntry | lib/bulk_ops/work_proxy.rb:179 | an added entry's removal flag is its column's |
| Proxies.FindOrCreateCollection | lib/bulk_ops/work_proxy.rb:82-87 | the found collection; otherwise none exactly for a name that reads as a positive integer, else a created one |
| Proxies.ProxyRelStep | lib/bulk_ops/work_proxy.rb:296-335 | a cell is skipped exactly when blank or a header row; a record it creates is "new", belongs to the proxy, has the normalised header as its type and takes the identifier type from a `type:` prefix |
| Proxies.CreateRecord | lib/bulk_ops/work_proxy.rb:330-334 | creating a record raises exactly as `Relationship.create` does |
| Proxies.RelationsHalted | lib/bulk_ops/work_proxy.rb:296-335 | after a raise the remaining cells change nothing |
| Proxies.ProxyRelationsCreated | lib/bulk_ops/work_proxy.rb:330-334 | every created record is "new", belongs to the proxy, has a relationship spelling as type, and comes from one of the row's cells |
| Proxies.ProxyOptionStep | lib/bulk_ops/work_proxy.rb:264-289 | a blank or header cell changes nothing; otherwise the visibility is set by its spellings, and the column raises exactly on a work type that is no constant name or a reference identifier `format_reference_id` raises on; without a raise work type and reference identifier are set exactly by their spellings (corrected `FormatReferenceId`) |
| Proxies.OptionsHalted | lib/bulk_ops/work_proxy.rb:264-290 | after a raise the remaining cells change nothing |
| RowParser.FirstIndex | lib/bulk_ops/parser.rb:58-59 | none exactly when the header is absent; otherwise the first position holding it |
| RowParser.CellByIndex | lib/bulk_ops/parser.rb:61 | reading a header gives the cell at its first position, "" when absent |
| RowParser.ValuesUnder | lib/bulk_ops/parser.rb:57-62 | a header of the row has at least one cell under it |
| RowParser.MergedColumnsHeaders | lib/bulk_ops/parser.rb:56-63 | the merged row has each header once, in order of first appearance |
| RowParser.MergedColumnsValues | lib/bulk_ops/parser.rb:57-62 | each merged header holds all the cells under it, joined by the separator in column order |
| RowParser.MergedColumnsOfDistinct | lib/bulk_ops/parser.rb:55 | with distinct headers merging gives the row back |
| RowParser.DisambiguatedIsMerge | lib/bulk_ops/parser.rb:53-64 | the guarded rebuild equals the merge in every case, and leaves a row with distinct headers unchanged |
| RowParser.BareHeaderType | lib/bulk_ops/parser.rb:266-276 | a bare `parent` header gets a nil identifier type as written and the proxy's reference identifier once corrected |
| RowParser.TypedHeader | lib/bulk_ops/parser.rb:271-273 | a `parent:id` header has type `id` under both readings |
| RowParser.UntypedRecordPending | lib/bulk_ops/parser.rb:266 | a record created with a nil identifier type and no `type:` prefix in its value never finds its object (also line 293) |
| RowParser.TargetText | lib/bulk_ops/parser.rb:293-298 | an identifier target keeps its text; only a missing row number gives nil |
| RowParser.ParserRelStepKinds | lib/bulk_ops/parser.rb:263-289 | blank, header-row and unknown cells give nothing; order and collection columns give exactly their parsed value |
| RowParser.ParserRelStepLink | lib/bulk_ops/parser.rb:290-312 | a link is a "new" record for the proxy of the header's relationship with the cell's target, naming the previous row's proxy as sibling exactly for a parent link matching the previous row |
| RowParser.ParserRelStepRaises | lib/bulk_ops/parser.rb:302-309 | raises exactly when the previous row is missing, or a sibling is called for and the previous row has no proxy |
| RowParser.ParserRelationsHalted | lib/bulk_ops/parser.rb:262-314 | after an exception the remaining columns change nothing |
| RowParser.ParserRelationsCreated | lib/bulk_ops/parser.rb:295-312 | every created record is new, for this proxy, a parent or child link of one of the row's columns, and a sibling link only on a parent |
| RowParser.ParserRelationsCollections | lib/bulk_ops/parser.rb:284-288 | every collection id added comes from a collection column that found it |
| RowParser.ParserOptionStep | lib/bulk_ops/parser.rb:231-257 | blank or header cells change nothing; otherwise the visibility is set by its spellings, and the column raises exactly on a work type that is no constant name or on a reference-identifier column, since the parser has no `format_reference_id`; without a raise the work type is set by its spellings; the reference identifier is never set |
| RowParser.ParserOptionsHalted | lib/bulk_ops/parser.rb:231-258 | after an exception the remaining columns change nothing |
| RowParser.ParserOptionsRaise | lib/bulk_ops/parser.rb:240-256 | the pass raises exactly when the row has a filled reference-identifier column or a filled work-type column that is no constant name, and never changes the reference identifier |
| RowParser.ParserEntry | lib/bulk_ops/parser.rb:124-143 | a url in a non-label column is the id; anything else is unescaped and resolved in the local authority; it removes exactly for `remove` columns |
| RowParser.ParserEntries | lib/bulk_ops/parser.rb:122-144 | one entry per value, in order, each stripped |
| RowParser.ParserControlledColumns | lib/bulk_ops/parser.rb:90-145 | one decision per cell, in row order |
| RowParser.AppendAttributes | lib/bulk_ops/parser.rb:148-155 | each property's attribute list grows by its entries, deduplicated, in order, flagged `_delete` for removals |
| RowParser.ParserEntryOrigin | lib/bulk_ops/parser.rb:90-145 | every collected entry comes from a controlled column of its property and removes exactly when that column does |
| RowParser.ParserAttributeOrigin | lib/bulk_ops/parser.rb:148-155 | every appended attribute stands for such an entry, flagged `_delete` exactly when it removes |
| RowParser.ParserAttributesDistinct | lib/bulk_ops/parser.rb:150 | the attributes appended for a property are pairwise distinct |
| RowParser.WithAdminSet | lib/bulk_ops/parser.rb:426-431 | a present admin set is kept; otherwise the ingest or default set is recorded, and raises exactly when neither exists |
| RowParser.WithInheritance | lib/bulk_ops/parser.rb:433-436 | a present value is kept; otherwise a non-blank option is copied, and nothing else changes |
| RowParser.Finished | lib/bulk_ops/parser.rb:48-49 | the parsing errors are appended to the proxy's; the status becomes "ERROR" with the parsing message exactly when there are some |
| RowParser.InterpretKeeps | lib/bulk_ops/parser.rb:33-51 | the sheet, the parsing errors and the proxy's identity are never changed; the status changes only at the end and only when there are parsing errors |
| RowParser.InterpretMetadata | lib/bulk_ops/parser.rb:33-51 | a completed run returns an admin set, keeps the earlier collections, and adds values only to uncontrolled and attributes only to controlled schema fields |
| RowParser.FilePassRaisesAsWritten | lib/bulk_ops/parser.rb:182-189 | as written every row with a cell that is neither blank nor its header repeated raises in the file pass, whatever the earlier passes did |
| RowParser.FilePassReadingsAgree | lib/bulk_ops/parser.rb:182-189 | on a row with no such cell the two readings of line 189 interpret alike |
| RowParser.Parser.constructor | lib/bulk_ops/parser.rb:25-31 | the row is the sheet's row at the proxy's number, with empty metadata and no errors |
| RowParser.Parser.DisambiguateColumns | lib/bulk_ops/parser.rb:53-64 | only the row changes, to its disambiguated form |
| RowParser.Parser.SetAdminSet | lib/bulk_ops/parser.rb:426-431 | the metadata becomes `WithAdminSet` of the old metadata, raising exactly as it says |
| RowParser.Parser.SetMetadataInheritance | lib/bulk_ops/parser.rb:433-436 | only the metadata's inheritance changes, as `WithInheritance` says |
| RowParser.Parser.ReportError | lib/bulk_ops/parser.rb:438-443 | the proxy turns "error" with the message, and exactly one error built from the keywords is kept |
| RowParser.Parser.InterpretRelationshipFields | lib/bulk_ops/parser.rb:261-315 | collection ids, proxy order, created records and raise status exactly as `ParserRelations` specifies (corrected: parser.rb:266 default type) |
| RowParser.Parser.InterpretOptionFields | lib/bulk_ops/parser.rb:230-259 | visibility and work type as `ParserOptions` specifies, raising exactly when it does |
| RowParser.Parser.CollectEntries | lib/bulk_ops/parser.rb:124-144 | the entries `ParserEntries` specifies |
| RowParser.Parser.InterpretControlledFields | lib/bulk_ops/parser.rb:81-156 | only the attributes change: each grows by its property's deduplicated entries |
| RowParser.Parser.InterpretScalarFields | lib/bulk_ops/parser.rb:158-173 | only the values change, as the escape-aware scalar fold specifies, raising exactly when it does |
| RowParser.Parser.Finish | lib/bulk_ops/parser.rb:48-49 | the proxy state becomes `Finished` of its old state and the parsing errors |
| RowParser.Parser.InterpretFileFields | lib/bulk_ops/parser.rb:182-189 | raises exactly when line 189 is read as written and some cell is neither blank nor its header repeated |
| RowParser.Parser.InterpretData | lib/bulk_ops/parser.rb:33-51 | parser, proxy and raise status exactly as the staged `Interpret` specifies; the metadata is returned unless a pass raised; as written (`FileCallAsWritten`) the file pass raises between the option and controlled passes (corrected: parser.rb:266 default type) |
| RowParser.IsFileSet | lib/bulk_ops/parser.rb:8-23 | true exactly when the row is present and either its work type says "fileset" or, with no type given, every column is a file, parent, order, title or label column (corrected: the type cell comes from the row, and the operation's `is_file_field?` is used) |
| RowParser.AllNeutral | lib/bulk_ops/parser.rb:15-22 | the column loop answers true exactly when every header of the row passes the neutral test, stopping at the first that does not (corrected: the operation's `is_file_field?` is used) |
| RowParser.FileSetAsWrittenRaises | lib/bulk_ops/parser.rb:8-11 | as written every row the corrected test calls a file set raises (`metadata.keys` on a CSV table), and where the as-written test answers it agrees with the corrected one |
| Behaviors.RunHalted | lib/concerns/interpret_options_behavior.rb:6-31 | after a column has raised, the remaining columns of a pass change nothing |
| Behaviors.RunRaises | lib/concerns/interpret_relationships_behavior.rb:5-48 | when raising depends on the column alone, a pass raises exactly when one of its columns does |
| Behaviors.LastColumn | lib/concerns/interpret_options_behavior.rb:6-31 | the last column among the given spellings, or none exactly when no column has one |
| Behaviors.ConcernOptionsLastWins | lib/concerns/interpret_options_behavior.rb:6-31 | without an exception the last visibility column decides the visibility and the last reference-identifier column the reference identifier; otherwise the proxy keeps its own; the work type never changes |
| Behaviors.ConcernOptionsRaise | lib/concerns/interpret_options_behavior.rb:17-29 | the pass raises exactly when a reference-identifier column holds a value the host's `format_reference_id` raises on (corrected: a host with `format_reference_id`) |
| Behaviors.ConcernOptionsAsWritten | lib/concerns/interpret_options_behavior.rb:29 | as written, with `BulkOps::Parser` as host, the pass raises exactly when the row has a filled reference-identifier column, and otherwise keeps the reference identifier |
| Behaviors.InterpretOptionFields | lib/concerns/interpret_options_behavior.rb:5-32 | only visibility and reference identifier change, as `ConcernOptions` specifies, raising exactly when it does (corrected: a host with `format_reference_id`) |
| Behaviors.ScalarColumnsAsWritten | lib/concerns/interpret_scalar_behavior.rb:5-18 | one decision per cell, in row order |
| Behaviors.FoldWithoutAdd | lib/concerns/interpret_scalar_behavior.rb:5-18 | a pass whose columns never add keeps its map and raises exactly when a column raises |
| Behaviors.ScalarFieldsAsWritten | lib/concerns/interpret_scalar_behavior.rb:12 | as written the scalar pass never changes the metadata and raises exactly when some column would add to it |
| Behaviors.ControlledColumnsAsWritten | lib/concerns/interpret_controlled_behavior.rb:13-68 | one decision per cell, in row order |
| Behaviors.ControlledAsWritten | lib/concerns/interpret_controlled_behavior.rb:38 | as written the controlled pass collects nothing and raises on every row with a column the corrected pass would import (also line 43) |
| Behaviors.ConcernEntry | lib/concerns/interpret_controlled_behavior.rb:48-66 | no caption; removes exactly for a `remove` or `delete` column |
| Behaviors.ConcernEntryAsParser | lib/concerns/interpret_controlled_behavior.rb:48-66 | the concern and the parser give a value the same id; only a `delete` column removes in one and not the other |
| Behaviors.ConcernEntries | lib/concerns/interpret_controlled_behavior.rb:45-67 | one entry per value, in order, each stripped |
| Behaviors.ConcernControlledColumns | lib/concerns/interpret_controlled_behavior.rb:13-68 | one decision per cell, in row order |
| Behaviors.MergeControlled | lib/concerns/interpret_controlled_behavior.rb:71-77 | every property's list becomes its merged list |
| Behaviors.ConcernEntryOrigin | lib/concerns/interpret_controlled_behavior.rb:13-68 | every collected entry comes from a controlled column of its property, removing exactly when that column's name starts with `remove` or `delete` |
| Behaviors.ConcernAttributeOrigin | lib/concerns/interpret_controlled_behavior.rb:64-66 | each datum is flagged `_destroy` exactly when its column removes |
| Behaviors.ConcernMergeDistinct | lib/concerns/interpret_controlled_behavior.rb:73-76 | a list with at most one attribute per id keeps that after the merge |
| Behaviors.ConcernMergeLastWins | lib/concerns/interpret_controlled_behavior.rb:73-76 | a merged attribute is the last datum with its id, or an old attribute whose id no datum carries |
| Behaviors.ConcernMergeKeepsData | lib/concerns/interpret_controlled_behavior.rb:73-76 | every collected entry's id is in the merged list |
| Behaviors.CollectConcernEntries | lib/concerns/interpret_controlled_behavior.rb:45-67 | the entries `ConcernEntries` specifies |
| Behaviors.MergeList | lib/concerns/interpret_controlled_behavior.rb:73-76 | the list the reject-then-append merge specifies |
| Behaviors.MergeControlledAdd | lib/concerns/interpret_controlled_behavior.rb:71-77 | merging one more property changes only that property's list |
| Behaviors.MergeInto | lib/concerns/interpret_controlled_behavior.rb:71-77 | the merge of every property, whatever order the hash yields them in |
| Behaviors.InterpretControlledFields | lib/concerns/interpret_controlled_behavior.rb:4-78 | only the attributes change: each becomes its merge with the property's collected entries |
| Behaviors.ParentRowAsParser | lib/concerns/interpret_relationships_behavior.rb:85-100 | the concern addresses the same row as the parser's reading of a `row` value |
| Behaviors.FindParentProxy | lib/concerns/interpret_relationships_behavior.rb:68-114 | a nil type raises; under `id` a missing record gives false and a found one its proxy; `proxy_id` and `row` look the proxy up |
| Behaviors.SplitParentValue | lib/concerns/interpret_relationships_behavior.rb:32-35 | a value not in two parts keeps the default type; one in two parts names its type |
| Behaviors.SplitTwice | lib/concerns/interpret_relationships_behavior.rb:32 | two separators in a row leave an empty middle part |
| Behaviors.ParentValueAsWritten | lib/concerns/interpret_relationships_behavior.rb:32 | as written "id:s8df4j32w" splits into three parts, so the cell keeps the default type and its whole text |
| Behaviors.ParentValueCorrected | lib/concerns/interpret_relationships_behavior.rb:32 | with the intended class the same cell gives type `id` and `s8df4j32w` |
| Behaviors.ParentValueTyped | lib/concerns/interpret_relationships_behavior.rb:32-35 | with the intended class any `type:value` without separators in its parts splits into the two |
| Behaviors.CollectionFor | lib/concerns/interpret_relationships_behavior.rb:116-126 | the found collection, otherwise a newly created one |
| Behaviors.RelKind | lib/concerns/interpret_relationships_behavior.rb:6-18 | a relationship kind, when there is one, is a known relationship spelling |
| Behaviors.ConcernRelationsRaise | lib/concerns/interpret_relationships_behavior.rb:30-46 | the pass raises exactly when one of its parent columns does (corrected: `collection?` and `ordered_children` answered for the parent proxy) |
| Behaviors.ConcernRelationsParent | lib/concerns/interpret_relationships_behavior.rb:36-45 | a changed parent is a non-collection proxy some parent column named; a set previous sibling is never overwritten, and a new one is the last child of such a parent (corrected: `collection?` and `ordered_children` answered for the parent proxy) |
| Behaviors.ConcernRelationsAsWrittenRaise | lib/concerns/interpret_relationships_behavior.rb:37 | as written the pass raises exactly when the row has a parent column, whenever the corrected pass raises and more |
| Behaviors.ConcernRelationsAsWrittenAgree | lib/concerns/interpret_relationships_behavior.rb:5-48 | on a row without a parent column the written and corrected passes agree |
| Behaviors.CollectionsIn | lib/concerns/interpret_relationships_behavior.rb:25-29 | at most one collection per column |
| Behaviors.ConcernRelationsCollections | lib/concerns/interpret_relationships_behavior.rb:25-29 | without an exception each collection column appends its collection, in column order, after the existing ids (also lines 53-56) |
| Behaviors.InterpretRelationshipFields | lib/concerns/interpret_relationships_behavior.rb:4-49 | order, parent, previous sibling and collections as `ConcernRelations` specifies, raising exactly when it does (corrected: `collection?` and `ordered_children` answered for the parent proxy) |
| Operations.LastDigit | lib/bulk_ops/operation.rb:16-17 | the value of `name[-1].to_i` is a single digit |
| Operations.NextNameWeighsMore | lib/bulk_ops/operation.rb:15-21 | every renaming makes the name heavier, so no round returns to a name already tried |
| Operations.RenamedDistinct | lib/bulk_ops/operation.rb:15-21 | the names tried are pairwise different |
| Operations.NextNameAppends | lib/bulk_ops/operation.rb:18-19 | a name not ending in a separator and a non-zero digit gets `_1` appended |
| Operations.NextNameIncrements | lib/bulk_ops/operation.rb:16-17 | a name ending in a separator and a digit below 9 has its digit incremented |
| Operations.UniqueName | lib/bulk_ops/operation.rb:14-23 | the result is free, a free name is kept, and the result is the first free name of the renaming sequence |
| Operations.FirstWhere | lib/bulk_ops/operation.rb:125 | the first record satisfying the test, or none exactly when no record does (also line 189) |
| Operations.StagesExclusive | lib/bulk_ops/operation.rb:298-308 | no stage is two of draft, running and complete; running means "running" or "finishing" |
| Operations.AnyWithStatusSpec | lib/bulk_ops/operation.rb:311-313 | true exactly when some proxy's status, lower-cased, is the one given |
| Operations.BusySpec | lib/bulk_ops/operation.rb:310-315 | busy exactly when some proxy's status is, ignoring case, running, queued or starting |
| Operations.OperationWorkType | lib/bulk_ops/operation.rb:49-51 | the configured work type, else "work" |
| Operations.OperationReferenceIdentifier | lib/bulk_ops/operation.rb:53-55 | the configured reference identifier, else "id/row" |
| Operations.WithStatusSpec | lib/bulk_ops/operation.rb:35-39 | a proxy is in the bucket of a status exactly when it has that status |
| Operations.WithStatusNone | lib/bulk_ops/operation.rb:37 | a status no proxy has gets an empty bucket |
| Operations.KeptProxies | lib/bulk_ops/operation.rb:100 | exactly the complete proxies with a work id survive |
| Operations.RowNumbers | lib/bulk_ops/operation.rb:101 | one row number per proxy, in order |
| Operations.RowsFrom | lib/bulk_ops/operation.rb:101 | the rows below the sheet's length not done, each once, in increasing order |
| Operations.CreatedShape | lib/bulk_ops/operation.rb:108-119 | the created proxies are "new" records with fresh consecutive ids, each for a row not skipped |
| Operations.CreatedCoversRow | lib/bulk_ops/operation.rb:108-119 | a row not skipped gets a created proxy |
| Operations.CreatedSpec | lib/bulk_ops/operation.rb:108-119 | one "new" proxy with a fresh consecutive id for each row not skipped, and none for a skipped row |
| Operations.KeptMisses | lib/bulk_ops/operation.rb:100-101 | no kept proxy stands for an incomplete row |
| Operations.IncompleteRowProxy | lib/bulk_ops/operation.rb:101-119 | after the creation loop an incomplete row has a proxy exactly when it was not skipped |
| Operations.FoundIffCreated | lib/bulk_ops/operation.rb:125 | a row no kept proxy stands for is found exactly when it was not skipped |
| Operations.IncompleteRowIsNew | lib/bulk_ops/operation.rb:125 | the proxy an incomplete row is found with is the "new" record made for it |
| Operations.ContextKeeps | lib/bulk_ops/operation.rb:127 | an interpretation keeps the record's row, work id and errors |
| Operations.ApplyRowRecords | lib/bulk_ops/operation.rb:124-133 | a round keeps every record's id, row, work id and errors |
| Operations.ApplyRowJobs | lib/bulk_ops/operation.rb:128-133 | a round queues at most one job, a work job for the proxy of its row, and only when that proxy has no errors |
| Operations.ApplyRowsJobs | lib/bulk_ops/operation.rb:123-134 | the queue only grows, and every new job is for an error-free proxy of one of the rows |
| Operations.ProxyTable | lib/bulk_ops/operation.rb:100-119 | after creation the table is the kept proxies then "new" records for the rows not skipped |
| Operations.PreparedTable | lib/bulk_ops/operation.rb:93-121 | the finished proxies, and only they, survive; every other proxy is a "new" record of a pending row that is neither blank nor a file set (corrected creation loop) |
| Operations.PreparedRows | lib/bulk_ops/operation.rb:100-119 | the pending rows are those no finished proxy stands for; such a row gets a proxy exactly when it is neither blank nor a file set (corrected creation loop) |
| Operations.PendingProxyIsNew | lib/bulk_ops/operation.rb:123-125 | a pending row's proxy is never a finished one |
| Operations.ApplyQueuesOnlyNew | lib/bulk_ops/operation.rb:92-137 | every job added is a work job for an error-free "new" proxy of a pending row, and the earlier jobs are kept |
| Operations.FirstRoundFails | lib/bulk_ops/operation.rb:125-127 | as written the second loop raises at its first row on any table where a pending row is found exactly when not skipped: nil for a skipped row, the constructor's arity otherwise |
| Operations.ApplyAsWrittenFails | lib/bulk_ops/operation.rb:92-127 | as written `apply!` raises exactly when a row is pending, creating no proxy and queueing no job: at the first pending row that is not blank (in `is_file_set?`), or, with every pending row blank, at the first one (no proxy found) |
| Operations.FirstFilledRow | lib/bulk_ops/operation.rb:108-111 | the first pending row that is not blank is one `is_file_set?` raises on, and every pending row before it is blank |
| Operations.PendingRowUnkept | lib/bulk_ops/operation.rb:100-101 | no finished proxy stands for a pending row |
| Operations.SecondLoopAsWrittenFails | lib/bulk_ops/operation.rb:123-127 | with the creation loop corrected, the second loop as written still raises at the first pending row: nil for a blank or file-set row, the constructor's arity otherwise |
| Operations.CreateProxies | lib/bulk_ops/operation.rb:108-119 | the table grows by a "new" proxy for every row not blank and not a file set, with fresh consecutive ids (corrected creation loop) |
| Operations.PrepareTable | lib/bulk_ops/operation.rb:100-119 | the pending rows, the prepared table and the next free id (corrected creation loop) |
| Operations.SkipRow | lib/bulk_ops/operation.rb:110-111 | a row is skipped exactly when blank, or else a file set (corrected creation loop) |
| Operations.ApplyPending | lib/bulk_ops/operation.rb:123-134 | the table, jobs and raise status of the apply rounds, stopped at an exception |
| Operations.WorkIdHeaderMissedSpaced | lib/bulk_ops/operation.rb:185 | as written "Work ID" is not a work-id header, though the corrected test accepts it |
| Operations.WorkIdHeaderMissedUnderscored | lib/bulk_ops/operation.rb:185 | as written "work_id" is not one either |
| Operations.MissedSeparated | lib/bulk_ops/operation.rb:185 | "work", one separator other than a dash, then "id" is a work-id header only for the corrected test |
| Operations.AsWrittenKeeps | lib/bulk_ops/operation.rb:185 | the as-written substitution leaves a string without `-_` unchanged |
| Operations.WorkIdHeaderIgnoresSeparator | lib/bulk_ops/operation.rb:185 | the corrected test ignores a separator anywhere in the header |
| Operations.LastValueSpec | lib/bulk_ops/operation.rb:185 | none exactly when no column matches; otherwise the value of the last matching column |
| Operations.WorkIdOfSpec | lib/bulk_ops/operation.rb:184-185 | a row has a work id exactly when some column is a work-id column and the last such cell is not empty (nil), and it is that cell's value (corrected `WorkIdHeader`) |
| Operations.Without | lib/bulk_ops/operation.rb:190 | every occurrence of the id is removed and nothing else (corrected: snapshot reading of `work_proxies.dup`) |
| Operations.Ids | lib/bulk_ops/operation.rb:180 | one id per proxy, in order |
| Operations.UpdateRowsRaises | lib/bulk_ops/operation.rb:182-201 | the first loop raises exactly when some row has no work id, which with `WorkIdOf` means no work-id column or an empty last work-id cell |
| Operations.UpdateRowsTable | lib/bulk_ops/operation.rb:182-201 | drafts are kept, unmatched rows add "queued" proxies, and the abandoned list only shrinks (corrected: snapshot reading of `work_proxies.dup`) |
| Operations.Survivors | lib/bulk_ops/operation.rb:204-207 | exactly the proxies whose ids are not abandoned, in table order (corrected: snapshot reading of `work_proxies.dup`) |
| Operations.QueuedSurvive | lib/bulk_ops/operation.rb:196-207 | every "queued" proxy of the first loop survives the destruction (corrected: snapshot reading of `work_proxies.dup`) |
| Operations.DraftsSurviveUpdating | lib/bulk_ops/operation.rb:189-207 | a draft survives only when some row matched it, and is then "updating" (corrected: snapshot reading of `work_proxies.dup`) |
| Operations.UpdateRowsAsWrittenDetaches | lib/bulk_ops/operation.rb:180-207 | as written, with the drafts' work ids distinct: every proxy the operation owns after the first loop is a draft or "queued", and, unless the loop raised, none carries a row's work id, so matched drafts are detached and line 204 destroys every queued proxy |
| Operations.UpdateRowsRaisesAsWritten | lib/bulk_ops/operation.rb:182-201 | as written the first loop raises exactly when some row has no work id, as under the snapshot reading |
| Operations.ApplyUpdateAsWrittenExample | lib/bulk_ops/operation.rb:180-207 | one draft with work id "w" and rows naming "w" and "v": the snapshot reading keeps the "updating" draft and a new "queued" proxy; as written only the queued proxy is left, for line 204 to destroy |
| Operations.DraftUpdating | lib/bulk_ops/operation.rb:189-193 | a draft whose id left the abandoned list is the proxy set "updating" |
| Operations.UpdateJobsSpec | lib/bulk_ops/operation.rb:210-217 | exactly one update job per proxy, in table order, until an exception; the proxies keep their ids |
| Operations.UpdateJobsHalted | lib/bulk_ops/operation.rb:210-217 | after an exception the remaining proxies queue nothing |
| Operations.UpdateJobsAhead | lib/bulk_ops/operation.rb:210-211 | a round of the job loop changes only the proxy it interprets |
| Operations.UpdateJobsStopAt | lib/bulk_ops/operation.rb:210-217 | a survivor whose interpretation raises ends the job loop, with no job queued for it or after it |
| Operations.UpdateJobsFileCallRaises | lib/bulk_ops/operation.rb:211 | as written the job loop of `apply_update!` raises at the first survivor whose row has a cell the file pass calls on (also parser.rb:189) |
| Operations.AllProxyErrorsEmpty | lib/bulk_ops/operation.rb:25-33 | the accumulated errors are empty exactly when every proxy has none (also lines 221-224) |
| Operations.ReloadedHasNoErrors | lib/bulk_ops/work_proxy.rb:14 | a reloaded proxy table holds no errors, since `proxy_errors` is an accessor and not a column (also lines 55-57) |
| Operations.FindWorkId | lib/bulk_ops/operation.rb:184-185 | the work id `WorkIdOf` specifies: the last work-id cell's value, nil for an empty one (corrected `WorkIdHeader`) |
| Operations.ReconcileRow | lib/bulk_ops/operation.rb:183-200 | one row of the reconciliation as `UpdateRows` specifies (corrected `WorkIdHeader`) |
| Operations.Reconcile | lib/bulk_ops/operation.rb:182-201 | the state of the reconciliation over every row (corrected `WorkIdHeader`) |
| Operations.QueueUpdates | lib/bulk_ops/operation.rb:210-217 | the jobs `UpdateJobs` specifies |
| Operations.ResolvePending | lib/bulk_ops/operation.rb:145-152 | raises exactly when resolving some pending record raises; otherwise every record is pending or complete |
| Operations.SaveAll | lib/bulk_ops/operation.rb:154-161 | raises exactly when some proxy has no work id or its work cannot be found |
| Operations.Operation.constructor | lib/bulk_ops/operation.rb:3-10 | a loaded operation with its proxy table, no sheet and no jobs |
| Operations.Operation.ProxyStates | lib/bulk_ops/operation.rb:35-39 | one bucket per occurring status, holding exactly the proxies with that status in table order |
| Operations.Operation.DestroyAllProxies | lib/bulk_ops/operation.rb:84-90 | the table is emptied, the stage is "waiting" and the status "reverted changes" |
| Operations.Operation.CheckIfFinished | lib/bulk_ops/operation.rb:139-167 | nothing changes unless running and not busy; then it raises exactly when a resolution or save raises, and otherwise the stage is "complete", since the reloaded proxies carry no errors |
| Operations.Operation.Prepare | lib/bulk_ops/operation.rb:92-121 | the pending rows and the prepared table `Prepared` specifies (corrected creation loop) |
| Operations.Operation.Apply | lib/bulk_ops/operation.rb:92-137 | the prepared table, then the rounds `ApplyRows` specifies, raising exactly when they do (corrected creation loop and rounds) |
| Operations.Operation.ApplyUpdate | lib/bulk_ops/operation.rb:177-219 | the state and raise status `Updated` specifies (corrected `WorkIdHeader`; corrected: snapshot reading of `work_proxies.dup`), the file pass raising when `env.filePass` reads it as written |
| VerifyWorks.CheckOf | lib/bulk_ops/verify_works_job.rb:159-161 | a check found for an id has that id |
| VerifyWorks.CheckOfId | lib/bulk_ops/verify_works_job.rb:122-157 | each check is listed once, at the position its id gives |
| VerifyWorks.IdInjective | lib/bulk_ops/verify_works_job.rb:122-157 | different checks have different ids |
| VerifyWorks.TestsOrdered | lib/bulk_ops/verify_works_job.rb:122-157 | the table lists every check, in increasing id order |
| VerifyWorks.TestsDistinct | lib/bulk_ops/verify_works_job.rb:122-157 | the table lists no check twice |
| VerifyWorks.Select | lib/bulk_ops/verify_works_job.rb:168 | a selection is no longer than what it selects from |
| VerifyWorks.SelectSpec | lib/bulk_ops/verify_works_job.rb:168 | a check is selected exactly when it is listed and passes the test; a list without repetitions gives a selection without them |
| VerifyWorks.BitOfAddPow | lib/bulk_ops/verify_works_job.rb:168 | adding `2**j` to a number whose bit `j` is clear sets that bit and no other |
| VerifyWorks.CodeBits | lib/bulk_ops/verify_works_job.rb:168 | for checks listed once the sum of their powers of two has exactly their ids' bits set |
| VerifyWorks.SelectionBits | lib/bulk_ops/verify_works_job.rb:168 | the code of any selection has bit `id(c)` set exactly for the selected checks, and no other bit |
| VerifyWorks.ResultCodeBits | lib/bulk_ops/verify_works_job.rb:163-170 | the stored code has bit `id(c)` set exactly for the checks the document failed |
| VerifyWorks.BinCodeBits | lib/bulk_ops/verify_works_job.rb:58 | position `i` of the reversed binary text holds bit `i`, and every bit past its end is clear |
| VerifyWorks.DigitAtBit | lib/bulk_ops/verify_works_job.rb:59 | `bin_code[i].to_i` is non-zero exactly when bit `i` is set, also past the end |
| VerifyWorks.ErrorsOfSpec | lib/bulk_ops/verify_works_job.rb:59 | the fold lists the messages of exactly the checks whose bit is set, in table order |
| VerifyWorks.InterpretErrorCodeSpec | lib/bulk_ops/verify_works_job.rb:57-60 | the messages of exactly the checks whose bit is set, in table order |
| VerifyWorks.EncodeDecode | lib/bulk_ops/verify_works_job.rb:57-60 | decoding the code of any selection gives back that selection's messages (also line 168) |
| VerifyWorks.ResultCodeDecodes | lib/bulk_ops/verify_works_job.rb:57-60 | the report lists for a stored code the messages of exactly the checks the document failed (also lines 163-170) |
| VerifyWorks.WorkChecksNeverFailAsWritten | lib/bulk_ops/verify_works_job.rb:174 | as written no check limited to works can fail |
| VerifyWorks.ParentIndexingSkippedAsWritten | lib/bulk_ops/verify_works_job.rb:174 | a work its parent does not list fails check 9 once corrected, but not as written |
| VerifyWorks.FilesetPermissionsAlwaysFailsAsWritten | lib/bulk_ops/verify_works_job.rb:282 | as written every document whose object matches fails `fileset_permissions` |
| VerifyWorks.FilesetPermissionsProbed | lib/bulk_ops/verify_works_job.rb:281-285 | corrected, `fileset_permissions` fails exactly when the object differs or the visibility probe fails |
| VerifyWorks.ControlledIndexingFailsOnlyByRaising | lib/bulk_ops/verify_works_job.rb:208-213 | `controlled_metadata_indexing` records its bit only when the object differs or a lookup raises, since the `all?` block's array is always truthy |
| VerifyWorks.PlaceIds | lib/bulk_ops/verify_works_job.rb:63 | filing an id touches only the group of its code, or adds that group at the end |
| VerifyWorks.GroupsSpec | lib/bulk_ops/verify_works_job.rb:63 | one group per distinct code, in first-occurrence order, each holding exactly the ids with its code in order |
| VerifyWorks.KeysWithAbsent | lib/bulk_ops/verify_works_job.rb:63 | no id has a code no group carries |
| VerifyWorks.RenderStep | lib/bulk_ops/verify_works_job.rb:66-74 | writing one more group adds its lines, unless its code is 0 |
| VerifyWorks.SectionsSpec | lib/bulk_ops/verify_works_job.rb:67 | a group is a section exactly when its code is not 0 |
| VerifyWorks.KeysWithSpec | lib/bulk_ops/verify_works_job.rb:63 | an id is listed for a code exactly when that is its code |
| VerifyWorks.ReportSpec | lib/bulk_ops/verify_works_job.rb:62-77 | no section for code 0, one per other occurring code, and each id listed exactly in its code's section |
| VerifyWorks.SectionsOrdered | lib/bulk_ops/verify_works_job.rb:66-67 | sections keep the groups' order, so their codes stay distinct |
| VerifyWorks.VerifyWorksJob.constructor | lib/bulk_ops/verify_works_job.rb:10 | the job starts with no data |
| VerifyWorks.VerifyWorksJob.RunTests | lib/bulk_ops/verify_works_job.rb:163-170 | the document's result code is stored under its id, and a new id goes after the others (corrected: the code is `ResultCode`, not `ResultCodeAsWritten`) |
| VerifyWorks.VerifyWorksJob.VerifyWork | lib/bulk_ops/verify_works_job.rb:109-115 | an id already checked changes nothing; any other gets its result code (corrected: the code is `ResultCode`, not `ResultCodeAsWritten`) |
| VerifyWorks.VerifyWorksJob.VerifyCollection | lib/bulk_ops/verify_works_job.rb:97-103 | the same skip and store for a collection's document (corrected: the code is `ResultCode`, not `ResultCodeAsWritten`) |
| VerifyWorks.VerifyWorksJob.GenerateReport | lib/bulk_ops/verify_works_job.rb:62-77 | the lines of the code-0-free sections of the grouped ids, in group order |
| Spreadsheet.ReadQuotedShorter | lib/bulk_ops/create_spreadsheet_job.rb:38-40 | reading a quoted field always consumes input, so the record reader terminates |
| Spreadsheet.ReadEscaped | lib/bulk_ops/create_spreadsheet_job.rb:38-39 | a reader following section 2 rule 7 of RFC 4180 reads a doubled-quote escaped text and its closing quote back as the original text |
| Spreadsheet.ParseOne | lib/bulk_ops/create_spreadsheet_job.rb:39 | a single quoted cell reads back as its text |
| Spreadsheet.ParseCons | lib/bulk_ops/create_spreadsheet_job.rb:39-40 | a quoted cell, a comma and a readable rest read back as the cell's text before the rest's fields |
| Spreadsheet.ParseQuoted | lib/bulk_ops/create_spreadsheet_job.rb:38-40 | any list of texts, quoted and comma-joined, reads back as exactly that list |
| Spreadsheet.JoinHead | lib/bulk_ops/create_spreadsheet_job.rb:40 | a join whose first part is non-empty is non-empty |
| Spreadsheet.EscapeConcat | lib/bulk_ops/create_spreadsheet_job.rb:38 | escaping distributes over concatenation |
| Spreadsheet.EscapedTextsAll | lib/bulk_ops/create_spreadsheet_job.rb:35-38 | escaping each value's text equals escaping the texts |
| Spreadsheet.EscapeJoin | lib/bulk_ops/create_spreadsheet_job.rb:38-39 | joining escaped texts with a quote-free separator equals escaping the joined text |
| Spreadsheet.CellsSpec | lib/bulk_ops/create_spreadsheet_job.rb:28-40 | the cells exist exactly when the work has every field's attribute, and are then the quoted cell texts |
| Spreadsheet.WorkToCsvSpec | lib/bulk_ops/create_spreadsheet_job.rb:20-41 | no line exactly for an empty id or a work not found; raises exactly when a field's attribute is missing; a line reads back under RFC 4180 as the separator-joined values of each field |
| Spreadsheet.LabelColumn | lib/bulk_ops/create_spreadsheet_job.rb:29-33 | a `<name>_label` column reads attribute `name` through labels; a column without "label" reads its own attribute |
| Spreadsheet.LinesSnoc | lib/bulk_ops/create_spreadsheet_job.rb:8-12 | one more work id adds its line, if it has one |
| Spreadsheet.WriteSheet | lib/bulk_ops/create_spreadsheet_job.rb:7-12 | raises exactly when some work raises; otherwise the header then the works' lines, each after a CRLF |
| Spreadsheet.Perform | lib/bulk_ops/create_spreadsheet_job.rb:5-16 | raises exactly when some work raises; otherwise the comma-joined fields then every found work's line, CRLF-separated |
| Spreadsheet.LinesSpec | lib/bulk_ops/create_spreadsheet_job.rb:8-12 | a line is in the sheet exactly when some work id serialises to it |

## Left out

- The uploads and removals of the file pass are left out: what `interpret_file_fields` does after its `is_file_field?` call, `get_removed_filesets`, `delete_file_set` and the files concern. They act on uploaded files and Hyrax file sets, and they name undefined variables (`file_set_id`, `filename`). Whether the pass raises at its `is_file_field?` call (parser.rb:189) is modelled (`RowParser.Parser.InterpretFileFields`, the `filePass` field of the parse context). Past that call the corrected reading is taken not to raise, although its removal branch names an undefined `file_set_id`. The proxy's own copy of the pass (work_proxy.rb:219-261) is modelled up to its raising calls (`Proxies.WorkProxy.InterpretFileFields`): as written an added file raises at `get_file_paths` (the undefined `BulkOps::Operation::INGEST_MEDIA_PATH`, verification.rb:59) when it would have a path, and a removed one raises because `get_removed_filesets` calls the proxy's `record_exists?`, which takes no argument (work_proxy.rb:434), with one.
- `connect_existing_work` and `find_work_id_from_unique_metadata` are left out. They are a Solr query whose answer decides the work id.
- Repository, Solr, authority, collection and schema lookups are parameters, not models. This covers `SolrDocument.find`, `ActiveFedora::Base.find`, `Qa` local authority search and mint, `Collection.create`, `schema.get_field` and `Work.attribute_names` (`Services`, `Lookups`, `Repository`, `Schema`).
- The corrected `Parser.is_file_set?` takes the row's work-type cell as a parameter (`typeCellAt`). Its column loop is modelled in `RowParser.IsFileSet`. As written it raises on the table `apply!` passes (see Findings, `RowParser.FileSetAsWritten`).
- `titleize`, `underscore`/`humanize` and `const_defined?` are functions of the schema. Only the `NameError` of `const_defined?` on a name that is no constant name is modelled (`IsConstantName`). `URI::regexp` and the unanchored `=~` are the predicates `isUrl`/`hasUrl`. The UTF-8 re-encoding of scalar values is the identity.
- Text is ASCII. `downcase`, `strip` and `parameterize` are modelled only on that range.
- Timestamps are a `now` string parameter. Messages whose text embeds the time or the user's name carry it as a parameter.
- `report_errors!`, `notify!` (operation.rb), `notify` (verification.rb:25-32), the git store and its branches (`create_branch`, `delete_branch`, `final_spreadsheet`, `load_options`), Tempfile writes and mail are left out. `write_errors!` is modelled as returning the ordered sections of the report.
- `lift_hold`/`place_hold` are empty in the source, so their calls change nothing and are not modelled.
- `destroy_all_works` and `destroy_all_works_and_proxies` are left out. They delete works in the repository (and read an undefined `work_id`).
- Logging (`puts`, `log`) is left out.
- The git-backed operation helpers (`create_pull_request`, `finalize_draft`, `get_spreadsheet`, `update_spreadsheet`, `update_options`, `create_new_spreadsheet`, `default_metadata_fields`) are left out. They read and write the spreadsheet store.
- Background jobs are left out. A queued job is an entry appended to `jobs`. What the job later does to a proxy's status is outside the model.
- Relationship records created during interpretation are not kept in a table. Each is resolved on creation (`Relationships.Create`), and the model keeps only its outcome.
- `Operations.SkipRow`: `values.to_s.gsub(',','').blank?` is modelled as every cell being blank. This ignores a cell whose CSV text would need quotes.
- A nil cell is modelled as the empty string. `blank?`, `join` and `empty?` treat the two alike. The work-id test of `apply_update!` (operation.rb:186) does not: nil is falsy there while `""` is truthy. So `WorkIdOf` reads an empty cell as nil.
- WorkIdOf: a quoted `""` work-id cell, which the CSV reader gives as an empty string rather than nil, does not raise in the code. The model cannot tell it from an empty cell and makes it raise.
- `rescue` clauses that record an operation error raise again, and are modelled as raising; the operation error list is not modelled. At operation.rb:150 the arguments name the undefined `proxy` and `relationship` (NameError). At lines 159 and 186 `BulkOps::Error.new` gets the type positionally, while `initialize` takes keywords only (error.rb:7), so it raises ArgumentError before `<<` runs.
- `proxy_errors` is taken to be never nil. Its nil branch (`job_error`, `operation.rb:29-30`) is unreachable, because the accessor defaults it to `[]`.
- The `|| "Work"` fallbacks in job submission are left out. They never apply once the work type is set.
- `VerifyWorksJob#perform` is left out: the Solr scan over collections and works, the reset of `@data` after recovering it, the undefined `work` at line 35, logging, JSON persistence and mail. The model starts from an empty `@data` and feeds documents to `verify_work`/`verify_collection`.
- `get_test` is left out. It calls `test.id` on a hash, and no path reaches it with an integer.
- The bodies of `fileset_indexing` and `primary_image_indexing` are modelled as they read: the first is undefined, so sending it raises and fails; the second's undefined `representative_id` is rescued, so an image fails. Both checks are limited to works, so as written the `@Object` test at verify_works_job.rb:174 skips them as passed (`ResultCodeAsWritten`). They can fail only under the corrected `RunTest`.
- The repository probes of the other checks are an oracle of the document (`Doc.probe`). For `controlled_metadata_indexing` only whether the probe raised is used.
- `Spreadsheet.Perform`: the Tempfile, the `GithubAccess` upload and the unlink are left out. The result is the file's content.
- `Spreadsheet.Value`: only `String`, `DateTime` and id-bearing objects are modelled. `fetch_remote_label` is taken to return a string.
- `Spreadsheet.WorkToCsv`: `Work.find` failures other than not-found are not modelled. A missing attribute is modelled as an exception.
- FormatWorktype: a constant name is taken to be an ASCII capital followed by ASCII letters, digits and underscores. Ruby also accepts a capital outside ASCII and a `::` path, which `titleize` does not produce.
- ProxyOptionStep: uses the corrected `FormatReferenceId`. As written, every reference-identifier value but "id" raises (`FormatReferenceIdAsWritten`).
- InterpretOptionFields: the proxy's method uses the same corrected `FormatReferenceId`. The concern's method is the corrected half for a host that has `format_reference_id`. `BulkOps::Parser`, the class the concern is written for, has none, so as written it raises on every filled reference-identifier column (`ConcernOptionsAsWritten`).
- ConcernOptionsRaise: the corrected half for a host with `format_reference_id`; as written, with `NoFormatReferenceId`, see `ConcernOptionsAsWritten`.
- ConcernRelationsRaise: the corrected half. What `collection?` and `ordered_children` answer for the parent proxy is a lookup (`Lookups`). As written they are sent to the parent `find_parent_proxy` returns, a `WorkProxy` (or `false`), which defines neither, so every filled parent column raises `NoMethodError` at line 37 (`ConcernRelationsAsWritten`, `ConcernRelationsAsWrittenRaise`).
- ConcernRelationsParent: the same corrected reading; as written no parent column sets a parent.
- InterpretRelationshipFields: the concern's method is the same corrected half. The parser's method uses the corrected default type of parser.rb:266 (`RelationshipHeader`, not `RelationshipHeaderAsWritten`).
- InterpretData: the parser's method uses the corrected default type of parser.rb:266. The proxy's method models the file pass only up to the calls that raise. It takes the id of the default admin set that `find_or_create_default_admin_set_id` creates (work_proxy.rb:44), but the creation itself is not recorded in the repository model. Under the corrected reading (`FilesCorrected`) the uploads to `metadata[:uploaded_files]` and the file-set deletions are not modelled.
- `Proxies.WorkProxy.InterpretRelationshipFields`: the `order` column is modelled as an optional number `value.to_f`, without floating-point rounding.
- WriteErrors: `sort!` at error.rb:25 is not stable, so the order of the errors within a kind, and with it the "first error" a truncated section shows, is unspecified. The model keeps the input order. It also leaves out that `sort!` reorders the caller's list in place.
- ReportSections: states each kind's section over the errors of that kind in input order; the code fixes no such order (error.rb:25).
- OfKind: keeps the input order within a kind, which the unstable `sort!` does not promise.
- Report: renders each kind's errors in input order, for the same reason.
- GetFilePaths: the corrected half. As written, line 59 reads `BulkOps::Operation::INGEST_MEDIA_PATH` and raises NameError on every cell with a filename (`GetFilePathsAsWritten`).
- FilePathsShape: describes the paths of the corrected `get_file_paths`; as written no path is produced.
- HeaderErrors: the corrected half. As written, line 123 raises NameError at the first header that is neither blank nor a label (`HeaderRaiseAsWritten`).
- HeaderErrorsComplete: the same corrected reading of line 123.
- CellsFileErrors: the corrected reading of `get_file_paths`. As written, a row with a filled file cell raises.
- FileErrors: the same corrected reading.
- CellsFileErrorsComplete: the same corrected reading.
- FileErrorsComplete: the same corrected reading.
- CollectRowFileErrors: the same corrected reading. As written, the loop stops with NameError at the first filled file cell.
- VerifyColumnHeaders: the corrected half; the as-written method is `Verifier.VerifyColumnHeadersAsWritten`.
- VerifyFiles: the corrected reading of `get_file_paths`.
- Verify: the corrected half, with two corrections: the constants read from `BulkOps`, and the rows of `verify_internal_references` enumerated with `each_with_index` (verification.rb:191 splats each row and raises). The as-written method is `Verifier.VerifyAsWritten`. The hash passed positionally to `BulkOps::Error.new` at verification.rb:203 and 208 is taken as keywords, as Ruby 2 does (Ruby 3 raises ArgumentError there). Both leave out three things. The branch for a sheet without headers (verification.rb:112-114) names an undefined `column_name` and is not modelled: a sheet always has a header list. The `update(message:)` progress writes are dropped. `operation_type` (line 15) is read as a parameter, though migration 20200122234235 removes that column.
- ParserRelStepLink: the model assumes a relationships table with a `previous_sibling` column, as parser.rb:309-312 is written against. Migration 20181017180436 creates the table without that column, so `Relationship.create` with a sibling would raise an unknown-attribute error there. Migration 20200122234235 drops the table altogether.
- Create: assumes the same relationships table, which the migrations first create without `previous_sibling` and later drop.
- IsFileSet: the corrected half. As written, `metadata.keys` raises at parser.rb:11 on the CSV table `apply!` passes, and line 17 makes the same module call as the file pass.
- AllNeutral: the corrected loop; as written, it is never reached (line 11 raises first).
- PreparedTable: the corrected creation loop. As written, the loop raises at the first pending row that is not blank (`ApplyAsWrittenFails`).
- PreparedRows: the same corrected creation loop.
- CreateProxies: the same corrected creation loop.
- PrepareTable: the same corrected creation loop.
- SkipRow: the corrected classification. As written, a row that is not blank is never classified; `is_file_set?` raises on it.
- Prepare: the corrected creation loop.
- Apply: the corrected creation loop and rounds: the parser is given the sheet, and a row without a proxy is passed over. As written, `apply!` raises (`ApplyAsWrittenFails`).
- FindWorkId: uses the corrected `WorkIdHeader`, the class `[-_\s]`. As written, "Work ID" and "work_id" are no work-id headers (`WorkIdHeaderMissedSpaced`).
- ReconcileRow: the same corrected header test.
- Reconcile: the same corrected header test.
- RunTests: stores the corrected `ResultCode`. As written, the `@Object` test skips every check limited to works, which gives `ResultCodeAsWritten`.
- VerifyWork: the same corrected code.
- VerifyCollection: the same corrected code.
- `Operations.Operation.ApplyUpdate`: the `spreadsheet` parameter is unused by the code and is not modelled. The final sheet is the `master` parameter.
- ApplyUpdate: takes `abandoned_proxies` as a snapshot of the draft ids, which is the corrected reading. As written, `work_proxies.dup` (operation.rb:180) is a second proxy over the same association: the matched drafts are detached at line 190 and every queued proxy is destroyed at line 204 (`UpdateRowsAsWrittenDetaches`). The as-written job loop at line 210, over an association whose loaded records were destroyed, is not modelled.
- Without: the same snapshot reading; as written line 190 is the association's `delete`, which nullifies the proxy's `operation_id`.
- Survivors: the same snapshot reading; as written no proxy of the first loop survives line 204.
- QueuedSurvive: the same snapshot reading; as written the queued proxies are destroyed.
- DraftsSurviveUpdating: the same snapshot reading; as written the matched drafts leave the operation.
- UpdateRowsTable: the same snapshot reading; as written matched drafts leave the table (`UpdateRowAsWritten`).
- CheckIfFinished: `pending` stands for the "pending" relationships of the operation's proxies (operation.rb:145), which assumes a relationships table. Once migration 20200122234235 drops it, `proxy.relationships` raises on any non-empty proxy table.
- ResolvePending: takes the same `pending` list, under the same assumption.

## Findings

| source | as written | input that shows it | evidently intended | confidence | as-written member | corrected member |
|---|---|---|---|---|---|---|
| lib/bulk_ops/parser.rb:266 | the default type is assigned to a misspelled `identifer_type`, so a header without a type leaves `identifier_type` nil | a `parent` column whose value `5` has no `type:` prefix | the proxy's reference identifier as the default identifier type | high; not executed | RowParser.RelationshipHeaderAsWritten, RowParser.BareHeaderType, RowParser.UntypedRecordPending | RowParser.RelationshipHeader, RowParser.TypedHeader |
| lib/concerns/interpret_relationships_behavior.rb:32 | the class `[:_\\s]` matches `:`, `_`, a backslash and the letter `s` | the cell `id:s8df4j32w` splits into three parts and keeps the default type | `[:_\s]`: colon, underscore or whitespace | high; not executed | Behaviors.IsValueSepAsWritten, Behaviors.ParentValueAsWritten | Behaviors.IsValueSep, Behaviors.ParentValueCorrected, Behaviors.ParentValueTyped |
| lib/bulk_ops/work_proxy.rb:342 | `downcase_first_letter` is called as a `String` method, so every value but "id" raises `NoMethodError` | a reference-identifier column holding `row` | the proxy's own `downcase_first_letter(...)` | high; not executed | Proxies.FormatReferenceIdAsWritten, Proxies.ReferenceIdRowRaises | Proxies.FormatReferenceId |
| lib/bulk_ops/error.rb:12 | `@option_name = option_name` reads the nil accessor, since the keyword is named `options_name`; the callers at verification.rb:91 and 98 pass `option_name:`, an unknown keyword, so they raise ArgumentError before line 12 runs | an `invalid_config_value` error built with an option name | store the option name given | high; not executed | Errors.NewErrorAsWritten, Errors.OptionNameLost | Errors.NewError |
| lib/bulk_ops/verify_works_job.rb:174 | the class test reads `@Object`, which is never assigned, so every check limited to works is skipped as passed | a work its parent does not list (check 9) | `@object.class` | high; not executed | VerifyWorks.ResultCodeAsWritten, VerifyWorks.WorkChecksNeverFailAsWritten, VerifyWorks.ParentIndexingSkippedAsWritten | VerifyWorks.ResultCode, VerifyWorks.ResultCodeBits |
| lib/bulk_ops/operation.rb:125-126 | a blank or file-set row gets no proxy, yet the second loop calls `proxy.update` on what it finds | a sheet whose pending rows are all blank | pass over a row without a proxy | high; not executed | Operations.FirstRoundAsWritten, Operations.ApplyAsWrittenFails | Operations.ApplyRow, Operations.ApplyRowJobs |
| lib/bulk_ops/operation.rb:127 | `Parser.new` is given three arguments, but `initialize` takes at most two, so it raises `ArgumentError` | a pending row with a proxy, which the loop reaches once line 111 is corrected | `Parser.new(proxy, @metadata)` | high; not executed | Operations.SecondLoopAsWrittenFails, Operations.FirstRoundFails | Operations.Operation.Apply, Operations.ApplyQueuesOnlyNew |
| lib/bulk_ops/verification.rb:123 | `BulkOps::Operation::SPECIAL_COLUMNS` names a constant that only `BulkOps` defines, and a scoped lookup does not search the enclosing module, so it raises NameError; lines 59 and 193 do the same with `INGEST_MEDIA_PATH` and `RELATIONSHIP_COLUMNS`; with line 193 corrected, line 191 still raises (next row) | a sheet with the header `parent` | `BulkOps::SPECIAL_COLUMNS`, and likewise for the other two | high; not executed | Verification.HeaderRaiseAsWritten, Verification.SpecialHeaderRaisesAsWritten, Verification.GetFilePathsAsWrittenRaises, Verification.Verifier.VerifyAsWritten | Verification.HeaderErrors, Verification.GetFilePaths, Verification.Verifier.Verify |
| lib/bulk_ops/verification.rb:191 | `each` with a two-parameter block splats each `CSV::Row` (it answers `to_ary`), so `row` is the first [header, field] pair and `row[relationship]` at line 194 raises TypeError at the first row, even once line 193 names `BulkOps::RELATIONSHIP_COLUMNS` | the sheet `title,parent` with one row `A,` | `each_with_index`, as the other checks use: a missing `id` record then gives a `bad_object_reference` on its row, while a `row:` reference still raises at the misparsed `is_a?` | high; not executed | Verification.InternalReferencesAsWritten, Verification.SplatRaisesAsWritten, Verification.MissingParentReported, Verification.Verifier.VerifyAsWritten | Verification.InternalReferenceErrors, Verification.MissingRecordReported, Verification.Verifier.VerifyInternalReferences, Verification.Verifier.Verify |
| lib/bulk_ops/parser.rb:189 | `is_file_field?` is sent to the module `BulkOps::Verification`, where it is an instance method of the concern, so `interpret_file_fields` raises NoMethodError | a row with a cell that is neither blank nor its header repeated | the operation's own `is_file_field?` | high; not executed | RowParser.FilePassRaisesAsWritten, Operations.UpdateJobsFileCallRaises | RowParser.Parser.InterpretFileFields, RowParser.FilePassReadingsAgree |
| lib/bulk_ops/parser.rb:11 | `metadata.keys` is called on the CSV table `apply!` passes, which has no `keys`, so `is_file_set?` raises NoMethodError on every present row | a sheet whose first pending row has a filled cell | look the work-type key up among the row's own headers | high; not executed | RowParser.FileSetAsWrittenRaises, Operations.ApplyAsWrittenFails | RowParser.IsFileSet, Operations.PreparedRows |
| lib/concerns/interpret_options_behavior.rb:29 | the concern, which no class includes, calls `format_reference_id`; `BulkOps::Parser`, the host it is written for, does not define it, so it raises NoMethodError | a row with a `reference_identifier` column holding `id` | a host that defines `format_reference_id`, as `WorkProxy` does | high; not executed | Behaviors.ConcernOptionsAsWritten | Behaviors.ConcernOptionsRaise, Behaviors.InterpretOptionFields |
| lib/concerns/interpret_relationships_behavior.rb:37 | the concern, which no class includes, sends `collection?`, and at line 41 `ordered_children`, to the parent proxy `find_parent_proxy` returns, a `WorkProxy` (or `false`), which defines neither, so a parent column raises NoMethodError | a row with a `parent` column holding `5` | those helpers defined on the parent proxy | high; not executed | Behaviors.ConcernRelationsAsWritten, Behaviors.ConcernRelationsAsWrittenRaise | Behaviors.ConcernRelationsRaise, Behaviors.InterpretRelationshipFields |
| lib/concerns/interpret_scalar_behavior.rb:12 | the concerns call `split_values` and `unescape_csv` as class methods of `BulkOps::Parser`, where they are instance methods | a row with a filled scalar or controlled field column | the host's own `split_values`/`unescape_csv` | high; not executed | Behaviors.ScalarFieldsAsWritten, Behaviors.ControlledAsWritten | Interpretation.ScalarFields, Behaviors.InterpretControlledFields |
| lib/bulk_ops/operation.rb:185 | `gsub(/-_\s/,'')` removes only the literal sequence dash, underscore, whitespace | the header `Work ID` or `work_id` | the class `[-_\s]` | high; not executed | Operations.WorkIdHeaderAsWritten, Operations.WorkIdHeaderMissedSpaced | Operations.WorkIdHeader, Operations.WorkIdHeaderIgnoresSeparator |
| lib/bulk_ops/operation.rb:180 | `abandoned_proxies = work_proxies.dup` is a second proxy over the same association, so `delete` at line 190 detaches the matched draft from the operation and `each` at line 204 destroys every proxy left, the new "queued" ones included | one draft with work id `w`, and a sheet whose rows name `w` and `v` | a snapshot of the draft ids (`work_proxies.to_a`), so that matched drafts are updated and new rows queued | medium; not executed | Operations.UpdateRowsAsWrittenDetaches, Operations.ApplyUpdateAsWrittenExample | Operations.QueuedSurvive, Operations.DraftsSurviveUpdating, Operations.Operation.ApplyUpdate |
| lib/bulk_ops/verify_works_job.rb:282 | `fileset_permissions` reads `doc`, which the job does not define; `run_test` rescues the NameError as a failure | any document whose fetched object has the same id | `@doc.file_set_ids` | high; not executed | VerifyWorks.BodyAsWritten, VerifyWorks.FilesetPermissionsAlwaysFailsAsWritten | VerifyWorks.Body, VerifyWorks.FilesetPermissionsProbed |
