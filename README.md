# Fiscal council website — a Dafny model of its logic

The website of the Bulgarian Fiscal Council is a React application. Most of it is presentation. This project models the parts that make decisions, and proves what they promise:

- **The four admin panels** (reports, news, publications, members).
  - Each panel holds one remote table, the fetched list, a loading flag, the record being edited, the dialog flag and the form.
  - Each panel is a `class` whose methods are proved to follow pure step functions over a `State` value: `Fetch`, `Reset`, `OpenCreate`, `OpenEdit`, `Submit`, `Delete` and, for reports, `Toggle`.
  - The lemmas about those functions state what the panel promises. A blank required field sends no request. Only the edited row changes. A refused save keeps the form. A delete needs confirmation and removes only that key. Reset is idempotent. The primary key stays unique.
- **The keyword codec of the reports panel.** A comma-separated field becomes a list: split on `,`, trim every piece, drop empty pieces. A list becomes a field again: join with `", "`. It is proved to round-trip, to keep order, and to produce only trimmed, non-empty, comma-free keywords.
- **The public list filters** of the reports and news pages: a case-insensitive search, a year test and an exact type or category test.
- **Small helpers:**
  - the bilingual resolver `t` and the language provider;
  - the language toggle;
  - the navigation highlight `isActivePath` and the mobile menu;
  - the number/suffix split of the animated counter.
- **Two small state machines:** the admin page's session guard, and the contact form.

The hosted database is an in-memory sequence of rows.
- Each row is a `Table.Row(id, createdAt, data)`.
- The panel allocates keys from a counter, `nextId`, which stands for the database's key generator.
- `created_at` comes from a clock parameter `now`.
- The outcome of each remote call, of the refetch that follows a change, and the answer to `confirm()` are boolean parameters.
- Toasts are outcome tags (`Toasts.Toast`).

Modules, one per source file, plus shared ones:
- `reports_management.dfy`, `news_management.dfy`, `publications_management.dfy`, `members_management.dfy`: the panels.
- `keywords.dfy`: the codec. `fields.dfy`: the `|| ''` and `|| null` conversions.
- `reports_page.dfy`, `news_page.dfy`, with `list_filters.dfy` for the tests the two pages share.
- `language_context.dfy`, `language_toggle.dfy`, `header.dfy`, `animated_counter.dfy`, `admin_page.dfy`, `contacts_page.dfy`.
- Shared library: `strings.dfy` (`trim`, `toLowerCase`, `includes`, `split`, `join`, `parseInt`, digit runs, text order), `seqs.dfy` (`filter`), `sorting.dfy` (the order of `.order(...)`), `table.dfy` (the remote table), `wrappers.dfy`, `toasts.dfy`.

## Model

| member | source | states |
|---|---|---|
| Strings.Trim | src/components/ReportsManagement.tsx:121 | `trim()` gives a trimmed text no longer than the input. It is empty exactly when the input is blank, and it leaves a trimmed text unchanged. |
| Strings.TrimIsSlice | src/components/ReportsManagement.tsx:121 | `trim()` keeps one slice of the input, character for character. That slice starts right after the leading white space, and only white space follows it. |
| Strings.TrimKeeps | src/components/ReportsManagement.tsx:137 | Every character of a trimmed text occurs in the original. |
| Strings.TrimPadded | src/components/ReportsManagement.tsx:137 | One space on each side of a trimmed word is exactly what `trim()` removes. |
| Strings.ToLower | src/pages/Reports.tsx:111 | `toLowerCase()` keeps the length. It maps each Latin and Cyrillic capital to its small letter, and keeps every other character. |
| Strings.ToLowerIdempotent | src/pages/Reports.tsx:111 | Lower-casing twice is lower-casing once. |
| Strings.ContainsWitness | src/pages/Reports.tsx:111 | When `includes` holds, there is a position where the sub-text occurs. |
| Strings.ContainsAt | src/pages/Reports.tsx:111 | An occurrence at any position makes `includes` hold. |
| Strings.SplitSepFree | src/components/ReportsManagement.tsx:137 | No piece of `split(',')` holds a comma. |
| Strings.SplitCount | src/components/ReportsManagement.tsx:137 | `split(',')` gives one more piece than the text has commas. |
| Strings.SplitAppend | src/components/ReportsManagement.tsx:137 | Splitting `a,b` gives the pieces of `a` followed by those of `b`. |
| Strings.JoinSplit | src/components/ReportsManagement.tsx:110-111 | Joining the pieces of a split with the separator gives the text back. |
| Strings.NatToStringOfDigits | src/components/AnimatedCounter.tsx:17-24 | Reading and then writing a canonical numeral gives it back. |
| Strings.DigitsOfNatToString | src/components/AnimatedCounter.tsx:17-24 | Writing and then reading a number gives it back. |
| Strings.DigitPrefix | src/components/AnimatedCounter.tsx:16 | The longest run of digits at the start of a text. The character after it, if any, is not a digit. |
| Strings.ParseInt | src/components/MembersManagement.tsx:324 | `parseInt` gives NaN (`None`) exactly when no digit follows the leading blanks and the optional sign. |
| Strings.ParseIntSigned | src/components/MembersManagement.tsx:324 | `parseInt` of leading blanks, an optional `+` or `-`, a run of digits and a tail that does not start with a digit is the value of the digits, negated exactly when the sign is `-`. |
| Strings.ParseIntOfNumeral | src/components/MembersManagement.tsx:324 | `parseInt` of the numeral of `n` is `n`. |
| Strings.ParseIntNoDigits | src/components/MembersManagement.tsx:324 | A text without digits parses to NaN. |
| Strings.LexLeTotal | src/components/MembersManagement.tsx:61 | The text order of `category` relates every pair. |
| Strings.LexLeAntisymmetric | src/components/MembersManagement.tsx:61 | Two texts that each come no later than the other are equal. |
| Strings.LexLeTransitive | src/components/MembersManagement.tsx:61 | The text order is transitive. |
| Seqs.Filter | src/pages/Reports.tsx:110 | `filter` keeps only elements of the input that pass the test, and never lengthens the input. |
| Seqs.FilterMembership | src/pages/Reports.tsx:110 | An element is kept if and only if it is in the input and passes the test. |
| Seqs.FilterIsSubsequence | src/pages/Reports.tsx:110 | The kept elements are in input order. |
| Seqs.FilterAllPass | src/pages/News.tsx:84 | When every element passes, the filter changes nothing. |
| Seqs.FilterAppend | src/components/ReportsManagement.tsx:137 | Filtering distributes over concatenation. |
| Seqs.FilterMonotone | src/pages/News.tsx:84-91 | A stricter test keeps a sub-sequence of what a weaker test keeps. |
| Sorting.SortByPermutes | src/components/NewsManagement.tsx:73-75 | The ordered result of a select is a permutation of the table: it holds every row exactly as often as the table does. |
| Sorting.SortBySorted | src/components/NewsManagement.tsx:73-75 | For a total, transitive order, the result is sorted and is a permutation of the input. |
| Sorting.FilterSorted | src/components/MembersManagement.tsx:66-67 | Filtering a sorted list leaves it sorted. |
| Table.Update | src/components/ReportsManagement.tsx:208-213 | `update(patch).eq('id', id)` keeps the length, every key and every creation stamp. Rows with another key are unchanged, and rows with that key get the patched columns. |
| Table.InsertFresh | src/components/NewsManagement.tsx:148-151 | An insert under a fresh key keeps the keys unique, adds exactly one row at the end, and that row is found under its key. |
| Table.InsertKeepsKeys | src/components/NewsManagement.tsx:148-151 | An insert under a key above every key in use keeps the keys unique, and that key becomes the new bound. |
| Table.UpdateKeepsKeys | src/components/NewsManagement.tsx:136-140 | An update keeps the keys unique. |
| Table.UpdateThenFind | src/components/NewsManagement.tsx:136-140 | After an update, the edited key holds the patched columns. |
| Table.UpdateAbsent | src/components/ReportsManagement.tsx:208-213 | An update of a key that is not stored matches no row and changes nothing. |
| Table.ReplaceWithSame | src/components/NewsManagement.tsx:136-140 | With unique keys, rewriting a stored row with its own record leaves the table as it was. |
| Table.RemoveMembership | src/components/NewsManagement.tsx:177-180 | A row survives `delete().eq('id', id)` if and only if its key is not `id`. |
| Table.RemoveStored | src/components/NewsManagement.tsx:177-180 | With unique keys, deleting a stored key removes exactly that one row. |
| Table.RemoveKeepsOrder | src/components/NewsManagement.tsx:177-180 | The surviving rows keep their order. |
| Table.RemoveKeepsKeys | src/components/NewsManagement.tsx:177-180 | A delete keeps the keys unique. |
| Table.RemoveAbsent | src/components/ReportsManagement.tsx:186-190 | A delete of a key that is not stored changes nothing. |
| Table.ByNewestSorted | src/components/ReportsManagement.tsx:67 | `order('created_at', desc)` lists every row once, newest first. |
| Fields.OrEmpty | src/components/ReportsManagement.tsx:106-108 | `x \|\| ''` gives the stored text when it is non-empty, and `''` exactly when the column is null or empty. |
| Fields.OrNull | src/components/ReportsManagement.tsx:133-135 | `x \|\| null` gives null exactly for the empty text, and otherwise the text. |
| Fields.OrNullOrEmpty | src/components/ReportsManagement.tsx:106-133 | Opening and re-saving an optional column turns `''` into null and keeps every other value. |
| Fields.SomeOrEmpty | src/components/NewsManagement.tsx:109-140 | Opening and re-saving an optional column written as-is turns null into `''` and keeps every other value. |
| Keywords.Parse | src/components/ReportsManagement.tsx:137-138 | A keyword field parses to null exactly when it is the empty text. |
| Keywords.ParseGivesKeywords | src/components/ReportsManagement.tsx:137 | Every parsed keyword is non-empty, trimmed and comma-free. |
| Keywords.Clean | src/components/ReportsManagement.tsx:137 | Trimming every piece and dropping the empty ones never lengthens the list. Every piece kept is non-empty and trimmed, and when no piece holds a comma every piece kept is a keyword. |
| Keywords.CleanAppend | src/components/ReportsManagement.tsx:137 | Cleaning distributes over concatenation. |
| Keywords.ParseKeepsOrder | src/components/ReportsManagement.tsx:137 | The keywords of `a,b` are those of `a` followed by those of `b`. |
| Keywords.ParseOnePiece | src/components/ReportsManagement.tsx:137 | A comma-free field is one piece, trimmed, or no keyword when it is blank. |
| Keywords.ParseWord | src/components/ReportsManagement.tsx:137 | A field holding one keyword parses to that keyword alone. |
| Keywords.ParseSpace | src/components/ReportsManagement.tsx:137 | A field of one blank parses to the empty list, not to null. |
| Keywords.ParseBlankField | src/components/ReportsManagement.tsx:137-138 | `""` parses to null, but `" , "` parses to the empty list. |
| Keywords.ParseBlankThen | src/components/ReportsManagement.tsx:137 | A blank piece before a comma contributes no keyword. |
| Keywords.ParseWordThen | src/components/ReportsManagement.tsx:137 | A keyword before a comma is the first keyword. |
| Keywords.ParsePaddedWord | src/components/ReportsManagement.tsx:137 | A keyword padded with one space on each side parses to that keyword. |
| Keywords.ParsePaddedThenBlank | src/components/ReportsManagement.tsx:137 | `" b , ,c"` parses to `[b, c]` for any keywords `b` and `c`. |
| Keywords.ParseMixedField | src/components/ReportsManagement.tsx:137 | `"a, b , ,c"` parses to `[a, b, c]`. Blank pieces are dropped, the others trimmed, and order is kept. |
| Keywords.CleanFirstPiece | src/components/ReportsManagement.tsx:110-137 | The first piece of an edited field cleans to the first keyword. |
| Keywords.CleanSplitJoin | src/components/ReportsManagement.tsx:110-137 | A list of keywords joined with `", "` (with an optional leading space), split and cleaned, is the list. |
| Keywords.RoundTrip | src/components/ReportsManagement.tsx:110-138 | Joining a non-empty list of keywords with `", "` and parsing it gives the list back. |
| Keywords.EditRoundTrip | src/components/ReportsManagement.tsx:110-138 | Opening and re-saving a keyword column gives it back when it is canonical. A stored empty list comes back as null. |
| ReportsManagement.Payload | src/components/ReportsManagement.tsx:131-141 | The payload copies `title_bg`, `report_type` and `published`. Each optional text column is null exactly when its form field is empty, and otherwise holds the field unchanged. Each keyword column is the parsed keyword field: null exactly when the field is empty. |
| ReportsManagement.SaveUntouchedEdit | src/components/ReportsManagement.tsx:102-141 | Opening a canonical report and saving it untouched writes the same report. A stored `''` title becomes null, and an empty keyword list becomes null. |
| ReportsManagement.EditUntouchedKeepsTable | src/components/ReportsManagement.tsx:102-154 | Opening a stored report for edit and saving the form untouched leaves the table and the next key as they were, for a canonical report. |
| ReportsManagement.BlankTitleChangesNothing | src/components/ReportsManagement.tsx:121-128 | With a blank trimmed `title_bg`, a submit sends nothing. Table, form and dialog are unchanged, and the toast reports the missing field. |
| ReportsManagement.FailedSaveKeepsForm | src/components/ReportsManagement.tsx:171-177 | A refused save leaves the whole state as it was: form, edited report, open dialog. |
| ReportsManagement.SaveEditTouchesOneRow | src/components/ReportsManagement.tsx:143-170 | Saving an edit overwrites only the row with the edited key, then resets the form and closes the dialog. |
| ReportsManagement.SaveNewAddsOneRow | src/components/ReportsManagement.tsx:155-170 | Saving a new report appends exactly one row, under a fresh key, holding the payload. Then the form resets and the dialog closes. |
| ReportsManagement.DeleteOnlyThatRow | src/components/ReportsManagement.tsx:180-206 | An unconfirmed delete changes nothing. A confirmed and accepted delete removes exactly the rows with that key and keeps the order of the others. |
| ReportsManagement.ToggleOnlyPublished | src/components/ReportsManagement.tsx:208-213 | The switch sets `published` to `!published` on the row with that key. No other column or row changes, and neither does the form. |
| ReportsManagement.ResetDefaults | src/components/ReportsManagement.tsx:82-95 | The reset form has empty texts, type "Доклад" and draft status, with no report being edited. Reset is idempotent. |
| ReportsManagement.FetchListsEveryRow | src/components/ReportsManagement.tsx:62-80 | A successful fetch lists every row once, drafts included, newest first. |
| ReportsManagement.DialogKeepsConsistent | src/components/ReportsManagement.tsx:62-116 | Fetch, reset and opening the dialog keep the keys unique and the next key unused. |
| ReportsManagement.SubmitKeepsConsistent | src/components/ReportsManagement.tsx:118-178 | Every submit outcome keeps the keys unique and the next key unused. |
| ReportsManagement.DeleteToggleKeepConsistent | src/components/ReportsManagement.tsx:180-230 | Delete and toggle keep the keys unique and the next key unused. |
| ReportsManagement.Panel.constructor | src/components/ReportsManagement.tsx:39-56 | The panel starts loading, with an empty list, no report being edited, a closed dialog and the empty form, so the loading text of line 251 shows. |
| ReportsManagement.Panel.FetchReports | src/components/ReportsManagement.tsx:62-80 | The method keeps the table consistent and moves the state as `Fetch` does. The loading text is gone afterwards. |
| ReportsManagement.Panel.ResetForm | src/components/ReportsManagement.tsx:82-95 | The method moves the state as `Reset` does. |
| ReportsManagement.Panel.OpenCreateDialog | src/components/ReportsManagement.tsx:97-100 | The method moves the state as `OpenCreate` does. |
| ReportsManagement.Panel.OpenEditDialog | src/components/ReportsManagement.tsx:102-116 | The method moves the state as `OpenEdit` does. |
| ReportsManagement.Panel.SetForm | src/components/ReportsManagement.tsx:282-368 | A form input changes only the form. |
| ReportsManagement.Panel.SetDialogOpen | src/components/ReportsManagement.tsx:374 | The dialog's open state and the cancel button change only the dialog flag. |
| ReportsManagement.Panel.HandleSubmit | src/components/ReportsManagement.tsx:118-178 | The method keeps the table consistent and moves the state and toasts as `Submit` does. |
| ReportsManagement.Panel.SaveForm | src/components/ReportsManagement.tsx:143-167 | The update or the insert, chosen by whether a report is being edited, moves the state as `Save` does and keeps the keys unique. |
| ReportsManagement.Panel.UpdateRow | src/components/ReportsManagement.tsx:143-154 | The update by the edited key rewrites that row with the payload, changes nothing else and keeps the keys unique. |
| ReportsManagement.Panel.InsertRow | src/components/ReportsManagement.tsx:155-167 | The insert appends one row with the payload under the next key, advances that key and keeps the keys unique. |
| ReportsManagement.Panel.CloseAndRefresh | src/components/ReportsManagement.tsx:168-170 | Closing the dialog, resetting the form and refetching move the state as `Closed` does. |
| ReportsManagement.Panel.SaveAndRefresh | src/components/ReportsManagement.tsx:143-170 | The success path of a submit moves the state and toasts as `Saved` does. |
| ReportsManagement.Panel.HandleDelete | src/components/ReportsManagement.tsx:180-206 | The method moves the state and toasts as `Delete` does. |
| ReportsManagement.Panel.TogglePublished | src/components/ReportsManagement.tsx:208-230 | The method moves the state and toasts as `Toggle` does. |
| NewsManagement.FormOfPayload | src/components/NewsManagement.tsx:106-151 | Saving a form and opening the saved item gives the same form. |
| NewsManagement.SaveUntouchedEdit | src/components/NewsManagement.tsx:106-151 | Opening an item and saving it untouched writes the same item if and only if no optional column is null. |
| NewsManagement.EditUntouchedKeepsTable | src/components/NewsManagement.tsx:106-147 | Opening a stored item for edit and saving the form untouched leaves the table and the next key as they were, when every optional column is set. |
| NewsManagement.RequiredFields | src/components/NewsManagement.tsx:126-133 | A submit is turned away if and only if the trimmed `title_bg` or `content_bg` is blank. A turned-away submit changes nothing. |
| NewsManagement.ResetDefaults | src/components/NewsManagement.tsx:90-104 | The reset form has empty texts, category "новини", and not published nor featured, with no item being edited. Reset is idempotent. |
| NewsManagement.SaveEditTouchesOneRow | src/components/NewsManagement.tsx:136-163 | Saving an edit overwrites only the row with the edited key, with the form as typed, then resets, closes and refetches. |
| NewsManagement.SaveNewAddsOneRow | src/components/NewsManagement.tsx:148-163 | Saving a new item appends exactly one row under a fresh key. Opening that row gives the form back. |
| NewsManagement.FailedSaveKeepsForm | src/components/NewsManagement.tsx:164-170 | A refused save leaves form, edited item and dialog as they were. |
| NewsManagement.DeleteOnlyThatRow | src/components/NewsManagement.tsx:173-199 | Delete happens only when confirmed, and then removes exactly the rows with that key and keeps the order of the others. |
| NewsManagement.FetchListsEveryRow | src/components/NewsManagement.tsx:70-88 | The admin list holds every row once, unpublished ones included, newest first. |
| NewsManagement.DialogKeepsConsistent | src/components/NewsManagement.tsx:70-121 | Fetch, reset and opening the dialog keep the keys unique. |
| NewsManagement.SubmitKeepsConsistent | src/components/NewsManagement.tsx:123-171 | Every submit outcome keeps the keys unique and the next key unused. |
| NewsManagement.DeleteKeepsConsistent | src/components/NewsManagement.tsx:173-199 | Delete keeps the keys unique. |
| NewsManagement.Panel.constructor | src/components/NewsManagement.tsx:46-64 | The panel starts loading, with no item being edited and the empty form, so the loading text of line 211 shows. |
| NewsManagement.Panel.FetchNews | src/components/NewsManagement.tsx:70-88 | The method moves the state as `Fetch` does. The loading text is gone afterwards. |
| NewsManagement.Panel.ResetForm | src/components/NewsManagement.tsx:90-104 | The method moves the state as `Reset` does. |
| NewsManagement.Panel.AddClicked | src/components/NewsManagement.tsx:226-228 | The add button resets the form, and as the dialog's trigger it opens the dialog. |
| NewsManagement.Panel.HandleEdit | src/components/NewsManagement.tsx:106-121 | The method moves the state as `OpenEdit` does. |
| NewsManagement.Panel.SetForm | src/components/NewsManagement.tsx:250-348 | A form input changes only the form. |
| NewsManagement.Panel.SetDialogOpen | src/components/NewsManagement.tsx:355 | The dialog's open state and the cancel button change only the dialog flag. |
| NewsManagement.Panel.HandleSubmit | src/components/NewsManagement.tsx:123-171 | The method keeps the table consistent and moves the state and toasts as `Submit` does. |
| NewsManagement.Panel.SaveForm | src/components/NewsManagement.tsx:136-160 | The update by the edited key or the insert under the next key moves the state as `Save` does and keeps the keys unique. |
| NewsManagement.Panel.CloseAndRefresh | src/components/NewsManagement.tsx:161-163 | Resetting the form, closing the dialog and refetching move the state as `Closed` does. |
| NewsManagement.Panel.SaveAndRefresh | src/components/NewsManagement.tsx:136-163 | The success path of a submit moves the state and toasts as `Saved` does. |
| NewsManagement.Panel.HandleDelete | src/components/NewsManagement.tsx:173-199 | The method moves the state and toasts as `Delete` does. |
| PublicationsManagement.FormOfPayload | src/components/PublicationsManagement.tsx:106-151 | Saving a form and opening the saved publication gives the same form. |
| PublicationsManagement.SaveUntouchedEdit | src/components/PublicationsManagement.tsx:106-151 | An untouched edit writes the same publication if and only if no optional column is null. |
| PublicationsManagement.EditUntouchedKeepsTable | src/components/PublicationsManagement.tsx:106-147 | Opening a stored publication for edit and saving the form untouched leaves the table and the next key as they were, when every optional column is set. |
| PublicationsManagement.RequiredFields | src/components/PublicationsManagement.tsx:126-133 | A submit is turned away if and only if the trimmed `title_bg` is blank, whatever the content and description hold. A turned-away submit changes nothing. |
| PublicationsManagement.ResetDefaults | src/components/PublicationsManagement.tsx:90-104 | The reset form has empty texts, type "публикация", and not published nor featured, with nothing being edited. Reset is idempotent. |
| PublicationsManagement.SaveEditTouchesOneRow | src/components/PublicationsManagement.tsx:136-163 | Saving an edit overwrites only the row with the edited key, then resets, closes and refetches newest first. |
| PublicationsManagement.SaveNewAddsOneRow | src/components/PublicationsManagement.tsx:148-163 | Saving a new publication appends exactly one row under a fresh key. Opening it gives the form back. |
| PublicationsManagement.FailedSaveKeepsForm | src/components/PublicationsManagement.tsx:164-170 | A refused save leaves form, edited publication and open dialog as they were. |
| PublicationsManagement.DeleteOnlyThatRow | src/components/PublicationsManagement.tsx:173-199 | Delete happens only when confirmed, and then removes exactly the rows with that key and keeps the order of the others. |
| PublicationsManagement.RefreshKeepsForm | src/components/PublicationsManagement.tsx:227 | The refresh button refetches and leaves form, edited publication, dialog and table alone. |
| PublicationsManagement.FetchListsEveryRow | src/components/PublicationsManagement.tsx:70-88 | The list holds every row once, newest first. |
| PublicationsManagement.DialogKeepsConsistent | src/components/PublicationsManagement.tsx:70-121 | Fetch, reset and opening the dialog keep the keys unique. |
| PublicationsManagement.SubmitKeepsConsistent | src/components/PublicationsManagement.tsx:123-171 | Every submit outcome keeps the keys unique and the next key unused. |
| PublicationsManagement.DeleteKeepsConsistent | src/components/PublicationsManagement.tsx:173-199 | Delete keeps the keys unique. |
| PublicationsManagement.Panel.constructor | src/components/PublicationsManagement.tsx:46-64 | The panel starts loading, with nothing being edited and the empty form, so the loading text of line 211 shows. |
| PublicationsManagement.Panel.FetchPublications | src/components/PublicationsManagement.tsx:70-88 | The method moves the state as `Fetch` does. The loading text is gone afterwards. |
| PublicationsManagement.Panel.RefreshClicked | src/components/PublicationsManagement.tsx:227 | The refresh button is a fetch. |
| PublicationsManagement.Panel.ResetForm | src/components/PublicationsManagement.tsx:90-104 | The method moves the state as `Reset` does. |
| PublicationsManagement.Panel.AddClicked | src/components/PublicationsManagement.tsx:231-233 | The add button resets the form and opens the dialog. |
| PublicationsManagement.Panel.HandleEdit | src/components/PublicationsManagement.tsx:106-121 | The method moves the state as `OpenEdit` does. |
| PublicationsManagement.Panel.SetForm | src/components/PublicationsManagement.tsx:255-352 | A form input changes only the form. |
| PublicationsManagement.Panel.SetDialogOpen | src/components/PublicationsManagement.tsx:359 | The dialog's open state and the cancel button change only the dialog flag. |
| PublicationsManagement.Panel.HandleSubmit | src/components/PublicationsManagement.tsx:123-171 | The method keeps the table consistent and moves the state and toasts as `Submit` does. |
| PublicationsManagement.Panel.SaveForm | src/components/PublicationsManagement.tsx:136-160 | The update by the edited key or the insert under the next key moves the state as `Save` does and keeps the keys unique. |
| PublicationsManagement.Panel.CloseAndRefresh | src/components/PublicationsManagement.tsx:161-163 | Resetting the form, closing the dialog and refetching move the state as `Closed` does. |
| PublicationsManagement.Panel.SaveAndRefresh | src/components/PublicationsManagement.tsx:136-163 | The success path of a submit moves the state and toasts as `Saved` does. |
| PublicationsManagement.Panel.HandleDelete | src/components/PublicationsManagement.tsx:173-199 | The method moves the state and toasts as `Delete` does. |
| MembersManagement.OrderIndexInput | src/components/MembersManagement.tsx:324 | `parseInt(text) \|\| 1` is never 0. It is 1 when the text is not a number, and the parsed number otherwise. |
| MembersManagement.OrderIndexNoDigits | src/components/MembersManagement.tsx:324 | A text without digits, `""` and `"abc"` included, gives position 1. |
| MembersManagement.OrderIndexZero | src/components/MembersManagement.tsx:324 | `"0"` gives position 1. |
| MembersManagement.OrderIndexOfNumeral | src/components/MembersManagement.tsx:324 | A typed positive number is kept as typed. |
| MembersManagement.FormOfPayload | src/components/MembersManagement.tsx:87-141 | Saving a form and opening the saved member gives the same form. |
| MembersManagement.SaveUntouchedEdit | src/components/MembersManagement.tsx:126-141 | An untouched edit keeps `order_index` and `active` as stored. It writes the same member if and only if no optional column is null, and a null column comes back as `''`. |
| MembersManagement.EditUntouchedKeepsTable | src/components/MembersManagement.tsx:87-141 | Opening a stored member for edit and saving the form untouched leaves the table and the next key as they were, when every optional column is set. |
| MembersManagement.CategoryThenPositionIsOrder | src/components/MembersManagement.tsx:58-62 | Ordering by category and then by `order_index` is total and transitive. |
| MembersManagement.CategoryListOrdered | src/components/MembersManagement.tsx:58-67 | A list filtered by category from the ordered rows is sorted by `order_index`. |
| MembersManagement.CategoryListMembership | src/components/MembersManagement.tsx:66-67 | A row is in a category's list if and only if it is a stored row of that category. |
| MembersManagement.FetchSplitsByCategory | src/components/MembersManagement.tsx:56-80 | After a fetch, `members` holds exactly the stored rows of category "member", and `experts` exactly those of category "expert", each sorted by `order_index`, and each keeps the order of the category-then-position select. Other categories are in neither list. |
| MembersManagement.NoFieldCheck | src/components/MembersManagement.tsx:82-110 | An accepted submit saves every form, even one with blank required inputs. A new member becomes one appended row. |
| MembersManagement.SubmitEndsLoading | src/components/MembersManagement.tsx:84-123 | Loading is off when a submit ends, whether it succeeded or failed. A refused save keeps the form, the member being edited and the dialog. |
| MembersManagement.ResetDefaults | src/components/MembersManagement.tsx:169-183 | The reset form has empty texts, category "member", position 1 and active set, with no member being edited. Reset is idempotent. |
| MembersManagement.SaveEditTouchesOneRow | src/components/MembersManagement.tsx:87-114 | Saving an edit overwrites only the row with the edited key, then resets the form and closes the dialog. |
| MembersManagement.DeleteOnlyThatRow | src/components/MembersManagement.tsx:143-167 | Delete happens only when confirmed, and then removes exactly the rows with that key and keeps the order of the others. |
| MembersManagement.DialogKeepsConsistent | src/components/MembersManagement.tsx:56-141 | Fetch, reset and opening the dialog keep the keys unique. |
| MembersManagement.SubmitKeepsConsistent | src/components/MembersManagement.tsx:82-124 | Every submit outcome keeps the keys unique and the next key unused. |
| MembersManagement.DeleteKeepsConsistent | src/components/MembersManagement.tsx:143-167 | Delete keeps the keys unique. |
| MembersManagement.Panel.constructor | src/components/MembersManagement.tsx:32-50 | The panel starts loading, with both lists empty, nobody being edited and the default form, so the loading text of line 228 shows. |
| MembersManagement.Panel.FetchMembers | src/components/MembersManagement.tsx:56-80 | The method moves the state as `Fetch` does. The loading text is gone afterwards. |
| MembersManagement.Panel.ResetForm | src/components/MembersManagement.tsx:169-183 | The method moves the state as `Reset` does. |
| MembersManagement.Panel.AddClicked | src/components/MembersManagement.tsx:236-238 | The add button resets the form and opens the dialog. |
| MembersManagement.Panel.HandleEdit | src/components/MembersManagement.tsx:126-141 | The method moves the state as `OpenEdit` does. |
| MembersManagement.Panel.SetForm | src/components/MembersManagement.tsx:250-360 | A form input changes only the form. |
| MembersManagement.Panel.SetOrderIndex | src/components/MembersManagement.tsx:324 | The position input stores `OrderIndexInput` of the typed text and changes nothing else. |
| MembersManagement.Panel.SetDialogOpen | src/components/MembersManagement.tsx:363 | The dialog's open state and the cancel button change only the dialog flag. |
| MembersManagement.SubmitInFlight | src/components/MembersManagement.tsx:84 | While the request is in flight, loading is on, so the submit button (line 367) is disabled. The loading text (line 228) replaces the panel exactly when both lists are empty. Nothing else has changed yet. |
| MembersManagement.Panel.StartSubmit | src/components/MembersManagement.tsx:84 | `setLoading(true)` moves the state as `BeginSubmit` does, and loading is on afterwards. |
| MembersManagement.Panel.FinishSubmit | src/components/MembersManagement.tsx:86-124 | Entered with loading on, the rest of the handler keeps the table consistent and moves the state and toasts as `EndSubmit` does. |
| MembersManagement.Panel.HandleSubmit | src/components/MembersManagement.tsx:82-124 | The handler is `StartSubmit` then `FinishSubmit`. It keeps the table consistent and moves the state and toasts as `Submit`, which is `EndSubmit` after `BeginSubmit`. |
| MembersManagement.Panel.SaveForm | src/components/MembersManagement.tsx:87-111 | The update by the edited key or the insert under the next key moves the state as `Save` does and keeps the keys unique. |
| MembersManagement.Panel.CloseAndRefresh | src/components/MembersManagement.tsx:112-114 | Closing the dialog, resetting the form and refetching move the state as `Closed` does. |
| MembersManagement.Panel.SaveAndRefresh | src/components/MembersManagement.tsx:87-123 | The success path of a submit moves the state and toasts as `Saved` does, and loading ends. |
| MembersManagement.Panel.SaveAndClose | src/components/MembersManagement.tsx:87-114 | The save, then closing the dialog, resetting the form and refetching, move the state as `Save` and then `Closed` do. The first toast tells an update from a creation. |
| MembersManagement.Panel.HandleDelete | src/components/MembersManagement.tsx:143-167 | The method moves the state and toasts as `Delete` does. |
| ListFilters.EmptySearchMatches | src/pages/Reports.tsx:111 | The empty search matches every text. |
| ListFilters.SearchIgnoresCase | src/pages/Reports.tsx:111-112 | A term and its lower-case form match the same texts, and so do a text and its lower-case form. |
| ListFilters.SearchFindsSubstring | src/pages/News.tsx:85-86 | A text matches every piece of itself. |
| ListFilters.YearIsSubstring | src/pages/Reports.tsx:113 | A year other than "all" matches a date if and only if it occurs in the date at some position. |
| ListFilters.ChoiceIsExact | src/pages/Reports.tsx:113-114 | "all" matches every year and every type. Any other choice matches only an equal value. |
| ReportsPage.ListedIff | src/pages/Reports.tsx:110-117 | A document is listed if and only if it is in the catalogue and passes the search, year and type tests. |
| ReportsPage.ListedInOrder | src/pages/Reports.tsx:110-117 | The listed documents are in catalogue order, and the count shown never exceeds the total. |
| ReportsPage.InitialListsAll | src/pages/Reports.tsx:11-13 | The initial inputs list every document, and the no-results block shows only for an empty catalogue. |
| ReportsPage.CatalogueListedAtFirst | src/pages/Reports.tsx:11-309 | On first load the page's own catalogue is listed in full, and the no-results block (line 309) is not shown. |
| ReportsPage.NarrowingOnly | src/pages/Reports.tsx:110-117 | Choosing a year or a type, or typing a term, only removes documents from the list. |
| ReportsPage.KeywordFindsReport | src/pages/Reports.tsx:111-112 | A search for one of a document's keywords, in any case, lists the document. |
| ReportsPage.ChosenTypeOnly | src/pages/Reports.tsx:113-114 | Only documents of the chosen type, with the chosen year in their date, are listed. |
| NewsPage.ShownIff | src/pages/News.tsx:84-91 | An item is shown if and only if it passes the search, year and category tests. |
| NewsPage.ShownInOrder | src/pages/News.tsx:84-91 | The shown items keep list order, and the count shown never exceeds the total. |
| NewsPage.InitialShowsAll | src/pages/News.tsx:10-12 | The initial inputs show every item. |
| NewsPage.ItemsShownAtFirst | src/pages/News.tsx:10-215 | On first load the page's own list is shown in full, with the load-more button (line 215) and without the no-results block (line 204). |
| NewsPage.NoResultsOrLoadMore | src/pages/News.tsx:204-225 | Exactly one of the no-results block and the load-more button shows. No results means that no item passes the tests. |
| NewsPage.NarrowingOnly | src/pages/News.tsx:84-91 | Choosing a year or a category, or typing a term, only removes items. |
| NewsPage.ChosenCategoryOnly | src/pages/News.tsx:87-88 | Only items of the chosen category, with the chosen year in their date, are shown. |
| LanguageContext.Resolve | src/contexts/LanguageContext.tsx:28-33 | The result of `t` is always one of its two texts. |
| LanguageContext.ResolveCases | src/contexts/LanguageContext.tsx:28-33 | In Bulgarian, `t` gives the Bulgarian text. An absent or empty English text also gives the Bulgarian text. In English, a non-empty English text is returned. |
| LanguageContext.ResolveDiffers | src/contexts/LanguageContext.tsx:29-32 | Switching language changes a resolved text if and only if the English text is non-empty and differs from the Bulgarian one. |
| LanguageContext.Provider.constructor | src/contexts/LanguageContext.tsx:26 | The site starts in Bulgarian. |
| LanguageContext.Provider.T | src/contexts/LanguageContext.tsx:28-33 | The `t` the provider hands out gives the Bulgarian text while the language is Bulgarian, and one of its two texts in either language. |
| LanguageContext.Provider.SetLanguage | src/contexts/LanguageContext.tsx:26-36 | `setLanguage` stores the chosen language. |
| LanguageContext.UseLanguage | src/contexts/LanguageContext.tsx:13-19 | `useLanguage` succeeds if and only if a provider is present, and then returns it. |
| LanguageToggle.Other | src/components/LanguageToggle.tsx:9 | The toggle always changes the language. |
| LanguageToggle.ToggleProperties | src/components/LanguageToggle.tsx:9-21 | Toggling twice restores the language. The label names the language a press switches to ("EN" in Bulgarian, "БГ" in English), and the two labels differ. |
| LanguageToggle.ToggleLanguage | src/components/LanguageToggle.tsx:8-10 | The shared language becomes the other one. |
| Header.ActiveCases | src/components/Header.tsx:20-24 | "/" is active only at exactly "/". Any other path is active if and only if it is a plain prefix of the address. |
| Header.PrefixNotSegment | src/components/Header.tsx:22 | Every item is active on its own sub-addresses, and "/news" is also active on "/newsletter". |
| Header.AtMostOneActive | src/components/Header.tsx:11-24 | For the six navigation items, at most one is highlighted at any address. |
| Header.MobileMenu.constructor | src/components/Header.tsx:8 | The menu starts closed. |
| Header.MobileMenu.MenuButtonClicked | src/components/Header.tsx:69 | The menu button flips the menu. |
| Header.MobileMenu.LinkClicked | src/components/Header.tsx:87 | A mobile link closes the menu. |
| AnimatedCounter.LeadLength | src/components/AnimatedCounter.tsx:16 | Counts the characters before the first digit. None of them is a digit, and the next character is one. |
| AnimatedCounter.NumericValue | src/components/AnimatedCounter.tsx:16-17 | The value is the number the first digit run denotes, or 0 when there is no digit. |
| AnimatedCounter.SuffixKeepsTheRest | src/components/AnimatedCounter.tsx:16-18 | Putting the first digit run back where it was cut from the suffix gives the input. The run is maximal, and it is empty only when the input has no digit. |
| AnimatedCounter.NoDigits | src/components/AnimatedCounter.tsx:16-18 | An input with no digits gives value 0 and the whole input as suffix. |
| AnimatedCounter.DisplayRestores | src/components/AnimatedCounter.tsx:16-24 | An input that starts with a canonical numeral is shown as written once the count reaches its value. |
| AnimatedCounter.NumeralThenText | src/components/AnimatedCounter.tsx:16-24 | A numeral followed by a non-digit text is shown as written. |
| AnimatedCounter.HomeFigures | src/pages/Home.tsx:27-45 | "5", "50+", "95%" and "100%" are shown as written once counted up. |
| AdminPage.Render | src/pages/Admin.tsx:61-71 | The loading view shows exactly while loading. Nothing renders exactly when loading is over with no user. Otherwise the panels render for the user. |
| AdminPage.SessionCases | src/pages/Admin.tsx:19-39 | Without a session, the page navigates to "/auth" and changes nothing. With one, it sets the user, ends loading and stays. An auth change does the same while the page is subscribed, and nothing after unmount. |
| AdminPage.GuardHolds | src/pages/Admin.tsx:12-71 | Loading ends only together with a user being set, and every event keeps that. So the page never settles on rendering nothing. |
| AdminPage.SignOutCases | src/pages/Admin.tsx:44-59 | Sign-out navigates to "/" if and only if the `signOut()` call does not throw. The success toast is given exactly then, and the failure toast exactly when it throws. |
| AdminPage.ReturnedErrorIgnored | src/pages/Admin.tsx:44-52 | The handler does not look at the `error` that `signOut()` resolves with. A returned error gives the same success toast and navigation to "/" as a clean sign-out. |
| AdminPage.Admin.constructor | src/pages/Admin.tsx:12-32 | The page mounts with no user, loading, and subscribed to auth changes. |
| AdminPage.Admin.CheckAuth | src/pages/Admin.tsx:19-27 | The initial check moves the state as `OnSession` does and keeps the guard. |
| AdminPage.Admin.AuthStateChanged | src/pages/Admin.tsx:32-39 | While subscribed, an auth change moves the state as `OnSession` does. After unmount, it does nothing. |
| AdminPage.Admin.Unmount | src/pages/Admin.tsx:41 | The subscription is released. |
| AdminPage.Admin.HandleSignOut | src/pages/Admin.tsx:44-59 | Gives the toast and navigation of `SignOut` for each of the three ways the call can end, and changes no state. |
| ContactsPage.With | src/pages/Contacts.tsx:38-40 | `handleChange(field, v)` sets that field to `v` and keeps the other three. |
| ContactsPage.ChangeLaws | src/pages/Contacts.tsx:38-40 | The last change of a field wins. Changes of different fields commute. Writing a field its own value changes nothing. |
| ContactsPage.ContactForm.constructor | src/pages/Contacts.tsx:13-18 | The form starts with four empty fields. |
| ContactsPage.ContactForm.HandleChange | src/pages/Contacts.tsx:38-40 | The form becomes `With` of the old form. |
| ContactsPage.ContactForm.HandleSubmit | src/pages/Contacts.tsx:20-36 | There is no check and no request. The success toast is always given, and the four fields are cleared. |

## Left out

- The hosted database and auth client are not modelled as code. They are an in-memory table, a key counter, a clock parameter, and boolean or optional outcome parameters. Row-level security and `updated_at` are not modelled. A panel call either succeeds or fails: the panels throw the `error` a call resolves with (`if (error) throw error`), so a returned error and a thrown one take the same path, and one boolean stands for both. Sign-out does not look at the returned `error`, so its outcome has three values (`AdminPage.SignOutOutcome`).
- Asynchrony is not modelled. The refetch after a change is not awaited in the source, but here it runs at once, and its outcome is a parameter. Interleaved or duplicate submits are not modelled.
- Toast texts, styling and timing are out. A toast is an outcome tag.
- `window.open`, the rendering, the tabs, and the colour pickers `getTypeColor` and `getCategoryColor` are presentation and are left out.
- Strings.ToLower: maps only the Basic Latin capitals and the Cyrillic capitals U+0400..U+042F. Full Unicode case mapping is not modelled.
- Strings.Trim: uses the white-space and line-terminator set of ECMAScript.
- Strings.ParseInt: decimal only. The `0x` prefix, the radix argument and precision loss beyond 2^53 are not modelled.
- Strings.LexLe: compares characters (Unicode code points) one by one; this agrees with UTF-16 code-unit order on the Basic Multilingual Plane, but not above U+FFFF. The database's collation of `category` may differ, but all category values here are ASCII.
- Sorting.SortBySorted: the sort of the model is stable, but the database promises no order between rows with equal sort keys, so the lemmas state only the sort order and the permutation.
- ContactsPage.With: takes one of the four field names. The source's computed key would add any other key to the object, but every caller passes one of the four.
- AnimatedCounter.NumericValue: the animation hook `useCountUp` and `Math.floor` over its floating count are left out. `Display` takes the reached count as a natural number.
- The static content pages, the router table, the footer and the home page carousel timer are not part of this model.
- The static catalogues of the reports and news pages are modelled as constants. The filter lemmas are stated for every list; on the constants themselves only the first-load view is stated (`ReportsPage.CatalogueListedAtFirst`, `NewsPage.ItemsShownAtFirst`), not particular searches.
- Browser constraint validation is not modelled. This covers the `required` and `type="email"` attributes of the inputs (ReportsManagement.tsx:283, NewsManagement.tsx:251 and 293, MembersManagement.tsx:257 and 277, Contacts.tsx:157-198). So `MembersManagement.NoFieldCheck` and `ContactsPage.ContactForm.HandleSubmit` also cover submits that the browser would block before the handler runs.

The cancel button only closes the dialog and keeps the form (ReportsManagement.tsx:374). A keyword field of blanks and commas such as `" , "` becomes an empty list, not null (ReportsManagement.tsx:137-138).
