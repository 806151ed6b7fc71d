# edesk page model

A Dafny model of the logic inside the single page of the edesk demo
(`app/page.tsx`). The page has a vertical tab menu. The Home panel shows a
location tree and a customer table, and the table can be filtered by
clicking a tree node. The Login panel shows a form that echoes what was
typed in a modal. Most of the page is rendering. The model covers the few
pieces of logic in it:

- `camelToTitle`, the label transform of the row-detail modal
  (module `TitleCase`, `title_case.dfy`);
- the projection of fixture items into table rows and the
  `(category, value)` filter applied to them (module `Customers`,
  `customers.dfy`);
- the row fields, their keys and the labels made from them (module
  `RowKeys`, `row_keys.dfy`);
- the per-row view modal and the label/value pairs it lists (module
  `ActionRows`, `action_row.dfy`);
- the login form: field edits, submit and close (module `Login`,
  `login.dfy`);
- the tab index, the tab menu and panel visibility (module `Tabs`,
  `tabs.dfy`);
- the home tab's filter state and the page state as a whole, where hidden
  panels stay mounted (module `Home`, `home.dfy`).

Every component's state is an immutable record, and every event handler is a
pure function from the old state to the new one. The fixture data comes from
`./sample-data`, which is not part of this model. It is an arbitrary
sequence of items. Characters are treated as ASCII: upper-casing maps
`a`–`z` to `A`–`Z`, and `trim` strips the six ASCII whitespace characters
(space, tab, line feed, vertical tab, form feed, carriage return).

Three facts of the code shape the model:

- The detail modal lists all seven fields of the row object, `state`
  included. That is one more than the table's six data columns
  (`ActionRows.DetailCountVsColumns`).
- The projection copies `state` as well as the six displayed fields.
- The filter indexes the row with whatever category string the tree node
  carries. A key that names no field yields no string, so it matches
  nothing. A key that names a different field, such as `name`, filters on
  that field (`Customers.KeepByKey`).

## Model

| member | source | states |
|---|---|---|
| TitleCase.ToUpper | app/page.tsx:67 | ASCII upper-casing: a lower-case letter becomes the capital 32 code points below it, every other character is unchanged, and whitespace stays whitespace |
| TitleCase.UpcaseFirst | app/page.tsx:67 | the `/^./` replacement keeps the length and touches only the first character, which becomes its upper-case form |
| TitleCase.TrimStart | app/page.tsx:68 | removes exactly the longest whitespace prefix: the result is a suffix of the input, everything cut is whitespace, and the result does not start with whitespace |
| TitleCase.TrimEnd | app/page.tsx:68 | removes exactly the longest whitespace suffix: the result is a prefix of the input, everything cut is whitespace, and the result does not end with whitespace |
| TitleCase.Trim | app/page.tsx:68 | the result is a slice of the input with only whitespace around it, and it neither begins nor ends with whitespace |
| TitleCase.CamelToTitle | app/page.tsx:64-69 | for every input, the label never begins or ends with whitespace |
| TitleCase.SpaceCapitalsInsertsOnlySpaces | app/page.tsx:66 | the capital replacement only inserts spaces: deleting spaces from its output gives the input with spaces deleted |
| TitleCase.SpaceCapitalsLength | app/page.tsx:66 | the capital replacement adds exactly one character per ASCII capital |
| TitleCase.SpaceCapitalsShape | app/page.tsx:66 | on whitespace-free input, an output character is a space exactly when the next one is a capital, and the output ends with the input's last character |
| TitleCase.CamelToTitleUnfold | app/page.tsx:65-68 | on whitespace-free input, the label is the spaced string with its first character upper-cased, or with the leading space cut off when the input starts with a capital |
| TitleCase.CamelToTitleRemoveSpaces | app/page.tsx:65-68 | on whitespace-free input, deleting every space from the label gives the input with its first character upper-cased |
| TitleCase.CamelToTitleLength | app/page.tsx:66-68 | on whitespace-free input, the label has one more character per capital, except for a capital in first position |
| TitleCase.CamelToTitleWords | app/page.tsx:65-68 | on whitespace-free input, a label character is a space exactly when the next one is a capital, and the space is the only whitespace in the label |
| TitleCase.TitleOfLowerWord | app/page.tsx:64-69 | an all-lower-case identifier becomes the same word with a capital first letter |
| TitleCase.TitleOfTwoWords | app/page.tsx:64-69 | a lower-case word followed by a capitalised word becomes the two words, the first capitalised, separated by one space |
| TitleCase.CamelToTitleExamplePinCode | app/page.tsx:64-69 | `pinCode` becomes `Pin Code` |
| TitleCase.CamelToTitleExampleCountry | app/page.tsx:64-69 | `country` becomes `Country` |
| TitleCase.CamelToTitleExampleId | app/page.tsx:64-69 | `id` becomes `Id` |
| Customers.Project | app/page.tsx:166-175 | a row carries the item's `id`, `name`, `address`, `city`, `state`, `pinCode` and `country` unchanged |
| Customers.Rows | app/page.tsx:165-176 | the rows are as many as the items, and each row has the fields of the item at the same position |
| Customers.ProjectRoundTrip | app/page.tsx:165-176 | a row survives the trip through an item, and two items give the same row exactly when they differ at most in fields the projection drops |
| Customers.FilteredRows | app/page.tsx:178-182 | never more rows than the fixture; with no filter one row per item carrying that item's fields, with a filter only rows that match it |
| Customers.ColumnsAreRowFields | app/page.tsx:131-163 | a field is a data column exactly when it is not `state` |
| Customers.Keep | app/page.tsx:179-181 | the filtered rows are no more than the rows, and every one matches the filter |
| Customers.KeepSelectsMatchingPositions | app/page.tsx:178-181 | the filter result is the rows read at exactly the matching positions, in increasing order: an order-preserving subsequence that keeps every match |
| Customers.KeepSoundAndComplete | app/page.tsx:179-181 | a row is in the result exactly when it is among the rows and its named field equals the filter value |
| Customers.KeepIdempotent | app/page.tsx:179-181 | filtering the result again with the same filter changes nothing |
| Customers.KeepIsIdentityIff | app/page.tsx:179-181 | the filter returns all rows exactly when every row matches |
| Customers.FilteredRowsContents | app/page.tsx:178-182 | with no filter the table gets every row, as many as the fixture; with a filter it gets exactly the matching rows, and never more rows than the fixture |
| Customers.FieldNamed | app/page.tsx:180 | indexing a row by a field's property name yields that field's value |
| Customers.UnknownKeyIsUndefined | app/page.tsx:180 | indexing a row yields one of its string fields exactly for the seven field names; any other key yields no string |
| Customers.KeepByKey | app/page.tsx:179-181 | filtering by a raw key keeps no more rows than given, and every kept row holds the value under that key |
| Customers.KeepByKeyAgrees | app/page.tsx:180 | indexing by a category's name gives the same result as the typed filter |
| Customers.KeepByUnknownKeyIsEmpty | app/page.tsx:180 | a category that names no field yields an empty table, not an error |
| RowKeys.FieldOrderIsPermutation | app/page.tsx:166-175 | the row object lists every field, each exactly once |
| RowKeys.KeyLabel | app/page.tsx:64-69 | `camelToTitle` turns every row key into the expected label: `pinCode` into `Pin Code`, and each other key into the same word capitalised |
| ActionRows.OpenModal | app/page.tsx:74-76 | the view button opens the modal from any state |
| ActionRows.CloseModal | app/page.tsx:78-80 | the modal's close request closes it from any state |
| ActionRows.Entries | app/page.tsx:100 | one entry per row field, and no key occurs twice |
| ActionRows.Details | app/page.tsx:100-117 | the modal lists one pair per row entry, and each value is the entry's value |
| ActionRows.EntriesIndexRow | app/page.tsx:100 | each entry the modal walks pairs a key with the value that indexing the row by that key yields |
| ActionRows.DetailLabels | app/page.tsx:100-117 | the labels are `Id`, `Name`, `Address`, `City`, `State`, `Pin Code` and `Country`, in row order, each next to its field's value |
| ActionRows.DetailCountVsColumns | app/page.tsx:131-176 | the modal lists one pair more than the table has data columns, because `state` is not a column |
| ActionRows.RowModalCycle | app/page.tsx:72-91 | opening shows the row's details, closing hides them, and opening then closing returns to the initial closed state |
| Login.SetUserId | app/page.tsx:250-252 | typing in the user-id field sets it and leaves the password and the modal flag unchanged |
| Login.SetPassword | app/page.tsx:262-264 | typing in the password field sets it and leaves the user id and the modal flag unchanged |
| Login.Submit | app/page.tsx:225-228 | submitting opens the modal and keeps both fields as typed |
| Login.Close | app/page.tsx:219-223 | closing hides the modal and empties both fields |
| Login.LoginModal | app/page.tsx:275-307 | the modal shows something exactly when it is open, and then two pairs: the user id, then the password |
| Login.EditFrames | app/page.tsx:250-264 | editing one field sets that field and leaves the other field and the modal flag unchanged; edits of the two fields commute |
| Login.SubmitEchoes | app/page.tsx:215-228 | submitting opens the modal without validation, keeps both fields, and the modal shows them verbatim |
| Login.CloseResets | app/page.tsx:219-223 | closing from any state hides the modal and resets both fields to empty, which is the initial state |
| Login.LoginSession | app/page.tsx:211-228 | typing, submitting and closing shows the typed values and then returns the form to its initial empty state |
| Tabs.HandleChange | app/page.tsx:365-367 | a tab change makes the reported value the active index |
| Tabs.HandleChangeSets | app/page.tsx:364-367 | a tab change sets the index to the reported value, and repeating it changes nothing |
| Tabs.AtMostOnePanelVisible | app/page.tsx:372-377 | for any index at most one of panels 0 and 1 is visible, and a panel is visible exactly when its index is the active one |
| Tabs.InitialShowsHome | app/page.tsx:364-377 | the page opens with the home panel visible and the login panel hidden |
| Tabs.PanelsOfMenuTabs | app/page.tsx:313-334 | of the four menu tabs, choosing one of the first two shows a panel and choosing the third or fourth shows none |
| Home.ClickNode | app/page.tsx:342-345 | a tree click makes the clicked node's category and value the table filter |
| Home.ChangeTab | app/page.tsx:362-378 | a tab selection sets the active index and leaves the home and login state as they were |
| Home.InitialShowsAll | app/page.tsx:341-356 | before any tree click the table gets every fixture row |
| Home.ClickNodeShowsMatching | app/page.tsx:342-345 | after a tree click the table gets exactly the rows whose named field equals the node's value, whatever the filter was before |
| Home.ClickNodeReplaces | app/page.tsx:342-345 | a second click replaces the first filter instead of narrowing it |
| Home.TabSwitchKeepsState | app/page.tsx:362-378 | switching tabs changes only the index, so switching away and back keeps the filter and the typed login fields |

## Left out

- Rendering, MUI styling (`MODAL_STYLE`, `sx` props) and layout have no behaviour to state. This includes the literal spaces the JSX puts before a label or value.
- `DataGrid` pagination (default page size 20, options 5/10/15/20), sorting and column rendering are third-party library code.
- The `RichTreeView` tree and the `getItem` lookup of the clicked node are foreign calls. The click handler is modelled as taking the node's `(category, value)` pair directly.
- The `./sample-data` fixtures are not part of this model. Items are an arbitrary sequence, and every field is a string, as the `Record<string, string>` cast of the row suggests.
- Object.entries order is JavaScript runtime semantics. The detail modal is modelled with the row's keys in the order of the object literal that builds the row. That is the order Object.entries gives for these non-numeric keys.
- The Edit and Delete buttons have no handlers.
- Customers.UnknownKeyIsUndefined: a key that names no row field is modelled as yielding nothing. In JavaScript, a key such as `toString` or `constructor` yields a member inherited from `Object.prototype`. Such a member is not a string, so the filter outcome is the same.
- `event.preventDefault()` and the browser's constraint validation of the `required` fields are DOM behaviour. `Login.Submit` models `handleSubmit` itself, which checks nothing.
- React batches state updates and re-renders asynchronously. Each handler is modelled as one atomic step, so `closeModal`'s three setters are one transition.
- TitleCase.ToUpper: upper-casing is ASCII only. JavaScript's `toUpperCase` also maps non-ASCII letters, sometimes to several characters, and the model leaves those letters unchanged.
- TitleCase.Trim: only the six ASCII whitespace characters are stripped. JavaScript's `trim` also strips Unicode spaces and line separators.
