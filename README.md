# Order engine of the "Sabor a Mexico" front desk

This project models the core of the order server (`server.js`) in Dafny:

- the in-memory order store `DB`;
- order creation, with its defaults and validation;
- the lifecycle of an order (NEW, IN_PROGRESS, COMPLETED, CANCELED) driven by the ACCEPT, DONE and CANCEL actions;
- the order listing, with its optional date and status filters and newest-first order;
- the daily summary counts and the prep-time filter;
- the business date `YYYY-MM-DD` built by `pad2` and `getBusinessDate`;
- the CSV export, with its quoting of fields.

Modules, in dependency order:

| module | file | models |
|---|---|---|
| `Wrappers` | wrappers.dfy | `Option` (absent, `null`, `undefined`) and `Result` (an HTTP error reply) |
| `Text` | text.dfy | `String(n)` for numbers, `join`, a splitter used to read dates back, character counting |
| `BusinessDates` | dates.dfy | `pad2`, `getBusinessDate` |
| `Orders` | orders.dfy | the order record, the status names, the status/timestamp invariant |
| `Lifecycle` | lifecycle.dfy | the transition table of the PATCH handler |
| `Store` | store.dfy | `DB` as the class `OrderStore`: the create and PATCH handlers, which change the store in place |
| `Reports` | reports.dfy | the listing (filter and sort) and the summary |
| `Csv` | csv.dfy | `toCsv`, a row and the document; a strict reader of the same format for the round trips |
| `Export` | export.dfy | the items column, the rows, and the export's line-building loop |

The store is a class whose methods reassign its `db` sequence. Its invariant `Valid()` has two parts. The ids are 1, 2, … in store order, which is what a store that started empty keeps. Each order's set timestamps match its status.

The methods do not require `Valid()`, because a store loaded from disk may be anything. Instead they promise that a valid store stays valid.

The lifecycle, the listing, the summary and the CSV text are pure functions, matching the source's expressions. Each is given a partner:
- the lifecycle has an independently listed set of status edges;
- the listing has a multiset characterisation;
- the summary counts agree with the listing;
- the CSV rendering has a reader, and a round trip is proved at field, record and document level;
- the business date has a date reader and a round trip;
- the items column has an append law: each item's text, in order, after a separator.

The export's `for` loop over the orders is a method with a loop invariant. Its result is proved to be the CSV document of the header and each order's record, and to read back as the header followed by each order's fields.

`Store.Scenario` is a usage example with no counterpart in the source. It drives a fresh store through two creates, an empty create, ACCEPT twice, DONE, CANCEL and an unknown id. It asserts the replies that follow from the contracts alone.

## Model

| member | source | states |
|---|---|---|
| Store.OrderStore.constructor | server.js:13 | a new store is empty, has never been saved and is valid |
| Store.OrderStore.Create | server.js:50-72 | missing or empty items: the error reply, with the store and the save count unchanged. Otherwise exactly one NEW order is appended and the store is saved once. Its id is the last order's id plus one, or 1 when the store is empty. Its `createdBy`, `orderType` and `notes` default to "FrontDesk", "Takeaway" and "". No timestamp other than `createdAt` is set. The reply carries the new id and NEW. A valid store stays valid |
| Store.OrderStore.ApplyAction | server.js:85-107 | an unknown id gives NotFound, and a rejected action or status gives InvalidTransition; in both cases the store is unchanged and not saved. Otherwise only the first order with that id is replaced, by the lifecycle step's result; the store is saved once and the reply is the new status. A valid store stays valid |
| Store.IndexOfId | server.js:89 | `find` returns the first order with the id; None exactly when no order has it |
| Store.IndexOfSequentialId | server.js:57 | when ids are sequential, order `id` is at index `id - 1`, and ids outside 1..N are not found |
| Orders.StatusNameInjective | server.js:62 | distinct statuses have distinct stored names |
| Lifecycle.StepFollowsEdges | server.js:92-103 | only ACCEPT, DONE and CANCEL are ever accepted; any other action text is rejected. An accepted ACCEPT leads to IN_PROGRESS, DONE to COMPLETED and CANCEL to CANCELED, along one of the five lifecycle edges. Conversely, every edge from the current status is taken by one of the three actions |
| Lifecycle.TerminalIsFinal | server.js:95-102 | COMPLETED and CANCELED orders reject every action |
| Lifecycle.AcceptTwiceRejected | server.js:92 | after a successful ACCEPT, a second ACCEPT is rejected |
| Lifecycle.Step | server.js:92-103 | the order after the request's action, or None when it is rejected; its properties are carried by StepFollowsEdges, StepKeepsRecord and StepStampsOnce |
| Lifecycle.StepKeepsRecord | server.js:92-100 | for any order, an accepted step changes only the status and its action's timestamp, which becomes `now`; id, items, dates and texts are kept |
| Lifecycle.StepStampsOnce | server.js:92-100 | a step keeps the status/timestamp invariant and changes only the status and the one timestamp of its action. That timestamp was unset before and is `now` after |
| Reports.Filter | server.js:78-79 | the filtered list contains each order that satisfies the predicate exactly as often as the input does, and no other order |
| Reports.FilterAppend | server.js:78-79 | filtering a concatenation is the concatenation of the filtered parts, so kept elements stay in input order |
| Reports.FilterSingleton | server.js:112 | a single order is kept exactly when it satisfies the predicate |
| Reports.OnDateAppend | server.js:112 | an order appended to the store is appended to its date's list and to no other, so each date's list is in store order |
| Reports.FilterKeeps | server.js:112 | every order a filter keeps satisfies it and comes from the filtered list |
| Reports.DisjointFiltersBounded | server.js:113-116 | filters by three mutually exclusive statuses together select at most the whole list |
| Reports.FilterMonotone | server.js:118-119 | a predicate implied by another, on the list's elements, selects no fewer elements |
| Reports.Insert | server.js:80 | inserting into a newest-first list keeps it newest first and adds exactly that order |
| Reports.SortByIdDesc | server.js:80 | the sort's result is ordered by descending id and is a permutation of its input |
| Reports.ListOrders | server.js:75-82 | the listing is ordered by descending id. It holds each order matching the date and status filters as often as the store does, and no other order. An empty filter is no filter |
| Reports.ListedIsStored | server.js:77-79 | every listed order is a stored order |
| Reports.ListStrictlyDescending | server.js:75-82 | when stored ids strictly increase, the listing's ids strictly decrease, so no order appears twice |
| Reports.Summary | server.js:110-120 | the summary for the effective date: its total, its three status counts and each qualifying order's prep interval in ms; its properties are carried by SummaryCountsBounded, SummaryAgreesWithList and PrepOnlyCompleted |
| Reports.SummaryCountsBounded | server.js:110-116 | completed + canceled + inProgress never exceeds total |
| Reports.SummaryAgreesWithList | server.js:110-116 | the summary's counts for a date equal the sizes of that date's listings: all orders, COMPLETED, CANCELED and IN_PROGRESS |
| Reports.PrepKeepsCompleted | server.js:119 | among consistent orders, every order the prep filter keeps is COMPLETED and has a non-negative interval |
| Reports.PrepOnlyCompleted | server.js:118-120 | in a consistent store, every order the prep filter keeps for the date is COMPLETED; there are at most `completed` intervals and each is non-negative |
| Store.ValidStoreReports | server.js:75-127 | in a valid store (ids 1..N, timestamps consistent with status) the listing is strictly newest first; the summary's prep intervals are at most `completed` and never negative |
| BusinessDates.Pad2 | server.js:30-32 | `padStart(2, "0")` of the decimal text; its shape and value are carried by Pad2Shape |
| BusinessDates.BusinessDate | server.js:34-39 | year, one-based month and day joined with `-`; carried by BusinessDateRoundTrip, BusinessDateInjective and BusinessDateLayout |
| BusinessDates.Pad2Shape | server.js:30-32 | the padded text is at least two digits and denotes `n`. Below 10 it is "0" followed by the digit; from 10 on it is `String(n)`; below 100 it is exactly two characters |
| BusinessDates.BusinessDateRoundTrip | server.js:34-39 | splitting the date on `-` reads back the year, the one-based month and the day |
| BusinessDates.BusinessDateInjective | server.js:34-39 | different calendar days never share a business date |
| BusinessDates.FourDigitYear | server.js:35 | a year from 1000 to 9999 is written with four digits |
| BusinessDates.BusinessDateLayout | server.js:34-39 | for a four-digit year and a real month and day, the date is ten characters: dashes at positions 4 and 7, digits elsewhere |
| Text.NatToString | server.js:31 | `String(n)` of a non-negative integer is a non-empty string of digits |
| Text.NatToStringRoundTrip | server.js:31 | the digits written for `n` denote `n` |
| Text.IntToStringRoundTrip | server.js:157 | the text written for an integer id reads back as that id, sign included |
| Csv.ToCsv | server.js:140-146 | a field holding `"`, `,` or a line feed is quoted with its quotes doubled, any other is written as is; carried by FieldRoundTrip and PlainFieldUnchanged |
| Csv.QuoteAll | server.js:167 | quoting a record yields, at each position, `toCsv` of that field |
| Csv.BareRoundTrip | server.js:145 | a field written unquoted reads back up to the next comma or line feed |
| Csv.QuotedRoundTrip | server.js:143 | a quoted field with doubled quotes reads back as the original field |
| Csv.FieldRoundTrip | server.js:140-146 | any field written by `toCsv`, followed by a comma, a line feed or the end, reads back as that field |
| Csv.PlainFieldUnchanged | server.js:142-145 | a field without a quote, comma or line feed is written unchanged |
| Csv.QuoteAllPlain | server.js:138 | a record of such fields is written as the plain join, as the header line is |
| Csv.RowRoundTrip | server.js:156-169 | a rendered record reads back as its fields, however many of them need quoting |
| Csv.RenderLinesAppend | server.js:169 | appending a record to the document adds exactly its rendered line |
| Csv.CsvRoundTrip | server.js:138-174 | a document of records, each with at least one field, joined by line feeds reads back as those records |
| Text.JoinAppend | server.js:154 | joining one more part puts it after a separator at the end, or alone when there was none |
| Export.ItemText | server.js:150-153 | `qty`, `x `, the name, ` (note)` when there is a note and ` $price` when the price is a number; its place in the column is carried by ItemTexts and ItemsTextAppend |
| Export.ItemsText | server.js:149-154 | the item texts joined with " \| "; carried by ItemsTextAppend and ItemsSeparatorCount |
| Export.StampText | server.js:141 | a set timestamp as its decimal text, an unset one (`null`) as the empty string; it feeds RowFields |
| Export.ItemTexts | server.js:149-153 | the item texts are, position by position, the text of each line item |
| Export.ItemsTextAppend | server.js:149-154 | the items column of no items is empty. One more item puts its text at the end of the column, after " \| " unless it is the first |
| Export.ItemsSeparatorCount | server.js:149-154 | when no item text holds a `|`, the items column holds one `|` fewer than there are items |
| Export.RowFields | server.js:156-167 | an order's record has as many fields as the header |
| Export.Rows | server.js:148-170 | one record per listed order |
| Export.RowsWidth | server.js:133-137 | every exported record has the header's width, so every record has at least one field |
| Export.HeaderIsRenderedRow | server.js:133-138 | the unquoted header line is what quoting the header would give |
| Export.RenderNextRow | server.js:169 | each pass of the loop adds the next order's rendered record |
| Export.RecordLines | server.js:148-170 | the loop yields one rendered record per listed order, in list order |
| Export.ExportReadsBack | server.js:138-174 | the header line followed by the record lines, joined with line feeds, is the CSV document of the header and the records, and reads back as them |
| Export.RenderExport | server.js:138-174 | the text is exactly the CSV document of the header followed by each listed order's record: each field quoted by `toCsv`, records joined by line feeds. Read back, it is the header followed by each order's fields, unchanged by the quoting |
| Export.ExportCsv | server.js:130-174 | the export for a date, or for today when the date is absent, is exactly the CSV document of the header and the records of that date's orders, in store order. It reads back as the header followed by those orders' fields |

## Left out

- HTTP routing, JSON body parsing, response codes and headers, the download file name, static files, the default routes (`server.js` after line 175) and the `/api/meta` handler. The error replies are the `Error` datatype.
- Reading `orders.json` at start-up and writing it in `saveDb`. A write is recorded only as the ghost counter `saves`. A store loaded from disk is arbitrary; the methods promise validity only for a store that was valid.
- The clock. `Date.now()` is the parameter `now`, and `getBusinessDate(new Date())` is a business-date or `today` parameter. The source reads the clock twice in the create handler (lines 55 and 67), so `Create` takes both values.
- Store.OrderStore.ApplyAction: the source mutates the found order object in place. The model replaces the element at its index, so aliasing of order objects is not represented (none escapes the handler).
- Store.OrderStore.ApplyAction: `Number(req.params.id)` can give NaN or a fraction, which matches no id. The model takes the id as an integer, so those requests are the same as any unknown id.
- Store.OrderStore.Create: request values are modelled by their JSON shape. `null` for `createdBy`, `orderType` or `notes` (which the source stores as `null`) is not distinguished from a string. A non-array `items` is `None`. Item fields are not validated, as in the source.
- Reports.PrepOnlyCompleted: the average prep time (`avgPrepMin`: division by 60000, mean, rounding with `toFixed(1)`) is floating-point arithmetic and is left out. The report carries the prep intervals in milliseconds instead.
- Export.ItemText: a line item whose `name`, `qty` or `note` is absent or not a string is not represented. `${it.name}` would render it as `undefined`, but `LineItem` holds a string name, an integer quantity and a string note ("" when absent). `price.toFixed(2)` is the parameter `fixed2`. The JavaScript number formatting of `qty` and of timestamps is modelled only for integers, and only in plain decimal notation (no exponent form).
- BusinessDates.BusinessDate: years are non-negative. The calendar arithmetic of `Date` (month and day from an instant and a time zone) is left to the caller.
- Csv.CsvRoundTrip: the export separates records with a single line feed and never quotes a carriage return, unlike the CRLF records of RFC 4180. The reader follows what the code writes.
- Money totals: `server.js` computes no subtotal, tax or total, so none are modelled.
- `common.js` (shared front-end helpers) is not part of this model.
