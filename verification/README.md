# Equipment inventory dashboard — a Dafny model of its logic

The application is a Next.js front end to a content API that stores IT equipment records. Each record has:

- a code and a serial number;
- a status and a purchase date;
- a warranty text and an operating system;
- optional links to an employee (and through them an office), a device type, a device model and attached files;
- a rich-text comment.

Two copies of the dashboard exist: the page at the application root (`app/page.tsx`) and the home component (`components/home/home.tsx`). They share their helpers and differ in how they fetch. The home copy needs a session token, sends it as a bearer header and trims the search text.

This project models the logic of those views, of the sign-in form and of the authentication context:

- **`Text`** holds the pieces of JavaScript's string API the code relies on:
  - `toLowerCase` (ASCII letters);
  - `split` on one character and `join`;
  - `trim`, with JavaScript's white-space set;
  - the decimal rendering of integers in template literals.

  Each comes with its round trips: join after split, split after join, trim idempotent, parse after render.
- **`Inventory`** holds the record shapes the API returns.
- **`Derived`** holds the table's derived columns:
  - the warranty caption (`convertWarrantyToNumber`);
  - the time in use (`calculateYearUsed`, with its one-year borrow);
  - the calendar-year age (`calculateYear`) and the row highlight;
  - the file icon (`getFileIcon`).
- **`Query`** holds `fetchEquipmentInventories`:
  - it fills the query parameters step by step and sends the request;
  - it returns null early when it is not configured.

  The API is a function from request to optional response. None is the null the function returns when the call throws.
- **`Export`** holds `exportToExcel`:
  - the sweep over pages 1 .. totalPages, written as a loop whose accumulator is tied to a specification function;
  - the flattening of each record into a spreadsheet row;
  - the sheet and file names.
- **`Dashboard`** holds the state both views keep (office tabs, page, records, search box) and their handlers:
  - `handleSearchSubmit`;
  - the refresh effect;
  - the export.
- **`Session`** holds the authentication context as a class over `isAuthenticated`, `user`, `token` and a cookie jar. It has three operations (restore from cookies, login, logout), the `useAuth` guard, and the lemmas that relate them.
- **`LoginForm`** holds:
  - the email pattern `^[A-Z0-9._%+-]+@[A-Z0-9.-]+\.[A-Z]{2,4}$` (case-insensitive), decided by a function proved equal to the pattern's language;
  - the `isInvalid` flag;
  - `handleSubmit`, with its ordered checks and error messages.

Outside the model and passed in as parameters:

- the clock, as a (year, month index) pair `now`;
- the purchase date, already read as a (year, month index) pair;
- the API, as a function from request to optional response;
- the login endpoint, as a function from request to reply;
- `JSON.parse` and `JSON.stringify` of the user.

## Notes on the code's behaviour

- **Row highlight.** Both views compare calendar years only: `calculateYear` ≥ 6 (components/home/home.tsx:72-77, 205) and the inline computation (app/page.tsx:202-208). The month is never read, so a device bought in December 2020 is highlighted in January 2026, after five years and one month of use (`Derived.HighlightBeforeSixYearsOfUse`).
- **Failed pages in an export.** A page whose fetch returned null is skipped, and the records of the other pages are still written (app/page.tsx:403-412, `Export.FailedPageSkipped`).
- **No logout on 401.** The shared request client (lib/api.ts:8-13) is created without a response interceptor, so a 401 response does not log the user out; nothing of the kind is modelled.
- **The default import of the request client.** components/home/home.tsx:37 and context/AuthContext.tsx:12 import `api` as a default export, while lib/api.ts:8 exports it only by name. As written, `api` is therefore undefined. `api.get` throws inside the fetch's `try`, so the home view's fetch returns null (components/home/home.tsx:349-351). `api.post` throws the same way, so a login rejects with "Login failed" (context/AuthContext.tsx:66-67). The model keeps the API and the login endpoint as oracles, and these are among the behaviours they allow.
- **The user cookie.** The user cookie is read back with `JSON.parse`, which throws on malformed text. The restore effect then leaves `isAuthenticated` and `token` set and the user unchanged (context/AuthContext.tsx:43-47, `Session.Restored`, `Session.AuthProvider.Restore`).

## Model

| member | source | states |
|---|---|---|
| Text.Lower | app/page.tsx:55 | lower-casing keeps the length of the text |
| Text.LowerAppend | app/page.tsx:55 | lower-casing distributes over concatenation |
| Text.LowerKeeps | app/page.tsx:55 | a character that is not an ASCII letter occurs in the lower-cased text exactly when it occurs in the original |
| Text.FirstIndexOf | app/page.tsx:55 | None exactly when the character is absent; otherwise an in-range index holding it with no earlier occurrence |
| Text.Split | app/page.tsx:55 | `split` always yields at least one piece |
| Text.SplitPiecesFree | app/page.tsx:76 | no piece contains the separator |
| Text.SplitWithoutSeparator | app/page.tsx:76 | a text without the separator splits into itself alone |
| Text.SplitAfterFirst | app/page.tsx:55 | a separator-free text before the first separator is the first piece, and the rest is split on its own |
| Text.SplitAround | app/page.tsx:76 | splitting at any occurrence of the separator concatenates the pieces of both sides |
| Text.JoinSplit | app/page.tsx:76 | joining the pieces with the separator gives the original text back |
| Text.SplitJoin | app/page.tsx:76 | splitting a join of separator-free pieces gives the pieces back |
| Text.JoinAppend | app/page.tsx:427 | joining one more part appends the separator and that part |
| Text.Join | app/page.tsx:427-433 | no part joins to "", and the first part is a prefix of the joined text |
| Text.JoinEndsWithLast | app/page.tsx:427-433 | the joined text ends with the last part |
| Text.LeadingSpace | components/home/home.tsx:329 | the count of leading white-space characters: all of them are white space and the next one is not |
| Text.TrailingSpace | components/home/home.tsx:329 | the count of trailing white-space characters: all of them are white space and the one before is not |
| Text.Trim | components/home/home.tsx:329 | the result starts and ends with a non-space character, and is empty exactly when the input is all white space |
| Text.TrimPadding | components/home/home.tsx:329 | white space added around a trimmed text is removed again, and nothing else is |
| Text.TrimIdempotent | components/home/home.tsx:329 | trimming twice equals trimming once |
| Text.NatToString | app/page.tsx:57 | at least one digit, all decimal digits, no leading zero |
| Text.IntToString | app/page.tsx:306 | the rendering of an integer is never empty |
| Text.ParseNatToString | app/page.tsx:57 | reading the rendered digits back gives the number |
| Text.ParseIntToString | app/page.tsx:306 | reading a rendered integer back gives the integer, so distinct office ids give distinct tab keys |
| Derived.WarrantyNumber | app/page.tsx:47-56 | the number-word table: 1..5 exactly for "one".."five" (with `NumberWords[n-1]` the word), 0 for any other word |
| Derived.FirstWord | app/page.tsx:55 | the first piece of the space split holds no space |
| Derived.WarrantyYears | app/page.tsx:55-56 | the number read from a warranty text is at most 5 |
| Derived.UnitSuffix | app/page.tsx:57 | the unit is "year" with an "s" exactly when the number is greater than 1 |
| Derived.WarrantyLabel | app/page.tsx:57 | the caption starts with the decimal digits of the number followed by " year", and ends in "s" exactly when the number is greater than 1 |
| Derived.ConvertWarrantyToNumber | app/page.tsx:46-58 | every caption is the label of some number 0..5 |
| Derived.WarrantyIgnoresTrailingText | components/home/home.tsx:53-54 | only the first word counts: text after the first space never changes the number, which is the table lookup of the lower-cased word |
| Derived.WarrantyYearsByWord | app/page.tsx:47-56 | the number is k in 1..5 exactly when the lower-cased first word is the k-th number word |
| Derived.WarrantyLabelFaithful | app/page.tsx:57 | the label ends in "s" exactly when n > 1, and distinct numbers get distinct labels |
| Derived.WarrantyOneYear | app/page.tsx:46-58 | "one year" gives "1 year" |
| Derived.WarrantyTwoYears | components/home/home.tsx:44-56 | "Two Years" gives "2 years": the word is lower-cased first |
| Derived.WarrantySixYears | app/page.tsx:46-58 | "six years" gives "0 year": an unknown word is 0, in the singular |
| Derived.YearsMonthsUsed | app/page.tsx:64-71 | months in 0..11, and years * 12 + months equals the month difference of the two dates |
| Derived.DurationUnique | app/page.tsx:64-71 | any years/months split with months in 0..11 is that one |
| Derived.CalculateYearUsed | app/page.tsx:60-73 | the subtract-then-borrow steps compute the caption of the unique years/months split |
| Derived.UsedLabel | app/page.tsx:72 | the caption starts with the years' digits and " year", followed by "s" exactly when the years are not 1; it ends in "s" exactly when the months are not 1 |
| Derived.BorrowOneYear | app/page.tsx:67-70 | a negative month difference borrows exactly one year; otherwise both differences are kept as they are |
| Derived.YearUsedExamples | components/home/home.tsx:58-71 | sample durations, one of them with a borrow |
| Derived.UsedLabelZero | app/page.tsx:72 | zero is plural in both units: "0 years 0 months" |
| Derived.UsedLabelOne | app/page.tsx:72 | one is singular in both units: "1 year 1 month" |
| Derived.CalculateYear | components/home/home.tsx:72-77 | the calendar-year difference is the whole years in use plus 1 exactly when the current month index is below the purchase month |
| Derived.RowHighlighted | components/home/home.tsx:205 | a highlighted row has at least 61 months of use, and every row with 72 months or more is highlighted |
| Derived.HighlightInYearsUsed | components/home/home.tsx:205 | a row is highlighted exactly when its time in use is ≥ 6 years, or 5 years with the current month index below the purchase month |
| Derived.HighlightBeforeSixYearsOfUse | app/page.tsx:202-208 | the same 5 years and 1 month of use can go either way: a device bought in December 2020 is highlighted in January 2026, one bought in January 2020 is not highlighted in February 2025 |
| Derived.RowStyle | app/page.tsx:202-208 | the page view paints "red" and the home view adds "bg-blue-400" exactly when the row is highlighted |
| Derived.Extension | app/page.tsx:76 | the extension never contains a dot |
| Derived.IconFor | app/page.tsx:77-89 | pdf gives the PDF icon, xlsx/xls the spreadsheet icon, jpg/jpeg/png the image icon, and anything else the generic one |
| Derived.GetFileIcon | app/page.tsx:75-90 | the PDF, spreadsheet and image icons exactly for the lower-cased extensions pdf; xlsx, xls; jpg, jpeg, png — the generic icon otherwise |
| Derived.IconAfterLastDot | app/page.tsx:75-90 | the extension is the text after the last dot, and the icon is chosen by that text lower-cased |
| Derived.IconWithoutDot | components/home/home.tsx:79-94 | a name without a dot is classified by the whole name |
| Derived.PdfIconExample | app/page.tsx:75-90 | "Report.PDF" gets the PDF icon |
| Derived.LastDotExample | app/page.tsx:75-90 | "scan.pdf.zip" gets the generic icon |
| Derived.DotlessNameExample | app/page.tsx:75-90 | "png" gets the image icon |
| Query.ParamKeys | app/page.tsx:326-350 | the keys are the four fixed ones, plus the office key exactly when an office name is given, plus the five search keys exactly when a query is given, and no other key |
| Query.ParamValues | app/page.tsx:326-350 | page, page size 100, sort "code:asc", the six populated relations in order, the office name under the office key, and the same search value under all five search keys |
| Query.FiltersAvoidBaseKeys | app/page.tsx:340-350 | the filters never overwrite a fixed key, and the office key is not a search key |
| Query.BlankQueryStillFilters | components/home/home.tsx:328-336 | in the home view any non-empty query of white space alone still adds all five alternatives, each with the value "" |
| Query.BuildParams | components/home/home.tsx:310-336 | filling the dictionary step by step (trimming the query in the home view) gives exactly the expected parameters |
| Query.SearchUpdates | app/page.tsx:344-350 | the five single-key writes add exactly the five search keys with one value |
| Query.Headers | components/home/home.tsx:342-344 | the home view sends exactly an Authorization header "Bearer <token>"; the page view sends no header |
| Query.RequestFor | components/home/home.tsx:305-346 | no request exactly when the API address is empty or, in the home view, the token is; otherwise a request to `<api>/api/equipment-inventories` |
| Query.ResponseFor | app/page.tsx:319-322 | an unconfigured view resolves to null |
| Query.FetchEquipmentInventories | app/page.tsx:317-366 | the call sends the request for its arguments (or none), and returns the server's answer to it (or null) |
| Export.PageData | app/page.tsx:409-411 | a page whose call returned null contributes no record |
| Export.PageRequest | app/page.tsx:404-408 | each page sends at most one request, and none exactly when the view is not configured |
| Export.Swept | app/page.tsx:403-412 | no pages to sweep means no records |
| Export.SweepPages | app/page.tsx:397-412 | the loop sends the requests for pages 1 .. totalPages in order, and accumulates the concatenated records of the pages that answered |
| Export.PagesStep | app/page.tsx:403-412 | one more page extends the sweep by that page's request and records |
| Export.CollectSplit | app/page.tsx:403-412 | consecutive page ranges concatenate |
| Export.CollectNothing | app/page.tsx:403-412 | pages that all contribute nothing sweep to nothing |
| Export.CollectMembers | app/page.tsx:410 | an element is collected exactly when some page of the range holds it |
| Export.CollectSkip | app/page.tsx:409-411 | an empty page can be cut out of the range |
| Export.FailedPageSkipped | app/page.tsx:409-411 | a page whose call returned null is skipped: the result is the pages before it followed by the pages after it |
| Export.UnconfiguredSweepIsEmpty | components/home/home.tsx:305-307 | a view without API address (or, at home, without token) sends no request and exports nothing |
| Export.PagesMembers | app/page.tsx:410 | a record is exported exactly when some page of the range returned it |
| Export.SweepRequestsInOrder | app/page.tsx:403-408 | a configured view sends exactly one request per page, for pages 1 .. totalPages in increasing order |
| Export.RequestNamesPage | app/page.tsx:327 | the request for a page carries that page number |
| Export.FirstTexts | app/page.tsx:426 | the first-child texts exist exactly when every paragraph has a child, and then they are those texts in order |
| Export.CommentCell | app/page.tsx:425-427 | the comment flattens exactly when every paragraph has a first child |
| Export.Hyperlink | app/page.tsx:431 | the formula is `=HYPERLINK("`, then the API address and the file's url, and ends with the file's name and `")`, 18 characters around the two |
| Export.Hyperlinks | app/page.tsx:430-432 | one `=HYPERLINK("<api><url>"; "<name>")` formula per file, in order |
| Export.FilesCell | app/page.tsx:428-434 | no file list gives "" |
| Export.FilesCellAppend | app/page.tsx:428-434 | an empty list gives "", one file gives its formula, and another file appends ", " and its formula |
| Export.CommentCellAppend | app/page.tsx:425-427 | no paragraph gives "", one paragraph gives its first text, and another paragraph appends ", " and its first text |
| Export.ToRow | app/page.tsx:414-435 | a row exists exactly when the comment flattens. All twelve columns are stated: the code, OS type, purchase date and status as stored; the employee, office, device type and device model names, absent (`undefined`) when the relation is; the time-in-use and warranty captions; the comment cell and the files cell |
| Export.MapAll | app/page.tsx:414 | `map` with a callback that may throw: results exactly when no call throws, one per element, in order |
| Export.Rows | app/page.tsx:414-435 | one row per record, in the same order, and none when any record's comment cannot be flattened |
| Export.ExportFileName | app/page.tsx:441 | "ITAM_" + office name + ".xlsx", with "undefined" when no office is selected |
| Export.ExportOf | components/home/home.tsx:412-439 | the export crashes exactly when some record has a paragraph without children; otherwise sheet "ITAM", file `ITAM_<office>.xlsx`, and the rows are exactly `Rows` of the records, one per record in order |
| Export.EmptyParagraphCrashes | app/page.tsx:426 | one paragraph without children anywhere makes the whole export throw |
| Dashboard.OfficeName | app/page.tsx:399-401 | the name of the first office whose id renders as the tab key, and none exactly when no office matches |
| Dashboard.NoTabNoOffice | app/page.tsx:370-373 | the empty tab key selects no office |
| Dashboard.FirstTabSelectsFirstOffice | app/page.tsx:305-307 | the tab chosen when the offices arrive selects the first office |
| Dashboard.DashboardView.constructor | app/page.tsx:260-271 | initial state: page 1 of 1, no records, no offices, no tab, an empty search box |
| Dashboard.DashboardView.ShowOffices | app/page.tsx:304-307 | the offices are shown and the first one's tab is selected when there is one; nothing else changes |
| Dashboard.DashboardView.SetSearchQuery | app/page.tsx:141 | typing changes only the query text |
| Dashboard.DashboardView.HandleSearchSubmit | app/page.tsx:390-393 | the refresh trigger becomes the query and the page goes back to 1; nothing else changes |
| Dashboard.DashboardView.FetchData | components/home/home.tsx:358-374 | without a tab (or, at home, a token) or when the call returned null, nothing changes; otherwise the records, page count and total come from the response |
| Dashboard.DashboardView.ExportToExcel | app/page.tsx:396-442 | the export sends the sweep's requests in order and its outcome is the workbook of the swept records for the selected office |
| LoginForm.LastIndexOf | components/auth/login.tsx:20 | None exactly when the character is absent; otherwise the index of its last occurrence |
| LoginForm.SplitIsFirstAtAndLastDot | components/auth/login.tsx:20 | in any match the '@' is the first one and the final dot is the last dot |
| LoginForm.ValidateEmail | components/auth/login.tsx:19-20 | true exactly when the text is local '@' domain '.' tld, with the local part non-empty over `[A-Za-z0-9._%+-]`, the domain non-empty over `[A-Za-z0-9.-]` and a tld of 2 to 4 letters |
| LoginForm.IsInvalid | components/auth/login.tsx:22-25 | flagged exactly when the email is non-empty and does not match, so an empty field is never flagged |
| LoginForm.PlainAddressAccepted | components/auth/login.tsx:20 | "a.b+c@x-y.co.uk" matches |
| LoginForm.ShortEndingRejected | components/auth/login.tsx:20 | "a@b.c" (a one-letter ending) does not match |
| LoginForm.LongEndingRejected | components/auth/login.tsx:20 | "a@b.cdefg" (a five-letter ending) does not match |
| LoginForm.MissingLocalPartRejected | components/auth/login.tsx:20 | "@b.com" (an empty local part) does not match |
| LoginForm.SecondAtRejected | components/auth/login.tsx:20 | "a@b@c.com" (a second '@') does not match |
| LoginForm.Form.constructor | components/auth/login.tsx:10-14 | empty fields, no error, not loading |
| LoginForm.Form.SetEmail | components/auth/login.tsx:69 | typing changes only the email |
| LoginForm.Form.SetPassword | components/auth/login.tsx:83 | typing changes only the password |
| LoginForm.Form.HandleSubmit | components/auth/login.tsx:27-49 | `login` is called exactly when both fields are non-empty and the email matches. The emptiness message comes before the format message, and neither changes the session. On success the session is logged in and both `login` and the form navigate to "/". On failure the thrown message is shown. The form is never left loading |
| Session.Initial | context/AuthContext.tsx:34-36 | a provider starts signed out: no user, empty token |
| Session.Restored | context/AuthContext.tsx:39-48 | with both cookies present, signed in with the cookie's token and the parsed user; otherwise unchanged; cookies never change |
| Session.SessionCookies | context/AuthContext.tsx:59-60 | "token" = jwt and "user" = the serialised user, each for 7 days, every other cookie kept |
| Session.LoggedIn | context/AuthContext.tsx:58-64 | signed in as the returned user with the returned token, and both cookies written |
| Session.LoginError | context/AuthContext.tsx:67 | the server's message when it sent a non-empty one, "Login failed" otherwise |
| Session.LoggedOut | context/AuthContext.tsx:72-77 | signed out, both session cookies removed, every other cookie kept |
| Session.UseAuth | context/AuthContext.tsx:90-96 | the context when there is one; otherwise the error "useAuth must be used within an AuthProvider" |
| Session.LogoutIdempotent | context/AuthContext.tsx:72-79 | logging out twice equals logging out once |
| Session.RestoreAfterLogout | context/AuthContext.tsx:39-48 | after a logout the restore effect changes nothing and does not throw |
| Session.ReloadKeepsLogin | context/AuthContext.tsx:39-65 | a fresh provider restoring from the cookies a login wrote reaches the logged-in state |
| Session.RestoreAfterLogin | context/AuthContext.tsx:39-48 | restoring right after a login changes nothing |
| Session.OperationsKeepCoherent | context/AuthContext.tsx:34-79 | restore, login and logout keep "signed out implies no user and no token" |
| Session.Router.Push | context/AuthContext.tsx:65 | a navigation is appended to the router's history |
| Session.AuthProvider.constructor | context/AuthContext.tsx:14-37 | starts signed out over the browser's cookies; the API address defaults to "http://localhost:1337" |
| Session.AuthProvider.Restore | context/AuthContext.tsx:39-48 | the state becomes the restored state, and it throws exactly when both cookies are there and the user text does not parse |
| Session.AuthProvider.Login | context/AuthContext.tsx:51-69 | posts the credentials to `<api>/api/auth/local`. An accepted reply gives the logged-in state and a navigation to "/". A rejected reply throws its message and changes neither state, cookies nor history |
| Session.AuthProvider.Logout | context/AuthContext.tsx:72-79 | the logged-out state and a navigation to "/login" |

## Left out

- JSX rendering, the table, tabs, pagination, navbar and scroll-to-top button are presentation only.
- React's effect scheduling and dependency lists are not modelled; each handler and effect is one method call on the current state. This includes the stale closure of `exportToExcel` in `app/page.tsx`, which omits `searchQuery` from its dependencies.
- Concurrency (overlapping fetches, stale responses racing newer state) and the `isLoading` flag that `app/page.tsx` toggles around each fetch are left out, because calls here run one at a time.
- The page view's authentication-check effect (a redirect to "/login" without cookies) is left out: it is a routing side effect of the page, not part of the dashboard logic.
- The office-list request (`fetchOffices`) is not modelled; its successful outcome is `Dashboard.DashboardView.ShowOffices`. A failed request only logs.
- `new Date()` and the parsing of the stored date text are outside the model; the clock and the purchase date are (year, month index) parameters, and the day of the month is never read.
- XLSX's `json_to_sheet` and `writeFile` are foreign code; the model stops at the sheet name, the file name and the rows.
- The HTTP layer (axios and `lib/api.ts`) is an oracle from request to optional response, and the login endpoint one from request to reply.
- js-cookie's expiry behaviour is left out: a cookie records the lifetime it was set with, and the jar never expires entries on its own.
- `router.push` is reduced to the list of paths pushed.
- `JSON.parse` and `JSON.stringify` of the user are parameters. A cookie holding the text "null", which `JSON.parse` turns into a null user, is not distinguished from any other text that fails to give a user.
- What React does with the exception the restore effect throws is not modelled; the method reports it.
- Text.Lower: lower-cases ASCII letters only, because JavaScript's full Unicode case mapping is not modelled.
- Derived.WarrantyNumber: the warranty table has exactly the five number words; JavaScript's inherited object keys (a first word such as "constructor") are not modelled.
- An unset tab (`undefined` in `app/page.tsx`) is modelled as the empty key "", which both views treat the same way.
- `lib/auth.ts`, `hooks/useAuth.ts`, the navbar, the server pages and the layout are not part of this model.
