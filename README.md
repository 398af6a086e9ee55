# neuq-free-classroom in Dafny

This project models the logic of neuq-free-classroom. That program scrapes the
timetable portal of Northeastern University at Qinhuangdao (东北大学秦皇岛分校教务系统)
for free classrooms. It also serves a preview page and renders classroom lists
as images. The model covers five pieces of the program.

- **The scraping client** (`JwxtClient`, `src/neuq-jwxt-client.ts`):
  - It extracts the login salt with the script pattern
    `CryptoJS\.SHA1\('([^']+)-' \+ form\[.*?password.*?\]\.value\)`. The model
    defines the pattern as a ghost predicate. An executable matcher is proved
    equal to it, and that matcher is proved to find the leftmost match.
  - It builds the salted-hash login form and tests for success by the final URL.
  - It serialises a search request into form fields.
  - It reads names out of the result table. Each cell is trimmed and its
    white-space runs are collapsed, and then cell 1 of each row is kept.
  - The client is a class whose state is the trace of its exchanges with the
    portal. Every POST in the trace comes right after the 3-second pause.
- **The fetch job** (`FetchJob`, `src/main.ts`):
  - It scans the arguments: `-u`/`-p`, where the last setting wins.
  - Credentials from the arguments take precedence over `.env.json`.
  - It logs in, then issues one search per period 1..12, in order. Each result
    goes to `free-classroom-data/gxg-<date>-<i>-<i>.json`.
- **The request record and its code tables** (`Types`, `src/type.ts`):
  - Each table is a datatype with its code.
  - Decoding a form is the inverse of serialising a record's entries.
- **The preview server's logic** (`VisualizationServer`, `src/visualization-server.ts`):
  - It validates periods with `parseInt`.
  - It generates the deterministic mock occupancy. The floating-point test is
    done exactly in integers, over the modulus 233280.
  - It answers the two API routes.
  - It builds the free/occupied summary of the preview page: first five
    occupied rooms, then a note of how many more.
- **The image renderer** (`ImageGenerator`, `src/image-generator.ts`):
  - A canvas context is a class. The drawing steps update its style fields in
    place and append draw commands.
  - The layout arithmetic of the list is proved: placement, the cut-off after
    48 items, the ellipsis, and the clamped total line.

JavaScript semantics the program relies on are modelled in `JsText`:
- `String.prototype.trim` and `\s`, over ECMAScript's white space and line terminators;
- `replace(/\s+/g, " ")`, `includes`, and `Number#toString` on integers;
- the global `parseInt` without a radix: it skips leading white space, reads a
  sign, reads `0x` as hexadecimal, reads the longest run of digits, and gives
  `NaN` (here `None`) otherwise.

A login script written as `CryptoJS.SHA1('<salt>-' + form.password.value)` does
not match the pattern, which requires `form[`. Such a page yields no salt, and
the password is hashed as `undefined-<password>`
(`JwxtClient.DotPasswordFieldIsNotMatched`).

## Model

| member | source | states |
|---|---|---|
| JsText.Trim | src/neuq-jwxt-client.ts:86 | `trim()` leaves a slice of the input with only white space cut off on either side and no white space at either end |
| JsText.TrimKeepsVisible | src/neuq-jwxt-client.ts:86 | `trim()` drops white space only: every other character of the input is kept, in order |
| JsText.CollapseEnds | src/neuq-jwxt-client.ts:86 | collapsing white-space runs gives an empty text exactly for an empty input, turns a leading or trailing run into one plain space, and keeps a non-white-space first or last character |
| JsText.CollapseSingleSpaced | src/neuq-jwxt-client.ts:86 | after `replace(/\s+/g, " ")` the only white space left is single plain spaces, never two in a row |
| JsText.CollapseKeepsVisible | src/neuq-jwxt-client.ts:86 | collapsing keeps every non-white-space character, in order |
| JsText.CollapseWhiteSpace | src/neuq-jwxt-client.ts:86 | `replace(/\s+/g, " ")` never lengthens a text and leaves it empty exactly when it was empty |
| JsText.CollapseOfWhiteSpaceRun | src/neuq-jwxt-client.ts:86 | a whole run of white space, however long, becomes exactly one plain space |
| JsText.CollapseOfOne | src/neuq-jwxt-client.ts:86 | a single white-space character becomes a plain space and any other character is kept |
| JsText.CollapseOfAppend | src/neuq-jwxt-client.ts:86 | wherever a cut does not split a run of white space, the text collapses piece by piece, so each run's space stands in the run's own place and nothing is added or dropped between runs |
| JsText.IndexOf | src/neuq-jwxt-client.ts:72 | the first occurrence of a substring at or after a position, or none anywhere from there |
| JsText.Includes | src/neuq-jwxt-client.ts:72 | `includes` holds exactly when the substring occurs somewhere |
| JsText.LineLength | src/neuq-jwxt-client.ts:43 | the first line of a text (what a regular expression's `.` can span) has no line terminator and ends at one or at the end |
| JsText.NatToString | src/main.ts:81 | the decimal numeral of a count is digits only, without a leading zero unless the count is zero |
| JsText.IntToString | src/neuq-jwxt-client.ts:100 | `toString()` of an integer is non-empty and starts with `-` exactly for negatives |
| JsText.ParseInt | src/visualization-server.ts:58 | `parseInt` without a radix gives `NaN` unless the text holds a digit, and gives `NaN` for a text starting with anything but white space, a sign or a digit |
| JsText.ParseIntOfIntToString | src/visualization-server.ts:58 | `parseInt` reads back every printed integer as itself |
| Types.ClassroomTypeFromCode | src/type.ts:2-16 | the classroom-type codes are exactly 1..12 and 21, each the code of exactly one label |
| Types.CampusFromCode | src/type.ts:21-25 | 本部 = 1, 北戴河 = 2, 新校区 = 3, and no other code |
| Types.BuildingFromCode | src/type.ts:30-40 | the building codes are exactly 1..9, one building each |
| Types.CycleTypeFromCode | src/type.ts:45-48 | 天 = 1 and 周 = 2, and no other code |
| Types.RoomApplyTimeTypeFromCode | src/type.ts:53-56 | 小节 = 0 and 时间 = 1, and no other code |
| Types.LabelsIdentify | src/type.ts:2-56 | in every table no two labels are the same, so each label names one code |
| Types.Stringify | src/neuq-jwxt-client.ts:100 | one form pair per entry, each with the entry's key |
| Types.DecodeForm | src/type.ts:61-85 | a form missing any required property reads back as no request; a request read back has the name and dates found under their keys |
| Types.LookupPresent | src/type.ts:61-85 | with distinct keys, a present property is found under its key with its string value and an absent one is not found |
| Types.LookupEachField | src/type.ts:61-85 | the form of a request holds each required property under its key, and each optional one exactly when present |
| Types.DecodeStringifiedEntries | src/type.ts:61-85 | reading back the serialised entries of any request record gives that record, optional properties included |
| JwxtClient.TailFoundIff | src/neuq-jwxt-client.ts:43 | the executable test of the lazy tail decides `.*?password.*?\]\.value\)` on the rest of the line |
| JwxtClient.MatchSalt | src/neuq-jwxt-client.ts:43-45 | a captured salt is non-empty and has no `'` |
| JwxtClient.SaltAtIff | src/neuq-jwxt-client.ts:43 | the executable matcher at a position succeeds with a salt exactly when the pattern matches there with that capture |
| JwxtClient.MatchIsUnique | src/neuq-jwxt-client.ts:43 | at any position the pattern allows at most one capture group |
| JwxtClient.MatchSaltSpec | src/neuq-jwxt-client.ts:43-45 | the salt is the capture of the leftmost match, and there is none exactly when the pattern matches nowhere |
| JwxtClient.MatchedSaltShape | src/neuq-jwxt-client.ts:43-45 | a matched salt is non-empty, has no `'`, and occurs in the script followed by `-'` |
| JwxtClient.NoMatchWithoutBracket | src/neuq-jwxt-client.ts:43 | a script without `[` never matches |
| JwxtClient.FirstSalt | src/neuq-jwxt-client.ts:39-48 | the salt of the first script that matches, none of the earlier scripts matching; none exactly when no script matches |
| JwxtClient.SaltFromScripts | src/neuq-jwxt-client.ts:39-48 | the loop yields the salt of the first matching script, ignoring later ones, and none exactly when no script matches |
| JwxtClient.HashInput | src/neuq-jwxt-client.ts:67 | `${salt}-${password}`: it starts with the salt, or with `undefined` when there is none, and ends with a dash and the password |
| JwxtClient.HashInputOfPage | src/neuq-jwxt-client.ts:61-67 | the hashed text is `<salt>-<password>`, or `undefined-<password>` when no script matched |
| JwxtClient.DotPasswordFieldIsNotMatched | src/neuq-jwxt-client.ts:39-67 | a page whose script is `CryptoJS.SHA1('<salt>-' + form.password.value)`, for any salt without `[`, yields no salt, and the password is hashed as `undefined-<password>` |
| JwxtClient.LoginForm | src/neuq-jwxt-client.ts:65-68 | the login form has exactly two fields: the username unchanged and SHA1 of the hash input |
| JwxtClient.LoginSucceeded | src/neuq-jwxt-client.ts:72 | login succeeded exactly when `homeExt.action` occurs in the final URL |
| JwxtClient.CellText | src/neuq-jwxt-client.ts:86 | a cell's normalised text is never longer than its raw text |
| JwxtClient.CellTextShape | src/neuq-jwxt-client.ts:86 | a cell's text has no white space at either end, only single spaces inside, and all the raw text's other characters in order |
| JwxtClient.CollapseSingleSpacedIsIdentity | src/neuq-jwxt-client.ts:86 | collapsing leaves any already single-spaced text unchanged, whether or not it starts with its space |
| JwxtClient.CellTextIdempotent | src/neuq-jwxt-client.ts:86 | normalising a cell's text a second time changes nothing |
| JwxtClient.CellTextOfPlainText | src/neuq-jwxt-client.ts:86 | a cell without white space is kept as it is |
| JwxtClient.NormalizedRow | src/neuq-jwxt-client.ts:82-87 | a row keeps one normalised text per cell, in cell order |
| JwxtClient.SecondCells | src/neuq-jwxt-client.ts:91 | `line[1]` of each row, in row order, and undefined for a row with fewer than two cells |
| JwxtClient.NamesFromTable | src/neuq-jwxt-client.ts:79-91 | one entry per row in row order: the normalised second cell, or undefined when the row has fewer than two cells |
| JwxtClient.ExtractedNames | src/neuq-jwxt-client.ts:79-91 | one entry per row: the normalised second cell, or none when the row has fewer than two cells |
| JwxtClient.ThreeRowExample | src/neuq-jwxt-client.ts:79-91 | rows `1 GX101`, `2 GX102` and `3` with an empty name give `GX101`, `GX102` and the empty name |
| JwxtClient.SerializeEntries | src/neuq-jwxt-client.ts:97-101 | one form pair per entry, in entry order, with the key verbatim and the value's string form |
| JwxtClient.PauseKeptByAppend | src/neuq-jwxt-client.ts:94-95 | appending a call's events keeps every POST of the trace right after the pause |
| JwxtClient.Client.constructor | src/neuq-jwxt-client.ts:16-22 | a new client has exchanged nothing yet |
| JwxtClient.Client.Login | src/neuq-jwxt-client.ts:60-73 | fetch the page, pause, post the salted-hash form; success is the final-URL test, and the pause comes before the POST |
| JwxtClient.Client.GetFreeClassroom | src/neuq-jwxt-client.ts:94-108 | pause, post the serialised entries, and return the names extracted from the answered table |
| FetchJob.ParseArgs | src/main.ts:14-31 | the scan over the arguments returns the credentials its specification function gives |
| FetchJob.LastValueSpec | src/main.ts:18-24 | a flag's value is empty exactly when the flag is never followed by a non-empty argument, and otherwise it is the argument after its last such setting |
| FetchJob.ArgsCredentials | src/main.ts:26-30 | credentials come back only with a non-empty username and password, each one of the arguments |
| FetchJob.ArgsCredentialsSpec | src/main.ts:18-30 | credentials come back exactly when both flags are set, each taken from the last setting of its flag |
| FetchJob.FlagValueMayBeAFlag | src/main.ts:18-30 | the value after a flag is not skipped: `-u -p secret` gives username `-p`; a trailing flag sets nothing; later settings override earlier ones |
| FetchJob.ChooseCredentials | src/main.ts:45 | the arguments' credentials win; `.env.json` is used only when the arguments give none |
| FetchJob.PeriodQueryLiteral | src/main.ts:66-78 | the query for period i has the literal's entries in its order: 本部, 工学馆, empty name, one day, date to date, period slots i to i, page size 500 |
| FetchJob.PeriodQueryDecodes | src/main.ts:66-78 | the portal reads back from period i's form exactly the request meant, and it keeps to the documented page bounds |
| FetchJob.PeriodFormsDiffer | src/main.ts:64-78 | different periods are asked for with different forms |
| FetchJob.FileName | src/main.ts:81 | the path starts with `free-classroom-data/gxg-<date>-` and ends in `.json` |
| FetchJob.FileNameShape | src/main.ts:81 | the path is `free-classroom-data/gxg-<date>-`, the period's numeral, `-`, the numeral again and `.json`, and `parseInt` reads each numeral back as the period |
| FetchJob.FileNamesDiffer | src/main.ts:81 | different periods are written to different files |
| FetchJob.SearchTraceShape | src/main.ts:64-79 | the searches are posted one per period, in ascending order, each after the pause |
| FetchJob.FetchAllPeriods | src/main.ts:64-88 | twelve searches in period order, and file k holds period k's path and extracted names |
| FetchJob.RunMain | src/main.ts:42-89 | no credentials: nothing is requested; failed login: only the login exchange; otherwise the twelve searches and files, with every POST after the pause |
| VisualizationServer.ValidPeriod | src/visualization-server.ts:58-59 | a period parameter is accepted exactly when `parseInt` reads a number in 1..12 |
| VisualizationServer.ValidPeriodOfPrinted | src/visualization-server.ts:58-59 | a printed integer is accepted as itself exactly when it is in 1..12 |
| VisualizationServer.ValidPeriodIgnoresSuffix | src/visualization-server.ts:58-59 | anything after a period's numeral that does not start with a digit is ignored |
| VisualizationServer.OccupancyThreshold | src/visualization-server.ts:622-629 | the rate is exactly 0.7 for periods 1-4, 0.5 for periods 5-8 and 0.3 for every other period |
| VisualizationServer.TruncatingMod | src/visualization-server.ts:634 | JavaScript's `% 233280`: a remainder with the dividend's sign, congruent to it |
| VisualizationServer.PseudoRandom | src/visualization-server.ts:633-634 | the generator's numerator is congruent to `seed * 9301 + 49297` and lies in 0..233279 for a non-negative seed |
| VisualizationServer.MockClassrooms | src/visualization-server.ts:598-643 | fifteen rooms in base-list order, name, capacity and type copied, building 工学馆, free exactly when the generator's value exceeds the period's rate |
| VisualizationServer.DataRoute | src/visualization-server.ts:83-97 | status 400 with `Invalid period` unless the period is valid; otherwise the date, the period, 工学馆 and the period's mock rooms |
| VisualizationServer.ImageRoute | src/visualization-server.ts:56-75 | status 400 with `Invalid period` unless the period is valid; otherwise the image of the period's mock rooms |
| VisualizationServer.RoutesAgree | src/visualization-server.ts:56-97 | both routes accept the same periods and describe the same rooms |
| VisualizationServer.FreeRooms | src/visualization-server.ts:511 | the free filter keeps only free rooms, and no more rooms than the list holds |
| VisualizationServer.FreeRoomsOfAppend | src/visualization-server.ts:511 | the free filter keeps list order: filtering two lists one after the other gives the two filtered lists one after the other |
| VisualizationServer.FreeRoomsOfOne | src/visualization-server.ts:511 | a single room is kept by the free filter exactly when it is free |
| VisualizationServer.OccupiedRooms | src/visualization-server.ts:512 | the occupied filter keeps only occupied rooms, and no more rooms than the list holds |
| VisualizationServer.OccupiedRoomsOfAppend | src/visualization-server.ts:512 | the occupied filter keeps list order: filtering two lists one after the other gives the two filtered lists one after the other |
| VisualizationServer.OccupiedRoomsOfOne | src/visualization-server.ts:512 | a single room is kept by the occupied filter exactly when it is not free |
| VisualizationServer.PartitionOfRooms | src/visualization-server.ts:511-512 | the free and occupied lists together hold every room exactly once, so their lengths sum to the total |
| VisualizationServer.FreeRoomsMembership | src/visualization-server.ts:511 | a room is listed as free exactly when it is in the list and free |
| VisualizationServer.FreeSection | src/visualization-server.ts:554-563 | all free rooms, or the 暂无空闲教室 placeholder when there is none |
| VisualizationServer.OccupiedSection | src/visualization-server.ts:565-575 | `slice(0, 5)`: the leading min(n, 5) occupied rooms, and a note of n - 5 exactly when n > 5; the 无已占用教室 placeholder when n = 0 |
| VisualizationServer.RenderVisualization | src/visualization-server.ts:508-580 | the card shows the data's date, period and building, the total, the free count as the free list's length and the occupied count as the occupied list's, which add up to the total; its lists are the two sections |
| VisualizationServer.PreviewOfAcceptedPeriod | src/visualization-server.ts:83-97 | the preview of any accepted period counts fifteen rooms, free and occupied together |
| VisualizationServer.FirstPeriodHasNoFreeRoom | src/visualization-server.ts:631-643 | in period 1 no room is free, so the preview shows the 暂无空闲教室 placeholder and an occupied list with a note of ten more rooms |
| ImageGenerator.Context.constructor | src/image-generator.ts:35-36 | a new context is in the canvas defaults and has drawn nothing |
| ImageGenerator.Context.FillTextAt | src/image-generator.ts:123 | `fillText` records the text at its point with the current style and changes no state |
| ImageGenerator.Context.SetTextStyle | src/image-generator.ts:81-83 | the fill style, font and alignment are set, and nothing else changes |
| ImageGenerator.Placement | src/image-generator.ts:107-112 | item k is in column k mod 3 and row k div 3, at x = 40 + 240 * column and y = 140 + 24 * row |
| ImageGenerator.PlacementIsInjective | src/image-generator.ts:107-112 | no two items share a position |
| ImageGenerator.DrawnIffAmongFirst48 | src/image-generator.ts:115 | an item is drawn exactly when it is among the first 48 |
| ImageGenerator.DrawnItemsInsideCanvas | src/image-generator.ts:111-115 | every drawn item lies inside the canvas, below the list header |
| ImageGenerator.RowsNeeded | src/image-generator.ts:128 | `Math.ceil(n / 3)` is the least number of rows of three that holds n items |
| ImageGenerator.TotalY | src/image-generator.ts:127-130 | the total line's y is min(160 + 24 * ceil(n / 3), 520) |
| ImageGenerator.TotalLineBelowItems | src/image-generator.ts:127-130 | the total line is at least 20 below every drawn item |
| ImageGenerator.ItemsDrawn | src/image-generator.ts:107-124 | up to the 48th item, each item is drawn as `• ` and its name at its place, in index order |
| ImageGenerator.ItemsSkipped | src/image-generator.ts:115-121 | items after the 48th add no bullet: a longer list has exactly the bullets of its first 48 items |
| ImageGenerator.ItemsCommandsShape | src/image-generator.ts:107-124 | the `forEach` draws the first 48 items as bullets in index order, then the ellipsis one line above the last item's place when items were cut off, and nothing else |
| ImageGenerator.ListCommands | src/image-generator.ts:80-134 | an empty list draws only 暂无空教室; otherwise the header comes first and the total line, at its clamped y, last |
| ImageGenerator.ListCommandsShape | src/image-generator.ts:98-134 | a non-empty list draws the header at (40, 100), then the first 48 items, then the ellipsis when items were cut off, then the total line |
| ImageGenerator.EmptyListShape | src/image-generator.ts:90-96 | an empty list draws only 暂无空教室, centred at (400, 150) in red, with no header and no total line |
| ImageGenerator.EllipsisPlacement | src/image-generator.ts:115-121 | the ellipsis lands exactly on item 45, 46 or 47 for 49 to 51 items, and below the canvas from 64 items on |
| ImageGenerator.Title | src/image-generator.ts:73 | the title starts with `工学馆空教室查询 - `, the date and ` 第`, ends with `节`, and has the period's numeral in between |
| ImageGenerator.DrawItem | src/image-generator.ts:107-123 | the callback for one item appends its bullet, the ellipsis, or nothing, and leaves the style as it was |
| ImageGenerator.DrawItems | src/image-generator.ts:107-124 | the `forEach` appends every item's callback commands in index order and leaves the style as it was |
| ImageGenerator.DrawClassroomList | src/image-generator.ts:80-135 | the list's draw calls are appended in order, and the context ends in the style of the last text drawn |
| ImageGenerator.TitleShape | src/image-generator.ts:73 | the title is `工学馆空教室查询 - `, the date, ` 第`, the period's numeral (which reads back as the period) and `节` |
| ImageGenerator.DrawTitle | src/image-generator.ts:68-75 | the title is drawn centred at (400, 60) in bold 20px, header colour |
| ImageGenerator.DrawBorder | src/image-generator.ts:140-144 | a 2-pixel frame at (10, 10), 780 by 580, in the border colour |
| ImageGenerator.DrawFooter | src/image-generator.ts:149-156 | the footer text with the generation time, centred at (400, 580) |
| ImageGenerator.GenerateImage | src/image-generator.ts:27-56 | the draw calls are background, title, list, border and footer, in that order |
| ImageGenerator.ImageCommandsFrame | src/image-generator.ts:38-52 | the full-canvas background comes first, then the title, the list's calls in between, and the footer last |

## Left out

- The network: the HTTP client, its cookie jar, the GET of the login page, and the POSTs. The login page arrives as its script texts. The final URL of the login redirect and the search result table are function parameters of the form that was posted.
- The 3-second sleep. It is an event in the client's trace, without time.
- SHA1 from crypto-js. It is a function parameter.
- Cheerio's HTML parsing and selectors. A result table arrives as rows of raw cell texts, and a page as its script texts (`$(script).html() || ""` already applied).
- `URLSearchParams` percent-encoding and `params.toString()`. A form is its ordered list of key/value pairs.
- Express, its middleware, the static files, the two HTML pages and their CSS, and `start`/`listen`. The preview page's `renderVisualization` is modelled as the figures and lists it shows, not as HTML.
- The 500 responses of the `try`/`catch` blocks. No modelled step throws.
- Failures of the network, of `login` and of `getFreeClassroom`: in the model the portal always answers, so a login either succeeds or is refused and every search returns a table. In the program a rejected promise ends `main` partway through the period loop, with the files of the earlier periods already written; because `main()` is not awaited inside the `try` at src/main.ts:91-95, that rejection goes unhandled.
- `DateTime.now()` in Asia/Shanghai and `new Date().toLocaleString`. The date and the footer's time string are parameters.
- The canvas itself (pixels, glyph rendering), `toBuffer('image/png')`, `writeFile`, `mkdirSync`, `JSON.stringify` of a result, and console output. A written result file is its path paired with the names it holds.
- FetchJob.FileName: joins the directory and the file name with `/`, where `path.join` uses the platform's separator (`\` on Windows).
- Reading `process.argv` and `.env.json`. The argument list and the parsed file (absent when the file does not exist) are parameters, and a file without the two fields is not modelled.
- `generateClassroomInfoImageBuffer`, which the image route calls, is not part of this model. The route's response carries the arguments it is called with.
- src/server.ts, src/test-visualization.ts and src/generate-demo.ts are not part of this model. They are process plumbing and demo drivers.
- JsText.IndexOf: for an empty substring searched from past the end, JavaScript's `indexOf` gives the length and the model gives none; the model never searches for an empty substring.
- Strings are sequences of Unicode characters, not of UTF-16 code units, so a position or a length can differ from JavaScript's for characters outside the Basic Multilingual Plane; every literal the model searches for lies inside it.
- JsText.IntToString: does not model the exponent form JavaScript prints for magnitudes of 1e21 and more, nor non-integer numbers, because every number the program prints is a small integer.
- JsText.ParseIntOfIntToString: `parseInt` is modelled over unbounded integers, so the loss of precision past 2^53 is not modelled; every period, code and count here is far below it.
- VisualizationServer.MockClassrooms: the comparison `r / 233280 > rate` is stated on the numerators. The two floating-point quotients round monotonically, so their order is that of the exact fractions here. The model compares the numerators; it does not model the doubles themselves.
