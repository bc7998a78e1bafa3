# Civic admin dashboard — a Dafny model

This project models the client-side behaviour of the civic administration
dashboard (`civic-admin-dashboard/scripts/main.js`): the single-page
navigation, the two modal dialogs and the page scroll lock they share, the
simulated real-time activity feed, the search filter of the reports table,
the civic-star appreciation form, and the fixed lookup tables the dashboard
draws its labels, icons, colours and chart series from.

The page's DOM is the state. Everything the script reads or writes in it is a
field of the class `Dashboard.Dashboard`:

- the `active` flags of the navigation items, page sections, time buttons and appreciation options;
- the visibility of each report row;
- the feed's items;
- the modal flags and the body's `overflow`;
- the form's checkboxes, message and preview caption;
- the civic-star counters;
- the chart's data.

The markup the page starts from is a `Markup` value given to the constructor.
Event handlers are the class's methods. A random pick is a method parameter.

The pure decisions each handler takes are functions with their own
properties. They sit in separate modules, and the methods are proved to
produce exactly those functions' results:

- `Text`: ASCII `toLowerCase`, `includes`, `substring(0, 100)`, `parseInt` and decimal printing;
- `Lookup`: the lookup tables;
- `Navigation`: exclusive activation and the insertion of the civic-stars item;
- `Overlay`: modal flags and the scroll lock;
- `Feed`: the bounded, newest-first activity feed;
- `Reports`: the row filter;
- `Appreciation`: the preview caption, the preview dialog and the star counter.

Behaviour of the code worth knowing, all stated in the contracts below:

- `showCivicStarsPage` puts an inline `display: block` on the civic-stars section that `switchPage` never removes (`civicStarsPinned`).
- `switchPage("map")` while no map exists schedules another `initMap`. Because the markup never changes, such a deferred call never builds a map (`RunDeferredMapInit`).
- Both modals write the same `document.body.style.overflow`. Closing either one releases the scroll lock while the other may still be open (`Overlay.SharedScrollLock`).
- Once both document listeners are registered, the Escape key reaches both. The report modal's listener runs first and closes it unconditionally. The civic-star listener then closes its modal only when that modal is active. Registration of the second listener rests on an assumption, given under "Left out" (`Dashboard.OnContentLoaded`).
- `resetCivicStarForm` does not call `updatePreviewButton`, so after a reset the preview button can still read "Preview Rewards" (`ResetCivicStarForm` leaves `previewCaption` unchanged).
- `parseInt(text) || 47` treats a count that reads as 0 like a missing one, so the star counter jumps from "0" to 48 (`Appreciation.NextCount`, and `SendsCountUp`'s precondition).

## Model

| member | source | states |
|---|---|---|
| Text.LowerChar | civic-admin-dashboard/scripts/main.js:427-428 | lower-cases exactly the ASCII capitals and leaves every other character alone |
| Text.Lower | civic-admin-dashboard/scripts/main.js:427-428 | `toLowerCase` keeps the length and maps each character through LowerChar |
| Text.LowerIdempotent | civic-admin-dashboard/scripts/main.js:427-428 | lower-casing twice is lower-casing once |
| Text.Contains | civic-admin-dashboard/scripts/main.js:428 | `includes` holds exactly when the query occurs at some position of the text |
| Text.ContainsEmpty | civic-admin-dashboard/scripts/main.js:428 | every text includes the empty query |
| Text.ContainsInfix | civic-admin-dashboard/scripts/main.js:1317-1326 | a string built as a + b + c includes b |
| Text.Excerpt | civic-admin-dashboard/scripts/main.js:1319 | `substring(0, 100)` is a prefix of the message, 100 characters long or the whole message when shorter |
| Text.DigitChar | civic-admin-dashboard/scripts/main.js:1417 | the digit written for a value below ten reads back as that value |
| Text.TrimStart | civic-admin-dashboard/scripts/main.js:1415 | `parseInt` skips exactly the leading white space: every skipped character is white space, and the rest is a suffix that starts with no white-space character |
| Text.DigitPrefix | civic-admin-dashboard/scripts/main.js:1415 | `parseInt` reads the longest run of leading decimal digits |
| Text.Digits | civic-admin-dashboard/scripts/main.js:1417 | a natural number is written as a non-empty run of decimal digits with no leading zero: the text is "0" itself or starts with a non-zero digit |
| Text.DigitsValueOfDigits | civic-admin-dashboard/scripts/main.js:1415-1417 | the digits written for n read back as n |
| Text.ParseDecimal | civic-admin-dashboard/scripts/main.js:1415-1417 | `parseInt` of the decimal text written for any integer gives that integer back |
| Text.ParseInt | civic-admin-dashboard/scripts/main.js:1415 | a text without any digit reads as NaN (None); a plain run of digits reads as its decimal value |
| Text.DecimalString | civic-admin-dashboard/scripts/main.js:1417 | the counter is written as a non-empty text: only digits for a non-negative number, a minus sign followed by digits for a negative one, and in both cases no leading zero |
| Lookup.MarkerColor | civic-admin-dashboard/scripts/main.js:279-288 | the fill is always one of the five category colours, the category's own when listed, the noise grey otherwise |
| Lookup.SampleIssuesHaveColors | civic-admin-dashboard/scripts/main.js:245-256 | all six sample issues have a category with its own marker colour |
| Lookup.ToastIcon | civic-admin-dashboard/scripts/main.js:548-556 | the icon is always one of the four severities' icons; an unknown severity gets the info icon |
| Lookup.ToastColor | civic-admin-dashboard/scripts/main.js:558-566 | the colour is always one of the four severities' colours; an unknown severity gets the info colour |
| Lookup.ToastStyleIsKnown | civic-admin-dashboard/scripts/main.js:548-566 | icon and colour of any toast belong to one and the same known severity |
| Lookup.ActivityIcon | civic-admin-dashboard/scripts/main.js:634-643 | a listed category gets its icon; any other gets the warning triangle |
| Lookup.AppreciationMessage | civic-admin-dashboard/scripts/main.js:1149-1160 | a known kind receives its own message from the table, an unknown kind the civic-star one, so the textarea always receives one of the three predefined messages |
| Lookup.AppreciationType | civic-admin-dashboard/scripts/main.js:1359-1366 | the display name is always one of the three award names; an unknown kind is a Civic Star Award |
| Lookup.AppreciationTablesAgree | civic-admin-dashboard/scripts/main.js:1359-1366 | the message table and the name table know the same three kinds; any kind gets the message and name of one known kind |
| Lookup.RewardName | civic-admin-dashboard/scripts/main.js:1368-1376 | a listed reward gets its display name; an unlisted reward value is shown as is |
| Lookup.ChartSeries | civic-admin-dashboard/scripts/main.js:443-463 | 30D and 90D show their eight-point series; every other label, 7D included, the seven-point weekly series |
| Navigation.IndexOf | civic-admin-dashboard/scripts/main.js:43 | `querySelector` finds the first element carrying the identifier |
| Navigation.CountTrueZero | civic-admin-dashboard/scripts/main.js:1199 | no element is selected exactly when the `:checked` count is zero |
| Navigation.SomeTrue | civic-admin-dashboard/scripts/main.js:1202 | the count is positive exactly when some element is checked |
| Navigation.OnlyAt | civic-admin-dashboard/scripts/main.js:1139-1141 | after a click only the clicked element is active |
| Navigation.OnlyAtCount | civic-admin-dashboard/scripts/main.js:1139-1141 | a click leaves exactly one active element |
| Navigation.Selected | civic-admin-dashboard/scripts/main.js:38-49 | after clearing all and activating the target, an element is active exactly when it is the first one carrying the target's identifier |
| Navigation.SelectedExactlyOne | civic-admin-dashboard/scripts/main.js:38-49 | after clearing all and activating the target, exactly one element is active and it carries the target's identifier; with no such element none is active |
| Navigation.SelectAfterClear | civic-admin-dashboard/scripts/main.js:40-43 | clearing every flag and then setting the first match's gives the selection |
| Navigation.InsertionPoint | civic-admin-dashboard/scripts/main.js:1226-1232 | the civic-stars item goes right before the first settings item, or at the end when there is none |
| Navigation.InsertAt | civic-admin-dashboard/scripts/main.js:1228-1231 | insertion adds the item at the position and keeps the others in order |
| Overlay.Open | civic-admin-dashboard/scripts/main.js:324-328 | the modal becomes active and scrolling is locked; the other modals are untouched |
| Overlay.Close | civic-admin-dashboard/scripts/main.js:330-334 | the modal becomes inactive and scrolling is released; the other modals are untouched |
| Overlay.Click | civic-admin-dashboard/scripts/main.js:310-314 | a click on the backdrop closes the modal, releases scrolling and leaves the other modals' flags alone; a click inside it changes nothing |
| Overlay.Escape | civic-admin-dashboard/scripts/main.js:317-321 | Escape closes the report modal, closes an active civic-star modal, and leaves every other modal as it was |
| Overlay.CloseIdempotent | civic-admin-dashboard/scripts/main.js:330-334 | closing twice is closing once |
| Overlay.OpenThenClose | civic-admin-dashboard/scripts/main.js:324-334 | opening then closing a modal ends as closing it; starting from a closed, unlocked state it restores that state |
| Overlay.ClosePathsAgree | civic-admin-dashboard/scripts/main.js:305-321 | with only one modal open, its backdrop click and Escape both end in the same state as its close button |
| Overlay.EscapeSkipsClosedCivicStar | civic-admin-dashboard/scripts/main.js:1126-1130 | when the civic-star modal is inactive or absent, Escape acts as closing the report modal alone |
| Overlay.SharedScrollLock | civic-admin-dashboard/scripts/main.js:1266-1283 | opening both modals and closing the second leaves the first open with scrolling released |
| Feed.Render | civic-admin-dashboard/scripts/main.js:609-621 | the new item carries the activity's category, the category's icon, its text and status and the "Just now" timestamp; for the four simulated activities that icon is never the fallback |
| Feed.Prepend | civic-admin-dashboard/scripts/main.js:623-630 | the new item goes first, the old items follow in order, and the last is dropped once there would be more than five |
| Feed.PrependBounded | civic-admin-dashboard/scripts/main.js:627-630 | a feed of at most five items stays at most five items |
| Feed.NewestFirst | civic-admin-dashboard/scripts/main.js:598-632 | after any number of additions the feed is the newest additions, most recent first, followed by the old items, cut to five |
| Reports.Filtered | civic-admin-dashboard/scripts/main.js:424-434 | every row keeps its text and is shown exactly when its lower-cased text contains the lower-cased query |
| Reports.EmptyQueryShowsAll | civic-admin-dashboard/scripts/main.js:424-434 | an empty query shows every row |
| Reports.FilterIdempotent | civic-admin-dashboard/scripts/main.js:424-434 | filtering twice with the same query is filtering once |
| Reports.FilterIgnoresCase | civic-admin-dashboard/scripts/main.js:427-428 | the query's letter case does not matter |
| Reports.TypingNarrows | civic-admin-dashboard/scripts/main.js:339-341 | extending the query never shows a row the shorter query hid |
| Appreciation.PreviewLabel | civic-admin-dashboard/scripts/main.js:1196-1204 | the caption is "Preview Rewards" exactly when some reward is checked and "Preview" exactly when none is |
| Appreciation.CheckedValues | civic-admin-dashboard/scripts/main.js:1305 | one value per checked box, and exactly the values of the checked boxes |
| Appreciation.CheckedValuesAppend | civic-admin-dashboard/scripts/main.js:1305 | the values keep page order and multiplicity: a checkbox appended to the page appends its value exactly when it is checked |
| Appreciation.SelectedKind | civic-admin-dashboard/scripts/main.js:1313 | the first active option's type when it is non-empty; civic-star when no option is active or the active one's type is empty |
| Appreciation.PreviewText | civic-admin-dashboard/scripts/main.js:1317-1326 | the dialog text names the award, quotes the message excerpt and holds a bullet line with the display name of every reward; without rewards it goes from the message line straight to the closing question |
| Appreciation.JoinLinesHas | civic-admin-dashboard/scripts/main.js:1322 | every line of a `join('\n')` is part of the joined text |
| Appreciation.JoinLinesAppend | civic-admin-dashboard/scripts/main.js:1322 | joining one more line puts it after a line break at the end |
| Appreciation.RewardListAppend | civic-admin-dashboard/scripts/main.js:1321-1323 | one more reward adds its bullet at the end of the list, after the "Rewards included:" heading when it is the first |
| Appreciation.RewardLineAppended | civic-admin-dashboard/scripts/main.js:1317-1326 | rewards are listed in page order: one more checked reward leaves the dialog as it was up to the closing question and adds its bullet line just before it, under the heading when it is the first |
| Appreciation.SameExcerptSameDialog | civic-admin-dashboard/scripts/main.js:1319 | the dialog quotes no more than the first 100 characters: two messages with the same excerpt give the same dialog |
| Appreciation.Preview | civic-admin-dashboard/scripts/main.js:1304-1330 | a checked certificate opens the certificate window, and only then; otherwise the dialog is the preview text of the selected kind, the message and the checked rewards, naming the award and quoting the message excerpt |
| Appreciation.NextCount | civic-admin-dashboard/scripts/main.js:1415-1416 | the new count is the parsed count plus one, or 48 when the text does not parse or reads as 0 |
| Appreciation.NextCountReadsBack | civic-admin-dashboard/scripts/main.js:1411-1425 | the counter text written back parses as the new count |
| Appreciation.SendsCountUp | civic-admin-dashboard/scripts/main.js:1342-1356 | each later send counts one more star than the last, unless the count passed through 0 |
| Dashboard.ClearAll | civic-admin-dashboard/scripts/main.js:40-42 | every element loses `active` and the list keeps its length |
| Dashboard.ActivateFirst | civic-admin-dashboard/scripts/main.js:39-49 | the flags after clearing and activating the target are the selection |
| Dashboard.Dashboard.constructor | civic-admin-dashboard/scripts/main.js:7-22 | the state is AsLoaded of the markup: the default page, a map exactly when the container exists and no initMap pending, the weekly chart series, no modal open and scrolling free, and the rest of the page, navigation included, as loaded |
| Dashboard.OnContentLoaded | civic-admin-dashboard/scripts/main.js:1042-1045 | after load everything but the navigation is as the constructor leaves it (AsLoaded); with a menu and no civic-stars item, the item is inserted inactive before settings with a badge of 47; without a menu, or with the item already there, the navigation and badge are as loaded |
| Dashboard.Dashboard.SwitchPage | civic-admin-dashboard/scripts/main.js:38-68 | only the target's navigation item and section are active; the title is the page's title; a missing map gets one more deferred `initMap` |
| Dashboard.Dashboard.Highlight | civic-admin-dashboard/scripts/main.js:39-49 | navigation and sections both end as the selection of their targets |
| Dashboard.Dashboard.ScheduleMapInit | civic-admin-dashboard/scripts/main.js:64-67 | a deferred `initMap` is scheduled exactly when the map page is shown without a map |
| Dashboard.Dashboard.ShowCivicStarsPage | civic-admin-dashboard/scripts/main.js:1240-1263 | only the civic-stars item and section are active; the section is pinned visible when it exists; the title is the Hall of Fame's; `currentPage` is untouched |
| Dashboard.Dashboard.AddCivicStarsNavigation | civic-admin-dashboard/scripts/main.js:1206-1238 | with a navigation menu a civic-stars item exists afterwards; when it was missing it is inserted inactive before settings, with a badge of 47; without a menu, or with the item already there, nothing changes |
| Dashboard.Dashboard.InitMap | civic-admin-dashboard/scripts/main.js:232-234 | a map exists afterwards exactly when it did before or the container exists |
| Dashboard.Dashboard.RunDeferredMapInit | civic-admin-dashboard/scripts/main.js:66 | a deferred `initMap` leaves the map as it was and one timer fewer is pending |
| Dashboard.Dashboard.OpenModal | civic-admin-dashboard/scripts/main.js:324-328 | the modal state becomes Overlay.Open of the old one |
| Dashboard.Dashboard.CloseModal | civic-admin-dashboard/scripts/main.js:330-334 | the modal state becomes Overlay.Close of the old one |
| Dashboard.Dashboard.CloseCivicStarModal | civic-admin-dashboard/scripts/main.js:1277-1283 | closes the civic-star modal when the page has one; otherwise nothing changes |
| Dashboard.Dashboard.ClickCloseButton | civic-admin-dashboard/scripts/main.js:1112-1116 | either modal's close button closes it |
| Dashboard.Dashboard.ClickModal | civic-admin-dashboard/scripts/main.js:1119-1123 | a click on either modal acts as Overlay.Click |
| Dashboard.Dashboard.PressEscape | civic-admin-dashboard/scripts/main.js:1126-1130 | Escape acts as Overlay.Escape: the report modal's listener first, then the civic-star one |
| Dashboard.Dashboard.ResetCivicStarForm | civic-admin-dashboard/scripts/main.js:1285-1302 | only the first civic-star option is active, no reward is checked, the certificate preview is hidden, the message is the civic-star text, and the caption is left stale |
| Dashboard.Dashboard.ClearChoices | civic-admin-dashboard/scripts/main.js:1286-1296 | the option and checkbox part of the reset |
| Dashboard.Dashboard.ShowMessage | civic-admin-dashboard/scripts/main.js:1149-1160 | the textarea holds the kind's predefined message |
| Dashboard.Dashboard.OpenCivicStarModal | civic-admin-dashboard/scripts/main.js:1266-1275 | with the modal present it opens, locks scrolling and resets the form; without it nothing changes |
| Dashboard.Dashboard.ClickOption | civic-admin-dashboard/scripts/main.js:1133-1147 | the clicked option is the only active one and the message is its kind's |
| Dashboard.Dashboard.UpdatePreviewButton | civic-admin-dashboard/scripts/main.js:1196-1204 | the caption is PreviewLabel of the checkboxes |
| Dashboard.Dashboard.ChangeReward | civic-admin-dashboard/scripts/main.js:1162-1181 | the box is toggled; the certificate box shows or hides the certificate preview; the caption is refreshed |
| Dashboard.Dashboard.PreviewAppreciation | civic-admin-dashboard/scripts/main.js:1304-1330 | reads the form and decides as Appreciation.Preview does: the certificate window exactly when a checked reward is the certificate, otherwise the confirmation dialog |
| Dashboard.Dashboard.UpdateCivicStarStats | civic-admin-dashboard/scripts/main.js:1411-1425 | each counter that exists is rewritten with NextCount of its text; a missing one stays missing |
| Dashboard.Dashboard.CompleteSend | civic-admin-dashboard/scripts/main.js:1342-1356 | when the send timer fires, the civic-star modal closes and both counters count one more star |
| Dashboard.Dashboard.AddRandomActivity | civic-admin-dashboard/scripts/main.js:598-632 | an existing feed becomes Feed.Prepend of the picked activity's item; a missing feed stays missing |
| Dashboard.Dashboard.FilterReports | civic-admin-dashboard/scripts/main.js:424-434 | the rows become Reports.Filtered of the old rows |
| Dashboard.Dashboard.HandleSearch | civic-admin-dashboard/scripts/main.js:417-422 | the query filters the rows only while the reports page is current |
| Dashboard.Dashboard.UpdateChartData | civic-admin-dashboard/scripts/main.js:443-463 | an existing response chart shows the period's series; without the chart nothing changes |
| Dashboard.Dashboard.ClickTimeButton | civic-admin-dashboard/scripts/main.js:353-360 | the clicked button is the only active one and the chart shows its label's series |

## Left out

- Chart.js and Leaflet object construction, their options and their rendering: only the response chart's data series and whether a map exists are modelled.
- Marker coordinates, popups and colours on screen: only the category-to-colour lookup is modelled.
- Floating-point arithmetic: the chart series are exact `real` literals.
- Timers: only their end effects are modelled, each as the method the timer would run (`RunDeferredMapInit`, `CompleteSend`, `AddRandomActivity`). The 30-second interval, the 100 ms and 2 s delays and the send button's temporary "Sending..." state are left out.
- `Math.random` is a parameter of `AddRandomActivity`.
- `updateStats` is left out: it adds random amounts to three counters and has no property beyond its arithmetic.
- Toasts, `showNotifications`, `exportData`, the assign and update dialogs, `applyFilters` (a log line only), the mobile menu and form validation are left out. These are visual or logging code that no modelled handler reads back. The toast icon and colour tables are modelled.
- `confirm` and the certificate window are left out. `Appreciation.Preview` returns which of the two `previewAppreciation` opens, and the dialog's text.
- The certificate date (`toLocaleDateString`) is left out because it depends on the clock and the locale.
- Text.Lower: models `toLowerCase` for ASCII letters only; other scripts' case mappings are not modelled.
- Text.Excerpt: counts characters (Unicode scalar values), whereas `substring(0, 100)` counts UTF-16 code units. For a message with characters outside the Basic Multilingual Plane, such as emoji, the source cuts earlier than the model, and it can split a surrogate pair, which a Dafny string cannot hold.
- Text.ParseInt: models leading white space, a sign and decimal digits. The `0x` hexadecimal prefix, and the loss of precision above 2^53, are not modelled.
- The initial HTML is not part of this model. It is the `Markup` parameter of the constructor. Only its `WellFormed` shape is required: every flag list matches its element list, and the report modal exists.
- The civic-star form's elements (textarea, certificate preview, preview button) are assumed present. The source checks for them, but they are part of the same markup as the modal.
- Dashboard.Dashboard.SwitchPage: requires the target's navigation item, section and title to exist. The source dereferences the first two without a check and sets the title of an unknown page to `titles[pageId]`, which is `undefined`; `textContent` turns that into the empty string.
- Dashboard.OnContentLoaded: assumes that `init()` (main.js:14-22) runs to its end. In a browser it does not: `button:contains("Export")` at main.js:390 is not a valid selector, so `querySelectorAll` throws, and the exception leaves the constructor. The load handler (main.js:1042-1045) then never reaches `initializeCivicStarSystem()`, and `initMobileMenu` and `simulateRealTimeUpdates` never run. Modelled behaviour that depends on this assumption:
  - the civic-stars navigation item and its badge, added by `OnContentLoaded`;
  - the civic-star modal's close button, backdrop and Escape listeners: `ClickCloseButton` and `ClickModal` on that modal, and the second listener of `PressEscape`;
  - the option and reward listeners behind `ClickOption` and `ChangeReward`;
  - the 30-second timer behind `AddRandomActivity`.
  Listeners that `init()` registers before line 390 do not depend on it: navigation, charts, map, the report modal, search and the time buttons. Neither do the functions the script puts on `window` (main.js:1451-1454), such as `openCivicStarModal` and `previewAppreciation`.
- Object-literal lookups whose key is an inherited property name such as `constructor` are not modelled: every table is a plain map.
