# RideSharing core, modelled in Dafny

This project models the decision logic of the RideSharing app. The app is a React Native client (rider and driver screens) backed by two Spring controllers over a JPA user table. The model covers:

- **Fare quoting** on the home screen (`Fare`, `Home`): the per-vehicle rate table, the price of a route, the destination search (blank-input and location guards, first geocode hit, first OSRM route, the `[lon, lat]` to `[lat, lon]` swap) and the effect that re-prices whenever the distance or the vehicle changes. Distances are integer hundredths of a kilometre and money is integer paisa, so every quote is exact.
- **Chat threads** (`ChatThread`, `AppMessagePage`, `RootMessagePage`): loading, formatting and sorting by `createdAt`; send; edit by id; delete by id; the blank-message guard; the per-message menu. The two message screens differ. `app/message.jsx` edits only the text. `message.jsx` also re-stamps the message as the driver's at the current time, and every render sorts the stored list in place, so each later handler starts from the drawn order.
- **Server-side login and signup** (`UserStore`, `LoginRequestDto`, `AuthControllers`):
  - the user repository's derived queries over a sequence of rows;
  - the login request value type;
  - the login controller, with its missing-credential guard, `@`-based choice between email and name lookup, and the untrimmed password;
  - the signup controller, with its duplicate-email refusal and its save.
- **Client forms and small state machines**:
  - the onboarding pager (`Onboarding`);
  - rider login (`LoginScreen`) and driver login (`DriverLoginForm`);
  - rider signup (`SignupForm`) and driver signup (`RiderSignupForm`);
  - the driver profile editor (`ProfilePage`).

Supporting modules:

- `Wrappers` holds `Option`.
- `Text` holds the two trims: JavaScript's `trim` over Unicode white space, and Java's `String.trim` over characters up to U+0020. It also holds decimal rendering of ids.
- `Js` holds the JavaScript values the screens read: truthiness, `||`, property reads that yield `undefined`, and string conversion.

Each event handler is one atomic step. Everything a handler waits for is a parameter of the step: server replies, the device location, the clock (`now`) and the user's confirmation. Requests the handler would send are returned as data.

The code defines no driver matching, reservation, dispatch or ride lifecycle, so none is modelled. A failed destination search leaves the previous route and quote on screen. The model keeps that, because the code does it.

Some consequences the proofs make explicit:

- The rider login screen reads `rideId` from the login response. The login controller answers with a list of strings, so the welcome popup always reads "Welcome back! ID: undefined". A refused login always shows the default text, never the server's reason (`LoginScreen.AgainstControllerNoIdShown`).
- Signup checks only the email, so two rows may share a name. A name login that matches both rows makes the `Optional` finder fail, and the server answers 500 (`AuthControllers.NameLoginCanBeAmbiguous`). Email logins cannot fail this way while emails are unique, and every signup keeps them unique (`AuthControllers.ServeAllKeepsInvariants`).
- The login controller trims the password only to test it for blankness. It looks the password up as sent (`AuthControllers.PasswordComparedUntrimmed`).

## Model

| member | source | states |
|---|---|---|
| Fare.Rate | app/home.jsx:32-36 | the rate is positive exactly for Bike, Comfort and Car; every other vehicle type is priced at rate 0 |
| Fare.Price | app/home.jsx:68-71 | the price is 0 at zero distance and for an unpriced vehicle, and never below the distance in hundredths for a priced one |
| Fare.KmHundredths | app/home.jsx:124 | the shown distance is the nearest hundredth of a kilometre to the route's metres, ties rounding up |
| Fare.KmHundredthsMonotone | app/home.jsx:124 | a longer route never shows a shorter distance |
| Fare.PriceMonotone | app/home.jsx:68-71 | the price never decreases as the distance grows |
| Fare.PriceVehicleOrder | app/home.jsx:32-36 | Comfort costs at least Car, which costs at least Bike, strictly so over any positive distance |
| Fare.PriceUnknownIsFloor | app/home.jsx:69 | an unknown vehicle type is quoted 0, below any known one |
| Fare.WholeKilometreQuote | app/home.jsx:68-71 | for every whole number of kilometres k and every vehicle type, a 1000·k m route shows k.00 km and costs exactly k times the rate in rupees |
| Home.SwapAll | app/home.jsx:119-122 | the route keeps its length and order, each point's latitude and longitude are carried into the swapped pair |
| Home.SwapRoundTrip | app/home.jsx:119-122 | swapping back recovers the server's geometry exactly, so no point is lost or altered |
| Home.SwapAppend | app/home.jsx:119-122 | the swap works point by point: swapping a concatenation is concatenating the swaps |
| Home.SetInput | app/home.jsx:216-218 | typing changes the search input and no other field of the route record |
| Home.ApplyLocation | app/home.jsx:41-62 | a granted location sets only `userLocation`; a refusal or failure leaves the record as it was |
| Home.PriceEffect | app/home.jsx:64-77 | with no distance yet the record is untouched; otherwise only the price changes, to the fare for the distance and vehicle |
| Home.Search | app/home.jsx:80-135 | blank input is refused before the location check, with no lookup; a geocode miss, an empty route list or a failed request alerts and keeps the whole record; a success sets only the coordinates (first hit, first route, swapped) and the rounded distance; the search is silent exactly when the input is non-blank, a position is known, the geocoder has a hit and the route list is non-empty |
| Home.PriceEffectSettled | app/home.jsx:64-77 | once the quote matches the distance and vehicle, the effect running again changes nothing |
| Home.Step | app/home.jsx:64-77 | every screen event, followed by the price effect, keeps the quote equal to the fare of the shown distance for the chosen vehicle |
| Home.InitialQuoteConsistent | app/home.jsx:20-29 | the screen starts with a consistent quote |
| Home.RunKeepsQuoteConsistent | app/home.jsx:64-77 | across any sequence of events the quote stays consistent with the distance and vehicle |
| Text.TrimIsSlice | app/home.jsx:81 | trim removes only white space, and only from the two ends, keeping the rest as a contiguous slice |
| Text.TrimEmptyIffAllSpace | src/main/java/com/RideSharing/controller/LoginController.java:32-33 | a value is blank after trimming exactly when every character is white space |
| Text.TrimIdempotent | app/login.jsx:36-39 | trimming an already trimmed value changes nothing |
| Text.TrimKeepsNonSpace | src/main/java/com/RideSharing/controller/LoginController.java:40-41 | trimming neither adds nor removes an `@`, so testing the raw or the trimmed identifier picks the same lookup |
| Text.NatToString | app/message.jsx:36 | an id renders as a non-empty string of decimal digits without leading zeros |
| Text.ParseNatToString | app/message.jsx:36 | reading the rendered digits back gives the original id |
| Text.NatToStringInjective | app/message.jsx:35-40 | distinct ids render as distinct strings |
| ChatThread.FormatAll | app/message.jsx:35-40 | one formatted message per server message, in the same positions |
| ChatThread.FormatKeepsIdsDistinct | app/message.jsx:35-40 | server messages with distinct ids stay distinct after their ids become strings |
| ChatThread.SortByTime | app/message.jsx:42-44 | the sorted thread is ordered by `createdAt` and is a permutation of its input |
| ChatThread.InsertLatestAppends | app/message.jsx:42-44 | in the insertion sort behind the thread's ordering, a message no older than an ordered rest lands at the end with the rest untouched |
| ChatThread.SortSortedIsIdentity | message.jsx:228-232 | sorting an already ordered thread returns it unchanged |
| ChatThread.SortIdempotent | message.jsx:228-232 | sorting twice is sorting once |
| ChatThread.LoadThread | app/message.jsx:35-44 | a loaded thread is ordered by `createdAt` and holds exactly the formatted server messages |
| ChatThread.SetTextWhere | app/message.jsx:82-88 | messages with the edited id take the new text and keep id, sender and time; all others and the length are unchanged |
| ChatThread.RestampWhere | message.jsx:87-93 | messages with the edited id take the new text, the driver as sender and the current time; all others are unchanged |
| ChatThread.RemoveWhere | app/message.jsx:168-170 | no message with the deleted id remains |
| ChatThread.RemoveCounts | app/message.jsx:168-170 | deleting drops every copy of messages with that id and keeps every other message with its multiplicity |
| ChatThread.RemoveAppend | app/message.jsx:168-170 | the filter works element by element, so relative order is kept |
| ChatThread.RemoveAbsent | app/message.jsx:168-170 | deleting an id that is not present changes nothing |
| ChatThread.RemoveIdempotent | app/message.jsx:168-170 | deleting the same id twice is deleting it once |
| ChatThread.RemoveKeepsSorted | app/message.jsx:168-170 | deleting keeps a time-ordered thread ordered |
| ChatThread.SetTextKeepsOrderAndIds | app/message.jsx:82-88 | an edit keeps the thread's time order and its sequence of ids |
| ChatThread.SetTextLastWins | app/message.jsx:82-88 | editing the same message twice keeps only the second text |
| ChatThread.SetTextChangesAtMostOne | app/message.jsx:82-88 | with distinct ids, an edit changes at most one position |
| ChatThread.AppendLatestKeepsSorted | app/message.jsx:119-127 | appending a message no older than the thread keeps it ordered |
| ChatThread.PermutationKeepsBound | message.jsx:228-232 | reordering a thread keeps every message at or before a bound it was under |
| ChatThread.SortedEndsAtBound | message.jsx:228-232 | in an ordered thread under a bound, a message at the bound puts the bound at the end |
| AppMessagePage.Load | app/message.jsx:29-51 | a failed load alerts and keeps the thread; a successful one replaces it with the sorted, formatted server messages |
| AppMessagePage.Send | app/message.jsx:58-141 | blank input sends nothing; editing PUTs the content, otherwise POSTs a driver message; a failure alerts and changes nothing; a successful edit changes the matching texts, clears the input and leaves edit mode; a successful send appends the server's message at the end |
| AppMessagePage.Delete | app/message.jsx:146-180 | nothing happens until confirmed; a failure alerts and keeps the thread; a success removes exactly the messages with that id, keeping the others in their order, and closes the menu |
| AppMessagePage.ToggleId | app/message.jsx:199-200 | tapping the open message's menu closes it; tapping any other opens that one |
| AppMessagePage.ToggleTwice | app/message.jsx:199-200 | two taps on one message's menu restore the menu state |
| AppMessagePage.TapMenu | app/message.jsx:196-201 | only driver messages have a menu button; a tap flips whether that message's menu shows and touches nothing else |
| AppMessagePage.ChooseEdit | app/message.jsx:206-214 | choosing Edit in an open menu loads that message's id and text into the editor and closes the menu; otherwise nothing changes |
| AppMessagePage.OnlyDriverMessagesEditable | app/message.jsx:196-214 | whenever choosing Edit changes anything, the message is the driver's |
| AppMessagePage.UnchangedEditIsNoOp | app/message.jsx:65-96 | opening a message for editing and saving it unchanged leaves the thread as it was |
| AppMessagePage.HandlersKeepThreadSorted | app/message.jsx:58-180 | sending, editing and deleting keep a time-ordered thread ordered, when no message is dated after the send time (the new message is stamped with the client clock, and server messages may be dated later) |
| RootMessagePage.Load | message.jsx:27-54 | a failed load alerts and keeps the thread; a successful one replaces it with the sorted, formatted server messages |
| RootMessagePage.Send | message.jsx:61-150 | blank input sends nothing; a failure alerts and changes nothing; a successful edit re-stamps the matching messages as the driver's at the current time and resets the editor; a successful send appends the server's message |
| RootMessagePage.TapEdit | message.jsx:164-170 | only driver messages have an edit icon; tapping it loads that message's id and text and leaves the thread alone |
| RootMessagePage.Displayed | message.jsx:228-232 | the drawn thread is time-ordered, holds exactly the stored messages, and is the stored order when that is already sorted |
| RootMessagePage.Render | message.jsx:228-232 | a draw sorts the state's own list in place: the stored thread becomes time-ordered, keeps its messages, input and edit target, and an ordered state is left as it is |
| RootMessagePage.RedrawStable | message.jsx:228-232 | drawing twice is drawing once, and after a draw the drawn list is the stored one |
| RootMessagePage.Step | message.jsx:27-170 | each event is its handler (load, typing, send or edit, edit icon) followed by the in-place draw, so the next handler starts from the drawn order |
| RootMessagePage.RunDrawsStored | message.jsx:228-232 | from an ordered thread, after any run of events the stored thread is ordered and is exactly what is drawn |
| RootMessagePage.EditStepMessages | message.jsx:87-93 | a successful edit stores the re-stamped thread in time order |
| RootMessagePage.RestampSortedEndsAtNow | message.jsx:87-93 | re-stamping at `now` a thread whose other messages are no later, then sorting, ends at `now` |
| RootMessagePage.RestampSortedLast | message.jsx:87-93 | when every other message is strictly older, the last message after re-stamping and sorting is the re-stamped one |
| RootMessagePage.EditStampDrawnLast | message.jsx:87-93 | after an edit whose time is no earlier than every other message, the last drawn message carries the edit time |
| RootMessagePage.EditedMessageDrawnLast | message.jsx:87-93 | after an edit whose time is later than every other message, the last drawn message is the edited one: its id, the new text, the driver as sender and the edit time |
| UserStore.Select | src/main/java/com/RideSharing/repository/RideRepository.java:15-18 | the rows returned all match the criterion and come from the table; none is returned exactly when no row matches |
| UserStore.Exists | src/main/java/com/RideSharing/repository/RideRepository.java:12-13 | true exactly when some row matches |
| UserStore.ExistsByEmail | src/main/java/com/RideSharing/repository/RideRepository.java:12 | true exactly when some row has that email |
| UserStore.ExistsByName | src/main/java/com/RideSharing/repository/RideRepository.java:13 | true exactly when some row has that name |
| UserStore.Find | src/main/java/com/RideSharing/repository/RideRepository.java:15-18 | empty exactly when no row matches; a found row matches, is in the table and is the only matching row; several matches are an error |
| UserStore.UniqueEmailsFindIsUnique | src/main/java/com/RideSharing/repository/RideRepository.java:15-17 | while emails are unique, the email finders never meet more than one row |
| UserStore.Save | src/main/java/com/RideSharing/controller/SignupControiller.java:37 | saving appends one row with a fresh id and the given columns and keeps every existing row |
| UserStore.SaveKeepsEmailsUnique | src/main/java/com/RideSharing/controller/SignupControiller.java:33-37 | saving a row whose email is absent keeps emails unique |
| LoginRequestDto.NoArgs | src/main/java/com/RideSharing/dto/LoginRequest.java:5-10 | both fields start null |
| LoginRequestDto.Make | src/main/java/com/RideSharing/dto/LoginRequest.java:13-16 | the getters return exactly the values given |
| LoginRequestDto.SetIdentifier | src/main/java/com/RideSharing/dto/LoginRequest.java:19-25 | the identifier reads back as set and the password is unchanged |
| LoginRequestDto.SetPassword | src/main/java/com/RideSharing/dto/LoginRequest.java:27-33 | the password reads back as set and the identifier is unchanged |
| LoginRequestDto.SettersBuildRequest | src/main/java/com/RideSharing/dto/LoginRequest.java:9-33 | building with the empty constructor and both setters, in either order, equals the two-argument constructor |
| LoginRequestDto.SetGetIsIdentity | src/main/java/com/RideSharing/dto/LoginRequest.java:19-33 | setting a field to its own value changes nothing |
| AuthControllers.LoginCriterion | src/main/java/com/RideSharing/controller/LoginController.java:40-43 | an identifier with `@` is looked up by trimmed email, any other by trimmed name, each with the password as sent |
| AuthControllers.Login | src/main/java/com/RideSharing/controller/LoginController.java:27-52 | a null or blank field gives 400 "Missing credentials"; no matching row gives 400 "Invalid credentials"; 200 carries "Login successful" and the id of a matching row; only 200, 400 and 500 occur |
| AuthControllers.LoginSucceedsOnUniqueMatch | src/main/java/com/RideSharing/controller/LoginController.java:46-51 | when exactly one row matches, login answers 200 with that row's id |
| AuthControllers.EmailLoginNeverAmbiguous | src/main/java/com/RideSharing/controller/LoginController.java:40-41 | while emails are unique, an email login never fails with 500 |
| AuthControllers.NameLoginCanBeAmbiguous | src/main/java/com/RideSharing/controller/LoginController.java:42-43 | two rows sharing the name and password make a name login answer 500 |
| AuthControllers.PasswordComparedUntrimmed | src/main/java/com/RideSharing/controller/LoginController.java:32-43 | a password with surrounding white space passes the blank check but is looked up verbatim, so it matches no row stored without it |
| AuthControllers.Signup | src/main/java/com/RideSharing/controller/SignupControiller.java:24-38 | a taken email gives 400 "Email already exists" and an unchanged store; otherwise exactly one row is added and 200 carries its id; unique emails and id freshness are preserved |
| AuthControllers.DuplicateNameAccepted | src/main/java/com/RideSharing/controller/SignupControiller.java:25-33 | a new email is accepted even when the name is already taken |
| AuthControllers.RefusedSignupChangesNothing | src/main/java/com/RideSharing/controller/SignupControiller.java:33-35 | a refused signup leaves the store exactly as it was |
| AuthControllers.Serve | src/main/java/com/RideSharing/controller/LoginController.java:38-51 | a login leaves the store unchanged; a signup only adds, at most one row |
| AuthControllers.ServeAllKeepsInvariants | src/main/java/com/RideSharing/controller/SignupControiller.java:33-37 | any sequence of logins and signups keeps emails unique and ids fresh |
| AuthControllers.LoginsLeaveStore | src/main/java/com/RideSharing/controller/LoginController.java:38-51 | any sequence of logins leaves the store unchanged |
| Onboarding.GoNext | app/index.jsx:41-49 | below the last slide the index moves up by one; on the last slide the index stays and the welcome screen opens |
| Onboarding.GoBack | app/index.jsx:51-57 | above the first slide the index moves down by one; on the first it stays |
| Onboarding.Skip | app/index.jsx:64 | skip opens the welcome screen from any slide |
| Onboarding.Dots | app/index.jsx:91-97 | one dot per slide, and a dot is active exactly when it is the current slide |
| Onboarding.ExactlyOneDotActive | app/index.jsx:91-97 | exactly one dot is active on any slide |
| Onboarding.BackVisibleIffBackMoves | app/index.jsx:105 | the back button is drawn exactly on the slides where pressing it moves the pager |
| Onboarding.BackUndoesNext | app/index.jsx:41-57 | back after a moving next returns to the same slide |
| Onboarding.NextUndoesBack | app/index.jsx:41-57 | next after a moving back returns to the same slide without leaving the pager |
| Onboarding.Press | app/index.jsx:41-57 | a button press keeps the index on a slide, and the welcome screen opens exactly on next from the last slide |
| Onboarding.PressAllInRange | app/index.jsx:9-57 | any sequence of presses keeps the index on one of the slides |
| Onboarding.NextsReachLast | app/index.jsx:41-49 | enough next presses reach the last slide and stay there |
| LoginScreen.Submit | app/login.jsx:26-62 | a blank field after trimming shows an error and sends nothing; the request carries both trimmed values; /home follows exactly when the success popup shows, which is exactly a 2xx answer with a body; the success text is the welcome prefix and the body's `rideId`; the failure text is the body's `error` or the default; a 2xx answer with a `null` body shows the default failure text |
| LoginScreen.FailureMessage | app/login.jsx:55-56 | the failure text is never empty unless the server supplied a truthy `error` that renders empty |
| LoginScreen.TogglePassword | app/login.jsx:120 | the eye flips password visibility and keeps both fields |
| LoginScreen.ToggleTwice | app/login.jsx:120 | two taps on the eye restore the form |
| LoginScreen.PayloadIsTrimmed | app/login.jsx:36-39 | the values sent are non-empty and already trimmed |
| LoginScreen.InitialFormRejected | app/login.jsx:26-33 | the untouched form sends no request |
| LoginScreen.Wire | src/main/java/com/RideSharing/controller/LoginController.java:46-51 | the controller's list body reaches the screen as a list of the same length |
| LoginScreen.AgainstControllerNoIdShown | app/login.jsx:42-56 | against the login controller, success shows "Welcome back! ID: undefined", a refusal shows the default text, and a server error shows its reason phrase |
| LoginScreen.ListBodyPopup | app/login.jsx:42-56 | for any list body, success shows no id and failure shows the default text |
| DriverLoginForm.NotOkMessage | app/DriverLogin.jsx:36-41 | the error is the body text, or "Login failed (status N)" when that is empty; it is never empty |
| DriverLoginForm.Begin | app/DriverLogin.jsx:11-34 | the driver is cleared; a blank username is reported before a blank password, with `loading` untouched and no request; otherwise `loading` rises and the trimmed username goes out with the password as typed |
| DriverLoginForm.Finish | app/DriverLogin.jsx:36-53 | `loading` always drops; a refusal sets its error text; a parsed body sets the driver to its truthy `driver` field or to the body; any failure sets the network message and keeps the driver |
| DriverLoginForm.Submit | app/DriverLogin.jsx:11-53 | after a request `loading` is down; without one `loading` is as before and an error shows |
| DriverLoginForm.OutcomeExclusive | app/DriverLogin.jsx:36-53 | an error and a logged-in driver never show together, and the error is empty exactly after a request answered with a body |
| DriverLoginForm.WrappedDriverUnwrapped | app/DriverLogin.jsx:44-48 | a body with a truthy `driver` field stores that field, not the wrapper |
| DriverLoginForm.UsernameCheckedFirst | app/DriverLogin.jsx:17-24 | with both fields blank only the username message shows |
| DriverLoginForm.PasswordSentVerbatim | app/DriverLogin.jsx:33 | the password is sent as typed while the username sent is already trimmed |
| SignupForm.Submit | app/SignupScreen.jsx:30-65 | an empty field alerts with no request; otherwise the payload is sent; /home follows exactly on an ok answer; a refusal alerts the server's text; a thrown request alerts "Network Error: " and the error |
| SignupForm.PayloadRoundTrip | app/SignupScreen.jsx:43-49 | the payload carries every field unchanged, with `phone` renamed `phoneNumber` |
| SignupForm.WhitespaceFieldsAccepted | app/SignupScreen.jsx:31-34 | fields holding only spaces pass the check, because nothing is trimmed |
| SignupForm.InitialFormRefused | app/SignupScreen.jsx:21-34 | the untouched form sends nothing |
| SignupForm.ToggleGender | app/SignupScreen.jsx:119 | the button always yields Male or Female, and Female exactly from Male |
| SignupForm.ToggleGenderAlternates | app/SignupScreen.jsx:119 | after the first press the button alternates between the two values |
| SignupForm.GenderLabel | app/SignupScreen.jsx:121-122 | the label is never empty, and shows the gender once one is chosen |
| SignupForm.ToggledGenderFilled | app/SignupScreen.jsx:119-122 | after one press the gender field is filled and its label shows it |
| SignupForm.SecondSubmitRefused | src/main/java/com/RideSharing/controller/SignupControiller.java:33-35 | submitting the same form twice, the second signup is refused for its email and saves nothing |
| RiderSignupForm.SetField | app/RiderSignupScreen.jsx:58-90 | each input sets its own field and keeps the other five |
| RiderSignupForm.Submit | app/RiderSignupScreen.jsx:14-48 | an empty field alerts with no request; the body is the form as entered; "Success" shows exactly on an ok answer whose body parses as JSON; a body that does not parse alerts the parse error whatever the status; a parsed refusal alerts its body or "Something went wrong"; a thrown request alerts its message |
| RiderSignupForm.OkStatusUnparsableBodyAlertsError | app/RiderSignupScreen.jsx:37-47 | a 2xx answer whose body is not JSON throws at the parse, before the status is read, and shows the error alert with the parse message |
| RiderSignupForm.EmptyFormRefused | app/RiderSignupScreen.jsx:5-26 | the initial form is refused |
| RiderSignupForm.AllInputsTypedIsFilled | app/RiderSignupScreen.jsx:54-91 | typing into all six inputs makes the form submittable as typed |
| RiderSignupForm.ClearingAnyFieldRefuses | app/RiderSignupScreen.jsx:16-26 | clearing any one input makes the form refused again |
| RiderSignupForm.SetFieldLastWins | app/RiderSignupScreen.jsx:58-90 | typing into one input twice keeps the last text; inputs on different fields commute |
| ProfilePage.ViewOf | app/Profilepage.jsx:35-41 | the profile view shows exactly when a driver is loaded |
| ProfilePage.Load | app/Profilepage.jsx:23-33 | a stored driver becomes both the shown driver and the edit buffer; no stored driver changes nothing |
| ProfilePage.KeysDistinct | app/Profilepage.jsx:144-192 | the four edit fields write four different keys |
| ProfilePage.StartEdit | app/Profilepage.jsx:206 | Edit enters edit mode from the profile view and changes nothing else |
| ProfilePage.EditField | app/Profilepage.jsx:144-192 | in edit mode an input sets its key in the buffer and keeps every other key and the driver; outside edit mode nothing changes |
| ProfilePage.Cancel | app/Profilepage.jsx:219-222 | cancel leaves edit mode, restores the buffer from the driver and drops the picked image |
| ProfilePage.DataUrlPayload | app/Profilepage.jsx:49-53 | the payload of a data URL is the text after its comma |
| ProfilePage.PickWebImage | app/Profilepage.jsx:44-56 | in edit mode a picked file is kept and its base64 payload goes into the buffer; otherwise nothing changes |
| ProfilePage.PickNativeImage | app/Profilepage.jsx:58-61 | a native pick sets only the image file (no element of the screen calls this handler; only the web picker is wired, at line 136) |
| ProfilePage.DisplayedImage | app/Profilepage.jsx:116-119 | the picture is the JPEG data URL of the stored payload, or the placeholder when there is none |
| ProfilePage.PickedImageDisplayed | app/Profilepage.jsx:116-119 | a picked web image is what the profile then shows |
| ProfilePage.NativeDescriptor | app/Profilepage.jsx:72-81 | the native upload names a file and a type, defaulting to "profile.jpg" and "image/jpeg" |
| ProfilePage.BuildRequest | app/Profilepage.jsx:64-90 | an image part is sent exactly when a file was picked: the file itself on the web, its descriptor on a device |
| ProfilePage.Save | app/Profilepage.jsx:64-113 | only an ok answer changes state: it sets driver and buffer to the returned driver, leaves edit mode and drops the image; a refusal alerts its `error` or "Update failed"; a thrown request alerts "Server error" |
| ProfilePage.LoadingViewInert | app/Profilepage.jsx:35-41 | until a driver loads, no handler changes anything or sends a request |
| ProfilePage.HandlersKeepCoherent | app/Profilepage.jsx:99-106 | every handler keeps the edit buffer equal to the driver or an object, so the save can always read its fields |
| ProfilePage.CoherentSaveSends | app/Profilepage.jsx:64-92 | saving from edit mode always sends the update request |
| ProfilePage.EditAllKeepsDriver | app/Profilepage.jsx:144-192 | any run of field edits leaves the driver, the mode and the image alone |
| ProfilePage.CancelUndoesEdits | app/Profilepage.jsx:219-222 | cancel after any run of edits equals cancel straight away |
| ProfilePage.EditedValueIsSent | app/Profilepage.jsx:67-70 | a value typed into a field, the empty text included, is the value sent for it |
| ProfilePage.SavedThenCancelKeepsUpdate | app/Profilepage.jsx:99-106 | after a successful save, cancel keeps the server's driver rather than an older one |

## Left out

- Network and storage I/O (`fetch`, `axios`, AsyncStorage, FileReader, FormData, the Nominatim and OSRM URL building) are reply parameters and request values. Writes to storage, such as the driver saved after login or profile updates, are not modelled.
- Concurrency: overlapping searches, state batching and a second submit while `loading` is raised. Each handler is one atomic step.
- Popup and alert timers, navigation, rendering, styles and animation. Navigation is a flag or an enum value.
- Spring annotations, JSON binding failures, JPA persistence and id generation. `save` appends a row with a fresh id, and the signup body is taken to carry no id of its own. Only the name, email and password columns are modelled.
- The 500 body that Spring sends when a finder meets several rows is taken to be its default error object with `error` = "Internal Server Error".
- `handleScroll` in app/index.jsx (scroll-offset rounding) is floating point; the pager is modelled through its buttons only.
- Timestamps are integers. Parsing `createdAt` with `Date` is left out.
- The rider screens' native location request and map drawing.
- `JSON.parse` of the stored driver, and spreading a string or array into the profile buffer. Such values spread as an empty object here.
- Fare.KmHundredths: rounds half up in exact arithmetic, whereas `toFixed` rounds the binary double nearest to `distance / 1000`, which can differ on exact ties.
- Fare.Price: the product is exact in paisa, whereas the source multiplies a parsed float and rounds with `toFixed(2)`.
- Home.Search: alerts carry only their title; "Location unavailable" also has a body line.
- Js.Show: numbers are integers and objects always render as "[object Object]"; floating point, NaN and custom `toString` are not modelled.
- ChatThread.SortByTime: the stable sort is stated as ordered and a permutation; stability among equal times is not stated.
- DriverLoginForm.Submit: states only the `loading` and error flags; its detailed contract lives on `Begin` and `Finish`.
