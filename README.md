# Sporty-Mobile session, request and onboarding logic in Dafny

This project models the decision-making core of the Sporty-Mobile React Native
client:

- the **session coordinator** that runs before every request
  (`handleRefreshTokenAsync`), deciding between "no session", "token still
  valid" and "token expired, ask the identity provider";
- the **request gateway** (`verbHttpClient` and its post/get/put/delete
  wrappers), which builds headers, decides whether the refresh interceptor runs
  and classifies the outcome as `{data}` or `{error}`;
- the **user slice** (`initialState`, `authenticate`, `setUser`, `logout`) with
  the secure-store writes it triggers (`storeTokens`, `removeTokens`);
- the **expiration helpers**: word initials, the parser of the stored en-US
  expiration string, the local-time `Date` construction and the UTC expiry
  computation;
- the **e-mail validator**;
- **navigation** (stack choice, initial onboarding route, status-bar style);
- the **theme provider** (theme resolution, palettes, stored theme);
- the onboarding screens' state logic: the **OTP input** boxes and countdown,
  the **favourite league / favourite team** selections and their Next guards,
  and the **new password** form's match flag, validation gate and error mapping.

Module layout follows the source files: `SecureStore` (the device key/value
store as a `map<string,string>`), `UserTypes`, `ThemeTypes`, `HelperFunctions`,
`RegexValidator`, `UserSlice`, `HttpClient`, `Navigation`, `ThemeProvider`,
`OtpInput`, `Selection` (the toggle both selection screens share),
`FavouriteLeague`, `FavouriteTeam` and `NewPassword`.

Objects the source mutates are classes: the slice (`UserSlice.UserState`, with
its store as a field), the Axios request config (`HttpClient.RequestConfig`),
the theme provider, the OTP input, the league and team screens, the leagues
whose `logo` is written in place, and the password form. Every method is
specified by a pure function of the state before it (`AuthenticateSpec`,
`LogoutSpec`, `Coordinate`, `Gateway`, `CodeChange`, `Tick`, `Toggle`,
`StoredThemeType`, …), and the lemmas state what the source promises about
those functions.

Modelling conventions:

- JavaScript truthiness of a stored value is `SecureStore.Truthy`: present and
  non-empty.
- `Date.now()` and the device's time-zone offset are parameters (`now`,
  `tzOffsetMinutes`). The offset is fixed, so there is no daylight-saving time.
- The provider's reply is an optional record. Whether the transport delivered
  or threw is a parameter (`Transport`).
- `convertUTCTime` is an opaque function parameter wherever its output is only
  stored. For the parser round trip, the en-US wall-clock rendering it produces
  is modelled explicitly (`RenderEnUS`).
- The unanchored regular expression in `calculateExpirationTimeInMilliSeconds`
  is a leftmost search (`FindMatch`) with greedy digit runs and optional groups.

In these places the model follows the code as written:

- Missing credentials make the coordinator do nothing: no logout, no header.
- The expiry comparison is the strict `<`, so an expiration equal to now counts
  as valid.
- A stored theme of "auto" is resolved against the provider's default type,
  which is Light, so it always gives Light.
- "12:xx:xx AM" is read as hour 12, not 0.

## Model

| member | source | states |
|---|---|---|
| SecureStore.GetItem | Sporty-Mobile/src/api/httpClient.ts:22-24 | reading a key gives its stored value, or nothing when the key is absent |
| UserSlice.StoredTokens | Sporty-Mobile/src/store/slices/userSlice.ts:26-43 | both tokens are always written; userId and the expiration string only when given and non-empty, otherwise that key is as before; every key outside the session keys is unchanged |
| UserSlice.RemovedTokens | Sporty-Mobile/src/store/slices/userSlice.ts:45-50 | a key survives iff it was stored and is not one of accessToken, refreshToken, expirationDate, userId; surviving values are unchanged |
| UserSlice.UserState.constructor | Sporty-Mobile/src/store/slices/userSlice.ts:12-17 | the slice starts with no token, not authenticated, no location and no user, over the existing store |
| UserSlice.UserState.StoreTokens | Sporty-Mobile/src/store/slices/userSlice.ts:26-43 | the successive store writes leave the store equal to StoredTokens of the old store; the slice fields are untouched |
| UserSlice.UserState.RemoveTokens | Sporty-Mobile/src/store/slices/userSlice.ts:45-50 | the four deletions leave the store equal to RemovedTokens of the old store; the slice fields are untouched |
| UserSlice.UserState.Authenticate | Sporty-Mobile/src/store/slices/userSlice.ts:56-71 | the new state is AuthenticateSpec of the old state and payload: token and flag set, tokens stored |
| UserSlice.UserState.SetUser | Sporty-Mobile/src/store/slices/userSlice.ts:72-74 | the new state is SetUserSpec of the old state |
| UserSlice.UserState.Logout | Sporty-Mobile/src/store/slices/userSlice.ts:75-80 | the new state is LogoutSpec of the old state: fields cleared and session keys removed |
| UserSlice.AuthenticateState | Sporty-Mobile/src/store/slices/userSlice.ts:56-64 | authenticate sets the token to the access token and the flag to true, and keeps user and location |
| UserSlice.AuthenticateTokensOnly | Sporty-Mobile/src/store/slices/userSlice.ts:26-43 | without userId and expiration, every key other than the two token keys is exactly as before |
| UserSlice.SetUserOnly | Sporty-Mobile/src/store/slices/userSlice.ts:72-74 | setUser installs the user and changes no other field |
| UserSlice.LogoutClears | Sporty-Mobile/src/store/slices/userSlice.ts:45-80 | logout clears token, user and flag, keeps the location, removes every session key and keeps the "theme" key |
| UserSlice.LogoutIdempotent | Sporty-Mobile/src/store/slices/userSlice.ts:45-80 | a second logout changes neither state nor store |
| UserSlice.UserNotRestoredByAuthenticate | Sporty-Mobile/src/store/slices/userSlice.ts:56-78 | after logout then authenticate the flag is true but the user is still absent |
| UserSlice.AuthenticateIdempotent | Sporty-Mobile/src/store/slices/userSlice.ts:26-71 | authenticating twice with one payload equals authenticating once |
| UserSlice.InitialIsLoggedOut | Sporty-Mobile/src/store/slices/userSlice.ts:12-78 | with no location, the logged-out fields are exactly the initial state |
| HelperFunctions.Split | Sporty-Mobile/src/utility/helperFunctions.ts:4 | splitting on spaces yields at least one piece and no piece contains a space |
| HelperFunctions.WordStarts | Sporty-Mobile/src/utility/helperFunctions.ts:3-13 | the left-to-right scan for word starts is no longer than its input and yields only non-space input characters |
| HelperFunctions.FirstLettersAreWordStarts | Sporty-Mobile/src/utility/helperFunctions.ts:4-12 | the first letters of the non-empty space-separated pieces, joined, are exactly the characters that start a word in the scan |
| HelperFunctions.GetFirstLettersOfWords | Sporty-Mobile/src/utility/helperFunctions.ts:3-13 | the result is the word-start scan of the input, never longer than the input, and made only of the input's non-space characters |
| HelperFunctions.LeadingSpaceContributesNothing | Sporty-Mobile/src/utility/helperFunctions.ts:4-12 | a leading space does not change the initials |
| HelperFunctions.DoubleSpaceContributesNothing | Sporty-Mobile/src/utility/helperFunctions.ts:4-12 | two consecutive spaces give the same initials as one |
| HelperFunctions.DoubleSpaceScan | Sporty-Mobile/src/utility/helperFunctions.ts:4-12 | the word-start scan sees two spaces as one, from either scan state |
| HelperFunctions.DigitPrefix | Sporty-Mobile/src/utility/helperFunctions.ts:37 | a greedy `\d+` run: all digits, and the next character, if any, is not a digit |
| HelperFunctions.DigitsOf | Sporty-Mobile/src/utility/helperFunctions.ts:40-45 | the decimal rendering of n is a non-empty digit string that base-10 parseInt reads back as n |
| HelperFunctions.Pad2 | Sporty-Mobile/src/utility/helperFunctions.ts:40-45 | the two-digit rendering of n < 100 reads back as n |
| HelperFunctions.DigitPrefixOfConcat | Sporty-Mobile/src/utility/helperFunctions.ts:37 | a digit run followed by a non-digit is matched exactly |
| HelperFunctions.ReadFieldOf | Sporty-Mobile/src/utility/helperFunctions.ts:37 | a non-empty digit run followed by its separator is captured as exactly that run, and the match continues after the separator |
| HelperFunctions.ReadRunOf | Sporty-Mobile/src/utility/helperFunctions.ts:37 | a digit run followed by a non-digit is captured as exactly that run |
| HelperFunctions.ConvertHours | Sporty-Mobile/src/utility/helperFunctions.ts:48-50 | PM adds 12 to any hour but 12; AM, a missing period or hour 12 leaves the hour unchanged |
| HelperFunctions.ParseExpirationDate | Sporty-Mobile/src/utility/helperFunctions.ts:36-59 | date arguments come out iff the pattern occurs somewhere in the string |
| HelperFunctions.EpochOrigin | Sporty-Mobile/src/utility/helperFunctions.ts:52-61 | local midnight of 1 January 1970 at offset 0 is instant 0, and the next day is one day of milliseconds later |
| HelperFunctions.LocalMillisHourShift | Sporty-Mobile/src/utility/helperFunctions.ts:52-61 | adding k hours to the Date constructor's hour argument moves the instant by k hours, across day boundaries |
| HelperFunctions.DateOnlyParse | Sporty-Mobile/src/utility/helperFunctions.ts:36-50 | a date with no time group is read as month − 1, day and year of its three runs at 0:00:00, except that a bare " PM" makes the hour 12 |
| HelperFunctions.DateOnlyExample | Sporty-Mobile/src/utility/helperFunctions.ts:36-50 | "3/4/2025" is parsed as 2025, month index 2, day 4, 0:00:00 |
| HelperFunctions.BarePeriodExample | Sporty-Mobile/src/utility/helperFunctions.ts:36-50 | "3/4/2025 PM" is parsed as the same day at 12:00:00 |
| HelperFunctions.ExpirationMillisOfParse | Sporty-Mobile/src/utility/helperFunctions.ts:35-63 | when the string parses, its expiration instant is the local-time Date of the parsed fields |
| HelperFunctions.CalculateExpirationTimeInMilliSeconds | Sporty-Mobile/src/utility/helperFunctions.ts:35-63 | the step-by-step parse with the mutable hour yields the expiration instant of the string, or nothing when the pattern does not match |
| HelperFunctions.GetExpirationDateTime | Sporty-Mobile/src/utility/helperFunctions.ts:23-33 | no stored expiration (absent or empty) gives 0; otherwise the parsed instant of the stored string |
| HelperFunctions.Hour12 | Sporty-Mobile/src/utility/helperFunctions.ts:15-21 | the en-US twelve-hour clock shows an hour between 1 and 12 |
| HelperFunctions.MatchTimeOf | Sporty-Mobile/src/utility/helperFunctions.ts:37 | the optional `, h:m:s` group captures exactly the three digit runs of a rendered time |
| HelperFunctions.MatchAtOf | Sporty-Mobile/src/utility/helperFunctions.ts:37 | at the start of a rendered date, the pattern captures month, day and year |
| HelperFunctions.FindMatchOfLayout | Sporty-Mobile/src/utility/helperFunctions.ts:36-38 | any text in the M/D/Y, h:m:s AM/PM layout is matched at its front, each group capturing its own digit run or period |
| HelperFunctions.PeriodRead | Sporty-Mobile/src/utility/helperFunctions.ts:37-46 | the suffix written for either period is captured as that period |
| HelperFunctions.TwelveHourRoundTrip | Sporty-Mobile/src/utility/helperFunctions.ts:48-50 | reading back the twelve-hour hour of any 24-hour hour gives the hour back, except that midnight gives 12 |
| HelperFunctions.RenderParseRoundTrip | Sporty-Mobile/src/utility/helperFunctions.ts:15-59 | parsing an en-US rendering gives back year, month − 1, day, minutes, seconds, and the hour with midnight read as 12 |
| HelperFunctions.RoundTripAwayFromMidnight | Sporty-Mobile/src/utility/helperFunctions.ts:15-59 | for hours 1–23 the parse recovers every field of the rendered wall-clock time |
| HelperFunctions.MidnightReadTwelveHoursLate | Sporty-Mobile/src/utility/helperFunctions.ts:43-59 | a rendered time in the midnight hour is read back as an instant 12 hours later |
| HelperFunctions.ExpirationTimeMonotone | Sporty-Mobile/src/utility/helperFunctions.ts:65-77 | the expiry instant grows with the seconds until expiry, by exactly 1000 ms per second |
| HelperFunctions.ExpirationTimeAtUtc | Sporty-Mobile/src/utility/helperFunctions.ts:65-77 | with a zero offset, the expiry instant is now plus the seconds in milliseconds |
| RegexValidator.FirstIndexOf | Sporty-Mobile/src/utility/RegexValidator.ts:2 | the index found holds the character and no earlier index does, or is the length when it is absent |
| RegexValidator.PatternIsMatched | Sporty-Mobile/src/utility/RegexValidator.ts:2 | every string of the pattern's shape is accepted by the matcher |
| RegexValidator.MatchedIsPattern | Sporty-Mobile/src/utility/RegexValidator.ts:2 | every string the matcher accepts has the pattern's shape |
| RegexValidator.MatchesEmailIsPattern | Sporty-Mobile/src/utility/RegexValidator.ts:2 | the matcher accepts a string iff it is a non-empty local part, '@', then segments joined by an inner '.', none containing whitespace or '@' |
| RegexValidator.ToLower | Sporty-Mobile/src/utility/RegexValidator.ts:3 | lowercasing keeps the length and maps each character to its lower-case form |
| RegexValidator.ToUpper | Sporty-Mobile/src/utility/RegexValidator.ts:3 | uppercasing keeps the length and maps each character to its upper-case form |
| RegexValidator.SegmentRespectsClasses | Sporty-Mobile/src/utility/RegexValidator.ts:2 | whether a string is a pattern segment depends only on which characters are '@', '.' or whitespace |
| RegexValidator.PatternRespectsClasses | Sporty-Mobile/src/utility/RegexValidator.ts:2 | two strings with the same '@', '.' and whitespace positions both match the pattern or both do not |
| RegexValidator.CaseKeepsClasses | Sporty-Mobile/src/utility/RegexValidator.ts:3 | changing letter case moves no '@', '.' or whitespace |
| RegexValidator.IsEmailValidMeansPattern | Sporty-Mobile/src/utility/RegexValidator.ts:1-4 | isEmailValid holds iff the lowercased string has the e-mail pattern's shape |
| RegexValidator.CaseInsensitive | Sporty-Mobile/src/utility/RegexValidator.ts:3 | upper- or lower-casing the input never changes the verdict |
| RegexValidator.ValidEmailShape | Sporty-Mobile/src/utility/RegexValidator.ts:2 | a valid address has exactly one '@', no whitespace, a non-empty part before the '@', and a '.' after it with a character on each side |
| RegexValidator.PiecesShape | Sporty-Mobile/src/utility/RegexValidator.ts:2 | local part, '@', segment, '.', segment, with segments free of '@' and whitespace, has one '@' and no whitespace |
| RegexValidator.EmptyEmailRejected | Sporty-Mobile/src/utility/RegexValidator.ts:2 | the empty string is never a valid address |
| RegexValidator.RejectedInputs | Sporty-Mobile/src/utility/RegexValidator.ts:2 | the empty string is invalid, and so is any string containing whitespace |
| HttpClient.RequestConfig.constructor | Sporty-Mobile/src/api/httpClient.ts:124 | a request config holds the given headers and data |
| HttpClient.HandleRefreshToken | Sporty-Mobile/src/api/httpClient.ts:19-84 | the store reads, the provider call, the dispatched reducers and the header write equal Coordinate of the old session; the header is written only when the config and its headers exist; the config's data is untouched |
| HttpClient.MissingCredentialsDoNothing | Sporty-Mobile/src/api/httpClient.ts:22-26 | when accessToken, refreshToken or userId is missing or empty: no header, no dispatch, no provider call |
| HttpClient.RefreshTrigger | Sporty-Mobile/src/api/httpClient.ts:27-30 | the provider is called iff the stored expiration is strictly before now; an expiration equal to now is still valid |
| HttpClient.MissingExpirationRefreshes | Sporty-Mobile/src/api/httpClient.ts:27-30 | a missing or empty stored expiration reads as 0, so for any positive now the provider is called |
| HttpClient.ProviderCallShape | Sporty-Mobile/src/api/httpClient.ts:30-38 | the provider is called at most once, only in the expired branch, with grant type "refresh_token" and the stored refresh token |
| HttpClient.RefreshSuccess | Sporty-Mobile/src/api/httpClient.ts:40-67 | a 200 reply authenticates with the new tokens, the stored userId and the converted new expiry, and the header becomes Bearer of the new access token |
| HttpClient.RefreshFailure | Sporty-Mobile/src/api/httpClient.ts:38-70 | no reply or a non-200 status logs out and writes no header |
| HttpClient.ValidTokenKeepsStore | Sporty-Mobile/src/api/httpClient.ts:71-81 | a valid token gives Bearer of the stored access token, and the store keeps its userId and expiration entries |
| HttpClient.UnreadableExpirationThrows | Sporty-Mobile/src/api/httpClient.ts:27-28 | a stored expiration the pattern does not match makes the coordinator throw before any dispatch or header write |
| HttpClient.PreparedHeaders | Sporty-Mobile/src/api/httpClient.ts:128-146 | fullyTyped adds JsonSettings: FullyTyped; without an explicit client Content-Type is application/json; other existing headers are kept, and with a client and no fullyTyped nothing changes |
| HttpClient.HandleErrors | Sporty-Mobile/src/api/httpClient.ts:175-178 | the result carries the error's response and no data |
| HttpClient.Classify | Sporty-Mobile/src/api/httpClient.ts:115-172 | a delivered response gives its data and no error; a thrown error gives its response as error and no data |
| HttpClient.PrepareConfig | Sporty-Mobile/src/api/httpClient.ts:128-146 | the config sent carries PreparedHeaders of the caller's headers and the body as data; with fullyTyped it is a fresh copy and the caller's object is untouched, otherwise it is the caller's object |
| HttpClient.Intercept | Sporty-Mobile/src/api/httpClient.ts:96-112 | the interceptor leaves the session as the coordinator does; the headers sent gain the coordinator's Authorization when it has one, and nothing is sent when the coordinator throws |
| HttpClient.AwaitResponse | Sporty-Mobile/src/api/httpClient.ts:147-178 | a delivered request gives parseJson's data and no error; a thrown one gives its response as error, through either catch branch, and no data |
| HttpClient.VerbHttpClient | Sporty-Mobile/src/api/httpClient.ts:96-173 | result, session and sent request equal Gateway of the old session; with fullyTyped the caller's options are not touched, otherwise their data and headers are overwritten |
| HttpClient.PostHttpClient | Sporty-Mobile/src/api/httpClient.ts:180-187 | a post through the factory client, with the body |
| HttpClient.GetHttpClient | Sporty-Mobile/src/api/httpClient.ts:189-203 | a get without body; with noPrefixUrl the explicit client skips the interceptor, so the session is unchanged |
| HttpClient.PutHttpClient | Sporty-Mobile/src/api/httpClient.ts:205-212 | a put through the factory client, with the body |
| HttpClient.DeleteHttpClient | Sporty-Mobile/src/api/httpClient.ts:214-221 | a delete through the factory client; the body is serialised into the config, not passed to the verb |
| HttpClient.ResultShape | Sporty-Mobile/src/api/httpClient.ts:141-172 | a delivered request gives its data and no error; a failed one gives the thrown response as error, whatever its status, and no data; nothing is sent iff the factory's interceptor throws |
| HttpClient.CatchBranchesAgree | Sporty-Mobile/src/api/httpClient.ts:166-178 | the status-below-400 catch branch and handleErrors give the same result |
| HttpClient.ExplicitClientSkipsInterceptor | Sporty-Mobile/src/api/httpClient.ts:101-146 | with an explicit client the interceptor never runs: the session is untouched and the request carries only the fullyTyped preparation of the caller's headers |
| HttpClient.FactoryRequestHeaders | Sporty-Mobile/src/api/httpClient.ts:96-146 | through the factory the interceptor runs on the request's config: Content-Type is set and the coordinator's Authorization is the one sent |
| Navigation.IsOnboardingCompleted | Sporty-Mobile/src/navigation/Navigation.tsx:117-118 | onboarding is complete iff a user exists with status RegisteredClubs |
| Navigation.ChooseStack | Sporty-Mobile/src/navigation/Navigation.tsx:121-129 | authenticated and complete gives the authenticated stack; authenticated and incomplete the onboarding stack; not authenticated the unauthenticated stack; each iff |
| Navigation.InitialRouteName | Sporty-Mobile/src/navigation/Navigation.tsx:39-51 | status None starts at FavouriteLeague, RegisteredLeagues at FavouriteTeam; no route iff no user or RegisteredClubs |
| Navigation.StatusBarStyle | Sporty-Mobile/src/navigation/Navigation.tsx:98-103 | the bar is dark-content iff the theme type is Light |
| Navigation.SignedOutIgnoresUser | Sporty-Mobile/src/navigation/Navigation.tsx:122-128 | signed out, the unauthenticated stack is chosen whatever the user |
| Navigation.OnboardingStackHasRoute | Sporty-Mobile/src/navigation/Navigation.tsx:39-129 | for a signed-in user the onboarding stack is chosen iff there is an initial onboarding route |
| Navigation.AutoGetsLightContent | Sporty-Mobile/src/navigation/Navigation.tsx:99-103 | Auto and Dark get light-content, Light gets dark-content |
| ThemeProvider.UseThemeType | Sporty-Mobile/src/providers/ThemeProvider.tsx:47-54 | the resolved type is never Auto; Auto becomes Light iff the system scheme is "light"; other types are unchanged |
| ThemeProvider.GetColours | Sporty-Mobile/src/providers/ThemeProvider.tsx:81-90 | the palette is one of the two; Dark gives the dark palette and Light the light one whatever the system |
| ThemeProvider.ColoursFollowResolvedType | Sporty-Mobile/src/providers/ThemeProvider.tsx:47-90 | the palette of a type equals the palette of its resolved type |
| ThemeProvider.LightPaletteExactly | Sporty-Mobile/src/providers/ThemeProvider.tsx:81-90 | the light palette is chosen iff the type is Light, or Auto with a "light" system scheme |
| ThemeProvider.SharedPrimary | Sporty-Mobile/src/providers/ThemeProvider.tsx:18-34 | both palettes use primary #27AE60, and the palettes differ |
| ThemeProvider.ThemeProviderState.constructor | Sporty-Mobile/src/providers/ThemeProvider.tsx:36-64 | the provider starts at Dark, and the system type is the default Light resolved against the system scheme |
| ThemeProvider.ThemeProviderState.GetUserTheme | Sporty-Mobile/src/providers/ThemeProvider.tsx:67-79 | the new type is the stored-theme mapping of the "theme" key, from the old type |
| ThemeProvider.StoredAutoIsLight | Sporty-Mobile/src/providers/ThemeProvider.tsx:36-75 | stored "auto" always yields Light, because it resolves the default type Light |
| ThemeProvider.StoredThemeMapping | Sporty-Mobile/src/providers/ThemeProvider.tsx:64-77 | stored "light" and "dark" give Light and Dark; any other or absent value leaves the type unchanged |
| ThemeProvider.ProviderPaletteIgnoresScheme | Sporty-Mobile/src/providers/ThemeProvider.tsx:64-90 | starting from Dark, the provider's palette after reading the store does not depend on the system scheme |
| OtpInput.OtpInputState.constructor | Sporty-Mobile/src/components/onboarding/OtpInput.tsx:23-39 | four empty boxes, focus on the first, incomplete, countdown inactive |
| OtpInput.OtpInputState.HandleCodeChange | Sporty-Mobile/src/components/onboarding/OtpInput.tsx:60-79 | the new state is CodeChange of the old one |
| OtpInput.OtpInputState.CountdownTick | Sporty-Mobile/src/components/onboarding/OtpInput.tsx:41-58 | the new state is Tick of the old one |
| OtpInput.CodeChangeWritesOneBox | Sporty-Mobile/src/components/onboarding/OtpInput.tsx:60-63 | only box index receives the text; the other boxes and the number of boxes are unchanged |
| OtpInput.CompleteIffAllSingle | Sporty-Mobile/src/components/onboarding/OtpInput.tsx:77-78 | the code is complete iff every box holds exactly one character |
| OtpInput.FocusMoves | Sporty-Mobile/src/components/onboarding/OtpInput.tsx:23-75 | one character moves focus forward, to 4 from the last box; an empty box moves it back except at box 0; otherwise focus stays, so at most one move happens |
| OtpInput.TypingFourDigitsCompletes | Sporty-Mobile/src/components/onboarding/OtpInput.tsx:60-79 | typing one digit in each of the four boxes completes the code with those digits |
| OtpInput.TickCountsDown | Sporty-Mobile/src/components/onboarding/OtpInput.tsx:41-58 | an active tick decrements the countdown by 1 and deactivates it exactly when it reaches 0 |
| OtpInput.CountdownRunsOut | Sporty-Mobile/src/components/onboarding/OtpInput.tsx:41-58 | after k of n ticks the countdown shows n − k and is active iff k < n; the boxes and focus are untouched |
| OtpInput.StoppedCountdownStays | Sporty-Mobile/src/components/onboarding/OtpInput.tsx:41-52 | an inactive countdown never changes |
| Selection.Remove | Sporty-Mobile/src/screens/Onboarding/FavouriteLeague.tsx:99-101 | filtering removes every copy of the id and keeps the membership of every other id |
| Selection.RemoveConcat | Sporty-Mobile/src/screens/Onboarding/FavouriteLeague.tsx:99-101 | filtering distributes over concatenation, so order is kept |
| Selection.RemoveAbsent | Sporty-Mobile/src/screens/Onboarding/FavouriteLeague.tsx:99-101 | filtering out an absent id changes nothing |
| Selection.RemoveKeepsDistinct | Sporty-Mobile/src/screens/Onboarding/FavouriteLeague.tsx:99-101 | filtering keeps a selection free of duplicates |
| Selection.ToggleFlips | Sporty-Mobile/src/screens/Onboarding/FavouriteLeague.tsx:95-109 | a toggle flips the id's membership and keeps every other id's |
| Selection.ToggleKeepsDistinct | Sporty-Mobile/src/screens/Onboarding/FavouriteTeam.tsx:65-73 | a duplicate-free selection stays duplicate-free |
| Selection.DistinctElsewhere | Sporty-Mobile/src/screens/Onboarding/FavouriteLeague.tsx:99-103 | in a duplicate-free selection, an id occurs neither before nor after its own position |
| Selection.ToggleShape | Sporty-Mobile/src/screens/Onboarding/FavouriteLeague.tsx:99-101 | toggling a present id removes just its position and keeps the others in order |
| Selection.DoubleToggleRestores | Sporty-Mobile/src/screens/Onboarding/FavouriteLeague.tsx:99-103 | toggling an absent id twice restores the list exactly |
| Selection.DoubleTogglePresent | Sporty-Mobile/src/screens/Onboarding/FavouriteLeague.tsx:99-103 | toggling a present id twice moves it to the end |
| FavouriteLeague.FindLogo | Sporty-Mobile/src/screens/Onboarding/FavouriteLeague.tsx:114-116 | the logo of the first entry with an equal name, and nothing iff no entry has that name |
| FavouriteLeague.BundledLogos | Sporty-Mobile/src/screens/Onboarding/FavouriteLeague.tsx:42-63 | the bundled names map to their asset paths and any other name has no logo |
| FavouriteLeague.League.constructor | Sporty-Mobile/src/screens/Onboarding/FavouriteLeague.tsx:111-122 | a league holds its id, name and logo |
| FavouriteLeague.PopulatedLeaguesWithLogos | Sporty-Mobile/src/screens/Onboarding/FavouriteLeague.tsx:111-122 | the same leagues, in the same order, each with its logo overwritten by the table lookup of its name |
| FavouriteLeague.FavouriteLeagueScreen.constructor | Sporty-Mobile/src/screens/Onboarding/FavouriteLeague.tsx:37-40 | no league selected and no message |
| HttpClient.ExpiredSessionThrowsAsWritten | Sporty-Mobile/src/api/httpClient.ts:17-38 | as written, with credentials and an expiration before now the coordinator throws with the session untouched and no provider call, where the intended one refreshes or logs out after calling the provider with the stored refresh token |
| HttpClient.AsWrittenAgreesUnlessExpired | Sporty-Mobile/src/api/httpClient.ts:19-84 | in every branch that does not call the provider, the code as written and the intended coordinator give the same result |
| FavouriteLeague.FavouriteLeagueScreen.HandleOnPressLeague | Sporty-Mobile/src/screens/Onboarding/FavouriteLeague.tsx:95-105 | the selection becomes its toggle and the error message is cleared |
| FavouriteLeague.FavouriteLeagueScreen.IsDisabled | Sporty-Mobile/src/screens/Onboarding/FavouriteLeague.tsx:125 | Next is disabled iff nothing is selected |
| FavouriteLeague.FavouriteLeagueScreen.OnPressNext | Sporty-Mobile/src/screens/Onboarding/FavouriteLeague.tsx:148-168 | an empty selection sets the message and sends nothing; otherwise the selection is sent and the message is kept |
| FavouriteTeam.FavouriteTeamScreen.constructor | Sporty-Mobile/src/screens/Onboarding/FavouriteTeam.tsx:31-34 | no club selected and no message |
| FavouriteTeam.FavouriteTeamScreen.OnPressClub | Sporty-Mobile/src/screens/Onboarding/FavouriteTeam.tsx:65-73 | the selection becomes its toggle and the error message is cleared |
| FavouriteTeam.FavouriteTeamScreen.IsDisabled | Sporty-Mobile/src/screens/Onboarding/FavouriteTeam.tsx:78 | Next is disabled iff nothing is selected |
| FavouriteTeam.FavouriteTeamScreen.OnPressNext | Sporty-Mobile/src/screens/Onboarding/FavouriteTeam.tsx:111-134 | an empty selection sets the message and sends nothing; otherwise createClubInterestAsync is called with its two arguments, the user id and the selection |
| FavouriteTeam.SelectionDroppedAsWritten | Sporty-Mobile/src/screens/Onboarding/FavouriteTeam.tsx:114-118 | as written, the posted `clubIds` field is the user id (or is omitted), never the ids, and is the same for any two selections of the same user |
| FavouriteTeam.SelectionPosted | Sporty-Mobile/src/screens/Onboarding/FavouriteTeam.tsx:114-118 | as intended, the posted field is exactly the selected ids, so two bodies agree iff the selections do |
| NewPassword.SetField | Sporty-Mobile/src/screens/Onboarding/NewPassword.tsx:86 | the named field takes the text and the other field is unchanged |
| NewPassword.ValidationErrors | Sporty-Mobile/src/screens/Onboarding/NewPassword.tsx:47-56 | a field has an error iff it is shorter than 8 characters |
| NewPassword.Contains | Sporty-Mobile/src/screens/Onboarding/NewPassword.tsx:118 | the substring test holds iff the text occurs at some position |
| NewPassword.NoFourNoMatch | Sporty-Mobile/src/screens/Onboarding/NewPassword.tsx:118 | a message with no '4' never contains "400" |
| NewPassword.ErrorMapping | Sporty-Mobile/src/screens/Onboarding/NewPassword.tsx:117-124 | a first message containing "400" shows "Invalid email or password"; any other is shown verbatim; no error list shows nothing |
| NewPassword.ErrorMappingExamples | Sporty-Mobile/src/screens/Onboarding/NewPassword.tsx:118-124 | "Request failed 400" maps to the fixed text; "Expired code" is shown as is |
| NewPassword.NewPasswordForm.constructor | Sporty-Mobile/src/screens/Onboarding/NewPassword.tsx:42-44 | empty fields, match flag true, empty message |
| NewPassword.NewPasswordForm.HandleConfirmPassword | Sporty-Mobile/src/screens/Onboarding/NewPassword.tsx:85-92 | only the named field changes, and the match flag follows the edit rule on the values before the edit |
| NewPassword.NewPasswordForm.MaySubmit | Sporty-Mobile/src/screens/Onboarding/NewPassword.tsx:94-103 | submission proceeds iff both fields have at least 8 characters |
| NewPassword.NewPasswordForm.FormSubmitted | Sporty-Mobile/src/screens/Onboarding/NewPassword.tsx:112-149 | an error or missing data shows the mapped message and fails with the session unchanged; success authenticates with the reply's tokens and user id and then sets the user |
| NewPassword.GateIgnoresMatchFlag | Sporty-Mobile/src/screens/Onboarding/NewPassword.tsx:94-110 | the gate is exactly the two length checks, so two different 9-character passwords pass it |
| NewPassword.MatchFlagCases | Sporty-Mobile/src/screens/Onboarding/NewPassword.tsx:87-91 | editing the password compares with a non-empty confirmation and otherwise keeps the flag; editing the confirmation compares with the password |
| NewPassword.EqualFieldsMatch | Sporty-Mobile/src/screens/Onboarding/NewPassword.tsx:85-91 | typing into one field the other's non-empty text sets the match flag |

## Findings

| source | as written | input that shows it | evidently intended | confidence | as-written member | corrected member |
|---|---|---|---|---|---|---|
| Sporty-Mobile/src/api/httpClient.ts:17-38 | imports `refrehUserTokenAsync`, which the Firebase service does not export, and calls it when the token has expired | any stored session with all three credentials whose expiration lies before now | call `refreshUserTokenAsync` and then authenticate on a 200 reply or log out otherwise | not executed | HttpClient.ExpiredSessionThrowsAsWritten | HttpClient.RefreshSuccess |
| Sporty-Mobile/src/screens/Onboarding/FavouriteTeam.tsx:114-118 | calls `createClubInterestAsync(user?.id!, clubIds)`, whose only parameter is `clubIds` | any non-empty selection, e.g. clubs ["a"] for user "u" posts `{clubIds: "u"}` | post the selected ids as `clubIds` | not executed | FavouriteTeam.SelectionDroppedAsWritten | FavouriteTeam.SelectionPosted |

## Left out

- Rendering, styles, layout and animation of every screen and component are not modelled.
- Network calls are not modelled. The identity provider's reply and the transport outcome are parameters.
- `toLocaleString` with an IANA time zone and `getCalendars` are not modelled. The converted string is an opaque function of the instant wherever it is only stored. The parser round trip uses an explicit model of the en-US wall-clock layout; it does not model the narrow no-break space some ICU versions put before AM/PM.
- Daylight-saving time is not modelled: the device offset is one fixed number of minutes.
- JavaScript's `NaN` and the `Date` range are not modelled, e.g. a non-numeric `expires_in` or a year past the range, where `toISOString` throws.
- HttpClient.HandleRefreshToken: models the provider call the code evidently intends. As written, the import `refrehUserTokenAsync` (httpClient.ts:17) names nothing the Firebase service exports (it exports `refreshUserTokenAsync`), so the expired branch throws a TypeError at httpClient.ts:38; that behaviour is `CoordinateAsWritten`, listed under Findings.
- FavouriteTeam.FavouriteTeamScreen.OnPressNext: returns the two arguments of the call; `createClubInterestAsync` takes only `clubIds`, so the body actually posted is `PostedAsWritten`, listed under Findings.
- NewPassword.ValidationErrors, NewPassword.NewPasswordForm.MaySubmit, the OtpInput `length === 1` checks (OtpInput.NextFocus and OtpInput.AllEntered) and HelperFunctions.FirstLetters count characters as Unicode scalar values; JavaScript counts UTF-16 code units, so a character outside the Basic Multilingual Plane (an emoji) counts 1 here and 2 there, and `word[0]` there yields half of it.
- ThemeProvider.ThemeProviderState.Valid: `themeType != Auto` holds because the context's `setType` (ThemeProvider.tsx:97), through which a consumer could store any value, is not modelled; only the stored-theme load writes the type.
- HttpClient.HandleRefreshToken: `Date.now()` and the clock read inside `calculateExpirationTime` are taken as the same instant `now`.
- The fire-and-forget `storeTokens`/`removeTokens` promises and concurrent coordinator runs are not modelled; each coordinator call is atomic.
- `JSON.stringify` of the request body is abstracted: the body is an already serialised optional string.
- RegexValidator.ToLower: folds ASCII letters only; `toLowerCase` on other scripts does not change the verdict, since only '@', '.' and whitespace matter to the pattern.
- OtpInput.OtpInputState.HandleCodeChange: requires the index to be within the box array, which the rendered boxes guarantee; out-of-range writes that would grow a JavaScript array are not modelled.
- The OAuth flow (`authUtils.ts`) and the `OauthType` enum it uses, the remaining screens, the backend middleware and `scaling.ts` (floating point) are not part of this model.
- Navigation after a successful request (the screens' `navigation.navigate` calls) is not modelled.
